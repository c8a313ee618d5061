/**
 Time-ordered identifiers (uli/ids.py): a millisecond timestamp and 80 random bits as 26 characters
 of Crockford's base 32, compared with the "Encoding" and "Sorting" sections of the ULID specification.
 */
module Ulid {
  import opened Basics

  const ALPHABET := "0123456789ABCDEFGHJKMNPQRSTVWXYZ"

  function Symbol(d: nat): char
    requires d < 32
  {
    ALPHABET[d]
  }

  function Pow32(n: nat): (p: nat)
    ensures p > 0
  {
    if n == 0 then 1 else 32 * Pow32(n - 1)
  }

  const TWO_80: nat := 0x1_0000_0000_0000_0000_0000
  const TWO_50: nat := 0x4_0000_0000_0000

  /** The last n base-32 digits of v, most significant first. */
  function Encoded(v: nat, n: nat): (s: string)
    ensures |s| == n
  {
    if n == 0 then "" else Encoded(v / 32, n - 1) + [Symbol(v % 32)]
  }

  /** The value a string of symbols stands for. */
  ghost function Decoded(s: string): nat {
    if s == "" then 0 else 32 * Decoded(s[..|s| - 1]) + Digit(s[|s| - 1])
  }

  ghost function Digit(c: char): nat {
    if d: nat :| d < 32 && Symbol(d) == c then d else 0
  }

  /** The value of an identifier: the timestamp shifted by 80 bits, the random bits below it. */
  function Combined(t: nat, rnd: nat): nat { t * TWO_80 + rnd }

  method Generate(t: nat, rnd: nat) returns (id: string)
    requires rnd < TWO_80
    ensures id == Encoded(Combined(t, rnd), 26)
  {
    var v := Combined(t, rnd);
    ghost var whole := v;
    var out := "";
    for i := 0 to 26
      invariant Encoded(whole, 26) == Encoded(v, 26 - i) + Reversed(out)
    {
      ReversedSnoc(out, Symbol(v % 32));
      out := out + [Symbol(v % 32)];
      v := v / 32;
    }
    id := Reversed(out);
    assert Encoded(v, 0) + id == id;
  }

  // ------------------------------------------------------------ decoding

  /** The place of a symbol in the alphabet, by the ranges of letters that are not left out. */
  function Code(d: nat): int
    requires d < 32
  {
    if d < 10 then 48 + d
    else if d < 18 then 55 + d
    else if d < 20 then 56 + d
    else if d < 22 then 57 + d
    else if d < 27 then 58 + d
    else 59 + d
  }

  lemma SymbolCode(d: nat)
    requires d < 32
    ensures Symbol(d) as int == Code(d)
  {
    var low, mid, high := "0123456789ABCDEF", "GHJKMNPQ", "RSTVWXYZ";
    assert ALPHABET == low + mid + high;
    assert d < 16 ==> ALPHABET[d] == low[d];
    assert 16 <= d < 24 ==> ALPHABET[d] == mid[d - 16];
    assert 24 <= d ==> ALPHABET[d] == high[d - 24];
  }

  lemma SymbolsAscend(c: nat, d: nat)
    requires c < 32 && d < 32
    ensures Symbol(c) < Symbol(d) <==> c < d
  {
    hide Symbol;
    SymbolCode(c);
    SymbolCode(d);
  }

  lemma DigitOfSymbol(d: nat)
    requires d < 32
    ensures Digit(Symbol(d)) == d
  {
    hide Symbol;
    var e: nat :| e < 32 && Symbol(e) == Symbol(d) && Digit(Symbol(d)) == e;
    SymbolsAscend(d, e);
    SymbolsAscend(e, d);
  }

  /** Decoding gives back the value modulo 32^n: exactly the value if and only if it fits n digits. */
  lemma {:induction false} DecodesBack(v: nat, n: nat)
    ensures Decoded(Encoded(v, n)) < Pow32(n)
    ensures Decoded(Encoded(v, n)) == v <==> v < Pow32(n)
  {
    hide Symbol, Digit;
    if n > 0 {
      DecodesBack(v / 32, n - 1);
      DigitOfSymbol(v % 32);
      assert Encoded(v, n)[..n - 1] == Encoded(v / 32, n - 1);
    }
  }

  // ------------------------------------------------------------ order

  /** Comparison of equally long strings, as any sort of identifiers does it. */
  predicate Before(a: string, b: string)
    requires |a| == |b|
  {
    a != "" && (a[0] < b[0] || (a[0] == b[0] && Before(a[1..], b[1..])))
  }

  lemma {:induction false} BeforeSnoc(a: string, b: string, x: char, y: char)
    requires |a| == |b|
    ensures Before(a + [x], b + [y]) <==> Before(a, b) || (a == b && x < y)
  {
    if a == "" {
      assert (a + [x])[1..] == "";
    } else {
      BeforeSnoc(a[1..], b[1..], x, y);
      assert (a + [x])[1..] == a[1..] + [x] && (b + [y])[1..] == b[1..] + [y];
      assert a == [a[0]] + a[1..] && b == [b[0]] + b[1..];
    }
  }

  /** String order is numeric order, and different values have different strings. */
  lemma {:induction false} OrderIsNumeric(u: nat, v: nat, n: nat)
    requires u < Pow32(n) && v < Pow32(n)
    ensures Before(Encoded(u, n), Encoded(v, n)) <==> u < v
    ensures Encoded(u, n) == Encoded(v, n) <==> u == v
  {
    hide Symbol;
    if n > 0 {
      OrderIsNumeric(u / 32, v / 32, n - 1);
      SymbolsAscend(u % 32, v % 32);
      SymbolsAscend(v % 32, u % 32);
      var a, b := Encoded(u / 32, n - 1), Encoded(v / 32, n - 1);
      BeforeSnoc(a, b, Symbol(u % 32), Symbol(v % 32));
      assert (a + [Symbol(u % 32)])[..n - 1] == a && (b + [Symbol(v % 32)])[..n - 1] == b;
      assert (a + [Symbol(u % 32)])[n - 1] == Symbol(u % 32) && (b + [Symbol(v % 32)])[n - 1] == Symbol(v % 32);
    }
  }

  lemma {:induction false} DivideTwice(v: nat, p: nat)
    requires p > 0
    ensures v / 32 / p == v / (32 * p)
  {
    var q := v / 32 / p;
    var r := v / 32 - q * p;
    assert v / 32 == q * p + r && 0 <= r < p;
    assert v == 32 * (v / 32) + v % 32;
    assert v == q * (32 * p) + (32 * r + v % 32);
    DivisionIsUnique(v, 32 * p, q, 32 * r + v % 32);
  }

  /** The leading n of n + m digits encode the value without its last m digits. */
  lemma {:induction false} LeadingDigits(v: nat, n: nat, m: nat)
    ensures Encoded(v, n + m)[..n] == Encoded(v / Pow32(m), n)
    decreases m
  {
    hide Symbol;
    if m == 0 {
      assert Encoded(v, n)[..n] == Encoded(v, n);
    } else {
      LeadingDigits(v / 32, n, m - 1);
      DivideTwice(v, Pow32(m - 1));
      assert Encoded(v, n + m)[..n] == Encoded(v / 32, n + m - 1)[..n];
    }
  }

  lemma Powers()
    ensures Pow32(16) == TWO_80 && Pow32(10) == TWO_50 && Pow32(26) == TWO_50 * TWO_80
  {
    assert Pow32(4) == 0x10_0000;
    assert Pow32(8) == 0x100_0000_0000;
    assert Pow32(12) == 0x1000_0000_0000_0000;
    assert Pow32(20) == TWO_80 * 0x10_0000;
    assert Pow32(24) == TWO_80 * 0x100_0000_0000;
  }

  lemma CombinedParts(t: nat, rnd: nat)
    requires rnd < TWO_80
    ensures Combined(t, rnd) / TWO_80 == t
    ensures Combined(t, rnd) < TWO_50 * TWO_80 <==> t < TWO_50
  {
    DivisionIsUnique(Combined(t, rnd), TWO_80, t, rnd);
    MultipleGrows(TWO_50 - t, TWO_80);
    assert (TWO_50 - t) * TWO_80 == TWO_50 * TWO_80 - t * TWO_80;
  }

  /** An identifier decodes to its 130-bit value exactly for timestamps below 2^50, and its first ten
      characters are the encoding of the timestamp alone. */
  lemma {:induction false} IdentifierDecodes(t: nat, rnd: nat)
    requires rnd < TWO_80
    ensures var id := Encoded(Combined(t, rnd), 26);
            && (Decoded(id) == Combined(t, rnd) <==> t < TWO_50)
            && id[..10] == Encoded(t, 10)
  {
    hide Encoded, Decoded, Pow32, Combined;
    Powers();
    CombinedParts(t, rnd);
    DecodesBack(Combined(t, rnd), 26);
    LeadingDigits(Combined(t, rnd), 10, 16);
  }

  /** A later millisecond sorts later whatever the random bits, and within one the random bits decide. */
  lemma LaterSortsLater(t1: nat, r1: nat, t2: nat, r2: nat)
    requires r1 < TWO_80 && r2 < TWO_80 && t1 < TWO_50 && t2 < TWO_50
    ensures Before(Encoded(Combined(t1, r1), 26), Encoded(Combined(t2, r2), 26))
            <==> t1 < t2 || (t1 == t2 && r1 < r2)
  {
    hide Encoded, Before, Pow32;
    Powers();
    CombinedParts(t1, r1);
    CombinedParts(t2, r2);
    OrderIsNumeric(Combined(t1, r1), Combined(t2, r2), 26);
    MultipleGrows(t2 - t1, TWO_80);
    assert (t2 - t1) * TWO_80 == t2 * TWO_80 - t1 * TWO_80;
  }
}
