/**
 Framing of a syslog TCP stream (collector/cmd/uli-collector/main.go, `handleTCP`): octet counting of
 section 3.4.1 of RFC 6587 when a frame starts with a digit, and the newline framing of section 3.4.2
 otherwise.
 */
module Framing {
  import opened Basics

  const LF: byte := 10
  const CR: byte := 13
  const SP: byte := 32
  const MAX_FRAME := 0x10_0000

  predicate IsDigit(b: byte) { 48 <= b <= 57 }

  /** The first position of a byte, or the length if it does not occur. */
  function Find(s: Bytes, b: byte): (k: nat)
    ensures k <= |s| && (forall i :: 0 <= i < k ==> s[i] != b) && (k < |s| ==> s[k] == b)
  {
    if s == [] || s[0] == b then 0 else 1 + Find(s[1..], b)
  }

  /** The width of the white-space character a byte string ends in, in UTF-8; 0 if it ends in none. */
  function SpaceWidth(s: Bytes): (w: nat)
    ensures w <= |s|
  {
    var n := |s|;
    if n >= 1 && (9 <= s[n - 1] <= 13 || s[n - 1] == SP) then 1
    else if n >= 2 && s[n - 2] == 0xC2 && (s[n - 1] == 0x85 || s[n - 1] == 0xA0) then 2
    else if n >= 3 && WideSpace(s[n - 3], s[n - 2], s[n - 1]) then 3
    else 0
  }

  predicate WideSpace(a: byte, b: byte, c: byte) {
    || (a == 0xE1 && b == 0x9A && c == 0x80)
    || (a == 0xE2 && b == 0x80 && (0x80 <= c <= 0x8A || c == 0xA8 || c == 0xA9 || c == 0xAF))
    || (a == 0xE2 && b == 0x81 && c == 0x9F)
    || (a == 0xE3 && b == 0x80 && c == 0x80)
  }

  function TrimSpaceRight(s: Bytes): Bytes {
    var w := SpaceWidth(s);
    if w == 0 then s else TrimSpaceRight(s[..|s| - w])
  }

  function TrimLineEnd(s: Bytes): (t: Bytes)
    ensures |t| <= |s| && t == s[..|t|]
  {
    if s != [] && (s[|s| - 1] == CR || s[|s| - 1] == LF) then TrimLineEnd(s[..|s| - 1]) else s
  }

  predicate AllDigits(s: Bytes) { forall i :: 0 <= i < |s| ==> IsDigit(s[i]) }

  function DigitValue(b: byte): nat
    requires IsDigit(b)
  {
    b as int - 48
  }

  function Value(digits: Bytes): nat
    requires AllDigits(digits)
  {
    if digits == [] then 0 else Value(digits[..|digits| - 1]) * 10 + DigitValue(digits[|digits| - 1])
  }

  /** The length field of a counted frame, space included; only a usable length is a value. */
  function FrameLength(field: Bytes): (n: Option<nat>)
    ensures n.Some? ==> 1 <= n.value <= MAX_FRAME
  {
    var digits := TrimSpaceRight(field);
    if digits == [] || !AllDigits(digits) then None
    else
      var n := Value(digits);
      if n == 0 || n > MAX_FRAME then None else Some(n)
  }

  /** One turn of the reading loop: the message it adds, if any, and the bytes left unless it hangs up. */
  datatype Turn = Turn(msgs: seq<Bytes>, rest: Option<Bytes>)

  const HANG_UP := Turn([], None)

  function ReadCounted(s: Bytes): (t: Turn)
    requires s != [] && IsDigit(s[0])
    ensures t.rest.Some? ==> |t.rest.value| < |s|
  {
    var k := Find(s, SP);
    if k == |s| then HANG_UP
    else
      var n := FrameLength(s[..k + 1]);
      if n.None? || |s| - (k + 1) < n.value then HANG_UP
      else Turn([s[k + 1..k + 1 + n.value]], Some(s[k + 1 + n.value..]))
  }

  function ReadLine(s: Bytes): (t: Turn)
    requires s != []
    ensures t.rest.Some? ==> |t.rest.value| < |s|
  {
    var k := Find(s, LF);
    var line := TrimLineEnd(s[..k]);
    Turn(if line == [] then [] else [line], if k == |s| then None else Some(s[k + 1..]))
  }

  function ReadTurn(s: Bytes): (t: Turn)
    requires s != []
    ensures t.rest.Some? ==> |t.rest.value| < |s|
  {
    if IsDigit(s[0]) then ReadCounted(s) else ReadLine(s)
  }

  /** The messages of a connection that sends these bytes and closes. */
  function Frames(s: Bytes): seq<Bytes>
    decreases |s|
  {
    if s == [] then []
    else
      var t := ReadTurn(s);
      t.msgs + if t.rest.None? then [] else Frames(t.rest.value)
  }

  // ------------------------------------------------------------ the reader

  method FindByte(s: Bytes, b: byte) returns (k: nat)
    ensures k == Find(s, b)
  {
    k := 0;
    while k < |s| && s[k] != b
      invariant k <= |s| && Find(s, b) == k + Find(s[k..], b)
    {
      assert s[k..][1..] == s[k + 1..];
      k := k + 1;
    }
  }

  /** One turn, step by step; `open` is false when the connection is given up or has ended. */
  method Turn1(s: Bytes) returns (msgs: seq<Bytes>, open: bool, rest: Bytes)
    requires s != []
    ensures Turn(msgs, if open then Some(rest) else None) == ReadTurn(s)
  {
    msgs, open, rest := [], false, [];
    if IsDigit(s[0]) {
      var k := FindByte(s, SP);
      if k == |s| {
        return;
      }
      var n := FrameLength(s[..k + 1]);
      if n.None? || |s| - (k + 1) < n.value {
        return;
      }
      return [s[k + 1..k + 1 + n.value]], true, s[k + 1 + n.value..];
    }
    var k := FindByte(s, LF);
    var line := TrimLineEnd(s[..k]);
    if line != [] {
      msgs := [line];
    }
    if k < |s| {
      open, rest := true, s[k + 1..];
    }
  }

  method HandleTcp(stream: Bytes) returns (msgs: seq<Bytes>)
    ensures msgs == Frames(stream)
  {
    hide ReadTurn;
    msgs := [];
    var rest := stream;
    while rest != []
      invariant msgs + Frames(rest) == Frames(stream)
      decreases |rest|
    {
      var added, open, left := Turn1(rest);
      assert msgs + (added + (if open then Frames(left) else [])) == (msgs + added) + if open then Frames(left) else [];
      msgs := msgs + added;
      if !open {
        return;
      }
      rest := left;
    }
  }

  // ------------------------------------------------------------ the sender

  datatype Frame = Counted(msg: Bytes) | Line(msg: Bytes)

  function Decimal(n: nat): Bytes {
    (if n < 10 then [] else Decimal(n / 10)) + [48 + (n % 10) as byte]
  }

  function Encoded(f: Frame): Bytes {
    match f
    case Counted(msg) => Decimal(|msg|) + [SP] + msg
    case Line(msg) => msg + [LF]
  }

  function EncodedAll(fs: seq<Frame>): Bytes {
    if fs == [] then [] else Encoded(fs[0]) + EncodedAll(fs[1..])
  }

  function Messages(fs: seq<Frame>): seq<Bytes> {
    if fs == [] then [] else [fs[0].msg] + Messages(fs[1..])
  }

  predicate Sendable(f: Frame) {
    match f
    case Counted(msg) => 1 <= |msg| <= MAX_FRAME
    case Line(msg) => msg != [] && !IsDigit(msg[0]) && LF !in msg && msg[|msg| - 1] != CR
  }

  // ------------------------------------------------------------ round trip

  lemma {:induction false} DecimalFacts(n: nat)
    ensures Decimal(n) != [] && AllDigits(Decimal(n)) && Value(Decimal(n)) == n
  {
    if n >= 10 { DecimalFacts(n / 10); }
    var last := 48 + (n % 10) as byte;
    var init := if n < 10 then [] else Decimal(n / 10);
    assert Decimal(n) == init + [last];
    assert Decimal(n)[..|Decimal(n)| - 1] == init;
    assert n == n / 10 * 10 + n % 10;
  }

  lemma NoSpaceInDigits(d: Bytes)
    requires AllDigits(d)
    ensures SP !in d
  {
    forall i | 0 <= i < |d| ensures d[i] != SP { assert IsDigit(d[i]); }
  }

  lemma {:induction false} FindInConcat(a: Bytes, b: byte, t: Bytes)
    requires b !in a
    ensures Find(a + [b] + t, b) == |a|
  {
    var s := a + [b] + t;
    if a != [] {
      FindInConcat(a[1..], b, t);
      assert s[1..] == a[1..] + [b] + t;
    }
  }

  lemma WidthOfDigit(s: Bytes)
    requires s != [] && IsDigit(s[|s| - 1])
    ensures SpaceWidth(s) == 0
  {
  }

  lemma WidthOfSpace(s: Bytes)
    requires s != [] && s[|s| - 1] == SP
    ensures SpaceWidth(s) == 1
  {
  }

  lemma DigitsEndInNoSpace(d: Bytes)
    requires d != [] && AllDigits(d)
    ensures TrimSpaceRight(d + [SP]) == d
  {
    hide SpaceWidth;
    WidthOfDigit(d);
    WidthOfSpace(d + [SP]);
    assert (d + [SP])[..|d + [SP]| - 1] == d;
  }

  /** The length field of a counted message is read back as its length, if that is in range. */
  lemma LengthField(n: nat, tail: Bytes)
    ensures var d := Decimal(n);
            var s := d + [SP] + tail;
            && s != [] && IsDigit(s[0]) && Find(s, SP) == |d|
            && FrameLength(s[..|d| + 1]) == if 1 <= n <= MAX_FRAME then Some(n) else None
  {
    var d := Decimal(n);
    var s := d + [SP] + tail;
    DecimalFacts(n);
    NoSpaceInDigits(d);
    FindInConcat(d, SP, tail);
    DigitsEndInNoSpace(d);
    assert s[..|d| + 1] == d + [SP];
    assert s[0] == d[0];
  }

  lemma CountedFrame(msg: Bytes, tail: Bytes)
    requires 1 <= |msg| <= MAX_FRAME
    ensures Frames(Encoded(Counted(msg)) + tail) == [msg] + Frames(tail)
  {
    hide Decimal, Find, FrameLength;
    var d := Decimal(|msg|);
    var s := Encoded(Counted(msg)) + tail;
    assert s == d + [SP] + (msg + tail);
    LengthField(|msg|, msg + tail);
    var k := |d|;
    assert s[k + 1..k + 1 + |msg|] == msg && s[k + 1 + |msg|..] == tail;
    assert ReadTurn(s) == Turn([msg], Some(tail));
  }

  lemma LineFrame(msg: Bytes, tail: Bytes)
    requires Sendable(Line(msg))
    ensures Frames(Encoded(Line(msg)) + tail) == [msg] + Frames(tail)
  {
    hide Find;
    var s := Encoded(Line(msg)) + tail;
    FindInConcat(msg, LF, tail);
    assert s[..|msg|] == msg && s[|msg| + 1..] == tail && s[0] == msg[0];
    assert msg[|msg| - 1] in msg;
    assert TrimLineEnd(msg) == msg;
    assert ReadTurn(s) == Turn([msg], Some(tail));
  }

  lemma OneFrame(f: Frame, tail: Bytes)
    requires Sendable(f)
    ensures Frames(Encoded(f) + tail) == [f.msg] + Frames(tail)
  {
    match f {
      case Counted(msg) => CountedFrame(msg, tail);
      case Line(msg) => LineFrame(msg, tail);
    }
  }

  /** Any mix of sendable frames comes out as exactly its messages, in order, and what follows is framed afresh. */
  lemma {:induction false} RoundTrip(fs: seq<Frame>, tail: Bytes)
    requires forall i :: 0 <= i < |fs| ==> Sendable(fs[i])
    ensures Frames(EncodedAll(fs) + tail) == Messages(fs) + Frames(tail)
  {
    hide Frames, Encoded, Sendable;
    if fs == [] {
      assert [] + tail == tail && [] + Frames(tail) == Frames(tail);
    } else {
      var rest := EncodedAll(fs[1..]) + tail;
      RoundTrip(fs[1..], tail);
      assert EncodedAll(fs) + tail == Encoded(fs[0]) + rest;
      OneFrame(fs[0], rest);
      assert [fs[0].msg] + (Messages(fs[1..]) + Frames(tail)) == Messages(fs) + Frames(tail);
    }
  }

  /** How long a turn's message can be. */
  lemma TurnIsShorter(s: Bytes, f: Bytes)
    requires s != [] && f in ReadTurn(s).msgs
    ensures |f| <= |s| && (s[|s| - 1] == LF ==> |f| < |s|) && (IsDigit(s[0]) ==> |f| + 2 <= |s|)
  {
    hide Find, FrameLength, TrimLineEnd;
    if IsDigit(s[0]) {
      assert Find(s, SP) != 0;
    }
  }

  /** No message is longer than the bytes it came from; it is shorter if those end in a newline, and
      shorter by two if they start with a digit. */
  lemma {:induction false} FramesAreShorter(s: Bytes)
    ensures forall f :: f in Frames(s) ==>
              |f| <= |s| && (s[|s| - 1] == LF ==> |f| < |s|) && (IsDigit(s[0]) ==> |f| + 2 <= |s|)
    decreases |s|
  {
    hide ReadCounted, ReadLine;
    if s != [] {
      var t := ReadTurn(s);
      if t.rest.Some? {
        FramesAreShorter(t.rest.value);
        RestIsShorter(s);
      }
      forall f | f in Frames(s)
        ensures |f| <= |s| && (s[|s| - 1] == LF ==> |f| < |s|) && (IsDigit(s[0]) ==> |f| + 2 <= |s|)
      {
        if f in t.msgs { TurnIsShorter(s, f); }
      }
    }
  }

  lemma RestIsShorter(s: Bytes)
    requires s != [] && ReadTurn(s).rest.Some?
    ensures var rest := ReadTurn(s).rest.value;
            |rest| < |s| && (IsDigit(s[0]) ==> |rest| + 2 <= |s|) && rest == s[|s| - |rest|..]
  {
    hide Find, TrimLineEnd, TrimSpaceRight;
    if IsDigit(s[0]) { assert Find(s, SP) != 0; }
  }

  lemma {:induction false} TrimmedEndsPlain(s: Bytes)
    ensures var t := TrimLineEnd(s);
            t != [] ==> t[|t| - 1] != CR && t[|t| - 1] != LF
    decreases |s|
  {
    if s != [] { TrimmedEndsPlain(s[..|s| - 1]); }
  }

  /** A newline-framed message arrives alone and unchanged exactly if it is sendable. */
  lemma {:induction false} LineArrivesIffSendable(msg: Bytes)
    ensures Frames(msg + [LF]) == [msg] <==> Sendable(Line(msg))
  {
    var s := msg + [LF];
    if Sendable(Line(msg)) {
      LineFrame(msg, []);
      assert s + [] == s && Frames([]) == [];
    } else {
      UnsendableLine(msg);
    }
  }

  lemma UnsendableLine(msg: Bytes)
    requires !Sendable(Line(msg))
    ensures Frames(msg + [LF]) != [msg]
  {
    hide TrimLineEnd;
    var s := msg + [LF];
    assert msg in [msg] && s[|msg|] == LF;
    if IsDigit(s[0]) {
      FramesAreShorter(s);
    } else {
      UnsendableText(msg);
    }
  }

  /** The first line of an unsendable text differs from it, or is skipped as empty and leaves too little. */
  lemma UnsendableText(msg: Bytes)
    requires !Sendable(Line(msg)) && (msg == [] || !IsDigit(msg[0]))
    ensures Frames(msg + [LF]) != [msg]
  {
    hide TrimLineEnd, ReadCounted, Frames;
    var s := msg + [LF];
    FramesOfLine(s);
    var k := Find(s, LF);
    var line := TrimLineEnd(s[..k]);
    assert s[|msg|] == LF && k <= |msg|;
    if line == [] {
      var rest := s[k + 1..];
      FramesAreShorter(rest);
      assert rest != [] ==> rest[|rest| - 1] == LF;
      assert msg in [msg];
    } else {
      TrimmedEndsPlain(s[..k]);
      assert LF in msg ==> k < |msg|;
      assert line != msg && Frames(s)[0] == line;
    }
  }

  lemma FramesOfLine(s: Bytes)
    requires s != [] && !IsDigit(s[0]) && Find(s, LF) < |s|
    ensures var k := Find(s, LF);
            var line := TrimLineEnd(s[..k]);
            Frames(s) == (if line == [] then [] else [line]) + Frames(s[k + 1..]) && Frames([]) == []
  {
    hide Find, TrimLineEnd;
  }

  /** A counted message arrives exactly if its length is between 1 and 2^20. */
  lemma {:induction false} CountedArrivesIffSendable(msg: Bytes)
    ensures Frames(Encoded(Counted(msg))) == [msg] <==> 1 <= |msg| <= 1048576
  {
    hide Decimal, Find, FrameLength;
    var s := Encoded(Counted(msg));
    if Sendable(Counted(msg)) {
      CountedFrame(msg, []);
      assert s + [] == s && Frames([]) == [];
    } else {
      LengthField(|msg|, msg);
      assert ReadTurn(s) == HANG_UP;
    }
  }

  // ------------------------------------------------------------ line ends

  function Returns(n: nat): Bytes { seq(n, _ => CR) }

  /** Carriage returns at the end of a line are taken off, and nothing else. */
  lemma {:induction false} TrimReturns(msg: Bytes, n: nat)
    requires msg != [] ==> msg[|msg| - 1] != CR && msg[|msg| - 1] != LF
    ensures TrimLineEnd(msg + Returns(n)) == msg
    decreases n
  {
    if n == 0 {
      assert msg + Returns(0) == msg;
    } else {
      var s := msg + Returns(n);
      assert s[..|s| - 1] == msg + Returns(n - 1);
      TrimReturns(msg, n - 1);
    }
  }

  /** A sendable message with any number of carriage returns before its newline comes out alone. */
  lemma {:induction false} LineWithReturns(msg: Bytes, n: nat, tail: Bytes)
    requires Sendable(Line(msg))
    ensures Frames(msg + Returns(n) + [LF] + tail) == [msg] + Frames(tail)
  {
    hide Find, TrimLineEnd;
    var text := msg + Returns(n);
    var s := text + [LF] + tail;
    FindInConcat(text, LF, tail);
    TrimReturns(msg, n) by { assert msg[|msg| - 1] in msg; }
    assert s[..|text|] == text && s[|text| + 1..] == tail && s[0] == msg[0];
    assert ReadTurn(s) == Turn([msg], Some(tail));
  }

  /** The last line needs no newline: what the connection ends with is delivered. */
  lemma {:induction false} UnterminatedLine(msg: Bytes, n: nat)
    requires Sendable(Line(msg))
    ensures Frames(msg + Returns(n)) == [msg]
  {
    hide Find, TrimLineEnd;
    var s := msg + Returns(n);
    TrimReturns(msg, n) by { assert msg[|msg| - 1] in msg; }
    assert Find(s, LF) == |s|;
    assert s[..|s|] == s && s[0] == msg[0];
    assert ReadTurn(s) == Turn([msg], None);
  }

  /** A line of carriage returns only is no message. */
  lemma {:induction false} BlankLine(n: nat, tail: Bytes)
    ensures Frames(Returns(n) + [LF] + tail) == Frames(tail) && Frames(Returns(n)) == []
  {
    hide Find, TrimLineEnd;
    var s := Returns(n) + [LF] + tail;
    FindInConcat(Returns(n), LF, tail);
    TrimReturns([], n);
    assert [] + Returns(n) == Returns(n);
    assert s[..n] == Returns(n) && s[n + 1..] == tail;
    assert ReadTurn(s) == Turn([], Some(tail));
    if n > 0 {
      assert Find(Returns(n), LF) == n && Returns(n)[..n] == Returns(n);
      assert ReadTurn(Returns(n)) == Turn([], None);
    }
  }

  // ------------------------------------------------------------ white space around a length

  /** The characters with the Unicode property White_Space. */
  predicate IsSpaceChar(c: nat) {
    || 9 <= c <= 13 || c == 0x20 || c == 0x85 || c == 0xA0 || c == 0x1680 || 0x2000 <= c <= 0x200A
    || c == 0x2028 || c == 0x2029 || c == 0x202F || c == 0x205F || c == 0x3000
  }

  /** UTF-8 up to three bytes, section 3 of RFC 3629. */
  function Utf8(c: nat): Bytes
    requires c < 0x1_0000
  {
    if c < 0x80 then [c as byte]
    else if c < 0x800 then [(0xC0 + c / 64) as byte, (0x80 + c % 64) as byte]
    else [(0xE0 + c / 4096) as byte, (0x80 + c / 64 % 64) as byte, (0x80 + c % 64) as byte]
  }

  /** What is trimmed off a length are exactly the white-space characters. */
  lemma {:induction false} SpaceWidthOf(s: Bytes, c: nat)
    requires c < 0x1_0000
    ensures SpaceWidth(s + Utf8(c)) == if IsSpaceChar(c) then |Utf8(c)| else 0
  {
    var u := Utf8(c);
    var t := s + u;
    assert t[|t| - 1] == u[|u| - 1];
    if c >= 0x80 { assert t[|t| - 2] == u[|u| - 2]; }
    if c >= 0x800 {
      assert t[|t| - 3] == u[0];
      Utf8IsInjective(c);
    }
  }

  lemma Utf8IsInjective(c: nat)
    requires 0x800 <= c < 0x1_0000
    ensures var u := Utf8(c);
            c == (u[0] as int - 0xE0) * 4096 + (u[1] as int - 0x80) * 64 + (u[2] as int - 0x80)
            && 0x80 <= u[1] <= 0xBF && 0x80 <= u[2] <= 0xBF
  {
    assert c / 4096 == c / 64 / 64;
    assert c / 64 == c / 64 / 64 * 64 + c / 64 % 64;
  }

  function Utf8All(cs: seq<nat>): Bytes
    requires forall i :: 0 <= i < |cs| ==> cs[i] < 0x1_0000
  {
    if cs == [] then [] else Utf8All(cs[..|cs| - 1]) + Utf8(cs[|cs| - 1])
  }

  lemma {:induction false} PaddingIsTrimmed(d: Bytes, cs: seq<nat>)
    requires d != [] && AllDigits(d)
    requires forall i :: 0 <= i < |cs| ==> cs[i] < 0x1_0000 && IsSpaceChar(cs[i])
    ensures TrimSpaceRight(d + Utf8All(cs)) == d
  {
    hide SpaceWidth, Utf8, IsSpaceChar;
    if cs == [] {
      assert d + Utf8All(cs) == d;
      WidthOfDigit(d);
    } else {
      var init, c := cs[..|cs| - 1], cs[|cs| - 1];
      var s := d + Utf8All(init);
      PaddingIsTrimmed(d, init);
      SpaceWidthOf(s, c);
      assert d + Utf8All(cs) == s + Utf8(c);
      assert (s + Utf8(c))[..|s|] == s;
      Utf8IsNotEmpty(c);
    }
  }

  lemma Utf8IsNotEmpty(c: nat)
    requires c < 0x1_0000
    ensures Utf8(c) != []
  {
  }

  /** A length is read whatever white space follows it. */
  lemma {:induction false} PaddedLength(n: nat, cs: seq<nat>)
    requires forall i :: 0 <= i < |cs| ==> cs[i] < 0x1_0000 && IsSpaceChar(cs[i])
    ensures FrameLength(Decimal(n) + Utf8All(cs)) == if 1 <= n <= MAX_FRAME then Some(n) else None
  {
    hide Decimal, Utf8All, IsSpaceChar, TrimSpaceRight;
    DecimalFacts(n);
    PaddingIsTrimmed(Decimal(n), cs);
  }
}
