/**
 Jensen-Shannon divergence of two shape histograms (uli/drift/parser_drift.py), over ideal reals.
 The binary logarithm is any function with the laws in `Log.Lawful`.
 */
module Divergence {
  import opened Basics

  type Counter = map<string, nat>
  type Weights = map<string, real>

  datatype Log = Log(log2: real -> real, slope: real) {
    /** A product becomes a sum. */
    ghost predicate Product(x: real, y: real) {
      x > 0.0 && y > 0.0 ==> log2(x * y) == log2(x) + log2(y)
    }

    /** The curve lies below its tangent at 1 and meets it only there. */
    ghost predicate Tangent(x: real) {
      x > 0.0 ==> log2(x) <= slope * (x - 1.0) && (x != 1.0 ==> log2(x) < slope * (x - 1.0))
    }

    ghost predicate Lawful() {
      && slope > 0.0
      && log2(2.0) == 1.0
      && (forall x, y :: Product(x, y))
      && (forall x :: Tangent(x))
    }
  }

  // ------------------------------------------------------------ sums over keys

  ghost function Sum(w: Weights, keys: set<string>): real
    requires keys <= w.Keys
  {
    if keys == {} then 0.0
    else
      var k :| k in keys;
      w[k] + Sum(w, keys - {k})
  }

  lemma {:induction false} SumRemove(w: Weights, keys: set<string>, k: string)
    requires keys <= w.Keys && k in keys
    ensures Sum(w, keys) == w[k] + Sum(w, keys - {k})
    decreases |keys|
  {
    var j :| j in keys && Sum(w, keys) == w[j] + Sum(w, keys - {j});
    if j != k {
      SumRemove(w, keys - {j}, k);
      SumRemove(w, keys - {k}, j);
      assert keys - {j} - {k} == keys - {k} - {j};
    }
  }

  lemma SumNone(w: Weights)
    ensures Sum(w, {}) == 0.0
  {
  }

  /** Termwise sums add up. */
  lemma {:induction false} SumAdds(a: Weights, b: Weights, c: Weights, keys: set<string>)
    requires keys <= a.Keys && keys <= b.Keys && keys <= c.Keys
    requires forall k :: k in keys ==> c[k] == a[k] + b[k]
    ensures Sum(c, keys) == Sum(a, keys) + Sum(b, keys)
    decreases |keys|
  {
    if keys != {} {
      var k :| k in keys;
      SumRemove(a, keys, k);
      SumRemove(b, keys, k);
      SumRemove(c, keys, k);
      SumAdds(a, b, c, keys - {k});
    }
  }

  /** Termwise order carries over to the sums, which agree only if all terms do. */
  lemma {:induction false} SumOrder(a: Weights, b: Weights, keys: set<string>)
    requires keys <= a.Keys && keys <= b.Keys
    requires forall k :: k in keys ==> a[k] <= b[k]
    ensures Sum(a, keys) <= Sum(b, keys)
    ensures Sum(a, keys) == Sum(b, keys) <==> forall k :: k in keys ==> a[k] == b[k]
    decreases |keys|
  {
    if keys != {} {
      var k :| k in keys;
      SumRemove(a, keys, k);
      SumRemove(b, keys, k);
      SumOrder(a, b, keys - {k});
      assert forall j :: j in keys ==> j == k || j in keys - {k};
    }
  }

  // ------------------------------------------------------------ histograms

  function Get(p: Counter, k: string): nat { if k in p then p[k] else 0 }

  ghost function Count(p: Counter, keys: set<string>): nat {
    if keys == {} then 0
    else
      var k :| k in keys;
      Get(p, k) + Count(p, keys - {k})
  }

  lemma {:induction false} CountRemove(p: Counter, keys: set<string>, k: string)
    requires k in keys
    ensures Count(p, keys) == Get(p, k) + Count(p, keys - {k})
    decreases |keys|
  {
    var j :| j in keys && Count(p, keys) == Get(p, j) + Count(p, keys - {j});
    if j != k {
      CountRemove(p, keys - {j}, k);
      CountRemove(p, keys - {k}, j);
      assert keys - {j} - {k} == keys - {k} - {j};
    }
  }

  lemma NoneCounted(p: Counter)
    ensures Count(p, {}) == 0
  {
  }

  /** The number of observations in a histogram. */
  ghost function Total(p: Counter): nat { Count(p, p.Keys) }

  lemma {:induction false} AbsentKeysCountNothing(p: Counter, keys: set<string>)
    requires p.Keys <= keys
    ensures Count(p, keys) == Total(p)
    decreases |keys|
  {
    if k :| k in keys && k !in p {
      CountRemove(p, keys, k);
      AbsentKeysCountNothing(p, keys - {k});
    } else {
      assert keys == p.Keys;
    }
  }

  function OrOne(n: nat): nat { if n == 0 then 1 else n }

  ghost function Share(p: Counter, k: string): real {
    Get(p, k) as real / OrOne(Total(p)) as real
  }

  function Shares(p: Counter, keys: set<string>, total: nat): Weights
    requires total > 0
  {
    map k | k in keys :: Get(p, k) as real / total as real
  }

  lemma {:induction false} SharesSum(p: Counter, keys: set<string>, sub: set<string>, total: nat)
    requires total > 0 && sub <= keys
    ensures Sum(Shares(p, keys, total), sub) == Count(p, sub) as real / total as real
    decreases |sub|
  {
    hide Get, Sum, Count;
    SumNone(Shares(p, keys, total));
    NoneCounted(p);
    if sub != {} {
      var k :| k in sub;
      SumRemove(Shares(p, keys, total), sub, k);
      CountRemove(p, sub, k);
      SharesSum(p, keys, sub - {k}, total);
      AddFractions(Get(p, k) as real, Count(p, sub - {k}) as real, total as real);
    }
  }

  // ------------------------------------------------------------ the divergence

  function Mid(a: Weights, b: Weights): Weights
    requires a.Keys == b.Keys
  {
    map k | k in a :: 0.5 * (a[k] + b[k])
  }

  function Term(log: Log, a: real, b: real): real {
    if a > 0.0 && b > 0.0 then a * log.log2(a / b) else 0.0
  }

  function Terms(log: Log, a: Weights, b: Weights): Weights
    requires a.Keys == b.Keys
  {
    map k | k in a :: Term(log, a[k], b[k])
  }

  ghost function Kl(log: Log, a: Weights, b: Weights): real
    requires a.Keys == b.Keys
  {
    Sum(Terms(log, a, b), a.Keys)
  }

  ghost function Js(log: Log, p: Counter, q: Counter): real {
    var keys := p.Keys + q.Keys;
    if keys == {} then 0.0
    else
      var pd, qd := Shares(p, keys, OrOne(Total(p))), Shares(q, keys, OrOne(Total(q)));
      0.5 * Kl(log, pd, Mid(pd, qd)) + 0.5 * Kl(log, qd, Mid(pd, qd))
  }

  method SumValues(p: Counter) returns (n: nat)
    ensures n == Total(p)
  {
    n := 0;
    var todo := p.Keys;
    while todo != {}
      invariant todo <= p.Keys && n + Count(p, todo) == Total(p)
      decreases todo
    {
      var k :| k in todo;
      CountRemove(p, todo, k);
      n := n + p[k];
      todo := todo - {k};
    }
  }

  method SumTerms(log: Log, a: Weights, b: Weights) returns (s: real)
    requires a.Keys == b.Keys
    ensures s == Kl(log, a, b)
  {
    hide Sum;
    SumNone(Terms(log, a, b));
    s := 0.0;
    var todo := a.Keys;
    while todo != {}
      invariant todo <= a.Keys && s + Sum(Terms(log, a, b), todo) == Kl(log, a, b)
      decreases todo
    {
      var k :| k in todo;
      SumRemove(Terms(log, a, b), todo, k);
      if a[k] > 0.0 && b[k] > 0.0 {
        s := s + a[k] * log.log2(a[k] / b[k]);
      }
      todo := todo - {k};
    }
  }

  method JsDivergence(log: Log, p: Counter, q: Counter) returns (js: real)
    ensures js == Js(log, p, q)
    ensures log.Lawful() ==> 0.0 <= js <= 1.0
  {
    hide Sum, Count, Terms;
    if log.Lawful() { JsRange(log, p, q); }
    var keys := p.Keys + q.Keys;
    if keys == {} {
      return 0.0;
    }
    var np := SumValues(p);
    var nq := SumValues(q);
    var pd, qd := Shares(p, keys, OrOne(np)), Shares(q, keys, OrOne(nq));
    var m := Mid(pd, qd);
    var left := SumTerms(log, pd, m);
    var right := SumTerms(log, qd, m);
    js := 0.5 * left + 0.5 * right;
  }

  // ------------------------------------------------------------ one key

  lemma LogOfOne(log: Log)
    requires log.Lawful()
    ensures log.log2(1.0) == 0.0
  {
    assert log.Product(1.0, 1.0);
    assert 1.0 * 1.0 == 1.0;
  }

  lemma LogOfReciprocal(log: Log, x: real, y: real, one: real)
    requires log.Lawful() && x > 0.0 && y > 0.0 && x * y == one && one == 1.0
    ensures log.log2(y) == -log.log2(x)
  {
    LogOfOne(log);
    assert log.Product(x, y);
    assert log.log2(one) == 0.0;
  }

  lemma LogOfInverse(log: Log, x: real)
    requires log.Lawful() && x > 0.0
    ensures log.log2(1.0 / x) == -log.log2(x)
  {
    LogOfReciprocal(log, x, 1.0 / x, 1.0);
  }

  lemma NotPositive(a: real, d: real)
    requires a > 0.0 && d <= 0.0
    ensures a * d <= 0.0
  {
  }

  lemma LogIsNegative(log: Log, x: real)
    requires log.Lawful() && 0.0 < x <= 1.0
    ensures log.log2(x) <= 0.0
    ensures x < 1.0 ==> log.log2(x) < 0.0
  {
    assert log.Tangent(x);
    var d, bound := x - 1.0, log.slope * (x - 1.0);
    assert bound <= 0.0 by { NotPositive(log.slope, d); }
    assert log.log2(x) <= bound;
    assert x < 1.0 ==> log.log2(x) < bound;
  }

  /** A share's term is at least the tangent's, with equality exactly at the midpoint. */
  lemma TermAboveTangent(log: Log, a: real, m: real)
    requires log.Lawful() && a >= 0.0 && m > 0.0
    ensures Term(log, a, m) >= log.slope * (a - m)
    ensures Term(log, a, m) == log.slope * (a - m) <==> a == m
  {
    if a > 0.0 {
      var r := m / a;
      LogOfInverse(log, r);
      assert 1.0 / r == a / m;
      assert log.Tangent(r);
      Scale(a, log.log2(r), log.slope * (r - 1.0));
      assert a * (log.slope * (r - 1.0)) == log.slope * (m - a) by {
        assert a * r == m;
      }
      assert r == 1.0 <==> a == m;
    } else {
      assert log.slope * (0.0 - m) < 0.0;
    }
  }

  lemma Scale(a: real, x: real, y: real)
    requires a > 0.0
    ensures x <= y ==> a * x <= a * y
    ensures x < y ==> a * x < a * y
  {
  }

  /** A share's term is at most the share, with equality exactly if the other histogram has none. */
  lemma TermBelowShare(log: Log, a: real, b: real)
    requires log.Lawful() && a >= 0.0 && b >= 0.0 && a + b > 0.0
    ensures Term(log, a, 0.5 * (a + b)) <= a
    ensures Term(log, a, 0.5 * (a + b)) == a <==> a == 0.0 || b == 0.0
  {
    if a > 0.0 {
      var m := 0.5 * (a + b);
      var r := (a / m) / 2.0;
      assert a / m == 2.0 * r;
      assert r <= 1.0 && (r == 1.0 <==> b == 0.0) by {
        assert r * (a + b) == a;
        RatioBound(r, a, b);
      }
      assert log.Product(2.0, r);
      LogIsNegative(log, r);
      Scale(a, log.log2(r), 0.0);
      assert a * log.log2(a / m) == a * 1.0 + a * log.log2(r);
    }
  }

  lemma SignOfProduct(x: real, y: real)
    requires y > 0.0
    ensures x * y > 0.0 <==> x > 0.0
    ensures x * y == 0.0 <==> x == 0.0
  {
  }

  lemma RatioBound(r: real, a: real, b: real)
    requires a > 0.0 && b >= 0.0 && r * (a + b) == a
    ensures r > 0.0 && r <= 1.0 && (r == 1.0 <==> b == 0.0)
  {
    assert (1.0 - r) * (a + b) == b;
    SignOfProduct(r, a + b);
    SignOfProduct(1.0 - r, a + b);
  }

  /** Both terms of one key. */
  function KeyTerm(log: Log, a: real, b: real): real {
    Term(log, a, 0.5 * (a + b)) + Term(log, b, 0.5 * (a + b))
  }

  lemma KeyTermRange(log: Log, a: real, b: real)
    requires log.Lawful() && a >= 0.0 && b >= 0.0
    ensures 0.0 <= KeyTerm(log, a, b) <= a + b
    ensures KeyTerm(log, a, b) == 0.0 <==> a == b
    ensures KeyTerm(log, a, b) == a + b <==> a == 0.0 || b == 0.0
  {
    var m := 0.5 * (a + b);
    if m > 0.0 {
      TermAboveTangent(log, a, m);
      TermAboveTangent(log, b, m);
      TermBelowShare(log, a, b);
      TermBelowShare(log, b, a);
      assert log.slope * (a - m) + log.slope * (b - m) == log.slope * (a + b - 2.0 * m) == 0.0;
      assert a == m <==> a == b;
    }
  }

  // ------------------------------------------------------------ all keys

  ghost function KeyTerms(log: Log, p: Counter, q: Counter): Weights {
    map k | k in p.Keys + q.Keys :: KeyTerm(log, Share(p, k), Share(q, k))
  }

  lemma JsOfShares(log: Log, p: Counter, q: Counter, pd: Weights, qd: Weights)
    requires p.Keys + q.Keys != {}
    requires pd == Shares(p, p.Keys + q.Keys, OrOne(Total(p))) && qd == Shares(q, p.Keys + q.Keys, OrOne(Total(q)))
    ensures pd.Keys == qd.Keys == p.Keys + q.Keys == Mid(pd, qd).Keys
    ensures Js(log, p, q) == 0.5 * Sum(Terms(log, pd, Mid(pd, qd)), pd.Keys)
            + 0.5 * Sum(Terms(log, qd, Mid(pd, qd)), qd.Keys)
  {
    hide Sum, Count, Term;
  }

  lemma KeyTermSplits(log: Log, p: Counter, q: Counter, pd: Weights, qd: Weights, k: string)
    requires pd == Shares(p, p.Keys + q.Keys, OrOne(Total(p))) && qd == Shares(q, p.Keys + q.Keys, OrOne(Total(q)))
    requires k in p.Keys + q.Keys
    ensures KeyTerms(log, p, q)[k] == Terms(log, pd, Mid(pd, qd))[k] + Terms(log, qd, Mid(pd, qd))[k]
  {
    hide Count, Term;
  }

  lemma {:induction false} JsIsSumOfKeyTerms(log: Log, p: Counter, q: Counter)
    ensures Js(log, p, q) == 0.5 * Sum(KeyTerms(log, p, q), p.Keys + q.Keys)
  {
    hide Sum, Term, Count, Get;
    var keys := p.Keys + q.Keys;
    if keys == {} {
      SumNone(KeyTerms(log, p, q));
    } else {
      hide Js, Shares;
      var pd, qd := Shares(p, keys, OrOne(Total(p))), Shares(q, keys, OrOne(Total(q)));
      JsOfShares(log, p, q, pd, qd);
      var m := Mid(pd, qd);
      forall k | k in keys
        ensures KeyTerms(log, p, q)[k] == Terms(log, pd, m)[k] + Terms(log, qd, m)[k]
      {
        KeyTermSplits(log, p, q, pd, qd, k);
      }
      SumAdds(Terms(log, pd, m), Terms(log, qd, m), KeyTerms(log, p, q), keys);
    }
  }

  ghost function Bounds(p: Counter, q: Counter): Weights {
    map k | k in p.Keys + q.Keys :: Share(p, k) + Share(q, k)
  }

  function Mass(n: nat): real { if n == 0 then 0.0 else 1.0 }

  lemma SharesTotal(p: Counter, keys: set<string>)
    requires p.Keys <= keys
    ensures Sum(Shares(p, keys, OrOne(Total(p))), keys) == Mass(Total(p))
  {
    hide Sum, Count;
    SharesSum(p, keys, keys, OrOne(Total(p)));
    AbsentKeysCountNothing(p, keys);
    assert Total(p) > 0 ==> Total(p) as real / Total(p) as real == 1.0;
  }

  lemma BoundsTotal(p: Counter, q: Counter)
    ensures Sum(Bounds(p, q), p.Keys + q.Keys) == Mass(Total(p)) + Mass(Total(q))
  {
    hide Sum, Count;
    var keys := p.Keys + q.Keys;
    SharesTotal(p, keys);
    SharesTotal(q, keys);
    SumAdds(Shares(p, keys, OrOne(Total(p))), Shares(q, keys, OrOne(Total(q))), Bounds(p, q), keys);
  }

  lemma ShareNonNegative(p: Counter, k: string)
    ensures Share(p, k) >= 0.0
    ensures Share(p, k) == 0.0 <==> Get(p, k) == 0
  {
  }

  lemma KeyTermsRange(log: Log, p: Counter, q: Counter)
    requires log.Lawful()
    ensures forall k :: k in p.Keys + q.Keys ==>
              var t := KeyTerm(log, Share(p, k), Share(q, k));
              && 0.0 <= t <= Share(p, k) + Share(q, k)
              && (t == 0.0 <==> Share(p, k) == Share(q, k))
              && (t == Share(p, k) + Share(q, k) <==> Get(p, k) == 0 || Get(q, k) == 0)
  {
    forall k | k in p.Keys + q.Keys
      ensures var t := KeyTerm(log, Share(p, k), Share(q, k));
              && 0.0 <= t <= Share(p, k) + Share(q, k)
              && (t == 0.0 <==> Share(p, k) == Share(q, k))
              && (t == Share(p, k) + Share(q, k) <==> Get(p, k) == 0 || Get(q, k) == 0)
    {
      ShareNonNegative(p, k);
      ShareNonNegative(q, k);
      KeyTermRange(log, Share(p, k), Share(q, k));
    }
  }

  ghost function Zeros(keys: set<string>): Weights { map k | k in keys :: 0.0 }

  lemma {:induction false} ZerosSum(keys: set<string>, sub: set<string>)
    requires sub <= keys
    ensures Sum(Zeros(keys), sub) == 0.0
    decreases |sub|
  {
    if sub != {} {
      var k :| k in sub;
      SumRemove(Zeros(keys), sub, k);
      ZerosSum(keys, sub - {k});
    }
  }

  /** The normalised histograms agree. */
  ghost predicate SameShares(p: Counter, q: Counter) {
    forall k :: k in p.Keys + q.Keys ==> Share(p, k) == Share(q, k)
  }

  ghost predicate DisjointSupports(p: Counter, q: Counter) {
    forall k :: k in p.Keys + q.Keys ==> Get(p, k) == 0 || Get(q, k) == 0
  }

  /** Between 0 and the mean of the two masses; each end is reached exactly as it should be. */
  lemma {:induction false} JsEnds(log: Log, p: Counter, q: Counter)
    requires log.Lawful()
    ensures 0.0 <= Js(log, p, q) <= 0.5 * (Mass(Total(p)) + Mass(Total(q)))
    ensures Js(log, p, q) == 0.0 <==> SameShares(p, q)
    ensures Js(log, p, q) == 0.5 * (Mass(Total(p)) + Mass(Total(q))) <==> DisjointSupports(p, q)
  {
    hide KeyTerm, Js, Share, Get;
    var keys := p.Keys + q.Keys;
    JsIsSumOfKeyTerms(log, p, q);
    KeyTermsRange(log, p, q);
    BoundsTotal(p, q);
    ZerosSum(keys, keys);
    SumOrder(Zeros(keys), KeyTerms(log, p, q), keys);
    SumOrder(KeyTerms(log, p, q), Bounds(p, q), keys);
  }

  lemma {:induction false} JsRange(log: Log, p: Counter, q: Counter)
    requires log.Lawful()
    ensures 0.0 <= Js(log, p, q) <= 1.0
  {
    JsEnds(log, p, q);
  }

  /** For two non-empty histograms the divergence is 1 exactly if no shape occurs in both. */
  lemma {:induction false} JsIsOneIffDisjoint(log: Log, p: Counter, q: Counter)
    requires log.Lawful() && Total(p) > 0 && Total(q) > 0
    ensures Js(log, p, q) == 1.0 <==> DisjointSupports(p, q)
  {
    JsEnds(log, p, q);
  }

  /** Against an empty histogram it is one half, whatever the other one holds. */
  lemma {:induction false} JsAgainstEmpty(log: Log, p: Counter)
    requires log.Lawful() && Total(p) > 0
    ensures Js(log, p, map[]) == 0.5
  {
    JsEnds(log, p, map[]);
    assert Total(map[]) == 0;
  }

  lemma {:induction false} JsIsSymmetric(log: Log, p: Counter, q: Counter)
    ensures Js(log, p, q) == Js(log, q, p)
  {
    hide Js, Sum, Term, Share;
    JsIsSumOfKeyTerms(log, p, q);
    JsIsSumOfKeyTerms(log, q, p);
    assert p.Keys + q.Keys == q.Keys + p.Keys;
    forall k | k in p.Keys + q.Keys
      ensures KeyTerms(log, p, q)[k] == KeyTerms(log, q, p)[k]
    {
    }
    assert KeyTerms(log, p, q) == KeyTerms(log, q, p);
  }

  /** The guard on the midpoint drops nothing: a key with a share has a positive midpoint. */
  lemma GuardIsHarmless(log: Log, p: Counter, q: Counter, k: string)
    ensures var a, m := Share(p, k), 0.5 * (Share(p, k) + Share(q, k));
            && (a > 0.0 ==> m > 0.0)
            && Term(log, a, m) == if a > 0.0 then a * log.log2(a / m) else 0.0
  {
    ShareNonNegative(p, k);
    ShareNonNegative(q, k);
  }
}
