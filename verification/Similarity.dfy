/**
 The similarity index over shape 3-grams (uli/detection/similarity.py, uli/fingerprint.py).
 References nearly equal to a kept one are dropped; the triangle inequality of the Jaccard distance
 bounds what a query can lose by that.
 */
module Similarity {
  import opened Basics

  // ------------------------------------------------------------ shapes and their overlap

  function Spaced(parts: seq<string>): string {
    if parts == [] then ""
    else if |parts| == 1 then parts[0]
    else parts[0] + " " + Spaced(parts[1..])
  }

  function Triple(parts: seq<string>, i: int): seq<string>
    requires 0 <= i && i + 3 <= |parts|
  {
    parts[i..i + 3]
  }

  function Gram(parts: seq<string>, i: int): string
    requires 0 <= i && i + 3 <= |parts|
  {
    Spaced(Triple(parts, i))
  }

  /** The 3-grams of a shape given by its white-space separated parts; a short shape is its own gram. */
  function ShapeNgrams(parts: seq<string>): set<string> {
    if |parts| < 3 then (if parts == [] then {} else {Spaced(parts)})
    else set i | 0 <= i < |parts| - 2 :: Gram(parts, i)
  }

  /** Three neighbouring parts with single spaces between them. */
  function Joined(parts: seq<string>, i: int): string
    requires 0 <= i && i + 3 <= |parts|
  {
    parts[i] + " " + parts[i + 1] + " " + parts[i + 2]
  }

  lemma GramIsJoined(parts: seq<string>, i: int)
    requires 0 <= i && i + 3 <= |parts|
    ensures Gram(parts, i) == Joined(parts, i)
  {
    TripleIsJoined(Triple(parts, i));
  }

  /** A gram is any three neighbours joined by single spaces, the first three and the last three included. */
  lemma {:induction false} GramsAreTriples(parts: seq<string>, g: string)
    requires |parts| >= 3
    ensures g in ShapeNgrams(parts) <==> exists i :: 0 <= i <= |parts| - 3 && g == Joined(parts, i)
    ensures Joined(parts, 0) in ShapeNgrams(parts) && Joined(parts, |parts| - 3) in ShapeNgrams(parts)
  {
    hide Gram, Joined;
    forall i | 0 <= i <= |parts| - 3
      ensures Joined(parts, i) == Gram(parts, i) && Joined(parts, i) in ShapeNgrams(parts)
    {
      GramIsJoined(parts, i);
      assert 0 <= i < |parts| - 2;
    }
    if g in ShapeNgrams(parts) {
      var i :| 0 <= i < |parts| - 2 && g == Gram(parts, i);
      assert g == Joined(parts, i);
    }
  }

  /** A shape of one or two parts is its own only gram. */
  lemma ShortShapes(a: string, b: string)
    ensures ShapeNgrams([a]) == {a} && ShapeNgrams([a, b]) == {a + " " + b}
  {
    assert [a, b][1..] == [b] && Spaced([b]) == b;
    assert Spaced([a, b]) == a + " " + b;
  }

  lemma TripleIsJoined(t: seq<string>)
    requires |t| == 3
    ensures Spaced(t) == t[0] + " " + t[1] + " " + t[2]
  {
    assert t[1..] == [t[1], t[2]] && t[1..][1..] == [t[2]];
    assert Spaced(t[1..]) == t[1] + " " + t[2];
    assert t[0] + " " + (t[1] + " " + t[2]) == t[0] + " " + t[1] + " " + t[2];
  }

  lemma {:induction false} GramsAreEmptyIff(parts: seq<string>)
    ensures ShapeNgrams(parts) == {} <==> parts == []
  {
    if |parts| >= 3 { GramsAreTriples(parts, ""); }
  }

  /** Parts of a shape have no spaces in them, so a gram determines its parts. */
  ghost predicate Spaceless(parts: seq<string>) {
    forall i :: 0 <= i < |parts| ==> ' ' !in parts[i]
  }

  lemma {:induction false} SpacedIsInjective(p: seq<string>, q: seq<string>)
    requires |p| == |q| && Spaceless(p) && Spaceless(q) && Spaced(p) == Spaced(q)
    ensures p == q
  {
    if |p| == 1 {
      assert p == [p[0]] && q == [q[0]];
    } else if |p| > 1 {
      FirstSpace(p[0], Spaced(p[1..]), q[0], Spaced(q[1..]));
      SpacedIsInjective(p[1..], q[1..]);
      assert p == [p[0]] + p[1..] && q == [q[0]] + q[1..];
    }
  }

  lemma FirstSpace(a: string, s: string, b: string, t: string)
    requires ' ' !in a && ' ' !in b && a + " " + s == b + " " + t
    ensures a == b && s == t
  {
    var u := a + " " + s;
    assert u[|a|] == ' ' && u[|b|] == ' ';
    assert forall i :: 0 <= i < |a| ==> u[i] == a[i];
    assert forall i :: 0 <= i < |b| ==> u[i] == b[i];
    assert |a| == |b|;
    assert a == u[..|a|] && b == u[..|b|];
    assert s == u[|a| + 1..] && t == u[|b| + 1..];
  }

  /** Two shapes share a gram exactly if they share three neighbouring parts. */
  lemma {:induction false} SharedGramIffSharedTriple(p: seq<string>, q: seq<string>)
    requires |p| >= 3 && |q| >= 3 && Spaceless(p) && Spaceless(q)
    ensures ShapeNgrams(p) * ShapeNgrams(q) != {}
            <==> exists i, j :: 0 <= i <= |p| - 3 && 0 <= j <= |q| - 3 && Triple(p, i) == Triple(q, j)
  {
    if g :| g in ShapeNgrams(p) * ShapeNgrams(q) {
      var i :| 0 <= i < |p| - 2 && g == Gram(p, i);
      var j :| 0 <= j < |q| - 2 && g == Gram(q, j);
      SpacedIsInjective(Triple(p, i), Triple(q, j));
      assert i <= |p| - 3 && j <= |q| - 3;
    }
    if i, j :| 0 <= i <= |p| - 3 && 0 <= j <= |q| - 3 && Triple(p, i) == Triple(q, j) {
      assert 0 <= i < |p| - 2 && 0 <= j < |q| - 2;
      assert Gram(p, i) == Gram(q, j) && Gram(p, i) in ShapeNgrams(p) * ShapeNgrams(q);
    }
  }

  function Jaccard<T(==)>(a: set<T>, b: set<T>): real {
    if a == {} || b == {} then 0.0
    else |a * b| as real / (|a| + |b| - |a * b|) as real
  }

  lemma UnionSize<T>(a: set<T>, b: set<T>)
    ensures |a + b| == |a| + |b| - |a * b|
  {
  }

  lemma JaccardIsShare<T>(a: set<T>, b: set<T>)
    requires a + b != {}
    ensures |a + b| > 0 && Jaccard(a, b) == |a * b| as real / |a + b| as real
  {
    UnionSize(a, b);
    if a == {} || b == {} { assert a * b == {}; }
  }

  lemma FractionRange(n: nat, u: nat)
    requires n <= u && u > 0
    ensures 0.0 <= n as real / u as real <= 1.0
    ensures n as real / u as real == 1.0 <==> n == u
  {
  }

  lemma JaccardRange<T>(a: set<T>, b: set<T>)
    ensures 0.0 <= Jaccard(a, b) <= 1.0 && Jaccard(a, b) == Jaccard(b, a)
    ensures Jaccard(a, b) == 1.0 <==> a == b && a != {}
    ensures a == {} || b == {} ==> Jaccard(a, b) == 0.0
  {
    assert a * b == b * a;
    SubsetSize(a * b, a);
    SubsetSize(a * b, b);
    if a != {} && b != {} {
      var n, u := |a * b|, |a| + |b| - |a * b|;
      FractionRange(n, u);
      if a == b { assert a * b == a; }
      if n == u {
        SubsetSize(a * b, a);
        SubsetSize(a * b, b);
      }
    }
  }

  lemma GrowBoth(x: nat, y: nat, c: nat)
    requires x <= y && y > 0
    ensures x as real / y as real <= (x + c) as real / (y + c) as real
  {
    CrossMultiply(x as real, y as real, (x + c) as real, (y + c) as real) by {
      assert x as real * c as real <= y as real * c as real;
    }
  }

  lemma CrossMultiply(a: real, b: real, c: real, d: real)
    requires b > 0.0 && d > 0.0 && a * d <= c * b
    ensures a / b <= c / d
  {
    var x, y := a / b, c / d;
    assert x * (b * d) == a * d by { assert x * b == a; }
    assert y * (b * d) == c * b by { assert y * d == c; }
    assert (y - x) * (b * d) == c * b - a * d;
    assert b * d > 0.0;
    NonNegativeFactor(y - x, b * d);
  }

  lemma SmallerDenominator(x: nat, y: nat, u: nat)
    requires 0 < y <= u
    ensures x as real / u as real <= x as real / y as real
  {
    CrossMultiply(x as real, u as real, x as real, y as real);
  }

  /** |A n B| + |B n C| + |C - A - B| + |A - B - C| counts nothing but A n B n C twice. */
  lemma Regions<T>(a: set<T>, b: set<T>, c: set<T>)
    ensures |a * b| + |b * c| + |c - (a + b)| + |a - (b + c)| <= |a + b + c| + |a * c|
  {
    var meet := b * (a + c);
    UnionSize(a * b, b * c);
    assert (a * b) + (b * c) == meet;
    assert (a * b) * (b * c) == a * b * c;
    SubsetSize(a * b * c, a * c);
    var outC, outA := c - (a + b), a - (b + c);
    UnionSize(meet, outC);
    assert meet * outC == {};
    UnionSize(meet + outC, outA);
    assert (meet + outC) * outA == {};
    SubsetSize(meet + outC + outA, a + b + c);
  }

  lemma AddToUnion<T>(a: set<T>, b: set<T>, c: set<T>)
    ensures |a + b| + |c - (a + b)| == |a + b + c|
  {
    UnionSize(a + b, c - (a + b));
    assert (a + b) * (c - (a + b)) == {};
    assert (a + b) + (c - (a + b)) == a + b + c;
  }

  /** The triangle inequality of the Jaccard distance 1 - J, empty sets included. */
  lemma JaccardTriangle<T>(a: set<T>, b: set<T>, c: set<T>)
    ensures Jaccard(a, b) + Jaccard(b, c) <= 1.0 + Jaccard(a, c)
  {
    hide Jaccard;
    JaccardRange(a, b);
    JaccardRange(b, c);
    JaccardRange(a, c);
    if a != {} && b != {} && c != {} {
      var u := |a + b + c|;
      JaccardIsShare(a, b);
      JaccardIsShare(b, c);
      JaccardIsShare(a, c);
      SubsetSize(a * b, a + b);
      SubsetSize(b * c, b + c);
      SubsetSize(a + c, a + b + c);
      AddToUnion(a, b, c);
      AddToUnion(b, c, a);
      assert b + c + a == a + b + c;
      var x, y := |c - (a + b)|, |a - (b + c)|;
      GrowBoth(|a * b|, |a + b|, x);
      GrowBoth(|b * c|, |b + c|, y);
      SmallerDenominator(|a * c|, |a + c|, u);
      Regions(a, b, c);
      AddShares(|a * b| + x, |b * c| + y, |a * c|, u);
    }
  }

  lemma AddShares(p: nat, q: nat, r: nat, u: nat)
    requires u > 0 && p + q <= u + r
    ensures p as real / u as real + q as real / u as real <= 1.0 + r as real / u as real
  {
    var d := u as real;
    AddFractions(p as real, q as real, d);
    AddFractions(d, r as real, d);
    assert d / d == 1.0;
    var less, more := p as real + q as real, d + r as real;
    assert less * d <= more * d;
    CrossMultiply(less, d, more, d);
  }

  // ------------------------------------------------------------ the index

  type Grams = set<string>

  /** Reference lists by parser, and the parsers in insertion order. */
  datatype Index = Index(order: seq<string>, lists: map<string, seq<Grams>>)

  const EMPTY := Index([], map[])
  const CAP := 200

  function ListOf(ix: Index, pid: string): seq<Grams> { if pid in ix.lists then ix.lists[pid] else [] }

  predicate Near(refs: seq<Grams>, ng: Grams) {
    exists i :: 0 <= i < |refs| && Jaccard(ng, refs[i]) > 0.95
  }

  function Deduplicated(refs: seq<Grams>, ng: Grams): seq<Grams> {
    if Near(refs, ng) then refs else refs + [ng]
  }

  function Capped(refs: seq<Grams>): seq<Grams> {
    if |refs| > CAP then refs[1..] else refs
  }

  /** Only a list that has just grown is cut back, by its oldest reference. */
  function Extended(refs: seq<Grams>, ng: Grams): seq<Grams> {
    if Near(refs, ng) then refs else Capped(refs + [ng])
  }

  function Added(ix: Index, pid: string, ng: Grams): Index {
    Index(if pid in ix.lists then ix.order else ix.order + [pid],
          ix.lists[pid := Extended(ListOf(ix, pid), ng)])
  }

  datatype Addition = Addition(pid: string, grams: Grams)

  function Run(history: seq<Addition>): Index {
    if history == [] then EMPTY
    else
      var last := history[|history| - 1];
      Added(Run(history[..|history| - 1]), last.pid, last.grams)
  }

  /** The references of one parser as they would be without the cap. */
  function Kept(history: seq<Addition>, pid: string): seq<Grams> {
    if history == [] then []
    else
      var rest, last := Kept(history[..|history| - 1], pid), history[|history| - 1];
      if last.pid == pid then Deduplicated(rest, last.grams) else rest
  }

  lemma {:induction false} KeptGrows(history: seq<Addition>, pid: string, n: nat)
    requires n <= |history|
    ensures Kept(history[..n], pid) <= Kept(history, pid)
    decreases |history|
  {
    if n == |history| {
      assert history[..n] == history;
    } else {
      var init := history[..|history| - 1];
      KeptGrows(init, pid, n);
      assert init[..n] == history[..n];
    }
  }

  /** As long as the cap has not been exceeded, the index holds the deduplicated additions. */
  lemma {:induction false} UncappedIsKept(history: seq<Addition>, pid: string)
    requires |Kept(history, pid)| <= CAP
    ensures ListOf(Run(history), pid) == Kept(history, pid)
  {
    hide Near;
    if history != [] {
      KeptGrows(history, pid, |history| - 1);
      UncappedIsKept(history[..|history| - 1], pid);
    }
  }

  /** Every shape ever added has a kept reference that equals it or is more than 0.95 similar to it. */
  lemma {:induction false} EveryAdditionIsCovered(history: seq<Addition>, i: nat) returns (r: nat)
    requires i < |history|
    ensures r < |Kept(history, history[i].pid)|
    ensures var ref := Kept(history, history[i].pid)[r];
            ref == history[i].grams || Jaccard(history[i].grams, ref) > 0.95
    decreases |history|
  {
    var init, last := history[..|history| - 1], history[|history| - 1];
    if i < |history| - 1 {
      r := EveryAdditionIsCovered(init, i);
      KeptGrows(history, history[i].pid, |history| - 1);
    } else {
      var refs := Kept(init, last.pid);
      if Near(refs, last.grams) {
        r :| 0 <= r < |refs| && Jaccard(last.grams, refs[r]) > 0.95;
      } else {
        r := |refs|;
      }
    }
  }

  ghost predicate PairwiseFar(refs: seq<Grams>) {
    forall i, j :: 0 <= i < j < |refs| ==> Jaccard(refs[i], refs[j]) <= 0.95
  }

  lemma {:induction false} ExtendedIsFar(refs: seq<Grams>, ng: Grams)
    requires PairwiseFar(refs)
    ensures PairwiseFar(Extended(refs, ng))
  {
    hide Jaccard;
    var all := Extended(refs, ng);
    forall i, j | 0 <= i < j < |all|
      ensures Jaccard(all[i], all[j]) <= 0.95
    {
      JaccardRange(all[i], all[j]);
    }
  }

  /** In every run, evictions included, a parser has at most 200 references, pairwise at most 0.95 similar. */
  lemma {:induction false} ReferencesAreFarApart(history: seq<Addition>, pid: string)
    ensures |ListOf(Run(history), pid)| <= CAP && PairwiseFar(ListOf(Run(history), pid))
  {
    hide Near;
    if history == [] {
    } else {
      var init, last := history[..|history| - 1], history[|history| - 1];
      ReferencesAreFarApart(init, pid);
      ExtendedIsFar(ListOf(Run(init), pid), last.grams);
    }
  }

  /** The latest 200. */
  function Latest(refs: seq<Grams>): seq<Grams> {
    if |refs| > 200 then refs[|refs| - 200..] else refs
  }

  /** All references ever taken in for a parser: those that were not nearly equal to one of the latest 200. */
  function Taken(history: seq<Addition>, pid: string): seq<Grams> {
    if history == [] then []
    else
      var rest, last := Taken(history[..|history| - 1], pid), history[|history| - 1];
      if last.pid == pid && !Near(Latest(rest), last.grams) then rest + [last.grams] else rest
  }

  /** Beyond the cap the oldest references go: the list is the latest 200 taken in, in their order. */
  lemma {:induction false} ListIsLatest(history: seq<Addition>, pid: string)
    ensures ListOf(Run(history), pid) == Latest(Taken(history, pid))
  {
    hide Near;
    if history != [] {
      ListIsLatest(history[..|history| - 1], pid);
    }
  }

  // ------------------------------------------------------------ queries

  datatype Best = Best(pid: Option<string>, score: real)

  /** The running best over the first n references of one parser; ties keep the earlier one. */
  function BestIn(best: Best, ng: Grams, pid: string, refs: seq<Grams>, n: nat): Best
    requires n <= |refs|
  {
    if n == 0 then best
    else
      var b, s := BestIn(best, ng, pid, refs, n - 1), Jaccard(ng, refs[n - 1]);
      if s > b.score then Best(Some(pid), s) else b
  }

  function BestOf(ix: Index, ng: Grams, n: nat): Best
    requires n <= |ix.order|
  {
    if n == 0 then Best(None, 0.0)
    else
      var refs := ListOf(ix, ix.order[n - 1]);
      BestIn(BestOf(ix, ng, n - 1), ng, ix.order[n - 1], refs, |refs|)
  }

  /** No match if nothing overlaps; and none either if the winner is the empty parser id. */
  function Match(ix: Index, ng: Grams): Option<(string, real)> {
    var b := BestOf(ix, ng, |ix.order|);
    if b.pid.Some? && b.pid.value != "" then Some((b.pid.value, b.score)) else None
  }

  ghost predicate Scores(best: Best, ng: Grams, pid: string, refs: seq<Grams>) {
    best.pid == Some(pid) && exists i :: 0 <= i < |refs| && Jaccard(ng, refs[i]) == best.score
  }

  lemma {:induction false} BestInIsMaximum(best: Best, ng: Grams, pid: string, refs: seq<Grams>, n: nat)
    requires n <= |refs|
    ensures var b := BestIn(best, ng, pid, refs, n);
            && b.score >= best.score && (b.score == best.score ==> b == best)
            && (forall i :: 0 <= i < n ==> Jaccard(ng, refs[i]) <= b.score)
            && (b == best || (b.pid == Some(pid) && Scores(b, ng, pid, refs)))
  {
    hide Jaccard;
    if n > 0 {
      BestInIsMaximum(best, ng, pid, refs, n - 1);
      var b := BestIn(best, ng, pid, refs, n);
      if b != BestIn(best, ng, pid, refs, n - 1) {
        assert Jaccard(ng, refs[n - 1]) == b.score;
      }
    }
  }

  /** The result of a query: the highest overlap there is, and the first parser that reaches it. */
  lemma {:induction false} BestOfIsMaximum(ix: Index, ng: Grams, n: nat)
    requires n <= |ix.order|
    ensures var b := BestOf(ix, ng, n);
            && b.score >= 0.0 && (b.pid.None? <==> b.score == 0.0)
            && (forall k, i :: 0 <= k < n && 0 <= i < |ListOf(ix, ix.order[k])| ==>
                  Jaccard(ng, ListOf(ix, ix.order[k])[i]) <= b.score)
            && (b.pid.Some? ==> exists k :: 0 <= k < n && Scores(b, ng, ix.order[k], ListOf(ix, ix.order[k]))
                                  && forall l, i :: 0 <= l < k && 0 <= i < |ListOf(ix, ix.order[l])| ==>
                                       Jaccard(ng, ListOf(ix, ix.order[l])[i]) < b.score)
  {
    hide Jaccard, Scores, ListOf;
    if n > 0 {
      BestOfIsMaximum(ix, ng, n - 1);
      var before, pid := BestOf(ix, ng, n - 1), ix.order[n - 1];
      var refs := ListOf(ix, pid);
      BestInIsMaximum(before, ng, pid, refs, |refs|);
      var b := BestOf(ix, ng, n);
      if b == before {
        if b.pid.Some? {
          var k :| 0 <= k < n - 1 && Scores(before, ng, ix.order[k], ListOf(ix, ix.order[k]))
            && forall l, i :: 0 <= l < k && 0 <= i < |ListOf(ix, ix.order[l])| ==>
                 Jaccard(ng, ListOf(ix, ix.order[l])[i]) < before.score;
          assert Scores(b, ng, ix.order[k], ListOf(ix, ix.order[k]));
        }
      } else {
        assert Scores(b, ng, ix.order[n - 1], ListOf(ix, ix.order[n - 1]));
      }
    }
  }

  lemma {:induction false} OrderListsKeys(history: seq<Addition>, pid: string)
    ensures pid in Run(history).lists <==> pid in Run(history).order
    ensures pid in Run(history).lists <==> exists i :: 0 <= i < |history| && history[i].pid == pid
  {
    hide Extended, ListOf;
    if history != [] {
      var n, init, last := |history| - 1, history[..|history| - 1], history[|history| - 1];
      OrderListsKeys(init, pid);
      var ix := Run(init);
      assert Run(history) == Added(ix, last.pid, last.grams);
      OrderListsKeys(init, last.pid);
      if i :| 0 <= i < |init| && init[i].pid == pid {
        assert history[i].pid == pid;
      }
      if i :| 0 <= i < |history| && history[i].pid == pid {
        assert i < n ==> init[i].pid == pid;
      }
      assert last.pid == history[n].pid;
    }
  }

  /** Dropping near-duplicates costs a query less than 0.05: for every shape ever added for a parser whose
      list has not exceeded the cap, the best match scores within 0.05 of that shape itself. */
  lemma {:induction false} DroppingIsNearlyLossless(history: seq<Addition>, i: nat, q: Grams)
    requires i < |history| && |Kept(history, history[i].pid)| <= CAP
    requires Jaccard(q, history[i].grams) > 0.05
    requires forall k :: 0 <= k < |history| ==> history[k].pid != ""
    ensures var m := Match(Run(history), q);
            m.Some? && m.value.1 > Jaccard(q, history[i].grams) - 0.05
  {
    hide Jaccard, Kept, Run, BestOf;
    var ix, pid, s := Run(history), history[i].pid, history[i].grams;
    var r := EveryAdditionIsCovered(history, i);
    UncappedIsKept(history, pid);
    var ref := ListOf(ix, pid)[r];
    JaccardTriangle(q, s, ref);
    OrderListsKeys(history, pid);
    var k :| 0 <= k < |ix.order| && ix.order[k] == pid;
    BestOfIsMaximum(ix, q, |ix.order|);
    assert Jaccard(q, ListOf(ix, ix.order[k])[r]) <= BestOf(ix, q, |ix.order|).score;
    var b := BestOf(ix, q, |ix.order|);
    var l :| 0 <= l < |ix.order| && Scores(b, q, ix.order[l], ListOf(ix, ix.order[l]));
    OrderListsKeys(history, ix.order[l]);
  }

  predicate IsReference(ix: Index, k: int, i: int) {
    0 <= k < |ix.order| && 0 <= i < |ListOf(ix, ix.order[k])|
  }

  /** How much a query overlaps the i-th reference of the k-th parser. */
  function Overlap(ix: Index, q: Grams, k: int, i: int): real
    requires IsReference(ix, k, i)
  {
    Jaccard(q, ListOf(ix, ix.order[k])[i])
  }

  /** The k-th parser is the first with a reference that overlaps the query most. */
  ghost predicate IsFirstBest(ix: Index, q: Grams, k: int) {
    exists i :: IsReference(ix, k, i) && Overlap(ix, q, k, i) > 0.0 &&
      forall l, m :: IsReference(ix, l, m) ==>
        Overlap(ix, q, l, m) <= Overlap(ix, q, k, i) && (l < k ==> Overlap(ix, q, l, m) < Overlap(ix, q, k, i))
  }

  lemma OverlapsAreBounded(ix: Index, q: Grams)
    ensures forall k, i :: IsReference(ix, k, i) ==> 0.0 <= Overlap(ix, q, k, i) <= BestOf(ix, q, |ix.order|).score
  {
    hide BestOf, Jaccard, ListOf;
    BestOfIsMaximum(ix, q, |ix.order|);
    forall k, i | IsReference(ix, k, i)
      ensures 0.0 <= Overlap(ix, q, k, i) <= BestOf(ix, q, |ix.order|).score
    {
      JaccardRange(q, ListOf(ix, ix.order[k])[i]);
    }
  }

  /** The query's running best ends with the first parser that has a best reference. */
  lemma BestIsFirstBest(ix: Index, q: Grams) returns (k: nat)
    requires BestOf(ix, q, |ix.order|).pid.Some?
    ensures IsFirstBest(ix, q, k) && k < |ix.order| && BestOf(ix, q, |ix.order|).pid == Some(ix.order[k])
  {
    hide BestOf, Jaccard, ListOf;
    var b := BestOf(ix, q, |ix.order|);
    BestOfIsMaximum(ix, q, |ix.order|);
    OverlapsAreBounded(ix, q);
    k :| 0 <= k < |ix.order| && Scores(b, q, ix.order[k], ListOf(ix, ix.order[k]))
      && forall l, i :: 0 <= l < k && 0 <= i < |ListOf(ix, ix.order[l])| ==>
          Jaccard(q, ListOf(ix, ix.order[l])[i]) < b.score;
    var i :| 0 <= i < |ListOf(ix, ix.order[k])| && Jaccard(q, ListOf(ix, ix.order[k])[i]) == b.score;
    assert IsReference(ix, k, i) && Overlap(ix, q, k, i) == b.score;
  }

  lemma FirstBestIsUnique(ix: Index, q: Grams, k: int, l: int)
    requires IsFirstBest(ix, q, k) && IsFirstBest(ix, q, l)
    ensures k == l
  {
    hide Overlap, IsReference;
    var i :| IsReference(ix, k, i) && Overlap(ix, q, k, i) > 0.0 &&
      forall n, m :: IsReference(ix, n, m) ==>
        Overlap(ix, q, n, m) <= Overlap(ix, q, k, i) && (n < k ==> Overlap(ix, q, n, m) < Overlap(ix, q, k, i));
    var j :| IsReference(ix, l, j) && Overlap(ix, q, l, j) > 0.0 &&
      forall n, m :: IsReference(ix, n, m) ==>
        Overlap(ix, q, n, m) <= Overlap(ix, q, l, j) && (n < l ==> Overlap(ix, q, n, m) < Overlap(ix, q, l, j));
    assert Overlap(ix, q, k, i) == Overlap(ix, q, l, j);
  }

  /** A query has no match exactly if no reference overlaps it, or the first parser with the best reference has no
      name. */
  lemma NoMatchIffNothingOverlaps(ix: Index, q: Grams)
    ensures Match(ix, q).None? <==>
            || (forall k, i :: IsReference(ix, k, i) ==> Overlap(ix, q, k, i) == 0.0)
            || (exists k :: IsFirstBest(ix, q, k) && ix.order[k] == "")
  {
    hide BestOf, Overlap;
    BestOfIsMaximum(ix, q, |ix.order|);
    OverlapsAreBounded(ix, q);
    if BestOf(ix, q, |ix.order|).pid.Some? {
      var k := BestIsFirstBest(ix, q);
      forall l | IsFirstBest(ix, q, l) ensures l == k { FirstBestIsUnique(ix, q, k, l); }
    }
  }

  ghost predicate Consistent(ix: Index) {
    forall pid :: pid in ix.order <==> pid in ix.lists
  }

  /** The k-th parser has these grams among its references, and no earlier parser has. */
  ghost predicate FirstHolds(ix: Index, q: Grams, k: nat) {
    && k < |ix.order| && q in ListOf(ix, ix.order[k])
    && forall l :: 0 <= l < k ==> q !in ListOf(ix, ix.order[l])
  }

  /** A query scores 1 exactly if its own grams are a reference, and leads to the first parser that has them. */
  lemma {:induction false} ScoresOneIff(ix: Index, q: Grams)
    requires q != {}
    ensures var b := BestOf(ix, q, |ix.order|);
            && b.score <= 1.0
            && (b.score == 1.0 <==> exists k :: 0 <= k < |ix.order| && q in ListOf(ix, ix.order[k]))
            && (b.score == 1.0 ==> exists k: nat :: FirstHolds(ix, q, k) && b.pid == Some(ix.order[k]))
  {
    hide Jaccard, ListOf, BestOf;
    var b := BestOf(ix, q, |ix.order|);
    BestOfIsMaximum(ix, q, |ix.order|);
    if b.pid.Some? {
      var k :| 0 <= k < |ix.order| && Scores(b, q, ix.order[k], ListOf(ix, ix.order[k]))
        && forall l, i :: 0 <= l < k && 0 <= i < |ListOf(ix, ix.order[l])| ==>
             Jaccard(q, ListOf(ix, ix.order[l])[i]) < b.score;
      var i :| 0 <= i < |ListOf(ix, ix.order[k])| && Jaccard(q, ListOf(ix, ix.order[k])[i]) == b.score;
      JaccardRange(q, ListOf(ix, ix.order[k])[i]);
      if b.score == 1.0 {
        forall l | 0 <= l < k
          ensures q !in ListOf(ix, ix.order[l])
        {
          JaccardRange(q, q);
        }
        assert FirstHolds(ix, q, k);
      }
    }
    if k :| 0 <= k < |ix.order| && q in ListOf(ix, ix.order[k]) {
      JaccardRange(q, q);
    }
  }

  /** The shape is dropped when it is added: it is nearly equal to a reference of that parser. */
  ghost predicate Dropped(ix: Index, pid: string, ng: Grams) {
    pid in ix.lists && exists r :: r in ix.lists[pid] && Jaccard(ng, r) > 0.95
  }

  lemma {:induction false} AddedHolds(ix: Index, pid: string, ng: Grams)
    requires Consistent(ix)
    ensures var ix' := Added(ix, pid, ng);
            && Consistent(ix') && pid in ix'.order && ix.order <= ix'.order
            && (forall p :: p in ix'.order ==> p in ix.order || p == pid)
            && (!Dropped(ix, pid, ng) ==> ng in ListOf(ix', pid))
            && (Dropped(ix, pid, ng) ==> ListOf(ix', pid) == ListOf(ix, pid))
            && forall p :: p != pid ==> ListOf(ix', p) == ListOf(ix, p)
  {
    hide Jaccard;
    var refs, ix' := ListOf(ix, pid), Added(ix, pid, ng);
    if Near(refs, ng) {
      var i :| 0 <= i < |refs| && Jaccard(ng, refs[i]) > 0.95;
      assert refs[i] in ix.lists[pid];
    } else {
      assert (refs + [ng])[|refs|] == ng;
      assert ListOf(ix', pid)[|ListOf(ix', pid)| - 1] == ng;
    }
  }

  /** The query with a shape that was just added to `ix` has a match above 0.95, and an exact one exactly if the shape
      was not dropped or is a reference already. */
  ghost predicate FoundBack(ix: Index, pid: string, q: Grams, m: Option<(string, real)>) {
    && m.Some? && 0.95 < m.value.1 <= 1.0
    && (m.value.1 == 1.0
        <==> !Dropped(ix, pid, q) || exists k :: 0 <= k < |ix.order| && q in ListOf(ix, ix.order[k]))
  }

  /** A shape just added is found, with a score above 0.95, and with 1 exactly if it was not dropped or is a
      reference already; the parser found then is the first one that has it. */
  lemma {:induction false} AddThenQuery(ix: Index, pid: string, shape: seq<string>)
    requires shape != [] && pid != "" && Consistent(ix) && "" !in ix.order
    ensures var q := ShapeNgrams(shape);
            var ix' := Added(ix, pid, q);
            var m := Match(ix', q);
            && FoundBack(ix, pid, q, m)
            && (m.value.1 == 1.0 ==> exists k: nat :: FirstHolds(ix', q, k) && m.value.0 == ix'.order[k])
  {
    hide ShapeNgrams, Jaccard, ListOf, BestOf, Added, FirstHolds, Dropped;
    var q := ShapeNgrams(shape);
    var ix' := Added(ix, pid, q);
    GramsAreEmptyIff(shape);
    AddedHolds(ix, pid, q);
    ScoresOneIff(ix', q);
    BestOfIsMaximum(ix', q, |ix'.order|);
    var k :| 0 <= k < |ix'.order| && ix'.order[k] == pid;
    assert forall l: nat :: FirstHolds(ix', q, l) ==> ix'.order[l] != "" by { FirstIsAParser(ix', q); }
    if Dropped(ix, pid, q) {
      DroppedIsListed(ix, pid, q);
      var i :| 0 <= i < |ListOf(ix, pid)| && Jaccard(q, ListOf(ix, pid)[i]) > 0.95;
      assert Jaccard(q, ListOf(ix', ix'.order[k])[i]) > 0.95;
      assert forall p :: p in ix.order <==> p in ix'.order;
      SameLists(ix, ix', q);
    }
  }

  lemma FirstIsAParser(ix: Index, q: Grams)
    ensures forall k: nat :: FirstHolds(ix, q, k) ==> k < |ix.order| && ix.order[k] in ix.order
  {
  }

  lemma DroppedIsListed(ix: Index, pid: string, ng: Grams)
    requires Dropped(ix, pid, ng)
    ensures exists i :: 0 <= i < |ListOf(ix, pid)| && Jaccard(ng, ListOf(ix, pid)[i]) > 0.95
    ensures pid in ix.lists
  {
    hide Jaccard;
    var r :| r in ix.lists[pid] && Jaccard(ng, r) > 0.95;
    var i :| 0 <= i < |ix.lists[pid]| && ix.lists[pid][i] == r;
    assert Jaccard(ng, ListOf(ix, pid)[i]) > 0.95;
  }

  lemma SameLists(ix: Index, ix': Index, q: Grams)
    requires forall p :: p in ix.order <==> p in ix'.order
    requires forall p :: ListOf(ix, p) == ListOf(ix', p)
    ensures (exists k :: 0 <= k < |ix.order| && q in ListOf(ix, ix.order[k]))
            <==> exists k :: 0 <= k < |ix'.order| && q in ListOf(ix', ix'.order[k])
  {
    hide ListOf;
    if k :| 0 <= k < |ix.order| && q in ListOf(ix, ix.order[k]) {
      assert ix.order[k] in ix'.order;
    }
    if k :| 0 <= k < |ix'.order| && q in ListOf(ix', ix'.order[k]) {
      assert ix'.order[k] in ix.order;
    }
  }

  class SimilarityIndex {
    var order: seq<string>
    var entries: map<string, seq<Grams>>

    constructor ()
      ensures Now() == EMPTY
    {
      order, entries := [], map[];
    }

    ghost function Now(): Index reads this { Index(order, entries) }

    method AddReference(pid: string, shape: seq<string>)
      modifies this
      ensures Now() == Added(old(Now()), pid, ShapeNgrams(shape))
      ensures Consistent(old(Now())) ==> Consistent(Now())
      ensures Consistent(old(Now())) && shape != [] && pid != "" && "" !in old(order) ==>
                FoundBack(old(Now()), pid, ShapeNgrams(shape), Match(Now(), ShapeNgrams(shape)))
    {
      hide Jaccard, FoundBack, Match, Consistent;
      if Consistent(Now()) {
        AddedHolds(Now(), pid, ShapeNgrams(shape));
        if shape != [] && pid != "" && "" !in order { AddThenQuery(Now(), pid, shape); }
      }
      if pid !in entries {
        order := order + [pid];
        entries := entries[pid := []];
      }
      var ng := ShapeNgrams(shape);
      var refs := entries[pid];
      var near := false;
      for i := 0 to |refs|
        invariant near <==> exists k :: 0 <= k < i && Jaccard(ng, refs[k]) > 0.95
      {
        if Jaccard(ng, refs[i]) > 0.95 {
          near := true;
        }
      }
      assert near == Near(refs, ng) && refs == ListOf(old(Now()), pid);
      if !near {
        refs := refs + [ng];
        if |refs| > 200 {
          refs := refs[1..];
        }
      }
      entries := entries[pid := refs];
    }

    method BestMatch(shape: seq<string>) returns (m: Option<(string, real)>)
      requires forall pid :: pid in order ==> pid in entries
      ensures m == Match(Now(), ShapeNgrams(shape))
    {
      hide Jaccard;
      var ng := ShapeNgrams(shape);
      var bestId: Option<string> := None;
      var bestScore := 0.0;
      for n := 0 to |order|
        invariant Best(bestId, bestScore) == BestOf(Now(), ng, n)
      {
        var pid := order[n];
        var refs := entries[pid];
        ghost var before := Best(bestId, bestScore);
        for i := 0 to |refs|
          invariant Best(bestId, bestScore) == BestIn(before, ng, pid, refs, i)
        {
          var s := Jaccard(ng, refs[i]);
          if s > bestScore {
            bestId, bestScore := Some(pid), s;
          }
        }
      }
      m := if bestId.Some? && bestId.value != "" then Some((bestId.value, bestScore)) else None;
    }
  }
}
