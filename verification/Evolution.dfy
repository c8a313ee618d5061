/**
 Label transfer between two templates by global alignment of their token classes
 (uli/drift/evolution.py). `Align` fills the dynamic-programming table and walks it back;
 the functions state what the walk returns, and the lemmas what that is worth.
 */
module Evolution {

  import opened Basics

  datatype TokenType =
    | PUNCT | WORD | NUM | HEX | IP4 | IP6 | MAC | TS
    | UUID | URL | EMAIL | PATH | KV | QUOTE | PORT | HOST

  /** The class pairs that count as near matches. */
  predicate Compatible(a: TokenType, b: TokenType) {
    || (a == NUM && b == PORT) || (a == PORT && b == NUM)
    || (a == WORD && b == HOST) || (a == HOST && b == WORD)
    || (a == NUM && b == HEX) || (a == HEX && b == NUM)
  }

  /** Three unordered pairs of different classes. */
  lemma CompatiblePairs(a: TokenType, b: TokenType)
    ensures Compatible(a, b) <==> {a, b} == {NUM, PORT} || {a, b} == {WORD, HOST} || {a, b} == {NUM, HEX}
  {
    assert {a, b} == {NUM, PORT} ==> NUM in {a, b} && PORT in {a, b};
    assert {a, b} == {WORD, HOST} ==> WORD in {a, b} && HOST in {a, b};
    assert {a, b} == {NUM, HEX} ==> NUM in {a, b} && HEX in {a, b};
  }

  predicate Transferable(a: TokenType, b: TokenType) {
    a == b || Compatible(a, b)
  }

  function Cost(a: TokenType, b: TokenType): int {
    if a == b then 2 else if Compatible(a, b) then 1 else -2
  }

  const GAP := -1

  /** One column of an alignment: an index of each side, or a gap on one of them. */
  datatype Column = Column(a: Option<nat>, b: Option<nat>)

  type Classes = seq<TokenType>

  // ------------------------------------------------------------ global alignments

  function Range(n: nat): seq<nat> { seq(n, i => i) }

  ghost function ASide(cols: seq<Column>): seq<nat> {
    if cols == [] then []
    else
      var last := cols[|cols| - 1];
      ASide(cols[..|cols| - 1]) + if last.a.Some? then [last.a.value] else []
  }

  ghost function BSide(cols: seq<Column>): seq<nat> {
    if cols == [] then []
    else
      var last := cols[|cols| - 1];
      BSide(cols[..|cols| - 1]) + if last.b.Some? then [last.b.value] else []
  }

  /** Every index of each side exactly once and in order, and no column of two gaps. */
  ghost predicate IsAlignment(cols: seq<Column>, n: nat, m: nat) {
    && ASide(cols) == Range(n)
    && BSide(cols) == Range(m)
    && forall k :: 0 <= k < |cols| ==> cols[k].a.Some? || cols[k].b.Some?
  }

  predicate IsPair(c: Column, x: Classes, y: Classes) {
    c.a.Some? && c.b.Some? && c.a.value < |x| && c.b.value < |y|
  }

  function ColumnScore(c: Column, x: Classes, y: Classes): int {
    if IsPair(c, x, y) then Cost(x[c.a.value], y[c.b.value]) else GAP
  }

  ghost function Score(cols: seq<Column>, x: Classes, y: Classes): int {
    if cols == [] then 0
    else Score(cols[..|cols| - 1], x, y) + ColumnScore(cols[|cols| - 1], x, y)
  }

  ghost predicate IsOptimal(cols: seq<Column>, x: Classes, y: Classes) {
    && IsAlignment(cols, |x|, |y|)
    && forall other :: IsAlignment(other, |x|, |y|) ==> Score(other, x, y) <= Score(cols, x, y)
  }

  // ------------------------------------------------------------ what the table holds

  function Max(a: int, b: int): int { if a < b then b else a }

  ghost function Best(x: Classes, y: Classes, i: nat, j: nat): int
    requires i <= |x| && j <= |y|
    decreases i + j
  {
    if i == 0 && j == 0 then 0
    else if i == 0 then Best(x, y, 0, j - 1) + GAP
    else if j == 0 then Best(x, y, i - 1, 0) + GAP
    else
      Max(Best(x, y, i - 1, j - 1) + Cost(x[i - 1], y[j - 1]),
          Max(Best(x, y, i - 1, j) + GAP, Best(x, y, i, j - 1) + GAP))
  }

  lemma BestStep(x: Classes, y: Classes, i: nat, j: nat)
    requires i <= |x| && j <= |y|
    ensures i == 0 && j == 0 ==> Best(x, y, i, j) == 0
    ensures i > 0 ==> Best(x, y, i, j) >= Best(x, y, i - 1, j) - 1
    ensures j > 0 ==> Best(x, y, i, j) >= Best(x, y, i, j - 1) - 1
    ensures i > 0 && j > 0 ==> Best(x, y, i, j) >= Best(x, y, i - 1, j - 1) + Cost(x[i - 1], y[j - 1])
    ensures i > 0 || j > 0 ==>
            || (i > 0 && Best(x, y, i, j) == Best(x, y, i - 1, j) - 1)
            || (j > 0 && Best(x, y, i, j) == Best(x, y, i, j - 1) - 1)
            || (i > 0 && j > 0 && Best(x, y, i, j) == Best(x, y, i - 1, j - 1) + Cost(x[i - 1], y[j - 1]))
  {
  }

  /** The alignment of the two prefixes that the backward walk collects. */
  ghost function Trace(x: Classes, y: Classes, i: nat, j: nat): seq<Column>
    requires i <= |x| && j <= |y|
    decreases i + j
  {
    if i == 0 && j == 0 then []
    else if i > 0 && j > 0 && Best(x, y, i, j) == Best(x, y, i - 1, j - 1) + Cost(x[i - 1], y[j - 1]) then
      Trace(x, y, i - 1, j - 1) + [Column(Some(i - 1), Some(j - 1))]
    else if i > 0 && Best(x, y, i, j) == Best(x, y, i - 1, j) + GAP then
      Trace(x, y, i - 1, j) + [Column(Some(i - 1), None)]
    else if j > 0 then
      Trace(x, y, i, j - 1) + [Column(None, Some(j - 1))]
    else
      assert false; []
  }

  lemma Snoc<T>(s: seq<T>, x: T)
    ensures |s + [x]| == |s| + 1 && (s + [x])[..|s|] == s && (s + [x])[|s|] == x
  {
  }

  lemma RangeSnoc(n: nat)
    requires n > 0
    ensures Range(n) == Range(n - 1) + [n - 1]
  {
  }

  lemma TraceStep(x: Classes, y: Classes, i: nat, j: nat)
    requires i <= |x| && j <= |y|
    ensures i == 0 && j == 0 ==> Trace(x, y, i, j) == [] && Best(x, y, i, j) == 0
    ensures i > 0 || j > 0 ==>
            var diag := i > 0 && j > 0 && Best(x, y, i, j) == Best(x, y, i - 1, j - 1) + Cost(x[i - 1], y[j - 1]);
            var up := !diag && i > 0 && Best(x, y, i, j) == Best(x, y, i - 1, j) + GAP;
            && (diag ==> Trace(x, y, i, j) == Trace(x, y, i - 1, j - 1) + [Column(Some(i - 1), Some(j - 1))])
            && (up ==> Trace(x, y, i, j) == Trace(x, y, i - 1, j) + [Column(Some(i - 1), None)])
            && (!diag && !up ==> j > 0 && Best(x, y, i, j) == Best(x, y, i, j - 1) + GAP
                                 && Trace(x, y, i, j) == Trace(x, y, i, j - 1) + [Column(None, Some(j - 1))])
  {
  }

  /** Appending a column that holds the next index of each side it does not gap. */
  lemma ExtendAlignment(cols: seq<Column>, c: Column, x: Classes, y: Classes, n: nat, m: nat)
    requires IsAlignment(cols, n, m) && (c.a.Some? || c.b.Some?)
    requires (c.a.Some? ==> c.a.value == n) && (c.b.Some? ==> c.b.value == m)
    ensures IsAlignment(cols + [c], if c.a.Some? then n + 1 else n, if c.b.Some? then m + 1 else m)
    ensures Score(cols + [c], x, y) == Score(cols, x, y) + ColumnScore(c, x, y)
  {
    Snoc(cols, c);
    RangeSnoc(n + 1);
    RangeSnoc(m + 1);
  }

  /** The walk yields a global alignment that scores what the table says. */
  lemma {:induction false} TraceIsAlignment(x: Classes, y: Classes, i: nat, j: nat)
    requires i <= |x| && j <= |y|
    ensures IsAlignment(Trace(x, y, i, j), i, j)
    ensures Score(Trace(x, y, i, j), x, y) == Best(x, y, i, j)
    decreases i + j
  {
    hide Best, Trace;
    TraceStep(x, y, i, j);
    if i > 0 || j > 0 {
      if i > 0 && j > 0 && Best(x, y, i, j) == Best(x, y, i - 1, j - 1) + Cost(x[i - 1], y[j - 1]) {
        TraceIsAlignment(x, y, i - 1, j - 1);
        ExtendAlignment(Trace(x, y, i - 1, j - 1), Column(Some(i - 1), Some(j - 1)), x, y, i - 1, j - 1);
      } else if i > 0 && Best(x, y, i, j) == Best(x, y, i - 1, j) + GAP {
        TraceIsAlignment(x, y, i - 1, j);
        ExtendAlignment(Trace(x, y, i - 1, j), Column(Some(i - 1), None), x, y, i - 1, j);
      } else {
        TraceIsAlignment(x, y, i, j - 1);
        ExtendAlignment(Trace(x, y, i, j - 1), Column(None, Some(j - 1)), x, y, i, j - 1);
      }
    }
  }

  lemma PrefixIsAlignment(cols: seq<Column>, n: nat, m: nat)
    requires IsAlignment(cols, n, m) && cols != []
    ensures var last := cols[|cols| - 1];
            && (last.a.Some? ==> n > 0 && last.a.value == n - 1)
            && (last.b.Some? ==> m > 0 && last.b.value == m - 1)
            && IsAlignment(cols[..|cols| - 1], if last.a.Some? then n - 1 else n, if last.b.Some? then m - 1 else m)
  {
    var last, init := cols[|cols| - 1], cols[..|cols| - 1];
    assert |Range(n)| == n && |Range(m)| == m;
    if last.a.Some? {
      assert ASide(cols) == ASide(init) + [last.a.value];
      assert n > 0;
      RangeSnoc(n);
      Snoc(ASide(init), last.a.value);
      Snoc(Range(n - 1), n - 1);
    }
    if last.b.Some? {
      assert BSide(cols) == BSide(init) + [last.b.value];
      assert m > 0;
      RangeSnoc(m);
      Snoc(BSide(init), last.b.value);
      Snoc(Range(m - 1), m - 1);
    }
  }

  /** No alignment of two prefixes scores more than the table entry. */
  lemma {:induction false} BestIsUpperBound(cols: seq<Column>, x: Classes, y: Classes, i: nat, j: nat)
    requires i <= |x| && j <= |y| && IsAlignment(cols, i, j)
    ensures Score(cols, x, y) <= Best(x, y, i, j)
    decreases |cols|
  {
    hide Best;
    BestStep(x, y, i, j);
    if cols == [] {
      assert |Range(i)| == i && |Range(j)| == j;
    } else {
      PrefixIsAlignment(cols, i, j);
      var last := cols[|cols| - 1];
      BestIsUpperBound(cols[..|cols| - 1], x, y, if last.a.Some? then i - 1 else i, if last.b.Some? then j - 1 else j);
    }
  }

  lemma {:induction false} TraceIsOptimal(x: Classes, y: Classes)
    ensures IsOptimal(Trace(x, y, |x|, |y|), x, y)
    ensures Score(Trace(x, y, |x|, |y|), x, y) == Best(x, y, |x|, |y|)
  {
    TraceIsAlignment(x, y, |x|, |y|);
    forall other | IsAlignment(other, |x|, |y|)
      ensures Score(other, x, y) <= Best(x, y, |x|, |y|)
    {
      BestIsUpperBound(other, x, y, |x|, |y|);
    }
  }

  method Classify(classify: string -> TokenType, tokens: seq<string>) returns (cls: Classes)
    ensures |cls| == |tokens|
    ensures forall k :: 0 <= k < |tokens| ==> cls[k] == classify(tokens[k])
  {
    cls := seq(|tokens|, k requires 0 <= k < |tokens| => classify(tokens[k]));
  }

  ghost function ClassesOf(classify: string -> TokenType, tokens: seq<string>): (cls: Classes)
    ensures |cls| == |tokens|
  {
    seq(|tokens|, k requires 0 <= k < |tokens| => classify(tokens[k]))
  }

  method Align(classify: string -> TokenType, aTokens: seq<string>, bTokens: seq<string>)
    returns (cols: seq<Column>)
    ensures var x, y := ClassesOf(classify, aTokens), ClassesOf(classify, bTokens);
            && IsOptimal(cols, x, y)
            && Score(cols, x, y) == Best(x, y, |x|, |y|)
            && cols == Trace(x, y, |x|, |y|)
            && IsTheAlignment(cols, x, y)
  {
    var x := Classify(classify, aTokens);
    var y := Classify(classify, bTokens);
    assert x == ClassesOf(classify, aTokens) && y == ClassesOf(classify, bTokens);
    var dp := FillTable(x, y);
    cols := WalkBack(x, y, dp);
    TraceIsOptimal(x, y);
    TraceIsTheAlignment(x, y);
  }

  lemma Associative<T>(s: seq<T>, x: T, t: seq<T>)
    ensures (s + [x]) + t == s + ([x] + t)
  {
  }

  method WalkBack(x: Classes, y: Classes, dp: array2<int>) returns (cols: seq<Column>)
    requires dp.Length0 == |x| + 1 && dp.Length1 == |y| + 1 && Filled(dp, x, y, |x| + 1)
    ensures cols == Trace(x, y, |x|, |y|)
  {
    hide Best, Trace;
    var i, j := |x|, |y|;
    var out: seq<Column> := [];
    while i > 0 || j > 0
      invariant 0 <= i <= |x| && 0 <= j <= |y|
      invariant Trace(x, y, |x|, |y|) == Trace(x, y, i, j) + Reversed(out)
      decreases i + j
    {
      ghost var before := out;
      TraceStep(x, y, i, j);
      if i > 0 && j > 0 && dp[i, j] == dp[i - 1, j - 1] + Cost(x[i - 1], y[j - 1]) {
        out := out + [Column(Some(i - 1), Some(j - 1))];
        i, j := i - 1, j - 1;
      } else if i > 0 && dp[i, j] == dp[i - 1, j] + GAP {
        out := out + [Column(Some(i - 1), None)];
        i := i - 1;
      } else {
        out := out + [Column(None, Some(j - 1))];
        j := j - 1;
      }
      ReversedSnoc(before, out[|out| - 1]);
      Associative(Trace(x, y, i, j), out[|out| - 1], Reversed(before));
    }
    cols := Reversed(out);
    TraceStep(x, y, 0, 0);
    assert Trace(x, y, 0, 0) + cols == cols;
  }

  /** The first rows of the table are filled. */
  ghost predicate Filled(dp: array2<int>, x: Classes, y: Classes, rows: nat)
    requires dp.Length0 == |x| + 1 && dp.Length1 == |y| + 1 && rows <= |x| + 1
    reads dp
  {
    forall i, j :: 0 <= i < rows && 0 <= j <= |y| ==> dp[i, j] == Best(x, y, i, j)
  }

  method FillTable(x: Classes, y: Classes) returns (dp: array2<int>)
    ensures fresh(dp) && dp.Length0 == |x| + 1 && dp.Length1 == |y| + 1
    ensures Filled(dp, x, y, |x| + 1)
  {
    hide Best;
    var n, m := |x|, |y|;
    dp := new int[n + 1, m + 1]((_, _) => 0);
    BestStep(x, y, 0, 0);
    for i := 1 to n + 1
      invariant forall k :: 0 <= k < i ==> dp[k, 0] == Best(x, y, k, 0)
      invariant dp[0, 0] == 0 == Best(x, y, 0, 0)
    {
      BestStep(x, y, i, 0);
      dp[i, 0] := dp[i - 1, 0] + GAP;
    }
    for j := 1 to m + 1
      invariant forall k :: 0 <= k <= n ==> dp[k, 0] == Best(x, y, k, 0)
      invariant forall k :: 0 <= k < j ==> dp[0, k] == Best(x, y, 0, k)
    {
      BestStep(x, y, 0, j);
      dp[0, j] := dp[0, j - 1] + GAP;
    }
    for i := 1 to n + 1
      invariant forall k :: 0 <= k <= n ==> dp[k, 0] == Best(x, y, k, 0)
      invariant Filled(dp, x, y, i)
    {
      FillRow(x, y, dp, i);
    }
  }

  method FillRow(x: Classes, y: Classes, dp: array2<int>, i: nat)
    requires dp.Length0 == |x| + 1 && dp.Length1 == |y| + 1 && 1 <= i <= |x|
    requires Filled(dp, x, y, i) && dp[i, 0] == Best(x, y, i, 0)
    modifies dp
    ensures Filled(dp, x, y, i + 1)
    ensures forall k :: 0 <= k <= |x| ==> dp[k, 0] == old(dp[k, 0])
  {
    hide Best;
    for j := 1 to |y| + 1
      invariant forall k, l :: 0 <= k <= |x| && 0 <= l <= |y| && (k != i || l == 0) ==> dp[k, l] == old(dp[k, l])
      invariant forall l :: 0 <= l < j ==> dp[i, l] == Best(x, y, i, l)
    {
      var diag := dp[i - 1, j - 1] + Cost(x[i - 1], y[j - 1]);
      var up := dp[i - 1, j] + GAP;
      var left := dp[i, j - 1] + GAP;
      dp[i, j] := Max(diag, Max(up, left));
      BestStep(x, y, i, j);
    }
  }

  // ------------------------------------------------------------ label transfer

  predicate Carries(c: Column, labelled: set<int>, x: Classes, y: Classes) {
    IsPair(c, x, y) && c.a.value in labelled && Transferable(x[c.a.value], y[c.b.value])
  }

  /** The transferred labels, as a map from new index to the old index its name comes from. */
  ghost function Carried(cols: seq<Column>, labelled: set<int>, x: Classes, y: Classes): map<nat, nat> {
    if cols == [] then map[]
    else
      var rest, last := Carried(cols[..|cols| - 1], labelled, x, y), cols[|cols| - 1];
      if Carries(last, labelled, x, y) then rest[last.b.value := last.a.value] else rest
  }

  /** Pairs of transferable classes, with no regard to labels. */
  ghost function Matched(cols: seq<Column>, x: Classes, y: Classes): nat {
    if cols == [] then 0
    else
      var last := cols[|cols| - 1];
      Matched(cols[..|cols| - 1], x, y) +
      if IsPair(last, x, y) && Transferable(x[last.a.value], y[last.b.value]) then 1 else 0
  }

  /** Strictly increasing, hence injective: labels never cross. */
  ghost predicate StrictlyIncreasing(f: map<nat, nat>) {
    forall b, b' :: b in f && b' in f && b < b' ==> f[b] < f[b']
  }

  lemma {:induction false} CarriedIsMonotone(cols: seq<Column>, labelled: set<int>, x: Classes, y: Classes, i: nat,
      j: nat)
    requires i <= |x| && j <= |y| && IsAlignment(cols, i, j)
    ensures var f := Carried(cols, labelled, x, y);
            && StrictlyIncreasing(f)
            && forall b :: b in f ==> b < j && f[b] < i && f[b] in labelled && Transferable(x[f[b]], y[b])
    decreases |cols|
  {
    if cols == [] {
    } else {
      PrefixIsAlignment(cols, i, j);
      var last := cols[|cols| - 1];
      CarriedIsMonotone(cols[..|cols| - 1], labelled, x, y, if last.a.Some? then i - 1 else i, if last.b.Some?
          then j - 1 else j);
    }
  }

  /** A label is carried exactly if its index is paired, and to where that pair leads. */
  lemma {:induction false} CarriedIffPaired(cols: seq<Column>, labelled: set<int>, x: Classes, y: Classes, i: nat,
      j: nat, a: nat, b: nat)
    requires i <= |x| && j <= |y| && IsAlignment(cols, i, j)
    ensures b in Carried(cols, labelled, x, y) && Carried(cols, labelled, x, y)[b] == a
            <==> Column(Some(a), Some(b)) in cols && a in labelled && a < |x| && b < |y| && Transferable(x[a], y[b])
    decreases |cols|
  {
    if cols != [] {
      PrefixIsAlignment(cols, i, j);
      var last, init := cols[|cols| - 1], cols[..|cols| - 1];
      var i', j' := if last.a.Some? then i - 1 else i, if last.b.Some? then j - 1 else j;
      assert cols == init + [last];
      CarriedIffPaired(init, labelled, x, y, i', j', a, b);
      CarriedIsMonotone(init, labelled, x, y, i', j');
      if Column(Some(a), Some(b)) in init { ColumnsAreInRange(init, i', j', Column(Some(a), Some(b))); }
    }
  }

  lemma {:induction false} ColumnsAreInRange(cols: seq<Column>, i: nat, j: nat, c: Column)
    requires IsAlignment(cols, i, j) && c in cols
    ensures (c.a.Some? ==> c.a.value < i) && (c.b.Some? ==> c.b.value < j)
    decreases |cols|
  {
    PrefixIsAlignment(cols, i, j);
    var last, init := cols[|cols| - 1], cols[..|cols| - 1];
    if c in init {
      ColumnsAreInRange(init, if last.a.Some? then i - 1 else i, if last.b.Some? then j - 1 else j, c);
    }
  }

  ghost function Below(labelled: set<int>, n: nat): set<int> {
    set k | k in labelled && 0 <= k < n
  }

  lemma BelowStep(labelled: set<int>, n: nat)
    requires n > 0
    ensures |Below(labelled, n)| == |Below(labelled, n - 1)| + if n - 1 in labelled then 1 else 0
  {
    if n - 1 in labelled {
      assert Below(labelled, n) == Below(labelled, n - 1) + {n - 1};
    } else {
      assert Below(labelled, n) == Below(labelled, n - 1);
    }
  }

  /** Every in-range label that is lost sits on an old index without a transferable partner. */
  lemma {:induction false} LostLabels(cols: seq<Column>, labelled: set<int>, x: Classes, y: Classes, i: nat, j: nat)
    requires i <= |x| && j <= |y| && IsAlignment(cols, i, j)
    ensures |Below(labelled, i)| - |Carried(cols, labelled, x, y)| <= i - Matched(cols, x, y)
    decreases |cols|
  {
    if cols == [] {
      assert |Range(i)| == i;
      assert Below(labelled, i) == {};
    } else {
      PrefixIsAlignment(cols, i, j);
      var last, init := cols[|cols| - 1], cols[..|cols| - 1];
      var i', j' := if last.a.Some? then i - 1 else i, if last.b.Some? then j - 1 else j;
      LostLabels(init, labelled, x, y, i', j');
      CarriedIsMonotone(init, labelled, x, y, i', j');
      if last.a.Some? { BelowStep(labelled, i); }
    }
  }

  /** Pairs of equal classes. */
  ghost function EqualPairs(cols: seq<Column>, x: Classes, y: Classes): nat {
    if cols == [] then 0
    else
      var last := cols[|cols| - 1];
      EqualPairs(cols[..|cols| - 1], x, y) + if IsPair(last, x, y) && x[last.a.value] == y[last.b.value] then 1 else 0
  }

  /** Near matches: pairs of different classes that are compatible. */
  ghost function NearPairs(cols: seq<Column>, x: Classes, y: Classes): nat {
    if cols == [] then 0
    else
      var last := cols[|cols| - 1];
      NearPairs(cols[..|cols| - 1], x, y) +
      if IsPair(last, x, y) && x[last.a.value] != y[last.b.value]
         && Compatible(x[last.a.value], y[last.b.value]) then 1 else 0
  }

  /** Mismatches are worth exactly two gaps, so a score counts matches: 4 for each equal pair, 3 for each near one. */
  lemma {:induction false} ScoreCountsMatches(cols: seq<Column>, x: Classes, y: Classes, i: nat, j: nat)
    requires i <= |x| && j <= |y| && IsAlignment(cols, i, j)
    ensures Score(cols, x, y) + i + j == 4 * EqualPairs(cols, x, y) + 3 * NearPairs(cols, x, y)
    ensures Matched(cols, x, y) == EqualPairs(cols, x, y) + NearPairs(cols, x, y)
    decreases |cols|
  {
    if cols == [] {
      assert |Range(i)| == i && |Range(j)| == j;
    } else {
      PrefixIsAlignment(cols, i, j);
      var last := cols[|cols| - 1];
      ScoreCountsMatches(cols[..|cols| - 1], x, y, if last.a.Some? then i - 1 else i, if last.b.Some? then j - 1
          else j);
    }
  }

  /** What an alignment is worth by its pairs alone, whatever its gaps and mismatches. */
  ghost function Worth(cols: seq<Column>, x: Classes, y: Classes): nat {
    4 * EqualPairs(cols, x, y) + 3 * NearPairs(cols, x, y)
  }

  /** Before a gap comes a pair, and before a gap on the old side one on the new side. */
  predicate Precedes(c: Column, d: Column) {
    || (c.a.Some? && c.b.Some? && (d.a.None? || d.b.None?))
    || (c.a.Some? && c.b.None? && d.a.None?)
  }

  /** Read from the end, the two agree or differ first where `cols` has the preferred column. */
  ghost predicate Preferred(cols: seq<Column>, other: seq<Column>) {
    || cols == other
    || (&& cols != [] && other != []
        && var c, d := cols[|cols| - 1], other[|other| - 1];
           Precedes(c, d) || (c == d && Preferred(cols[..|cols| - 1], other[..|other| - 1])))
  }

  /** The alignment of greatest worth, of several the one preferred from the end. */
  ghost predicate IsTheAlignment(cols: seq<Column>, x: Classes, y: Classes) {
    && IsAlignment(cols, |x|, |y|)
    && forall other :: IsAlignment(other, |x|, |y|) ==>
         || Worth(other, x, y) < Worth(cols, x, y)
         || (Worth(other, x, y) == Worth(cols, x, y) && Preferred(cols, other))
  }

  lemma PreferredSnoc(cols: seq<Column>, c: Column, other: seq<Column>)
    requires other != []
    requires Precedes(c, other[|other| - 1]) || (c == other[|other| - 1] && Preferred(cols, other[..|other| - 1]))
    ensures Preferred(cols + [c], other)
  {
    Snoc(cols, c);
  }

  lemma {:induction false} ScoreOfLast(cols: seq<Column>, x: Classes, y: Classes, i: nat, j: nat)
    requires i <= |x| && j <= |y| && IsAlignment(cols, i, j)
    ensures cols == [] ==> i == 0 && j == 0
    ensures cols != [] ==>
              var last := cols[|cols| - 1];
              Score(cols, x, y) == Score(cols[..|cols| - 1], x, y) + ColumnScore(last, x, y)
              && (last.a.Some? || last.b.Some?)
  {
    hide ColumnScore, Range;
    if cols == [] { NoColumns(i, j); }
  }

  lemma NoColumns(i: nat, j: nat)
    requires IsAlignment([], i, j)
    ensures i == 0 && j == 0
  {
    assert |Range(i)| == i && |Range(j)| == j;
  }

  lemma NothingIsPreferred()
    ensures Preferred([], [])
  {
  }

  /** Of all alignments of two prefixes with the table's score the walk collects the preferred one. */
  lemma {:induction false} TraceIsPreferred(other: seq<Column>, x: Classes, y: Classes, i: nat, j: nat)
    requires i <= |x| && j <= |y| && IsAlignment(other, i, j) && Score(other, x, y) == Best(x, y, i, j)
    ensures Preferred(Trace(x, y, i, j), other)
    decreases |other|
  {
    hide Best, Trace, Preferred, Score, Cost, IsAlignment;
    TraceStep(x, y, i, j);
    BestStep(x, y, i, j);
    ScoreOfLast(other, x, y, i, j);
    if other == [] {
      NothingIsPreferred();
    } else {
      PrefixIsAlignment(other, i, j);
      var last, init := other[|other| - 1], other[..|other| - 1];
      var i', j' := if last.a.Some? then i - 1 else i, if last.b.Some? then j - 1 else j;
      BestIsUpperBound(init, x, y, i', j');
      if i > 0 && j > 0 && Best(x, y, i, j) == Best(x, y, i - 1, j - 1) + Cost(x[i - 1], y[j - 1]) {
        if last.a.Some? && last.b.Some? { TraceIsPreferred(init, x, y, i', j'); }
        PreferredSnoc(Trace(x, y, i - 1, j - 1), Column(Some(i - 1), Some(j - 1)), other);
      } else if i > 0 && Best(x, y, i, j) == Best(x, y, i - 1, j) + GAP {
        if last.a.Some? { TraceIsPreferred(init, x, y, i', j'); }
        PreferredSnoc(Trace(x, y, i - 1, j), Column(Some(i - 1), None), other);
      } else {
        TraceIsPreferred(init, x, y, i', j');
        PreferredSnoc(Trace(x, y, i, j - 1), Column(None, Some(j - 1)), other);
      }
    }
  }

  /** The walk's alignment in terms of pairs of classes alone, with no table and no costs. */
  lemma {:induction false} TraceIsTheAlignment(x: Classes, y: Classes)
    ensures IsTheAlignment(Trace(x, y, |x|, |y|), x, y)
  {
    hide Best, Trace, Preferred, IsAlignment;
    var cols := Trace(x, y, |x|, |y|);
    TraceIsOptimal(x, y);
    ScoreCountsMatches(cols, x, y, |x|, |y|);
    forall other | IsAlignment(other, |x|, |y|)
      ensures Worth(other, x, y) <= Worth(cols, x, y)
      ensures Worth(other, x, y) == Worth(cols, x, y) ==> Preferred(cols, other)
    {
      ScoreCountsMatches(other, x, y, |x|, |y|);
      BestIsUpperBound(other, x, y, |x|, |y|);
      if Score(other, x, y) == Score(cols, x, y) { TraceIsPreferred(other, x, y, |x|, |y|); }
    }
  }

  lemma {:induction false} PreferredIsAntisymmetric(cols: seq<Column>, other: seq<Column>)
    requires Preferred(cols, other) && Preferred(other, cols)
    ensures cols == other
  {
    if cols != [] && other != [] && cols[|cols| - 1] == other[|other| - 1] {
      assert cols == cols[..|cols| - 1] + [cols[|cols| - 1]];
      assert other == other[..|other| - 1] + [other[|other| - 1]];
      if Preferred(cols[..|cols| - 1], other[..|other| - 1]) && Preferred(other[..|other| - 1], cols[..|cols| - 1]) {
        PreferredIsAntisymmetric(cols[..|cols| - 1], other[..|other| - 1]);
      }
    }
  }

  /** No other alignment is meant: the description fits exactly one. */
  lemma {:induction false} TheAlignmentIsUnique(cols: seq<Column>, x: Classes, y: Classes)
    ensures IsTheAlignment(cols, x, y) <==> cols == Trace(x, y, |x|, |y|)
  {
    hide Best, Trace, Preferred, IsAlignment;
    var trace := Trace(x, y, |x|, |y|);
    TraceIsTheAlignment(x, y);
    if IsTheAlignment(cols, x, y) {
      assert Preferred(cols, trace) && Preferred(trace, cols);
      PreferredIsAntisymmetric(cols, trace);
    }
  }

  /** A common subsequence of the first i and j classes, as index pairs increasing on both sides. */
  ghost predicate IsCommonSubsequence(ps: seq<(nat, nat)>, x: Classes, y: Classes, i: nat, j: nat)
    requires i <= |x| && j <= |y|
  {
    && (forall k :: 0 <= k < |ps| ==> ps[k].0 < i && ps[k].1 < j && x[ps[k].0] == y[ps[k].1])
    && (forall k, l :: 0 <= k < l < |ps| ==> ps[k].0 < ps[l].0 && ps[k].1 < ps[l].1)
  }

  lemma {:induction false} BestBeatsCommonSubsequence(ps: seq<(nat, nat)>, x: Classes, y: Classes, i: nat, j: nat)
    requires i <= |x| && j <= |y| && IsCommonSubsequence(ps, x, y, i, j)
    ensures Best(x, y, i, j) >= 4 * |ps| - i - j
    decreases i + j
  {
    hide Best;
    BestStep(x, y, i, j);
    if i == 0 && j == 0 {
      assert |ps| > 0 ==> ps[0].0 < 0;
    } else if i > 0 && (ps == [] || ps[|ps| - 1].0 < i - 1) {
      BestBeatsCommonSubsequence(ps, x, y, i - 1, j);
    } else if j > 0 && (ps == [] || ps[|ps| - 1].1 < j - 1) {
      BestBeatsCommonSubsequence(ps, x, y, i, j - 1);
    } else {
      BestBeatsCommonSubsequence(ps[..|ps| - 1], x, y, i - 1, j - 1);
    }
  }

  /** An optimal alignment loses at most n - L in-range labels, for every common subsequence of length L. */
  lemma LossBound(cols: seq<Column>, ps: seq<(nat, nat)>, labelled: set<int>, x: Classes, y: Classes)
    requires IsOptimal(cols, x, y) && IsCommonSubsequence(ps, x, y, |x|, |y|)
    ensures |Below(labelled, |x|)| - |Carried(cols, labelled, x, y)| <= |x| - |ps|
  {
    hide Best, Trace;
    TraceIsAlignment(x, y, |x|, |y|);
    assert Score(Trace(x, y, |x|, |y|), x, y) <= Score(cols, x, y);
    BestBeatsCommonSubsequence(ps, x, y, |x|, |y|);
    ScoreCountsMatches(cols, x, y, |x|, |y|);
    LostLabels(cols, labelled, x, y, |x|, |y|);
  }

  lemma {:induction false} CarriedAtMostLabelled(cols: seq<Column>, labelled: set<int>, x: Classes, y: Classes,
      i: nat, j: nat)
    requires i <= |x| && j <= |y| && IsAlignment(cols, i, j)
    ensures |Carried(cols, labelled, x, y)| <= |Below(labelled, i)|
    decreases |cols|
  {
    if cols == [] {
    } else {
      PrefixIsAlignment(cols, i, j);
      var last, init := cols[|cols| - 1], cols[..|cols| - 1];
      CarriedAtMostLabelled(init, labelled, x, y, if last.a.Some? then i - 1 else i, if last.b.Some? then j - 1 else j);
      if last.a.Some? { BelowStep(labelled, i); }
    }
  }

  /** Drift that only inserts tokens keeps every in-range label, so all labels exactly when all are in range. */
  lemma InsertionOnlyKeepsAllLabels(cols: seq<Column>, ps: seq<(nat, nat)>, labelled: set<int>, x: Classes, y: Classes)
    requires IsOptimal(cols, x, y) && IsCommonSubsequence(ps, x, y, |x|, |y|) && |ps| == |x|
    ensures |Carried(cols, labelled, x, y)| == |Below(labelled, |x|)|
    ensures |Carried(cols, labelled, x, y)| == |labelled| <==> forall k :: k in labelled ==> 0 <= k < |x|
  {
    LossBound(cols, ps, labelled, x, y);
    CarriedAtMostLabelled(cols, labelled, x, y, |x|, |y|);
    if |Below(labelled, |x|)| == |labelled| {
      assert Below(labelled, |x|) + (labelled - Below(labelled, |x|)) == labelled;
      assert labelled - Below(labelled, |x|) == {};
    }
    if forall k :: k in labelled ==> 0 <= k < |x| {
      assert Below(labelled, |x|) == labelled;
    }
  }

  /** The transfer score is then 1, unless there is no label at all or one beyond the old template's end. */
  lemma {:induction false} InsertionOnlyScoresOne(cols: seq<Column>, ps: seq<(nat, nat)>, labelled: set<int>,
      x: Classes, y: Classes)
    requires IsOptimal(cols, x, y) && IsCommonSubsequence(ps, x, y, |x|, |y|) && |ps| == |x|
    ensures |Carried(cols, labelled, x, y)| as real / Max(|labelled|, 1) as real == 1.0
            <==> labelled != {} && forall k :: k in labelled ==> 0 <= k < |x|
  {
    hide IsOptimal, IsCommonSubsequence;
    InsertionOnlyKeepsAllLabels(cols, ps, labelled, x, y);
    if labelled == {} {
      assert Below(labelled, |x|) == {};
    } else {
      RatioIsOne(|Carried(cols, labelled, x, y)|, |labelled|);
    }
  }

  lemma RatioIsOne(part: nat, whole: nat)
    requires whole > 0
    ensures part as real / whole as real == 1.0 <==> part == whole
  {
  }

  lemma {:induction false} SelfBest(x: Classes, i: nat, j: nat)
    requires i <= |x| && j <= |x|
    ensures Best(x, x, i, j) <= i + j
    ensures i == j ==> Best(x, x, i, i) == 2 * i
    decreases i + j
  {
    hide Best;
    BestStep(x, x, i, j);
    if i == 0 && j == 0 {
    } else {
      if i > 0 { SelfBest(x, i - 1, j); }
      if j > 0 { SelfBest(x, i, j - 1); }
      if i > 0 && j > 0 { SelfBest(x, i - 1, j - 1); }
    }
  }

  lemma CarriedSnoc(cols: seq<Column>, c: Column, labelled: set<int>, x: Classes, y: Classes)
    ensures var rest := Carried(cols, labelled, x, y);
            Carried(cols + [c], labelled, x, y)
            == if Carries(c, labelled, x, y) then rest[c.b.value := c.a.value] else rest
  {
    Snoc(cols, c);
  }

  function Diagonal(n: nat): seq<Column> { seq(n, (k: nat) => Column(Some(k), Some(k))) }

  lemma {:induction false} SelfTrace(x: Classes, i: nat)
    requires i <= |x|
    ensures Trace(x, x, i, i) == Diagonal(i)
  {
    hide Best, Trace;
    TraceStep(x, x, i, i);
    if i > 0 {
      SelfTrace(x, i - 1);
      SelfBest(x, i, i);
      SelfBest(x, i - 1, i - 1);
      assert Diagonal(i) == Diagonal(i - 1) + [Column(Some(i - 1), Some(i - 1))];
    }
  }

  ghost function Identity(labelled: set<int>, n: nat): map<nat, nat> {
    map k: nat | k < n && k in labelled :: k
  }

  lemma {:induction false} DiagonalCarries(labelled: set<int>, x: Classes, i: nat)
    requires i <= |x|
    ensures Carried(Diagonal(i), labelled, x, x) == Identity(labelled, i)
  {
    if i > 0 {
      DiagonalCarries(labelled, x, i - 1);
      var c := Column(Some(i - 1), Some(i - 1));
      assert Diagonal(i) == Diagonal(i - 1) + [c];
      CarriedSnoc(Diagonal(i - 1), c, labelled, x, x);
      if i - 1 in labelled {
        assert Identity(labelled, i) == Identity(labelled, i - 1)[i - 1 := i - 1];
      } else {
        assert Identity(labelled, i) == Identity(labelled, i - 1);
      }
    }
  }

  /** Transferring a template's labels to itself is the identity on the labels in range. */
  lemma SelfTransferIsIdentity(labelled: set<int>, x: Classes)
    ensures Carried(Trace(x, x, |x|, |x|), labelled, x, x) == Identity(labelled, |x|)
  {
    SelfTrace(x, |x|);
    DiagonalCarries(labelled, x, |x|);
  }

  lemma Ratio(part: nat, whole: nat)
    requires part <= whole
    ensures 0.0 <= part as real / Max(whole, 1) as real <= 1.0
  {
  }

  method TransferLabels(classify: string -> TokenType, oldTokens: seq<string>, oldPositions: map<int, string>,
      newTokens: seq<string>)
    returns (newPositions: map<nat, string>, score: real)
    ensures var x, y := ClassesOf(classify, oldTokens), ClassesOf(classify, newTokens);
            var f := Carried(Trace(x, y, |x|, |y|), oldPositions.Keys, x, y);
            && StrictlyIncreasing(f)
            && (forall b :: b in f ==> f[b] < |x| && b < |y| && f[b] in oldPositions && Transferable(x[f[b]], y[b]))
            && newPositions.Keys == f.Keys
            && (forall b :: b in f ==> f[b] in oldPositions && newPositions[b] == oldPositions[f[b]])
            && score == |f| as real / Max(|oldPositions|, 1) as real
    ensures 0.0 <= score <= 1.0
  {
    var x := Classify(classify, oldTokens);
    var y := Classify(classify, newTokens);
    assert x == ClassesOf(classify, oldTokens) && y == ClassesOf(classify, newTokens);
    var alignment := Align(classify, oldTokens, newTokens);
    var carried;
    newPositions, carried := CarryOver(x, y, alignment, oldPositions);
    var total := if |oldPositions| == 0 then 1 else |oldPositions|;
    score := carried as real / total as real;
    ghost var labelled := oldPositions.Keys;
    CarriedIsMonotone(alignment, labelled, x, y, |x|, |y|);
    CarriedAtMostLabelled(alignment, labelled, x, y, |x|, |y|);
    SubsetSize(Below(labelled, |x|), labelled);
    assert |oldPositions| == |labelled|;
    Ratio(carried, |oldPositions|);
  }

  method CarryOver(x: Classes, y: Classes, alignment: seq<Column>, oldPositions: map<int, string>)
    returns (newPositions: map<nat, string>, carried: nat)
    requires IsAlignment(alignment, |x|, |y|)
    ensures var f := Carried(alignment, oldPositions.Keys, x, y);
            && carried == |f|
            && newPositions.Keys == f.Keys
            && forall b :: b in f ==> f[b] in oldPositions && newPositions[b] == oldPositions[f[b]]
  {
    ghost var labelled := oldPositions.Keys;
    newPositions := map[];
    carried := 0;
    for k := 0 to |alignment|
      invariant var f := Carried(alignment[..k], labelled, x, y);
        && carried == |f|
        && newPositions.Keys == f.Keys
        && forall b :: b in f ==> f[b] in oldPositions && newPositions[b] == oldPositions[f[b]]
    {
      var ap := alignment[k];
      assert alignment[..k + 1] == alignment[..k] + [ap];
      CarriedSnoc(alignment[..k], ap, labelled, x, y);
      NextColumn(alignment, labelled, x, y, k);
      if ap.a.None? || ap.b.None? {
        continue;
      }
      if ap.a.value !in oldPositions {
        continue;
      }
      if x[ap.a.value] == y[ap.b.value] || Compatible(x[ap.a.value], y[ap.b.value]) {
        newPositions := newPositions[ap.b.value := oldPositions[ap.a.value]];
        carried := carried + 1;
      }
    }
    assert alignment[..|alignment|] == alignment;
  }

  /** A column's indices are in range, and its new index has not been used by an earlier column. */
  lemma NextColumn(cols: seq<Column>, labelled: set<int>, x: Classes, y: Classes, k: nat)
    requires IsAlignment(cols, |x|, |y|) && k < |cols|
    ensures cols[k].a.Some? ==> cols[k].a.value < |x|
    ensures cols[k].b.Some? ==> cols[k].b.value < |y| && cols[k].b.value !in Carried(cols[..k], labelled, x, y)
  {
    var i, j := PrefixesAreAlignments(cols, |x|, |y|, k + 1);
    var upTo := cols[..k + 1];
    PrefixIsAlignment(upTo, i, j);
    assert upTo[..|upTo| - 1] == cols[..k];
    CarriedIsMonotone(cols[..k], labelled, x, y, if cols[k].a.Some? then i - 1 else i, if cols[k].b.Some? then j - 1
        else j);
  }

  lemma {:induction false} PrefixesAreAlignments(cols: seq<Column>, n: nat, m: nat, k: nat)
    returns (i: nat, j: nat)
    requires IsAlignment(cols, n, m) && k <= |cols|
    ensures IsAlignment(cols[..k], i, j) && i <= n && j <= m
    decreases |cols|
  {
    if k == |cols| {
      assert cols[..k] == cols;
      i, j := n, m;
    } else {
      PrefixIsAlignment(cols, n, m);
      var last, init := cols[|cols| - 1], cols[..|cols| - 1];
      i, j := PrefixesAreAlignments(init, if last.a.Some? then n - 1 else n, if last.b.Some? then m - 1 else m, k);
      assert init[..k] == cols[..k];
    }
  }
}
