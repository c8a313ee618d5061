/**
 Dotted paths and nested objects: `_flatten` (uli/parsers/structural.py) turns an object into a flat
 dictionary, `_set_path` and `_ocsf_field` (uli/normalization/ocsf.py) build an object from such paths.
 */
module Paths {
  import opened Basics

  /** What a flat field holds: a scalar or a list of scalars, never a dictionary. */
  datatype Value = Text(text: string) | Texts(texts: seq<string>)

  type Path = seq<string>

  datatype Tree = Leaf(value: Value) | Node(kids: map<string, Tree>)
  type Object = map<string, Tree>

  // ------------------------------------------------------------ dotted strings

  function Split(s: string): (parts: Path)
    ensures parts != []
  {
    if s == "" then [""]
    else
      var rest := Split(s[1..]);
      if s[0] == '.' then [""] + rest else [[s[0]] + rest[0]] + rest[1..]
  }

  function Join(parts: Path): string
    requires parts != []
  {
    if |parts| == 1 then parts[0] else parts[0] + "." + Join(parts[1..])
  }

  predicate DotFree(parts: Path) { forall i :: 0 <= i < |parts| ==> '.' !in parts[i] }

  lemma {:induction false} JoinOfSplit(s: string)
    ensures Join(Split(s)) == s
  {
    if s != "" {
      JoinOfSplit(s[1..]);
      var rest := Split(s[1..]);
      if s[0] == '.' {
        assert ([""] + rest)[1..] == rest;
        assert Join([""] + rest) == "" + "." + Join(rest);
      } else {
        var parts := [[s[0]] + rest[0]] + rest[1..];
        assert parts[1..] == rest[1..];
      }
    }
  }

  lemma {:induction false} SplitOfPart(part: string)
    requires '.' !in part
    ensures Split(part) == [part]
  {
    if part != "" {
      SplitOfPart(part[1..]);
      assert [part[0]] + part[1..] == part;
    }
  }

  lemma {:induction false} SplitAtDot(part: string, rest: string)
    requires '.' !in part
    ensures Split(part + "." + rest) == [part] + Split(rest)
  {
    var s := part + "." + rest;
    if part == "" {
      assert s[1..] == rest;
    } else {
      SplitAtDot(part[1..], rest);
      assert s[1..] == part[1..] + "." + rest;
      assert [part[0]] + part[1..] == part;
    }
  }

  lemma {:induction false} SplitOfJoin(parts: Path)
    requires parts != [] && DotFree(parts)
    ensures Split(Join(parts)) == parts
  {
    if |parts| == 1 {
      SplitOfPart(parts[0]);
    } else {
      SplitOfJoin(parts[1..]);
      SplitAtDot(parts[0], Join(parts[1..]));
    }
  }

  // ------------------------------------------------------------ setting one path

  /** A scalar on the way stops the walk, a missing object is created, and the last part is overwritten. */
  function SetPath(kids: Object, parts: Path, value: Value): Object
    requires parts != []
    decreases |parts|
  {
    if |parts| == 1 then kids[parts[0] := Leaf(value)]
    else
      var child := if parts[0] in kids then kids[parts[0]] else Node(map[]);
      if child.Leaf? then kids else kids[parts[0] := Node(SetPath(child.kids, parts[1..], value))]
  }

  /** The scalar a path leads to. */
  function Get(tree: Tree, path: Path): Option<Value>
    decreases |path|
  {
    match tree
    case Leaf(v) => if path == [] then Some(v) else None
    case Node(kids) => if path != [] && path[0] in kids then Get(kids[path[0]], path[1..]) else None
  }

  predicate Incomparable(p: Path, q: Path) { !(p <= q) && !(q <= p) }

  lemma PrefixUnderHead(head: string, p: Path, q: Path)
    ensures [head] + p <= [head] + q <==> p <= q
  {
    assert ([head] + p)[1..] == p && ([head] + q)[1..] == q;
    assert p <= q ==> q == p + q[|p|..];
  }

  /** Setting a path that neither extends nor is extended by a scalar's path adds exactly its value. */
  lemma {:induction false} SetPathAddsOne(kids: Object, parts: Path, value: Value, q: Path)
    requires parts != []
    requires forall r :: Get(Node(kids), r).Some? ==> Incomparable(parts, r)
    ensures Get(Node(SetPath(kids, parts, value)), q) == if q == parts then Some(value) else Get(Node(kids), q)
    decreases |parts|
  {
    var p := parts[0];
    if |parts| == 1 {
      if q != [] && q[0] == p && q != parts {
        assert parts <= q;
        assert Get(Node(kids), q).None?;
      }
    } else {
      var child := if p in kids then kids[p] else Node(map[]);
      assert Get(Node(kids), [p]) == if p in kids then Get(kids[p], []) else None by { assert [p][1..] == []; }
      assert [p] <= parts;
      assert child.Node?;
      forall r | Get(child, r).Some?
        ensures Incomparable(parts[1..], r)
      {
        assert ([p] + r)[1..] == r;
        assert Get(Node(kids), [p] + r) == Get(child, r);
        assert parts == [p] + parts[1..];
        PrefixUnderHead(p, parts[1..], r);
        PrefixUnderHead(p, r, parts[1..]);
      }
      if q != [] && q[0] == p {
        SetPathAddsOne(child.kids, parts[1..], value, q[1..]);
        assert q == [p] + q[1..] && parts == [p] + parts[1..];
        assert p !in kids ==> Get(Node(map[]), q[1..]).None?;
      }
    }
  }

  // ------------------------------------------------------------ setting many paths

  type Items = seq<(Path, Value)>

  predicate ProperItems(items: Items) { forall i :: 0 <= i < |items| ==> items[i].0 != [] }

  function Build(items: Items): Object
    requires ProperItems(items)
  {
    if items == [] then map[] else SetPath(Build(items[..|items| - 1]), items[|items| - 1].0, items[|items| - 1].1)
  }

  predicate PrefixFree(items: Items) {
    forall i, j :: 0 <= i < j < |items| ==> Incomparable(items[i].0, items[j].0)
  }

  lemma LastIsNew(items: Items)
    requires items != [] && PrefixFree(items)
    ensures var q, init := items[|items| - 1].0, items[..|items| - 1];
            forall v: Value :: (q, v) !in init
  {
    var n := |items| - 1;
    forall i | 0 <= i < n
      ensures items[..n][i].0 != items[n].0
    {
      assert Incomparable(items[i].0, items[n].0);
    }
  }

  /** Prefix-free paths, in whatever order, build an object with exactly their values. */
  lemma {:induction false} BuildHoldsItems(items: Items, q: Path)
    requires ProperItems(items) && PrefixFree(items)
    ensures forall v :: Get(Node(Build(items)), q) == Some(v) <==> (q, v) in items
  {
    if items == [] {
    } else {
      var init, last := items[..|items| - 1], items[|items| - 1];
      forall r | Get(Node(Build(init)), r).Some?
        ensures Incomparable(last.0, r)
      {
        BuildHoldsItems(init, r);
        var v := Get(Node(Build(init)), r).value;
        assert (r, v) in init;
        var i :| 0 <= i < |init| && init[i] == (r, v);
        assert items[i].0 == r;
      }
      SetPathAddsOne(Build(init), last.0, last.1, q);
      BuildHoldsItems(init, q);
      LastIsNew(items);
      assert forall v :: (q, v) in items <==> (q, v) in init || (q, v) == last;
    }
  }

  predicate DistinctPaths(items: Items) { forall i, j :: 0 <= i < j < |items| ==> items[i].0 != items[j].0 }

  lemma {:induction false} NoScalarBelowScalar(tree: Tree, p: Path, q: Path)
    requires Get(tree, p).Some? && Get(tree, q).Some? && p <= q
    ensures p == q
    decreases |p|
  {
    if p != [] { NoScalarBelowScalar(tree.kids[p[0]], p[1..], q[1..]); }
  }

  /** Every value set can be read back exactly if no path is a prefix of another: otherwise some value is
      silently lost, whatever the order. */
  lemma {:induction false} AllKeptIffPrefixFree(items: Items)
    requires ProperItems(items) && DistinctPaths(items)
    ensures (forall i :: 0 <= i < |items| ==> Get(Node(Build(items)), items[i].0) == Some(items[i].1))
            <==> PrefixFree(items)
  {
    if PrefixFree(items) {
      forall i | 0 <= i < |items|
        ensures Get(Node(Build(items)), items[i].0) == Some(items[i].1)
      {
        BuildHoldsItems(items, items[i].0);
        assert items[i] in items;
      }
    }
    if forall i :: 0 <= i < |items| ==> Get(Node(Build(items)), items[i].0) == Some(items[i].1) {
      forall i, j | 0 <= i < j < |items|
        ensures Incomparable(items[i].0, items[j].0)
      {
        var t, p, q := Node(Build(items)), items[i].0, items[j].0;
        if p <= q { NoScalarBelowScalar(t, p, q); }
        if q <= p { NoScalarBelowScalar(t, q, p); }
      }
    }
  }

  // ------------------------------------------------------------ objects are determined by their scalars

  /** No empty object anywhere below. */
  predicate Full(tree: Tree) {
    match tree
    case Leaf(_) => true
    case Node(kids) => kids != map[] && forall k :: k in kids ==> Full(kids[k])
  }

  predicate FullObject(kids: Object) { forall k :: k in kids ==> Full(kids[k]) }

  lemma {:induction false} HasScalar(tree: Tree) returns (p: Path)
    requires Full(tree)
    ensures Get(tree, p).Some?
  {
    match tree
    case Leaf(_) => p := [];
    case Node(kids) =>
      var k :| k in kids;
      var q := HasScalar(kids[k]);
      p := [k] + q;
      assert p[1..] == q;
  }

  /** Two full objects with the same scalars at the same paths are equal. */
  lemma {:induction false} SameScalarsSameObject(a: Object, b: Object)
    requires FullObject(a) && FullObject(b)
    requires forall q :: Get(Node(a), q) == Get(Node(b), q)
    ensures a == b
    decreases Node(a)
  {
    SameKeys(a, b);
    SameKeys(b, a);
    forall k | k in a
      ensures a[k] == b[k]
    {
      forall q
        ensures Get(a[k], q) == Get(b[k], q)
      {
        assert ([k] + q)[1..] == q;
        assert Get(Node(a), [k] + q) == Get(Node(b), [k] + q);
      }
      if a[k].Node? && b[k].Node? {
        SameScalarsSameObject(a[k].kids, b[k].kids);
      } else {
        assert Get(a[k], []) == Get(b[k], []);
      }
    }
  }

  lemma SameKeys(a: Object, b: Object)
    requires FullObject(a) && forall q :: Get(Node(a), q) == Get(Node(b), q)
    ensures a.Keys <= b.Keys
  {
    forall k | k in a
      ensures k in b
    {
      var q := HasScalar(a[k]);
      assert ([k] + q)[1..] == q;
      assert Get(Node(a), [k] + q) == Get(Node(b), [k] + q);
    }
  }

  lemma {:induction false} SetPathIsFull(kids: Object, parts: Path, value: Value)
    requires parts != [] && FullObject(kids)
    ensures FullObject(SetPath(kids, parts, value)) && SetPath(kids, parts, value) != map[]
    decreases |parts|
  {
    var p := parts[0];
    if |parts| > 1 {
      var child := if p in kids then kids[p] else Node(map[]);
      if child.Node? { SetPathIsFull(child.kids, parts[1..], value); }
    }
    if p in kids { assert kids != map[]; }
    assert p in SetPath(kids, parts, value);
  }

  lemma {:induction false} BuildIsFull(items: Items)
    requires ProperItems(items)
    ensures FullObject(Build(items))
  {
    if items != [] {
      BuildIsFull(items[..|items| - 1]);
      SetPathIsFull(Build(items[..|items| - 1]), items[|items| - 1].0, items[|items| - 1].1);
    }
  }

  /** `items` lists the scalars of an object, each once, in any order. */
  ghost predicate Lists(items: Items, kids: Object) {
    && ProperItems(items) && DistinctPaths(items)
    && forall q, v :: Get(Node(kids), q) == Some(v) <==> (q, v) in items
  }

  lemma ListedIsPrefixFree(items: Items, kids: Object)
    requires Lists(items, kids)
    ensures PrefixFree(items)
  {
    forall i, j | 0 <= i < j < |items|
      ensures Incomparable(items[i].0, items[j].0)
    {
      var p, q := items[i].0, items[j].0;
      assert items[i] in items && items[j] in items;
      assert Get(Node(kids), p) == Some(items[i].1) && Get(Node(kids), q) == Some(items[j].1);
      if p <= q { NoScalarBelowScalar(Node(kids), p, q); }
      if q <= p { NoScalarBelowScalar(Node(kids), q, p); }
    }
  }

  /** Setting an object's own scalars, in any order, rebuilds it. */
  lemma ScalarsRebuildObject(items: Items, kids: Object)
    requires FullObject(kids) && Lists(items, kids)
    ensures Build(items) == kids
  {
    ListedIsPrefixFree(items, kids);
    BuildIsFull(items);
    forall q
      ensures Get(Node(Build(items)), q) == Get(Node(kids), q)
    {
      BuildHoldsItems(items, q);
      var a, b := Get(Node(Build(items)), q), Get(Node(kids), q);
      if a.Some? { assert (q, a.value) in items; }
      if b.Some? { assert (q, b.value) in items; }
    }
    SameScalarsSameObject(Build(items), kids);
  }

  // ------------------------------------------------------------ the fields of an event

  const OCSF := "ocsf."

  /** `_ocsf_field`: the fields with the prefix, in dictionary order, set below an empty object. */
  function Selected(fields: seq<(string, Value)>): (items: Items)
    ensures ProperItems(items)
  {
    if fields == [] then []
    else
      var (k, v) := fields[|fields| - 1];
      Selected(fields[..|fields| - 1]) + if OCSF <= k then [(Split(k[|OCSF|..]), v)] else []
  }

  lemma SelectedNext(fields: seq<(string, Value)>, n: nat)
    requires n < |fields|
    ensures var (k, v) := fields[n];
            Build(Selected(fields[..n + 1]))
            == if OCSF <= k then SetPath(Build(Selected(fields[..n])), Split(k[|OCSF|..]), v)
                else Build(Selected(fields[..n]))
  {
    var (k, v) := fields[n];
    var before := Selected(fields[..n]);
    assert fields[..n + 1][..n] == fields[..n];
    assert before + [] == before;
    if OCSF <= k {
      var item := (Split(k[|OCSF|..]), v);
      assert Selected(fields[..n + 1]) == before + [item];
      assert (before + [item])[..|before|] == before;
    }
  }

  // ------------------------------------------------------------ flattening

  /** A parsed object, its members in order. */
  datatype Json = Scalar(text: string) | Elements(elems: seq<Json>) | Members(items: seq<(string, Json)>)

  type Flat = map<string, Value>

  const MAX_DEPTH := 8
  const MAX_KEYS := 500
  const MAX_ELEMENTS := 50
  const MAX_DUMP := 2000

  function StripDots(s: string): string {
    if s != "" && s[|s| - 1] == '.' then StripDots(s[..|s| - 1]) else s
  }

  /** All dots at the end are cut off, and nothing else. */
  lemma {:induction false} StripDotsStrips(s: string)
    ensures var t := StripDots(s);
            && |t| <= |s| && t == s[..|t|] && (t != "" ==> t[|t| - 1] != '.')
            && forall i :: |t| <= i < |s| ==> s[i] == '.'
  {
    if s != "" && s[|s| - 1] == '.' { StripDotsStrips(s[..|s| - 1]); }
  }

  predicate AllScalars(elems: seq<Json>) { forall i :: 0 <= i < |elems| ==> elems[i].Scalar? }

  function TextOf(v: Json): string { if v.Scalar? then v.text else "" }

  /** The field a scalar, or a list of scalars, becomes. */
  function FieldOf(v: Json): Value
    requires !v.Members?
  {
    match v
    case Scalar(text) => Text(text)
    case Elements(elems) => Texts(seq(|elems|, i requires 0 <= i < |elems| => TextOf(elems[i])))
  }

  function Decimal(n: nat): string {
    (if n < 10 then "" else Decimal(n / 10)) + ["0123456789"[n % 10]]
  }

  /** What lies too deep is serialized and cut. */
  function Dumped(dumps: Json -> string, obj: Json): Value {
    var text := dumps(obj);
    Text(if |text| > MAX_DUMP then text[..MAX_DUMP] else text)
  }

  /** `_flatten`, with the serialization of what lies too deep as a parameter. */
  function Flatten(dumps: Json -> string, obj: Json, prefix: string, out: Flat, depth: nat): Flat
    decreases obj, 1, 0
  {
    if |out| >= MAX_KEYS then out
    else
      match obj
      case Scalar(text) => out[StripDots(prefix) := Text(text)]
      case Members(items) =>
        if depth < MAX_DEPTH then FlattenMembers(dumps, obj, prefix, out, depth, |items|)
        else out[StripDots(prefix) := Dumped(dumps, obj)]
      case Elements(elems) =>
        if depth >= MAX_DEPTH then out[StripDots(prefix) := Dumped(dumps, obj)]
        else if AllScalars(elems) then out[StripDots(prefix) := FieldOf(obj)]
        else FlattenElements(dumps, obj, prefix, out, depth, if |elems| > MAX_ELEMENTS then MAX_ELEMENTS else |elems|)
  }

  /** The loop over the first n members. */
  function FlattenMembers(dumps: Json -> string, obj: Json, prefix: string, out: Flat, depth: nat, n: nat): Flat
    requires obj.Members? && n <= |obj.items|
    decreases obj, 0, n
  {
    if n == 0 then out
    else
      var before := FlattenMembers(dumps, obj, prefix, out, depth, n - 1);
      var (k, v) := obj.items[n - 1];
      if v.Scalar? then before[prefix + k := Text(v.text)] else Flatten(dumps, v, prefix + k + ".", before, depth + 1)
  }

  /** The loop over the first n elements of a list that holds objects or lists. */
  function FlattenElements(dumps: Json -> string, obj: Json, prefix: string, out: Flat, depth: nat, n: nat): Flat
    requires obj.Elements? && n <= |obj.elems|
    decreases obj, 0, n
  {
    if n == 0 then out
    else
      var before := FlattenElements(dumps, obj, prefix, out, depth, n - 1);
      Flatten(dumps, obj.elems[n - 1], prefix + Decimal(n - 1) + ".", before, depth + 1)
  }

  /** The scalars below the first n members, by path, in order. */
  function ScalarsOf(obj: Json, n: nat): (items: Items)
    requires obj.Members? && n <= |obj.items|
    ensures ProperItems(items)
    decreases obj, n
  {
    if n == 0 then []
    else
      var (k, v) := obj.items[n - 1];
      ScalarsOf(obj, n - 1) +
      if v.Members? then Under(k, ScalarsOf(v, |v.items|)) else [([k], FieldOf(v))]
  }

  function Under(k: string, items: Items): (r: Items)
    ensures |r| == |items| && forall i :: 0 <= i < |items| ==> r[i] == ([k] + items[i].0, items[i].1)
  {
    seq(|items|, i requires 0 <= i < |items| => ([k] + items[i].0, items[i].1))
  }

  function PutAll(out: Flat, prefix: string, items: Items): Flat
    requires ProperItems(items)
  {
    if items == [] then out
    else
      var last := items[|items| - 1];
      PutAll(out, prefix, items[..|items| - 1])[prefix + Join(last.0) := last.1]
  }

  /** Within the limits: at most `levels` levels of objects and lists, every object below holds something, lists hold
      scalars only, and the keys of lists do not end in a dot or nothing. */
  predicate Shallow(obj: Json, levels: nat) {
    match obj
    case Scalar(_) => true
    case Elements(elems) => levels > 0 && AllScalars(elems)
    case Members(items) =>
      levels > 0 && forall i :: 0 <= i < |items| ==>
        && Shallow(items[i].1, levels - 1)
        && (items[i].1.Members? ==> items[i].1.items != [])
        && (items[i].1.Elements? ==> items[i].0 != "" && items[i].0[|items[i].0| - 1] != '.')
  }

  lemma {:induction false} PutAllConcat(out: Flat, prefix: string, a: Items, b: Items)
    requires ProperItems(a) && ProperItems(b)
    ensures PutAll(out, prefix, a + b) == PutAll(PutAll(out, prefix, a), prefix, b)
    decreases |b|
  {
    if b == [] {
      assert a + b == a;
    } else {
      PutAllConcat(out, prefix, a, b[..|b| - 1]);
      assert (a + b)[..|a + b| - 1] == a + b[..|b| - 1];
    }
  }

  lemma {:induction false} PutAllUnder(out: Flat, prefix: string, k: string, items: Items)
    requires ProperItems(items)
    ensures PutAll(out, prefix, Under(k, items)) == PutAll(out, prefix + k + ".", items)
  {
    if items != [] {
      var n := |items| - 1;
      PutAllUnder(out, prefix, k, items[..n]);
      assert Under(k, items)[..n] == Under(k, items[..n]);
      var p := items[n].0;
      assert ([k] + p)[1..] == p;
      assert prefix + (k + "." + Join(p)) == (prefix + k + ".") + Join(p);
    }
  }

  lemma {:induction false} PutAllSize(out: Flat, prefix: string, items: Items)
    requires ProperItems(items)
    ensures |PutAll(out, prefix, items)| <= |out| + |items|
  {
    if items != [] {
      PutAllSize(out, prefix, items[..|items| - 1]);
      var m, k := PutAll(out, prefix, items[..|items| - 1]), prefix + Join(items[|items| - 1].0);
      assert m[k := items[|items| - 1].1].Keys == m.Keys + {k};
      assert |m[k := items[|items| - 1].1]| == |m.Keys + {k}|;
    }
  }

  lemma {:induction false} HoldsAScalar(obj: Json, levels: nat, n: nat)
    requires obj.Members? && Shallow(obj, levels) && 0 < n <= |obj.items|
    ensures |ScalarsOf(obj, n)| > 0
    decreases obj, n
  {
    var v := obj.items[n - 1].1;
    if v.Members? { HoldsAScalar(v, levels - 1, |v.items|); }
  }

  lemma {:induction false} FewerScalars(obj: Json, m: nat, n: nat)
    requires obj.Members? && m <= n <= |obj.items|
    ensures |ScalarsOf(obj, m)| <= |ScalarsOf(obj, n)|
    decreases n
  {
    hide ScalarsOf, Under;
    if m < n {
      NextScalars(obj, n - 1);
      FewerScalars(obj, m, n - 1);
    }
  }

  lemma NextMember(dumps: Json -> string, obj: Json, prefix: string, out: Flat, depth: nat, n: nat)
    requires obj.Members? && n < |obj.items|
    ensures var before, (k, v) := FlattenMembers(dumps, obj, prefix, out, depth, n), obj.items[n];
            FlattenMembers(dumps, obj, prefix, out, depth, n + 1)
            == if v.Scalar? then before[prefix + k := Text(v.text)]
                else Flatten(dumps, v, prefix + k + ".", before, depth + 1)
  {
  }

  lemma NextElement(dumps: Json -> string, obj: Json, prefix: string, out: Flat, depth: nat, n: nat)
    requires obj.Elements? && n < |obj.elems|
    ensures FlattenElements(dumps, obj, prefix, out, depth, n + 1)
            == Flatten(dumps, obj.elems[n], prefix + Decimal(n)
                + ".", FlattenElements(dumps, obj, prefix, out, depth, n), depth + 1)
  {
  }

  lemma NoElements(dumps: Json -> string, obj: Json, prefix: string, out: Flat, depth: nat)
    requires obj.Elements?
    ensures FlattenElements(dumps, obj, prefix, out, depth, 0) == out
  {
  }

  /** A list of scalars becomes one field. */
  lemma ListBecomesField(dumps: Json -> string, v: Json, prefix: string, k: string, out: Flat, depth: nat)
    requires v.Elements? && AllScalars(v.elems) && depth < MAX_DEPTH && |out| < MAX_KEYS
    requires k != "" && k[|k| - 1] != '.'
    ensures Flatten(dumps, v, prefix + k + ".", out, depth) == out[prefix + k := FieldOf(v)]
  {
    var s := prefix + k + ".";
    assert s[..|s| - 1] == prefix + k && (prefix + k)[|prefix + k| - 1] == k[|k| - 1];
    assert StripDots(prefix + k) == prefix + k;
    assert StripDots(s) == prefix + k;
  }

  lemma NextScalars(obj: Json, n: nat)
    requires obj.Members? && n < |obj.items|
    ensures var (k, v) := obj.items[n];
            ScalarsOf(obj, n + 1)
            == ScalarsOf(obj, n) + if v.Members? then Under(k, ScalarsOf(v, |v.items|)) else [([k], FieldOf(v))]
  {
  }

  lemma NestedFlatten(dumps: Json -> string, obj: Json, prefix: string, out: Flat, depth: nat)
    requires obj.Members? && depth < MAX_DEPTH && |out| < MAX_KEYS
    ensures Flatten(dumps, obj, prefix, out, depth) == FlattenMembers(dumps, obj, prefix, out, depth, |obj.items|)
  {
  }

  lemma PutOne(out: Flat, prefix: string, items: Items, k: string, v: Value)
    requires ProperItems(items)
    ensures PutAll(out, prefix, items + [([k], v)]) == PutAll(out, prefix, items)[prefix + k := v]
  {
    assert (items + [([k], v)])[..|items|] == items;
  }

  lemma NoMembers(dumps: Json -> string, obj: Json, prefix: string, out: Flat, depth: nat)
    requires obj.Members?
    ensures ScalarsOf(obj, 0) == [] && PutAll(out, prefix, []) == out
    ensures FlattenMembers(dumps, obj, prefix, out, depth, 0) == out
  {
  }

  lemma ShallowBelow(obj: Json, levels: nat, i: nat)
    requires obj.Members? && Shallow(obj, levels) && i < |obj.items|
    ensures var (k, v) := obj.items[i];
            && (v.Members? ==> levels > 1 && Shallow(v, levels - 1) && v.items != [])
            && (v.Elements? ==> levels > 1 && AllScalars(v.elems) && k != "" && k[|k| - 1] != '.')
  {
  }

  /** Within the limits of depth and number of keys, flattening sets every scalar under its dotted path. */
  lemma {:induction false} FlattenMembersSetsScalars(dumps: Json -> string, obj: Json, prefix: string, out: Flat,
      depth: nat, n: nat)
    requires obj.Members? && n <= |obj.items| && depth < MAX_DEPTH && Shallow(obj, MAX_DEPTH - depth)
    requires |out| + |ScalarsOf(obj, n)| <= MAX_KEYS
    ensures FlattenMembers(dumps, obj, prefix, out, depth, n) == PutAll(out, prefix, ScalarsOf(obj, n))
    decreases obj, n
  {
    hide Flatten, FlattenMembers, ScalarsOf, PutAll, Under, Shallow;
    if n == 0 {
      NoMembers(dumps, obj, prefix, out, depth);
    } else {
      FewerScalars(obj, n - 1, n);
      FlattenMembersSetsScalars(dumps, obj, prefix, out, depth, n - 1);
      NextMember(dumps, obj, prefix, out, depth, n - 1);
      NextScalars(obj, n - 1);
      var (k, v) := obj.items[n - 1];
      var earlier := ScalarsOf(obj, n - 1);
      var before := PutAll(out, prefix, earlier);
      PutAllSize(out, prefix, earlier);
      ShallowBelow(obj, MAX_DEPTH - depth, n - 1);
      if !v.Members? {
        if v.Elements? { ListBecomesField(dumps, v, prefix, k, before, depth + 1); }
        PutOne(out, prefix, earlier, k, FieldOf(v));
      } else {
        var inner := ScalarsOf(v, |v.items|);
        HoldsAScalar(v, MAX_DEPTH - depth - 1, |v.items|);
        NestedFlatten(dumps, v, prefix + k + ".", before, depth + 1);
        FlattenMembersSetsScalars(dumps, v, prefix + k + ".", before, depth + 1, |v.items|);
        PutAllUnder(before, prefix, k, inner);
        PutAllConcat(out, prefix, earlier, Under(k, inner));
      }
    }
  }

  /** The dictionary that the recursive calls share. */
  class FlatDict {
    var entries: Flat

    constructor ()
      ensures entries == map[]
    {
      entries := map[];
    }

    method FlattenInto(dumps: Json -> string, obj: Json, prefix: string, depth: nat)
      modifies this
      ensures entries == Flatten(dumps, obj, prefix, old(entries), depth)
      decreases obj
    {
      hide FlattenMembers, FlattenElements, StripDots, Dumped;
      if |entries| >= MAX_KEYS {
        return;
      }
      match obj {
        case Scalar(text) => entries := entries[StripDots(prefix) := Text(text)];
        case Elements(elems) =>
          if depth >= MAX_DEPTH {
            entries := entries[StripDots(prefix) := Dumped(dumps, obj)];
            return;
          }
          if AllScalars(elems) {
            entries := entries[StripDots(prefix) := FieldOf(obj)];
            return;
          }
          NoElements(dumps, obj, prefix, entries, depth);
          for i := 0 to if |elems| > MAX_ELEMENTS then MAX_ELEMENTS else |elems|
            invariant entries == FlattenElements(dumps, obj, prefix, old(entries), depth, i)
          {
            NextElement(dumps, obj, prefix, old(entries), depth, i);
            FlattenInto(dumps, elems[i], prefix + Decimal(i) + ".", depth + 1);
          }
        case Members(items) =>
          if depth >= MAX_DEPTH {
            entries := entries[StripDots(prefix) := Dumped(dumps, obj)];
            return;
          }
          NoMembers(dumps, obj, prefix, entries, depth);
          for i := 0 to |items|
            invariant entries == FlattenMembers(dumps, obj, prefix, old(entries), depth, i)
          {
            NextMember(dumps, obj, prefix, old(entries), depth, i);
            var (k, v) := items[i];
            if v.Scalar? {
              entries := entries[prefix + k := Text(v.text)];
            } else {
              FlattenInto(dumps, v, prefix + k + ".", depth + 1);
            }
          }
      }
    }
  }

  // ------------------------------------------------------------ the round trip

  /** Distinct keys without dots, at every level. */
  predicate WellKeyed(obj: Json) {
    obj.Members? ==>
      && (forall i, j :: 0 <= i < j < |obj.items| ==> obj.items[i].0 != obj.items[j].0)
      && (forall i :: 0 <= i < |obj.items| ==> '.' !in obj.items[i].0 && WellKeyed(obj.items[i].1))
  }

  /** The object itself, its order forgotten. */
  function TreeOf(obj: Json): Tree
    decreases obj, 1, 0
  {
    match obj
    case Members(items) => Node(KidsOf(obj, |items|))
    case _ => Leaf(FieldOf(obj))
  }

  function KidsOf(obj: Json, n: nat): Object
    requires obj.Members? && n <= |obj.items|
    decreases obj, 0, n
  {
    if n == 0 then map[] else KidsOf(obj, n - 1)[obj.items[n - 1].0 := TreeOf(obj.items[n - 1].1)]
  }

  lemma {:induction false} KidsAreMembers(obj: Json, n: nat)
    requires obj.Members? && WellKeyed(obj) && n <= |obj.items|
    ensures forall k :: k in KidsOf(obj, n) <==> exists i :: 0 <= i < n && obj.items[i].0 == k
    ensures forall i :: 0 <= i < n ==>
              obj.items[i].0 in KidsOf(obj, n) && KidsOf(obj, n)[obj.items[i].0] == TreeOf(obj.items[i].1)
    decreases n
  {
    hide TreeOf;
    if n > 0 { KidsAreMembers(obj, n - 1); }
  }

  lemma GetAfterSet(kids: Object, k: string, t: Tree, q: Path)
    ensures Get(Node(kids[k := t]), q) == if q != [] && q[0] == k then Get(t, q[1..]) else Get(Node(kids), q)
  {
  }

  /** The scalars of one member, found by path or listed. */
  lemma MemberIsListed(obj: Json, n: nat, q: Path, s: Value)
    requires obj.Members? && WellKeyed(obj) && n < |obj.items|
    requires var v := obj.items[n].1;
             v.Members? && q != [] ==>
               (Get(Node(KidsOf(v, |v.items|)), q[1..]) == Some(s) <==> (q[1..], s) in ScalarsOf(v, |v.items|))
    ensures var (k, v) := obj.items[n];
            var added := if v.Members? then Under(k, ScalarsOf(v, |v.items|)) else [([k], FieldOf(v))];
            (q, s) in added <==> q != [] && q[0] == k && Get(TreeOf(v), q[1..]) == Some(s)
  {
    hide Under, ScalarsOf, KidsOf;
    var (k, v) := obj.items[n];
    if v.Members? {
      UnderMembers(k, ScalarsOf(v, |v.items|), q);
    } else {
      assert q != [] && q[0] == k && q[1..] == [] ==> q == [k];
    }
  }

  /** The listed scalars are those of the object. */
  lemma {:induction false} ScalarsAreListed(obj: Json, n: nat, q: Path, s: Value)
    requires obj.Members? && WellKeyed(obj) && n <= |obj.items|
    ensures Get(Node(KidsOf(obj, n)), q) == Some(s) <==> (q, s) in ScalarsOf(obj, n)
    decreases obj, n
  {
    hide Under, TreeOf, Get, ScalarsOf, KidsOf;
    if n == 0 {
      NoScalars(obj, q);
    } else {
      var (k, v) := obj.items[n - 1];
      ScalarsAreListed(obj, n - 1, q, s);
      if v.Members? && q != [] { ScalarsAreListed(v, |v.items|, q[1..], s); }
      MemberIsListed(obj, n - 1, q, s);
      NextScalars(obj, n - 1);
      NextKid(obj, n - 1);
      GetAfterSet(KidsOf(obj, n - 1), k, TreeOf(v), q);
      if q != [] && q[0] == k { OtherKeys(obj, n - 1, q); }
    }
  }

  lemma NoScalars(obj: Json, q: Path)
    requires obj.Members?
    ensures ScalarsOf(obj, 0) == [] && Get(Node(KidsOf(obj, 0)), q).None?
  {
  }

  lemma NextKid(obj: Json, n: nat)
    requires obj.Members? && n < |obj.items|
    ensures KidsOf(obj, n + 1) == KidsOf(obj, n)[obj.items[n].0 := TreeOf(obj.items[n].1)]
  {
  }

  /** The members before one do not have its key. */
  lemma OtherKeys(obj: Json, n: nat, q: Path)
    requires obj.Members? && WellKeyed(obj) && n < |obj.items| && q != [] && q[0] == obj.items[n].0
    ensures Get(Node(KidsOf(obj, n)), q).None?
  {
    hide TreeOf;
    KidsAreMembers(obj, n);
  }

  lemma UnderMembers(k: string, items: Items, q: Path)
    ensures forall v: Value :: (q, v) in Under(k, items) <==> q != [] && q[0] == k && (q[1..], v) in items
  {
    forall v: Value
      ensures (q, v) in Under(k, items) <==> q != [] && q[0] == k && (q[1..], v) in items
    {
      if (q, v) in Under(k, items) {
        var i :| 0 <= i < |items| && Under(k, items)[i] == (q, v);
        assert items[i] in items;
      }
      if q != [] && q[0] == k && (q[1..], v) in items {
        var i :| 0 <= i < |items| && items[i] == (q[1..], v);
        assert q == [k] + q[1..];
        assert Under(k, items)[i] == (q, v);
      }
    }
  }

  lemma WellKeyedBelow(obj: Json, i: nat)
    requires obj.Members? && WellKeyed(obj) && i < |obj.items|
    ensures '.' !in obj.items[i].0 && WellKeyed(obj.items[i].1)
  {
  }

  lemma DotFreeUnder(k: string, p: Path)
    requires '.' !in k && (p == [] || DotFree(p))
    ensures DotFree([k] + p)
  {
  }

  /** No listed path has a key with a dot. */
  lemma {:induction false} ScalarPathsAreDotFree(obj: Json, n: nat, i: nat)
    requires obj.Members? && WellKeyed(obj) && n <= |obj.items|
    ensures i < |ScalarsOf(obj, n)| ==> DotFree(ScalarsOf(obj, n)[i].0)
    decreases obj, n
  {
    hide ScalarsOf, WellKeyed, DotFree, Under;
    if n == 0 {
      NoScalars(obj, []);
    } else {
      NextScalars(obj, n - 1);
      WellKeyedBelow(obj, n - 1);
      ScalarPathsAreDotFree(obj, n - 1, i);
      var (k, v) := obj.items[n - 1];
      var j := i - |ScalarsOf(obj, n - 1)|;
      if v.Members? && 0 <= j < |ScalarsOf(v, |v.items|)| {
        ScalarPathsAreDotFree(v, |v.items|, j);
        DotFreeUnder(k, ScalarsOf(v, |v.items|)[j].0);
      } else {
        DotFreeUnder(k, []);
        assert [k] + [] == [k];
      }
    }
  }

  lemma {:induction false} TreeIsFull(obj: Json, levels: nat, n: nat)
    requires obj.Members? && Shallow(obj, levels) && n <= |obj.items|
    ensures FullObject(KidsOf(obj, n)) && (n > 0 ==> KidsOf(obj, n) != map[])
    decreases obj, n
  {
    if n > 0 {
      TreeIsFull(obj, levels, n - 1);
      NextKid(obj, n - 1);
      var (k, v) := obj.items[n - 1];
      if v.Members? { TreeIsFull(v, levels - 1, |v.items|); }
      assert k in KidsOf(obj, n);
    }
  }

  /** The flat dictionary holds exactly the listed scalars under their dotted paths. */
  lemma {:induction false} PutAllHolds(items: Items, k: string)
    requires ProperItems(items) && forall i :: 0 <= i < |items| ==> DotFree(items[i].0)
    ensures var m := PutAll(map[], "", items);
            && (k in m ==> (Split(k), m[k]) in items)
            && (forall i :: 0 <= i < |items| ==> Join(items[i].0) in m)
  {
    if items != [] {
      var n := |items| - 1;
      PutAllHolds(items[..n], k);
      SplitOfJoin(items[n].0);
      assert "" + Join(items[n].0) == Join(items[n].0);
      assert items[n] in items && forall x :: x in items[..n] ==> x in items;
      forall i | 0 <= i < |items|
        ensures Join(items[i].0) in PutAll(map[], "", items)
      {
        if i < n { assert items[..n][i] == items[i]; }
      }
    }
  }

  /** `fed` goes through a dictionary's entries, each once, in any order. */
  ghost predicate Enumerates(fed: seq<(string, Value)>, m: Flat) {
    && (forall i, j :: 0 <= i < j < |fed| ==> fed[i].0 != fed[j].0)
    && (forall i :: 0 <= i < |fed| ==> fed[i].0 in m && m[fed[i].0] == fed[i].1)
    && (forall k :: k in m ==> exists i :: 0 <= i < |fed| && fed[i].0 == k)
  }

  function SplitAll(fed: seq<(string, Value)>): (items: Items)
    ensures |items| == |fed| && forall i :: 0 <= i < |fed| ==> items[i] == (Split(fed[i].0), fed[i].1)
  {
    seq(|fed|, i requires 0 <= i < |fed| => (Split(fed[i].0), fed[i].1))
  }

  /** A path found among the entries is a scalar of the object, and the other way round. */
  lemma {:induction false} FedHas(scalars: Items, fed: seq<(string, Value)>, q: Path, v: Value)
    requires ProperItems(scalars) && forall i :: 0 <= i < |scalars| ==> DotFree(scalars[i].0)
    requires forall w: Value :: (q, v) in scalars && (q, w) in scalars ==> v == w
    requires Enumerates(fed, PutAll(map[], "", scalars))
    ensures (q, v) in scalars <==> (q, v) in SplitAll(fed)
  {
    hide Split, PutAll, Join, DotFree;
    var items, m := SplitAll(fed), PutAll(map[], "", scalars);
    if (q, v) in items {
      var i :| 0 <= i < |items| && items[i] == (q, v);
      PutAllHolds(scalars, fed[i].0);
    }
    if (q, v) in scalars {
      var i :| 0 <= i < |scalars| && scalars[i] == (q, v);
      SplitOfJoin(q);
      PutAllHolds(scalars, Join(q));
      var j :| 0 <= j < |fed| && fed[j].0 == Join(q);
      assert items[j] == (q, v);
    }
  }

  lemma {:induction false} FedListsScalars(obj: Json, fed: seq<(string, Value)>)
    requires obj.Members? && WellKeyed(obj)
    requires Enumerates(fed, PutAll(map[], "", ScalarsOf(obj, |obj.items|)))
    ensures Lists(SplitAll(fed), KidsOf(obj, |obj.items|))
  {
    hide ScalarsOf, KidsOf, WellKeyed, Split, PutAll, Get, DotFree, Join;
    var scalars, items := ScalarsOf(obj, |obj.items|), SplitAll(fed);
    var kids := KidsOf(obj, |obj.items|);
    forall i | 0 <= i < |scalars| ensures DotFree(scalars[i].0) { ScalarPathsAreDotFree(obj, |obj.items|, i); }
    forall i, j | 0 <= i < j < |items|
      ensures items[i].0 != items[j].0
    {
      JoinOfSplit(fed[i].0);
      JoinOfSplit(fed[j].0);
    }
    forall q, v: Value
      ensures Get(Node(kids), q) == Some(v) <==> (q, v) in items
    {
      forall w: Value
        ensures Get(Node(kids), q) == Some(w) <==> (q, w) in scalars
      {
        ScalarsAreListed(obj, |obj.items|, q, w);
      }
      FedHas(scalars, fed, q, v);
    }
  }

  /** Flattening an object within the limits and setting the resulting paths, in any order, rebuilds it. */
  lemma {:induction false} FlattenRoundTrip(dumps: Json -> string, obj: Json, fed: seq<(string, Value)>)
    requires obj.Members? && WellKeyed(obj) && Shallow(obj, MAX_DEPTH) && |ScalarsOf(obj, |obj.items|)| <= MAX_KEYS
    requires Enumerates(fed, Flatten(dumps, obj, "", map[], 0))
    ensures Node(Build(SplitAll(fed))) == TreeOf(obj)
  {
    hide ScalarsOf, PutAll, WellKeyed, Shallow, FlattenMembers, Lists, FullObject;
    NestedFlatten(dumps, obj, "", map[], 0);
    FlattenMembersSetsScalars(dumps, obj, "", map[], 0, |obj.items|);
    FedListsScalars(obj, fed);
    TreeIsFull(obj, MAX_DEPTH, |obj.items|);
    ScalarsRebuildObject(SplitAll(fed), KidsOf(obj, |obj.items|));
  }

  // ------------------------------------------------------------ lists of objects

  function DigitsValue(s: string): nat
    requires forall i :: 0 <= i < |s| ==> '0' <= s[i] <= '9'
  {
    if s == "" then 0 else DigitsValue(s[..|s| - 1]) * 10 + (s[|s| - 1] as int - '0' as int)
  }

  /** The decimal digits of n, read as a number, are n again; so no two indices have the same name. */
  lemma {:induction false} DecimalReadsBack(n: nat)
    ensures Decimal(n) != "" && forall i :: 0 <= i < |Decimal(n)| ==> '0' <= Decimal(n)[i] <= '9'
    ensures DigitsValue(Decimal(n)) == n
  {
    var last := "0123456789"[n % 10];
    assert last as int - '0' as int == n % 10;
    var init := if n < 10 then "" else Decimal(n / 10);
    if n >= 10 { DecimalReadsBack(n / 10); }
    assert Decimal(n) == init + [last] && Decimal(n)[..|Decimal(n)| - 1] == init;
    assert n == n / 10 * 10 + n % 10;
  }

  /** The same with every list that holds an object or a list turned into an object: the names are the indices, and
      only the first 50 elements are kept. */
  function AsObject(v: Json): Json {
    match v
    case Scalar(_) => v
    case Members(items) => Members(seq(|items|, i requires 0 <= i < |items| => (items[i].0, AsObject(items[i].1))))
    case Elements(elems) =>
      if AllScalars(elems) then v
      else Members(seq(if |elems| > 50 then 50 else |elems|,
                       i requires 0 <= i < |elems| => (Decimal(i), AsObject(elems[i]))))
  }

  /** Distinct keys without dots in every object, inside lists too. */
  predicate DeepKeyed(v: Json) {
    match v
    case Scalar(_) => true
    case Elements(elems) => forall i :: 0 <= i < |elems| ==> DeepKeyed(elems[i])
    case Members(items) =>
      && (forall i, j :: 0 <= i < j < |items| ==> items[i].0 != items[j].0)
      && (forall i :: 0 <= i < |items| ==> '.' !in items[i].0 && DeepKeyed(items[i].1))
  }

  lemma IndicesAreKeys(i: nat, j: nat)
    ensures '.' !in Decimal(i) && Decimal(i) != "" && Decimal(i)[|Decimal(i)| - 1] != '.'
    ensures Decimal(i) == Decimal(j) ==> i == j
  {
    DecimalReadsBack(i);
    DecimalReadsBack(j);
  }

  lemma {:induction false} AsObjectIsWellKeyed(v: Json)
    requires DeepKeyed(v)
    ensures WellKeyed(AsObject(v))
    decreases v
  {
    match v {
      case Scalar(_) =>
      case Members(items) =>
        forall i | 0 <= i < |items| ensures WellKeyed(AsObject(items[i].1)) { AsObjectIsWellKeyed(items[i].1); }
      case Elements(elems) =>
        forall i | 0 <= i < |elems| ensures WellKeyed(AsObject(elems[i])) { AsObjectIsWellKeyed(elems[i]); }
        forall i: nat, j: nat
          ensures '.' !in Decimal(i) && (Decimal(i) == Decimal(j) ==> i == j)
        {
          IndicesAreKeys(i, j);
        }
    }
  }

  /** How many fields a value becomes. */
  function FieldCount(v: Json): nat { if v.Members? then |ScalarsOf(v, |v.items|)| else 1 }

  /** Scalars as elements of a list are set like members, as long as there is room for one more key. */
  lemma ScalarAtIndex(dumps: Json -> string, text: string, prefix: string, i: nat, out: Flat, depth: nat)
    requires |out| < MAX_KEYS
    ensures Flatten(dumps, Scalar(text), prefix + Decimal(i) + ".", out, depth)
            == out[prefix + Decimal(i) := Text(text)]
  {
    hide Decimal;
    IndicesAreKeys(i, i);
    var k := Decimal(i);
    var s := prefix + k + ".";
    assert s[..|s| - 1] == prefix + k && (prefix + k)[|prefix + k| - 1] == k[|k| - 1];
    assert StripDots(s) == prefix + k;
  }

  /** The room that is left once the members before one are set. */
  lemma RoomForMember(dumps: Json -> string, obj: Json, prefix: string, out: Flat, depth: nat, n: nat)
    requires obj.Members? && n < |obj.items| && depth < MAX_DEPTH && Shallow(obj, MAX_DEPTH - depth)
    requires |out| + |ScalarsOf(obj, n + 1)| <= MAX_KEYS
    ensures var before, v := FlattenMembers(dumps, obj, prefix, out, depth, n), obj.items[n].1;
            |before| + FieldCount(v) <= MAX_KEYS && FieldCount(v) > 0
            && (!v.Scalar? ==> depth + 1 < MAX_DEPTH && Shallow(v, MAX_DEPTH - depth - 1))
  {
    hide FlattenMembers, ScalarsOf, PutAll, Under, Shallow;
    NextScalars(obj, n);
    FlattenMembersSetsScalars(dumps, obj, prefix, out, depth, n);
    PutAllSize(out, prefix, ScalarsOf(obj, n));
    ShallowBelow(obj, MAX_DEPTH - depth, n);
    ShallowLists(obj, MAX_DEPTH - depth, n);
    var v := obj.items[n].1;
    if v.Members? { HoldsAScalar(v, MAX_DEPTH - depth - 1, |v.items|); }
  }

  lemma ShallowLists(obj: Json, levels: nat, i: nat)
    requires obj.Members? && Shallow(obj, levels) && i < |obj.items|
    ensures levels > 0 && Shallow(obj.items[i].1, levels - 1)
  {
  }

  lemma AsObjectMember(v: Json, n: nat)
    requires v.Members? && n < |v.items|
    ensures var o := AsObject(v);
            o.Members? && |o.items| == |v.items| && o.items[n] == (v.items[n].0, AsObject(v.items[n].1))
    ensures AsObject(v.items[n].1).Scalar? <==> v.items[n].1.Scalar?
  {
  }

  lemma AsObjectElement(v: Json, n: nat)
    requires v.Elements? && !AllScalars(v.elems) && n < |v.elems| && n < 50
    ensures var o := AsObject(v);
            o.Members? && |o.items| == (if |v.elems| > 50 then 50 else |v.elems|)
            && o.items[n] == (Decimal(n), AsObject(v.elems[n]))
    ensures AsObject(v.elems[n]).Scalar? <==> v.elems[n].Scalar?
  {
  }

  /** The members of an object, or the elements of a list, one by one. */
  lemma {:induction false} SameSoFar(dumps: Json -> string, v: Json, prefix: string, out: Flat, depth: nat, n: nat)
    requires v.Members? || (v.Elements? && !AllScalars(v.elems))
    requires n <= |AsObject(v).items|
    requires depth < MAX_DEPTH && Shallow(AsObject(v), MAX_DEPTH - depth)
    requires |out| + |ScalarsOf(AsObject(v), n)| <= MAX_KEYS
    ensures v.Members? ==> n <= |v.items| && FlattenMembers(dumps, v, prefix, out, depth, n)
                                             == FlattenMembers(dumps, AsObject(v), prefix, out, depth, n)
    ensures v.Elements? ==> n <= |v.elems| && FlattenElements(dumps, v, prefix, out, depth, n)
                                              == FlattenMembers(dumps, AsObject(v), prefix, out, depth, n)
    decreases v, 0, n
  {
    hide Flatten, FlattenMembers, FlattenElements, ScalarsOf, Shallow, AsObject, Decimal, FieldCount;
    var o := AsObject(v);
    AsObjectSize(v);
    if n == 0 {
      NoMembers(dumps, o, prefix, out, depth);
      if v.Members? { NoMembers(dumps, v, prefix, out, depth); } else { NoElements(dumps, v, prefix, out, depth); }
    } else {
      FewerScalars(o, n - 1, n);
      SameSoFar(dumps, v, prefix, out, depth, n - 1);
      RoomForMember(dumps, o, prefix, out, depth, n - 1);
      NextMember(dumps, o, prefix, out, depth, n - 1);
      var before := FlattenMembers(dumps, o, prefix, out, depth, n - 1);
      if v.Members? {
        AsObjectMember(v, n - 1);
        NextMember(dumps, v, prefix, out, depth, n - 1);
        var (k, w) := v.items[n - 1];
        if w.Scalar? { ScalarStays(w); } else { SameFlat(dumps, w, prefix + k + ".", before, depth + 1); }
      } else {
        AsObjectElement(v, n - 1);
        NextElement(dumps, v, prefix, out, depth, n - 1);
        var w := v.elems[n - 1];
        if w.Scalar? {
          ScalarStays(w);
          ScalarAtIndex(dumps, w.text, prefix, n - 1, before, depth + 1);
        } else {
          SameFlat(dumps, w, prefix + Decimal(n - 1) + ".", before, depth + 1);
        }
      }
    }
  }

  lemma ScalarStays(v: Json)
    requires v.Scalar? || (v.Elements? && AllScalars(v.elems))
    ensures AsObject(v) == v
  {
  }

  lemma AsObjectSize(v: Json)
    requires v.Members? || (v.Elements? && !AllScalars(v.elems))
    ensures AsObject(v).Members?
    ensures v.Members? ==> |AsObject(v).items| == |v.items|
    ensures v.Elements? ==> |AsObject(v).items| == if |v.elems| > 50 then 50 else |v.elems|
  {
  }

  /** Within the limits a list that holds objects or lists is flattened like an object named by its indices. */
  lemma {:induction false} SameFlat(dumps: Json -> string, v: Json, prefix: string, out: Flat, depth: nat)
    requires !v.Scalar? && depth < MAX_DEPTH && Shallow(AsObject(v), MAX_DEPTH - depth)
    requires |out| + FieldCount(AsObject(v)) <= MAX_KEYS && FieldCount(AsObject(v)) > 0
    ensures Flatten(dumps, v, prefix, out, depth) == Flatten(dumps, AsObject(v), prefix, out, depth)
    decreases v, 1, 0
  {
    hide FlattenMembers, FlattenElements, ScalarsOf, Shallow, AsObject, Decimal;
    if v.Elements? && AllScalars(v.elems) {
      ScalarStays(v);
    } else {
      AsObjectSize(v);
      SameSoFar(dumps, v, prefix, out, depth, |AsObject(v).items|);
    }
  }

  /** What the element at an index holds is found below that index. */
  lemma {:induction false} GetAtIndex(elems: seq<Json>, i: nat, q: Path)
    requires DeepKeyed(Elements(elems)) && !AllScalars(elems) && i < |elems| && i < 50
    ensures Get(TreeOf(AsObject(Elements(elems))), [Decimal(i)] + q) == Get(TreeOf(AsObject(elems[i])), q)
  {
    hide TreeOf, KidsOf, WellKeyed, DeepKeyed, Decimal;
    var v := Elements(elems);
    var o := AsObject(v);
    AsObjectIsWellKeyed(v);
    AsObjectElement(v, i);
    KidsAreMembers(o, |o.items|);
    NodeOf(o);
    assert ([Decimal(i)] + q)[1..] == q;
  }

  lemma NodeOf(o: Json)
    requires o.Members?
    ensures TreeOf(o) == Node(KidsOf(o, |o.items|))
  {
  }

  /** The round trip for objects with lists of objects in them: what is rebuilt has an object named by indices for
      every such list, and its first 50 elements. */
  lemma {:induction false} FlattenRoundTripOfLists(dumps: Json -> string, obj: Json, fed: seq<(string, Value)>)
    requires obj.Members? && DeepKeyed(obj) && Shallow(AsObject(obj), 8)
    requires 0 < FieldCount(AsObject(obj)) <= 500
    requires Enumerates(fed, Flatten(dumps, obj, "", map[], 0))
    ensures Node(Build(SplitAll(fed))) == TreeOf(AsObject(obj))
  {
    hide Flatten, ScalarsOf, Shallow, AsObject, WellKeyed, DeepKeyed;
    AsObjectIsWellKeyed(obj);
    AsObjectSize(obj);
    SameFlat(dumps, obj, "", map[], 0);
    FlattenRoundTrip(dumps, AsObject(obj), fed);
  }

  /** The flat dictionary itself: a dotted path without dots in its parts is a key exactly if it leads to a scalar,
      through lists by index. */
  lemma {:induction false} FlattenHolds(dumps: Json -> string, obj: Json, q: Path, s: Value)
    requires obj.Members? && DeepKeyed(obj) && Shallow(AsObject(obj), 8)
    requires 0 < FieldCount(AsObject(obj)) <= 500 && q != [] && DotFree(q)
    ensures var m := Flatten(dumps, obj, "", map[], 0);
            Join(q) in m && m[Join(q)] == s <==> Get(TreeOf(AsObject(obj)), q) == Some(s)
  {
    hide Flatten, FlattenMembers, ScalarsOf, Shallow, AsObject, WellKeyed, DeepKeyed, PutAll, Get, KidsOf, Split, Join;
    AsObjectIsWellKeyed(obj);
    AsObjectSize(obj);
    SameFlat(dumps, obj, "", map[], 0);
    var o := AsObject(obj);
    NestedFlatten(dumps, o, "", map[], 0);
    FlattenMembersSetsScalars(dumps, o, "", map[], 0, |o.items|);
    var items := ScalarsOf(o, |o.items|);
    forall i | 0 <= i < |items| ensures DotFree(items[i].0) { ScalarPathsAreDotFree(o, |o.items|, i); }
    PutAllHolds(items, Join(q));
    SplitOfJoin(q);
    forall w: Value
      ensures Get(TreeOf(o), q) == Some(w) <==> (q, w) in items
    {
      ScalarsAreListed(o, |o.items|, q, w);
      NodeOf(o);
    }
    if (q, s) in items {
      var i :| 0 <= i < |items| && items[i] == (q, s);
      assert Join(items[i].0) in PutAll(map[], "", items);
    }
  }

  // ------------------------------------------------------------ beyond the limits

  function Dots(s: string): nat {
    if s == "" then 0 else Dots(s[..|s| - 1]) + if s[|s| - 1] == '.' then 1 else 0
  }

  lemma {:induction false} DotsAdd(a: string, b: string)
    ensures Dots(a + b) == Dots(a) + Dots(b)
    decreases |b|
  {
    if b == "" {
      assert a + b == a;
    } else {
      DotsAdd(a, b[..|b| - 1]);
      assert (a + b)[..|a + b| - 1] == a + b[..|b| - 1];
    }
  }

  lemma {:induction false} NoDots(s: string)
    requires '.' !in s
    ensures Dots(s) == 0
  {
    if s != "" { NoDots(s[..|s| - 1]); }
  }

  lemma {:induction false} StrippedDots(s: string)
    ensures Dots(StripDots(s)) <= Dots(s)
    ensures s != "" && s[|s| - 1] == '.' ==> Dots(StripDots(s)) < Dots(s)
  {
    if s != "" && s[|s| - 1] == '.' { StrippedDots(s[..|s| - 1]); }
  }

  /** The prefix of a call at this depth: that many names, each with its dot. */
  ghost predicate PrefixAt(prefix: string, depth: nat) {
    Dots(prefix) == depth && (depth > 0 ==> prefix != "" && prefix[|prefix| - 1] == '.')
  }

  lemma PrefixBelow(prefix: string, k: string, depth: nat)
    requires PrefixAt(prefix, depth) && '.' !in k
    ensures PrefixAt(prefix + k + ".", depth + 1) && Dots(prefix + k) == depth
  {
    NoDots(k);
    DotsAdd(prefix, k);
    DotsAdd(prefix + k, ".");
    assert Dots(".") == Dots("") + 1 by { assert "."[..0] == ""; }
  }

  ghost predicate NewKeysAreShort(out: Flat, out': Flat) {
    forall k :: k in out' ==> k in out || Dots(k) <= 7
  }

  /** However deep an object is nested, no key has more than eight parts. */
  lemma {:induction false} KeysAreShort(dumps: Json -> string, v: Json, prefix: string, out: Flat, depth: nat)
    requires DeepKeyed(v) && PrefixAt(prefix, depth) && depth <= 8
    ensures NewKeysAreShort(out, Flatten(dumps, v, prefix, out, depth))
    decreases v, 1, 0
  {
    hide Dots, StripDots, FlattenMembers, FlattenElements, Dumped, DeepKeyed;
    StrippedDots(prefix);
    assert Dots(StripDots(prefix)) <= 7;
    if v.Members? { KeysSoFarAreShort(dumps, v, prefix, out, depth, |v.items|); }
    if v.Elements? {
      KeysSoFarAreShort(dumps, v, prefix, out, depth, if |v.elems| > MAX_ELEMENTS then MAX_ELEMENTS else |v.elems|);
    }
  }

  lemma KeyedBelow(v: Json, i: nat)
    requires DeepKeyed(v)
    ensures v.Members? && i < |v.items| ==> '.' !in v.items[i].0 && DeepKeyed(v.items[i].1)
    ensures v.Elements? && i < |v.elems| ==> DeepKeyed(v.elems[i])
  {
  }

  lemma {:induction false} KeysSoFarAreShort(dumps: Json -> string, v: Json, prefix: string, out: Flat, depth: nat,
      n: nat)
    requires DeepKeyed(v) && PrefixAt(prefix, depth)
    requires (v.Members? ==> n <= |v.items|) && (v.Elements? ==> n <= |v.elems|)
    ensures v.Members? && depth <= 7 ==> NewKeysAreShort(out, FlattenMembers(dumps, v, prefix, out, depth, n))
    ensures v.Elements? && depth <= 7 ==> NewKeysAreShort(out, FlattenElements(dumps, v, prefix, out, depth, n))
    decreases v, 0, n
  {
    hide Dots, Flatten, FlattenMembers, FlattenElements, DeepKeyed, PrefixAt, Decimal;
    if v.Scalar? || depth > 7 {
    } else if n == 0 {
      if v.Members? { NoMembers(dumps, v, prefix, out, depth); } else { NoElements(dumps, v, prefix, out, depth); }
    } else {
      KeysSoFarAreShort(dumps, v, prefix, out, depth, n - 1);
      KeyedBelow(v, n - 1);
      if v.Members? {
        NextMember(dumps, v, prefix, out, depth, n - 1);
        var (k, w) := v.items[n - 1];
        PrefixBelow(prefix, k, depth);
        KeysAreShort(dumps, w, prefix + k + ".", FlattenMembers(dumps, v, prefix, out, depth, n - 1), depth + 1);
      } else {
        NextElement(dumps, v, prefix, out, depth, n - 1);
        IndicesAreKeys(n - 1, n - 1);
        PrefixBelow(prefix, Decimal(n - 1), depth);
        KeysAreShort(dumps, v.elems[n - 1], prefix + Decimal(n - 1) + ".",
            FlattenElements(dumps, v, prefix, out, depth, n - 1), depth + 1);
      }
    }
  }

  /** An object or a list below the eighth level becomes one field: its text, or the first 2000 characters of it. */
  lemma {:induction false} TooDeep(dumps: Json -> string, v: Json, path: string, out: Flat, depth: nat)
    requires !v.Scalar? && depth >= 8 && |out| < 500 && path != "" && path[|path| - 1] != '.'
    ensures exists text: string ::
              && Flatten(dumps, v, path + ".", out, depth) == out[path := Text(text)]
              && text <= dumps(v) && |text| <= 2000 && (|text| < 2000 ==> text == dumps(v))
  {
    var prefix, dump := path + ".", Dumped(dumps, v);
    assert prefix[..|prefix| - 1] == path && StripDots(path) == path;
    assert StripDots(prefix) == path;
    assert dump == Text(dump.text);
  }

  function Max(a: nat, b: nat): nat { if a < b then b else a }

  /** The most scalars that are members of the objects on one way down. */
  function Chain(v: Json): nat
    decreases v, 1, 0
  {
    match v
    case Scalar(_) => 0
    case Elements(elems) => BelowElements(v, |elems|)
    case Members(items) => DirectScalars(items, |items|) + BelowMembers(v, |items|)
  }

  function DirectScalars(items: seq<(string, Json)>, n: nat): nat
    requires n <= |items|
  {
    if n == 0 then 0 else DirectScalars(items, n - 1) + if items[n - 1].1.Scalar? then 1 else 0
  }

  function BelowMembers(v: Json, n: nat): nat
    requires v.Members? && n <= |v.items|
    decreases v, 0, n
  {
    if n == 0 then 0 else Max(BelowMembers(v, n - 1), Chain(v.items[n - 1].1))
  }

  function BelowElements(v: Json, n: nat): nat
    requires v.Elements? && n <= |v.elems|
    decreases v, 0, n
  {
    if n == 0 then 0 else Max(BelowElements(v, n - 1), Chain(v.elems[n - 1]))
  }

  lemma {:induction false} BelowGrows(v: Json, m: nat, n: nat)
    requires m <= n
    ensures v.Members? && n <= |v.items| ==> BelowMembers(v, m) <= BelowMembers(v, n)
    ensures v.Elements? && n <= |v.elems| ==> BelowElements(v, m) <= BelowElements(v, n)
    decreases n
  {
    hide Chain;
    if m < n { BelowGrows(v, m, n - 1); }
  }

  lemma PutSize(m: Flat, k: string, v: Value)
    ensures |m[k := v]| <= |m| + 1
  {
    assert m[k := v].Keys == m.Keys + {k};
    assert |m[k := v]| == |m.Keys + {k}|;
  }

  /** A dictionary of 500 keys grows by the scalars of objects already entered, and by nothing else. */
  lemma {:induction false} KeysAreBounded(dumps: Json -> string, v: Json, prefix: string, out: Flat, depth: nat)
    ensures |out| >= 500 ==> Flatten(dumps, v, prefix, out, depth) == out
    ensures |out| < 500 ==> |Flatten(dumps, v, prefix, out, depth)| <= 500 + Chain(v)
    decreases v, 1, 0
  {
    hide StripDots, FlattenMembers, FlattenElements, Dumped, FieldOf, BelowMembers, BelowElements;
    if |out| < 500 {
      match v {
        case Scalar(text) => PutSize(out, StripDots(prefix), Text(text));
        case Members(items) =>
          PutSize(out, StripDots(prefix), Dumped(dumps, v));
          SizeSoFar(dumps, v, prefix, out, depth, |items|);
        case Elements(elems) =>
          PutSize(out, StripDots(prefix), Dumped(dumps, v));
          PutSize(out, StripDots(prefix), FieldOf(v));
          var n := if |elems| > MAX_ELEMENTS then MAX_ELEMENTS else |elems|;
          SizeSoFar(dumps, v, prefix, out, depth, n);
          BelowGrows(v, n, |elems|);
      }
    }
  }

  lemma {:induction false} SizeSoFar(dumps: Json -> string, v: Json, prefix: string, out: Flat, depth: nat, n: nat)
    requires |out| < 500
    ensures v.Members? && n <= |v.items| ==>
              |FlattenMembers(dumps, v, prefix, out, depth, n)| <= 500 + BelowMembers(v, n) + DirectScalars(v.items, n)
    ensures v.Elements? && n <= |v.elems| ==>
              |FlattenElements(dumps, v, prefix, out, depth, n)| <= 500 + BelowElements(v, n)
    decreases v, 0, n
  {
    hide Flatten, FlattenMembers, FlattenElements, Chain, Decimal;
    if v.Members? && n <= |v.items| {
      if n == 0 {
        NoMembers(dumps, v, prefix, out, depth);
      } else {
        SizeSoFar(dumps, v, prefix, out, depth, n - 1);
        NextMember(dumps, v, prefix, out, depth, n - 1);
        var (k, w) := v.items[n - 1];
        var before := FlattenMembers(dumps, v, prefix, out, depth, n - 1);
        if w.Scalar? {
          PutSize(before, prefix + k, Text(w.text));
        } else {
          KeysAreBounded(dumps, w, prefix + k + ".", before, depth + 1);
        }
      }
    } else if v.Elements? && n <= |v.elems| {
      if n == 0 {
        NoElements(dumps, v, prefix, out, depth);
      } else {
        SizeSoFar(dumps, v, prefix, out, depth, n - 1);
        NextElement(dumps, v, prefix, out, depth, n - 1);
        KeysAreBounded(dumps, v.elems[n - 1], prefix + Decimal(n - 1) + ".",
            FlattenElements(dumps, v, prefix, out, depth, n - 1), depth + 1);
      }
    }
  }
}
