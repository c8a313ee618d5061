/**
 The nested dictionaries that `_set_path` and `_ocsf_field` update in place (uli/normalization/ocsf.py),
 proved against the functions on values in `Paths`.
 */
module NestedDict {
  import opened Paths

  datatype Entry = Plain(value: Value) | Sub(dict: Dict)

  class Dict {
    var entries: map<string, Entry>
    ghost var Repr: set<object>

    /** Sub-dictionaries are not shared: what two keys own is disjoint. */
    ghost predicate Valid()
      reads this, Repr
      decreases Repr
    {
      && this in Repr
      && (forall k :: k in entries && entries[k].Sub? ==>
            var d := entries[k].dict;
            d in Repr && d.Repr <= Repr && this !in d.Repr && d.Valid())
      && (forall k, l :: k in entries && l in entries && k != l && entries[k].Sub? && entries[l].Sub? ==>
            entries[k].dict.Repr !! entries[l].dict.Repr)
    }

    ghost function Contents(): Object
      requires Valid()
      reads this, Repr
      decreases Repr, 1
    {
      map k | k in entries :: ContentsAt(k)
    }

    ghost function ContentsAt(k: string): Tree
      requires Valid() && k in entries
      reads this, Repr
      decreases Repr, 0
    {
      match entries[k]
      case Plain(v) => Leaf(v)
      case Sub(d) => Node(d.Contents())
    }

    constructor ()
      ensures Valid() && fresh(Repr) && Contents() == map[]
    {
      entries, Repr := map[], {this};
    }

    method SetPlain(p: string, value: Value)
      requires Valid()
      modifies this`entries
      ensures Valid() && Contents() == old(Contents())[p := Leaf(value)]
    {
      entries := entries[p := Plain(value)];
    }

    method SetDefault(p: string)
      requires Valid()
      modifies this
      ensures Valid() && fresh(Repr - old(Repr))
      ensures p in entries && Contents() == if p in old(entries) then old(Contents())
              else old(Contents())[p := Node(map[])]
    {
      if p !in entries {
        var child := new Dict();
        entries := entries[p := Sub(child)];
        Repr := Repr + child.Repr;
      }
    }

    /** The walk along the path, one dictionary at a time. */
    method SetPath(parts: Path, value: Value)
      requires Valid() && parts != []
      modifies Repr
      ensures Valid() && fresh(Repr - old(Repr))
      ensures Contents() == Paths.SetPath(old(Contents()), parts, value)
      decreases |parts|, 0
    {
      var p := parts[0];
      ghost var before := Contents();
      if |parts| == 1 {
        SetPlain(p, value);
        return;
      }
      SetDefault(p);
      assert Contents()[p] == ContentsAt(p) == if p in before then before[p] else Node(map[]);
      if entries[p].Sub? {
        Descend(p, parts[1..], value);
      }
    }

    method Descend(p: string, parts: Path, value: Value)
      requires Valid() && parts != [] && p in entries && entries[p].Sub?
      modifies Repr
      ensures Valid() && fresh(Repr - old(Repr))
      ensures Contents() == old(Contents())[p := Node(Paths.SetPath(old(entries[p].dict.Contents()), parts, value))]
      decreases |parts|, 1
    {
      hide Paths.SetPath;
      var child := entries[p].dict;
      child.SetPath(parts, value);
      Repr := Repr + child.Repr;
    }
  }

  /** The `ocsf.` fields, in dictionary order, set in a new dictionary. */
  method OcsfField(fields: seq<(string, Value)>) returns (out: Dict)
    ensures fresh(out) && out.Valid() && fresh(out.Repr)
    ensures out.Contents() == Build(Selected(fields))
  {
    hide Build, Selected, Split;
    out := new Dict();
    NothingSelected();
    for i := 0 to |fields|
      invariant out.Valid() && fresh(out.Repr)
      invariant out.Contents() == Build(Selected(fields[..i]))
    {
      var (k, v) := fields[i];
      SelectedNext(fields, i);
      if OCSF <= k {
        out.SetPath(Split(k[|OCSF|..]), v);
      }
    }
    assert fields[..|fields|] == fields;
  }

  lemma NothingSelected()
    ensures Build(Selected([])) == map[]
  {
  }
}
