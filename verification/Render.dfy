/** Turning a partial object into the leaf paths it claims. */
module Render {
  import opened Json
  import opened Text
  import opened FieldPath
  import opened PathText

  /** The declared merge key of a list, by the text of the list's path. */
  type MergeKeys = map<string, string>

  function MergeKeyAt(keys: MergeKeys, prefix: Path): string
  {
    if Print(prefix) in keys then keys[Print(prefix)] else ""
  }

  /** Identity fields only address the object; they are not claimed. */
  function ClaimedNames(m: map<string, Json>, prefix: Path): set<string>
  {
    if prefix == [] then m.Keys - {"apiVersion", "kind"} else m.Keys
  }

  /** A list element is addressed by its merge key where it carries one, else by position. */
  function ElementSegment(e: Json, i: nat, mergeKey: string): Segment
  {
    if mergeKey != "" && e.Obj? && mergeKey in e.fields then KeyMatch(mergeKey, KeyText(e, mergeKey)) else Index(i)
  }

  function Under(seg: Segment, ps: seq<Path>): (r: seq<Path>)
    ensures |r| == |ps| && forall i | 0 <= i < |r| :: r[i] == [seg] + ps[i]
  {
    if ps == [] then [] else [[seg] + ps[0]] + Under(seg, ps[1..])
  }

  /** The leaves of the value at prefix, as paths below prefix, in walking order. */
  function LeavesBelow(v: Json, prefix: Path, keys: MergeKeys): seq<Path>
    decreases v, 1, 0
  {
    match v
    case Obj(m) =>
      if m == map[] then (if prefix == [] then [] else [[]])
      else LeavesOfFields(v, SortedKeys(ClaimedNames(m, prefix)), prefix, keys)
    case Arr(es) =>
      if es == [] then (if prefix == [] then [] else [[]])
      else LeavesOfElements(v, 0, prefix, keys)
    case _ => if prefix == [] then [] else [[]]
  }

  function LeavesOfFields(v: Json, names: seq<string>, prefix: Path, keys: MergeKeys): seq<Path>
    requires v.Obj? && forall k | k in names :: k in v.fields
    decreases v, 0, |names|
  {
    if names == [] then [] else
    var seg := Field(names[0]);
    Under(seg, LeavesBelow(v.fields[names[0]], prefix + [seg], keys)) + LeavesOfFields(v, names[1..], prefix, keys)
  }

  function LeavesOfElement(v: Json, i: nat, prefix: Path, keys: MergeKeys): seq<Path>
    requires v.Arr? && i < |v.elems|
    decreases v, 0, 0
  {
    var seg := ElementSegment(v.elems[i], i, MergeKeyAt(keys, prefix));
    // A keyed element is itself the claim.
    if seg.IsKeyMatch() then [[seg]] else Under(seg, LeavesBelow(v.elems[i], prefix + [seg], keys))
  }

  function LeavesOfElements(v: Json, i: nat, prefix: Path, keys: MergeKeys): seq<Path>
    requires v.Arr? && i <= |v.elems|
    decreases v, 0, |v.elems| - i + 1
  {
    if i == |v.elems| then [] else LeavesOfElement(v, i, prefix, keys) + LeavesOfElements(v, i + 1, prefix, keys)
  }

  function Prefixed(prefix: Path, ps: seq<Path>): (r: seq<Path>)
    ensures |r| == |ps| && forall i | 0 <= i < |r| :: r[i] == prefix + ps[i]
  {
    if ps == [] then [] else [prefix + ps[0]] + Prefixed(prefix, ps[1..])
  }

  /** The list collectLeaves appends to. */
  class PathList {
    var items: seq<Path>

    constructor ()
      ensures items == []
    {
      items := [];
    }

    method CollectLeaves(v: Json, prefix: Path, keys: MergeKeys)
      modifies this
      ensures items == old(items) + Prefixed(prefix, LeavesBelow(v, prefix, keys))
      decreases v, 1
    {
      if v.Obj? && v.fields != map[] {
        CollectFields(v, prefix, keys);
      } else if v.Arr? && v.elems != [] {
        CollectElements(v, prefix, keys);
      } else {
        if prefix != [] { items := items + [prefix]; }
        assert prefix + [] == prefix;
      }
    }

    method CollectFields(v: Json, prefix: Path, keys: MergeKeys)
      requires v.Obj?
      modifies this
      ensures items == old(items) +
        Prefixed(prefix, LeavesOfFields(v, SortedKeys(ClaimedNames(v.fields, prefix)), prefix, keys))
      decreases v, 0
    {
      var names := SortedKeys(ClaimedNames(v.fields, prefix));
      ghost var want := items + Prefixed(prefix, LeavesOfFields(v, names, prefix, keys));
      for n := 0 to |names|
        invariant want == items + Prefixed(prefix, LeavesOfFields(v, names[n..], prefix, keys))
      {
        var name := names[n];
        ghost var rest := LeavesOfFields(v, names[n + 1..], prefix, keys);
        ghost var below := LeavesBelow(v.fields[name], prefix + [Field(name)], keys);
        ghost var was := items;
        assert names[n..][1..] == names[n + 1..];
        PrefixedOnce(prefix, Field(name), below, rest);
        CollectLeaves(v.fields[name], prefix + [Field(name)], keys);
        Reassociate(was, Prefixed(prefix + [Field(name)], below), Prefixed(prefix, rest));
      }
    }

    method CollectElements(v: Json, prefix: Path, keys: MergeKeys)
      requires v.Arr?
      modifies this
      ensures items == old(items) + Prefixed(prefix, LeavesOfElements(v, 0, prefix, keys))
      decreases v, 0
    {
      var mergeKey := MergeKeyAt(keys, prefix);
      ghost var want := items + Prefixed(prefix, LeavesOfElements(v, 0, prefix, keys));
      for i := 0 to |v.elems|
        invariant want == items + Prefixed(prefix, LeavesOfElements(v, i, prefix, keys))
      {
        var seg := ElementSegment(v.elems[i], i, mergeKey);
        ghost var rest := LeavesOfElements(v, i + 1, prefix, keys);
        ghost var was := items;
        if seg.IsKeyMatch() {
          items := items + [prefix + [seg]];
          PrefixedConcat(prefix, [[seg]], rest);
          Reassociate(was, [prefix + [seg]], Prefixed(prefix, rest));
        } else {
          ghost var below := LeavesBelow(v.elems[i], prefix + [seg], keys);
          PrefixedOnce(prefix, seg, below, rest);
          CollectLeaves(v.elems[i], prefix + [seg], keys);
          Reassociate(was, Prefixed(prefix + [seg], below), Prefixed(prefix, rest));
        }
      }
    }
  }

  lemma {:induction false} Reassociate<T>(a: seq<T>, b: seq<T>, c: seq<T>)
    ensures a + (b + c) == (a + b) + c
  {}

  lemma {:induction false} PrefixedConcat(prefix: Path, a: seq<Path>, b: seq<Path>)
    ensures Prefixed(prefix, a + b) == Prefixed(prefix, a) + Prefixed(prefix, b)
  {}

  lemma {:induction false} PrefixedOnce(prefix: Path, seg: Segment, ps: seq<Path>, rest: seq<Path>)
    ensures Prefixed(prefix, Under(seg, ps) + rest) == Prefixed(prefix + [seg], ps) + Prefixed(prefix, rest)
  {
    PrefixedConcat(prefix, Under(seg, ps), rest);
    PrefixedUnder(prefix, seg, ps);
  }

  lemma {:induction false} PrefixedUnder(prefix: Path, seg: Segment, ps: seq<Path>)
    ensures Prefixed(prefix, Under(seg, ps)) == Prefixed(prefix + [seg], ps)
  {
    var l, r := Prefixed(prefix, Under(seg, ps)), Prefixed(prefix + [seg], ps);
    forall i | 0 <= i < |ps| ensures l[i] == r[i] {
      assert prefix + ([seg] + ps[i]) == (prefix + [seg]) + ps[i];
    }
  }

  function InsertPath(p: Path, sorted: seq<Path>): (r: seq<Path>)
    ensures multiset(r) == multiset([p]) + multiset(sorted)
  {
    if sorted == [] || Leq(Print(p), Print(sorted[0])) then
      assert [p] + sorted == [p] + sorted;
      [p] + sorted
    else
      assert sorted == [sorted[0]] + sorted[1..];
      [sorted[0]] + InsertPath(p, sorted[1..])
  }

  /** Ordered by text, so that a status difference means a real change. */
  function SortPaths(ps: seq<Path>): (r: seq<Path>)
    ensures multiset(r) == multiset(ps)
  {
    if ps == [] then [] else
    assert ps == [ps[0]] + ps[1..];
    InsertPath(ps[0], SortPaths(ps[1..]))
  }

  /** The leaf paths of a partial object, in deterministic order. */
  function LeafPaths(fields: map<string, Json>, keys: MergeKeys): seq<Path>
  {
    SortPaths(LeavesBelow(Obj(fields), [], keys))
  }
}
