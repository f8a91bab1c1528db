/** Writing an object's leaf paths into an empty document, in any order, rebuilds the object. */
module Recompose {
  import opened Json
  import opened Text
  import opened FieldPath
  import opened ClientSideApply
  import opened Render
  import opened RenderLaws

  /**
   * No empty field names; a list with a merge key has it on every element, each value once; a list
   * without one holds no further non-empty list directly.
   */
  predicate Rebuildable(v: Json, prefix: Path, keys: MergeKeys)
    decreases v
  {
    match v
    case Obj(m) => forall k | k in m :: k in ClaimedNames(m, prefix) ==>
      k != "" && Rebuildable(m[k], prefix + [Field(k)], keys)
    case Arr(es) =>
      var key := MergeKeyAt(keys, prefix);
      if key != "" then
        (forall e | e in es :: e.Obj? && key in e.fields) &&
        (forall i, j | 0 <= i < j < |es| :: KeyText(es[i], key) != KeyText(es[j], key))
      else
        forall i | 0 <= i < |es| ::
          (es[i].Arr? ==> es[i].elems == []) && Rebuildable(es[i], prefix + [Index(i)], keys)
    case _ => true
  }

  /** The written paths that pass through a segment, below it, in order of writing. */
  function Below(written: seq<Path>, seg: Segment): seq<Path>
  {
    if written == [] then [] else
    var n := |written| - 1;
    var p := written[n];
    Below(written[..n], seg) + (if p != [] && p[0] == seg then [p[1..]] else [])
  }

  /** How many positions of a list have been reached. */
  function Reached(written: seq<Path>): nat
  {
    if written == [] then 0 else
    var n := |written| - 1;
    var p := written[n];
    var r := Reached(written[..n]);
    if p != [] && p[0].IsIndex() && p[0].i >= r then p[0].i + 1 else r
  }

  function Pick(es: seq<Json>, p: Path): Json
  {
    var idx := if p != [] && p[0].IsKeyMatch() then FindByKey(es, p[0].key, p[0].val) else -1;
    if idx < 0 then Null else es[idx]
  }

  /** The keyed elements written, in order of writing. */
  function Picked(es: seq<Json>, written: seq<Path>): (r: seq<Json>)
    ensures |r| == |written| && forall i | 0 <= i < |r| :: r[i] == Pick(es, written[i])
  {
    if written == [] then [] else
    var n := |written| - 1;
    Picked(es, written[..n]) + [Pick(es, written[n])]
  }

  /** The part of v that exists once the given leaves have been written. */
  ghost function Partial(v: Json, prefix: Path, keys: MergeKeys, written: seq<Path>): Json
    decreases v
  {
    match v
    case Obj(m) =>
      Obj(map k | k in m && Below(written, Field(k)) != [] ::
        Partial(m[k], prefix + [Field(k)], keys, Below(written, Field(k))))
    case Arr(es) =>
      if es == [] then v
      else if MergeKeyAt(keys, prefix) != "" then Arr(Picked(es, written))
      else Arr(seq(Reached(written), i requires 0 <= i < Reached(written) =>
        if i < |es| && Below(written, Index(i)) != [] then
          Partial(es[i], prefix + [Index(i)], keys, Below(written, Index(i)))
        else EMPTY))
    case _ => v
  }

  lemma {:induction false} BelowSnoc(written: seq<Path>, p: Path, seg: Segment)
    ensures Below(written + [p], seg) == Below(written, seg) + (if p != [] && p[0] == seg then [p[1..]] else [])
    ensures Reached(written + [p]) ==
      if p != [] && p[0].IsIndex() && p[0].i >= Reached(written) then p[0].i + 1 else Reached(written)
  {
    assert (written + [p])[..|written|] == written;
  }

  lemma {:induction false} BelowMember(written: seq<Path>, seg: Segment, r: Path)
    ensures r in Below(written, seg) <==> [seg] + r in written
    decreases |written|
  {
    if written != [] {
      var n := |written| - 1;
      BelowMember(written[..n], seg, r);
      assert written == written[..n] + [written[n]];
      var p := written[n];
      if p == [seg] + r { assert p[0] == seg && p[1..] == r; }
      if p != [] && p[0] == seg && p[1..] == r { assert p == [seg] + r; }
    }
  }

  ghost predicate AreLeaves(v: Json, prefix: Path, keys: MergeKeys, written: seq<Path>)
  {
    forall p | p in written :: p in LeavesBelow(v, prefix, keys)
  }

  /** The leaves below a segment are leaves of the child it selects. */
  lemma {:induction false} LeavesOfChild(v: Json, prefix: Path, keys: MergeKeys, written: seq<Path>, seg: Segment)
    requires AreLeaves(v, prefix, keys, written)
    ensures v.Obj? && seg.Field? && Below(written, seg) != [] ==>
      seg.name in ClaimedNames(v.fields, prefix) && AreLeaves(v.fields[seg.name], prefix + [seg], keys, Below(written, seg))
    ensures v.Arr? && seg.IsIndex() && Below(written, seg) != [] ==>
      seg.i < |v.elems| && AreLeaves(v.elems[seg.i], prefix + [seg], keys, Below(written, seg))
  {
    forall r | r in Below(written, seg)
      ensures v.Obj? && seg.Field? ==> seg.name in ClaimedNames(v.fields, prefix) && r in LeavesBelow(v.fields[seg.name], prefix + [seg], keys)
      ensures v.Arr? && seg.IsIndex() ==> seg.i < |v.elems| && r in LeavesBelow(v.elems[seg.i], prefix + [seg], keys)
    {
      BelowMember(written, seg, r);
      LeafStep(v, prefix, keys, [seg] + r);
      assert ([seg] + r)[1..] == r;
    }
    if Below(written, seg) != [] { assert Below(written, seg)[0] in Below(written, seg); }
  }

  /** Nothing written yet is the empty container the first write creates. */
  lemma {:induction false} PartialOfNothing(v: Json, prefix: Path, keys: MergeKeys, p: Path)
    requires p in LeavesBelow(v, prefix, keys) && p != [] && (p[0].IsField() || p[0].IsListSegment())
    ensures Partial(v, prefix, keys, []) == EmptyFor(p[0])
  {
    LeafStep(v, prefix, keys, p);
  }

  /** A leaf that ends here is the whole value. */
  lemma {:induction false} PartialOfLeaf(v: Json, prefix: Path, keys: MergeKeys, written: seq<Path>)
    requires [] in LeavesBelow(v, prefix, keys)
    ensures Partial(v, prefix, keys, written) == v
  {
    LeafStep(v, prefix, keys, []);
  }

  ghost predicate Steps(v: Json, prefix: Path, keys: MergeKeys, written: seq<Path>, p: Path)
    requires p != []
  {
    Get(v, p).Some? &&
    SetAt(Partial(v, prefix, keys, written), p, Get(v, p).value) == Edit(Partial(v, prefix, keys, written + [p]), true)
  }

  lemma {:induction false} SetField(m: map<string, Json>, p: Path, x: Json, t: Json)
    requires |p| > 1 && p[0].IsField()
    requires SetAt(if p[0].name in m then OrEmpty(m[p[0].name], p[1]) else EmptyFor(p[1]), p[1..], x) == Edit(t, true)
    ensures SetAt(Obj(m), p, x) == Edit(Obj(m[p[0].name := t]), true)
  {}

  lemma {:induction false} SetElement(l: seq<Json>, p: Path, x: Json, t: Json)
    requires |p| > 1 && p[0].IsIndex()
    requires SetAt(OrEmpty(Padded(l, p[0].i)[p[0].i], p[1]), p[1..], x) == Edit(t, true)
    ensures SetAt(Arr(l), p, x) == Edit(Arr(Padded(l, p[0].i)[p[0].i := t]), true)
  {}

  /** One field of a partial object. */
  lemma {:induction false} PartialFieldAt(v: Json, prefix: Path, keys: MergeKeys, written: seq<Path>, k: string)
    requires v.Obj?
    ensures var fields := Partial(v, prefix, keys, written).fields;
      && (k in fields <==> k in v.fields && Below(written, Field(k)) != [])
      && (k in fields ==> fields[k] == Partial(v.fields[k], prefix + [Field(k)], keys, Below(written, Field(k))))
  {}

  lemma {:induction false} FieldPartialAt(v: Json, prefix: Path, keys: MergeKeys, written: seq<Path>, p: Path, k: string)
    requires v.Obj? && p != [] && p[0].Field? && p[0].name in v.fields
    ensures var child := Partial(v.fields[p[0].name], prefix + [p[0]], keys, Below(written, p[0]) + [p[1..]]);
      var before := Partial(v, prefix, keys, written).fields;
      var after := Partial(v, prefix, keys, written + [p]).fields;
      && (k in after <==> k in before || k == p[0].name)
      && (k in after ==> after[k] == if k == p[0].name then child else before[k])
  {
    PartialFieldAt(v, prefix, keys, written, k);
    PartialFieldAt(v, prefix, keys, written + [p], k);
    BelowSnoc(written, p, Field(k));
    assert Below(written, Field(k)) + [] == Below(written, Field(k));
  }

  lemma {:induction false} FieldPartial(v: Json, prefix: Path, keys: MergeKeys, written: seq<Path>, p: Path)
    requires v.Obj? && p != [] && p[0].Field? && p[0].name in v.fields
    ensures var child := Partial(v.fields[p[0].name], prefix + [p[0]], keys, Below(written, p[0]) + [p[1..]]);
      Partial(v, prefix, keys, written + [p]) == Obj(Partial(v, prefix, keys, written).fields[p[0].name := child])
  {
    var child := Partial(v.fields[p[0].name], prefix + [p[0]], keys, Below(written, p[0]) + [p[1..]]);
    var before := Partial(v, prefix, keys, written).fields;
    var after := Partial(v, prefix, keys, written + [p]).fields;
    FieldsAgree(before, after, p[0].name, child) by {
      forall k: string
        ensures k in after <==> k in before || k == p[0].name
        ensures k in after ==> after[k] == if k == p[0].name then child else before[k]
      {
        FieldPartialAt(v, prefix, keys, written, p, k);
      }
    }
  }

  lemma {:induction false} FieldsAgree(before: map<string, Json>, after: map<string, Json>, name: string, child: Json)
    requires forall k: string :: k in after <==> k in before || k == name
    requires forall k: string :: k in after ==> after[k] == if k == name then child else before[k]
    ensures after == before[name := child]
  {}

  lemma {:induction false} FieldStep(v: Json, prefix: Path, keys: MergeKeys, written: seq<Path>, p: Path)
    requires v.Obj? && p != [] && p[0].IsField() && p[0].name in v.fields
    requires p[1..] in LeavesBelow(v.fields[p[0].name], prefix + [p[0]], keys)
    requires |p| > 1 ==> p[1].IsField() || p[1].IsListSegment()
    requires |p| > 1 ==> Steps(v.fields[p[0].name], prefix + [p[0]], keys, Below(written, p[0]), p[1..])
    ensures Steps(v, prefix, keys, written, p)
  {
    var seg := p[0];
    var child := v.fields[seg.name];
    var before := Partial(v, prefix, keys, written).fields;
    FieldPartial(v, prefix, keys, written, p);
    if |p| == 1 {
      assert p[1..] == [];
      PartialOfLeaf(child, prefix + [seg], keys, Below(written, seg) + [p[1..]]);
    } else {
      PartialHere(v, prefix, keys, written, p);
      SetField(before, p, Get(v, p).value, Partial(child, prefix + [seg], keys, Below(written, seg) + [p[1..]]));
    }
  }

  /** The child a write descends into is the partial child. */
  lemma {:induction false} PartialHere(v: Json, prefix: Path, keys: MergeKeys, written: seq<Path>, p: Path)
    requires v.Obj? && |p| > 1 && p[0].IsField() && p[0].name in v.fields && (p[1].IsField() || p[1].IsListSegment())
    requires p[1..] in LeavesBelow(v.fields[p[0].name], prefix + [p[0]], keys)
    ensures var before := Partial(v, prefix, keys, written).fields;
      Partial(v.fields[p[0].name], prefix + [p[0]], keys, Below(written, p[0])) ==
      if p[0].name in before then OrEmpty(before[p[0].name], p[1]) else EmptyFor(p[1])
  {
    var child := v.fields[p[0].name];
    LeafStep(child, prefix + [p[0]], keys, p[1..]);
    assert p[0] == Field(p[0].name);
    if Below(written, p[0]) == [] { PartialOfNothing(child, prefix + [p[0]], keys, p[1..]); }
  }

  lemma {:induction false} LeafNext(v: Json, prefix: Path, keys: MergeKeys, p: Path)
    requires p in LeavesBelow(v, prefix, keys) && p != [] && Rebuildable(v, prefix, keys)
    ensures p[0].IsField() || p[0].IsListSegment()
  {
    LeafStep(v, prefix, keys, p);
  }

  /** The element a position holds in a partial list. */
  ghost function PartialElement(v: Json, prefix: Path, keys: MergeKeys, written: seq<Path>, i: nat): Json
    requires v.Arr?
  {
    if i < |v.elems| && Below(written, Index(i)) != [] then
      Partial(v.elems[i], prefix + [Index(i)], keys, Below(written, Index(i)))
    else EMPTY
  }

  lemma {:induction false} PartialList(v: Json, prefix: Path, keys: MergeKeys, written: seq<Path>)
    requires v.Arr? && v.elems != [] && MergeKeyAt(keys, prefix) == ""
    ensures Partial(v, prefix, keys, written) ==
      Arr(seq(Reached(written), i requires 0 <= i < Reached(written) => PartialElement(v, prefix, keys, written, i)))
  {
    assert Partial(v, prefix, keys, written).elems ==
      seq(Reached(written), i requires 0 <= i < Reached(written) => PartialElement(v, prefix, keys, written, i));
  }

  lemma {:induction false} PaddedPartial(v: Json, prefix: Path, keys: MergeKeys, written: seq<Path>, p: Path)
    requires v.Arr? && v.elems != [] && MergeKeyAt(keys, prefix) == "" && p != [] && p[0].IsIndex() && p[0].i < |v.elems|
    ensures var l := Partial(v, prefix, keys, written).elems;
      var child := Partial(v.elems[p[0].i], prefix + [p[0]], keys, Below(written, p[0]) + [p[1..]]);
      && Padded(l, p[0].i)[p[0].i] == PartialElement(v, prefix, keys, written, p[0].i)
      && Partial(v, prefix, keys, written + [p]) == Arr(Padded(l, p[0].i)[p[0].i := child])
  {
    var i := p[0].i;
    assert p[0] == Index(i);
    PartialList(v, prefix, keys, written);
    PartialList(v, prefix, keys, written + [p]);
    BelowSnoc(written, p, p[0]);
    if Below(written, p[0]) != [] { ReachedMember(written, p[0]); }
    var l := Partial(v, prefix, keys, written).elems;
    var l' := Partial(v, prefix, keys, written + [p]).elems;
    var child := Partial(v.elems[i], prefix + [p[0]], keys, Below(written, p[0]) + [p[1..]]);
    forall j: nat | j < |l'| && j != i ensures PartialElement(v, prefix, keys, written + [p], j) == PartialElement(v, prefix, keys, written, j) {
      BelowSnoc(written, p, Index(j));
      assert Below(written, Index(j)) + [] == Below(written, Index(j));
    }
    forall j: nat | j < |l'| && |l| <= j ensures PartialElement(v, prefix, keys, written, j) == EMPTY {
      if Below(written, Index(j)) != [] { ReachedMember(written, Index(j)); }
    }
    assert l' == Padded(l, i)[i := child];
  }

  lemma {:induction false} IndexStep(v: Json, prefix: Path, keys: MergeKeys, written: seq<Path>, p: Path)
    requires v.Arr? && v.elems != [] && MergeKeyAt(keys, prefix) == "" && p != [] && p[0].IsIndex() && p[0].i < |v.elems|
    requires v.elems[p[0].i].Arr? ==> v.elems[p[0].i].elems == []
    requires p[1..] in LeavesBelow(v.elems[p[0].i], prefix + [p[0]], keys)
    requires |p| > 1 ==> p[1].IsField() || p[1].IsListSegment()
    requires |p| > 1 ==> Steps(v.elems[p[0].i], prefix + [p[0]], keys, Below(written, p[0]), p[1..])
    ensures Steps(v, prefix, keys, written, p)
  {
    var seg := p[0];
    var child := v.elems[seg.i];
    PaddedPartial(v, prefix, keys, written, p);
    var l := Partial(v, prefix, keys, written).elems;
    if |p| == 1 {
      assert p[1..] == [];
      PartialOfLeaf(child, prefix + [seg], keys, Below(written, seg) + [p[1..]]);
    } else {
      LeafStep(child, prefix + [seg], keys, p[1..]);
      assert seg == Index(seg.i) && child.Obj?;
      if Below(written, seg) == [] { PartialOfNothing(child, prefix + [seg], keys, p[1..]); }
      SetElement(l, p, Get(v, p).value, Partial(child, prefix + [seg], keys, Below(written, seg) + [p[1..]]));
    }
  }

  lemma {:induction false} ReachedMember(written: seq<Path>, seg: Segment)
    requires seg.IsIndex() && Below(written, seg) != []
    ensures seg.i < Reached(written)
    decreases |written|
  {
    var n := |written| - 1;
    if Below(written[..n], seg) != [] { ReachedMember(written[..n], seg); }
  }

  ghost predicate KeyedPaths(es: seq<Json>, key: string, written: seq<Path>)
  {
    forall p: Path | p in written :: |p| == 1 && p[0].IsKeyMatch() && p[0].key == key && FindByKey(es, key, p[0].val) >= 0
  }

  /** A key not yet written is not among the elements written. */
  lemma {:induction false} PickedLacks(es: seq<Json>, key: string, val: string, written: seq<Path>)
    requires KeyedPaths(es, key, written) && [KeyMatch(key, val)] !in written
    ensures forall e | e in Picked(es, written) :: !Matches(e, key, val)
    decreases |written|
  {
    if written != [] {
      var n := |written| - 1;
      var p := written[n];
      assert p in written;
      PickedLacks(es, key, val, written[..n]);
      assert p == [KeyMatch(key, p[0].val)];
      var e := es[FindByKey(es, p[0].key, p[0].val)];
      assert Matches(e, key, p[0].val);
    }
  }

  lemma {:induction false} SetKeyed(l: seq<Json>, seg: Segment, e: Json)
    requires seg.IsKeyMatch() && forall x | x in l :: !Matches(x, seg.key, seg.val)
    ensures SetAt(Arr(l), [seg], e) == Edit(Arr(l + [e]), true)
  {
    assert FindByKey(l, seg.key, seg.val) < 0;
    assert Grown(l, seg)[|l| := e] == l + [e];
  }

  lemma {:induction false} PickedSnoc(es: seq<Json>, written: seq<Path>, p: Path)
    ensures Picked(es, written + [p]) == Picked(es, written) + [Pick(es, p)]
  {
    assert (written + [p])[..|written|] == written;
  }

  lemma {:induction false} GetKeyed(v: Json, key: string, p: Path)
    requires v.Arr? && KeyedPaths(v.elems, key, [p])
    ensures p == [KeyMatch(key, p[0].val)]
    ensures Get(v, p) == Some(Pick(v.elems, p))
  {
    assert p in [p] && p[1..] == [];
  }

  lemma {:induction false} KeyStep(v: Json, prefix: Path, keys: MergeKeys, written: seq<Path>, p: Path)
    requires v.Arr? && v.elems != [] && MergeKeyAt(keys, prefix) != "" && p != []
    requires KeyedPaths(v.elems, MergeKeyAt(keys, prefix), written) && p !in written
    requires KeyedPaths(v.elems, MergeKeyAt(keys, prefix), [p])
    ensures Steps(v, prefix, keys, written, p)
  {
    var key := MergeKeyAt(keys, prefix);
    GetKeyed(v, key, p);
    assert p[0].IsKeyMatch() && p == [p[0]];
    PickedLacks(v.elems, key, p[0].val, written);
    PickedSnoc(v.elems, written, p);
    SetKeyed(Picked(v.elems, written), p[0], Pick(v.elems, p));
  }

  lemma {:induction false} KeyedLeaf(v: Json, prefix: Path, keys: MergeKeys, p: Path)
    requires v.Arr? && Rebuildable(v, prefix, keys) && MergeKeyAt(keys, prefix) != ""
    requires p in LeavesBelow(v, prefix, keys) && p != []
    ensures KeyedPaths(v.elems, MergeKeyAt(keys, prefix), [p])
  {
    LeafStep(v, prefix, keys, p);
    assert forall i | 0 <= i < |v.elems| :: v.elems[i] in v.elems;
  }

  lemma {:induction false} KeyedPathsOf(v: Json, prefix: Path, keys: MergeKeys, written: seq<Path>)
    requires v.Arr? && v.elems != [] && MergeKeyAt(keys, prefix) != "" && Rebuildable(v, prefix, keys)
    requires AreLeaves(v, prefix, keys, written)
    ensures KeyedPaths(v.elems, MergeKeyAt(keys, prefix), written)
  {
    forall p: Path | p in written
      ensures |p| == 1 && p[0].IsKeyMatch() && p[0].key == MergeKeyAt(keys, prefix) && FindByKey(v.elems, MergeKeyAt(keys, prefix), p[0].val) >= 0
    {
      LeafStep(v, prefix, keys, p);
      assert p != [];
      KeyedLeaf(v, prefix, keys, p);
      assert p in [p];
    }
  }

  /** Writing one more leaf into a partial object gives the partial object with that leaf. */
  lemma {:induction false} PartialStep(v: Json, prefix: Path, keys: MergeKeys, written: seq<Path>, p: Path)
    requires Rebuildable(v, prefix, keys) && AreLeaves(v, prefix, keys, written)
    requires p in LeavesBelow(v, prefix, keys) && p !in written && p != []
    ensures Steps(v, prefix, keys, written, p)
    decreases |p|
  {
    LeafStep(v, prefix, keys, p);
    if v.Arr? && MergeKeyAt(keys, prefix) != "" {
      LeafNotHere(v, prefix, keys, p, p);
      KeyedLeaf(v, prefix, keys, p);
      KeyedPathsOf(v, prefix, keys, written);
      KeyStep(v, prefix, keys, written, p);
    } else {
      ChildStep(v, prefix, keys, written, p);
      if |p| > 1 {
        var child := if v.Obj? then v.fields[p[0].name] else v.elems[p[0].i];
        PartialStep(child, prefix + [p[0]], keys, Below(written, p[0]), p[1..]);
      }
      if v.Obj? {
        FieldStep(v, prefix, keys, written, p);
      } else {
        IndexStep(v, prefix, keys, written, p);
      }
    }
  }

  lemma {:induction false} LeafNotHere(v: Json, prefix: Path, keys: MergeKeys, p: Path, q: Path)
    requires p in LeavesBelow(v, prefix, keys) && q in LeavesBelow(v, prefix, keys) && p != []
    ensures q != []
  {
    LeafStep(v, prefix, keys, p);
    LeafStep(v, prefix, keys, q);
  }

  /** The induction hypothesis applies to the child a leaf passes through. */
  ghost predicate ChildReady(child: Json, prefix: Path, keys: MergeKeys, written: seq<Path>, p: Path)
  {
    && Rebuildable(child, prefix, keys)
    && AreLeaves(child, prefix, keys, written)
    && p in LeavesBelow(child, prefix, keys)
    && p !in written
    && (p != [] ==> p[0].IsField() || p[0].IsListSegment())
  }

  lemma {:induction false} ChildStep(v: Json, prefix: Path, keys: MergeKeys, written: seq<Path>, p: Path)
    requires Rebuildable(v, prefix, keys) && AreLeaves(v, prefix, keys, written)
    requires p in LeavesBelow(v, prefix, keys) && p !in written && p != [] && !(v.Arr? && MergeKeyAt(keys, prefix) != "")
    ensures v.Obj? || v.Arr?
    ensures v.Obj? ==> p[0].IsField() && p[0].name in v.fields
    ensures v.Obj? ==> ChildReady(v.fields[p[0].name], prefix + [p[0]], keys, Below(written, p[0]), p[1..])
    ensures v.Arr? ==> p[0].IsIndex() && p[0].i < |v.elems| && (v.elems[p[0].i].Arr? ==> v.elems[p[0].i].elems == [])
    ensures v.Arr? ==> ChildReady(v.elems[p[0].i], prefix + [p[0]], keys, Below(written, p[0]), p[1..])
  {
    LeafStep(v, prefix, keys, p);
    if v.Obj? {
      FieldChild(v, prefix, keys, written, p);
    } else {
      IndexChild(v, prefix, keys, written, p);
    }
  }

  lemma {:induction false} FieldChild(v: Json, prefix: Path, keys: MergeKeys, written: seq<Path>, p: Path)
    requires v.Obj? && Rebuildable(v, prefix, keys) && AreLeaves(v, prefix, keys, written)
    requires p in LeavesBelow(v, prefix, keys) && p !in written && p != []
    ensures p[0].IsField() && p[0].name in v.fields
    ensures ChildReady(v.fields[p[0].name], prefix + [p[0]], keys, Below(written, p[0]), p[1..])
  {
    LeafStep(v, prefix, keys, p);
    assert p[0] == Field(p[0].name) && p == [p[0]] + p[1..];
    BelowMember(written, p[0], p[1..]);
    if Below(written, p[0]) != [] { LeavesOfChild(v, prefix, keys, written, p[0]); }
    if |p| > 1 { LeafNext(v.fields[p[0].name], prefix + [p[0]], keys, p[1..]); }
  }

  lemma {:induction false} IndexChild(v: Json, prefix: Path, keys: MergeKeys, written: seq<Path>, p: Path)
    requires v.Arr? && Rebuildable(v, prefix, keys) && AreLeaves(v, prefix, keys, written) && MergeKeyAt(keys, prefix) == ""
    requires p in LeavesBelow(v, prefix, keys) && p !in written && p != []
    ensures p[0].IsIndex() && p[0].i < |v.elems| && (v.elems[p[0].i].Arr? ==> v.elems[p[0].i].elems == [])
    ensures ChildReady(v.elems[p[0].i], prefix + [p[0]], keys, Below(written, p[0]), p[1..])
  {
    LeafStep(v, prefix, keys, p);
    assert !p[0].IsKeyMatch();
    assert p[0] == Index(p[0].i) && p == [p[0]] + p[1..];
    BelowMember(written, p[0], p[1..]);
    if Below(written, p[0]) != [] { LeavesOfChild(v, prefix, keys, written, p[0]); }
    if |p| > 1 { LeafNext(v.elems[p[0].i], prefix + [p[0]], keys, p[1..]); }
  }

  // ---- The whole object ----

  /** Equal, except that a keyed list may hold its elements in another order; identity fields are not claimed. */
  predicate Rebuilt(a: Json, v: Json, prefix: Path, keys: MergeKeys)
    decreases v
  {
    match v
    case Obj(m) =>
      a.Obj? && a.fields.Keys == ClaimedNames(m, prefix) &&
      forall k | k in m :: k in a.fields ==> Rebuilt(a.fields[k], m[k], prefix + [Field(k)], keys)
    case Arr(es) =>
      if es != [] && MergeKeyAt(keys, prefix) != "" then a.Arr? && multiset(a.elems) == multiset(es)
      else a.Arr? && |a.elems| == |es| && forall i | 0 <= i < |es| :: Rebuilt(a.elems[i], es[i], prefix + [Index(i)], keys)
    case _ => a == v
  }

  /** Without merge keys, rebuilt means equal up to the identity fields. */
  lemma {:induction false} RebuiltIsEqual(a: Json, v: Json, prefix: Path)
    requires Rebuilt(a, v, prefix, map[])
    ensures a == if v.Obj? && prefix == [] then Obj(v.fields - {"apiVersion", "kind"}) else v
    decreases v
  {
    match v
    case Obj(m) =>
      forall k | k in a.fields ensures a.fields[k] == m[k] {
        RebuiltIsEqual(a.fields[k], m[k], prefix + [Field(k)]);
      }
      assert a.fields == if prefix == [] then m - {"apiVersion", "kind"} else m;
    case Arr(es) =>
      forall i | 0 <= i < |es| ensures a.elems[i] == es[i] {
        RebuiltIsEqual(a.elems[i], es[i], prefix + [Index(i)]);
      }
      assert a.elems == es;
    case _ =>
  }

  /** Below the root there is always something to claim. */
  lemma {:induction false} SomeLeaf(v: Json, prefix: Path, keys: MergeKeys) returns (p: Path)
    requires prefix != []
    ensures p in LeavesBelow(v, prefix, keys)
    decreases v
  {
    if v.Obj? && v.fields != map[] {
      var k :| k in v.fields;
      var r := SomeLeaf(v.fields[k], prefix + [Field(k)], keys);
      p := [Field(k)] + r;
      FieldLeaf(v, prefix, keys, k, r);
    } else if v.Arr? && v.elems != [] {
      p := ElementLeaf(v, 0, prefix, keys);
    } else {
      p := [];
    }
  }

  lemma {:induction false} FieldLeaf(v: Json, prefix: Path, keys: MergeKeys, k: string, r: Path)
    requires v.Obj? && k in ClaimedNames(v.fields, prefix) && r in LeavesBelow(v.fields[k], prefix + [Field(k)], keys)
    ensures [Field(k)] + r in LeavesBelow(v, prefix, keys)
  {
    assert ([Field(k)] + r)[1..] == r;
    FieldsMember(v, SortedKeys(ClaimedNames(v.fields, prefix)), prefix, keys, [Field(k)] + r);
  }

  lemma {:induction false} ElementLeaf(v: Json, i: nat, prefix: Path, keys: MergeKeys) returns (p: Path)
    requires v.Arr? && i < |v.elems|
    ensures p in LeavesBelow(v, prefix, keys) && p != [] && p[0] == ElementSegment(v.elems[i], i, MergeKeyAt(keys, prefix))
    decreases v, 0
  {
    var seg := ElementSegment(v.elems[i], i, MergeKeyAt(keys, prefix));
    if seg.IsKeyMatch() {
      p := [seg];
    } else {
      var r := SomeLeaf(v.elems[i], prefix + [seg], keys);
      p := [seg] + r;
      assert p[1..] == r;
      UnderMember(seg, LeavesBelow(v.elems[i], prefix + [seg], keys), p);
    }
    assert IsElementLeaf(v, i, prefix, keys, p);
    ElementsMember(v, 0, prefix, keys, p);
  }

  /** Exactly the leaves, each once. */
  ghost predicate AllLeaves(v: Json, prefix: Path, keys: MergeKeys, written: seq<Path>)
  {
    Distinct(written) && forall p :: p in written <==> p in LeavesBelow(v, prefix, keys)
  }

  lemma {:induction false} BelowDistinct(written: seq<Path>, seg: Segment)
    requires Distinct(written)
    ensures Distinct(Below(written, seg))
    decreases |written|
  {
    if written != [] {
      var n := |written| - 1;
      BelowDistinct(written[..n], seg);
      var p := written[n];
      if p != [] && p[0] == seg {
        BelowMember(written[..n], seg, p[1..]);
        assert p == [seg] + p[1..];
        assert forall i | 0 <= i < n :: written[..n][i] != p;
      }
    }
  }

  lemma {:induction false} FieldLeaves(v: Json, prefix: Path, keys: MergeKeys, written: seq<Path>, k: string)
    requires v.Obj? && AllLeaves(v, prefix, keys, written) && k in ClaimedNames(v.fields, prefix)
    ensures AllLeaves(v.fields[k], prefix + [Field(k)], keys, Below(written, Field(k)))
    ensures Below(written, Field(k)) != []
  {
    BelowDistinct(written, Field(k));
    forall r ensures r in Below(written, Field(k)) <==> r in LeavesBelow(v.fields[k], prefix + [Field(k)], keys) {
      BelowMember(written, Field(k), r);
      FieldsMember(v, SortedKeys(ClaimedNames(v.fields, prefix)), prefix, keys, [Field(k)] + r);
      assert ([Field(k)] + r)[1..] == r;
    }
    var r := SomeLeaf(v.fields[k], prefix + [Field(k)], keys);
    assert r in Below(written, Field(k));
  }

  lemma {:induction false} IndexLeaves(v: Json, prefix: Path, keys: MergeKeys, written: seq<Path>, i: nat)
    requires v.Arr? && AllLeaves(v, prefix, keys, written) && i < |v.elems| && MergeKeyAt(keys, prefix) == ""
    ensures AllLeaves(v.elems[i], prefix + [Index(i)], keys, Below(written, Index(i)))
    ensures Below(written, Index(i)) != []
  {
    var seg := Index(i);
    BelowDistinct(written, seg);
    forall r ensures r in Below(written, seg) <==> r in LeavesBelow(v.elems[i], prefix + [seg], keys) {
      var p := [seg] + r;
      assert p[1..] == r;
      BelowMember(written, seg, r);
      if p in written { LeafStep(v, prefix, keys, p); }
      if r in LeavesBelow(v.elems[i], prefix + [seg], keys) {
        UnderMember(seg, LeavesBelow(v.elems[i], prefix + [seg], keys), p);
        assert IsElementLeaf(v, i, prefix, keys, p);
        ElementsMember(v, 0, prefix, keys, p);
      }
    }
    var r := SomeLeaf(v.elems[i], prefix + [seg], keys);
    assert r in Below(written, seg);
  }

  lemma {:induction false} ReachedBounded(written: seq<Path>, n: nat)
    requires forall p: Path | p in written :: p != [] && p[0].IsIndex() ==> p[0].i < n
    ensures Reached(written) <= n
    decreases |written|
  {
    if written != [] {
      assert written[|written| - 1] in written;
      ReachedBounded(written[..|written| - 1], n);
    }
  }

  lemma {:induction false} DistinctCount<T>(s: seq<T>, x: T)
    ensures Distinct(s) ==> multiset(s)[x] == if x in s then 1 else 0
    ensures multiset(s)[x] > 0 <==> x in s
    decreases |s|
  {
    if s != [] {
      var n := |s| - 1;
      assert s == s[..n] + [s[n]];
      DistinctCount(s[..n], x);
      if Distinct(s) && x == s[n] {
        assert forall i | 0 <= i < n :: s[..n][i] == s[i];
      }
    }
  }

  lemma {:induction false} SameMembersSameBag<T>(a: seq<T>, b: seq<T>)
    requires Distinct(a) && Distinct(b) && forall x :: x in a <==> x in b
    ensures multiset(a) == multiset(b)
  {
    forall x ensures multiset(a)[x] == multiset(b)[x] {
      DistinctCount(a, x);
      DistinctCount(b, x);
    }
  }

  lemma {:induction false} PickedAt(es: seq<Json>, key: string, written: seq<Path>, i: nat)
    requires KeyedPaths(es, key, written) && i < |written|
    ensures written[i] == [KeyMatch(key, written[i][0].val)]
    ensures Picked(es, written)[i] == es[FindByKey(es, key, written[i][0].val)]
    ensures Matches(Picked(es, written)[i], key, written[i][0].val)
  {
    assert written[i] in written;
  }

  lemma {:induction false} PickedDistinct(es: seq<Json>, key: string, written: seq<Path>)
    requires KeyedPaths(es, key, written) && Distinct(written)
    ensures Distinct(Picked(es, written)) && |Picked(es, written)| == |written|
  {
    var got := Picked(es, written);
    forall i, j | 0 <= i < j < |got| ensures got[i] != got[j] {
      PickedAt(es, key, written, i);
      PickedAt(es, key, written, j);
    }
  }

  lemma {:induction false} KeyedElementsDistinct(es: seq<Json>, key: string, i: nat)
    requires (forall e | e in es :: e.Obj? && key in e.fields) && i < |es|
    requires forall i, j | 0 <= i < j < |es| :: KeyText(es[i], key) != KeyText(es[j], key)
    ensures Distinct(es)
    ensures FindByKey(es, key, KeyText(es[i], key)) == i
  {
    assert forall i | 0 <= i < |es| :: es[i] in es;
    var at := FindByKey(es, key, KeyText(es[i], key));
    assert Matches(es[i], key, KeyText(es[i], key));
  }

  /** All keyed elements, each written once, are the list up to order. */
  lemma {:induction false} KeyedRebuilt(v: Json, prefix: Path, keys: MergeKeys, written: seq<Path>)
    requires v.Arr? && v.elems != [] && MergeKeyAt(keys, prefix) != "" && Rebuildable(v, prefix, keys)
    requires AllLeaves(v, prefix, keys, written)
    ensures multiset(Picked(v.elems, written)) == multiset(v.elems)
  {
    var es := v.elems;
    var key := MergeKeyAt(keys, prefix);
    KeyedPathsOf(v, prefix, keys, written);
    PickedDistinct(es, key, written);
    KeyedElementsDistinct(es, key, 0);
    var got := Picked(es, written);
    forall e | e in got ensures e in es {
      var i :| 0 <= i < |got| && got[i] == e;
      PickedAt(es, key, written, i);
    }
    forall e | e in es ensures e in got {
      var i :| 0 <= i < |es| && es[i] == e;
      var p := ElementLeaf(v, i, prefix, keys);
      KeyedElementsDistinct(es, key, i);
      var j :| 0 <= j < |written| && written[j] == p;
      PickedAt(es, key, written, j);
      assert got[j] == e;
    }
    SameMembersSameBag(got, es);
  }

  /** With all leaves written the partial object is the object. */
  lemma {:induction false} PartialIsRebuilt(v: Json, prefix: Path, keys: MergeKeys, written: seq<Path>)
    requires Rebuildable(v, prefix, keys) && AllLeaves(v, prefix, keys, written)
    ensures Rebuilt(Partial(v, prefix, keys, written), v, prefix, keys)
    decreases v
  {
    match v
    case Obj(m) =>
      var got := Partial(v, prefix, keys, written).fields;
      forall k: string
        ensures k in got <==> k in ClaimedNames(m, prefix)
        ensures k in got ==> Rebuilt(got[k], m[k], prefix + [Field(k)], keys)
      {
        PartialFieldAt(v, prefix, keys, written, k);
        if k in ClaimedNames(m, prefix) {
          FieldLeaves(v, prefix, keys, written, k);
          PartialIsRebuilt(m[k], prefix + [Field(k)], keys, Below(written, Field(k)));
        }
        if k in got { LeavesOfChild(v, prefix, keys, written, Field(k)); }
      }
      assert got.Keys == ClaimedNames(m, prefix);
    case Arr(es) =>
      if es != [] {
        if MergeKeyAt(keys, prefix) != "" {
          KeyedRebuilt(v, prefix, keys, written);
        } else {
          IndexedRebuilt(v, prefix, keys, written);
          forall i: nat | i < |es| ensures Rebuilt(PartialElement(v, prefix, keys, written, i), es[i], prefix + [Index(i)], keys) {
            IndexLeaves(v, prefix, keys, written, i);
            PartialIsRebuilt(es[i], prefix + [Index(i)], keys, Below(written, Index(i)));
          }
        }
      }
    case _ =>
  }

  lemma {:induction false} IndexedRebuilt(v: Json, prefix: Path, keys: MergeKeys, written: seq<Path>)
    requires v.Arr? && v.elems != [] && MergeKeyAt(keys, prefix) == "" && AllLeaves(v, prefix, keys, written)
    ensures Partial(v, prefix, keys, written) ==
      Arr(seq(|v.elems|, i requires 0 <= i < |v.elems| => PartialElement(v, prefix, keys, written, i)))
  {
    PartialList(v, prefix, keys, written);
    forall p: Path | p in written && p != [] && p[0].IsIndex() ensures p[0].i < |v.elems| {
      LeafStep(v, prefix, keys, p);
    }
    ReachedBounded(written, |v.elems|);
    IndexLeaves(v, prefix, keys, written, |v.elems| - 1);
    ReachedMember(written, Index(|v.elems| - 1));
  }

  lemma {:induction false} SetAllFirst(doc: Json, obj: Json, paths: seq<Path>, doc': Json)
    requires paths != [] && paths[0] != [] && paths[0][0].IsField() && Get(obj, paths[0]).Some?
    requires SetAt(doc, paths[0], Get(obj, paths[0]).value) == Edit(doc', true)
    ensures SetAll(doc, obj, paths) == SetAll(doc', obj, paths[1..])
  {}

  ghost predicate Buildable(v: Json, keys: MergeKeys, all: seq<Path>)
  {
    v.Obj? && Rebuildable(v, [], keys) && AreLeaves(v, [], keys, all) && Distinct(all)
  }

  lemma {:induction false} NextLeaf(v: Json, keys: MergeKeys, written: seq<Path>, rest: seq<Path>)
    requires rest != [] && Buildable(v, keys, written + rest)
    ensures rest[0] != [] && rest[0][0].IsField() && Steps(v, [], keys, written, rest[0])
  {
    var p := rest[0];
    var all := written + rest;
    assert p == all[|written|] && p in all;
    assert forall q | q in written :: q in all;
    assert forall i | 0 <= i < |written| :: all[i] == written[i];
    RootIsNoLeaf(v.fields, keys);
    FieldChild(v, [], keys, written, p);
    PartialStep(v, [], keys, written, p);
  }

  ghost predicate Builds(v: Json, keys: MergeKeys, written: seq<Path>, rest: seq<Path>, all: seq<Path>)
  {
    SetAll(Partial(v, [], keys, written), v, rest) == Some(Partial(v, [], keys, all))
  }

  lemma {:induction false} BuildsStep(v: Json, keys: MergeKeys, written: seq<Path>, rest: seq<Path>, all: seq<Path>)
    requires rest != [] && rest[0] != [] && rest[0][0].IsField()
    requires Steps(v, [], keys, written, rest[0]) && Builds(v, keys, written + [rest[0]], rest[1..], all)
    ensures Builds(v, keys, written, rest, all)
  {
    SetAllFirst(Partial(v, [], keys, written), v, rest, Partial(v, [], keys, written + [rest[0]]));
  }

  lemma {:induction false} SetAllBuilds(v: Json, keys: MergeKeys, written: seq<Path>, rest: seq<Path>)
    requires Buildable(v, keys, written + rest)
    ensures Builds(v, keys, written, rest, written + rest)
    decreases |rest|
  {
    if rest == [] {
      assert written + rest == written;
    } else {
      assert written + rest == (written + [rest[0]]) + rest[1..];
      SetAllBuilds(v, keys, written + [rest[0]], rest[1..]);
      NextLeaf(v, keys, written, rest);
      BuildsStep(v, keys, written, rest, written + rest);
    }
  }

  /** No leaf is listed twice. */
  lemma {:induction false} LeavesDistinct(v: Json, prefix: Path, keys: MergeKeys)
    requires Rebuildable(v, prefix, keys)
    ensures Distinct(LeavesBelow(v, prefix, keys))
    decreases v, 1, 0
  {
    if v.Obj? && v.fields != map[] {
      FieldsDistinct(v, SortedKeys(ClaimedNames(v.fields, prefix)), prefix, keys);
    } else if v.Arr? && v.elems != [] {
      ElementsDistinct(v, 0, prefix, keys);
    }
  }

  lemma {:induction false} UnderDistinct(seg: Segment, ps: seq<Path>)
    requires Distinct(ps)
    ensures Distinct(Under(seg, ps))
  {
    forall i, j | 0 <= i < j < |ps| ensures Under(seg, ps)[i] != Under(seg, ps)[j] {
      assert ([seg] + ps[i])[1..] == ps[i] && ([seg] + ps[j])[1..] == ps[j];
    }
  }

  lemma {:induction false} DistinctConcat<T>(a: seq<T>, b: seq<T>)
    requires Distinct(a) && Distinct(b) && forall x | x in a :: x !in b
    ensures Distinct(a + b)
  {
    forall i, j | 0 <= i < j < |a + b| ensures (a + b)[i] != (a + b)[j] {
      if i < |a| <= j { assert a[i] in a && b[j - |a|] in b; }
    }
  }

  lemma {:induction false} FieldsDistinct(v: Json, names: seq<string>, prefix: Path, keys: MergeKeys)
    requires v.Obj? && Rebuildable(v, prefix, keys) && Distinct(names)
    requires forall k | k in names :: k in v.fields && k in ClaimedNames(v.fields, prefix)
    ensures Distinct(LeavesOfFields(v, names, prefix, keys))
    decreases v, 0, |names|
  {
    if names != [] {
      var seg := Field(names[0]);
      var below := LeavesBelow(v.fields[names[0]], prefix + [seg], keys);
      LeavesDistinct(v.fields[names[0]], prefix + [seg], keys);
      UnderDistinct(seg, below);
      FieldsDistinct(v, names[1..], prefix, keys);
      forall p | p in Under(seg, below) ensures p !in LeavesOfFields(v, names[1..], prefix, keys) {
        UnderMember(seg, below, p);
        FieldsMember(v, names[1..], prefix, keys, p);
      }
      DistinctConcat(Under(seg, below), LeavesOfFields(v, names[1..], prefix, keys));
    }
  }

  lemma {:induction false} LaterElementsDiffer(v: Json, i: nat, prefix: Path, keys: MergeKeys, p: Path)
    requires v.Arr? && Rebuildable(v, prefix, keys) && i < |v.elems| && p in LeavesOfElement(v, i, prefix, keys)
    ensures p !in LeavesOfElements(v, i + 1, prefix, keys)
  {
    assert forall j | 0 <= j < |v.elems| :: v.elems[j] in v.elems;
    ElementLeafStarts(v, i, prefix, keys, p);
    ElementsMember(v, i + 1, prefix, keys, p);
    if p in LeavesOfElements(v, i + 1, prefix, keys) {
      var j :| i + 1 <= j && IsElementLeaf(v, j, prefix, keys, p);
      ElementLeafStarts(v, j, prefix, keys, p);
    }
  }

  lemma {:induction false} ElementsDistinct(v: Json, i: nat, prefix: Path, keys: MergeKeys)
    requires v.Arr? && Rebuildable(v, prefix, keys) && i <= |v.elems|
    ensures Distinct(LeavesOfElements(v, i, prefix, keys))
    decreases v, 0, |v.elems| - i
  {
    if i < |v.elems| {
      var seg := ElementSegment(v.elems[i], i, MergeKeyAt(keys, prefix));
      var here := LeavesOfElement(v, i, prefix, keys);
      if !seg.IsKeyMatch() {
        assert v.elems[i] in v.elems;
        LeavesDistinct(v.elems[i], prefix + [seg], keys);
        UnderDistinct(seg, LeavesBelow(v.elems[i], prefix + [seg], keys));
      }
      ElementsDistinct(v, i + 1, prefix, keys);
      forall p | p in here ensures p !in LeavesOfElements(v, i + 1, prefix, keys) {
        LaterElementsDiffer(v, i, prefix, keys, p);
      }
      DistinctConcat(here, LeavesOfElements(v, i + 1, prefix, keys));
    }
  }

  lemma {:induction false} ElementLeafStarts(v: Json, i: nat, prefix: Path, keys: MergeKeys, p: Path)
    requires v.Arr? && i < |v.elems| && p in LeavesOfElement(v, i, prefix, keys)
    ensures p != [] && p[0] == ElementSegment(v.elems[i], i, MergeKeyAt(keys, prefix))
  {
    var seg := ElementSegment(v.elems[i], i, MergeKeyAt(keys, prefix));
    UnderMember(seg, LeavesBelow(v.elems[i], prefix + [seg], keys), p);
  }

  lemma {:induction false} SameBagSameMembers<T>(a: seq<T>, b: seq<T>)
    requires multiset(a) == multiset(b) && Distinct(b)
    ensures Distinct(a) && forall x :: x in a <==> x in b
  {
    forall x ensures x in a <==> x in b {
      DistinctCount(a, x);
      DistinctCount(b, x);
    }
    forall i, j | 0 <= i < j < |a| ensures a[i] != a[j] {
      if a[i] == a[j] {
        assert a == a[..j] + [a[j]] + a[j + 1..];
        assert a[..j][i] == a[j] && a[j] in multiset(a[..j]);
        DistinctCount(b, a[j]);
        assert false;
      }
    }
  }

  /**
   * Writing the leaf values into an empty document in any order, the sorted order included, rebuilds
   * the object without its identity fields: exactly where lists are addressed by position, and up to
   * element order where they are keyed.
   */
  lemma {:induction false} LeavesRebuild(fields: map<string, Json>, keys: MergeKeys, order: seq<Path>)
    requires Rebuildable(Obj(fields), [], keys) && multiset(order) == multiset(LeafPaths(fields, keys))
    ensures SetAll(EMPTY, Obj(fields), order).Some?
    ensures Rebuilt(SetAll(EMPTY, Obj(fields), order).value, Obj(fields), [], keys)
    ensures keys == map[] ==> SetAll(EMPTY, Obj(fields), order).value == Obj(fields - {"apiVersion", "kind"})
  {
    var v := Obj(fields);
    LeavesDistinct(v, [], keys);
    SameBagSameMembers(order, LeavesBelow(v, [], keys));
    OrderBuilds(v, keys, order);
    PartialIsRebuilt(v, [], keys, order);
    if keys == map[] { RebuiltIsEqual(Partial(v, [], keys, order), v, []); }
  }

  lemma {:induction false} OrderBuilds(v: Json, keys: MergeKeys, order: seq<Path>)
    requires v.Obj? && Rebuildable(v, [], keys) && AllLeaves(v, [], keys, order)
    ensures SetAll(EMPTY, v, order) == Some(Partial(v, [], keys, order))
  {
    assert [] + order == order;
    var nothing := Partial(v, [], keys, []);
    forall k: string ensures k !in nothing.fields {
      PartialFieldAt(v, [], keys, [], k);
    }
    assert nothing == EMPTY;
    SetAllBuilds(v, keys, [], order);
  }
}
