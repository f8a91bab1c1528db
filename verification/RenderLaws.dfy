/** The leaf paths of an object: which they are, that none covers another, and that claims over them fit the undo laws. */
module RenderLaws {
  import opened Json
  import opened Text
  import opened FieldPath
  import opened FieldLaws
  import opened PathText
  import opened ApplyLaws
  import opened Render

  // ---- Which paths are leaves ----

  lemma {:induction false} UnderMember(seg: Segment, ps: seq<Path>, p: Path)
    ensures p in Under(seg, ps) <==> p != [] && p[0] == seg && p[1..] in ps
  {
    if p in Under(seg, ps) {
      var i :| 0 <= i < |ps| && Under(seg, ps)[i] == p;
      assert p[1..] == ps[i];
    }
    if p != [] && p[0] == seg && p[1..] in ps {
      var i :| 0 <= i < |ps| && ps[i] == p[1..];
      assert Under(seg, ps)[i] == p;
    }
  }

  lemma {:induction false} FieldsMember(v: Json, names: seq<string>, prefix: Path, keys: MergeKeys, p: Path)
    requires v.Obj? && forall k | k in names :: k in v.fields
    ensures p in LeavesOfFields(v, names, prefix, keys) <==>
      p != [] && p[0].Field? && p[0].name in names && p[1..] in LeavesBelow(v.fields[p[0].name], prefix + [p[0]], keys)
    decreases |names|
  {
    if names != [] {
      assert names == [names[0]] + names[1..];
      UnderMember(Field(names[0]), LeavesBelow(v.fields[names[0]], prefix + [Field(names[0])], keys), p);
      FieldsMember(v, names[1..], prefix, keys, p);
    }
  }

  ghost predicate IsElementLeaf(v: Json, i: int, prefix: Path, keys: MergeKeys, p: Path)
    requires v.Arr?
  {
    0 <= i < |v.elems| && p in LeavesOfElement(v, i, prefix, keys)
  }

  lemma {:induction false} ElementsMember(v: Json, i: nat, prefix: Path, keys: MergeKeys, p: Path)
    requires v.Arr? && i <= |v.elems|
    ensures p in LeavesOfElements(v, i, prefix, keys) ==> exists j :: i <= j && IsElementLeaf(v, j, prefix, keys, p)
    ensures (exists j :: i <= j && IsElementLeaf(v, j, prefix, keys, p)) ==> p in LeavesOfElements(v, i, prefix, keys)
    decreases |v.elems| - i
  {
    if i < |v.elems| {
      ElementsMember(v, i + 1, prefix, keys, p);
      var rest := LeavesOfElements(v, i + 1, prefix, keys);
      assert p in LeavesOfElements(v, i, prefix, keys) <==> IsElementLeaf(v, i, prefix, keys, p) || p in rest;
      if p in rest {
        var j :| i + 1 <= j && IsElementLeaf(v, j, prefix, keys, p);
        assert i <= j;
      }
    }
  }

  /** A leaf of a container is one of its keyed elements, or a leaf of one of its children. */
  lemma {:induction false} LeafStep(v: Json, prefix: Path, keys: MergeKeys, p: Path)
    requires p in LeavesBelow(v, prefix, keys)
    ensures p == [] ==> (v.Obj? ==> v == EMPTY) && (v.Arr? ==> v.elems == [])
    ensures p != [] ==> v.Obj? || v.Arr?
    ensures p != [] && v.Obj? ==>
      p[0].Field? && p[0].name in ClaimedNames(v.fields, prefix)
      && p[1..] in LeavesBelow(v.fields[p[0].name], prefix + [p[0]], keys)
    ensures p != [] && v.Arr? && p[0].IsKeyMatch() ==>
      p == [p[0]] && p[0].key == MergeKeyAt(keys, prefix) && FindByKey(v.elems, p[0].key, p[0].val) >= 0
    ensures p != [] && v.Arr? && !p[0].IsKeyMatch() ==>
      p[0].IsIndex() && p[0].i < |v.elems| && p[0] == ElementSegment(v.elems[p[0].i], p[0].i, MergeKeyAt(keys, prefix))
      && p[1..] in LeavesBelow(v.elems[p[0].i], prefix + [p[0]], keys)
  {
    if v.Obj? && v.fields != map[] {
      FieldsMember(v, SortedKeys(ClaimedNames(v.fields, prefix)), prefix, keys, p);
    } else if v.Arr? && v.elems != [] {
      ElementsMember(v, 0, prefix, keys, p);
      var i :| 0 <= i && IsElementLeaf(v, i, prefix, keys, p);
      var seg := ElementSegment(v.elems[i], i, MergeKeyAt(keys, prefix));
      UnderMember(seg, LeavesBelow(v.elems[i], prefix + [seg], keys), p);
    }
  }

  /** No leaf path is a proper prefix of another. */
  lemma {:induction false} LeavesPrefixFree(v: Json, prefix: Path, keys: MergeKeys, p: Path, q: Path)
    requires p in LeavesBelow(v, prefix, keys) && q in LeavesBelow(v, prefix, keys) && p <= q
    ensures p == q
    decreases |p|
  {
    LeafStep(v, prefix, keys, p);
    LeafStep(v, prefix, keys, q);
    if p != [] {
      assert p[0] == q[0] && p[1..] <= q[1..];
      if v.Obj? {
        LeavesPrefixFree(v.fields[p[0].name], prefix + [p[0]], keys, p[1..], q[1..]);
      } else if !p[0].IsKeyMatch() {
        LeavesPrefixFree(v.elems[p[0].i], prefix + [p[0]], keys, p[1..], q[1..]);
      }
      assert p == [p[0]] + p[1..] && q == [q[0]] + q[1..];
    }
  }

  predicate IndexFree(p: Path)
  {
    forall s | s in p :: s.IsField() || s.IsKeyMatch()
  }

  /** Two different claims that use no list position part ways. */
  lemma {:induction false} LeavesDiverge(v: Json, prefix: Path, keys: MergeKeys, p: Path, q: Path)
    requires p in LeavesBelow(v, prefix, keys) && q in LeavesBelow(v, prefix, keys)
    requires IndexFree(p) && IndexFree(q) && p != q
    ensures Diverge(p, q)
    decreases |p|
  {
    LeafStart(v, prefix, keys, p);
    LeafStart(v, prefix, keys, q);
    LeafHead(v, prefix, keys, p, q);
    if v.Obj? {
      if p[0] == q[0] {
        LeavesDiverge(v.fields[p[0].name], prefix + [p[0]], keys, p[1..], q[1..]);
      }
    } else {
      assert p[0].val != q[0].val;
    }
  }

  lemma {:induction false} LeafIsWhole(v: Json, prefix: Path, keys: MergeKeys, p: Path)
    requires p in LeavesBelow(v, prefix, keys)
    ensures p != [] <==> (v.Obj? && v.fields != map[]) || (v.Arr? && v.elems != [])
  {
    LeafStep(v, prefix, keys, p);
  }

  /** Of two different leaves neither is empty, and they differ in their first step or after it. */
  lemma {:induction false} LeafHead(v: Json, prefix: Path, keys: MergeKeys, p: Path, q: Path)
    requires p in LeavesBelow(v, prefix, keys) && q in LeavesBelow(v, prefix, keys) && p != q
    ensures p != [] && q != [] && (p[0] == q[0] ==> p[1..] != q[1..])
  {
    LeafIsWhole(v, prefix, keys, p);
    LeafIsWhole(v, prefix, keys, q);
    if p != [] { HeadOrTail(p, q); }
  }

  lemma {:induction false} HeadOrTail(p: Path, q: Path)
    requires p != [] && q != [] && p != q
    ensures p[0] == q[0] ==> p[1..] != q[1..]
  {
    assert p == [p[0]] + p[1..];
    assert q == [q[0]] + q[1..];
  }

  lemma {:induction false} LeafStart(v: Json, prefix: Path, keys: MergeKeys, p: Path)
    requires p in LeavesBelow(v, prefix, keys) && IndexFree(p)
    ensures p != [] && v.Obj? ==>
      p[0].IsField() && p[0].name in v.fields && IndexFree(p[1..])
      && p[1..] in LeavesBelow(v.fields[p[0].name], prefix + [p[0]], keys)
    ensures p != [] && !v.Obj? ==> p == [p[0]] && p[0].IsKeyMatch() && p[0].key == MergeKeyAt(keys, prefix)
  {
    LeafStep(v, prefix, keys, p);
    if p != [] { assert p[0] in p; }
  }

  /** A key match only ever ends a leaf path. */
  lemma {:induction false} InteriorIsFields(v: Json, prefix: Path, keys: MergeKeys, p: Path)
    requires p in LeavesBelow(v, prefix, keys)
    ensures forall i | 0 <= i < |p| - 1 :: !p[i].IsKeyMatch()
    decreases |p|
  {
    LeafStep(v, prefix, keys, p);
    if p != [] {
      if v.Obj? {
        InteriorIsFields(v.fields[p[0].name], prefix + [p[0]], keys, p[1..]);
      } else if !p[0].IsKeyMatch() {
        InteriorIsFields(v.elems[p[0].i], prefix + [p[0]], keys, p[1..]);
      }
      assert forall i | 0 < i < |p| - 1 :: p[i] == p[1..][i - 1];
    }
  }

  lemma {:induction false} LeafIsKeyed(fields: map<string, Json>, keys: MergeKeys, p: Path)
    requires p in LeavesBelow(Obj(fields), [], keys) && IndexFree(p)
    ensures Keyed(p)
  {
    LeafStep(Obj(fields), [], keys, p);
    InteriorIsFields(Obj(fields), [], keys, p);
    if p == [] { RootIsNoLeaf(fields, keys); }
    assert p[0] in p;
  }

  lemma {:induction false} RootIsNoLeaf(fields: map<string, Json>, keys: MergeKeys)
    ensures [] !in LeavesBelow(Obj(fields), [], keys)
  {
    if fields != map[] {
      FieldsMember(Obj(fields), SortedKeys(ClaimedNames(fields, [])), [], keys, []);
    }
  }

  lemma {:induction false} SortKeepsMembers(ps: seq<Path>, p: Path)
    ensures p in SortPaths(ps) <==> p in ps
  {
    assert p in SortPaths(ps) <==> p in multiset(SortPaths(ps));
    assert p in ps <==> p in multiset(ps);
  }

  /** What a contributor renders without list positions is fit to be applied and given back. */
  lemma {:induction false} RenderedClaimsAreTerritory(fields: map<string, Json>, keys: MergeKeys)
    requires forall p | p in LeafPaths(fields, keys) :: IndexFree(p) && Printable(p)
    ensures Territory(set p | p in LeafPaths(fields, keys))
  {
    var leaves := LeavesBelow(Obj(fields), [], keys);
    forall p | p in LeafPaths(fields, keys) ensures Keyed(p) {
      SortKeepsMembers(leaves, p);
      LeafIsKeyed(fields, keys, p);
    }
    forall p, q | p in LeafPaths(fields, keys) && q in LeafPaths(fields, keys) && p != q ensures Diverge(p, q) {
      SortKeepsMembers(leaves, p);
      SortKeepsMembers(leaves, q);
      LeavesDiverge(Obj(fields), [], keys, p, q);
    }
  }
}
