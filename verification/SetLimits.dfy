/** Exactly when a set goes through, and what one that does not has left behind. */
module SetLimits {
  import opened Json
  import opened FieldPath
  import opened FieldLaws

  /**
   * Step i of the path can be taken: what is there is the container the step needs, or null below the root;
   * what is missing is made, but a list element that is missing is made as a map.
   */
  predicate Passable(c: Json, p: Path, i: nat)
    requires i < |p|
  {
    match Get(c, p[..i])
    case Some(Obj(_)) => p[i].IsField()
    case Some(Arr(_)) => p[i].IsListSegment()
    case Some(Null) => i > 0
    case Some(_) => false
    case None => i > 0 && (p[i - 1].IsListSegment() ==> p[i].IsField())
  }

  predicate Open(c: Json, p: Path)
  {
    forall i | 0 <= i < |p| :: Passable(c, p, i)
  }

  /** Reading through the child a set goes on in. */
  lemma {:induction false} ReadsThroughChild(c: Json, p: Path, i: nat)
    requires 1 < |p| && 0 < i < |p| && Walkable(p) && KeepsKeys(p) && Passable(c, p, 0)
    ensures Passable(c, p, i) <==> Passable(Child(c, p), p[1..], i - 1)
  {
    assert p[0] in p && p[1] in p;
    assert p[..0] == [];
    assert p[..i][0] == p[0] && p[..i][1..] == p[1..][..i - 1];
    if i == 1 {
      assert p[..1] == [p[0]];
      ChildThere(c, p);
    } else {
      assert p[1..][..i - 1][0] == p[1];
      ChildBelow(c, p, p[1..][..i - 1]);
    }
  }

  lemma {:induction false} ChildThere(c: Json, p: Path)
    requires 1 < |p| && Walkable(p) && Passable(c, p, 0)
    ensures var there := Get(c, [p[0]]);
      if there.Some? && !there.value.Null? then Child(c, p) == there.value
      else if there.None? && p[0].IsListSegment() then Child(c, p).Obj?
      else Child(c, p) == EmptyFor(p[1])
  {
    assert p[0] in p && p[1] in p;
    assert p[..0] == [];
    if p[0].IsKeyMatch() { FindIsFirstSelected(c.elems, p[0].key, p[0].val); }
  }

  lemma {:induction false} ChildBelow(c: Json, p: Path, r: Path)
    requires 1 < |p| && Walkable(p) && KeepsKeys(p) && Passable(c, p, 0)
    requires r != [] && r[0] == p[1] && Walkable(r)
    ensures Get(c, [p[0]] + r) == Get(Child(c, p), r)
  {
    assert p[0] in p && p[1] in p && r[0] in r;
    assert p[..0] == [];
    assert ([p[0]] + r)[1..] == r;
    ChildThere(c, p);
    if Get(c, [p[0]]).None? && p[0].IsKeyMatch() {
      FreshShowsKeyOnly(p[0].key, p[0].val, r);
      GetIsFirst(Child(c, p), r);
    }
  }

  lemma {:induction false} OpenBelow(c: Json, p: Path)
    requires 1 < |p| && Walkable(p) && KeepsKeys(p) && Passable(c, p, 0)
    ensures Open(c, p) <==> Open(Child(c, p), p[1..])
  {
    forall j | 0 <= j < |p| - 1 ensures Passable(Child(c, p), p[1..], j) <==> Passable(c, p, j + 1) {
      ReadsThroughChild(c, p, j + 1);
    }
    if Open(Child(c, p), p[1..]) {
      forall i | 0 <= i < |p| ensures Passable(c, p, i) {
        if i > 0 { assert Passable(Child(c, p), p[1..], i - 1); }
      }
    }
  }

  /** A set goes through exactly if every step of its path can be taken. */
  lemma {:induction false} SetSucceedsExactly(c: Json, p: Path, v: Json)
    requires p != [] && Walkable(p) && KeepsKeys(p)
    ensures SetAt(c, p, v).ok <==> Open(c, p)
    decreases |p|
  {
    assert p[0] in p && p[..0] == [];
    assert Open(c, p) ==> Passable(c, p, 0);
    if |p| > 1 && Passable(c, p, 0) {
      SetSucceedsExactly(Child(c, p), p[1..], v);
      OpenBelow(c, p);
    } else {
      assert Passable(c, p, 0) <==> ((c.Obj? && p[0].IsField()) || (c.Arr? && p[0].IsListSegment()));
    }
  }

  /** d is c, but for containers made on the way p: maps have gained an empty container, lists no element. */
  predicate Trodden(c: Json, d: Json, p: Path)
    decreases |p|
  {
    c == d || (
      |p| > 1 &&
      if c.Obj? then
        && p[0].IsField() && d.Obj? && p[0].name in d.fields
        && d.fields == c.fields[p[0].name := d.fields[p[0].name]]
        && Trodden(if p[0].name in c.fields then OrEmpty(c.fields[p[0].name], p[1]) else EmptyFor(p[1]), d.fields[p[0].name], p[1..])
      else
        && c.Arr? && d.Arr? && |d.elems| == |c.elems|
        && exists i :: 0 <= i < |c.elems| && d.elems == c.elems[i := d.elems[i]]
             && Trodden(OrEmpty(c.elems[i], p[1]), d.elems[i], p[1..]))
  }

  /** A set that fails has left nothing but that. */
  lemma {:induction false} FailedSetLeaves(c: Json, p: Path, v: Json)
    requires p != [] && !SetAt(c, p, v).ok
    ensures Trodden(c, SetAt(c, p, v).tree, p)
    decreases |p|
  {
    var seg, d := p[0], SetAt(c, p, v).tree;
    if |p| > 1 && d != c {
      if c.Arr? {
        var i, l := Position(c.elems, seg), Grown(c.elems, seg);
        assert l == c.elems;
        FailedSetLeaves(OrEmpty(l[i], p[1]), p[1..], v);
        assert d.elems == c.elems[i := d.elems[i]];
      } else {
        FailedSetLeaves(if seg.name in c.fields then OrEmpty(c.fields[seg.name], p[1]) else EmptyFor(p[1]), p[1..], v);
      }
    }
  }
}
