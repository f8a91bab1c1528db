/** Setting an absent path and deleting it again: when exactly the tree comes back unchanged. */
module DeleteUndoesSet {
  import opened Json
  import opened FieldPath
  import opened FieldLaws

  /** Delete with its pruning, as one descent: a map left empty below the root goes with its content. */
  function Withdrawn(c: Json, p: Path): Json
    requires p != []
    decreases |p|
  {
    var seg := p[0];
    if c.Obj? && seg.IsField() && seg.name in c.fields then
      if |p| == 1 then Obj(c.fields - {seg.name}) else
      var child := Withdrawn(c.fields[seg.name], p[1..]);
      if child == EMPTY then Obj(c.fields - {seg.name}) else Obj(c.fields[seg.name := child])
    else if c.Arr? && seg.IsKeyMatch() && FindByKey(c.elems, seg.key, seg.val) >= 0 then
      var i := FindByKey(c.elems, seg.key, seg.val);
      if |p| == 1 then Arr(c.elems[..i] + c.elems[i + 1..])
      else Arr(c.elems[i := Withdrawn(c.elems[i], p[1..])])
    else c
  }

  lemma {:induction false} PruneAgainstField(m: map<string, Json>, p: Path, i: nat)
    requires |p| > 1 && p[0].IsField() && p[0].name in m && 0 < i < |p|
    ensures Get(Obj(m), p[..i]) == Get(m[p[0].name], p[1..][..i - 1])
    ensures i > 1 ==> var d := DeleteAt(m[p[0].name], p[1..][..i - 1]);
      DeleteAt(Obj(m), p[..i]) == Edit(Obj(m[p[0].name := d.tree]), d.ok)
    ensures i == 1 ==> DeleteAt(Obj(m), p[..i]) == Edit(Obj(m - {p[0].name}), true)
  {
    assert p[..i][0] == p[0] && p[..i][1..] == p[1..][..i - 1];
  }

  /** Pruning a map's child, then the map, is pruning along the whole path. */
  lemma {:induction false} PruneField(m: map<string, Json>, p: Path, i: nat)
    requires |p| > 1 && p[0].IsField() && p[0].name in m && 0 < i < |p| && (p[1].IsField() || p[1].IsListSegment())
    ensures var below := PruneFrom(m[p[0].name], p[1..], i - 1);
      PruneFrom(Obj(m), p, i) == if below == EMPTY then Obj(m - {p[0].name}) else Obj(m[p[0].name := below])
    decreases i
  {
    var f := p[0].name;
    PruneAgainstField(m, p, i);
    if i == 1 {
      assert m[f := m[f]] == m;
    } else {
      match Get(m[f], p[1..][..i - 1])
      case None => PruneField(m, p, i - 1);
      case Some(v) =>
        assert m[f := m[f]] == m;
        if v == EMPTY {
          var d := DeleteAt(m[f], p[1..][..i - 1]);
          if d.ok {
            PruneField(m[f := d.tree], p, i - 1);
            assert m[f := d.tree] - {f} == m - {f};
          } else {
            DeleteNothing(m[f], p[1..][..i - 1]);
            PresentIsNonEmpty(m[f], p[1..][..i - 1]);
          }
        } else {
          PresentIsNonEmpty(m[f], p[1..][..i - 1]);
        }
    }
  }

  lemma {:induction false} PresentIsNonEmpty(c: Json, p: Path)
    requires p != [] && Get(c, p).Some? && (p[0].IsField() || p[0].IsListSegment())
    ensures c != EMPTY
  {}

  lemma {:induction false} PruneAgainstElement(l: seq<Json>, p: Path, i: nat)
    requires |p| > 1 && p[0].IsKeyMatch() && FindByKey(l, p[0].key, p[0].val) >= 0 && 0 < i < |p|
    ensures var e := FindByKey(l, p[0].key, p[0].val);
      && Get(Arr(l), p[..i]) == Get(l[e], p[1..][..i - 1])
      && (i > 1 ==> var d := DeleteAt(l[e], p[1..][..i - 1]);
            DeleteAt(Arr(l), p[..i]) == Edit(Arr(l[e := d.tree]), d.ok))
  {
    assert p[..i][0] == p[0] && p[..i][1..] == p[1..][..i - 1];
  }

  /** Below a key match on a real value pruning stops at the element. */
  lemma {:induction false} PruneElement(l: seq<Json>, p: Path, i: nat)
    requires |p| > 1 && p[0].IsKeyMatch() && p[0].val != "<nil>" && 0 < i < |p|
    requires p[1].IsField() && p[1].name != p[0].key
    requires FindByKey(l, p[0].key, p[0].val) >= 0
    ensures var e := FindByKey(l, p[0].key, p[0].val);
      PruneFrom(Arr(l), p, i) == Arr(l[e := PruneFrom(l[e], p[1..], i - 1)])
    decreases i
  {
    var e := FindByKey(l, p[0].key, p[0].val);
    PruneAgainstElement(l, p, i);
    assert l[e := l[e]] == l;
    if i > 1 {
      match Get(l[e], p[1..][..i - 1])
      case None => PruneElement(l, p, i - 1);
      case Some(v) =>
        if v == EMPTY {
          var d := DeleteAt(l[e], p[1..][..i - 1]);
          if d.ok {
            SameElement(l, p[0].key, p[0].val, d.tree);
            PruneElement(l[e := d.tree], p, i - 1);
            assert l[e := d.tree][e := PruneFrom(d.tree, p[1..], i - 2)] == l[e := PruneFrom(d.tree, p[1..], i - 2)];
          }
        }
    }
  }

  /** An element replaced by one with the same key is still the one found. */
  lemma {:induction false} SameElement(l: seq<Json>, key: string, val: string, e: Json)
    requires FindByKey(l, key, val) >= 0 && Matches(e, key, val)
    ensures FindByKey(l[FindByKey(l, key, val) := e], key, val) == FindByKey(l, key, val)
  {
    var i := FindByKey(l, key, val);
    var j := FindByKey(l[i := e], key, val);
    assert l[i := e][i] == e;
    assert forall k | 0 <= k < i :: l[i := e][k] == l[k];
  }

  /** Keyed, without asking that the first step is a field. */
  predicate KeyedSteps(p: Path)
  {
    && p != []
    && KeepsKeys(p)
    && (forall s | s in p :: s.IsField() || s.IsKeyMatch())
    && (forall i | 0 <= i < |p| - 1 :: p[i].IsKeyMatch() ==> p[i].val != "<nil>")
  }

  lemma {:induction false} StepDown(p: Path)
    requires KeyedSteps(p) && |p| > 1
    ensures KeyedSteps(p[1..]) && (p[1].IsField() || p[1].IsKeyMatch()) && (p[0].IsField() || p[0].IsKeyMatch())
    ensures p[0].IsKeyMatch() ==> p[0].val != "<nil>" && p[1] != Field(p[0].key)
  {
    assert p[0] in p && p[1] in p;
    assert forall i | 0 <= i < |p| - 1 :: p[1..][i] == p[i + 1];
  }

  lemma {:induction false} WithdrawnThroughField(c: Json, p: Path)
    requires KeyedSteps(p) && |p| > 1 && c.Obj? && DeleteAt(c, p).ok
    requires var child := c.fields[p[0].name];
      PruneFrom(DeleteAt(child, p[1..]).tree, p[1..], |p| - 2) == Withdrawn(child, p[1..])
    ensures PruneFrom(DeleteAt(c, p).tree, p, |p| - 1) == Withdrawn(c, p)
  {
    StepDown(p);
    var f := p[0].name;
    var d := DeleteAt(c.fields[f], p[1..]).tree;
    PruneField(c.fields[f := d], p, |p| - 1);
    assert c.fields[f := d] - {f} == c.fields - {f};
    var w := PruneFrom(d, p[1..], |p| - 2);
    assert c.fields[f := d][f := w] == c.fields[f := w];
  }

  lemma {:induction false} WithdrawnThroughElement(c: Json, p: Path)
    requires KeyedSteps(p) && |p| > 1 && c.Arr? && DeleteAt(c, p).ok
    requires var child := c.elems[FindByKey(c.elems, p[0].key, p[0].val)];
      PruneFrom(DeleteAt(child, p[1..]).tree, p[1..], |p| - 2) == Withdrawn(child, p[1..])
    ensures PruneFrom(DeleteAt(c, p).tree, p, |p| - 1) == Withdrawn(c, p)
  {
    StepDown(p);
    var e := FindByKey(c.elems, p[0].key, p[0].val);
    var d := DeleteAt(c.elems[e], p[1..]).tree;
    SameElement(c.elems, p[0].key, p[0].val, d);
    PruneElement(c.elems[e := d], p, |p| - 1);
    var w := PruneFrom(d, p[1..], |p| - 2);
    assert c.elems[e := d][e := w] == c.elems[e := w];
  }

  /** Delete is the single descent. */
  lemma {:induction false} DeleteIsWithdrawn(c: Json, p: Path)
    requires KeyedSteps(p) && DeleteAt(c, p).ok
    ensures PruneFrom(DeleteAt(c, p).tree, p, |p| - 1) == Withdrawn(c, p)
    decreases |p|
  {
    if |p| > 1 {
      StepDown(p);
      if c.Obj? {
        DeleteIsWithdrawn(c.fields[p[0].name], p[1..]);
        WithdrawnThroughField(c, p);
      } else {
        DeleteIsWithdrawn(c.elems[FindByKey(c.elems, p[0].key, p[0].val)], p[1..]);
        WithdrawnThroughElement(c, p);
      }
    }
  }

  /**
   * The way to an absent path has no empty map and no null on it below the root, what it lacks is
   * only maps, and every list element it passes through exists.
   */
  predicate LeavesNoTrace(c: Json, p: Path)
    requires p != []
    decreases |p|
  {
    |p| == 1 ||
    (if p[0].IsField() then
       if c.Obj? && p[0].name in c.fields then
         var child := c.fields[p[0].name];
         child != Null && child != EMPTY && LeavesNoTrace(child, p[1..])
       else forall s | s in p[1..] :: s.IsField()
     else
       p[0].KeyMatch? && c.Arr? && FindByKey(c.elems, p[0].key, p[0].val) >= 0
       && LeavesNoTrace(c.elems[FindByKey(c.elems, p[0].key, p[0].val)], p[1..]))
  }

  lemma {:induction false} WithdrawnKeepsKind(c: Json, p: Path)
    requires p != []
    ensures Withdrawn(c, p).Obj? == c.Obj? && Withdrawn(c, p).Arr? == c.Arr? && Withdrawn(c, p).Null? == c.Null?
  {}

  ghost predicate Undone(c: Json, p: Path, v: Json)
    requires p != []
  {
    Withdrawn(SetAt(c, p, v).tree, p) == c
  }

  /** What setting and withdrawing below a field leaves, given what it leaves in the child. */
  lemma {:induction false} ThroughField(c: Json, p: Path, v: Json)
    requires KeyedSteps(p) && c.Obj? && p[0].IsField() && |p| > 1 && SetAt(c, p, v).ok
    ensures var f := p[0].name;
      var child := if f in c.fields then OrEmpty(c.fields[f], p[1]) else EmptyFor(p[1]);
      var back := Withdrawn(SetAt(child, p[1..], v).tree, p[1..]);
      Withdrawn(SetAt(c, p, v).tree, p) == if back == EMPTY then Obj(c.fields - {f}) else Obj(c.fields[f := back])
  {
    var f := p[0].name;
    var child := if f in c.fields then OrEmpty(c.fields[f], p[1]) else EmptyFor(p[1]);
    var below := SetAt(child, p[1..], v).tree;
    var back := Withdrawn(below, p[1..]);
    assert c.fields[f := below][f := back] == c.fields[f := back];
    assert c.fields[f := below] - {f} == c.fields - {f};
  }

  lemma {:induction false} UndoneField(c: Json, p: Path, v: Json)
    requires KeyedSteps(p) && c.Obj? && p[0].IsField() && |p| > 1 && SetAt(c, p, v).ok
    requires var child := if p[0].name in c.fields then OrEmpty(c.fields[p[0].name], p[1]) else EmptyFor(p[1]);
      Undone(child, p[1..], v) <==> LeavesNoTrace(child, p[1..])
    ensures Undone(c, p, v) <==> LeavesNoTrace(c, p)
  {
    StepDown(p);
    ThroughField(c, p, v);
    var f := p[0].name;
    if f in c.fields {
      var child := OrEmpty(c.fields[f], p[1]);
      var below := SetAt(child, p[1..], v).tree;
      WithdrawnKeepsKind(below, p[1..]);
      SetKeepsNull(child, p[1..], v);
      assert c.fields[f := c.fields[f]] == c.fields;
      assert f !in c.fields - {f};
      assert c.fields[f := Withdrawn(below, p[1..])][f] == Withdrawn(below, p[1..]);
    } else {
      assert c.fields - {f} == c.fields;
      var back := Withdrawn(SetAt(EmptyFor(p[1]), p[1..], v).tree, p[1..]);
      assert f in c.fields[f := back];
      AllFields(p);
    }
  }

  lemma {:induction false} SetKeepsNull(c: Json, p: Path, v: Json)
    requires p != []
    ensures SetAt(c, p, v).tree.Null? == c.Null? && SetAt(c, p, v).tree.Arr? == c.Arr?
  {}

  lemma {:induction false} AllFields(p: Path)
    requires KeyedSteps(p) && |p| > 1
    ensures (forall s | s in p[1..] :: s.IsField()) <==> p[1].IsField() && LeavesNoTrace(EMPTY, p[1..])
    ensures EmptyFor(p[1]) == EMPTY <==> p[1].IsField()
  {
    StepDown(p);
    assert p[1..] == [p[1]] + p[1..][1..];
    assert forall s | s in p[1..] :: s in p;
    if |p| == 2 { assert p[1..][1..] == []; }
  }

  /** Through an existing element the effect is the element's own. */
  lemma {:induction false} UndoneFound(c: Json, p: Path, v: Json)
    requires KeyedSteps(p) && c.Arr? && |p| > 1 && SetAt(c, p, v).ok && p[0].KeyMatch?
    requires FindByKey(c.elems, p[0].key, p[0].val) >= 0
    requires var child := c.elems[FindByKey(c.elems, p[0].key, p[0].val)];
      && SetAt(OrEmpty(child, p[1]), p[1..], v).tree == SetAt(child, p[1..], v).tree
      && Matches(SetAt(child, p[1..], v).tree, p[0].key, p[0].val)
    ensures var i := FindByKey(c.elems, p[0].key, p[0].val);
      Undone(c, p, v) <==> Undone(c.elems[i], p[1..], v)
  {
    var i := FindByKey(c.elems, p[0].key, p[0].val);
    var e := SetAt(c.elems[i], p[1..], v).tree;
    var back := Withdrawn(e, p[1..]);
    SameElement(c.elems, p[0].key, p[0].val, e);
    assert Withdrawn(Arr(c.elems[i := e]), p) == Arr(c.elems[i := e][i := back]);
    assert c.elems[i := e][i := back] == c.elems[i := back];
    assert c.elems[i := c.elems[i]] == c.elems;
    assert c.elems[i := back][i] == back;
  }

  /** An element made on the way stays. */
  lemma {:induction false} AppendedStays(c: Json, p: Path, v: Json)
    requires KeyedSteps(p) && c.Arr? && |p| > 1 && SetAt(c, p, v).ok && p[0].KeyMatch?
    requires FindByKey(c.elems, p[0].key, p[0].val) < 0
    requires var e := SetAt(OrEmpty(Grown(c.elems, p[0])[|c.elems|], p[1]), p[1..], v).tree;
      Matches(e, p[0].key, p[0].val)
    ensures !Undone(c, p, v)
  {
    var e := SetAt(OrEmpty(Grown(c.elems, p[0])[|c.elems|], p[1]), p[1..], v).tree;
    var l := Grown(c.elems, p[0])[|c.elems| := e];
    assert SetAt(c, p, v).tree == Arr(l);
    assert l[|c.elems|] == e;
    assert FindByKey(l, p[0].key, p[0].val) >= 0;
    assert |Withdrawn(Arr(l), p).elems| == |c.elems| + 1;
  }

  lemma {:induction false} UndoneElement(c: Json, p: Path, v: Json)
    requires KeyedSteps(p) && c.Arr? && |p| > 1 && SetAt(c, p, v).ok
    requires var child := Grown(c.elems, p[0])[Position(c.elems, p[0])];
      Undone(child, p[1..], v) <==> LeavesNoTrace(child, p[1..])
    ensures Undone(c, p, v) <==> LeavesNoTrace(c, p)
  {
    StepDown(p);
    var i := Position(c.elems, p[0]);
    SelectedSet(c.elems, p[0], Grown(c.elems, p[0])[i], "");
    if FindByKey(c.elems, p[0].key, p[0].val) >= 0 {
      UndoneFound(c, p, v);
    } else {
      AppendedStays(c, p, v);
    }
  }

  lemma {:induction false} UndoneLast(c: Json, p: Path, v: Json)
    requires KeyedSteps(p) && |p| == 1 && Fits(p, v) && Get(c, p).None? && SetAt(c, p, v).ok
    ensures Undone(c, p, v)
  {
    assert p[0] in p && p[1..] == [];
    if c.Obj? {
      assert c.fields[p[0].name := v] - {p[0].name} == c.fields;
    } else {
      var l := c.elems + [Obj(map[p[0].key := Str(p[0].val)])];
      var l' := l[|c.elems| := v];
      assert forall j | 0 <= j < |c.elems| :: l'[j] == c.elems[j];
      assert l'[|c.elems|] == v;
      assert FindByKey(l', p[0].key, p[0].val) == |c.elems|;
      assert l'[..|c.elems|] + l'[|c.elems| + 1..] == c.elems;
    }
  }

  lemma {:induction false} SetThenWithdraw(c: Json, p: Path, v: Json)
    requires KeyedSteps(p) && Fits(p, v) && Get(c, p).None? && SetAt(c, p, v).ok
    ensures Undone(c, p, v) <==> LeavesNoTrace(c, p)
    decreases |p|
  {
    if |p| == 1 {
      UndoneLast(c, p, v);
    } else {
      StepDown(p);
      if c.Obj? {
        var child := if p[0].name in c.fields then OrEmpty(c.fields[p[0].name], p[1]) else EmptyFor(p[1]);
        NothingInEmpty(p[1..]);
        SetThenWithdraw(child, p[1..], v);
        UndoneField(c, p, v);
      } else {
        SelectedSet(c.elems, p[0], Grown(c.elems, p[0])[Position(c.elems, p[0])], "");
        SetThenWithdraw(Grown(c.elems, p[0])[Position(c.elems, p[0])], p[1..], v);
        UndoneElement(c, p, v);
      }
    }
  }

  lemma {:induction false} NothingInEmpty(p: Path)
    requires KeyedSteps(p)
    ensures Get(EmptyFor(p[0]), p).None?
  {
    assert p[0] in p;
  }

  /**
   * Setting an absent path and deleting it again gives back exactly the same tree if and only if the
   * way there leaves no trace: maps created on the way are pruned, and nothing else is.
   */
  lemma {:induction false} DeleteUndoesSet(c: Json, p: Path, v: Json)
    requires Keyed(p) && Fits(p, v) && Get(c, p).None? && Set(c, p, v).ok
    ensures Delete(Set(c, p, v).tree, p) == Edit(c, true) <==> LeavesNoTrace(c, p)
  {
    assert forall s | s in p :: s.IsField() || s.IsKeyMatch();
    var s := SetAt(c, p, v).tree;
    SetLaws(c, p, v);
    DeleteThenLook(s, p);
    DeleteIsWithdrawn(s, p);
    SetThenWithdraw(c, p, v);
  }
}
