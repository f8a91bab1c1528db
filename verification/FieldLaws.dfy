/**
 * What get, set and delete mean to each other. A document is observed through Look, which lists
 * every value a path could select: at most one at a field, and at a final key match every element
 * carrying the key. Get reads the first of them. Set replaces the first, Delete removes the first,
 * and neither is visible at a path that diverges.
 */
module FieldLaws {
  import opened Json
  import opened FieldPath

  /** The elements a key match could select, in list order. */
  function Selected(l: seq<Json>, key: string, val: string): (r: seq<Json>)
    ensures forall e | e in r :: Matches(e, key, val)
  {
    if l == [] then []
    else if Matches(l[0], key, val) then [l[0]] + Selected(l[1..], key, val)
    else Selected(l[1..], key, val)
  }

  function Look(c: Json, p: Path): seq<Json>
    decreases |p|
  {
    if p == [] then [c] else
    var seg := p[0];
    if seg.IsField() then
      if c.Obj? && seg.name in c.fields then Look(c.fields[seg.name], p[1..]) else []
    else if seg.IsIndex() then
      if c.Arr? && seg.i < |c.elems| then Look(c.elems[seg.i], p[1..]) else []
    else if seg.IsKeyMatch() then
      if !c.Arr? then [] else
      var es := Selected(c.elems, seg.key, seg.val);
      if |p| == 1 then es
      else if es == [] then [] else Look(es[0], p[1..])
    else Look(c, p[1..])
  }

  /** The segments select different children of one container, whatever it holds. */
  predicate DivergesAt(a: Segment, b: Segment)
  {
    (a.IsField() && b.IsField() && a.name != b.name) ||
    (a.IsKeyMatch() && b.IsKeyMatch() && a.key == b.key && a.val != b.val)
  }

  /** Two paths part at a different field, or at one merge key with two values. */
  predicate Diverge(p: Path, q: Path)
  {
    p != [] && q != [] &&
    (DivergesAt(p[0], q[0]) || (p[0] == q[0] && Diverge(p[1..], q[1..])))
  }

  /** Every segment is one the program can walk. */
  predicate Regular(p: Path)
  {
    p != [] && p[0].IsField() && forall s | s in p :: s.IsField() || s.IsListSegment()
  }

  /** No step below a key match addresses the field the match is made on. */
  predicate KeepsKeys(p: Path)
  {
    forall i | 0 <= i < |p| - 1 :: p[i].IsKeyMatch() ==> p[i + 1] != Field(p[i].key)
  }

  /** A value written at a final key match still carries the key. */
  predicate Fits(p: Path, v: Json)
  {
    p != [] && p[|p| - 1].IsKeyMatch() ==> Matches(v, p[|p| - 1].key, p[|p| - 1].val)
  }

  /** No list position on the way, and no interior match on a missing key. */
  predicate Keyed(p: Path)
  {
    && Regular(p)
    && KeepsKeys(p)
    && (forall s | s in p :: !s.Index?)
    && (forall i | 0 <= i < |p| - 1 :: p[i].IsKeyMatch() ==> p[i].val != "<nil>")
  }

  // ---- Selected ----

  lemma {:induction false} SelectedConcat(a: seq<Json>, b: seq<Json>, key: string, val: string)
    ensures Selected(a + b, key, val) == Selected(a, key, val) + Selected(b, key, val)
  {
    if a == [] {
      assert a + b == b;
    } else {
      assert a + b == [a[0]] + (a[1..] + b);
      SelectedConcat(a[1..], b, key, val);
    }
  }

  lemma {:induction false} SelectedNone(a: seq<Json>, key: string, val: string)
    requires forall e | e in a :: !Matches(e, key, val)
    ensures Selected(a, key, val) == []
  {
    if a != [] { SelectedNone(a[1..], key, val); }
  }

  lemma {:induction false} SelectedOne(e: Json, key: string, val: string)
    ensures Selected([e], key, val) == if Matches(e, key, val) then [e] else []
  {
    assert [e][1..] == [];
  }

  /** Replacing, appending or removing one element, seen through a key match. */
  lemma {:induction false} SelectedSplice(l: seq<Json>, i: nat, mid: seq<Json>, key: string, val: string)
    requires i < |l|
    ensures Selected(l, key, val) ==
      Selected(l[..i], key, val) + Selected([l[i]], key, val) + Selected(l[i + 1..], key, val)
    ensures Selected(l[..i] + mid + l[i + 1..], key, val) ==
      Selected(l[..i], key, val) + Selected(mid, key, val) + Selected(l[i + 1..], key, val)
  {
    assert l == l[..i] + [l[i]] + l[i + 1..];
    SelectedConcat(l[..i] + [l[i]], l[i + 1..], key, val);
    SelectedConcat(l[..i], [l[i]], key, val);
    SelectedConcat(l[..i] + mid, l[i + 1..], key, val);
    SelectedConcat(l[..i], mid, key, val);
  }

  lemma {:induction false} FindIsFirstSelected(l: seq<Json>, key: string, val: string)
    ensures FindByKey(l, key, val) < 0 <==> Selected(l, key, val) == []
    ensures FindByKey(l, key, val) >= 0 ==>
      Selected(l, key, val)[0] == l[FindByKey(l, key, val)]
      && Selected(l[..FindByKey(l, key, val)], key, val) == []
  {
    var i := FindByKey(l, key, val);
    if i < 0 {
      SelectedNone(l, key, val);
    } else {
      SelectedSplice(l, i, [], key, val);
      SelectedNone(l[..i], key, val);
      SelectedOne(l[i], key, val);
    }
  }

  /** Get reads the first value Look lists. */
  lemma {:induction false} GetIsFirst(c: Json, p: Path)
    ensures Get(c, p) == First(Look(c, p))
  {
    if p != [] {
      var seg := p[0];
      if seg.IsField() {
        if c.Obj? && seg.name in c.fields { GetIsFirst(c.fields[seg.name], p[1..]); }
      } else if seg.IsIndex() {
        if c.Arr? && seg.i < |c.elems| { GetIsFirst(c.elems[seg.i], p[1..]); }
      } else if seg.IsKeyMatch() {
        if c.Arr? {
          FindIsFirstSelected(c.elems, seg.key, seg.val);
          var idx := FindByKey(c.elems, seg.key, seg.val);
          if idx >= 0 { GetIsFirst(c.elems[idx], p[1..]); }
        }
      } else {
        GetIsFirst(c, p[1..]);
      }
    }
  }

  // ---- Set ----

  /** A list after the element at a key match was replaced or appended, seen through that key. */
  lemma {:induction false} SelectedSet(l: seq<Json>, seg: Segment, e: Json, other: string)
    requires seg.IsKeyMatch() && Matches(e, seg.key, seg.val)
    ensures
      var was := Selected(l, seg.key, seg.val);
      var g := Grown(l, seg);
      var i := Position(l, seg);
      && g[i] == (if was == [] then Obj(map[seg.key := Str(seg.val)]) else was[0])
      && Matches(g[i], seg.key, seg.val)
      && Selected(g[i := e], seg.key, seg.val) == [e] + Tail(was)
      && (other != seg.val ==> Selected(g[i := e], seg.key, other) == Selected(l, seg.key, other))
  {
    var g := Grown(l, seg);
    var i := Position(l, seg);
    FindIsFirstSelected(l, seg.key, seg.val);
    assert Matches(g[i], seg.key, seg.val);
    assert g[i := e] == g[..i] + [e] + g[i + 1..];
    SpliceOne(g, i, e, seg.key, seg.val);
    SpliceOne(g, i, e, seg.key, other);
    if FindByKey(l, seg.key, seg.val) < 0 {
      assert g[..i] == l && g[i + 1..] == [];
    } else {
      assert g == l;
    }
  }

  lemma {:induction false} SpliceOne(l: seq<Json>, i: nat, e: Json, key: string, val: string)
    requires i < |l|
    ensures Selected(l, key, val) == Selected(l[..i], key, val)
      + (if Matches(l[i], key, val) then [l[i]] else []) + Selected(l[i + 1..], key, val)
    ensures Selected(l[i := e], key, val) == Selected(l[..i], key, val)
      + (if Matches(e, key, val) then [e] else []) + Selected(l[i + 1..], key, val)
    ensures Selected(l[..i] + l[i + 1..], key, val) == Selected(l[..i], key, val) + Selected(l[i + 1..], key, val)
  {
    SelectedSplice(l, i, [e], key, val);
    SelectedConcat(l[..i], l[i + 1..], key, val);
    SelectedOne(l[i], key, val);
    SelectedOne(e, key, val);
    assert l[i := e] == l[..i] + [e] + l[i + 1..];
  }

  lemma {:induction false} EmptyHasNothing(next: Segment, p: Path)
    requires p != [] && p[0] == next && (next.IsField() || next.IsListSegment())
    ensures Look(EmptyFor(next), p) == [] && Look(Null, p) == []
  {}

  /** The container a set at p goes on in, made if it is missing. */
  function Child(c: Json, p: Path): Json
    requires |p| > 1
  {
    if c.Arr? && p[0].IsListSegment() then OrEmpty(Grown(c.elems, p[0])[Position(c.elems, p[0])], p[1])
    else if c.Obj? && p[0].Field? && p[0].name in c.fields then OrEmpty(c.fields[p[0].name], p[1])
    else EmptyFor(p[1])
  }

  predicate Walkable(p: Path)
  {
    forall s | s in p :: s.IsField() || s.IsListSegment()
  }

  /** The element written into still has its key. */
  lemma {:induction false} KeyStays(c: Json, p: Path, v: Json)
    requires |p| > 1 && c.Arr? && p[0].IsKeyMatch() && p[1] != Field(p[0].key) && Walkable(p)
    ensures Matches(SetAt(Child(c, p), p[1..], v).tree, p[0].key, p[0].val)
  {
    var g := Grown(c.elems, p[0]);
    SelectedSet(c.elems, p[0], g[Position(c.elems, p[0])], "");
    assert p[1] in p;
  }

  /** A set, also one that fails, is not seen by a path that parts from it at once. */
  lemma {:induction false} UnseenHere(c: Json, p: Path, v: Json, q: Path)
    requires p != [] && q != [] && DivergesAt(p[0], q[0]) && KeepsKeys(p) && Fits(p, v) && Walkable(p)
    ensures Look(SetAt(c, p, v).tree, q) == Look(c, q)
  {
    if c.Arr? && p[0].IsKeyMatch() {
      if |p| > 1 { KeyStays(c, p, v); }
      var g := Grown(c.elems, p[0]);
      SelectedSet(c.elems, p[0], if |p| == 1 then v else SetAt(Child(c, p), p[1..], v).tree, q[0].val);
    }
  }

  /** A set read back through a list, given how the element reads. */
  lemma {:induction false} SetReadThroughList(c: Json, p: Path, v: Json)
    requires |p| > 1 && c.Arr? && KeepsKeys(p) && Walkable(p) && SetAt(c, p, v).ok
    requires Look(SetAt(Child(c, p), p[1..], v).tree, p[1..]) == [v] + Tail(Look(Child(c, p), p[1..]))
    ensures Look(SetAt(c, p, v).tree, p) == [v] + Tail(Look(c, p))
  {
    var g := Grown(c.elems, p[0]);
    var i := Position(c.elems, p[0]);
    assert p[0] in p && p[1] in p;
    EmptyHasNothing(p[1], p[1..]);
    if p[0].IsKeyMatch() {
      KeyStays(c, p, v);
      SelectedSet(c.elems, p[0], g[i], "");
      SelectedSet(c.elems, p[0], SetAt(Child(c, p), p[1..], v).tree, "");
    }
  }

  /** A set replaces the first value at its own path, and keeps the ones after it. */
  lemma {:induction false} SetThenLook(c: Json, p: Path, v: Json)
    requires p != [] && KeepsKeys(p) && Fits(p, v) && Walkable(p)
    requires SetAt(c, p, v).ok
    ensures Look(SetAt(c, p, v).tree, p) == [v] + Tail(Look(c, p))
    decreases |p|
  {
    assert p[0] in p;
    if |p| > 1 {
      assert p[1] in p && Fits(p[1..], v);
      EmptyHasNothing(p[1], p[1..]);
      SetThenLook(Child(c, p), p[1..], v);
      if c.Arr? { SetReadThroughList(c, p, v); }
    } else if c.Arr? && p[0].IsKeyMatch() {
      SelectedSet(c.elems, p[0], v, "");
    }
  }

  /** A set, also one that fails, is not visible at a path that diverges from its own. */
  lemma {:induction false} SetFrame(c: Json, p: Path, v: Json, q: Path)
    requires Diverge(p, q) && KeepsKeys(p) && KeepsKeys(q) && Fits(p, v) && Walkable(p)
    ensures Look(SetAt(c, p, v).tree, q) == Look(c, q)
    decreases |p|
  {
    assert p[0] in p;
    if p[0] == q[0] {
      assert p[1] in p && Fits(p[1..], v);
      SetFrame(Child(c, p), p[1..], v, q[1..]);
      SetFrameBelow(c, p, v, q);
    } else {
      UnseenHere(c, p, v, q);
    }
  }

  lemma {:induction false} SetFrameBelow(c: Json, p: Path, v: Json, q: Path)
    requires |p| > 1 && |q| > 1 && p[0] == q[0] && Diverge(p[1..], q[1..]) && KeepsKeys(p) && KeepsKeys(q) && Walkable(p)
    requires Look(SetAt(Child(c, p), p[1..], v).tree, q[1..]) == Look(Child(c, p), q[1..])
    ensures Look(SetAt(c, p, v).tree, q) == Look(c, q)
  {
    var seg := p[0];
    assert seg in p && p[1] in p;
    NothingYet(p[1..], q[1..]);
    if c.Arr? && seg.IsKeyMatch() {
      var g := Grown(c.elems, seg);
      var i := Position(c.elems, seg);
      SelectedSet(c.elems, seg, g[i], "");
      SelectedSet(c.elems, seg, SetAt(OrEmpty(g[i], p[1]), p[1..], v).tree, "");
    }
  }

  /** A path diverging from p finds nothing in the containers a set creates for p. */
  lemma {:induction false} NothingYet(p: Path, q: Path)
    requires Diverge(p, q) && (p[0].IsField() || p[0].IsListSegment())
    ensures Look(EmptyFor(p[0]), q) == [] && Look(Null, q) == [] && Look(EMPTY, q) == []
  {}

  // ---- Delete ----

  /** A list after the first element at a key match was removed or replaced, seen through that key. */
  lemma {:induction false} SelectedDelete(l: seq<Json>, key: string, val: string, e: Json, other: string)
    requires FindByKey(l, key, val) >= 0
    ensures
      var i := FindByKey(l, key, val);
      var was := Selected(l, key, val);
      && was != [] && l[i] == was[0]
      && Selected(l[..i] + l[i + 1..], key, val) == was[1..]
      && (Matches(e, key, val) ==> Selected(l[i := e], key, val) == [e] + was[1..])
      && (other != val ==> Selected(l[..i] + l[i + 1..], key, other) == Selected(l, key, other))
      && (other != val && Matches(e, key, val) ==> Selected(l[i := e], key, other) == Selected(l, key, other))
  {
    DeletedHere(l, key, val, e);
    if other != val { DeletedElsewhere(l, FindByKey(l, key, val), key, val, e, other); }
  }

  lemma {:induction false} DeletedHere(l: seq<Json>, key: string, val: string, e: Json)
    requires FindByKey(l, key, val) >= 0
    ensures var i, was := FindByKey(l, key, val), Selected(l, key, val);
      && was != [] && l[i] == was[0]
      && Selected(l[..i] + l[i + 1..], key, val) == was[1..]
      && (Matches(e, key, val) ==> Selected(l[i := e], key, val) == [e] + was[1..])
  {
    var i := FindByKey(l, key, val);
    FindIsFirstSelected(l, key, val);
    SpliceOne(l, i, e, key, val);
    OneInFront(l[i], Selected(l[i + 1..], key, val));
    OneInFront(e, Selected(l[i + 1..], key, val));
  }

  lemma {:induction false} DeletedElsewhere(l: seq<Json>, i: nat, key: string, val: string, e: Json, other: string)
    requires i < |l| && other != val && Matches(l[i], key, val)
    ensures Selected(l[..i] + l[i + 1..], key, other) == Selected(l, key, other)
    ensures Matches(e, key, val) ==> Selected(l[i := e], key, other) == Selected(l, key, other)
  {
    SpliceOne(l, i, e, key, other);
    assert Selected(l[..i], key, other) + [] == Selected(l[..i], key, other);
  }

  lemma {:induction false} OneInFront(e: Json, s: seq<Json>)
    ensures [] + [e] + s == [e] + s && ([e] + s)[1..] == s && [] + s == s
  {}

  lemma {:induction false} DeleteNothing(c: Json, p: Path)
    requires p != [] && !DeleteAt(c, p).ok
    ensures DeleteAt(c, p).tree == c
    decreases |p|
  {
    var seg := p[0];
    if c.Arr? && seg.IsListSegment() && |p| > 1 {
      var idx := if seg.IsIndex() then seg.i else FindByKey(c.elems, seg.key, seg.val);
      if 0 <= idx < |c.elems| { DeleteNothing(c.elems[idx], p[1..]); }
    } else if c.Obj? && seg.IsField() && |p| > 1 && seg.name in c.fields {
      DeleteNothing(c.fields[seg.name], p[1..]);
      assert c.fields[seg.name := c.fields[seg.name]] == c.fields;
    }
  }

  /** A removal below an element, given what it leaves of the element. */
  lemma {:induction false} DeletedBelowKey(c: Json, p: Path)
    requires |p| > 1 && c.Arr? && p[0].IsKeyMatch() && p[1] != Field(p[0].key) && (p[1].IsField() || p[1].IsKeyMatch())
    requires FindByKey(c.elems, p[0].key, p[0].val) >= 0
    requires var e := c.elems[FindByKey(c.elems, p[0].key, p[0].val)];
      && (DeleteAt(e, p[1..]).ok <==> Look(e, p[1..]) != [])
      && Look(DeleteAt(e, p[1..]).tree, p[1..]) == Tail(Look(e, p[1..]))
    ensures DeleteAt(c, p).ok <==> Look(c, p) != []
    ensures Look(DeleteAt(c, p).tree, p) == Tail(Look(c, p))
  {
    var e := c.elems[FindByKey(c.elems, p[0].key, p[0].val)];
    FindIsFirstSelected(c.elems, p[0].key, p[0].val);
    SelectedDelete(c.elems, p[0].key, p[0].val, DeleteAt(e, p[1..]).tree, "");
  }

  /** A removal takes the first value at its path and leaves the ones after it. */
  lemma {:induction false} DeleteThenLook(c: Json, p: Path)
    requires p != [] && KeepsKeys(p)
    requires forall s | s in p :: s.IsField() || s.IsKeyMatch()
    ensures DeleteAt(c, p).ok <==> Look(c, p) != []
    ensures Look(DeleteAt(c, p).tree, p) == Tail(Look(c, p))
    decreases |p|
  {
    var seg := p[0];
    assert seg in p;
    if |p| > 1 { assert p[1] in p; }
    if c.Arr? && seg.IsKeyMatch() {
      var idx := FindByKey(c.elems, seg.key, seg.val);
      FindIsFirstSelected(c.elems, seg.key, seg.val);
      if idx >= 0 {
        if |p| > 1 {
          DeleteThenLook(c.elems[idx], p[1..]);
          DeletedBelowKey(c, p);
        } else {
          SelectedDelete(c.elems, seg.key, seg.val, Null, "");
        }
      }
    } else if c.Obj? && seg.IsField() && |p| > 1 && seg.name in c.fields {
      DeleteThenLook(c.fields[seg.name], p[1..]);
    }
  }

  /** A removal is not visible at a path that diverges from its own. */
  lemma {:induction false} DeleteFrame(c: Json, p: Path, q: Path)
    requires Diverge(p, q) && KeepsKeys(p)
    requires forall s | s in p :: s.IsField() || s.IsKeyMatch()
    ensures Look(DeleteAt(c, p).tree, q) == Look(c, q)
    decreases |p|
  {
    var seg := p[0];
    assert seg in p;
    if |p| > 1 { assert p[1] in p; }
    if c.Arr? && seg.IsKeyMatch() {
      var idx := FindByKey(c.elems, seg.key, seg.val);
      if idx >= 0 {
        var e := if |p| == 1 then Null else DeleteAt(c.elems[idx], p[1..]).tree;
        SelectedDelete(c.elems, seg.key, seg.val, e, q[0].val);
        if p[0] == q[0] && Diverge(p[1..], q[1..]) {
          DeleteFrame(c.elems[idx], p[1..], q[1..]);
        }
      }
    } else if c.Obj? && seg.IsField() && |p| > 1 && seg.name in c.fields {
      if p[0] == q[0] && Diverge(p[1..], q[1..]) {
        DeleteFrame(c.fields[seg.name], p[1..], q[1..]);
      }
    }
  }

  /** Looking along a path is looking along its front, then its back. */
  lemma {:induction false} LookThrough(c: Json, r: Path, s: Path)
    requires r != [] && s != []
    ensures Look(c, r + s) == if Look(c, r) == [] then [] else Look(Look(c, r)[0], s)
    decreases |r|
  {
    assert (r + s)[0] == r[0] && (r + s)[1..] == r[1..] + s;
    var seg := r[0];
    if |r| > 1 {
      if seg.IsField() {
        if c.Obj? && seg.name in c.fields { LookThrough(c.fields[seg.name], r[1..], s); }
      } else if seg.IsIndex() {
        if c.Arr? && seg.i < |c.elems| { LookThrough(c.elems[seg.i], r[1..], s); }
      } else if seg.IsKeyMatch() {
        if c.Arr? && Selected(c.elems, seg.key, seg.val) != [] {
          LookThrough(Selected(c.elems, seg.key, seg.val)[0], r[1..], s);
        }
      } else {
        LookThrough(c, r[1..], s);
      }
    } else {
      assert r[1..] + s == s;
    }
  }

  /** A value found at a final field is the only one; at a final key match it carries the key. */
  lemma {:induction false} LookAtEnd(c: Json, p: Path)
    requires p != []
    ensures !p[|p| - 1].IsKeyMatch() ==> |Look(c, p)| <= 1
    ensures forall v | v in Look(c, p) :: Fits(p, v)
    decreases |p|
  {
    var seg := p[0];
    if |p| > 1 {
      assert p[|p| - 1] == p[1..][|p| - 2];
      if seg.IsField() {
        if c.Obj? && seg.name in c.fields { LookAtEnd(c.fields[seg.name], p[1..]); }
      } else if seg.IsIndex() {
        if c.Arr? && seg.i < |c.elems| { LookAtEnd(c.elems[seg.i], p[1..]); }
      } else if seg.IsKeyMatch() {
        if c.Arr? && Selected(c.elems, seg.key, seg.val) != [] {
          LookAtEnd(Selected(c.elems, seg.key, seg.val)[0], p[1..]);
        }
      } else {
        LookAtEnd(c, p[1..]);
      }
    }
  }

  lemma {:induction false} DivergeSplit(p: Path, q: Path, i: nat)
    requires Diverge(p, q) && 0 < i <= |p|
    ensures Diverge(p[..i], q) || (i < |q| && q[..i] == p[..i])
    decreases i
  {
    if !DivergesAt(p[0], q[0]) {
      if i > 1 {
        DivergeSplit(p[1..], q[1..], i - 1);
        assert p[1..][..i - 1] == p[..i][1..];
        if i < |q| && q[1..][..i - 1] == p[1..][..i - 1] {
          assert q[..i] == [q[0]] + q[1..][..i - 1];
          assert p[..i] == [p[0]] + p[1..][..i - 1];
        }
      } else {
        assert p[..1] == [p[0]] && q[..1] == [q[0]];
      }
    }
  }

  /** Removing one emptied parent of p is not visible at p, nor at a path diverging from it. */
  lemma {:induction false} PruneStep(c: Json, p: Path, i: nat, q: Path)
    requires Keyed(p) && 0 < i < |p| && (q == p || Diverge(p, q)) && Get(c, p[..i]) == Some(EMPTY)
    ensures Look(DeleteAt(c, p[..i]).tree, q) == Look(c, q)
  {
    var r := p[..i];
    GetIsFirst(c, r);
    LookAtEnd(c, r);
    assert forall s | s in r :: s in p;
    assert r[i - 1] == p[i - 1] && p[i - 1] in p;
    assert EMPTY in Look(c, r);
    assert p[i - 1].IsField();
    if q != p { DivergeSplit(p, q, i); }
    if q != p && Diverge(r, q) {
      DeleteFrame(c, r, q);
    } else {
      DeleteThenLook(c, r);
      assert q == r + q[i..];
      LookThrough(c, r, q[i..]);
      LookThrough(DeleteAt(c, r).tree, r, q[i..]);
      EmptyShowsNothing(p, q, i);
    }
  }

  /** Pruning the emptied parents of p is not visible at p, nor at a path diverging from it. */
  lemma {:induction false} PruneFrame(c: Json, p: Path, i: int, q: Path)
    requires Keyed(p) && i < |p| && (q == p || Diverge(p, q))
    ensures Look(PruneFrom(c, p, i), q) == Look(c, q)
    decreases i
  {
    if i > 0 {
      match Get(c, p[..i])
      case None => PruneFrame(c, p, i - 1, q);
      case Some(v) =>
        if v == EMPTY {
          PruneStep(c, p, i, q);
          PruneFrame(DeleteAt(c, p[..i]).tree, p, i - 1, q);
        }
    }
  }

  lemma {:induction false} EmptyShowsNothing(p: Path, q: Path, i: nat)
    requires Keyed(p) && 0 < i < |p| && i < |q| && (q == p || Diverge(p, q)) && q[..i] == p[..i]
    ensures Look(EMPTY, q[i..]) == []
  {
    assert p[i] in p;
    if q != p {
      DivergeBelow(p, q, i);
    }
  }

  lemma {:induction false} DivergeBelow(p: Path, q: Path, i: nat)
    requires Diverge(p, q) && i <= |p| && i <= |q| && q[..i] == p[..i]
    ensures Diverge(p[i..], q[i..])
    decreases i
  {
    if i > 0 {
      assert p[..i][0] == q[..i][0] && p[..i][1..] == p[1..][..i - 1] && q[..i][1..] == q[1..][..i - 1];
      DivergeBelow(p[1..], q[1..], i - 1);
      assert p[1..][i - 1..] == p[i..] && q[1..][i - 1..] == q[i..];
    }
  }

  // ---- The laws ----

  /** A successful set is read back, the values behind it stay, and diverging paths do not see it. */
  lemma {:induction false} SetLaws(c: Json, p: Path, v: Json)
    requires Regular(p) && KeepsKeys(p) && Fits(p, v) && Set(c, p, v).ok
    ensures Get(Set(c, p, v).tree, p) == Some(v)
    ensures Look(Set(c, p, v).tree, p) == [v] + Tail(Look(c, p))
    ensures forall q | Diverge(p, q) && KeepsKeys(q) ::
      Look(Set(c, p, v).tree, q) == Look(c, q) && Get(Set(c, p, v).tree, q) == Get(c, q)
  {
    SetThenLook(c, p, v);
    GetIsFirst(Set(c, p, v).tree, p);
    forall q | Diverge(p, q) && KeepsKeys(q)
      ensures Look(Set(c, p, v).tree, q) == Look(c, q) && Get(Set(c, p, v).tree, q) == Get(c, q)
    {
      SetFrame(c, p, v, q);
      GetIsFirst(Set(c, p, v).tree, q);
      GetIsFirst(c, q);
    }
  }

  /** A delete, with its pruning, removes the first value at its path and nothing a diverging path sees. */
  lemma {:induction false} DeleteLaws(c: Json, p: Path)
    requires Keyed(p)
    ensures Delete(c, p).ok <==> Get(c, p).Some?
    ensures Look(Delete(c, p).tree, p) == Tail(Look(c, p))
    ensures forall q | Diverge(p, q) ::
      Look(Delete(c, p).tree, q) == Look(c, q) && Get(Delete(c, p).tree, q) == Get(c, q)
  {
    var d := DeleteAt(c, p);
    GetIsFirst(c, p);
    assert forall s | s in p :: s.IsField() || s.IsKeyMatch();
    DeleteThenLook(c, p);
    if d.ok { PruneFrame(d.tree, p, |p| - 1, p); }
    forall q | Diverge(p, q)
      ensures Look(Delete(c, p).tree, q) == Look(c, q) && Get(Delete(c, p).tree, q) == Get(c, q)
    {
      DeleteFrame(c, p, q);
      if d.ok { PruneFrame(d.tree, p, |p| - 1, q); }
      GetIsFirst(Delete(c, p).tree, q);
      GetIsFirst(c, q);
    }
  }

  /** Where a value is found, a set succeeds: this is what lets a revert restore. */
  lemma {:induction false} FoundThenSettable(c: Json, p: Path, v: Json)
    requires p != [] && Look(c, p) != [] && forall s | s in p :: s.IsField() || s.IsListSegment()
    ensures SetAt(c, p, v).ok
    decreases |p|
  {
    var seg := p[0];
    assert seg in p;
    if |p| > 1 {
      assert p[1] in p;
      if seg.IsField() {
        EmptyHasNothing(p[1], p[1..]);
        FoundThenSettable(c.fields[seg.name], p[1..], v);
      } else {
        EmptyHasNothing(p[1], p[1..]);
        if seg.IsKeyMatch() { FindIsFirstSelected(c.elems, seg.key, seg.val); }
        FoundThenSettable(c.elems[Position(c.elems, seg)], p[1..], v);
      }
    }
  }

  /** Writing what is already there changes nothing at all. */
  lemma {:induction false} SetSame(c: Json, p: Path, v: Json)
    requires p != [] && Get(c, p) == Some(v) && forall s | s in p :: s.IsField() || s.IsListSegment()
    ensures SetAt(c, p, v) == Edit(c, true)
    decreases |p|
  {
    var seg := p[0];
    assert seg in p;
    if |p| > 1 {
      assert p[1] in p;
      if seg.IsField() {
        var child := c.fields[seg.name];
        assert !child.Null?;
        SetSame(child, p[1..], v);
      } else {
        var child := c.elems[Position(c.elems, seg)];
        assert !child.Null?;
        SetSame(child, p[1..], v);
      }
    }
    if seg.IsField() {
      assert c.fields[seg.name := c.fields[seg.name]] == c.fields;
    } else {
      assert Grown(c.elems, seg) == c.elems;
    }
  }

  // ---- Exactly where a set shows ----

  /** A set at p appends an element on its way, and q is the field of that element that holds its key. */
  predicate Seeds(c: Json, p: Path, q: Path)
    decreases |p|
  {
    |p| > 1 && |q| > 1 && p[0] == q[0] &&
    ((p[0].IsKeyMatch() && Get(c, [p[0]]).None? && q == [p[0], Field(p[0].key)]) ||
     Seeds(Child(c, p), p[1..], q[1..]))
  }

  lemma {:induction false} FreshShowsKeyOnly(key: string, val: string, q: Path)
    requires q != [] && Walkable(q)
    ensures Look(Obj(map[key := Str(val)]), q) == if q == [Field(key)] then [Str(val)] else []
  {
    assert q[0] in q;
    if |q| > 1 { assert q[1] in q && q[1..][0] == q[1]; }
  }

  /** One step down: what the child shows is what the container shows, except a fresh element's key. */
  lemma {:induction false} ShownThrough(c: Json, p: Path, v: Json, q: Path)
    requires |p| > 1 && |q| > 1 && p[0] == q[0] && Diverge(p[1..], q[1..]) && Walkable(p) && Walkable(q)
    requires SetAt(c, p, v).ok
    ensures Look(SetAt(c, p, v).tree, q) == Look(SetAt(Child(c, p), p[1..], v).tree, q[1..]) || p[0].IsKeyMatch()
    ensures !p[0].IsKeyMatch() ==> Look(c, q) == Look(Child(c, p), q[1..])
  {
    assert p[0] in p && p[1] in p;
    NothingYet(p[1..], q[1..]);
  }

  lemma {:induction false} ShownThroughKey(c: Json, p: Path, v: Json, q: Path)
    requires |p| > 1 && |q| > 1 && p[0] == q[0] && Diverge(p[1..], q[1..]) && Walkable(p) && Walkable(q)
    requires SetAt(c, p, v).ok && p[0].IsKeyMatch() && Matches(SetAt(Child(c, p), p[1..], v).tree, p[0].key, p[0].val)
    ensures Look(SetAt(c, p, v).tree, q) == Look(SetAt(Child(c, p), p[1..], v).tree, q[1..])
    ensures Get(c, [p[0]]).Some? ==> Look(c, q) == Look(Child(c, p), q[1..])
    ensures Get(c, [p[0]]).None? ==> Look(c, q) == [] && Child(c, p) == Obj(map[p[0].key := Str(p[0].val)])
  {
    assert p[1] in p;
    NothingYet(p[1..], q[1..]);
    var g := Grown(c.elems, p[0]);
    var i := Position(c.elems, p[0]);
    SelectedSet(c.elems, p[0], g[i], "");
    SelectedSet(c.elems, p[0], SetAt(OrEmpty(g[i], p[1]), p[1..], v).tree, "");
    GetIsFirst(c, [p[0]]);
  }

  lemma {:induction false} ExactlyBelowKey(c: Json, p: Path, v: Json, q: Path)
    requires |p| > 1 && |q| > 1 && p[0] == q[0] && Diverge(p[1..], q[1..]) && KeepsKeys(p) && Walkable(p) && Walkable(q)
    requires SetAt(c, p, v).ok && p[0].IsKeyMatch()
    requires Look(SetAt(Child(c, p), p[1..], v).tree, q[1..]) == Look(Child(c, p), q[1..]) <==> !Seeds(Child(c, p), p[1..], q[1..])
    ensures Look(SetAt(c, p, v).tree, q) == Look(c, q) <==> !Seeds(c, p, q)
  {
    KeyStays(c, p, v);
    ShownThroughKey(c, p, v, q);
    FreshShowsKeyOnly(p[0].key, p[0].val, q[1..]);
    assert q == [q[0]] + q[1..];
  }

  /**
   * A set shows at a path that diverges from its own in one case only: the path is the key field of an
   * element the set has appended.
   */
  lemma {:induction false} SetFrameExactly(c: Json, p: Path, v: Json, q: Path)
    requires Diverge(p, q) && KeepsKeys(p) && Fits(p, v) && Walkable(p) && Walkable(q)
    requires SetAt(c, p, v).ok
    ensures Look(SetAt(c, p, v).tree, q) == Look(c, q) <==> !Seeds(c, p, q)
    decreases |p|
  {
    assert p[0] in p;
    if p[0] == q[0] {
      assert p[1] in p && Fits(p[1..], v);
      SetFrameExactly(Child(c, p), p[1..], v, q[1..]);
      if p[0].IsKeyMatch() {
        ExactlyBelowKey(c, p, v, q);
      } else {
        ShownThrough(c, p, v, q);
      }
    } else {
      UnseenHere(c, p, v, q);
    }
  }
}
