/** List positions: what a set, a delete and a release at a position do to the list, and to everything else. */
module Positions {
  import opened Json
  import opened FieldPath
  import opened FieldLaws
  import opened PathText
  import opened ClientSideApply
  import Runs = ApplyRuns

  /** The segments select different children of one container: other fields, other positions, or other values of one key. */
  predicate PartsAt(a: Segment, b: Segment)
  {
    DivergesAt(a, b) || (a.IsIndex() && b.IsIndex() && a.i != b.i)
  }

  predicate Parted(p: Path, q: Path)
  {
    p != [] && q != [] && (PartsAt(p[0], q[0]) || (p[0] == q[0] && Parted(p[1..], q[1..])))
  }

  /** A path that can be walked down to a list without meeting the field a match is made on. */
  predicate LeadsToList(c: Json, q: Path, es: seq<Json>)
  {
    q != [] && Walkable(q) && KeepsKeys(q) && Get(c, q) == Some(Arr(es))
  }

  // ---- Writing over what is there ----

  lemma {:induction false} ListIsNotMatched(c: Json, q: Path, es: seq<Json>)
    requires LeadsToList(c, q, es)
    ensures !q[|q| - 1].IsKeyMatch() && forall v :: Fits(q, v)
  {
    GetIsFirst(c, q);
    LookAtEnd(c, q);
    assert Arr(es) in Look(c, q);
  }

  lemma {:induction false} NextChild(c: Json, q: Path, es: seq<Json>)
    requires |q| > 1 && LeadsToList(c, q, es)
    ensures LeadsToList(Child(c, q), q[1..], es)
    ensures q[0].IsField() ==> c.Obj? && q[0].name in c.fields && Child(c, q) == c.fields[q[0].name]
    ensures !q[0].IsField() ==> c.Arr? && Grown(c.elems, q[0]) == c.elems && Child(c, q) == c.elems[Position(c.elems, q[0])]
  {
    assert q[0] in q && q[1] in q;
    if q[0].IsIndex() { assert Padded(c.elems, q[0].i) == c.elems; }
    var child := if q[0].IsField() then c.fields[q[0].name] else c.elems[Position(c.elems, q[0])];
    assert Get(child, q[1..]) == Some(Arr(es));
    assert !child.Null?;
  }

  /** A path of one step leads to the list itself. */
  lemma {:induction false} LastStep(c: Json, q: Path, es: seq<Json>)
    requires |q| == 1 && LeadsToList(c, q, es)
    ensures q[0].IsField() || q[0].IsIndex()
    ensures q[0].IsField() ==> c.Obj? && q[0].name in c.fields && c.fields[q[0].name] == Arr(es)
    ensures q[0].IsIndex() ==> c.Arr? && q[0].i < |c.elems| && c.elems[q[0].i] == Arr(es) && Padded(c.elems, q[0].i) == c.elems
  {
    ListIsNotMatched(c, q, es);
    assert q[0] in q && q[1..] == [];
    var child := if q[0].IsField() then c.fields[q[0].name] else c.elems[q[0].i];
    assert Get(child, []) == Some(child);
  }

  /** Removing a position is writing the shorter list. */
  lemma {:induction false} DeleteIsASet(c: Json, q: Path, es: seq<Json>, i: nat)
    requires LeadsToList(c, q, es) && i < |es|
    ensures DeleteAt(c, q + [Index(i)]) == SetAt(c, q, Arr(es[..i] + es[i + 1..])) && SetAt(c, q, Arr(es[..i] + es[i + 1..])).ok
    decreases |q|
  {
    var p := q + [Index(i)];
    assert q[0] in q && p[0] == q[0] && p[1..] == q[1..] + [Index(i)];
    if |q| > 1 {
      NextChild(c, q, es);
      DeleteIsASet(Child(c, q), q[1..], es, i);
    } else {
      LastStep(c, q, es);
      assert p[1..] == [Index(i)];
    }
  }

  /** Writing a position is writing the list with it. */
  lemma {:induction false} SetIsASet(c: Json, q: Path, es: seq<Json>, i: nat, v: Json)
    requires LeadsToList(c, q, es)
    ensures SetAt(c, q + [Index(i)], v) == SetAt(c, q, Arr(Padded(es, i)[i := v])) && SetAt(c, q, Arr(Padded(es, i)[i := v])).ok
    decreases |q|
  {
    var p := q + [Index(i)];
    assert q[0] in q && p[0] == q[0] && p[1..] == q[1..] + [Index(i)];
    if |q| > 1 {
      NextChild(c, q, es);
      SetIsASet(Child(c, q), q[1..], es, i, v);
    } else {
      LastStep(c, q, es);
      assert p[1..] == [Index(i)];
    }
  }

  /** Writing another list over a list is read back, and is not seen at a path that parts from it. */
  lemma {:induction false} ListReplaced(c: Json, q: Path, es: seq<Json>, l: seq<Json>)
    requires LeadsToList(c, q, es) && SetAt(c, q, Arr(l)).ok
    ensures LeadsToList(SetAt(c, q, Arr(l)).tree, q, l)
  {
    ListIsNotMatched(c, q, es);
    SetThenLook(c, q, Arr(l));
    GetIsFirst(SetAt(c, q, Arr(l)).tree, q);
  }

  lemma {:induction false} ReplacedElsewhere(c: Json, q: Path, es: seq<Json>, l: seq<Json>, r: Path)
    requires LeadsToList(c, q, es) && Parted(q, r)
    ensures Look(SetAt(c, q, Arr(l)).tree, r) == Look(c, r)
    decreases |q|
  {
    assert q[0] in q;
    if |q| > 1 {
      NextChild(c, q, es);
      if q[0] == r[0] && Parted(q[1..], r[1..]) {
        ReplacedElsewhere(Child(c, q), q[1..], es, l, r[1..]);
      }
      if q[0].IsKeyMatch() { ReplacedBelowKey(c, q, es, l, r); }
    } else {
      LastStep(c, q, es);
    }
  }

  lemma {:induction false} ReplacedBelowKey(c: Json, q: Path, es: seq<Json>, l: seq<Json>, r: Path)
    requires |q| > 1 && LeadsToList(c, q, es) && Parted(q, r) && q[0].IsKeyMatch()
    requires q[0] == r[0] && Parted(q[1..], r[1..]) ==>
      Look(SetAt(Child(c, q), q[1..], Arr(l)).tree, r[1..]) == Look(Child(c, q), r[1..])
    ensures Look(SetAt(c, q, Arr(l)).tree, r) == Look(c, r)
  {
    NextChild(c, q, es);
    KeyStays(c, q, Arr(l));
    var e := SetAt(Child(c, q), q[1..], Arr(l)).tree;
    SelectedSet(c.elems, q[0], c.elems[Position(c.elems, q[0])], r[0].val);
    SelectedSet(c.elems, q[0], e, r[0].val);
  }

  // ---- The laws ----

  /**
   * Deleting a position of a list takes that element out and moves the ones behind it up by one. Nothing is
   * pruned, and no path that parts from the list's own sees it.
   */
  lemma {:induction false} DeletePosition(c: Json, q: Path, es: seq<Json>, i: nat)
    requires LeadsToList(c, q, es) && i < |es|
    ensures var d := Delete(c, q + [Index(i)]);
      && d.ok
      && (exists l :: LeadsToList(d.tree, q, l) && |l| == |es| - 1 && forall j | 0 <= j < |l| :: l[j] == es[if j < i then j else j + 1])
      && forall r | Parted(q, r) :: Look(d.tree, r) == Look(c, r) && Get(d.tree, r) == Get(c, r)
  {
    var p, l := q + [Index(i)], es[..i] + es[i + 1..];
    DeleteIsASet(c, q, es, i);
    ListReplaced(c, q, es, l);
    assert p[..|p| - 1] == q;
    var d := Delete(c, p);
    assert d.tree == SetAt(c, q, Arr(l)).tree;
    forall r | Parted(q, r) ensures Look(d.tree, r) == Look(c, r) && Get(d.tree, r) == Get(c, r) {
      ReplacedElsewhere(c, q, es, l, r);
      GetIsFirst(d.tree, r);
      GetIsFirst(c, r);
    }
  }

  /** A position the list does not have is not deleted, and nothing changes. */
  lemma {:induction false} DeleteNoPosition(c: Json, q: Path, es: seq<Json>, i: nat)
    requires LeadsToList(c, q, es) && i >= |es|
    ensures Delete(c, q + [Index(i)]) == Edit(c, false)
  {
    NoPosition(c, q, es, i);
    DeleteNothing(c, q + [Index(i)]);
  }

  lemma {:induction false} NoPosition(c: Json, q: Path, es: seq<Json>, i: nat)
    requires LeadsToList(c, q, es) && i >= |es|
    ensures !DeleteAt(c, q + [Index(i)]).ok
    decreases |q|
  {
    var p := q + [Index(i)];
    assert q[0] in q && p[0] == q[0] && p[1..] == q[1..] + [Index(i)];
    if |q| > 1 {
      NextChild(c, q, es);
      NoPosition(Child(c, q), q[1..], es, i);
    } else {
      LastStep(c, q, es);
      assert p[1..] == [Index(i)];
    }
  }

  /**
   * Setting a position puts the value there and keeps the other elements in place; a position behind the end
   * grows the list by empty maps. No path that parts from the list's own sees it.
   */
  lemma {:induction false} SetPosition(c: Json, q: Path, es: seq<Json>, i: nat, v: Json)
    requires LeadsToList(c, q, es) && q[0].IsField()
    ensures var d := Set(c, q + [Index(i)], v);
      && d.ok
      && (exists l :: LeadsToList(d.tree, q, l) && |l| == (if i < |es| then |es| else i + 1)
            && forall j | 0 <= j < |l| :: l[j] == if j == i then v else if j < |es| then es[j] else Obj(map[]))
      && forall r | Parted(q, r) :: Look(d.tree, r) == Look(c, r) && Get(d.tree, r) == Get(c, r)
  {
    var p, l := q + [Index(i)], Padded(es, i)[i := v];
    assert p[0] == q[0];
    SetIsASet(c, q, es, i, v);
    ListReplaced(c, q, es, l);
    var d := Set(c, p, v);
    forall r | Parted(q, r) ensures Look(d.tree, r) == Look(c, r) && Get(d.tree, r) == Get(c, r) {
      ReplacedElsewhere(c, q, es, l, r);
      GetIsFirst(d.tree, r);
      GetIsFirst(c, r);
    }
  }

  // ---- Giving positions back ----

  /** What withdrawing position i of a list leaves: a prior goes back in place, and without one the element goes. */
  function PutBack(es: seq<Json>, i: nat, prior: Option<Json>): seq<Json>
  {
    if prior.Some? then Padded(es, i)[i := prior.value]
    else if i < |es| then es[..i] + es[i + 1..]
    else es
  }

  /** Positions withdrawn one after the other. */
  function PutBackAll(es: seq<Json>, at: seq<nat>, prior: nat -> Option<Json>): seq<Json>
    decreases |at|
  {
    if at == [] then es else PutBackAll(PutBack(es, at[0], prior(at[0])), at[1..], prior)
  }

  /** The positions of one list, as paths. */
  function At(q: Path, at: seq<nat>): seq<Path>
  {
    seq(|at|, j requires 0 <= j < |at| => q + [Index(at[j])])
  }

  function PriorOf(q: Path, priors: Priors): nat -> Option<Json>
  {
    i => if Print(q + [Index(i)]) in priors then Some(priors[Print(q + [Index(i)])]) else None
  }

  lemma {:induction false} RestorePosition(c: Json, q: Path, es: seq<Json>, i: nat, priors: Priors)
    requires LeadsToList(c, q, es) && q[0].IsField()
    ensures var d := RestoreOrDelete(c, q + [Index(i)], priors);
      && LeadsToList(d, q, PutBack(es, i, PriorOf(q, priors)(i)))
      && forall r | Parted(q, r) :: Look(d, r) == Look(c, r) && Get(d, r) == Get(c, r)
  {
    var p := q + [Index(i)];
    if Print(p) in priors {
      SetPosition(c, q, es, i, priors[Print(p)]);
      var d := Set(c, p, priors[Print(p)]);
      var l :| LeadsToList(d.tree, q, l) && |l| == (if i < |es| then |es| else i + 1)
        && forall j | 0 <= j < |l| :: l[j] == if j == i then priors[Print(p)] else if j < |es| then es[j] else Obj(map[]);
      assert l == Padded(es, i)[i := priors[Print(p)]];
    } else if i < |es| {
      DeletePosition(c, q, es, i);
      var d := Delete(c, p);
      var l :| LeadsToList(d.tree, q, l) && |l| == |es| - 1 && forall j | 0 <= j < |l| :: l[j] == es[if j < i then j else j + 1];
      assert l == es[..i] + es[i + 1..];
    } else {
      DeleteNoPosition(c, q, es, i);
    }
  }

  /** A release of claimed positions works on the list one after the other, and on nothing that parts from it. */
  lemma {:induction false} RevertPositions(c: Json, q: Path, es: seq<Json>, at: seq<nat>, priors: Priors)
    requires LeadsToList(c, q, es) && q[0].IsField()
    ensures var d := RevertAll(c, At(q, at), priors);
      && LeadsToList(d, q, PutBackAll(es, at, PriorOf(q, priors)))
      && forall r | Parted(q, r) :: Look(d, r) == Look(c, r) && Get(d, r) == Get(c, r)
    decreases |at|
  {
    if at != [] {
      assert At(q, at)[0] == q + [Index(at[0])] && At(q, at)[1..] == At(q, at[1..]);
      RestorePosition(c, q, es, at[0], priors);
      RevertPositions(RestoreOrDelete(c, q + [Index(at[0])], priors), q, PutBack(es, at[0], PriorOf(q, priors)(at[0])), at[1..], priors);
    }
  }

  // ---- Which elements that takes ----

  /** The elements whose positions are not among those that go. */
  function Kept(es: seq<Json>, gone: set<nat>): seq<Json>
    decreases |es|
  {
    if es == [] then [] else
    var n := |es| - 1;
    Kept(es[..n], gone) + if n in gone then [] else [es[n]]
  }

  predicate Ascending(at: seq<nat>)
  {
    forall i, j | 0 <= i < j < |at| :: at[i] < at[j]
  }

  /** Where the elements taken by withdrawing these positions stood at first: each withdrawal moves the rest up by one. */
  function Taken(at: seq<nat>): set<nat>
  {
    set j | 0 <= j < |at| :: at[j] + j
  }

  lemma {:induction false} KeptBelow(es: seq<Json>, m: nat, gone: set<nat>)
    requires m <= |es| && forall x | x in gone :: x < m
    ensures Kept(es, gone) == Kept(es[..m], gone) + es[m..]
    decreases |es|
  {
    if m == |es| {
      assert es[..m] == es;
    } else {
      var n := |es| - 1;
      assert es[..n][..m] == es[..m] && es[m..] == es[..n][m..] + [es[n]];
      KeptBelow(es[..n], m, gone);
    }
  }

  lemma {:induction false} KeptWithout(es: seq<Json>, m: nat, gone: set<nat>)
    requires m < |es| && forall x | x in gone :: x < m
    ensures Kept(es, gone + {m}) == Kept(es[..m], gone) + es[m + 1..]
    decreases |es|
  {
    var n := |es| - 1;
    if m == n {
      KeptSame(es[..n], gone, gone + {m});
      assert es[m + 1..] == [];
    } else {
      assert es[..n][..m] == es[..m] && es[m + 1..] == es[..n][m + 1..] + [es[n]];
      KeptWithout(es[..n], m, gone);
    }
  }

  lemma {:induction false} KeptSame(es: seq<Json>, a: set<nat>, b: set<nat>)
    requires forall x | 0 <= x < |es| :: x in a <==> x in b
    ensures Kept(es, a) == Kept(es, b)
    decreases |es|
  {
    if es != [] { KeptSame(es[..|es| - 1], a, b); }
  }

  lemma {:induction false} KeptCount(es: seq<Json>, gone: set<nat>)
    requires forall x | x in gone :: x < |es|
    ensures |Kept(es, gone)| == |es| - |gone|
    decreases |es|
  {
    if es != [] {
      var n := |es| - 1;
      KeptSame(es[..n], gone, gone - {n});
      KeptCount(es[..n], gone - {n});
    } else {
      assert gone == {};
    }
  }

  lemma {:induction false} PutBackLast(es: seq<Json>, at: seq<nat>, prior: nat -> Option<Json>)
    requires at != []
    ensures var n := |at| - 1; PutBackAll(es, at, prior) == PutBack(PutBackAll(es, at[..n], prior), at[n], prior(at[n]))
    decreases |at|
  {
    if |at| > 1 {
      var n := |at| - 1;
      PutBackLast(PutBack(es, at[0], prior(at[0])), at[1..], prior);
      assert at[1..][..n - 1] == at[..n][1..] && at[1..][n - 1] == at[n];
    }
  }

  lemma {:induction false} TakenGrows(at: seq<nat>)
    requires at != [] && Ascending(at)
    ensures var n := |at| - 1;
      && Taken(at) == Taken(at[..n]) + {at[n] + n}
      && forall x | x in Taken(at[..n]) :: x < at[n] + n
  {
    var n := |at| - 1;
    var front := at[..n];
    forall x | x in Taken(at) ensures x in Taken(front) + {at[n] + n} {
      var j :| 0 <= j < |at| && x == at[j] + j;
      if j < n { assert x == front[j] + j; }
    }
    forall x | x in Taken(front) ensures x in Taken(at) && x < at[n] + n {
      var j :| 0 <= j < n && x == front[j] + j;
      assert x == at[j] + j;
    }
    assert at[n] + n in Taken(at);
  }

  lemma {:induction false} TakenCount(at: seq<nat>)
    requires Ascending(at)
    ensures |Taken(at)| == |at|
    decreases |at|
  {
    if at == [] {
      assert Taken(at) == {};
    } else {
      TakenGrows(at);
      TakenCount(at[..|at| - 1]);
    }
  }

  lemma {:induction false} TakenLast(at: seq<nat>)
    requires at != [] && Ascending(at)
    ensures var n := |at| - 1;
      && Taken(at) == Taken(at[..n]) + {at[n] + n} && |Taken(at[..n])| == n
      && forall x | x in Taken(at[..n]) :: x < at[n] + n
  {
    TakenGrows(at);
    TakenCount(at[..|at| - 1]);
  }

  /**
   * Released in ascending order, with no priors, the claimed positions take exactly the elements at the positions
   * each raised by the number of releases before it, as far as the list goes.
   */
  lemma {:induction false} AscendingTakes(es: seq<Json>, at: seq<nat>, prior: nat -> Option<Json>)
    requires Ascending(at) && forall j | 0 <= j < |at| :: prior(at[j]).None?
    ensures PutBackAll(es, at, prior) == Kept(es, Taken(at))
    decreases |at|
  {
    if at == [] {
      KeptBelow(es, 0, {});
      assert Taken(at) == {};
    } else {
      var n := |at| - 1;
      AscendingTakes(es, at[..n], prior);
      PutBackLast(es, at, prior);
      LastTaken(es, at, Taken(at[..n]), at[n] + n);
      assert Taken(at) == Taken(at[..n]) + {at[n] + n} by { TakenGrows(at); }
    }
  }

  lemma {:induction false} FewKept(es: seq<Json>, at: seq<nat>)
    requires at != [] && Ascending(at)
    ensures var n := |at| - 1; at[n] + n >= |es| ==> |Kept(es, Taken(at[..n]))| <= at[n]
  {
    var front := at[..|at| - 1];
    assert Ascending(front);
    if at[|at| - 1] + |front| >= |es| { AtMost(es, front, at[|at| - 1]); }
  }

  lemma {:induction false} LastTaken(es: seq<Json>, at: seq<nat>, gone: set<nat>, m: nat)
    requires at != [] && Ascending(at) && gone == Taken(at[..|at| - 1]) && m == at[|at| - 1] + |at| - 1
    ensures PutBack(Kept(es, gone), at[|at| - 1], None) == Kept(es, gone + {m})
  {
    TakenLast(at);
    FewKept(es, at);
    TakeAt(es, at[|at| - 1], m, gone);
  }

  lemma {:induction false} TakeAt(es: seq<Json>, i: nat, m: nat, gone: set<nat>)
    requires m == i + |gone| && forall x | x in gone :: x < m
    requires m >= |es| ==> |Kept(es, gone)| <= i
    ensures PutBack(Kept(es, gone), i, None) == Kept(es, gone + {m})
  {
    if m < |es| { TakeOne(es, m, gone); } else { KeptSame(es, gone, gone + {m}); }
  }

  /** What is left of a list, and the element that was at m taken from it. */
  lemma {:induction false} TakeOne(es: seq<Json>, m: nat, gone: set<nat>)
    requires m < |es| && |gone| <= m && forall x | x in gone :: x < m
    ensures PutBack(Kept(es, gone), m - |gone|, None) == Kept(es, gone + {m})
  {
    KeptBelow(es, m, gone);
    KeptWithout(es, m, gone);
    KeptCount(es[..m], gone);
    var l := Kept(es[..m], gone);
    assert (l + es[m..])[..|l|] == l && (l + es[m..])[|l| + 1..] == es[m + 1..];
  }

  lemma {:induction false} KeptThrough(es: seq<Json>, at: seq<nat>)
    requires at != [] && Ascending(at) && at[|at| - 1] + |at| - 1 < |es|
    ensures |Kept(es, Taken(at))| == |es| - |at|
  {
    TakenLast(at);
    TakenCount(at);
    KeptCount(es, Taken(at));
  }

  /** Of at most m elements behind the positions taken, at most m are kept. */
  lemma {:induction false} AtMost(es: seq<Json>, at: seq<nat>, m: nat)
    requires Ascending(at) && m + |at| >= |es| && (at != [] ==> at[|at| - 1] < m)
    ensures |Kept(es, Taken(at))| <= m
    decreases |at|
  {
    if at == [] {
      KeptBelow(es, 0, {});
      assert Taken(at) == {};
    } else if at[|at| - 1] + |at| - 1 < |es| {
      KeptThrough(es, at);
    } else {
      var n := |at| - 1;
      TakenLast(at);
      KeptSame(es, Taken(at), Taken(at[..n]));
      AtMost(es, at[..n], at[n]);
    }
  }

  /** So exactly the claimed elements of the list go if and only if at most one claimed position is in it. */
  lemma {:induction false} OnePositionAtMost(at: seq<nat>, n: nat)
    requires Ascending(at)
    ensures (forall x | 0 <= x < n :: x in Taken(at) <==> x in at) <==> |at| < 2 || at[1] >= n
  {
    if |at| >= 2 && at[1] < n {
      assert at[1] in at;
      forall j | 0 <= j < |at| ensures at[j] + j != at[1] {
      }
      assert at[1] !in Taken(at);
    } else {
      forall x | 0 <= x < n ensures x in Taken(at) <==> x in at {
        if x in Taken(at) { var j :| 0 <= j < |at| && x == at[j] + j; assert j == 0; }
        if x in at { var j :| 0 <= j < |at| && x == at[j]; assert j == 0 && x == at[0] + 0; }
      }
    }
  }

  lemma {:induction false} KeptInFront(es: seq<Json>, m: nat, gone: set<nat>)
    requires m <= |es|
    ensures Kept(es[..m], gone) <= Kept(es, gone)
    decreases |es|
  {
    if m == |es| {
      assert es[..m] == es;
    } else {
      assert es[..|es| - 1][..m] == es[..m];
      KeptInFront(es[..|es| - 1], m, gone);
    }
  }

  /** The element at the second claimed position stays, where the first one's release has moved it. */
  lemma {:induction false} SecondStays(es: seq<Json>, at: seq<nat>)
    requires Ascending(at) && |at| >= 2 && at[1] < |es|
    ensures 0 < at[1] <= |Kept(es, Taken(at))| && Kept(es, Taken(at))[at[1] - 1] == es[at[1]]
  {
    var x, gone := at[1], Taken(at);
    forall j | 0 <= j < |at| ensures at[j] + j != x && (j > 0 ==> at[j] + j > x) {
    }
    var first := {at[0]};
    forall y | 0 <= y < x ensures y in gone <==> y in first {
      if y in gone { var j :| 0 <= j < |at| && y == at[j] + j; }
      if y in first { assert y == at[0] + 0; }
    }
    assert es[..x + 1][..x] == es[..x];
    KeptSame(es[..x], gone, first);
    KeptCount(es[..x], first);
    assert Kept(es[..x + 1], gone) == Kept(es[..x], first) + [es[x]];
    KeptInFront(es, x + 1, gone);
  }

  /**
   * Claimed positions of a list are released one by one, and each release moves the rest up: exactly the claimed
   * elements go if and only if at most one claimed position is in the list. Otherwise the second stays.
   */
  lemma {:induction false} PositionsReleased(c: Json, q: Path, es: seq<Json>, at: seq<nat>, priors: Priors)
    requires LeadsToList(c, q, es) && q[0].IsField() && Ascending(at)
    requires forall i | i in at :: Print(q + [Index(i)]) !in priors
    ensures var d, left := RevertAll(c, At(q, at), priors), Kept(es, Taken(at));
      && LeadsToList(d, q, left)
      && (forall r | Parted(q, r) :: Get(d, r) == Get(c, r))
      && ((forall x | 0 <= x < |es| :: x in Taken(at) <==> x in at) <==> |at| < 2 || at[1] >= |es|)
      && (|at| >= 2 && at[1] < |es| ==> 0 < at[1] <= |left| && left[at[1] - 1] == es[at[1]])
  {
    RevertPositions(c, q, es, at, priors);
    AscendingTakes(es, at, PriorOf(q, priors));
    OnePositionAtMost(at, |es|);
    if |at| >= 2 && at[1] < |es| { SecondStays(es, at); }
  }

  lemma {:induction false} SetElement(fields: map<string, Json>, name: string, i: nat, v: Json)
    requires name != "" && (name in fields ==> fields[name].Arr?)
    ensures var es := if name in fields then fields[name].elems else [];
      Set(Obj(fields), [Field(name)] + [Index(i)], v) == Edit(Obj(fields[name := Arr(Padded(es, i)[i := v])]), true)
  {
    var p := [Field(name)] + [Index(i)];
    assert p[0] == Field(name) && p[1..] == [Index(i)] && p[1] == Index(i);
    var es := if name in fields then fields[name].elems else [];
    assert SetAt(Arr(es), [Index(i)], v) == Edit(Arr(Padded(es, i)[i := v]), true);
  }

  lemma {:induction false} DeleteElement(fields: map<string, Json>, name: string, i: nat)
    requires name != "" && name in fields && fields[name].Arr?
    ensures Delete(Obj(fields), [Field(name)] + [Index(i)]).tree == Obj(fields[name := Arr(PutBack(fields[name].elems, i, None))])
  {
    var q := [Field(name)];
    var child := fields[name];
    assert q[1..] == [] && Get(child, []) == Some(child);
    assert fields[name := child] == fields;
    assert KeepsKeys(q) && Walkable(q);
    if i < |child.elems| {
      var p := q + [Index(i)];
      assert p[1..] == [Index(i)] && p[..1] == q;
      var l := PutBack(child.elems, i, None);
      var tree := DeleteAt(Obj(fields), p).tree;
      assert DeleteAt(child, [Index(i)]) == Edit(Arr(l), true);
      assert tree == Obj(fields[name := Arr(l)]);
      assert Get(tree.fields[name], []) == Some(Arr(l));
      assert Get(tree, q) == Some(Arr(l));
    } else {
      DeleteNoPosition(Obj(fields), q, child.elems, i);
    }
  }

  lemma {:induction false} GetElement(fields: map<string, Json>, name: string, es: seq<Json>, i: nat)
    requires name != "" && name in fields && fields[name] == Arr(es)
    ensures Get(Obj(fields), [Field(name)] + [Index(i)]) == if i < |es| then Some(es[i]) else None
  {
    var p := [Field(name)] + [Index(i)];
    assert p[1..] == [Index(i)];
    if i < |es| {
      assert [Index(i)][1..] == [] && Get(es[i], []) == Some(es[i]);
    }
  }

  lemma {:induction false} BringsList(fields: map<string, Json>, name: string, a: Json, b: Json)
    requires name != "" && name !in fields
    ensures var c := Contribution(Obj(map[name := Arr([a, b])]), At([Field(name)], [0, 1]));
      Update(Obj(fields), c, [], map[], false) == Some(Written(Obj(fields[name := Arr([a, b])]), map[]))
  {
    var q, obj := [Field(name)], Obj(map[name := Arr([a, b])]);
    var paths := At(q, [0, 1]);
    var last: seq<Path> := [q + [Index(1)]];
    assert paths[0] == q + [Index(0)] && paths[1..] == last && last[1..] == [];
    GetElement(obj.fields, name, [a, b], 0);
    GetElement(obj.fields, name, [a, b], 1);
    assert Get(Obj(fields), q + [Index(0)]).None? && Get(Obj(fields), q + [Index(1)]).None?;
    assert Capture(Obj(fields), obj, last, map[]) == map[];
    assert Capture(Obj(fields), obj, paths, map[]) == map[];
    SetElement(fields, name, 0, a);
    assert Padded([], 0)[0 := a] == [a] && Padded([a], 1)[1 := b] == [a, b];
    var first := fields[name := Arr([a])];
    SetElement(first, name, 1, b);
    assert first[name := Arr([a, b])] == fields[name := Arr([a, b])];
    assert SetAll(Obj(first), obj, last) == Some(Obj(fields[name := Arr([a, b])]));
    assert SetAll(Obj(fields), obj, paths) == SetAll(Obj(first), obj, last);
  }

  lemma {:induction false} ReleasesList(fields: map<string, Json>, name: string, a: Json, b: Json)
    requires name != "" && name in fields && fields[name] == Arr([a, b])
    ensures RevertAll(Obj(fields), At([Field(name)], [0, 1]), map[]) == Obj(fields[name := Arr([b])])
  {
    var q := [Field(name)];
    var paths := At(q, [0, 1]);
    var last: seq<Path> := [q + [Index(1)]];
    assert paths[0] == q + [Index(0)] && paths[1..] == last && last[1..] == [];
    DeleteElement(fields, name, 0);
    assert PutBack([a, b], 0, None) == [b] && PutBack([b], 1, None) == [b];
    var first := fields[name := Arr([b])];
    DeleteElement(first, name, 1);
    assert first[name := Arr([b])] == first;
    assert RevertAll(Obj(first), last, map[]) == Obj(first);
    assert RevertAll(Obj(fields), paths, map[]) == RevertAll(Obj(first), last, map[]);
  }

  /** A contributor that brings a list of two, by position, and is released: its second element stays, on any document. */
  lemma {:induction false} ListOfTwoStays(id: Runs.Id, fields: map<string, Json>, name: string, a: Json, b: Json)
    requires name !in fields && Printable([Field(name), Index(0)]) && Printable([Field(name), Index(1)])
    ensures var c := Contribution(Obj(map[name := Arr([a, b])]), At([Field(name)], [0, 1]));
      Runs.Run(Runs.World(Obj(fields), map[]), [Runs.Apply(id, c), Runs.Release(id)])
      == Runs.World(Obj(fields[name := Arr([b])]), map[])
  {
    var q, es := [Field(name)], [a, b];
    var c := Contribution(Obj(map[name := Arr(es)]), At(q, [0, 1]));
    var w, ops := Runs.World(Obj(fields), map[]), [Runs.Apply(id, c), Runs.Release(id)];
    assert c.paths == [q + [Index(0)], q + [Index(1)]];
    assert q + [Index(0)] == [Field(name), Index(0)] && q + [Index(1)] == [Field(name), Index(1)];
    assert Field(name) in [Field(name), Index(0)];
    BringsList(fields, name, a, b);
    Runs.StoredPathsReadBack(c.paths);
    assert Runs.Previous(Runs.FRESH) == [];
    var w1 := Runs.World(Obj(fields[name := Arr(es)]), map[id := Runs.Record(Texts(c.paths), map[], true)]);
    assert w.records[id := w1.records[id]] == w1.records;
    assert Runs.Step(w, ops[0]).0 == w1;
    ReleasesList(fields[name := Arr(es)], name, a, b);
    assert fields[name := Arr(es)][name := Arr([b])] == fields[name := Arr([b])];
    var w2 := Runs.World(Obj(fields[name := Arr([b])]), map[]);
    assert w1.records - {id} == w2.records;
    assert Runs.Step(w1, ops[1]).0 == w2;
    assert ops[1..] == [ops[1]] && Runs.Run(w1, [ops[1]]) == w2;
  }
}
