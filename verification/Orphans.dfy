/** Legal runs, from nothing, that end with orphaned fields or a tracker nobody can delete. */
module Orphans {
  import opened Json
  import opened ClientSideApply
  import opened Trackers
  import opened Conflicts
  import opened TrackerPass
  import opened Listing
  import opened PassLaws
  import opened Reports
  import opened Lifecycle
  import opened Finalizers

  ghost predicate Reachable(w: World)
  {
    exists ops :: AllLegal(NOTHING, ops) && Run(NOTHING, ops) == w
  }

  lemma {:induction false} RunMore(w: World, ops: seq<Op>, op: Op)
    requires AllLegal(w, ops) && Legal(Run(w, ops), op)
    ensures AllLegal(w, ops + [op]) && Run(w, ops + [op]) == Step(Run(w, ops), op)
    decreases |ops|
  {
    if ops == [] {
      assert [] + [op] == [op] && [op][1..] == [];
      assert AllLegal(Step(w, op), []);
    } else {
      assert (ops + [op])[0] == ops[0] && (ops + [op])[1..] == ops[1..] + [op];
      RunMore(Step(w, ops[0]), ops[1..], op);
    }
  }

  lemma {:induction false} ReachesMore(w: World, op: Op)
    requires Reachable(w) && Legal(w, op)
    ensures Reachable(Step(w, op))
  {
    var ops :| AllLegal(NOTHING, ops) && Run(NOTHING, ops) == w;
    RunMore(NOTHING, ops, op);
  }

  lemma {:induction false} NothingIsReachable()
    ensures Reachable(NOTHING)
  {
    assert AllLegal(NOTHING, []) && Run(NOTHING, []) == NOTHING;
  }

  // ---- A contributor alone ----

  /** A contributor that would create the target by itself. */
  predicate CanCreate(c: Contributor)
  {
    && c.ref.uid != "" && !c.deleting && c.fault.Clean? && !c.policy.Priority?
    && c.allowCreate && c.base.None? && c.rendered.Some? && c.rendered.value.obj.Obj?
  }

  function Alone(c: Contributor): seq<Listed>
  {
    [Listed(c, RecordFor(c, BLANK))]
  }

  lemma {:induction false} OneIsListed(w: World, c: Contributor)
    requires w.lives.Keys == {c.ref.uid} && w.lives[c.ref.uid].obj == c
    ensures Lists(w, BLANK, Alone(c))
  {
    var list := Alone(c);
    assert list[0].obj == c && list[0].status == RecordFor(c, BLANK);
    forall uid | uid in w.lives ensures exists i :: 0 <= i < |list| && list[i].obj.ref.uid == uid {
      assert uid in w.lives.Keys && list[0].obj.ref.uid == uid;
    }
  }

  lemma {:induction false} OneStays(c: Listed)
    requires !c.obj.deleting
    ensures Leaving([c]) == [] && Active([c]) == [c]
  {
    assert [c][1..] == [];
  }

  lemma {:induction false} AloneIsActive(c: Contributor)
    requires CanCreate(c)
    ensures Active(Alone(c)) == Alone(c) && Leaving(Alone(c)) == [] && AllRender(Alone(c))
  {
    OneStays(Alone(c)[0]);
  }

  /** Its first pass creates the target; the pass is on record only if the status is saved. */
  lemma {:induction false} AloneCreates(c: Contributor, saves: bool)
    requires CanCreate(c)
    ensures var p := Pass(None, BLANK, Alone(c), saves);
      && p.target == Some(c.rendered.value.obj.fields)
      && (saves ==> p.verdict.Completed? && |p.status.contributors| == 1 && p.status.contributors[0].ref == c.ref)
      && (!saves ==> p.verdict.Broken? && p.status.contributors == [])
      && p.status.phase == (if saves then Phase.Applied else Unset)
    ensures PassEvents(None, BLANK, Alone(c)) == [Wrote(c.ref.uid), Reported(c.ref.uid)]
  {
    var list, contribution := Alone(c), c.rendered.value;
    AloneIsActive(c);
    var s := Departures(None, BLANK, list);
    assert s == Start(None, BLANK);
    var claims := ContestedPaths(Rendered(list));
    assert !Yields(list, claims, 0);
    var t := Turn(s, list[0], contribution, false);
    assert t == Settled(s.(target := Some(contribution.obj.fields)), list[0], contribution, true, map[]);
    assert t.verdict.Running? && t.target == Some(contribution.obj.fields) && |t.records| == 1 && t.records[0].ref == c.ref;
    assert Turns(s, list, claims, 0) == Turns(t, list, claims, 1) == t;
    assert OwnEvents(s, list[0], contribution, false) == [Wrote(c.ref.uid), Reported(c.ref.uid)];
    assert TurnEvents(t, list, claims, 1) == [];
    assert TurnEvents(s, list, claims, 0) == OwnEvents(s, list[0], contribution, false) + TurnEvents(t, list, claims, 1);
    assert DepartureEvents(None, BLANK, list) == [];
  }

  lemma {:induction false} NowHeld(log: seq<Event>, uid: string)
    ensures Held(log + [Wrote(uid), Reported(uid)], uid)
  {
    var more := [Wrote(uid), Reported(uid)];
    HeldSplit(false, log, more, uid);
    assert more[1..] == [Reported(uid)] && more[1..][1..] == [];
    assert HeldFrom(true, [Reported(uid)], uid) == HeldFrom(true, [], uid);
  }

  /** The contributor has its finalizer and a tracker; its status names the tracker if that was saved. */
  function Joined(c: Contributor, saves: bool): World
  {
    Step(Step(Step(NOTHING, Arrive(c)), Join(c.ref.uid, true)), Join(c.ref.uid, saves))
  }

  lemma {:induction false} JoinedIsReachable(c: Contributor, saves: bool)
    requires CanCreate(c)
    ensures var w := Joined(c, saves);
      Reachable(w) && w == World(map[c.ref.uid := Life(c, true, saves)], {c.ref.uid}, Some(BLANK), None, [TrackerMade])
  {
    NothingIsReachable();
    var w1 := Step(NOTHING, Arrive(c));
    var w2 := Step(w1, Join(c.ref.uid, true));
    ReachesMore(NOTHING, Arrive(c));
    ReachesMore(w1, Join(c.ref.uid, true));
    ReachesMore(w2, Join(c.ref.uid, saves));
    assert w1.lives == map[c.ref.uid := Life(c, false, false)];
    assert w2.lives == map[c.ref.uid := Life(c, true, false)];
  }

  /** After its first pass. */
  function Served(c: Contributor, joins: bool, saves: bool): World
  {
    Step(Joined(c, joins), Reconcile(Alone(c), saves))
  }

  lemma {:induction false} ServedIsReachable(c: Contributor, joins: bool, saves: bool)
    requires CanCreate(c)
    ensures var w, uid := Served(c, joins, saves), c.ref.uid;
      && Reachable(w) && Held(w.log, uid)
      && w.lives == map[uid := Life(c, true, joins)] && w.used == {uid}
      && w.target == Some(c.rendered.value.obj.fields) && w.tracker.Some?
      && (saves ==> |w.tracker.value.contributors| == 1 && w.tracker.value.contributors[0].ref == c.ref)
      && (!saves ==> w.tracker.value.contributors == [])
      && !w.tracker.value.phase.Releasing?
  {
    var before, uid := Joined(c, joins), c.ref.uid;
    JoinedIsReachable(c, joins);
    OneIsListed(before, c);
    ReachesMore(before, Reconcile(Alone(c), saves));
    AloneCreates(c, saves);
    NowHeld(before.log, uid);
  }

  lemma {:induction false} HeldWhenGone(log: seq<Event>, uid: string)
    requires Held(log, uid)
    ensures !NeverOrphaned(log + [Gone(uid)], uid)
  {
    var log' := log + [Gone(uid)];
    assert log'[|log|] == Gone(uid) && log'[..|log|] == log;
  }

  // ---- Orphaned fields ----

  /** Two contributors and the tracker's records of them. */
  function Both(a: Contributor, b: Contributor, status: Status): seq<Listed>
  {
    [Listed(a, RecordFor(a, status)), Listed(b, RecordFor(b, status))]
  }

  lemma {:induction false} TwoAreListed(w: World, status: Status, a: Contributor, b: Contributor)
    requires a.ref.uid != b.ref.uid && w.lives.Keys == {a.ref.uid, b.ref.uid}
    requires w.lives[a.ref.uid].obj == a && w.lives[b.ref.uid].obj == b
    ensures Lists(w, status, Both(a, b, status))
  {
    var list := Both(a, b, status);
    assert list[0].status.ref == a.ref && list[1].status.ref == b.ref;
    forall uid | uid in w.lives ensures exists i :: 0 <= i < |list| && list[i].obj.ref.uid == uid {
      assert uid in w.lives.Keys;
      assert list[if uid == a.ref.uid then 0 else 1].obj.ref.uid == uid;
    }
  }

  /** A pass over two who stay, one of them with a patch that does not render, empties the list and does no more. */
  lemma {:induction false} UnrenderedPass(target: Target, status: Status, a: Contributor, b: Contributor)
    requires !a.deleting && !b.deleting && b.rendered.None?
    ensures var p := Pass(target, status, Both(a, b, status), true);
      p.target == target && p.status.contributors == []
    ensures PassEvents(target, status, Both(a, b, status)) == []
  {
    var list := Both(a, b, status);
    OneStays(list[1]);
    assert list[1..] == [list[1]];
    assert Leaving(list) == [] && Active(list) == [list[0]] + [list[1]];
    assert Active(list)[1].obj.rendered.None?;
    assert Departures(target, status, list) == Start(target, status);
  }

  lemma {:induction false} SecondArrives(a: Contributor, b: Contributor)
    requires CanCreate(a) && b.ref.uid !in {"", a.ref.uid} && !b.deleting
    ensures var w := Step(Served(a, true, true), Arrive(b));
      && Reachable(w) && Held(w.log, a.ref.uid) && w.tracker.Some? && w.target == Some(a.rendered.value.obj.fields)
      && w.lives == map[a.ref.uid := Life(a, true, true), b.ref.uid := Life(b, false, false)]
  {
    ServedIsReachable(a, true, true);
    ReachesMore(Served(a, true, true), Arrive(b));
  }

  /** Nothing keeps a contributor that an empty list on record does not name. */
  lemma {:induction false} UnlistedGoes(w: World, uid: string)
    requires Reachable(w) && Held(w.log, uid) && uid in w.lives && w.lives[uid].finalizer
    requires w.tracker.Some? && w.tracker.value.contributors == []
    ensures var after := Step(Step(w, Leave(uid)), Drop(uid));
      && Reachable(after) && uid !in after.lives && after.target == w.target && !NeverOrphaned(after.log, uid)
  {
    var left := Step(w, Leave(uid));
    ReachesMore(w, Leave(uid));
    ReachesMore(left, Drop(uid));
    assert Step(left, Drop(uid)).log == w.log + [Gone(uid)];
    HeldWhenGone(w.log, uid);
  }

  /** Somebody else's patch does not render in the pass before a contributor on record is deleted. */
  lemma {:induction false} RenderErrorOrphans(a: Contributor, b: Contributor)
    requires CanCreate(a) && b.ref.uid !in {"", a.ref.uid} && !b.deleting && b.rendered.None?
    ensures var w := Step(Served(a, true, true), Arrive(b));
      && w.tracker.Some?
      && var after := Step(Step(Step(w, Reconcile(Both(a, b, w.tracker.value), true)), Leave(a.ref.uid)), Drop(a.ref.uid));
      && Reachable(after) && a.ref.uid !in after.lives
      && after.target == Some(a.rendered.value.obj.fields) && !NeverOrphaned(after.log, a.ref.uid)
  {
    SecondArrives(a, b);
    var w := Step(Served(a, true, true), Arrive(b));
    var op := Reconcile(Both(a, b, w.tracker.value), true);
    TwoAreListed(w, w.tracker.value, a, b);
    ReachesMore(w, op);
    UnrenderedPass(w.target, w.tracker.value, a, b);
    assert Step(w, op).log == w.log + [] == w.log;
    UnlistedGoes(Step(w, op), a.ref.uid);
  }

  /** The pass's status write is lost after the contributor wrote for the first time. */
  lemma {:induction false} LostStatusOrphans(a: Contributor)
    requires CanCreate(a)
    ensures var after := Step(Step(Served(a, true, false), Leave(a.ref.uid)), Drop(a.ref.uid));
      && Reachable(after) && a.ref.uid !in after.lives
      && after.target == Some(a.rendered.value.obj.fields) && !NeverOrphaned(after.log, a.ref.uid)
  {
    var w, uid := Served(a, true, false), a.ref.uid;
    ServedIsReachable(a, true, false);
    UnlistedGoes(w, uid);
  }

  /** A tracker left over from a contributor that came and went before it wrote anything. */
  function Leftover(a: Contributor): World
  {
    Step(Step(Joined(a, true), Leave(a.ref.uid)), Drop(a.ref.uid))
  }

  lemma {:induction false} LeftoverIsReachable(a: Contributor)
    requires CanCreate(a)
    ensures var w := Leftover(a);
      Reachable(w) && w.lives == map[] && w.used == {a.ref.uid} && w.tracker == Some(BLANK) && w.target.None?
  {
    var first := Joined(a, true);
    JoinedIsReachable(a, true);
    ReachesMore(first, Leave(a.ref.uid));
    ReachesMore(Step(first, Leave(a.ref.uid)), Drop(a.ref.uid));
  }

  lemma {:induction false} NewcomerIsServed(w: World, b: Contributor)
    requires CanCreate(b) && Reachable(w) && w.lives == map[] && b.ref.uid !in w.used
    requires w.tracker == Some(BLANK) && w.target.None?
    ensures var after := Step(Step(w, Arrive(b)), Reconcile(Alone(b), true));
      && Reachable(after) && after.lives == map[b.ref.uid := Life(b, false, false)]
      && Held(after.log, b.ref.uid) && after.target == Some(b.rendered.value.obj.fields)
  {
    var here := Step(w, Arrive(b));
    ReachesMore(w, Arrive(b));
    assert here.lives == map[b.ref.uid := Life(b, false, false)];
    OneIsListed(here, b);
    ReachesMore(here, Reconcile(Alone(b), true));
    AloneCreates(b, true);
    NowHeld(here.log, b.ref.uid);
  }

  /** A newcomer is deleted before it has its finalizer, after a leftover tracker's pass wrote for it. */
  lemma {:induction false} UnpinnedWriterOrphans(a: Contributor, b: Contributor)
    requires CanCreate(a) && CanCreate(b) && a.ref.uid != b.ref.uid
    ensures var after := Step(Step(Step(Leftover(a), Arrive(b)), Reconcile(Alone(b), true)), Leave(b.ref.uid));
      && Reachable(after) && b.ref.uid !in after.lives
      && after.target == Some(b.rendered.value.obj.fields) && !NeverOrphaned(after.log, b.ref.uid)
  {
    var served, uid := Step(Step(Leftover(a), Arrive(b)), Reconcile(Alone(b), true)), b.ref.uid;
    LeftoverIsReachable(a);
    NewcomerIsServed(Leftover(a), b);
    ReachesMore(served, Leave(uid));
    assert Step(served, Leave(uid)).log == served.log + [Gone(uid)];
    HeldWhenGone(served.log, uid);
  }

  // ---- A tracker nobody can delete ----

  /** Only a list that is not empty is ever being released. */
  ghost predicate ReleasingHolds(w: World)
  {
    w.tracker.Some? && w.tracker.value.phase.Releasing? ==> w.tracker.value.contributors != []
  }

  /** A pass that writes a list also leaves another phase; one that does not leaves both. */
  lemma {:induction false} PassPhase(target: Target, status: Status, list: seq<Listed>, saves: bool)
    ensures var p := Pass(target, status, list, saves);
      !p.status.phase.Releasing? || (p.status.phase == status.phase && p.status.contributors == status.contributors)
  {
    var active, s := Active(list), Departures(target, status, list);
    ReferenceCount(target, status, list, saves);
    assert s.status == status;
    if s.verdict.Running? && AllRender(active) {
      var t := Turns(s, active, ContestedPaths(Rendered(active)), 0);
      TurnsKeepPhase(s, active, ContestedPaths(Rendered(active)), 0);
      assert t.status.phase == status.phase && Pass(target, status, list, saves) == Finish(t, saves);
    }
  }

  lemma {:induction false} ReleasingStays(w: World, op: Op)
    requires ReleasingHolds(w)
    ensures ReleasingHolds(Step(w, op))
  {
    if op.Reconcile? && w.tracker.Some? { PassPhase(w.target, w.tracker.value, op.list, op.saves); }
  }

  lemma {:induction false} ReleasingAlways(w: World, ops: seq<Op>)
    requires ReleasingHolds(w)
    ensures ReleasingHolds(Run(w, ops))
    decreases |ops|
  {
    if ops != [] {
      ReleasingStays(w, ops[0]);
      ReleasingAlways(Step(w, ops[0]), ops[1..]);
    }
  }

  /** A legal run in which nobody arrives. */
  ghost predicate Deserted(w: World, ops: seq<Op>)
  {
    AllLegal(w, ops) && forall op | op in ops :: !op.Arrive?
  }

  lemma {:induction false} RecordsOutliveAll(w: World, ops: seq<Op>)
    requires w.lives == map[] && w.tracker.Some? && w.tracker.value.contributors != [] && Deserted(w, ops)
    ensures var after := Run(w, ops);
      after.lives == map[] && after.tracker.Some? && after.tracker.value.contributors == w.tracker.value.contributors
    decreases |ops|
  {
    if ops != [] {
      assert ops[0] in ops;
      if ops[0].Reconcile? { ListsTheLiving(w, w.tracker.value, ops[0].list); }
      RecordsOutliveAll(Step(w, ops[0]), ops[1..]);
    }
  }

  lemma {:induction false} ListsTheLiving(w: World, status: Status, list: seq<Listed>)
    requires Lists(w, status, list)
    ensures list != [] ==> w.lives != map[]
  {
    if list != [] { assert list[0].obj.ref.uid in w.lives; }
  }

  /**
   * A tracker whose contributors have all gone can still be deleted if and only if its list on record is
   * empty: empty passes never empty it.
   */
  lemma {:induction false} AbandonedExactly(w: World)
    requires Reachable(w) && w.lives == map[] && w.tracker.Some?
    ensures (forall ops | Deserted(w, ops) :: Run(w, ops).tracker.Some?) <==> w.tracker.value.contributors != []
  {
    if w.tracker.value.contributors != [] {
      forall ops | Deserted(w, ops) ensures Run(w, ops).tracker.Some? { RecordsOutliveAll(w, ops); }
    } else {
      var before :| AllLegal(NOTHING, before) && Run(NOTHING, before) == w;
      ReleasingAlways(NOTHING, before);
      var ops := [Reconcile([], true)];
      assert ops[1..] == [] && Lists(w, w.tracker.value, []);
      assert Deserted(w, ops) by { assert AllLegal(Step(w, ops[0]), ops[1..]); }
      assert Run(w, ops) == Run(Step(w, ops[0]), []);
      assert Run(w, ops).tracker.None?;
    }
  }

  /** And a legal run leaves such a tracker: the status naming it is lost, so the finalizer lets go at once. */
  lemma {:induction false} AbandonedIsReachable(a: Contributor)
    requires CanCreate(a)
    ensures var w := Step(Step(Served(a, false, true), Leave(a.ref.uid)), Drop(a.ref.uid));
      && Reachable(w) && w.lives == map[] && w.tracker.Some? && w.tracker.value.contributors != []
      && !NeverOrphaned(w.log, a.ref.uid)
  {
    var w, uid := Served(a, false, true), a.ref.uid;
    ServedIsReachable(a, false, true);
    ReachesMore(w, Leave(uid));
    ReachesMore(Step(w, Leave(uid)), Drop(uid));
    var after := Step(Step(w, Leave(uid)), Drop(uid));
    assert after.log == w.log + [Gone(uid)] && after.lives == map[];
    HeldWhenGone(w.log, uid);
  }
}
