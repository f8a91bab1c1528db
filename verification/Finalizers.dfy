/** Nobody goes while its fields are on the target: what the contributor finalizer guarantees, and when. */
module Finalizers {
  import opened ClientSideApply
  import opened Trackers
  import opened Adoption
  import opened Conflicts
  import opened TrackerPass
  import opened Listing
  import opened PassLaws
  import opened PassRuns
  import opened Lifecycle
  import Runs = ApplyRuns

  /** Whether the last thing the events say of a contributor's fields is that they were written. */
  function HeldFrom(held: bool, events: seq<Event>, uid: string): bool
    decreases |events|
  {
    if events == [] then held else
    HeldFrom(
      match events[0]
      case Wrote(u) => held || u == uid
      case Withdrew(u) => held && u != uid
      case Disowned(u) => held && u != uid
      case _ => held,
      events[1..], uid)
  }

  /** The contributor's fields are on the target, written and not withdrawn since. */
  predicate Held(log: seq<Event>, uid: string)
  {
    HeldFrom(false, log, uid)
  }

  lemma {:induction false} HeldSplit(held: bool, a: seq<Event>, b: seq<Event>, uid: string)
    ensures HeldFrom(held, a + b, uid) == HeldFrom(HeldFrom(held, a, uid), b, uid)
    decreases |a|
  {
    if a == [] {
      assert a + b == b;
    } else {
      assert (a + b)[0] == a[0] && (a + b)[1..] == a[1..] + b;
      var next := match a[0] case Wrote(u) => held || u == uid case Withdrew(u) => held && u != uid case Disowned(u) => held && u != uid case _ => held;
      HeldSplit(next, a[1..], b, uid);
    }
  }

  /** Whenever this contributor went, it had no fields on the target. */
  ghost predicate NeverOrphaned(log: seq<Event>, uid: string)
  {
    forall i | 0 <= i < |log| && log[i] == Gone(uid) :: !Held(log[..i], uid)
  }

  lemma {:induction false} OrphanedStill(log: seq<Event>, e: Event, uid: string)
    requires NeverOrphaned(log, uid)
    requires e == Gone(uid) ==> !Held(log, uid)
    ensures NeverOrphaned(log + [e], uid)
  {
    var log' := log + [e];
    forall i | 0 <= i < |log'| && log'[i] == Gone(uid) ensures !Held(log'[..i], uid) {
      if i < |log| {
        assert log'[..i] == log[..i] && log'[i] == log[i];
      } else {
        assert log'[..i] == log;
      }
    }
  }

  lemma {:induction false} OrphanedStillAll(log: seq<Event>, events: seq<Event>, uid: string)
    requires NeverOrphaned(log, uid) && forall e | e in events :: !e.Gone?
    ensures NeverOrphaned(log + events, uid)
    decreases |events|
  {
    if events == [] {
      assert log + events == log;
    } else {
      assert events[0] in events;
      OrphanedStill(log, events[0], uid);
      OrphanedStillAll(log + [events[0]], events[1..], uid);
      assert log + [events[0]] + events[1..] == log + events;
    }
  }

  /** Nobody's status names a tracker before its finalizer is in place. */
  ghost predicate FinalizerFirst(w: World)
  {
    forall uid | uid in w.lives && w.lives[uid].registered :: w.lives[uid].finalizer
  }

  /** The contributor is alive, names the tracker, and the tracker lists it. */
  ghost predicate Pinned(w: World, uid: string)
  {
    uid in w.lives && w.lives[uid].registered && w.tracker.Some? && Knows(w.tracker.value.contributors, uid)
  }

  /** Recorded references carry UIDs. */
  ghost predicate Identifies(w: World)
  {
    w.tracker.Some? ==> forall r | r in w.tracker.value.contributors :: r.ref.uid != ""
  }

  ghost predicate Guarded(w: World, uid: string)
  {
    && Wellformed(w) && FinalizerFirst(w) && Identifies(w)
    && NeverOrphaned(w.log, uid)
    && (Held(w.log, uid) ==> Pinned(w, uid))
  }

  function After(w: World, op: Op): PassState
    requires op.Reconcile? && w.tracker.Some?
  {
    Pass(w.target, w.tracker.value, op.list, op.saves)
  }

  /**
   * The pass is safe for this contributor: it has joined, and the pass completes, or stops with the
   * contributor already on record and no patch failing to render.
   */
  ghost predicate Settles(w: World, op: Op, uid: string)
    requires op.Reconcile? && w.tracker.Some?
  {
    && uid in w.lives && w.lives[uid].registered
    && match After(w, op).verdict
       case Completed => true
       case Unrendered => false
       case _ => Knows(w.tracker.value.contributors, uid)
  }

  /** Every pass that leaves the contributor's fields on the target is safe for it. */
  ghost predicate AllSettle(w: World, ops: seq<Op>, uid: string)
    decreases |ops|
  {
    ops == [] || (
      && Legal(w, ops[0])
      && (ops[0].Reconcile? && w.tracker.Some? && ops[0].list != [] && Held(Step(w, ops[0]).log, uid) ==> Settles(w, ops[0], uid))
      && AllSettle(Step(w, ops[0]), ops[1..], uid))
  }

  lemma {:induction false} WithdrawnAreFree(held: bool, leaving: seq<Listed>, uid: string)
    requires forall i | 0 <= i < |leaving| :: Releases(leaving[i])
    ensures HeldFrom(held, WithdrawEvents(leaving), uid) ==
      (held && forall i | 0 <= i < |leaving| :: leaving[i].status.ref.uid != uid)
    ensures forall e | e in WithdrawEvents(leaving) :: !e.Gone?
    decreases |leaving|
  {
    if leaving != [] {
      var c, rest := leaving[0], leaving[1..];
      assert forall i | 0 <= i < |rest| :: rest[i] == leaving[i + 1];
      WithdrawnAreFree(held && c.status.ref.uid != uid, rest, uid);
      assert ([Parting(c)] + WithdrawEvents(rest))[1..] == WithdrawEvents(rest);
      if forall i | 0 <= i < |rest| :: rest[i].status.ref.uid != uid {
        assert forall i | 1 <= i < |leaving| :: leaving[i] == rest[i - 1];
      }
    }
  }

  lemma {:induction false} ReleasesAll(target: Target, leaving: seq<Listed>)
    requires ReleaseAll(target, leaving).1
    ensures forall i | 0 <= i < |leaving| :: Releases(leaving[i])
    decreases |leaving|
  {
    if leaving != [] { ReleasesAll(Released(target, leaving[0]), leaving[1..]); }
  }

  lemma {:induction false} HeldNeedsWrite(held: bool, events: seq<Event>, uid: string)
    requires HeldFrom(held, events, uid)
    ensures held || Wrote(uid) in events
    decreases |events|
  {
    if events != [] {
      var next := match events[0] case Wrote(u) => held || u == uid case Withdrew(u) => held && u != uid case Disowned(u) => held && u != uid case _ => held;
      HeldNeedsWrite(next, events[1..], uid);
    }
  }

  ghost predicate IsActive(active: seq<Listed>, uid: string)
  {
    exists k :: 0 <= k < |active| && active[k].status.ref.uid == uid
  }

  /** Nobody goes, and only these write. */
  ghost predicate OnlyWrites(events: seq<Event>, active: seq<Listed>)
  {
    forall e | e in events :: !e.Gone? && (e.Wrote? ==> IsActive(active, e.uid))
  }

  lemma {:induction false} OwnOnlyWrites(s: PassState, active: seq<Listed>, i: nat, contribution: Contribution, loses: bool)
    requires i < |active| && contribution.obj.Obj?
    ensures OnlyWrites(OwnEvents(s, active[i], contribution, loses), active)
  {
    assert IsActive(active, active[i].status.ref.uid);
  }

  lemma {:induction false} OnlyWritesBoth(a: seq<Event>, b: seq<Event>, active: seq<Listed>)
    requires OnlyWrites(a, active) && OnlyWrites(b, active)
    ensures OnlyWrites(a + b, active)
  {
    forall e | e in a + b ensures !e.Gone? && (e.Wrote? ==> IsActive(active, e.uid)) {
      assert e in a || e in b;
    }
  }

  lemma {:induction false} TurnsOnlyWrite(s: PassState, active: seq<Listed>, claims: map<string, seq<nat>>, i: nat)
    requires AllRender(active) && i <= |active|
    ensures OnlyWrites(TurnEvents(s, active, claims, i), active)
    decreases |active| - i
  {
    if i < |active| && s.verdict.Running? {
      var c, contribution, loses := active[i], active[i].obj.rendered.value, Yields(active, claims, i);
      var t := Turn(s, c, contribution, loses);
      OwnOnlyWrites(s, active, i, contribution, loses);
      TurnsOnlyWrite(t, active, claims, i + 1);
      OnlyWritesBoth(OwnEvents(s, c, contribution, loses), TurnEvents(t, active, claims, i + 1), active);
    }
  }

  lemma {:induction false} WritersAreActive(held: bool, s: PassState, active: seq<Listed>, claims: map<string, seq<nat>>, i: nat, uid: string)
    requires AllRender(active) && i <= |active|
    ensures HeldFrom(held, TurnEvents(s, active, claims, i), uid) ==>
      held || exists k :: 0 <= k < |active| && active[k].status.ref.uid == uid
    ensures forall e | e in TurnEvents(s, active, claims, i) :: !e.Gone?
  {
    TurnsOnlyWrite(s, active, claims, i);
    if HeldFrom(held, TurnEvents(s, active, claims, i), uid) { HeldNeedsWrite(held, TurnEvents(s, active, claims, i), uid); }
  }

  /** Of the events of a completed pass, what can leave a contributor's fields in place. */
  lemma {:induction false} HolderStays(held: bool, target: Target, status: Status, list: seq<Listed>, uid: string)
    requires Distinguished(list) && ReleaseAll(target, Leaving(list)).1
    requires held ==> exists i :: 0 <= i < |list| && list[i].status.ref.uid == uid
    requires HeldFrom(held, PassEvents(target, status, list), uid)
    ensures exists k :: 0 <= k < |Active(list)| && Active(list)[k].status.ref.uid == uid
  {
    var leaving, active, s := Leaving(list), Active(list), Departures(target, status, list);
    var departed := HeldFrom(held, DepartureEvents(target, status, list), uid);
    HeldSplit(held, DepartureEvents(target, status, list), ApplyEvents(target, status, list), uid);
    DeparturesFree(held, target, status, list, uid);
    if departed {
      HolderIsActive(list, uid);
    } else if s.verdict.Running? && AllRender(active) {
      WritersAreActive(departed, s, active, ContestedPaths(Rendered(active)), 0, uid);
    }
  }

  lemma {:induction false} HolderIsActive(list: seq<Listed>, uid: string)
    requires Distinguished(list)
    requires exists i :: 0 <= i < |list| && list[i].status.ref.uid == uid
    requires forall i | 0 <= i < |Leaving(list)| :: Leaving(list)[i].status.ref.uid != uid
    ensures exists k :: 0 <= k < |Active(list)| && Active(list)[k].status.ref.uid == uid
  {
    Parts(list);
    var i :| 0 <= i < |list| && list[i].status.ref.uid == uid;
    assert list[i] in list;
    assert forall c | c in Leaving(list) :: c.status.ref.uid != uid;
    assert list[i] in Active(list);
  }

  /** After a completed pass only those who stay may hold fields, and all of them are on its list. */
  lemma {:induction false} PassKeepsHolders(log: seq<Event>, target: Target, status: Status, list: seq<Listed>, saves: bool, uid: string)
    requires Distinguished(list) && Pass(target, status, list, saves).verdict.Completed?
    requires Held(log, uid) ==> exists i :: 0 <= i < |list| && list[i].status.ref.uid == uid
    requires Held(log + PassEvents(target, status, list), uid)
    ensures exists i :: 0 <= i < |list| && list[i].status.ref.uid == uid && !list[i].obj.deleting
    ensures Knows(Pass(target, status, list, saves).status.contributors, uid)
  {
    var active := Active(list);
    HeldSplit(false, log, PassEvents(target, status, list), uid);
    HolderStays(Held(log, uid), target, status, list, uid);
    var k :| 0 <= k < |active| && active[k].status.ref.uid == uid;
    LeavingMembers(list, active[k]);
    assert active[k] in active;
    ReferenceCount(target, status, list, saves);
    assert SameEntry(Pass(target, status, list, saves).status.contributors[k], active[k].status);
  }

  lemma {:induction false} DeparturesFree(held: bool, target: Target, status: Status, list: seq<Listed>, uid: string)
    requires ReleaseAll(target, Leaving(list)).1
    ensures HeldFrom(held, DepartureEvents(target, status, list), uid) ==
      (held && forall i | 0 <= i < |Leaving(list)| :: Leaving(list)[i].status.ref.uid != uid)
    ensures forall e | e in DepartureEvents(target, status, list) :: !e.Gone?
  {
    var leaving := Leaving(list);
    ReleasesAll(target, leaving);
    WithdrawnAreFree(held, leaving, uid);
    var last := if Deletes(target, status, list) then [TargetDeleted(list)] else [];
    HeldSplit(held, WithdrawEvents(leaving), last, uid);
    assert last == [] || last[1..] == [];
  }

  lemma {:induction false} WithdrawalsWriteNothing(held: bool, leaving: seq<Listed>, uid: string)
    ensures HeldFrom(held, WithdrawEvents(leaving), uid) ==> held
    decreases |leaving|
  {
    if leaving != [] && Releases(leaving[0]) {
      var u := leaving[0].status.ref.uid;
      WithdrawalsWriteNothing(held && u != uid, leaving[1..], uid);
      assert ([Parting(leaving[0])] + WithdrawEvents(leaving[1..]))[1..] == WithdrawEvents(leaving[1..]);
    }
  }

  lemma {:induction false} PassSendsNobodyAway(target: Target, status: Status, list: seq<Listed>)
    ensures forall e | e in PassEvents(target, status, list) :: !e.Gone?
  {
    var active, s := Active(list), Departures(target, status, list);
    WithdrawalsAreQuiet(Leaving(list));
    if s.verdict.Running? && AllRender(active) {
      WritersAreActive(false, s, active, ContestedPaths(Rendered(active)), 0, "");
    }
  }

  lemma {:induction false} DeparturesWriteNothing(held: bool, target: Target, status: Status, list: seq<Listed>, uid: string)
    ensures HeldFrom(held, DepartureEvents(target, status, list), uid) ==> held
  {
    var leaving := WithdrawEvents(Leaving(list));
    WithdrawalsWriteNothing(held, Leaving(list), uid);
    if Deletes(target, status, list) {
      HeldSplit(held, leaving, [TargetDeleted(list)], uid);
      assert [TargetDeleted(list)][1..] == [];
    } else {
      assert leaving + [] == leaving;
    }
  }

  predicate ListedToStay(list: seq<Listed>, uid: string)
  {
    exists k :: 0 <= k < |Active(list)| && Active(list)[k].status.ref.uid == uid
  }

  /** Whoever holds fields after any pass held them before or is listed to stay. */
  lemma {:induction false} HoldersAreListed(held: bool, target: Target, status: Status, list: seq<Listed>, uid: string)
    requires HeldFrom(held, PassEvents(target, status, list), uid)
    ensures held || ListedToStay(list, uid)
  {
    var active, s := Active(list), Departures(target, status, list);
    var departed := HeldFrom(held, DepartureEvents(target, status, list), uid);
    HeldSplit(held, DepartureEvents(target, status, list), ApplyEvents(target, status, list), uid);
    DeparturesWriteNothing(held, target, status, list, uid);
    if s.verdict.Running? && AllRender(active) {
      WritersAreActive(departed, s, active, ContestedPaths(Rendered(active)), 0, uid);
      assert departed || ListedToStay(list, uid);
    } else {
      assert ApplyEvents(target, status, list) == [];
      assert departed;
    }
  }

  lemma {:induction false} ListedRefs(w: World, status: Status, list: seq<Listed>)
    requires Lists(w, status, list)
    ensures forall i | 0 <= i < |list| :: list[i].status.ref == list[i].obj.ref
    ensures forall uid | uid in w.lives :: exists i :: 0 <= i < |list| && list[i].status.ref.uid == uid
  {
    forall i | 0 <= i < |list| ensures list[i].status.ref == list[i].obj.ref {
      assert list[i].status == RecordFor(list[i].obj, status);
    }
    forall uid | uid in w.lives ensures exists i :: 0 <= i < |list| && list[i].status.ref.uid == uid {
      var i :| 0 <= i < |list| && list[i].obj.ref.uid == uid;
      assert list[i].status.ref.uid == uid;
    }
  }

  lemma {:induction false} HolderLives(w: World, op: Op, uid: string)
    requires Guarded(w, uid) && op.Reconcile? && Legal(w, op) && w.tracker.Some?
    requires Held(w.log + PassEvents(w.target, w.tracker.value, op.list), uid)
    ensures uid in w.lives
  {
    var status, list := w.tracker.value, op.list;
    HeldSplit(false, w.log, PassEvents(w.target, status, list), uid);
    HoldersAreListed(Held(w.log, uid), w.target, status, list, uid);
    if !Held(w.log, uid) {
      var k :| 0 <= k < |Active(list)| && Active(list)[k].status.ref.uid == uid;
      LeavingMembers(list, Active(list)[k]);
      assert Active(list)[k] in Active(list);
      var i :| 0 <= i < |list| && list[i] == Active(list)[k];
      ListedRefs(w, status, list);
    }
  }

  /** A pass that leaves a contributor's fields on the target leaves it pinned if and only if it is safe for it. */
  lemma {:induction false} PassPinsExactly(w: World, op: Op, uid: string)
    requires Guarded(w, uid) && op.Reconcile? && Legal(w, op) && w.tracker.Some? && op.list != []
    requires Held(Step(w, op).log, uid)
    ensures Pinned(Step(w, op), uid) <==> Settles(w, op, uid)
  {
    HolderLives(w, op, uid);
    PinnedAfter(w, op, uid);
    ReferenceCount(w.target, w.tracker.value, op.list, op.saves);
    if After(w, op).verdict.Completed? { CompletedLists(w, op, uid); }
  }

  /** Who is pinned after a pass is read off its list. */
  lemma {:induction false} PinnedAfter(w: World, op: Op, uid: string)
    requires op.Reconcile? && w.tracker.Some? && op.list != []
    ensures Pinned(Step(w, op), uid) <==>
      uid in w.lives && w.lives[uid].registered && Knows(After(w, op).status.contributors, uid)
  {}

  lemma {:induction false} CompletedLists(w: World, op: Op, uid: string)
    requires Guarded(w, uid) && op.Reconcile? && Legal(w, op) && w.tracker.Some? && op.list != []
    requires Held(Step(w, op).log, uid) && After(w, op).verdict.Completed?
    ensures Knows(After(w, op).status.contributors, uid)
  {
    ListedRefs(w, w.tracker.value, op.list);
    PassKeepsHolders(w.log, w.target, w.tracker.value, op.list, op.saves, uid);
  }

  lemma {:induction false} ActiveIdentified(w: World, status: Status, list: seq<Listed>, c: Listed)
    requires Wellformed(w) && Lists(w, status, list) && c in Active(list)
    ensures c.status.ref.uid != ""
  {
    LeavingMembers(list, c);
    ListedRefs(w, status, list);
    var k :| 0 <= k < |list| && list[k] == c;
  }

  lemma {:induction false} CompletedIdentifies(w: World, op: Op)
    requires Wellformed(w) && op.Reconcile? && Legal(w, op) && w.tracker.Some? && After(w, op).verdict.Completed?
    ensures forall r | r in After(w, op).status.contributors :: r.ref.uid != ""
  {
    var status, active := w.tracker.value, Active(op.list);
    var records := After(w, op).status.contributors;
    ReferenceCount(w.target, status, op.list, op.saves);
    forall i | 0 <= i < |records| ensures records[i].ref.uid != "" {
      ActiveIdentified(w, status, op.list, active[i]);
      assert SameEntry(records[i], active[i].status);
    }
  }

  lemma {:induction false} PassIdentifies(w: World, op: Op)
    requires Wellformed(w) && Identifies(w) && op.Reconcile? && Legal(w, op) && w.tracker.Some? && op.list != []
    ensures Identifies(Step(w, op))
  {
    var status, records := w.tracker.value, After(w, op).status.contributors;
    ReferenceCount(w.target, status, op.list, op.saves);
    if After(w, op).verdict.Completed? {
      CompletedIdentifies(w, op);
    } else {
      assert forall r | r in records :: r in status.contributors;
    }
  }

  lemma {:induction false} PassIsGuarded(w: World, op: Op, uid: string)
    requires Guarded(w, uid) && op.Reconcile? && Legal(w, op) && w.tracker.Some? && op.list != []
    requires Held(Step(w, op).log, uid) ==> Settles(w, op, uid)
    ensures Guarded(Step(w, op), uid)
  {
    var w' := Step(w, op);
    StepWellformed(w, op);
    PassSendsNobodyAway(w.target, w.tracker.value, op.list);
    OrphanedStillAll(w.log, PassEvents(w.target, w.tracker.value, op.list), uid);
    assert w'.lives == w.lives;
    PassIdentifies(w, op);
    if Held(w'.log, uid) { PassPinsExactly(w, op, uid); }
  }

  /** A finalizer is never taken from a living contributor, and joining records it last. */
  lemma {:induction false} FinalizerStaysFirst(w: World, op: Op)
    requires Wellformed(w) && FinalizerFirst(w) && Legal(w, op)
    ensures FinalizerFirst(Step(w, op))
  {}

  lemma {:induction false} PinnedIsFound(w: World, uid: string)
    requires Wellformed(w)
    ensures Pinned(w, uid) ==> Find(w.tracker.value.contributors, w.lives[uid].obj.ref) >= 0
  {
    if Pinned(w, uid) {
      var records := w.tracker.value.contributors;
      var i :| 0 <= i < |records| && records[i].ref.uid == uid;
      assert SameContributor(records[i].ref, w.lives[uid].obj.ref);
    }
  }

  /** Nobody pinned goes, and nobody stops being pinned, by anything but a pass. */
  lemma {:induction false} PinnedStays(w: World, op: Op, uid: string)
    requires Wellformed(w) && FinalizerFirst(w) && Legal(w, op) && Pinned(w, uid) && !op.Reconcile?
    ensures Pinned(Step(w, op), uid)
    ensures Step(w, op).log == w.log || (|Step(w, op).log| == |w.log| + 1 && Step(w, op).log[|w.log|] != Gone(uid))
  {
    PinnedIsFound(w, uid);
  }

  lemma {:induction false} NooneListed(w: World, op: Op)
    requires op.Reconcile? && w.tracker.Some? && Legal(w, op) && op.list == []
    ensures w.lives == map[]
  {
    assert forall uid :: uid !in w.lives;
  }

  /** The event says nothing of anybody's fields. */
  predicate Quiet(e: Event)
  {
    !e.Wrote? && !e.Withdrew? && !e.Disowned?
  }

  lemma {:induction false} LogsAtMostOnce(w: World, op: Op)
    requires Legal(w, op) && !op.Reconcile?
    ensures var log := Step(w, op).log;
      log == w.log || (|log| == |w.log| + 1 && log == w.log + [log[|w.log|]] && Quiet(log[|w.log|]))
  {
  }

  lemma {:induction false} QuietEvent(log: seq<Event>, e: Event, uid: string)
    requires NeverOrphaned(log, uid) && Quiet(e) && (e == Gone(uid) ==> !Held(log, uid))
    ensures NeverOrphaned(log + [e], uid) && Held(log + [e], uid) == Held(log, uid)
  {
    assert [e][1..] == [];
    HeldSplit(false, log, [e], uid);
    OrphanedStill(log, e, uid);
  }

  lemma {:induction false} QuietIsGuarded(w: World, op: Op, uid: string)
    requires Guarded(w, uid) && Legal(w, op) && (op.Reconcile? ==> w.tracker.None? || op.list == [])
    ensures Guarded(Step(w, op), uid)
  {
    var w' := Step(w, op);
    StepWellformed(w, op);
    FinalizerStaysFirst(w, op);
    if op.Reconcile? {
      if w.tracker.Some? { NooneListed(w, op); }
    } else {
      if Pinned(w, uid) { PinnedStays(w, op, uid); }
      LogsAtMostOnce(w, op);
      if w'.log != w.log { QuietEvent(w.log, w'.log[|w.log|], uid); }
    }
  }

  lemma {:induction false} RunIsGuarded(w: World, ops: seq<Op>, uid: string)
    requires Guarded(w, uid) && AllSettle(w, ops, uid)
    ensures Guarded(Run(w, ops), uid)
    decreases |ops|
  {
    if ops != [] {
      var op := ops[0];
      if op.Reconcile? && w.tracker.Some? && op.list != [] {
        PassIsGuarded(w, op, uid);
      } else {
        QuietIsGuarded(w, op, uid);
      }
      RunIsGuarded(Step(w, op), ops[1..], uid);
    }
  }

  /**
   * A contributor that has joined whenever a pass leaves its fields on the target, and whose passes then
   * complete or stop with it on record, never goes while it holds fields, whatever the others do: newcomers,
   * failures elsewhere, edits. Its finalizer is not assumed; it is in place because joining comes after it.
   */
  lemma {:induction false} NobodyGoesHoldingFields(ops: seq<Op>, uid: string)
    requires AllSettle(NOTHING, ops, uid)
    ensures NeverOrphaned(Run(NOTHING, ops).log, uid)
    ensures Held(Run(NOTHING, ops).log, uid) ==> Pinned(Run(NOTHING, ops), uid) && Run(NOTHING, ops).lives[uid].finalizer
  {
    RunIsGuarded(NOTHING, ops, uid);
  }

  // ---- And nothing less ----

  /** Deleted by its user and reconciled, a living contributor is let go if and only if it is not pinned. */
  lemma {:induction false} LetGoExactly(w: World, uid: string)
    requires Wellformed(w) && FinalizerFirst(w) && Identifies(w) && uid in w.lives
    ensures var after := Step(Step(w, Leave(uid)), Drop(uid));
      && (uid !in after.lives <==> !Pinned(w, uid))
      && (uid !in after.lives ==> after.log == w.log + [Gone(uid)] && after.target == w.target)
  {
    PinnedIsFound(w, uid);
    FoundIsPinned(w, uid);
  }

  lemma {:induction false} FoundIsPinned(w: World, uid: string)
    requires Wellformed(w) && Identifies(w) && uid in w.lives
    ensures w.tracker.Some? ==> (Find(w.tracker.value.contributors, w.lives[uid].obj.ref) >= 0 ==> Knows(w.tracker.value.contributors, uid))
  {
    if w.tracker.Some? {
      var records := w.tracker.value.contributors;
      var i := Find(records, w.lives[uid].obj.ref);
      if i >= 0 { assert records[i] in records && records[i].ref.uid == uid; }
    }
  }

  /**
   * The first pass that is not safe for a contributor whose fields it leaves on the target orphans it:
   * deleted then, the contributor goes, and the target keeps its fields.
   */
  lemma {:induction false} UnsettledPassOrphans(w: World, op: Op, uid: string)
    requires Guarded(w, uid) && op.Reconcile? && Legal(w, op) && w.tracker.Some? && op.list != []
    requires Held(Step(w, op).log, uid) && !Settles(w, op, uid)
    ensures var w' := Step(w, op);
      var after := Step(Step(w', Leave(uid)), Drop(uid));
      uid !in after.lives && after.target == w'.target && !NeverOrphaned(after.log, uid)
  {
    var w' := Step(w, op);
    StepWellformed(w, op);
    FinalizerStaysFirst(w, op);
    PassIdentifies(w, op);
    PassPinsExactly(w, op, uid);
    HolderLives(w, op, uid);
    LetGoExactly(w', uid);
    var log := w'.log + [Gone(uid)];
    assert log[|w'.log|] == Gone(uid) && log[..|w'.log|] == w'.log;
  }

  // ---- What is held, in calls to the applier ----

  /** The calls of a run, as the events that note them. */
  function Noticed(ops: seq<Runs.Op>): seq<Event>
  {
    if ops == [] then []
    else [if ops[0].Apply? then Wrote(ops[0].id) else Withdrew(ops[0].id)] + Noticed(ops[1..])
  }

  lemma {:induction false} NoticedSplit(a: seq<Runs.Op>, b: seq<Runs.Op>)
    ensures Noticed(a + b) == Noticed(a) + Noticed(b)
    decreases |a|
  {
    if a == [] {
      assert a + b == b;
    } else {
      assert (a + b)[0] == a[0] && (a + b)[1..] == a[1..] + b;
      NoticedSplit(a[1..], b);
    }
  }

  /** Of a contributor's own calls the last decides. */
  lemma {:induction false} LastCallDecides(held: bool, ops: seq<Runs.Op>, uid: string)
    ensures var own := Runs.Own(ops, uid);
      HeldFrom(held, Noticed(ops), uid) == if own == [] then held else own[|own| - 1].Apply?
    decreases |ops|
  {
    if ops != [] {
      var op, rest := ops[0], ops[1..];
      var e := if op.Apply? then Wrote(op.id) else Withdrew(op.id);
      assert ([e] + Noticed(rest))[1..] == Noticed(rest);
      LastCallDecides(if op.id == uid then op.Apply? else held, rest, uid);
    }
  }

  /** The events that note calls: all but those of orphans, for whom none is made. */
  function CallsOf(events: seq<Event>): seq<Event>
  {
    if events == [] then [] else (if events[0].Disowned? then [] else [events[0]]) + CallsOf(events[1..])
  }

  lemma {:induction false} CallsSplit(a: seq<Event>, b: seq<Event>)
    ensures CallsOf(a + b) == CallsOf(a) + CallsOf(b)
    decreases |a|
  {
    if a == [] {
      assert a + b == b;
    } else {
      assert (a + b)[0] == a[0] && (a + b)[1..] == a[1..] + b;
      CallsSplit(a[1..], b);
    }
  }

  lemma {:induction false} NoticedAreCalls(ops: seq<Runs.Op>)
    ensures CallsOf(Noticed(ops)) == Noticed(ops)
  {
    if ops != [] {
      var e := if ops[0].Apply? then Wrote(ops[0].id) else Withdrew(ops[0].id);
      NoticedAreCalls(ops[1..]);
      assert ([e] + Noticed(ops[1..]))[1..] == Noticed(ops[1..]);
    }
  }

  /** Everyone leaving that is owed its fields has something on record. */
  predicate AllOwed(leaving: seq<Listed>)
  {
    forall i | 0 <= i < |leaving| :: leaving[i].obj.onRelease.Orphaned? || Book(leaving[i].status) != Runs.FRESH
  }

  lemma {:induction false} ReleasesAreNoticed(leaving: seq<Listed>)
    requires AllOwed(leaving) && forall i | 0 <= i < |leaving| :: Releases(leaving[i])
    ensures CallsOf(WithdrawEvents(leaving)) == Noticed(ReleaseOps(leaving))
  {
    if leaving != [] {
      var op, rest := Runs.Release(leaving[0].status.ref.uid), leaving[1..];
      assert forall i | 0 <= i < |rest| :: rest[i] == leaving[i + 1];
      ReleasesAreNoticed(rest);
      assert ([op] + ReleaseOps(rest))[1..] == ReleaseOps(rest) && [] + ReleaseOps(rest) == ReleaseOps(rest);
      assert ([Parting(leaving[0])] + WithdrawEvents(rest))[1..] == WithdrawEvents(rest);
      assert [] + CallsOf(WithdrawEvents(rest)) == CallsOf(WithdrawEvents(rest));
    }
  }

  lemma {:induction false} TurnIsNoticed(s: PassState, c: Listed, contribution: Contribution, loses: bool)
    requires contribution.obj.Obj? && s.target.Some? && s.verdict.Running?
    ensures OwnEvents(s, c, contribution, loses) ==
      Noticed(if Writes(s, c, contribution, loses) then [Runs.Apply(c.status.ref.uid, contribution)] else [])
    ensures Turn(s, c, contribution, loses).target.Some?
  {
    var op := Runs.Apply(c.status.ref.uid, contribution);
    TurnCreates(s, c, contribution, loses);
    assert Touches(s, c, contribution, loses) <==> Writes(s, c, contribution, loses);
    assert [op][1..] == [];
  }

  lemma {:induction false} AppliesAreNoticed(s: PassState, active: seq<Listed>, claims: map<string, seq<nat>>, i: nat)
    requires AllRender(active) && i <= |active| && s.target.Some?
    ensures TurnEvents(s, active, claims, i) == Noticed(ApplyOps(s, active, claims, i))
    decreases |active| - i
  {
    if i < |active| && s.verdict.Running? {
      var c, contribution, loses := active[i], active[i].obj.rendered.value, Yields(active, claims, i);
      var next := Turn(s, c, contribution, loses);
      var own := if Writes(s, c, contribution, loses) then [Runs.Apply(c.status.ref.uid, contribution)] else [];
      TurnIsNoticed(s, c, contribution, loses);
      AppliesAreNoticed(next, active, claims, i + 1);
      NoticedSplit(own, ApplyOps(next, active, claims, i + 1));
    }
  }

  lemma {:induction false} PassIsNoticed(target: Target, status: Status, list: seq<Listed>)
    requires ReleaseAll(target, Leaving(list)).1 && AllRender(Active(list)) && Departures(target, status, list).target.Some?
    requires AllOwed(Leaving(list))
    ensures CallsOf(PassEvents(target, status, list)) == Noticed(PassOps(target, status, list))
  {
    var leaving, active, s := Leaving(list), Active(list), Departures(target, status, list);
    var applies := ApplyOps(s, active, ContestedPaths(Rendered(active)), 0);
    ReleasesAll(target, leaving);
    ReleasesAreNoticed(leaving);
    AppliesAreNoticed(s, active, ContestedPaths(Rendered(active)), 0);
    NoticedAreCalls(applies);
    NoticedSplit(ReleaseOps(leaving), applies);
    assert DepartureEvents(target, status, list) == WithdrawEvents(leaving);
    CallsSplit(WithdrawEvents(leaving), Noticed(applies));
  }

  /** Events that concern others leave it open whether one's own fields are held. */
  lemma {:induction false} HeldByCalls(held: bool, events: seq<Event>, uid: string)
    requires Disowned(uid) !in events
    ensures HeldFrom(held, events, uid) == HeldFrom(held, CallsOf(events), uid)
    decreases |events|
  {
    if events != [] {
      var e, rest := events[0], events[1..];
      var next := match e case Wrote(u) => held || u == uid case Withdrew(u) => held && u != uid case Disowned(u) => held && u != uid case _ => held;
      assert e in events && forall d | d in rest :: d in events;
      HeldByCalls(next, rest, uid);
      assert ([e] + CallsOf(rest))[1..] == CallsOf(rest) && [] + CallsOf(rest) == CallsOf(rest);
    }
  }

  lemma {:induction false} OnlyOrphansDisown(leaving: seq<Listed>, uid: string)
    requires uid !in Disowners(leaving)
    ensures Disowned(uid) !in WithdrawEvents(leaving)
  {
    if leaving != [] {
      DisownersFirst(leaving);
      OnlyOrphansDisown(leaving[1..], uid);
    }
  }

  lemma {:induction false} NoneDisowned(ops: seq<Runs.Op>, uid: string)
    ensures Disowned(uid) !in Noticed(ops)
  {
    if ops != [] { NoneDisowned(ops[1..], uid); }
  }

  lemma {:induction false} OthersDisown(target: Target, status: Status, list: seq<Listed>, uid: string)
    requires ReleaseAll(target, Leaving(list)).1 && AllRender(Active(list)) && Departures(target, status, list).target.Some?
    requires uid !in Disowners(Leaving(list))
    ensures Disowned(uid) !in PassEvents(target, status, list)
  {
    var s, active := Departures(target, status, list), Active(list);
    OnlyOrphansDisown(Leaving(list), uid);
    AppliesAreNoticed(s, active, ContestedPaths(Rendered(active)), 0);
    NoneDisowned(ApplyOps(s, active, ContestedPaths(Rendered(active)), 0), uid);
  }

  /** After a pass an orphan's fields are nobody's. */
  lemma {:induction false} OrphanHoldsNothing(held: bool, target: Target, status: Status, list: seq<Listed>, uid: string)
    requires ReleaseAll(target, Leaving(list)).1 && AllRender(Active(list)) && Departures(target, status, list).target.Some?
    requires Distinguished(list) && uid in Disowners(Leaving(list))
    ensures !HeldFrom(held, PassEvents(target, status, list), uid)
  {
    var s, leaving, active := Departures(target, status, list), Leaving(list), Active(list);
    Parts(list);
    ReleasesAll(target, leaving);
    WithdrawnAreFree(held, leaving, uid);
    assert DepartureEvents(target, status, list) == WithdrawEvents(leaving);
    WritersAreActive(false, s, active, ContestedPaths(Rendered(active)), 0, uid);
    HeldSplit(held, WithdrawEvents(leaving), ApplyEvents(target, status, list), uid);
  }

  lemma {:induction false} HeldIsDecided(held: bool, events: seq<Event>, ops: seq<Runs.Op>, uid: string)
    requires CallsOf(events) == Noticed(ops) && Disowned(uid) !in events
    ensures var own := Runs.Own(ops, uid); HeldFrom(held, events, uid) == if own == [] then held else own[|own| - 1].Apply?
  {
    HeldByCalls(held, events, uid);
    LastCallDecides(held, ops, uid);
  }

  lemma {:induction false} OwnCallsDecide(held: bool, target: Target, status: Status, list: seq<Listed>, uid: string)
    requires ReleaseAll(target, Leaving(list)).1 && AllRender(Active(list)) && Departures(target, status, list).target.Some?
    requires AllOwed(Leaving(list)) && uid !in Disowners(Leaving(list))
    ensures var own := Runs.Own(PassOps(target, status, list), uid);
      HeldFrom(held, PassEvents(target, status, list), uid) == if own == [] then held else own[|own| - 1].Apply?
  {
    var events, ops := PassEvents(target, status, list), PassOps(target, status, list);
    assert CallsOf(events) == Noticed(ops) by { PassIsNoticed(target, status, list); }
    assert Disowned(uid) !in events by { OthersDisown(target, status, list, uid); }
    HeldIsDecided(held, events, ops, uid);
  }

  /**
   * The events are the calls of the run the pass is, orphans apart: after a pass over a target that is there, in
   * which whoever is owed its fields has something on record, a contributor holds fields if and only if the last
   * of its calls was an apply; one that leaves under policy Orphan does not, whatever its fields read.
   */
  lemma {:induction false} HeldByLastCall(held: bool, target: Target, status: Status, list: seq<Listed>, uid: string)
    requires ReleaseAll(target, Leaving(list)).1 && AllRender(Active(list)) && Departures(target, status, list).target.Some?
    requires AllOwed(Leaving(list))
    ensures CallsOf(PassEvents(target, status, list)) == Noticed(PassOps(target, status, list))
    ensures var own := Runs.Own(PassOps(target, status, list), uid);
      uid !in Disowners(Leaving(list)) ==>
      HeldFrom(held, PassEvents(target, status, list), uid) == if own == [] then held else own[|own| - 1].Apply?
    ensures uid in Disowners(Leaving(list)) && Distinguished(list) ==> !HeldFrom(held, PassEvents(target, status, list), uid)
  {
    PassIsNoticed(target, status, list);
    if uid !in Disowners(Leaving(list)) {
      OwnCallsDecide(held, target, status, list, uid);
    } else if Distinguished(list) {
      OrphanHoldsNothing(held, target, status, list, uid);
    }
  }
}
