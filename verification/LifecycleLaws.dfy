/** Over whole lives: who is on record as the creator, and when the target is deleted. */
module LifecycleLaws {
  import opened Json
  import opened ClientSideApply
  import opened Trackers
  import opened Conflicts
  import opened TrackerPass
  import opened Listing
  import opened PassLaws
  import opened Lifecycle

  // ---- Who made the target ----

  function Note(first: Option<string>, e: Event): Option<string>
  {
    match e
    case TrackerMade => None
    case Reported(uid) => if first.None? then Some(uid) else first
    case _ => first
  }

  function FirstFrom(first: Option<string>, events: seq<Event>): Option<string>
    decreases |events|
  {
    if events == [] then first else FirstFrom(Note(first, events[0]), events[1..])
  }

  /**
   * The first contributor whose creation of the target was reported to the present tracker: the first, that
   * is, whose write of the creator to the status went through. A creation whose write was lost is no report.
   */
  function FirstReport(log: seq<Event>): Option<string>
  {
    FirstFrom(None, log)
  }

  lemma {:induction false} FirstSplit(first: Option<string>, a: seq<Event>, b: seq<Event>)
    ensures FirstFrom(first, a + b) == FirstFrom(FirstFrom(first, a), b)
    decreases |a|
  {
    if a == [] {
      assert a + b == b;
    } else {
      assert (a + b)[0] == a[0] && (a + b)[1..] == a[1..] + b;
      FirstSplit(Note(first, a[0]), a[1..], b);
    }
  }

  lemma {:induction false} FirstUnmoved(first: Option<string>, events: seq<Event>)
    requires forall e | e in events :: !e.TrackerMade? && !e.Reported?
    ensures FirstFrom(first, events) == first
    decreases |events|
  {
    if events != [] {
      assert events[0] in events;
      FirstUnmoved(first, events[1..]);
    }
  }

  /** The recorded creator is the first reporter, by UID, and recorded together with the creation. */
  predicate Credited(first: Option<string>, s: Status)
  {
    && s.createdByOperator == s.creator.Some?
    && if s.creator.None? then first.None? else s.creator.value.uid != "" && first == Some(s.creator.value.uid)
  }

  /** The safety rule for every deletion on record. */
  ghost predicate SafeDeletions(log: seq<Event>)
  {
    forall i | 0 <= i < |log| && log[i].TargetDeleted? :: SafeDeletion(FirstReport(log[..i]), log[i].list)
  }

  /** Nobody stays, and the first reporter is among those leaving and asks for the deletion. */
  ghost predicate SafeDeletion(first: Option<string>, list: seq<Listed>)
  {
    && Active(list) == []
    && first.Some?
    && exists c :: c in list && c.obj.deleting && c.obj.onRelease.Deleted? && c.obj.ref.uid == first.value
  }

  lemma {:induction false} SafeStill(log: seq<Event>, e: Event)
    requires SafeDeletions(log)
    requires e.TargetDeleted? ==> SafeDeletion(FirstReport(log), e.list)
    ensures SafeDeletions(log + [e])
  {
    var log' := log + [e];
    forall i | 0 <= i < |log'| && log'[i].TargetDeleted? ensures SafeDeletion(FirstReport(log'[..i]), log'[i].list) {
      if i < |log| {
        assert log'[..i] == log[..i] && log'[i] == log[i];
      } else {
        assert log'[..i] == log;
      }
    }
  }

  lemma {:induction false} SafeStillAll(log: seq<Event>, events: seq<Event>)
    requires SafeDeletions(log) && forall e | e in events :: !e.TargetDeleted?
    ensures SafeDeletions(log + events)
    decreases |events|
  {
    if events == [] {
      assert log + events == log;
    } else {
      assert events[0] in events;
      SafeStill(log, events[0]);
      SafeStillAll(log + [events[0]], events[1..]);
      assert log + [events[0]] + events[1..] == log + events;
    }
  }

  lemma {:induction false} TurnCredits(first: Option<string>, s: PassState, c: Listed, contribution: Contribution, loses: bool)
    requires contribution.obj.Obj? && s.verdict.Running? && c.status.ref.uid != "" && Credited(first, s.status)
    ensures Credited(FirstFrom(first, OwnEvents(s, c, contribution, loses)), Turn(s, c, contribution, loses).status)
    ensures forall e | e in OwnEvents(s, c, contribution, loses) :: !e.TargetDeleted?
  {
    var uid := c.status.ref.uid;
    assert [Wrote(uid)][1..] == [] && [Wrote(uid), Reported(uid)][1..] == [Reported(uid)] && [Reported(uid)][1..] == [];
    assert FirstFrom(first, [Reported(uid)]) == FirstFrom(Note(first, Reported(uid)), []);
    assert FirstFrom(first, [Wrote(uid), Reported(uid)]) == FirstFrom(first, [Reported(uid)]) == Note(first, Reported(uid));
    if !Touches(s, c, contribution, loses) || s.target.Some? {
      UntouchedKeepsCreator(s, c, contribution, loses);
    } else {
      var content := Seeded(contribution, c.obj.base).value;
      assert Turn(s, c, contribution, loses) == Settled(s.(target := Some(content)), c, contribution, true, map[]);
    }
  }

  lemma {:induction false} UntouchedKeepsCreator(s: PassState, c: Listed, contribution: Contribution, loses: bool)
    requires contribution.obj.Obj? && s.verdict.Running?
    requires !Touches(s, c, contribution, loses) || s.target.Some?
    ensures Turn(s, c, contribution, loses).status.creator == s.status.creator
    ensures Turn(s, c, contribution, loses).status.createdByOperator == s.status.createdByOperator
  {
    if s.target.None? && c.obj.allowCreate && Seeded(contribution, c.obj.base).Some? {
      assert !loses ==> !c.obj.fault.Clean? && !c.obj.fault.Unsaved?;
    }
  }

  lemma {:induction false} TurnsCredit(first: Option<string>, s: PassState, active: seq<Listed>, claims: map<string, seq<nat>>, i: nat)
    requires AllRender(active) && i <= |active| && Credited(first, s.status)
    requires forall k | 0 <= k < |active| :: active[k].status.ref.uid != ""
    ensures Credited(FirstFrom(first, TurnEvents(s, active, claims, i)), Turns(s, active, claims, i).status)
    ensures forall e | e in TurnEvents(s, active, claims, i) :: !e.TargetDeleted?
    decreases |active| - i
  {
    if i < |active| && s.verdict.Running? {
      var c, contribution, loses := active[i], active[i].obj.rendered.value, Yields(active, claims, i);
      var t := Turn(s, c, contribution, loses);
      var mine := OwnEvents(s, c, contribution, loses);
      TurnCredits(first, s, c, contribution, loses);
      TurnsCredit(FirstFrom(first, mine), t, active, claims, i + 1);
      FirstSplit(first, mine, TurnEvents(t, active, claims, i + 1));
    }
  }

  /** The invariant behind delete safety. */
  ghost predicate Attributed(w: World)
  {
    && Wellformed(w)
    && SafeDeletions(w.log)
    && (w.tracker.Some? ==> Credited(FirstReport(w.log), w.tracker.value))
  }

  lemma {:induction false} DeletionIsAttributed(first: Option<string>, status: Status, list: seq<Listed>)
    requires Credited(first, status)
    requires forall c | c in list :: c.status.ref == c.obj.ref && c.obj.ref.uid != ""
    ensures Active(list) == [] ==> (WantsDelete(status, Leaving(list)) <==> SafeDeletion(first, list))
  {
    var leaving := Leaving(list);
    if c :| c in list && status.creator.Some? && c.obj.deleting && c.obj.onRelease.Deleted? && c.obj.ref.uid == first.value {
      LeavingMembers(list, c);
      var i :| 0 <= i < |leaving| && leaving[i] == c;
      assert SameContributor(leaving[i].status.ref, status.creator.value);
    }
    if !WantsDelete(status, leaving) { return; }
    var i :| 0 <= i < |leaving| && leaving[i].obj.onRelease.Deleted? && SameContributor(leaving[i].status.ref, status.creator.value);
    LeavingMembers(list, leaving[i]);
    assert leaving[i] in leaving;
  }

  lemma {:induction false} DeparturesAreAttributed(log: seq<Event>, target: Target, status: Status, list: seq<Listed>)
    requires SafeDeletions(log) && Credited(FirstReport(log), status)
    requires forall c | c in list :: c.status.ref == c.obj.ref && c.obj.ref.uid != ""
    ensures var log' := log + DepartureEvents(target, status, list);
      SafeDeletions(log') && FirstReport(log') == FirstReport(log)
  {
    var first := WithdrawEvents(Leaving(list));
    WithdrawalsAreQuiet(Leaving(list));
    SafeStillAll(log, first);
    FirstSplit(None, log, first);
    FirstUnmoved(FirstReport(log), first);
    if Deletes(target, status, list) {
      var e := TargetDeleted(list);
      DeletionIsAttributed(FirstReport(log), status, list);
      SafeStill(log + first, e);
      FirstSplit(None, log + first, [e]);
      FirstUnmoved(FirstReport(log + first), [e]);
      assert log + first + [e] == log + DepartureEvents(target, status, list);
    } else {
      assert first + [] == first;
    }
  }

  lemma {:induction false} AppliesAreAttributed(first: Option<string>, target: Target, status: Status, list: seq<Listed>, saves: bool)
    requires Credited(first, status)
    requires forall c | c in list :: c.status.ref.uid != ""
    ensures var events := ApplyEvents(target, status, list);
      && Credited(FirstFrom(first, events), Pass(target, status, list, saves).status)
      && forall e | e in events :: !e.TargetDeleted?
  {
    var active, s := Active(list), Departures(target, status, list);
    forall k | 0 <= k < |active| ensures active[k].status.ref.uid != "" {
      LeavingMembers(list, active[k]);
      assert active[k] in active;
    }
    if s.verdict.Running? && AllRender(active) {
      TurnsCredit(first, s, active, ContestedPaths(Rendered(active)), 0);
    }
  }

  lemma {:induction false} Joined(a: seq<Event>, b: seq<Event>, c: seq<Event>)
    ensures a + b + c == a + (b + c)
  {}

  lemma {:induction false} PassIsAttributed(log: seq<Event>, target: Target, status: Status, list: seq<Listed>, saves: bool)
    requires SafeDeletions(log) && Credited(FirstReport(log), status)
    requires forall c | c in list :: c.status.ref == c.obj.ref && c.obj.ref.uid != ""
    ensures var log' := log + PassEvents(target, status, list);
      SafeDeletions(log') && Credited(FirstReport(log'), Pass(target, status, list, saves).status)
  {
    var log1, events := log + DepartureEvents(target, status, list), ApplyEvents(target, status, list);
    DeparturesAreAttributed(log, target, status, list);
    AppliesAreAttributed(FirstReport(log), target, status, list, saves);
    SafeStillAll(log1, events);
    FirstSplit(None, log1, events);
    Joined(log, DepartureEvents(target, status, list), events);
  }

  lemma {:induction false} PassStepIsAttributed(w: World, op: Op)
    requires Attributed(w) && Legal(w, op) && op.Reconcile? && w.tracker.Some? && op.list != []
    ensures Attributed(Step(w, op))
  {
    StepWellformed(w, op);
    forall c | c in op.list ensures c.status.ref == c.obj.ref && c.obj.ref.uid != "" {
      var i :| 0 <= i < |op.list| && op.list[i] == c;
      assert c.status == RecordFor(c.obj, w.tracker.value);
    }
    PassIsAttributed(w.log, w.target, w.tracker.value, op.list, op.saves);
  }

  lemma {:induction false} NotedIsAttributed(w: World, op: Op, e: Event)
    requires Attributed(w) && Legal(w, op) && !op.Reconcile?
    requires Step(w, op).log == w.log + [e]
    ensures Attributed(Step(w, op))
  {
    assert (w.log + [e])[|w.log|] == e && |w.log + [e]| == |w.log| + 1 && [e][1..] == [];
    StepWellformed(w, op);
    SafeStill(w.log, e);
    FirstSplit(None, w.log, [e]);
  }

  lemma {:induction false} StepIsAttributed(w: World, op: Op)
    requires Attributed(w) && Legal(w, op)
    ensures Attributed(Step(w, op))
  {
    StepWellformed(w, op);
    if op.Reconcile? && w.tracker.Some? && op.list != [] {
      PassStepIsAttributed(w, op);
    } else if Step(w, op).log != w.log {
      NotedIsAttributed(w, op, Step(w, op).log[|w.log|]);
    }
  }

  lemma {:induction false} RunIsAttributed(w: World, ops: seq<Op>)
    requires Attributed(w) && AllLegal(w, ops)
    ensures Attributed(Run(w, ops))
    decreases |ops|
  {
    if ops != [] {
      StepIsAttributed(w, ops[0]);
      RunIsAttributed(Step(w, ops[0]), ops[1..]);
    }
  }

  /**
   * However contributors, creators, adopters and same-named successors come and go, and whatever others
   * do to the target: the operator deletes it only in a pass that lists nobody who stays and, among
   * those leaving, the very contributor whose creation of it was first recorded by this tracker, asking
   * for the deletion.
   */
  lemma {:induction false} DeletionsAreSafe(ops: seq<Op>)
    requires AllLegal(NOTHING, ops)
    ensures SafeDeletions(Run(NOTHING, ops).log)
  {
    RunIsAttributed(NOTHING, ops);
  }

  /**
   * And it does delete it whenever that is so: in every reachable state a pass whose releases go through
   * calls for the deletion exactly when the rule above is met.
   */
  lemma {:induction false} DeletionExactly(ops: seq<Op>, list: seq<Listed>)
    requires AllLegal(NOTHING, ops)
    requires var w := Run(NOTHING, ops); w.tracker.Some? && Lists(w, w.tracker.value, list)
    ensures var w := Run(NOTHING, ops);
      Deletes(w.target, w.tracker.value, list) <==>
        ReleaseAll(w.target, Leaving(list)).1 && SafeDeletion(FirstReport(w.log), list)
  {
    var w := Run(NOTHING, ops);
    RunIsAttributed(NOTHING, ops);
    forall c | c in list ensures c.status.ref == c.obj.ref && c.obj.ref.uid != "" {
      var i :| 0 <= i < |list| && list[i] == c;
      assert c.status == RecordFor(c.obj, w.tracker.value);
    }
    DeletionIsAttributed(FirstReport(w.log), w.tracker.value, list);
    if c :| c in list && c.obj.deleting { LeavingMembers(list, c); }
  }
}
