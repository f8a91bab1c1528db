/** The recorded creator across both trackers, and what crashes and interleavings do to a promotion. */
module Creators {
  import opened Json
  import opened Trackers
  import opened Adoption
  import opened Promotion
  import opened PromotionLaws
  import opened Succession

  // ---- One tracker never changes its mind ----

  /** A tracker, known by its UID, names its creator or is gone for good. */
  predicate Names(a: Api, cluster: bool, id: nat, r: ContributorRef)
  {
    && id < a.issued
    && (Tracker(a, cluster).Some? && Tracker(a, cluster).value.id == id ==> Tracker(a, cluster).value.status.creator == Some(r))
  }

  lemma {:induction false} CopyNamesOn(c: Call, from: Status, cluster: bool, id: nat, r: ContributorRef)
    requires Names(c.api, cluster, id, r)
    ensures Names(Copy(c, from).api, cluster, id, r)
  {}

  lemma {:induction false} PromoteNamesOn(c: Call, cluster: bool, id: nat, r: ContributorRef)
    requires Names(c.api, cluster, id, r)
    ensures Names(Promote(c).api, cluster, id, r)
  {
    var f := Fence(c);
    if f.alive && f.api.namespaced.Some? {
      assert Names(Create(f, true).api, cluster, id, r);
      CopyNamesOn(Create(f, true), f.api.namespaced.value.status, cluster, id, r);
    }
  }

  lemma {:induction false} RemovalNamesOn(c: Call, which: bool, cluster: bool, id: nat, r: ContributorRef)
    requires Names(c.api, cluster, id, r)
    ensures Names(Unpin(c, which).api, cluster, id, r)
    ensures Names(Remove(Unpin(c, which), which).api, cluster, id, r)
  {}

  lemma {:induction false} RecordNamesOn(c: Call, which: bool, created: Option<ContributorRef>, cluster: bool, id: nat, r: ContributorRef)
    requires Names(c.api, cluster, id, r)
    ensures Names(RecordCreator(c, which, created).api, cluster, id, r)
  {}

  lemma {:induction false} StoreNamesOn(c: Call, which: bool, work: Work, cluster: bool, id: nat, r: ContributorRef)
    requires Names(c.api, cluster, id, r)
    ensures Names(StoreStatus(c, which, work).api, cluster, id, r)
  {}

  lemma {:induction false} FinishNamesOn(c: Call, which: bool, cluster: bool, id: nat, r: ContributorRef)
    requires Names(c.api, cluster, id, r) && Tracker(c.api, which).Some?
    ensures Names(FinishPromotion(c, which).api, cluster, id, r)
  {
    RemovalNamesOn(c, which, cluster, id, r);
  }

  lemma {:induction false} PassNamesOn(c: Call, which: bool, work: Work, cluster: bool, id: nat, r: ContributorRef)
    requires Names(c.api, cluster, id, r)
    ensures Names(Pass(c, which, work).api, cluster, id, r)
  {
    if Tracker(c.api, which).Some? {
      var t := Tracker(c.api, which).value;
      var w := WriteTarget(c, work.target);
      if IsFenced(t.status) {
        FinishNamesOn(c, which, cluster, id, r);
      } else if t.deleting {
        RemovalNamesOn(w, which, cluster, id, r);
      } else if t.finalizer && work.listed {
        RecordNamesOn(w, which, work.created, cluster, id, r);
        StoreNamesOn(RecordCreator(w, which, work.created), which, work, cluster, id, r);
      } else {
        RemovalNamesOn(c, which, cluster, id, r);
      }
    }
  }

  lemma {:induction false} StepNamesOn(a: Api, op: Op, cluster: bool, id: nat, r: ContributorRef)
    requires Names(a, cluster, id, r)
    ensures Names(Step(a, op), cluster, id, r)
  {
    match op
    case Ensure(scoped, writes) => PromoteNamesOn(Call(a, writes, true), cluster, id, r);
    case Reconcile(which, work, writes) => PassNamesOn(Call(a, writes, true), which, work, cluster, id, r);
    case Delete(which) =>
  }

  /**
   * Whatever happens to the target, whatever is created again, copied or reported: a tracker that has
   * once named a creator never names another.
   */
  lemma {:induction false} CreatorIsWriteOnce(a: Api, ops: seq<Op>, cluster: bool, id: nat, r: ContributorRef)
    requires Names(a, cluster, id, r)
    ensures Names(Run(a, ops), cluster, id, r)
    decreases |ops|
  {
    if ops != [] {
      StepNamesOn(a, ops[0], cluster, id, r);
      CreatorIsWriteOnce(Step(a, ops[0]), ops[1..], cluster, id, r);
    }
  }

  // ---- From a target that does not exist yet ----

  predicate RecordedIs(a: Api, r: ContributorRef)
  {
    && (a.namespaced.Some? ==> NoneOr(a.namespaced.value.status.creator, r))
    && (a.cluster.Some? ==> NoneOr(a.cluster.value.status.creator, r))
  }

  predicate NothingRecorded(a: Api)
  {
    && (a.namespaced.Some? ==> a.namespaced.value.status.creator.None?)
    && (a.cluster.Some? ==> a.cluster.value.status.creator.None?)
  }

  /** A pass makes the target only where it is missing, by an apply that reports it, and deletes nothing. */
  predicate Honest(a: Api, op: Op)
  {
    op.Reconcile? ==>
      if a.target.Some? then op.work.target.Some? && op.work.created.None?
      else if op.work.target.Some? then op.work.listed && op.work.created.Some? && !Leaving(a, op.cluster)
      else op.work.created.None?
  }

  /** The tracker is being deleted, so that its pass withdraws and applies nothing. */
  predicate Leaving(a: Api, cluster: bool)
  {
    Tracker(a, cluster).Some? && Tracker(a, cluster).value.deleting
  }

  predicate AllHonest(a: Api, ops: seq<Op>)
    decreases |ops|
  {
    ops == [] || (Honest(a, ops[0]) && AllHonest(Step(a, ops[0]), ops[1..]))
  }

  /** The contributor whose apply made the target. */
  function Maker(a: Api, ops: seq<Op>): Option<ContributorRef>
    decreases |ops|
  {
    if ops == [] then None
    else if a.target.None? && Step(a, ops[0]).target.Some? && ops[0].Reconcile? then ops[0].work.created
    else Maker(Step(a, ops[0]), ops[1..])
  }

  lemma {:induction false} PromoteRecords(c: Call, r: ContributorRef)
    requires RecordedIs(c.api, r)
    ensures RecordedIs(Promote(c).api, r)
    ensures NothingRecorded(c.api) ==> NothingRecorded(Promote(c).api)
    ensures Promote(c).api.target == c.api.target
  {
    var f := Fence(c);
    assert RecordedIs(f.api, r);
    if f.alive && f.api.namespaced.Some? {
      var from := f.api.namespaced.value.status;
      assert RecordedIs(Create(f, true).api, r);
      assert RecordedIs(CreateSuccessor(f, from).api, r);
    }
  }

  lemma {:induction false} FinishRecords(c: Call, cluster: bool, r: ContributorRef)
    requires RecordedIs(c.api, r) && Tracker(c.api, cluster).Some?
    ensures RecordedIs(FinishPromotion(c, cluster).api, r)
    ensures NothingRecorded(c.api) ==> NothingRecorded(FinishPromotion(c, cluster).api)
  {}

  lemma {:induction false} ListedRecords(c: Call, cluster: bool, work: Work, r: ContributorRef)
    requires RecordedIs(c.api, r) && NoneOr(work.created, r)
    ensures var b := StoreStatus(RecordCreator(c, cluster, work.created), cluster, work).api;
      RecordedIs(b, r) && (work.created.None? && NothingRecorded(c.api) ==> NothingRecorded(b))
  {
    var s := RecordCreator(c, cluster, work.created);
    assert RecordedIs(s.api, r);
  }

  lemma {:induction false} RemovalRecords(c: Call, cluster: bool, r: ContributorRef)
    requires RecordedIs(c.api, r)
    ensures RecordedIs(Unpin(c, cluster).api, r) && RecordedIs(Remove(Unpin(c, cluster), cluster).api, r)
    ensures NothingRecorded(c.api) ==> NothingRecorded(Unpin(c, cluster).api) && NothingRecorded(Remove(Unpin(c, cluster), cluster).api)
  {}

  /** An unfenced tracker's pass: it reports r, or nobody. */
  lemma {:induction false} PassRecords(c: Call, cluster: bool, work: Work, r: ContributorRef)
    requires RecordedIs(c.api, r) && NoneOr(work.created, r)
    requires Tracker(c.api, cluster).Some? && !IsFenced(Tracker(c.api, cluster).value.status)
    ensures RecordedIs(Pass(c, cluster, work).api, r)
    ensures work.created.None? && NothingRecorded(c.api) ==> NothingRecorded(Pass(c, cluster, work).api)
  {
    var t := Tracker(c.api, cluster).value;
    var w := WriteTarget(c, work.target);
    if t.deleting {
      RemovalRecords(w, cluster, r);
    } else if t.finalizer && work.listed {
      ListedRecords(w, cluster, work, r);
    } else {
      RemovalRecords(c, cluster, r);
    }
  }

  lemma {:induction false} StepRecords(a: Api, op: Op, r: ContributorRef)
    requires RecordedIs(a, r) && (op.Reconcile? ==> NoneOr(op.work.created, r))
    ensures RecordedIs(Step(a, op), r)
    ensures (op.Reconcile? ==> op.work.created.None?) && NothingRecorded(a) ==> NothingRecorded(Step(a, op))
  {
    match op
    case Ensure(cluster, writes) => PromoteRecords(Call(a, writes, true), r);
    case Reconcile(cluster, work, writes) =>
      if Tracker(a, cluster).Some? {
        if IsFenced(Tracker(a, cluster).value.status) {
          FinishRecords(Call(a, writes, true), cluster, r);
        } else {
          PassRecords(Call(a, writes, true), cluster, work, r);
        }
      }
    case Delete(cluster) =>
  }

  /** A pass moves the target only when an unfenced tracker lists contributors or is being deleted. */
  lemma {:induction false} PassTarget(a: Api, cluster: bool, work: Work, writes: nat)
    ensures var b := Step(a, Reconcile(cluster, work, writes));
      b.target == a.target || (
        && b.target == work.target && Tracker(a, cluster).Some? && !IsFenced(Tracker(a, cluster).value.status)
        && (work.listed || Tracker(a, cluster).value.deleting))
  {
    var c := Call(a, writes, true);
    if Tracker(a, cluster).Some? {
      var w := WriteTarget(c, work.target);
      assert w.api.target == a.target || w.api.target == work.target;
      if IsFenced(Tracker(a, cluster).value.status) {
        FinishBlank(c, cluster);
      } else if work.listed && !Leaving(a, cluster) {
        StoringKeepsTarget(w, cluster, work);
      } else {
        UnpinKeepsTarget(w, cluster);
        UnpinKeepsTarget(c, cluster);
      }
    }
  }

  lemma {:induction false} StoringKeepsTarget(c: Call, cluster: bool, work: Work)
    ensures StoreStatus(RecordCreator(c, cluster, work.created), cluster, work).api.target == c.api.target
  {
    assert RecordCreator(c, cluster, work.created).api.target == c.api.target;
  }

  /** A pass that was to make the target and did not has recorded nothing. */
  lemma {:induction false} UnmadeIsUnrecorded(a: Api, cluster: bool, work: Work, writes: nat)
    requires a.target.None? && work.target.Some? && work.listed && NothingRecorded(a) && !Leaving(a, cluster)
    requires Step(a, Reconcile(cluster, work, writes)).target.None?
    ensures NothingRecorded(Step(a, Reconcile(cluster, work, writes)))
  {
    var c := Call(a, writes, true);
    FinishBlank(c, cluster);
    if writes == 0 {
      assert WriteTarget(c, work.target) == c.(alive := false);
    } else {
      assert WriteTarget(c, work.target).api.target.Some?;
    }
  }

  lemma {:induction false} UnpinKeepsTarget(c: Call, cluster: bool)
    ensures Unpin(c, cluster).api.target == c.api.target && Remove(Unpin(c, cluster), cluster).api.target == c.api.target
  {
    assert Unpin(c, cluster).api.target == c.api.target;
  }

  lemma {:induction false} FinishBlank(c: Call, cluster: bool)
    ensures Tracker(c.api, cluster).Some? ==> FinishPromotion(c, cluster).api.target == c.api.target
    ensures Tracker(c.api, cluster).Some? && NothingRecorded(c.api) ==> NothingRecorded(FinishPromotion(c, cluster).api)
  {}

  /** Where the target goes in an honest step, and that nobody is recorded before it is made. */
  lemma {:induction false} MakingRecords(a: Api, op: Op)
    requires Honest(a, op)
    ensures a.target.Some? ==> Step(a, op).target.Some?
    ensures a.target.None? && NothingRecorded(a) && Step(a, op).target.None? ==> NothingRecorded(Step(a, op))
    ensures a.target.None? && Step(a, op).target.Some? ==> op.Reconcile? && op.work.created.Some?
  {
    match op
    case Ensure(cluster, writes) =>
      PromoteTarget(Call(a, writes, true));
      if NothingRecorded(a) { PromoteRecords(Call(a, writes, true), SOMEBODY); }
    case Reconcile(cluster, work, writes) =>
      PassTarget(a, cluster, work, writes);
      if NothingRecorded(a) && work.created.None? { StepRecords(a, op, SOMEBODY); }
      if NothingRecorded(a) && work.created.Some? && Step(a, op).target.None? { UnmadeIsUnrecorded(a, cluster, work, writes); }
    case Delete(cluster) =>
  }

  const SOMEBODY := ContributorRef("", "", "", "")

  lemma {:induction false} PromoteTarget(c: Call)
    ensures Promote(c).api.target == c.api.target
  {}

  lemma {:induction false} StaysRecorded(a: Api, ops: seq<Op>, r: ContributorRef)
    requires a.target.Some? && RecordedIs(a, r) && AllHonest(a, ops)
    ensures RecordedIs(Run(a, ops), r) && Run(a, ops).target.Some?
    ensures NothingRecorded(a) ==> NothingRecorded(Run(a, ops))
    decreases |ops|
  {
    if ops != [] {
      MakingRecords(a, ops[0]);
      StepRecords(a, ops[0], r);
      StaysRecorded(Step(a, ops[0]), ops[1..], r);
    }
  }

  /**
   * From a missing target: until it is made nobody is on record; once it is, both trackers, through
   * promotions and crashes, name its maker or nobody, for as long as the target stays.
   */
  lemma {:induction false} MakerIsRecorded(a: Api, ops: seq<Op>)
    requires a.target.None? && NothingRecorded(a) && AllHonest(a, ops)
    ensures match Maker(a, ops)
      case None => Run(a, ops).target.None? && NothingRecorded(Run(a, ops))
      case Some(r) => Run(a, ops).target.Some? && RecordedIs(Run(a, ops), r)
    decreases |ops|
  {
    if ops != [] {
      var op := ops[0];
      MakingRecords(a, op);
      if Step(a, op).target.Some? {
        var r := op.work.created.value;
        StepRecords(a, op, r);
        StaysRecorded(Step(a, op), ops[1..], r);
      } else {
        MakerIsRecorded(Step(a, op), ops[1..]);
      }
    }
  }

  /**
   * The pass that makes the target records its maker if and only if it lives to its second write; if it
   * does not, nobody is ever recorded while the target stays.
   */
  lemma {:induction false} CrashForgetsCreator(a: Api, op: Op, ops: seq<Op>)
    requires a.target.None? && NothingRecorded(a) && Honest(a, op) && Step(a, op).target.Some?
    requires AllHonest(Step(a, op), ops)
    ensures op.Reconcile? && op.writes >= 1 && op.work.created.Some?
    ensures Tracker(Step(a, op), op.cluster).Some?
    ensures Tracker(Step(a, op), op.cluster).value.status.creator == if op.writes >= 2 then op.work.created else None
    ensures op.writes == 1 ==> NothingRecorded(Run(Step(a, op), ops))
  {
    MakingRecords(a, op);
    MakingWrites(a, op.cluster, op.work, op.writes);
    if op.writes == 1 {
      StaysRecorded(Step(a, op), ops, op.work.created.value);
    }
  }

  lemma {:induction false} MakingWrites(a: Api, cluster: bool, work: Work, writes: nat)
    requires a.target.None? && NothingRecorded(a) && work.created.Some? && Honest(a, Reconcile(cluster, work, writes))
    requires Step(a, Reconcile(cluster, work, writes)).target.Some?
    ensures var b := Step(a, Reconcile(cluster, work, writes));
      && writes >= 1 && Tracker(b, cluster).Some?
      && Tracker(b, cluster).value.status.creator == (if writes >= 2 then work.created else None)
      && (writes == 1 ==> NothingRecorded(b))
  {
    var c := Call(a, writes, true);
    assert Tracker(a, cluster).Some? && !IsFenced(Tracker(a, cluster).value.status);
    var w := WriteTarget(c, work.target);
    var r := RecordCreator(w, cluster, work.created);
    assert writes >= 1 ==> w.alive && w.left == writes - 1;
    assert writes == 1 ==> r == w.(alive := false);
  }

  /**
   * Two trackers name two creators only if the target, once made, was deleted: here by the namespaced
   * tracker's own pass, before a join that dies between creation and copy, after which the successor
   * makes the target again.
   */
  lemma {:induction false} TwoCreatorsAfterDeletion(s: Status, target: Json, goes: Work, comes: Work)
    requires !IsFenced(s) && s.creator.Some?
    requires goes.listed && goes.target.None? && goes.created.None?
    requires comes.listed && comes.target.Some? && comes.created.Some? && comes.created != s.creator
    ensures var ops := [Reconcile(false, goes, 2), Ensure(true, 2), Reconcile(true, comes, 3)];
      var b := Run(Start(s, Some(target)), ops);
      && b.namespaced.Some? && b.namespaced.value.status.creator == s.creator
      && b.cluster.Some? && b.cluster.value.status.creator == comes.created
      && !AllHonest(Start(s, Some(target)), ops)
  {
    var ops := [Reconcile(false, goes, 2), Ensure(true, 2), Reconcile(true, comes, 3)];
    var a := Start(s, Some(target));
    RunUnrolled(a, ops[0], ops[1], ops[2], ops[2]);
    TargetGoes(s, target, goes);
    var a1 := Step(a, ops[0]);
    var t := a1.namespaced.value;
    assert Step(a1, ops[1]) == Api(Some(t.(status := Fenced(t.status))), Some(Stored(1, BLANK, true, false)), None, [], 2);
    SuccessorMakes(t.(status := Fenced(t.status)), comes);
    assert ops[0] == Reconcile(false, goes, 2);
  }

  lemma {:induction false} TargetGoes(s: Status, target: Json, goes: Work)
    requires !IsFenced(s) && goes.listed && goes.target.None? && goes.created.None?
    ensures var b := Step(Start(s, Some(target)), Reconcile(false, goes, 2));
      && b.namespaced.Some? && !IsFenced(b.namespaced.value.status) && b.namespaced.value.status.creator == s.creator
      && b.cluster.None? && b.target.None? && b.log == [] && b.issued == 1
  {
    var w := WriteTarget(Call(Start(s, Some(target)), 2, true), None);
    assert RecordCreator(w, false, goes.created) == w;
    assert w.api.log + [] == w.api.log;
  }

  lemma {:induction false} SuccessorMakes(t: Stored, comes: Work)
    requires comes.listed && comes.target.Some? && comes.created.Some?
    ensures var b := Step(Api(Some(t), Some(Stored(1, BLANK, true, false)), None, [], 2), Reconcile(true, comes, 3));
      b.namespaced == Some(t) && b.cluster.Some? && b.cluster.value.status.creator == comes.created
  {
    var w := WriteTarget(Call(Api(Some(t), Some(Stored(1, BLANK, true, false)), None, [], 2), 3, true), comes.target);
    var r := RecordCreator(w, true, comes.created);
    assert r.api.cluster.Some? && r.api.cluster.value.status.creator == comes.created && r.api.namespaced == Some(t);
  }

  // ---- What crashes and interleavings do ----

  /**
   * Were calls to interleave, the tracker's own call between the fence and the successor's creation would
   * lift the fence, and the resumed call, which reads the status again but not the fence, would create a
   * second writer.
   */
  lemma {:induction false} UnfencingBetweenFenceAndCreate(s: Status, target: Option<Json>, work: Work)
    requires !IsFenced(s)
    ensures var between := Step(Step(Start(s, target), Ensure(true, 1)), Reconcile(false, work, 1));
      && between.namespaced.Some?
      && !SingleWriter(CreateSuccessor(Call(between, 2, true), between.namespaced.value.status).api)
  {}

  /**
   * Whatever sound state the resumed call finds: its creation of the successor keeps a single writer if and only
   * if there is a successor already, or the namespaced tracker is missing or fenced.
   */
  lemma {:induction false} ResumedCreationExactly(a: Api, writes: nat)
    requires Sound(a) && writes >= 1
    ensures SingleWriter(Create(Call(a, writes, true), true).api) <==>
      a.cluster.Some? || a.namespaced.None? || IsFenced(a.namespaced.value.status)
  {}

  /**
   * The process dies between the successor's creation and the copy, the successor makes a pass, and the
   * call is repeated. The successor's list is then the pass's, completed from the predecessor's, and a
   * contributor's recorded priors survive if and only if the successor had no record of it or had not
   * flagged it as captured, or had the same priors anyway.
   */
  lemma {:induction false} PassBetweenCreateAndCopy(s: Status, target: Option<Json>, work: Work, writes: nat, j: nat)
    requires !IsFenced(s) && Identified(s.contributors) && j < |s.contributors| && s.contributors[j].priors.Some?
    requires work.listed && work.created.None? && work.target == target && writes >= 1
    requires work.records.Some? && Identified(work.records.value)
    ensures var b := Run(Start(s, target), [Ensure(true, 2), Reconcile(true, work, writes), Ensure(true, 2)]);
      var had, all, old' := work.records.value, AdoptRecords(work.records.value, s.contributors), s.contributors[j];
      var i := Find(all, old'.ref);
      && b.cluster.Some? && b.cluster.value.status.contributors == all
      && b.namespaced.Some? && b.namespaced.value.status.promotedTo == Some(Promotion(NAME, true))
      && 0 <= i
      && (all[i].priors == old'.priors <==> i >= |had| || !had[i].captured || had[i].priors == old'.priors)
      && (i >= |had| <==> !Knows(had, old'.ref.uid))
  {
    CopyAfterPass(s, target, work, writes);
    PredecessorIsRemembered(work.records.value, s.contributors, j);
  }

  lemma {:induction false} CopyAfterPass(s: Status, target: Option<Json>, work: Work, writes: nat)
    requires !IsFenced(s) && work.records.Some?
    requires work.listed && work.created.None? && work.target == target && writes >= 1
    ensures var b := Run(Start(s, target), [Ensure(true, 2), Reconcile(true, work, writes), Ensure(true, 2)]);
      && b.cluster.Some? && b.cluster.value.status.contributors == AdoptRecords(work.records.value, s.contributors)
      && b.namespaced.Some? && b.namespaced.value.status.promotedTo == Some(Promotion(NAME, true))
  {
    var ops := [Ensure(true, 2), Reconcile(true, work, writes), Ensure(true, 2)];
    var a := Start(s, target);
    RunUnrolled(a, ops[0], ops[1], ops[2], ops[2]);
    var a1 := Step(a, ops[0]);
    assert a1.namespaced == Some(Stored(0, Fenced(s), true, false)) && a1.cluster == Some(Stored(1, BLANK, true, false));
    var a2 := Step(a1, ops[1]);
    assert a2.namespaced == a1.namespaced && a2.cluster.Some? && a2.cluster.value.status.contributors == work.records.value;
  }
}
