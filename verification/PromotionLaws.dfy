/** What promotion keeps over whole runs, and that it always finishes. */
module PromotionLaws {
  import opened Json
  import opened Trackers
  import opened Promotion

  /** No two trackers may write to the target: beside a cluster tracker, a namespaced one is fenced. */
  predicate SingleWriter(a: Api)
  {
    a.cluster.Some? && a.namespaced.Some? ==> IsFenced(a.namespaced.value.status)
  }

  /** The statuses differ in their promotion marks only. */
  predicate SameState(s: Status, t: Status)
  {
    s.(promotedTo := None) == t.(promotedTo := None)
  }

  predicate CopiedBefore(log: seq<Event>, i: nat, s: Status)
    requires i <= |log|
  {
    exists j :: 0 <= j < i && log[j].Copied? && SameState(log[j].from, s)
  }

  /** Whatever was copied into this tracker is the given state. */
  predicate CopiesAre(log: seq<Event>, i: nat, id: nat, s: Status)
    requires i <= |log|
  {
    forall j | 0 <= j < i && log[j].Copied? && log[j].to == id :: SameState(log[j].from, s)
  }

  /**
   * Every retired tracker's last state had been copied, and a cluster tracker stayed, into which nothing
   * but that state was ever copied.
   */
  predicate RetiredAfterCopy(log: seq<Event>)
  {
    forall i | 0 <= i < |log| && log[i].Retired? :: RetiredRightly(log, i, log[i])
  }

  predicate RetiredRightly(log: seq<Event>, i: nat, e: Event)
    requires i <= |log| && e.Retired?
  {
    CopiedBefore(log, i, e.last) && e.survivor.Some? && CopiesAre(log, i, e.survivor.value.id, e.last)
  }

  /** UIDs in use and on record have been given out. */
  predicate IdsIssued(a: Api)
  {
    && (a.cluster.Some? ==> a.cluster.value.id < a.issued)
    && (a.namespaced.Some? ==> a.namespaced.value.id < a.issued)
    && forall j | 0 <= j < |a.log| && a.log[j].Copied? :: a.log[j].to < a.issued
  }

  predicate Sound(a: Api)
  {
    && SingleWriter(a)
    && IdsIssued(a)
    && (a.cluster.Some? ==> !IsFenced(a.cluster.value.status))
    && (a.namespaced.Some? ==>
          var s := a.namespaced.value.status;
          && (IsFenced(s) && s.promotedTo.value.adopted ==> CopiedBefore(a.log, |a.log|, s))
          && (a.cluster.Some? ==> CopiesAre(a.log, |a.log|, a.cluster.value.id, s)))
    && RetiredAfterCopy(a.log)
  }

  lemma {:induction false} LogGrows(log: seq<Event>, more: seq<Event>, s: Status)
    requires CopiedBefore(log, |log|, s)
    ensures CopiedBefore(log + more, |log + more|, s)
  {
    var j :| 0 <= j < |log| && log[j].Copied? && SameState(log[j].from, s);
    assert (log + more)[j] == log[j];
  }

  lemma {:induction false} RetiredStill(log: seq<Event>, e: Event)
    requires RetiredAfterCopy(log)
    requires e.Retired? ==> RetiredRightly(log, |log|, e)
    ensures RetiredAfterCopy(log + [e])
  {
    var log' := log + [e];
    forall i | 0 <= i < |log'| && log'[i].Retired? ensures RetiredRightly(log', i, log'[i]) {
      SamePrefix(log, e, i, log'[i]);
    }
  }

  lemma {:induction false} SamePrefix(log: seq<Event>, e: Event, i: nat, r: Event)
    requires i <= |log| && r.Retired?
    ensures RetiredRightly(log + [e], i, r) <==> RetiredRightly(log, i, r)
  {
    var log' := log + [e];
    assert forall j | 0 <= j < i :: log'[j] == log[j];
    if CopiedBefore(log, i, r.last) {
      var j :| 0 <= j < i && log[j].Copied? && SameState(log[j].from, r.last);
      assert log'[j].Copied?;
    }
    if CopiedBefore(log', i, r.last) {
      var j :| 0 <= j < i && log'[j].Copied? && SameState(log'[j].from, r.last);
      assert log[j].Copied?;
    }
  }

  lemma {:induction false} CopiesStill(log: seq<Event>, e: Event, id: nat, s: Status)
    requires CopiesAre(log, |log|, id, s)
    requires e.Copied? && e.to == id ==> SameState(e.from, s)
    ensures CopiesAre(log + [e], |log + [e]|, id, s)
  {
    assert forall j | 0 <= j < |log| :: (log + [e])[j] == log[j];
  }

  lemma {:induction false} FenceKeepsSound(c: Call)
    requires Sound(c.api)
    ensures Sound(Fence(c).api)
    ensures var d := Fence(c); d.alive && d.api.namespaced.Some? ==> IsFenced(d.api.namespaced.value.status)
  {}

  lemma {:induction false} CreateKeepsSound(c: Call, cluster: bool)
    requires Sound(c.api)
    requires cluster && c.api.namespaced.Some? && c.alive ==> IsFenced(c.api.namespaced.value.status)
    requires !cluster ==> c.api.cluster.None?
    ensures Sound(Create(c, cluster).api)
  {}

  lemma {:induction false} CopyKeepsSound(c: Call, from: Status)
    requires Sound(c.api)
    requires c.api.namespaced.Some? ==> IsFenced(c.api.namespaced.value.status) && SameState(from, c.api.namespaced.value.status)
    ensures Sound(Copy(c, from).api)
    ensures Copy(c, from).alive ==> CopiedBefore(Copy(c, from).api.log, |Copy(c, from).api.log|, from)
    ensures Copy(c, from).api.namespaced == c.api.namespaced
  {
    var d := Copy(c, from);
    if d.api.log != c.api.log {
      var id := c.api.cluster.value.id;
      var e := Copied(id, c.api.cluster.value.status, from);
      assert d.api.log == c.api.log + [e] && d.api.log[|c.api.log|] == e;
      RetiredStill(c.api.log, e);
      if c.api.namespaced.Some? {
        var s := c.api.namespaced.value.status;
        if s.promotedTo.value.adopted { LogGrows(c.api.log, [e], s); }
        CopiesStill(c.api.log, e, id, s);
      }
    }
  }

  lemma {:induction false} PromoteKeepsSound(c: Call)
    requires Sound(c.api)
    ensures Sound(Promote(c).api)
    ensures var d := Promote(c); d.alive && d.api.namespaced.Some? ==> IsFenced(d.api.namespaced.value.status)
  {
    FenceKeepsSound(c);
    var f := Fence(c);
    if f.alive && f.api.namespaced.Some? {
      var from := f.api.namespaced.value.status;
      CreateKeepsSound(f, true);
      CopyKeepsSound(Create(f, true), from);
    }
  }

  lemma {:induction false} EnsureKeepsSound(c: Call, cluster: bool)
    requires Sound(c.api)
    ensures Sound(EnsureTracker(c, cluster).api)
  {
    if cluster {
      PromoteKeepsSound(c);
      CreateKeepsSound(Promote(c), true);
    } else if c.api.cluster.None? {
      CreateKeepsSound(c, false);
    }
  }

  /** An unfenced tracker's pass stays with that tracker and the target. */
  ghost predicate Own(a: Api, b: Api, cluster: bool)
  {
    && Tracker(b, !cluster) == Tracker(a, !cluster)
    && b.log == a.log && b.issued == a.issued
    && (Tracker(b, cluster).Some? && Tracker(a, cluster).Some? ==> Tracker(b, cluster).value.id == Tracker(a, cluster).value.id)
    && (Tracker(b, cluster).Some? ==> Tracker(a, cluster).Some?)
    && (Tracker(b, cluster).Some? ==> !IsFenced(Tracker(b, cluster).value.status))
  }

  lemma {:induction false} RemovesOwn(c: Call, cluster: bool)
    requires Tracker(c.api, cluster).Some? && !IsFenced(Tracker(c.api, cluster).value.status)
    ensures Own(c.api, Unpin(c, cluster).api, cluster)
    ensures Own(c.api, Remove(Unpin(c, cluster), cluster).api, cluster)
  {
    assert c.api.log + [] == c.api.log;
  }

  lemma {:induction false} WritesOwn(c: Call, cluster: bool, work: Work)
    requires Tracker(c.api, cluster).Some? && !IsFenced(Tracker(c.api, cluster).value.status)
    ensures Own(c.api, RecordCreator(c, cluster, work.created).api, cluster)
    ensures Own(c.api, StoreStatus(c, cluster, work).api, cluster)
  {
    assert c.api.log + [] == c.api.log;
  }

  lemma {:induction false} ListedOwn(c: Call, cluster: bool, work: Work)
    requires Tracker(c.api, cluster).Some? && !IsFenced(Tracker(c.api, cluster).value.status)
    ensures Own(c.api, StoreStatus(RecordCreator(WriteTarget(c, work.target), cluster, work.created), cluster, work).api, cluster)
  {
    var w := WriteTarget(c, work.target);
    WritesOwn(w, cluster, work);
    var r := RecordCreator(w, cluster, work.created);
    if Tracker(r.api, cluster).Some? { WritesOwn(r, cluster, work); }
  }

  lemma {:induction false} PassOwn(c: Call, cluster: bool, work: Work)
    requires Tracker(c.api, cluster).Some? && !IsFenced(Tracker(c.api, cluster).value.status)
    ensures Own(c.api, Pass(c, cluster, work).api, cluster)
  {
    var t := Tracker(c.api, cluster).value;
    assert c.api.log + [] == c.api.log;
    if t.deleting {
      RemovesOwn(WriteTarget(c, work.target), cluster);
    } else if t.finalizer && work.listed {
      ListedOwn(c, cluster, work);
    } else {
      RemovesOwn(c, cluster);
    }
  }

  lemma {:induction false} PassKeepsSound(c: Call, cluster: bool, work: Work)
    requires Sound(c.api)
    ensures Sound(Pass(c, cluster, work).api)
  {
    if Tracker(c.api, cluster).Some? {
      if IsFenced(Tracker(c.api, cluster).value.status) {
        FinishKeepsSound(c);
      } else {
        PassOwn(c, cluster, work);
      }
    }
  }

  lemma {:induction false} FinishKeepsSound(c: Call)
    requires Sound(c.api) && c.api.namespaced.Some?
    ensures Sound(FinishPromotion(c, false).api)
  {
    var t := c.api.namespaced.value;
    var log := c.api.log;
    assert log + [] == log;
    if IsFenced(t.status) && c.api.cluster.Some? && t.status.promotedTo.value.adopted {
      RetiredStill(log, Retired(t.status, c.api.cluster));
    }
  }

  lemma {:induction false} StepKeepsSound(a: Api, op: Op)
    requires Sound(a)
    ensures Sound(Step(a, op))
  {
    match op
    case Ensure(cluster, writes) => EnsureKeepsSound(Call(a, writes, true), cluster);
    case Reconcile(cluster, work, writes) => PassKeepsSound(Call(a, writes, true), cluster, work);
    case Delete(cluster) =>
  }

  /** The target moves only in a pass of an unfenced tracker, and of one tracker at most. */
  lemma {:induction false} OneWriter(a: Api, op: Op)
    requires Sound(a) && Step(a, op).target != a.target
    ensures op.Reconcile?
    ensures Tracker(a, op.cluster).Some? && !IsFenced(Tracker(a, op.cluster).value.status)
    ensures Tracker(a, !op.cluster).None? || IsFenced(Tracker(a, !op.cluster).value.status)
  {}

  /**
   * Whatever contributors join, trackers reconcile or vanish, and wherever calls die: never two writers,
   * and no tracker is retired before its state was copied, nor without a cluster tracker beside it.
   */
  lemma {:induction false} AlwaysSound(a: Api, ops: seq<Op>)
    requires Sound(a)
    ensures Sound(Run(a, ops))
    decreases |ops|
  {
    if ops != [] {
      StepKeepsSound(a, ops[0]);
      AlwaysSound(Step(a, ops[0]), ops[1..]);
    }
  }

  // ---- Ending ----

  /** The cluster tracker is neither deleted from outside nor run with nobody listed. */
  predicate Held(a: Api, ops: seq<Op>)
    decreases |ops|
  {
    ops == [] || (
      && (ops[0].Delete? ==> !ops[0].cluster)
      && (ops[0].Reconcile? && ops[0].cluster ==> ops[0].work.listed)
      && Held(Step(a, ops[0]), ops[1..]))
  }

  predicate Promoted(a: Api)
  {
    && a.namespaced.None?
    && a.cluster.Some?
    && !IsFenced(a.cluster.value.status)
    && !a.cluster.value.deleting
  }

  lemma {:induction false} StaysPromoted(a: Api, op: Op)
    requires Promoted(a) && Held(a, [op])
    ensures Promoted(Step(a, op))
  {}

  /** One uninterrupted call of a cluster-scoped contributor leaves the successor in place and the rest adopted. */
  lemma {:induction false} JoiningPromotes(a: Api, joins: nat)
    requires Sound(a) && joins >= 4
    ensures var b := Step(a, Ensure(true, joins));
      && b.cluster.Some? && !IsFenced(b.cluster.value.status) && b.target == a.target
      && (b.cluster.value.deleting ==> a.cluster.Some? && a.cluster.value.deleting)
      && (b.namespaced.Some? ==>
            IsFenced(b.namespaced.value.status) && b.namespaced.value.status.promotedTo.value.adopted)
  {}

  /**
   * From any state a crash can leave, one uninterrupted call of a cluster-scoped contributor and one of
   * the fenced tracker's end the promotion, without a write to the target; and no contributor brings the
   * namespaced tracker back while the cluster tracker is in use.
   */
  lemma {:induction false} PromotionFinishes(a: Api, joins: nat, work: Work, retires: nat, ops: seq<Op>)
    requires Sound(a) && joins >= 4 && retires >= 2
    ensures var b := Step(Step(a, Ensure(true, joins)), Reconcile(false, work, retires));
      && b.cluster.Some? && b.namespaced.None? && b.target == a.target
      && ((a.cluster.Some? ==> !a.cluster.value.deleting) && Held(b, ops) ==> Promoted(Run(b, ops)))
  {
    JoiningPromotes(a, joins);
    var b := Step(Step(a, Ensure(true, joins)), Reconcile(false, work, retires));
    if Promoted(b) && Held(b, ops) { PromotedForGood(b, ops); }
  }

  /**
   * A fence found without its cluster tracker is taken back: the tracker is as it was before the fence, whatever it
   * was doing, but for its phase, and so exactly as it was if and only if that was Applied.
   */
  lemma {:induction false} UnfencingRestores(t: Stored, target: Option<Json>, log: seq<Event>, issued: nat, work: Work, fences: nat, retires: nat)
    requires !IsFenced(t.status) && fences == 1 && retires >= 1
    ensures var a := Api(Some(t), None, target, log, issued);
      var b := Step(Step(a, Ensure(true, fences)), Reconcile(false, work, retires));
      && b.namespaced == Some(t.(status := t.status.(phase := Applied)))
      && b.cluster.None? && b.target == target && b.issued == issued
      && (b.namespaced == a.namespaced <==> t.status.phase.Applied?)
  {
    var a := Api(Some(t), None, target, log, issued);
    var a1 := Step(a, Ensure(true, fences));
    assert a1.namespaced == Some(t.(status := Fenced(t.status))) && a1.cluster.None?;
    var t1 := a1.namespaced.value;
    assert t1.status.(promotedTo := None, phase := Applied) == t.status.(phase := Applied);
    assert log + [] == log;
  }

  lemma {:induction false} PromotedForGood(a: Api, ops: seq<Op>)
    requires Promoted(a) && Held(a, ops)
    ensures Promoted(Run(a, ops))
    decreases |ops|
  {
    if ops != [] {
      StaysPromoted(a, ops[0]);
      PromotedForGood(Step(a, ops[0]), ops[1..]);
    }
  }
}
