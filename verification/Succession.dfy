/** What the cluster tracker beside a retired one holds of its state, and when that is lost. */
module Succession {
  import opened Json
  import opened Trackers
  import opened Adoption
  import opened Promotion
  import opened PromotionLaws

  // ---- Keeping what was taken over ----

  /** The first record under a UID. */
  function Entry(records: seq<Record>, uid: string): Option<Record>
  {
    if records == [] then None
    else if records[0].ref.uid == uid then Some(records[0])
    else Entry(records[1..], uid)
  }

  function Priors(r: Record): map<string, Json>
  {
    if r.priors.Some? then r.priors.value else map[]
  }

  /** A path a contributor owns, by its text. */
  datatype Holding = Holding(uid: string, text: string)

  /** What the tracker knows to give back there: None if the contributor owns no such path, else the prior, if any. */
  function Kept(records: seq<Record>, h: Holding): Option<Option<Json>>
  {
    match Entry(records, h.uid)
    case None => None
    case Some(r) => if r.captured && h.text in r.ownedPaths then Some(PriorOf(r, h.text)) else None
  }

  function PriorOf(r: Record, text: string): Option<Json>
  {
    if text in Priors(r) then Some(Priors(r)[text]) else None
  }

  /** The contributor still owns the path, with the same prior or the same lack of one. */
  predicate Carries(before: seq<Record>, after: seq<Record>, h: Holding)
  {
    Kept(before, h).Some? ==> Kept(after, h) == Kept(before, h)
  }

  /** t knows all that s knew: who created the target, and what was captured for the given paths. */
  predicate Inherits(s: Status, t: Status, held: set<Holding>)
  {
    && (s.creator.Some? ==> t.creator == s.creator)
    && (s.createdByOperator ==> t.createdByOperator)
    && (s.baseHash != "" ==> t.baseHash == s.baseHash)
    && forall h | h in held :: Carries(s.contributors, t.contributors, h)
  }

  /** Whatever was copied into the tracker, it still knows. */
  predicate Heir(log: seq<Event>, i: nat, t: Stored, held: set<Holding>)
    requires i <= |log|
  {
    forall j | 0 <= j < i && log[j].Copied? && log[j].to == t.id ::
      Inherits(Adopt(log[j].before, log[j].from), t.status, held)
  }

  /** The cluster tracker is an heir, and so was every one beside which a tracker was retired. */
  predicate Succeeded(a: Api, held: set<Holding>)
  {
    && (a.cluster.Some? ==> Heir(a.log, |a.log|, a.cluster.value, held))
    && forall i | 0 <= i < |a.log| && a.log[i].Retired? && a.log[i].survivor.Some? ::
         Heir(a.log, i, a.log[i].survivor.value, held)
  }

  /** Every list the cluster tracker's passes store carries these paths. */
  predicate ListsCarry(a: Api, op: Op, held: set<Holding>)
  {
    op.Reconcile? && op.cluster && a.cluster.Some? && op.work.records.Some? ==>
      forall h | h in held :: Carries(a.cluster.value.status.contributors, op.work.records.value, h)
  }

  predicate AllCarry(a: Api, ops: seq<Op>, held: set<Holding>)
    decreases |ops|
  {
    ops == [] || (ListsCarry(a, ops[0], held) && AllCarry(Step(a, ops[0]), ops[1..], held))
  }

  /** The first record under a UID is the one found by reference. */
  lemma {:induction false} EntryIsFound(records: seq<Record>, i: nat)
    requires Identified(records) && i < |records|
    ensures Entry(records, records[i].ref.uid) == Some(records[i])
  {
    if i > 0 {
      assert records[0].ref.uid != records[i].ref.uid;
      TailIdentified(records);
      assert records[1..][i - 1] == records[i];
      EntryIsFound(records[1..], i - 1);
    }
  }

  lemma {:induction false} EntryIsKnown(records: seq<Record>, uid: string)
    ensures Entry(records, uid).Some? ==>
      exists i :: 0 <= i < |records| && records[i].ref.uid == uid && Entry(records, uid) == Some(records[i])
  {
    if records != [] && records[0].ref.uid != uid {
      EntryIsKnown(records[1..], uid);
      if Entry(records[1..], uid).Some? {
        var i :| 0 <= i < |records[1..]| && records[1..][i].ref.uid == uid && Entry(records[1..], uid) == Some(records[1..][i]);
        assert records[i + 1] == records[1..][i];
      }
    }
  }

  lemma {:induction false} EntryUpdated(records: seq<Record>, i: nat, r: Record, uid: string)
    requires i < |records| && r.ref == records[i].ref
    ensures Entry(records[i := r], uid) == Entry(records, uid) || (Entry(records, uid) == Some(records[i]) && Entry(records[i := r], uid) == Some(r))
    ensures r == records[i] ==> Entry(records[i := r], uid) == Entry(records, uid)
  {
    if i > 0 {
      assert records[i := r][1..] == records[1..][i - 1 := r];
      EntryUpdated(records[1..], i - 1, r, uid);
    }
  }

  lemma {:induction false} EntryAppended(records: seq<Record>, r: Record, uid: string)
    ensures Entry(records, uid).Some? ==> Entry(records + [r], uid) == Entry(records, uid)
  {
    if records != [] {
      assert (records + [r])[1..] == records[1..] + [r];
      EntryAppended(records[1..], r, uid);
    }
  }

  lemma {:induction false} AdoptCarries(dst: seq<Record>, src: seq<Record>, h: Holding)
    ensures Carries(dst, AdoptRecords(dst, src), h)
    decreases |src|
  {
    if src != [] {
      var i := Find(dst, src[0].ref);
      if i < 0 { EntryAppended(dst, src[0], h.uid); } else { EntryUpdated(dst, i, Filled(dst[i], src[0]), h.uid); }
      AdoptCarries(AdoptOne(dst, src[0]), src[1..], h);
    }
  }

  lemma {:induction false} AdoptInherits(s: Status, from: Status, held: set<Holding>)
    ensures Inherits(s, Adopt(s, from), held)
  {
    forall h | h in held ensures Carries(s.contributors, Adopt(s, from).contributors, h) {
      AdoptCarries(s.contributors, from.contributors, h);
    }
  }

  lemma {:induction false} InheritsOn(r: Status, s: Status, t: Status, held: set<Holding>)
    requires Inherits(r, s, held) && Inherits(s, t, held)
    ensures Inherits(r, t, held)
  {}

  lemma {:induction false} HeirOn(log: seq<Event>, t: Stored, t': Stored, held: set<Holding>)
    requires Heir(log, |log|, t, held) && t'.id == t.id && Inherits(t.status, t'.status, held)
    ensures Heir(log, |log|, t', held)
  {
    forall j | 0 <= j < |log| && log[j].Copied? && log[j].to == t'.id
      ensures Inherits(Adopt(log[j].before, log[j].from), t'.status, held)
    {
      InheritsOn(Adopt(log[j].before, log[j].from), t.status, t'.status, held);
    }
  }

  lemma {:induction false} SucceededOn(a: Api, b: Api, held: set<Holding>)
    requires Succeeded(a, held) && b.log == a.log
    requires b.cluster.Some? ==>
      || (a.cluster.Some? && b.cluster.value.id == a.cluster.value.id && Inherits(a.cluster.value.status, b.cluster.value.status, held))
      || (forall j | 0 <= j < |a.log| && a.log[j].Copied? :: a.log[j].to != b.cluster.value.id)
    ensures Succeeded(b, held)
  {
    if a.cluster.Some? && b.cluster.Some? && b.cluster.value.id == a.cluster.value.id
        && Inherits(a.cluster.value.status, b.cluster.value.status, held) {
      HeirOn(a.log, a.cluster.value, b.cluster.value, held);
    }
  }

  lemma {:induction false} InheritsSelf(s: Status, held: set<Holding>)
    ensures Inherits(s, s, held)
  {}

  lemma {:induction false} HeirPrefix(log: seq<Event>, e: Event, i: nat, t: Stored, held: set<Holding>)
    requires i <= |log|
    ensures Heir(log + [e], i, t, held) <==> Heir(log, i, t, held)
  {
    assert forall j | 0 <= j < i :: (log + [e])[j] == log[j];
  }

  lemma {:induction false} CopySucceeds(c: Call, from: Status, held: set<Holding>)
    requires Succeeded(c.api, held)
    ensures Succeeded(Copy(c, from).api, held)
  {
    var d := Copy(c, from);
    if d.api.log != c.api.log {
      var log, t, t' := c.api.log, c.api.cluster.value, d.api.cluster.value;
      var e := Copied(t.id, t.status, from);
      assert d.api.log == log + [e] && d.api.log[|log|] == e;
      AdoptInherits(t.status, from, held);
      HeirOn(log, t, t', held);
      InheritsSelf(t'.status, held);
      HeirPrefix(log, e, |log|, t', held);
      forall i | 0 <= i < |d.api.log| && d.api.log[i].Retired? && d.api.log[i].survivor.Some?
        ensures Heir(d.api.log, i, d.api.log[i].survivor.value, held)
      {
        assert log[i] == d.api.log[i];
        HeirPrefix(log, e, i, log[i].survivor.value, held);
      }
    }
  }

  lemma {:induction false} CreateSucceeds(c: Call, cluster: bool, held: set<Holding>)
    requires Succeeded(c.api, held) && IdsIssued(c.api)
    ensures Succeeded(Create(c, cluster).api, held)
  {
    var d := Create(c, cluster);
    if d.api.cluster.Some? && d.api.cluster == c.api.cluster { InheritsSelf(d.api.cluster.value.status, held); }
    SucceededOn(c.api, d.api, held);
  }

  lemma {:induction false} NamespacedOnly(a: Api, b: Api, held: set<Holding>)
    requires Succeeded(a, held) && b.log == a.log && b.cluster == a.cluster
    ensures Succeeded(b, held)
  {
    if a.cluster.Some? { InheritsSelf(a.cluster.value.status, held); }
    SucceededOn(a, b, held);
  }

  lemma {:induction false} PromoteSucceeds(c: Call, held: set<Holding>)
    requires Succeeded(c.api, held) && Sound(c.api)
    ensures Succeeded(Promote(c).api, held)
  {
    var f := Fence(c);
    NamespacedOnly(c.api, f.api, held);
    FenceKeepsSound(c);
    if f.alive && f.api.namespaced.Some? {
      var from := f.api.namespaced.value.status;
      CreateSucceeds(f, true, held);
      CopySucceeds(Create(f, true), from, held);
      var n := CreateSuccessor(f, from);
      NamespacedOnly(n.api, MarkAdopted(n).api, held);
    }
  }

  lemma {:induction false} EnsureSucceeds(c: Call, cluster: bool, held: set<Holding>)
    requires Succeeded(c.api, held) && Sound(c.api)
    ensures Succeeded(EnsureTracker(c, cluster).api, held)
  {
    if cluster {
      PromoteSucceeds(c, held);
      PromoteKeepsSound(c);
      CreateSucceeds(Promote(c), true, held);
    } else {
      CreateSucceeds(c, false, held);
    }
  }

  lemma {:induction false} RecordingInherits(c: Call, created: Option<ContributorRef>, held: set<Holding>)
    requires c.api.cluster.Some?
    ensures var b := RecordCreator(c, true, created).api;
      && b.cluster.Some? && Inherits(c.api.cluster.value.status, b.cluster.value.status, held)
      && b.cluster.value.status.contributors == c.api.cluster.value.status.contributors
  {
    InheritsSelf(c.api.cluster.value.status, held);
  }

  lemma {:induction false} StoringInherits(c: Call, work: Work, held: set<Holding>)
    requires c.api.cluster.Some? && ListsCarry(c.api, Reconcile(true, work, c.left), held)
    ensures var b := StoreStatus(c, true, work).api;
      b.cluster.Some? && Inherits(c.api.cluster.value.status, b.cluster.value.status, held)
  {
    InheritsSelf(c.api.cluster.value.status, held);
  }

  lemma {:induction false} RemovingInherits(c: Call, held: set<Holding>)
    requires c.api.cluster.Some?
    ensures var b := Unpin(c, true).api;
      b.cluster.Some? ==> Inherits(c.api.cluster.value.status, b.cluster.value.status, held)
    ensures var b := Remove(Unpin(c, true), true).api;
      b.cluster.Some? ==> Inherits(c.api.cluster.value.status, b.cluster.value.status, held)
  {
    InheritsSelf(c.api.cluster.value.status, held);
  }

  /** An unfenced cluster tracker's pass forgets nothing it is not told to. */
  lemma {:induction false} PassInherits(c: Call, work: Work, held: set<Holding>)
    requires c.api.cluster.Some? && !IsFenced(c.api.cluster.value.status)
    requires ListsCarry(c.api, Reconcile(true, work, c.left), held)
    ensures var b := Pass(c, true, work).api;
      b.cluster.Some? ==> Inherits(c.api.cluster.value.status, b.cluster.value.status, held)
  {
    var t := c.api.cluster.value;
    var w := WriteTarget(c, work.target);
    InheritsSelf(t.status, held);
    if t.deleting {
      RemovingInherits(w, held);
    } else if t.finalizer && work.listed {
      RecordingInherits(w, work.created, held);
      var r := RecordCreator(w, true, work.created);
      StoringInherits(r, work, held);
      InheritsOn(t.status, r.api.cluster.value.status, StoreStatus(r, true, work).api.cluster.value.status, held);
    } else {
      RemovingInherits(c, held);
    }
  }

  lemma {:induction false} RetiringSucceeds(c: Call, held: set<Holding>)
    requires Succeeded(c.api, held) && Sound(c.api) && c.api.namespaced.Some?
    ensures Succeeded(FinishPromotion(c, false).api, held)
  {
    var d := FinishPromotion(c, false);
    assert c.api.log + [] == c.api.log;
    if d.api.log == c.api.log {
      NamespacedOnly(c.api, d.api, held);
    } else {
      var log := c.api.log;
      var e := Retired(c.api.namespaced.value.status, c.api.cluster);
      assert d.api.log == log + [e] && d.api.cluster == c.api.cluster && d.api.log[|log|] == e;
      HeirPrefix(log, e, |log|, c.api.cluster.value, held);
      forall i | 0 <= i < |d.api.log| && d.api.log[i].Retired? && d.api.log[i].survivor.Some?
        ensures Heir(d.api.log, i, d.api.log[i].survivor.value, held)
      {
        if i < |log| {
          assert log[i] == d.api.log[i];
          HeirPrefix(log, e, i, log[i].survivor.value, held);
        }
      }
    }
  }

  lemma {:induction false} StepSucceeds(a: Api, op: Op, held: set<Holding>)
    requires Succeeded(a, held) && Sound(a) && ListsCarry(a, op, held)
    ensures Succeeded(Step(a, op), held)
  {
    match op
    case Ensure(cluster, writes) => EnsureSucceeds(Call(a, writes, true), cluster, held);
    case Reconcile(cluster, work, writes) =>
      var c := Call(a, writes, true);
      if Tracker(a, cluster).Some? {
        if IsFenced(Tracker(a, cluster).value.status) {
          RetiringSucceeds(c, held);
        } else {
          PassOwn(c, cluster, work);
          if cluster { PassInherits(c, work, held); }
          SucceededOn(a, Step(a, op), held);
        }
      }
    case Delete(cluster) =>
      if a.cluster.Some? { InheritsSelf(a.cluster.value.status, held); }
      SucceededOn(a, Step(a, op), held);
  }

  /**
   * Over every run: a tracker is retired only beside a cluster tracker, and if that is one its state was
   * copied into, it still holds the creator, the mark of the operator's creation and the base's hash from
   * the copy, and every path on record there, prior included, that the lists of its passes carry.
   */
  lemma {:induction false} RetirementKeepsState(a: Api, ops: seq<Op>, held: set<Holding>)
    requires Sound(a) && Succeeded(a, held) && AllCarry(a, ops, held)
    ensures Sound(Run(a, ops)) && Succeeded(Run(a, ops), held)
    decreases |ops|
  {
    if ops != [] {
      StepKeepsSound(a, ops[0]);
      StepSucceeds(a, ops[0], held);
      RetirementKeepsState(Step(a, ops[0]), ops[1..], held);
    }
  }

  // ---- Which paths stay on record ----

  /** What the copy has to find in the successor to take this path over from s: no other capture, no other paths. */
  predicate Receives(had: seq<Record>, s: Record, text: string)
  {
    match Entry(had, s.ref.uid)
    case None => true
    case Some(d) =>
      && (d.ownedPaths == [] || text in d.ownedPaths)
      && (d.captured || s.priors.None? ==> PriorOf(d, text) == PriorOf(s, text))
  }

  /** A copy takes a path over if and only if the successor had no record in its way. */
  lemma {:induction false} TakenOverExactly(had: seq<Record>, src: seq<Record>, j: nat, text: string)
    requires Identified(had) && Identified(src) && j < |src| && Kept(src, Holding(src[j].ref.uid, text)).Some?
    ensures Carries(src, AdoptRecords(had, src), Holding(src[j].ref.uid, text)) <==> Receives(had, src[j], text)
  {
    var s, all := src[j], AdoptRecords(had, src);
    var i := Find(all, s.ref);
    PredecessorIsRemembered(had, src, j);
    AdoptKeepsAll(had, src);
    FindByUid(all, s.ref);
    EntryIsFound(all, i);
    EntryIsFound(src, j);
    if i < |had| {
      EntryIsFound(had, i);
    } else {
      EntryIsKnown(had, s.ref.uid);
    }
  }

  /** The list a pass of the cluster tracker stores, if it lives to store one. */
  function Stores(a: Api, op: Op): Option<seq<Record>>
  {
    if !op.Reconcile? || !op.cluster || a.cluster.None? then None else
    var t, c := a.cluster.value, Call(a, op.writes, true);
    if IsFenced(t.status) || t.deleting || !t.finalizer || !op.work.listed then None
    else if !StoreStatus(RecordCreator(WriteTarget(c, op.work.target), true, op.work.created), true, op.work).alive then None
    else op.work.records
  }

  /** The last list stored in a run. */
  function LastStored(a: Api, ops: seq<Op>): Option<seq<Record>>
    decreases |ops|
  {
    if ops == [] then None else
    var later := LastStored(Step(a, ops[0]), ops[1..]);
    if later.Some? then later else Stores(a, ops[0])
  }

  /** The cluster tracker of this UID is there. */
  predicate Stands(a: Api, id: nat)
  {
    a.cluster.Some? && a.cluster.value.id == id
  }

  /** Nothing is left to be copied: the namespaced tracker is gone or flagged adopted. */
  predicate AllCopied(a: Api)
  {
    a.namespaced.Some? ==> IsFenced(a.namespaced.value.status) && a.namespaced.value.status.promotedTo.value.adopted
  }

  lemma {:induction false} PassStores(a: Api, work: Work, writes: nat)
    requires Sound(a) && a.cluster.Some?
    ensures var op := Reconcile(true, work, writes);
      var b, list := Step(a, op), Stores(a, op);
      b.cluster.Some? ==> b.cluster.value.status.contributors == if list.Some? then list.value else a.cluster.value.status.contributors
  {
    var c := Call(a, writes, true);
    var w := WriteTarget(c, work.target);
    assert w.api.cluster == a.cluster;
    var r := RecordCreator(w, true, work.created);
    assert r.api.cluster.Some? && r.api.cluster.value.status.contributors == a.cluster.value.status.contributors;
  }

  /** Once all is copied, a step changes the standing tracker's list only by storing one, and copies nothing. */
  lemma {:induction false} ListFollowsStep(a: Api, op: Op, id: nat)
    requires Sound(a) && AllCopied(a) && Stands(a, id) && Stands(Step(a, op), id)
    ensures AllCopied(Step(a, op))
    ensures var list := Stores(a, op);
      Step(a, op).cluster.value.status.contributors == if list.Some? then list.value else a.cluster.value.status.contributors
  {
    if op.Reconcile? && op.cluster {
      PassStores(a, op.work, op.writes);
      PassOwn(Call(a, op.writes, true), true, op.work);
    }
  }

  /** A tracker that is gone does not come back: another one has another UID. */
  lemma {:induction false} GoneForGood(a: Api, ops: seq<Op>, id: nat)
    requires Sound(a) && id < a.issued && !Stands(a, id)
    ensures !Stands(Run(a, ops), id)
    decreases |ops|
  {
    if ops != [] {
      StepKeepsSound(a, ops[0]);
      StaysGone(a, ops[0], id);
      GoneForGood(Step(a, ops[0]), ops[1..], id);
    }
  }

  lemma {:induction false} StaysGone(a: Api, op: Op, id: nat)
    requires Sound(a) && id < a.issued && !Stands(a, id)
    ensures !Stands(Step(a, op), id) && id < Step(a, op).issued
  {
    if op.Reconcile? && Tracker(a, op.cluster).Some? && !IsFenced(Tracker(a, op.cluster).value.status) {
      PassOwn(Call(a, op.writes, true), op.cluster, op.work);
    }
  }

  lemma {:induction false} ListFollows(a: Api, ops: seq<Op>, id: nat)
    requires Sound(a) && AllCopied(a) && Stands(a, id) && Stands(Run(a, ops), id)
    ensures var list := LastStored(a, ops);
      Run(a, ops).cluster.value.status.contributors == if list.Some? then list.value else a.cluster.value.status.contributors
    decreases |ops|
  {
    if ops != [] {
      var b := Step(a, ops[0]);
      StepKeepsSound(a, ops[0]);
      if !Stands(b, id) {
        IdsGrow(a, ops[0]);
        GoneForGood(b, ops[1..], id);
      } else {
        ListFollowsStep(a, ops[0], id);
        ListFollows(b, ops[1..], id);
      }
    }
  }

  lemma {:induction false} IdsGrow(a: Api, op: Op)
    requires Sound(a)
    ensures a.issued <= Step(a, op).issued
  {
    if op.Reconcile? && Tracker(a, op.cluster).Some? && !IsFenced(Tracker(a, op.cluster).value.status) {
      PassOwn(Call(a, op.writes, true), op.cluster, op.work);
    }
  }

  /** The call that flags the adoption. */
  predicate Flags(a: Api, op: Op)
  {
    a.namespaced.Some? && Step(a, op).namespaced.Some? && !AllCopied(a) && AllCopied(Step(a, op))
  }

  function ListOf(t: Option<Stored>): seq<Record>
  {
    if t.Some? then t.value.status.contributors else []
  }

  /** It has copied the namespaced tracker's list into the cluster tracker's. */
  lemma {:induction false} FlaggingCopies(a: Api, op: Op)
    requires Sound(a) && Flags(a, op)
    ensures var b := Step(a, op);
      b.cluster.Some? && b.cluster.value.status.contributors == AdoptRecords(ListOf(a.cluster), ListOf(a.namespaced))
  {
    if op.Reconcile? && !IsFenced(Tracker(a, op.cluster).value.status) { PassOwn(Call(a, op.writes, true), op.cluster, op.work); }
  }

  /**
   * From the call that flags the adoption on, as long as the tracker copied into stands, and so also when the
   * namespaced one is retired: a path on record there is on record here, prior included, if and only if the
   * last list stored since has it so; if none was stored, if and only if the copy found no record in its way.
   */
  lemma {:induction false} SurvivorHoldsExactly(a: Api, op: Op, ops: seq<Op>, j: nat, text: string)
    requires Sound(a) && Flags(a, op) && Identified(ListOf(a.cluster)) && Identified(ListOf(a.namespaced))
    requires Step(a, op).cluster.Some? ==> Stands(Run(Step(a, op), ops), Step(a, op).cluster.value.id)
    requires j < |ListOf(a.namespaced)| && Kept(ListOf(a.namespaced), Holding(ListOf(a.namespaced)[j].ref.uid, text)).Some?
    ensures var was := ListOf(a.namespaced);
      var h, list := Holding(was[j].ref.uid, text), LastStored(Step(a, op), ops);
      Carries(was, ListOf(Run(Step(a, op), ops).cluster), h) <==>
        if list.Some? then Carries(was, list.value, h) else Receives(ListOf(a.cluster), was[j], text)
  {
    var b := Step(a, op);
    StepKeepsSound(a, op);
    FlaggingCopies(a, op);
    ListFollows(b, ops, b.cluster.value.id);
    TakenOverExactly(ListOf(a.cluster), ListOf(a.namespaced), j, text);
  }

  // ---- When the state is lost ----

  predicate CopiedTo(log: seq<Event>, i: nat, id: nat)
    requires i <= |log|
  {
    exists j :: 0 <= j < i && log[j].Copied? && log[j].to == id
  }

  predicate NoneOr(creator: Option<ContributorRef>, r: ContributorRef)
  {
    creator.None? || creator == Some(r)
  }

  /** Only r is ever named, and a cluster tracker nothing was copied into names nobody. */
  predicate NamesOnly(a: Api, r: ContributorRef)
  {
    && a.target.Some?
    && (a.namespaced.Some? ==> NoneOr(a.namespaced.value.status.creator, r))
    && (a.cluster.Some? ==> TrackerNames(a.log, |a.log|, a.cluster.value, r))
    && forall i | 0 <= i < |a.log| :: EventNames(a.log, i, a.log[i], r)
  }

  predicate TrackerNames(log: seq<Event>, i: nat, t: Stored, r: ContributorRef)
    requires i <= |log|
  {
    NoneOr(t.status.creator, r) && (!CopiedTo(log, i, t.id) ==> t.status.creator.None?)
  }

  predicate EventNames(log: seq<Event>, i: nat, e: Event, r: ContributorRef)
    requires i <= |log|
  {
    match e
    case Copied(_, before, from) => NoneOr(before.creator, r) && NoneOr(from.creator, r)
    case Retired(last, survivor) => NoneOr(last.creator, r) && (survivor.Some? ==> TrackerNames(log, i, survivor.value, r))
  }

  /** A call that leaves the target in place and, finding it there, reports no creation. */
  predicate LeavesTarget(a: Api, op: Op)
  {
    && (op.Reconcile? ==> op.work.created.None?)
    && Step(a, op).target.Some?
  }

  predicate AllLeaveTarget(a: Api, ops: seq<Op>)
    decreases |ops|
  {
    ops == [] || (LeavesTarget(a, ops[0]) && AllLeaveTarget(Step(a, ops[0]), ops[1..]))
  }

  lemma {:induction false} CopiedToMore(log: seq<Event>, e: Event, id: nat)
    ensures CopiedTo(log + [e], |log + [e]|, id) <==> CopiedTo(log, |log|, id) || (e.Copied? && e.to == id)
  {
    var log' := log + [e];
    assert log'[|log|] == e;
    if CopiedTo(log, |log|, id) {
      var j :| 0 <= j < |log| && log[j].Copied? && log[j].to == id;
      assert log'[j].Copied? && log'[j].to == id;
    }
    if CopiedTo(log', |log'|, id) {
      var j :| 0 <= j < |log'| && log'[j].Copied? && log'[j].to == id;
      if j < |log| { assert log[j] == log'[j]; }
    }
  }

  lemma {:induction false} CopiedToPrefix(log: seq<Event>, e: Event, i: nat, id: nat)
    requires i <= |log|
    ensures CopiedTo(log + [e], i, id) <==> CopiedTo(log, i, id)
  {
    assert forall j | 0 <= j < i :: (log + [e])[j] == log[j];
    if CopiedTo(log, i, id) {
      var j :| 0 <= j < i && log[j].Copied? && log[j].to == id;
      assert (log + [e])[j].Copied?;
    }
  }

  lemma {:induction false} EventsStillName(log: seq<Event>, e: Event, r: ContributorRef)
    requires forall i | 0 <= i < |log| :: EventNames(log, i, log[i], r)
    requires EventNames(log, |log|, e, r)
    ensures forall i | 0 <= i < |log + [e]| :: EventNames(log + [e], i, (log + [e])[i], r)
  {
    forall i | 0 <= i < |log + [e]| ensures EventNames(log + [e], i, (log + [e])[i], r) {
      var x := (log + [e])[i];
      if x.Retired? && x.survivor.Some? { CopiedToPrefix(log, e, i, x.survivor.value.id); }
      assert i < |log| ==> x == log[i];
    }
  }

  lemma {:induction false} CopyNames(c: Call, from: Status, r: ContributorRef)
    requires NamesOnly(c.api, r) && NoneOr(from.creator, r)
    ensures NamesOnly(Copy(c, from).api, r)
  {
    var d := Copy(c, from);
    if d.api.log != c.api.log {
      var t := c.api.cluster.value;
      var e := Copied(t.id, t.status, from);
      assert d.api.log == c.api.log + [e];
      EventsStillName(c.api.log, e, r);
      CopiedToMore(c.api.log, e, t.id);
    }
  }

  lemma {:induction false} PromoteNames(c: Call, r: ContributorRef)
    requires NamesOnly(c.api, r)
    ensures NamesOnly(Promote(c).api, r)
  {
    var f := Fence(c);
    assert NamesOnly(f.api, r);
    if f.alive && f.api.namespaced.Some? {
      var from := f.api.namespaced.value.status;
      assert NamesOnly(Create(f, true).api, r);
      CopyNames(Create(f, true), from, r);
    }
  }

  lemma {:induction false} RetiringNames(c: Call, r: ContributorRef)
    requires NamesOnly(c.api, r) && c.api.namespaced.Some? && Sound(c.api)
    ensures NamesOnly(FinishPromotion(c, false).api, r)
  {
    var d := FinishPromotion(c, false);
    assert c.api.log + [] == c.api.log;
    if d.api.log != c.api.log {
      var e := Retired(c.api.namespaced.value.status, c.api.cluster);
      assert d.api.log == c.api.log + [e];
      EventsStillName(c.api.log, e, r);
      CopiedToMore(c.api.log, e, c.api.cluster.value.id);
    }
  }

  /** A pass that records no creator leaves both trackers naming whom they named. */
  lemma {:induction false} PassNames(c: Call, cluster: bool, work: Work, r: ContributorRef)
    requires Tracker(c.api, cluster).Some? && !IsFenced(Tracker(c.api, cluster).value.status) && work.created.None?
    ensures var b := Pass(c, cluster, work).api;
      Tracker(b, cluster).Some? ==> Tracker(b, cluster).value.status.creator == Tracker(c.api, cluster).value.status.creator
  {
    var w := WriteTarget(c, work.target);
    assert RecordCreator(w, cluster, work.created) == w;
  }

  lemma {:induction false} StepNames(a: Api, op: Op, r: ContributorRef)
    requires NamesOnly(a, r) && Sound(a) && LeavesTarget(a, op)
    ensures NamesOnly(Step(a, op), r)
  {
    match op
    case Ensure(cluster, writes) =>
      var c := Call(a, writes, true);
      if cluster { PromoteNames(c, r); }
    case Reconcile(cluster, work, writes) =>
      var c := Call(a, writes, true);
      if Tracker(a, cluster).Some? {
        if IsFenced(Tracker(a, cluster).value.status) {
          RetiringNames(c, r);
        } else {
          PassOwn(c, cluster, work);
          PassNames(c, cluster, work, r);
        }
      }
    case Delete(cluster) =>
  }

  lemma {:induction false} RunNames(a: Api, ops: seq<Op>, r: ContributorRef)
    requires NamesOnly(a, r) && Sound(a) && AllLeaveTarget(a, ops)
    ensures NamesOnly(Run(a, ops), r)
    decreases |ops|
  {
    if ops != [] {
      StepNames(a, ops[0], r);
      StepKeepsSound(a, ops[0]);
      RunNames(Step(a, ops[0]), ops[1..], r);
    }
  }

  /**
   * While the target stays, the cluster tracker beside a retired one names the retired tracker's creator
   * if and only if it is a tracker that received the copy. If that one has gone in between, its blank
   * replacement names nobody.
   */
  lemma {:induction false} CreatorSurvivesExactly(a: Api, ops: seq<Op>, r: ContributorRef, i: nat)
    requires Sound(a) && Succeeded(a, {}) && NamesOnly(a, r) && AllLeaveTarget(a, ops)
    requires i < |Run(a, ops).log| && Run(a, ops).log[i].Retired? && Run(a, ops).log[i].last.creator == Some(r)
    ensures var log := Run(a, ops).log;
      && log[i].survivor.Some?
      && (log[i].survivor.value.status.creator == Some(r) <==> CopiedTo(log, i, log[i].survivor.value.id))
      && (!CopiedTo(log, i, log[i].survivor.value.id) ==> log[i].survivor.value.status.creator.None?)
  {
    NoListsCarry(a, ops);
    RetirementKeepsState(a, ops, {});
    RunNames(a, ops, r);
    var log := Run(a, ops).log;
    var t := log[i].survivor.value;
    assert RetiredRightly(log, i, log[i]) && EventNames(log, i, log[i], r) && Heir(log, i, t, {});
    if CopiedTo(log, i, t.id) {
      var j :| 0 <= j < i && log[j].Copied? && log[j].to == t.id;
      assert SameState(log[j].from, log[i].last) && EventNames(log, j, log[j], r);
      assert Inherits(Adopt(log[j].before, log[j].from), t.status, {});
    }
  }

  lemma {:induction false} NoListsCarry(a: Api, ops: seq<Op>)
    ensures AllCarry(a, ops, {})
    decreases |ops|
  {
    if ops != [] { NoListsCarry(Step(a, ops[0]), ops[1..]); }
  }

  /** A target with an unfenced namespaced tracker and nothing else. */
  function Start(s: Status, target: Option<Json>): Api
  {
    Api(Some(Stored(0, s, true, false)), None, target, [], 1)
  }

  /** The state after the first join, with or without a cluster tracker. */
  function Joined(s: Status, target: Option<Json>, cluster: Option<Stored>, issued: nat): Api
  {
    Api(Some(Stored(0, Adopted(Fenced(s)), true, false)), cluster, target, [Copied(1, BLANK, Fenced(s))], issued)
  }

  lemma {:induction false} JoinOnce(s: Status, target: Option<Json>)
    requires !IsFenced(s)
    ensures Step(Start(s, target), Ensure(true, 4)) ==
      Joined(s, target, Some(Stored(1, Adopt(BLANK, Fenced(s)), true, false)), 2)
  {
    var fenced := Fence(Call(Start(s, target), 4, true));
    var copied := CreateSuccessor(fenced, Fenced(s));
    assert [] + [Copied(1, BLANK, Fenced(s))] == [Copied(1, BLANK, Fenced(s))];
    assert copied.api.cluster == Some(Stored(1, Adopt(BLANK, Fenced(s)), true, false));
  }

  /** Once adoption is flagged, a vanished successor is replaced by a blank one, and the tracker retires beside it. */
  lemma {:induction false} JoinAgain(s: Status, target: Option<Json>, work: Work, retires: nat)
    requires retires >= 2
    ensures var b := Step(Joined(s, target, None, 2), Ensure(true, 4));
      && b == Joined(s, target, Some(Stored(2, BLANK, true, false)), 3)
      && Step(b, Reconcile(false, work, retires)).namespaced.None?
      && Step(b, Reconcile(false, work, retires)).cluster == b.cluster
      && Step(b, Reconcile(false, work, retires)).target == target
  {}

  /** The state is lost when somebody deletes the cluster tracker after the copy: the flag stops a second copy. */
  lemma {:induction false} DeletedSuccessorLosesState(s: Status, target: Option<Json>, work: Work, n: nat, retires: nat)
    requires !IsFenced(s) && work.target == target && n >= 1 && retires >= 2
    ensures var before := Run(Start(s, target), [Ensure(true, 4), Delete(true), Reconcile(true, work, n), Ensure(true, 4)]);
      var after := Step(before, Reconcile(false, work, retires));
      && before.namespaced.Some? && SameState(before.namespaced.value.status.(phase := s.phase), s)
      && after.namespaced.None? && after.cluster.Some? && after.cluster.value.status == BLANK && after.target == target
  {
    JoinOnce(s, target);
    var a1 := Step(Start(s, target), Ensure(true, 4));
    var a3 := Step(Step(a1, Delete(true)), Reconcile(true, work, n));
    assert a1.log + [] == a1.log;
    assert a3 == Joined(s, target, None, 2);
    JoinAgain(s, target, work, retires);
    RunUnrolled(Start(s, target), Ensure(true, 4), Delete(true), Reconcile(true, work, n), Ensure(true, 4));
  }

  lemma {:induction false} RunUnrolled(a: Api, p: Op, q: Op, r: Op, s: Op)
    ensures Run(a, [p, q, r, s]) == Step(Step(Step(Step(a, p), q), r), s)
    ensures Run(a, [p, q, r]) == Step(Step(Step(a, p), q), r)
  {
    assert [p, q, r, s][1..] == [q, r, s] && [q, r, s][1..] == [r, s] && [r, s][1..] == [s] && [s][1..] == [];
    assert [p, q, r][1..] == [q, r] && [q, r][1..] == [r] && [r][1..] == [];
    assert Run(Step(Step(Step(Step(a, p), q), r), s), []) == Step(Step(Step(Step(a, p), q), r), s);
    assert Run(Step(Step(Step(a, p), q), r), [s]) == Step(Step(Step(Step(a, p), q), r), s);
    assert Run(Step(Step(a, p), q), [r, s]) == Run(Step(Step(Step(a, p), q), r), [s]);
    assert Run(Step(Step(a, p), q), [r]) == Run(Step(Step(Step(a, p), q), r), []);
    assert Run(Step(a, p), [q, r]) == Run(Step(Step(a, p), q), [r]);
    assert Run(Step(a, p), [q, r, s]) == Run(Step(Step(a, p), q), [r, s]);
  }

  lemma {:induction false} EmptyListIsStored(a: Api, work: Work, n: nat)
    requires a.cluster.Some? && !IsFenced(a.cluster.value.status) && a.cluster.value.finalizer && !a.cluster.value.deleting
    requires n >= 1 && work.listed && work.target == a.target && work.created.None? && work.records == Some([])
    ensures var b := Step(a, Reconcile(true, work, n));
      && b.namespaced == a.namespaced && b.log == a.log && b.target == a.target && Stands(b, a.cluster.value.id)
      && b.cluster.value.status.contributors == [] && b.cluster.value.status.creator == a.cluster.value.status.creator
  {
    assert a.log + [] == a.log;
  }

  /**
   * The tracker copied into can itself forget all it was given before the other retires: one pass over a
   * contribution that does not render stores an empty list.
   */
  lemma {:induction false} UnrenderedPassLosesRecords(s: Status, target: Option<Json>, work: Work, other: Work, n: nat, retires: nat)
    requires !IsFenced(s) && n >= 1 && retires >= 2
    requires work.listed && work.target == target && work.created.None? && work.records == Some([])
    ensures var after := Run(Start(s, target), [Ensure(true, 4), Reconcile(true, work, n), Reconcile(false, other, retires)]);
      && after.namespaced.None? && after.target == target
      && after.cluster.Some? && CopiedTo(after.log, |after.log|, after.cluster.value.id)
      && after.cluster.value.status.creator == s.creator && after.cluster.value.status.contributors == []
  {
    var p, q, r := Ensure(true, 4), Reconcile(true, work, n), Reconcile(false, other, retires);
    JoinOnce(s, target);
    RunUnrolled(Start(s, target), p, q, r, r);
    var a1 := Step(Start(s, target), p);
    var a2 := Step(a1, q);
    EmptyListIsStored(a1, work, n);
    assert Step(a2, r).cluster == a2.cluster && a1.log <= Step(a2, r).log;
    assert Step(a2, r).log[0] == Copied(1, BLANK, Fenced(s));
  }

  /** And, with no deletion from outside, when a tracker copied from one without contributors lists nobody. */
  lemma {:induction false} EmptySuccessorLosesState(s: Status, target: Option<Json>, work: Work, retires: nat)
    requires !IsFenced(s) && s.contributors == [] && !work.listed && retires >= 2
    ensures var before := Run(Start(s, target), [Ensure(true, 4), Reconcile(true, work, 2), Ensure(true, 4)]);
      var after := Step(before, Reconcile(false, work, retires));
      && before.namespaced.Some? && SameState(before.namespaced.value.status.(phase := s.phase), s)
      && after.namespaced.None? && after.cluster.Some? && after.cluster.value.status == BLANK && after.target == target
  {
    JoinOnce(s, target);
    var a1 := Step(Start(s, target), Ensure(true, 4));
    assert a1.log + [] == a1.log;
    assert Step(a1, Reconcile(true, work, 2)) == Joined(s, target, None, 2);
    JoinAgain(s, target, work, retires);
    RunUnrolled(Start(s, target), Ensure(true, 4), Reconcile(true, work, 2), Ensure(true, 4), Ensure(true, 4));
  }
}
