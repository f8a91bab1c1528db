/**
 * Replacing a namespaced tracker by a cluster tracker, as the API server sees it: one target, at most
 * one tracker of each kind, and reconcile calls that run one at a time but may die after any write.
 */
module Promotion {
  import opened Json
  import opened Trackers
  import opened Adoption

  const NAME := "tracker"

  /** An object in the API server. id is its UID: no two objects ever share one. */
  datatype Stored = Stored(id: nat, status: Status, finalizer: bool, deleting: bool)

  /** What an observer of the writes notes down; the program does not read it. */
  datatype Event = Copied(to: nat, before: Status, from: Status) | Retired(last: Status, survivor: Option<Stored>)

  /** issued counts the UIDs given out. */
  datatype Api = Api(
    namespaced: Option<Stored>,
    cluster: Option<Stored>,
    target: Option<Json>,
    log: seq<Event>,
    issued: nat)

  /** A call in progress: the stored state, the writes left before the process dies, and whether it lives. */
  datatype Call = Call(api: Api, left: nat, alive: bool)

  /** One API write: it happens, unless the process dies first. */
  function Write(c: Call, api: Api): Call
  {
    if !c.alive then c
    else if c.left == 0 then c.(alive := false)
    else Call(api, c.left - 1, true)
  }

  function Tracker(a: Api, cluster: bool): Option<Stored>
  {
    if cluster then a.cluster else a.namespaced
  }

  function With(a: Api, cluster: bool, t: Option<Stored>): Api
  {
    if cluster then a.(cluster := t) else a.(namespaced := t)
  }

  /** An update dropping the finalizer lets an object being deleted go. */
  function Unpinned(t: Stored): Option<Stored>
  {
    if t.deleting then None else Some(t.(finalizer := false))
  }

  /** A delete only marks an object a finalizer still holds. */
  function Deleted(t: Stored): Option<Stored>
  {
    if t.finalizer then Some(t.(deleting := true)) else None
  }

  // ---- ensureTracker ----

  function Fenced(s: Status): Status
  {
    s.(promotedTo := Some(Promotion(NAME, false)), phase := Promoting)
  }

  function Fence(c: Call): Call
  {
    if !c.alive || c.api.namespaced.None? || IsFenced(c.api.namespaced.value.status) then c
    else Write(c, c.api.(namespaced := Some(c.api.namespaced.value.(status := Fenced(c.api.namespaced.value.status)))))
  }

  function Create(c: Call, cluster: bool): Call
  {
    if !c.alive || Tracker(c.api, cluster).Some? then c
    else Write(c, With(c.api, cluster, Some(Stored(c.api.issued, BLANK, true, false))).(issued := c.api.issued + 1))
  }

  function Copy(c: Call, from: Status): Call
  {
    if !c.alive || c.api.cluster.None? then c.(alive := false)
    else
      var t := c.api.cluster.value;
      Write(c, c.api.(cluster := Some(t.(status := Adopt(t.status, from))),
                      log := c.api.log + [Copied(t.id, t.status, from)]))
  }

  /** Creates the successor if it is missing and copies the given status into it. */
  function CreateSuccessor(c: Call, from: Status): Call
  {
    if !c.alive || (IsFenced(from) && from.promotedTo.value.adopted) then c
    else Copy(Create(c, true), from)
  }

  function Adopted(s: Status): Status
    requires IsFenced(s)
  {
    s.(promotedTo := Some(s.promotedTo.value.(adopted := true)))
  }

  function MarkAdopted(c: Call): Call
  {
    if !c.alive || c.api.namespaced.None? then c else
    var t := c.api.namespaced.value;
    if !IsFenced(t.status) || t.status.promotedTo.value.adopted then c
    else Write(c, c.api.(namespaced := Some(t.(status := Adopted(t.status)))))
  }

  function Promote(c: Call): Call
  {
    var fenced := Fence(c);
    if !fenced.alive || fenced.api.namespaced.None? then fenced
    else MarkAdopted(CreateSuccessor(fenced, fenced.api.namespaced.value.status))
  }

  /** A contributor, cluster-scoped or not, makes sure its target has a tracker. */
  function EnsureTracker(c: Call, cluster: bool): Call
  {
    if cluster then Create(Promote(c), true)
    else if c.api.cluster.Some? then c
    else Create(c, false)
  }

  // ---- a tracker's pass ----

  /** What the pass finds and computes; the target it leaves is its business. */
  datatype Work = Work(
    listed: bool,
    target: Option<Json>,
    created: Option<ContributorRef>,
    phase: Phase,
    targetUID: string,
    resourceVersion: string,
    records: Option<seq<Record>>)

  function Put(c: Call, cluster: bool, t: Option<Stored>, events: seq<Event>): Call
  {
    if !c.alive then c else Write(c, With(c.api, cluster, t).(log := c.api.log + events))
  }

  function PutStatus(c: Call, cluster: bool, t: Stored, s: Status): Call
  {
    Put(c, cluster, Some(t.(status := s)), [])
  }

  /** The event of a fenced tracker gone for good, if the write makes it so, with the tracker that stays. */
  function Gone(a: Api, t: Stored, next: Option<Stored>): seq<Event>
  {
    if IsFenced(t.status) && next.None? then [Retired(t.status, a.cluster)] else []
  }

  function Unpin(c: Call, cluster: bool): Call
  {
    if !c.alive || Tracker(c.api, cluster).None? || !Tracker(c.api, cluster).value.finalizer then c
    else
      var t := Tracker(c.api, cluster).value;
      Put(c, cluster, Unpinned(t), Gone(c.api, t, Unpinned(t)))
  }

  function Remove(c: Call, cluster: bool): Call
  {
    if !c.alive || Tracker(c.api, cluster).None? then c
    else
      var t := Tracker(c.api, cluster).value;
      Put(c, cluster, Deleted(t), Gone(c.api, t, Deleted(t)))
  }

  function FinishPromotion(c: Call, cluster: bool): Call
    requires Tracker(c.api, cluster).Some?
  {
    var t := Tracker(c.api, cluster).value;
    if !IsFenced(t.status) then c
    else if c.api.cluster.None? then PutStatus(c, cluster, t, t.status.(promotedTo := None, phase := Applied))
    else if !t.status.promotedTo.value.adopted then c
    else Remove(Unpin(c, cluster), cluster)
  }

  function WriteTarget(c: Call, target: Option<Json>): Call
  {
    if !c.alive || target == c.api.target then c else Write(c, c.api.(target := target))
  }

  function RecordCreator(c: Call, cluster: bool, created: Option<ContributorRef>): Call
  {
    if !c.alive || Tracker(c.api, cluster).None? then c else
    var t := Tracker(c.api, cluster).value;
    if created.None? || t.status.creator.Some? then c
    else PutStatus(c, cluster, t, RecordProvenance(t.status, created.value, ""))
  }

  function StoreStatus(c: Call, cluster: bool, work: Work): Call
  {
    if !c.alive || Tracker(c.api, cluster).None? then c else
    var t := Tracker(c.api, cluster).value;
    var computed := t.status.(phase := work.phase, targetUID := work.targetUID, resourceVersion := work.resourceVersion);
    PutStatus(c, cluster, t, WriteStatus(t.status, computed, work.records))
  }

  function Pass(c: Call, cluster: bool, work: Work): Call
  {
    if Tracker(c.api, cluster).None? then c else
    var t := Tracker(c.api, cluster).value;
    if IsFenced(t.status) then FinishPromotion(c, cluster)
    else if t.deleting then Unpin(WriteTarget(c, work.target), cluster)
    else if !t.finalizer then Put(c, cluster, Some(t.(finalizer := true)), [])
    else if work.listed then StoreStatus(RecordCreator(WriteTarget(c, work.target), cluster, work.created), cluster, work)
    else if t.status.contributors == [] && !t.status.phase.Releasing? then Remove(Unpin(c, cluster), cluster)
    else PutStatus(c, cluster, t, WriteStatus(t.status, t.status.(phase := Releasing), None))
  }

  // ---- Runs ----

  /** A call and the number of writes it may make before it dies. */
  datatype Op =
    | Ensure(cluster: bool, writes: nat)
    | Reconcile(cluster: bool, work: Work, writes: nat)
    | Delete(cluster: bool)

  function Step(a: Api, op: Op): Api
  {
    match op
    case Ensure(cluster, writes) => EnsureTracker(Call(a, writes, true), cluster).api
    case Reconcile(cluster, work, writes) => Pass(Call(a, writes, true), cluster, work).api
    case Delete(cluster) =>
      if Tracker(a, cluster).None? then a else With(a, cluster, Deleted(Tracker(a, cluster).value))
  }

  function Run(a: Api, ops: seq<Op>): Api
    decreases |ops|
  {
    if ops == [] then a else Run(Step(a, ops[0]), ops[1..])
  }
}
