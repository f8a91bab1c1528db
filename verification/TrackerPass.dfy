/** One pass of a tracker over everyone who contributes to its target. */
module TrackerPass {
  import opened Json
  import opened ClientSideApply
  import opened Trackers
  import opened Conflicts
  import Runs = ApplyRuns

  datatype OnRelease = Withdrawn | Orphaned | Deleted

  datatype ConflictPolicy = Fail | Priority | Force

  /** What goes wrong for one contributor in a pass, outside the tracker's own logic. */
  datatype Fault = Clean | NoIdentity | BadPriors | BadBase | Contention | Refused | Unsaved

  /** A live contributor. rendered is None when its patch does not render. */
  datatype Contributor = Contributor(
    ref: ContributorRef,
    generation: int,
    priority: int,
    creation: int,
    deleting: bool,
    manager: string,
    onRelease: OnRelease,
    policy: ConflictPolicy,
    allowCreate: bool,
    base: Option<map<string, Json>>,
    baseHash: string,
    hash: string,
    rendered: Option<Contribution>,
    fault: Fault)

  /** A live contributor with the tracker's record of it. */
  datatype Listed = Listed(obj: Contributor, status: Record)

  type Target = Option<map<string, Json>>

  datatype Verdict = Running | Completed | Unrendered | Requeued | Broken

  datatype PassState = PassState(
    target: Target,
    status: Status,
    records: seq<Record>,
    missing: bool,
    conflicted: bool,
    verdict: Verdict)

  function Fields(doc: Json): map<string, Json>
  {
    if doc.Obj? then doc.fields else map[]
  }

  function Known(r: Record): Priors
  {
    if r.priors.Some? then r.priors.value else map[]
  }

  /** What the applier needs of a record. */
  function Book(r: Record): Runs.Record
  {
    Runs.Record(r.ownedPaths, Known(r), r.captured)
  }

  /** No priors are stored as none at all. */
  function Encoded(priors: Priors): Option<Priors>
  {
    if priors == map[] then None else Some(priors)
  }

  function Leaving(list: seq<Listed>): seq<Listed>
  {
    if list == [] then [] else (if list[0].obj.deleting then [list[0]] else []) + Leaving(list[1..])
  }

  function Active(list: seq<Listed>): seq<Listed>
  {
    if list == [] then [] else (if list[0].obj.deleting then [] else [list[0]]) + Active(list[1..])
  }

  // ---- Releasing ----

  /** The release of this contributor goes through. */
  predicate Releases(c: Listed)
  {
    c.obj.onRelease.Orphaned? ||
    (Runs.ParsePaths(c.status.ownedPaths).Ok? && (c.obj.fault.Clean? || c.obj.fault.BadBase? || c.obj.fault.Unsaved?))
  }

  function Released(target: Target, c: Listed): Target
    requires Releases(c)
  {
    if c.obj.onRelease.Orphaned? || target.None? then target
    else Some(Fields(RevertAll(Obj(target.value), Runs.ParsePaths(c.status.ownedPaths).value, Known(c.status))))
  }

  /** Withdraws one contributor after the other until one cannot be. */
  function ReleaseAll(target: Target, cs: seq<Listed>): (Target, bool)
    decreases |cs|
  {
    if cs == [] then (target, true)
    else if !Releases(cs[0]) then (target, false)
    else ReleaseAll(Released(target, cs[0]), cs[1..])
  }

  /** The operator made the target, and the contributor that had it made is leaving and asks to delete it. */
  predicate WantsDelete(status: Status, leaving: seq<Listed>)
  {
    && status.createdByOperator
    && status.creator.Some?
    && exists i :: 0 <= i < |leaving| && leaving[i].obj.onRelease.Deleted? &&
         SameContributor(leaving[i].status.ref, status.creator.value)
  }

  // ---- Applying ----

  function Refs(list: seq<Listed>): seq<Record>
  {
    seq(|list|, i requires 0 <= i < |list| => list[i].status)
  }

  /** Contributor i yields: on a contested path of its own someone has a higher priority. */
  predicate Yields(active: seq<Listed>, claims: map<string, seq<nat>>, i: nat)
    requires i < |active|
  {
    var me := Find(Refs(active), active[i].status.ref);
    && active[i].obj.policy.Priority?
    && me >= 0
    && exists text | text in claims :: me in claims[text] && Outranked(active, claims[text], me, active[i].status.priority)
  }

  predicate Outranked(active: seq<Listed>, claimants: seq<nat>, me: int, priority: int)
  {
    exists j | j in claimants :: j != me && j < |active| && active[j].status.priority > priority
  }

  function Noted(s: PassState, r: Record): PassState
  {
    s.(records := s.records + [r])
  }

  function AppliedRecord(r: Record, c: Contributor, contribution: Contribution, priors: Priors): Record
  {
    r.(state := "Applied", lastAppliedHash := c.hash, ownedPaths := Texts(contribution.paths),
       priors := Encoded(priors), captured := true)
  }

  function GiveUp(s: PassState): PassState
  {
    s.(status := WriteStatus(s.status, s.status, None), verdict := Broken)
  }

  /** After an apply went through: the creator is put on record at once, then the contributor's own record. */
  function Settled(s: PassState, c: Listed, contribution: Contribution, created: bool, priors: Priors): PassState
  {
    var r := AppliedRecord(c.status, c.obj, contribution, priors);
    if !created || s.status.creator.Some? then Noted(s, r)
    else if c.obj.fault.Unsaved? then s.(verdict := Broken)
    else
      var hash := if c.obj.base.Some? then c.obj.baseHash else "";
      Noted(s.(status := RecordProvenance(s.status, c.status.ref, hash)), r)
  }

  function ApplyTo(s: PassState, c: Listed, contribution: Contribution): PassState
    requires contribution.obj.Obj?
  {
    if s.target.None? && !c.obj.allowCreate then Noted(s.(missing := true), c.status.(state := ""))
    else if c.obj.fault.Contention? then s.(verdict := Requeued)
    else if c.obj.fault.Refused? then GiveUp(s)
    else if s.target.None? then
      match Seeded(contribution, c.obj.base)
      case None => GiveUp(s)
      case Some(content) => Settled(s.(target := Some(content)), c, contribution, true, map[])
    else
      match Update(Obj(s.target.value), contribution, Runs.Previous(Book(c.status)), Known(c.status), c.status.captured)
      case None => GiveUp(s)
      case Some(w) => Settled(s.(target := Some(Fields(w.doc))), c, contribution, false, w.priors)
  }

  /** One contributor's turn. */
  function Turn(s: PassState, c: Listed, contribution: Contribution, loses: bool): PassState
    requires contribution.obj.Obj?
  {
    if c.obj.fault.NoIdentity? then Noted(s, c.status.(state := "Conflicted"))
    else if loses then Noted(s.(conflicted := true), c.status.(state := "Superseded"))
    else if c.obj.fault.BadPriors? then s.(verdict := Broken)
    else if c.obj.fault.BadBase? then Noted(s, c.status.(state := "Conflicted"))
    else ApplyTo(s, c, contribution)
  }

  predicate AllRender(active: seq<Listed>)
  {
    forall i | 0 <= i < |active| :: active[i].obj.rendered.Some? && active[i].obj.rendered.value.obj.Obj?
  }

  function Rendered(active: seq<Listed>): seq<Contribution>
    requires AllRender(active)
  {
    seq(|active|, i requires 0 <= i < |active| => active[i].obj.rendered.value)
  }

  /** The turns from number i on, until one ends the pass. */
  function Turns(s: PassState, active: seq<Listed>, claims: map<string, seq<nat>>, i: nat): PassState
    requires AllRender(active) && i <= |active|
    decreases |active| - i
  {
    if i == |active| || !s.verdict.Running? then s
    else Turns(Turn(s, active[i], active[i].obj.rendered.value, Yields(active, claims, i)), active, claims, i + 1)
  }

  function Finish(s: PassState, saves: bool): PassState
  {
    if !s.verdict.Running? then s
    else if !saves then s.(verdict := Broken)
    else
      var phase := if s.missing then Waiting else if s.conflicted then Phase.Conflicted else Phase.Applied;
      s.(status := WriteStatus(s.status, s.status.(phase := phase), Some(s.records)), verdict := Completed)
  }

  function Start(target: Target, status: Status): PassState
  {
    PassState(target, status, [], false, false, Running)
  }

  /** The pass up to the first apply: releases, then the target's deletion if it is due. */
  function Departures(target: Target, status: Status, list: seq<Listed>): PassState
  {
    var leaving := Leaving(list);
    var (left, ok) := ReleaseAll(target, leaving);
    var s := Start(left, status);
    if !ok then s.(verdict := Broken)
    else if Active(list) == [] && leaving != [] && WantsDelete(status, leaving) then s.(target := None)
    else s
  }

  /** A contribution that does not render ends the pass with an empty contributor list. */
  function Unrender(s: PassState, saves: bool): PassState
  {
    if !saves then s.(verdict := Broken)
    else s.(status := WriteStatus(s.status, s.status.(phase := Waiting), Some([])), verdict := Unrendered)
  }

  /** reconcileContributions as a whole. */
  function Pass(target: Target, status: Status, list: seq<Listed>, saves: bool): PassState
  {
    var active, s := Active(list), Departures(target, status, list);
    if !s.verdict.Running? then s
    else if !AllRender(active) then Unrender(s, saves)
    else Finish(Turns(s, active, ContestedPaths(Rendered(active)), 0), saves)
  }
}
