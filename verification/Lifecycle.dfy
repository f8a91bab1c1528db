/**
 * Contributors come, change, go and come again around one target and its tracker. Each call runs
 * alone; the log notes what an observer sees and the program does not read it.
 */
module Lifecycle {
  import opened Json
  import opened ClientSideApply
  import opened Trackers
  import opened Conflicts
  import opened TrackerPass
  import Runs = ApplyRuns
  import opened Listing
  import opened PassRuns

  /** A contributor in the API server: its object, its finalizer, and whether its status names the tracker. */
  datatype Life = Life(obj: Contributor, finalizer: bool, registered: bool)

  datatype Event =
    | TrackerMade
    | Reported(uid: string)
    | Wrote(uid: string)
    | Withdrew(uid: string)
    | Disowned(uid: string)
    | TargetDeleted(list: seq<Listed>)
    | Gone(uid: string)

  datatype World = World(lives: map<string, Life>, used: set<string>, tracker: Option<Status>, target: Target, log: seq<Event>)

  datatype Op =
    | Arrive(c: Contributor)
    | Edit(c: Contributor)
    | Join(uid: string, saves: bool)
    | Leave(uid: string)
    | Drop(uid: string)
    | Reconcile(list: seq<Listed>, saves: bool)
    | Foreign(target: Target)

  // ---- What a pass shows ----

  /** The contributor's write to the target goes through. */
  predicate Touches(s: PassState, c: Listed, contribution: Contribution, loses: bool)
    requires contribution.obj.Obj?
  {
    && s.verdict.Running? && !loses && (c.obj.fault.Clean? || c.obj.fault.Unsaved?)
    && if s.target.None? then c.obj.allowCreate && Seeded(contribution, c.obj.base).Some?
       else Update(Obj(s.target.value), contribution, Runs.Previous(Book(c.status)), Known(c.status), c.status.captured).Some?
  }

  /** A turn's events: it wrote, and its write made the target and lost no status. */
  function OwnEvents(s: PassState, c: Listed, contribution: Contribution, loses: bool): seq<Event>
    requires contribution.obj.Obj?
  {
    var uid := c.status.ref.uid;
    if !Touches(s, c, contribution, loses) then []
    else if s.target.None? && Turn(s, c, contribution, loses).verdict.Running? then [Wrote(uid), Reported(uid)]
    else [Wrote(uid)]
  }

  function TurnEvents(s: PassState, active: seq<Listed>, claims: map<string, seq<nat>>, i: nat): seq<Event>
    requires AllRender(active) && i <= |active|
    decreases |active| - i
  {
    if i == |active| || !s.verdict.Running? then [] else
    var c, contribution, loses := active[i], active[i].obj.rendered.value, Yields(active, claims, i);
    OwnEvents(s, c, contribution, loses) + TurnEvents(Turn(s, c, contribution, loses), active, claims, i + 1)
  }

  /** A release gives the fields back, or, under policy Orphan, leaves them to the target. */
  function Parting(c: Listed): Event
  {
    if c.obj.onRelease.Orphaned? then Disowned(c.status.ref.uid) else Withdrew(c.status.ref.uid)
  }

  function WithdrawEvents(leaving: seq<Listed>): seq<Event>
  {
    if leaving == [] || !Releases(leaving[0]) then []
    else [Parting(leaving[0])] + WithdrawEvents(leaving[1..])
  }

  lemma {:induction false} WithdrawalsAreQuiet(leaving: seq<Listed>)
    ensures forall e | e in WithdrawEvents(leaving) :: e.Withdrew? || e.Disowned?
  {
    if leaving != [] { WithdrawalsAreQuiet(leaving[1..]); }
  }

  /** The pass calls for the target's deletion. */
  predicate Deletes(target: Target, status: Status, list: seq<Listed>)
  {
    ReleaseAll(target, Leaving(list)).1 && Active(list) == [] && Leaving(list) != [] && WantsDelete(status, Leaving(list))
  }

  function DepartureEvents(target: Target, status: Status, list: seq<Listed>): seq<Event>
  {
    WithdrawEvents(Leaving(list)) + if Deletes(target, status, list) then [TargetDeleted(list)] else []
  }

  function ApplyEvents(target: Target, status: Status, list: seq<Listed>): seq<Event>
  {
    var active, s := Active(list), Departures(target, status, list);
    if s.verdict.Running? && AllRender(active) then TurnEvents(s, active, ContestedPaths(Rendered(active)), 0) else []
  }

  function PassEvents(target: Target, status: Status, list: seq<Listed>): seq<Event>
  {
    DepartureEvents(target, status, list) + ApplyEvents(target, status, list)
  }

  // ---- Steps ----

  /** The contributor's object goes once it is being deleted and nothing holds it. */
  function Vanish(w: World, uid: string): World
  {
    w.(lives := w.lives - {uid}, log := w.log + [Gone(uid)])
  }

  /** Adds the finalizer first; with it in place, ensures the tracker and then records it in the status. */
  function JoinStep(w: World, uid: string, saves: bool): World
    requires uid in w.lives
  {
    var life := w.lives[uid];
    if life.obj.deleting then w
    else if !life.finalizer then w.(lives := w.lives[uid := life.(finalizer := true)])
    else
      var made := if w.tracker.Some? then w else w.(tracker := Some(BLANK), log := w.log + [TrackerMade]);
      if saves then made.(lives := made.lives[uid := life.(registered := true)]) else made
  }

  /** Lets go only when no tracker the contributor's status names still lists it. */
  function DropStep(w: World, uid: string): World
    requires uid in w.lives
  {
    var life := w.lives[uid];
    if !life.obj.deleting || !life.finalizer then w
    else if life.registered && w.tracker.Some? && Find(w.tracker.value.contributors, life.obj.ref) >= 0 then w
    else Vanish(w, uid)
  }

  function ReconcileStep(w: World, status: Status, list: seq<Listed>, saves: bool): World
  {
    if list == [] then
      if status.contributors == [] && !status.phase.Releasing? then w.(tracker := None)
      else w.(tracker := Some(WriteStatus(status, status.(phase := Releasing), None)))
    else
      var p := Pass(w.target, status, list, saves);
      w.(tracker := Some(p.status), target := p.target, log := w.log + PassEvents(w.target, status, list))
  }

  function Step(w: World, op: Op): World
  {
    match op
    case Arrive(c) => w.(lives := w.lives[c.ref.uid := Life(c, false, false)], used := w.used + {c.ref.uid})
    case Edit(c) =>
      if c.ref.uid in w.lives then w.(lives := w.lives[c.ref.uid := w.lives[c.ref.uid].(obj := c)]) else w
    case Join(uid, saves) => if uid in w.lives then JoinStep(w, uid, saves) else w
    case Leave(uid) =>
      if uid !in w.lives then w
      else if w.lives[uid].finalizer then
        w.(lives := w.lives[uid := w.lives[uid].(obj := w.lives[uid].obj.(deleting := true))])
      else Vanish(w, uid)
    case Drop(uid) => if uid in w.lives then DropStep(w, uid) else w
    case Reconcile(list, saves) => if w.tracker.None? then w else ReconcileStep(w, w.tracker.value, list, saves)
    case Foreign(target) => w.(target := target)
  }

  function Run(w: World, ops: seq<Op>): World
    decreases |ops|
  {
    if ops == [] then w else Run(Step(w, ops[0]), ops[1..])
  }

  /** The list of a pass: everyone alive, once, with its record. */
  ghost predicate Lists(w: World, status: Status, list: seq<Listed>)
  {
    && Distinguished(list)
    && (forall i | 0 <= i < |list| ::
          var c := list[i].obj;
          c.ref.uid in w.lives && w.lives[c.ref.uid].obj == c && list[i].status == RecordFor(c, status))
    && (forall uid | uid in w.lives :: exists i :: 0 <= i < |list| && list[i].obj.ref.uid == uid)
  }

  /** What the API server sees to: UIDs are never empty or reused, and an edit changes the spec only. */
  ghost predicate Legal(w: World, op: Op)
  {
    match op
    case Arrive(c) => c.ref.uid != "" && c.ref.uid !in w.used && !c.deleting
    case Edit(c) => c.ref.uid in w.lives ==> c.ref == w.lives[c.ref.uid].obj.ref && c.deleting == w.lives[c.ref.uid].obj.deleting
    case Reconcile(list, _) => w.tracker.Some? ==> Lists(w, w.tracker.value, list)
    case _ => true
  }

  ghost predicate AllLegal(w: World, ops: seq<Op>)
    decreases |ops|
  {
    ops == [] || (Legal(w, ops[0]) && AllLegal(Step(w, ops[0]), ops[1..]))
  }

  /** Objects carry the UID they are kept under. */
  ghost predicate Wellformed(w: World)
  {
    forall uid | uid in w.lives :: uid != "" && uid in w.used && w.lives[uid].obj.ref.uid == uid
  }

  const NOTHING := World(map[], {}, None, None, [])

  lemma {:induction false} StepWellformed(w: World, op: Op)
    requires Wellformed(w) && Legal(w, op)
    ensures Wellformed(Step(w, op))
  {}
}
