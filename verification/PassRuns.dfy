/** A completed pass over an existing target is a run of releases and applies, so what holds of runs holds of passes. */
module PassRuns {
  import opened Json
  import opened FieldPath
  import opened PathText
  import opened ClientSideApply
  import opened Trackers
  import opened Conflicts
  import opened TrackerPass
  import opened Adoption
  import opened PassLaws
  import Runs = ApplyRuns

  /** The run's document is the target, and its records are the tracker's. */
  ghost predicate Agrees(w: Runs.World, target: Target, records: seq<Record>)
  {
    && target.Some? && w.doc == Obj(target.value)
    && (forall i | 0 <= i < |records| :: Runs.RecordOf(w, records[i].ref.uid) == Book(records[i]))
    && (forall id | id in w.records :: Knows(records, id) && w.records[id].captured)
  }

  lemma {:induction false} PruneKeepsObj(c: Json, p: Path, i: int)
    requires i <= |p| && c.Obj?
    ensures PruneFrom(c, p, i).Obj?
    decreases i
  {
    if i > 0 {
      EditsKeepKind(c, p[..i], Null);
      PruneKeepsObj(c, p, i - 1);
      var r := DeleteAt(c, p[..i]);
      PruneKeepsObj(r.tree, p, i - 1);
    }
  }

  lemma {:induction false} RestoreKeepsObj(doc: Json, p: Path, priors: Priors)
    requires doc.Obj?
    ensures RestoreOrDelete(doc, p, priors).Obj?
    ensures forall v :: Set(doc, p, v).tree.Obj?
  {
    if p != [] {
      forall v ensures Set(doc, p, v).tree.Obj? { EditsKeepKind(doc, p, v); }
      var d := if Print(p) in priors then Set(doc, p, priors[Print(p)]).tree else doc;
      EditsKeepKind(d, p, Null);
      PruneKeepsObj(DeleteAt(d, p).tree, p, |p| - 1);
      if Print(p) in priors { DeleteKeepsObj(doc, p); }
    }
  }

  lemma {:induction false} DeleteKeepsObj(doc: Json, p: Path)
    requires doc.Obj?
    ensures Delete(doc, p).tree.Obj?
  {
    if p != [] {
      EditsKeepKind(doc, p, Null);
      PruneKeepsObj(DeleteAt(doc, p).tree, p, |p| - 1);
    }
  }

  lemma {:induction false} RevertKeepsObj(doc: Json, owned: seq<Path>, priors: Priors)
    requires doc.Obj?
    ensures RevertAll(doc, owned, priors).Obj?
    decreases |owned|
  {
    if owned != [] {
      RestoreKeepsObj(doc, owned[0], priors);
      RevertKeepsObj(RestoreOrDelete(doc, owned[0], priors), owned[1..], priors);
    }
  }

  lemma {:induction false} WithdrawKeepsObj(doc: Json, previous: seq<Path>, claimed: set<string>, priors: Priors)
    requires doc.Obj?
    ensures Withdraw(doc, previous, claimed, priors).doc.Obj?
    decreases |previous|
  {
    if previous != [] {
      var p := previous[0];
      RestoreKeepsObj(doc, p, priors);
      WithdrawKeepsObj(doc, previous[1..], claimed, priors);
      WithdrawKeepsObj(RestoreOrDelete(doc, p, priors), previous[1..], claimed, priors - {Print(p)});
    }
  }

  lemma {:induction false} SetAllKeepsObj(doc: Json, obj: Json, paths: seq<Path>)
    requires doc.Obj? && SetAll(doc, obj, paths).Some?
    ensures SetAll(doc, obj, paths).value.Obj?
    decreases |paths|
  {
    if paths != [] {
      RestoreKeepsObj(doc, paths[0], map[]);
      SetAllKeepsObj(Set(doc, paths[0], Get(obj, paths[0]).value).tree, obj, paths[1..]);
    }
  }

  lemma {:induction false} UpdateKeepsObj(live: Json, c: Contribution, previous: seq<Path>, priors: Priors, captured: bool)
    requires live.Obj? && Update(live, c, previous, priors, captured).Some?
    ensures Update(live, c, previous, priors, captured).value.doc.Obj?
  {
    var known := if captured then priors else Capture(live, c.obj, c.paths, priors);
    var claimed := set t | t in Texts(c.paths);
    WithdrawKeepsObj(live, previous, claimed, known);
    SetAllKeepsObj(Withdraw(live, previous, claimed, known).doc, c.obj, c.paths);
  }

  // ---- Releases ----

  predicate Distinguished(list: seq<Listed>)
  {
    forall i, j | 0 <= i < |list| && 0 <= j < |list| && i != j :: list[i].status.ref.uid != list[j].status.ref.uid
  }

  /** Letting go of an orphan, or of a contributor nothing is recorded of, does nothing and is no call. */
  function ReleaseOps(leaving: seq<Listed>): seq<Runs.Op>
  {
    if leaving == [] then []
    else
      (if leaving[0].obj.onRelease.Orphaned? || Book(leaving[0].status) == Runs.FRESH then []
       else [Runs.Release(leaving[0].status.ref.uid)]) +
      ReleaseOps(leaving[1..])
  }

  /** Those that leave under policy Orphan. */
  function Disowners(leaving: seq<Listed>): set<Runs.Id>
  {
    set i | 0 <= i < |leaving| && leaving[i].obj.onRelease.Orphaned? :: leaving[i].status.ref.uid
  }

  /** The tracker no longer keeps anything of these; the document is as it was. */
  function Forgotten(w: Runs.World, ids: set<Runs.Id>): Runs.World
  {
    Runs.World(w.doc, w.records - ids)
  }

  lemma {:induction false} ForgottenStep(w: Runs.World, ids: set<Runs.Id>, op: Runs.Op)
    requires op.id !in ids
    ensures Runs.Step(Forgotten(w, ids), op) == (Forgotten(Runs.Step(w, op).0, ids), Runs.Step(w, op).1)
  {
    assert Runs.RecordOf(Forgotten(w, ids), op.id) == Runs.RecordOf(w, op.id);
    var next := Runs.Step(w, op).0;
    assert Runs.Step(Forgotten(w, ids), op).0.records == next.records - ids;
  }

  /** Whether they are forgotten before or after others' calls is the same. */
  lemma {:induction false} ForgottenRun(w: Runs.World, ids: set<Runs.Id>, ops: seq<Runs.Op>)
    requires forall op | op in ops :: op.id !in ids
    ensures Runs.Run(Forgotten(w, ids), ops) == Forgotten(Runs.Run(w, ops), ids)
    ensures Runs.Took(Forgotten(w, ids), ops) == Runs.Took(w, ops)
    decreases |ops|
  {
    if ops != [] {
      assert ops[0] in ops;
      ForgottenStep(w, ids, ops[0]);
      ForgottenRun(Runs.Step(w, ops[0]).0, ids, ops[1..]);
    }
  }

  lemma {:induction false} DisownersFirst(leaving: seq<Listed>)
    requires leaving != []
    ensures Disowners(leaving) ==
      (if leaving[0].obj.onRelease.Orphaned? then {leaving[0].status.ref.uid} else {}) + Disowners(leaving[1..])
  {
    var rest := leaving[1..];
    forall id | id in Disowners(leaving)
      ensures id in (if leaving[0].obj.onRelease.Orphaned? then {leaving[0].status.ref.uid} else {}) + Disowners(rest)
    {
      var i :| 0 <= i < |leaving| && leaving[i].obj.onRelease.Orphaned? && leaving[i].status.ref.uid == id;
      if i > 0 { assert rest[i - 1] == leaving[i]; }
    }
    forall id | id in Disowners(rest) ensures id in Disowners(leaving) {
      var i :| 0 <= i < |rest| && rest[i].obj.onRelease.Orphaned? && rest[i].status.ref.uid == id;
      assert leaving[i + 1] == rest[i];
    }
  }

  /** Those of the leaving that are owed their fields back. */
  function Owed(leaving: seq<Listed>): seq<Listed>
  {
    if leaving == [] then []
    else (if leaving[0].obj.onRelease.Orphaned? then [] else [leaving[0]]) + Owed(leaving[1..])
  }

  /** Orphans do nothing to the target and hold nobody up: it is released to the others as if they were not there. */
  lemma {:induction false} OrphansDoNothing(target: Target, leaving: seq<Listed>)
    ensures ReleaseAll(target, leaving) == ReleaseAll(target, Owed(leaving))
    decreases |leaving|
  {
    if leaving != [] {
      var c, rest := leaving[0], leaving[1..];
      if c.obj.onRelease.Orphaned? {
        assert [] + Owed(rest) == Owed(rest);
        OrphansDoNothing(target, rest);
      } else {
        assert ([c] + Owed(rest))[0] == c && ([c] + Owed(rest))[1..] == Owed(rest);
        if Releases(c) { OrphansDoNothing(Released(target, c), rest); }
      }
    }
  }

  /** Every one of these calls takes effect. */
  predicate AllTake(w: Runs.World, ops: seq<Runs.Op>)
  {
    Runs.Took(w, ops) == ops
  }

  /** The run's records of the listed contributors are those of the list. */
  ghost predicate Carried(w: Runs.World, list: seq<Listed>)
  {
    && (forall id | id in w.records :: w.records[id].captured)
    && forall i | 0 <= i < |list| :: Runs.RecordOf(w, list[i].status.ref.uid) == Book(list[i].status)
  }

  predicate Among(list: seq<Listed>, id: string)
  {
    exists i :: 0 <= i < |list| && list[i].status.ref.uid == id
  }

  /** The records of those leaving are gone from the run, and nobody else's has changed. */
  ghost predicate Without(w: Runs.World, w': Runs.World, leaving: seq<Listed>)
  {
    && (forall id | id in w'.records :: id in w.records && w'.records[id].captured && !Among(leaving, id))
    && (forall id | !Among(leaving, id) :: Runs.RecordOf(w', id) == Runs.RecordOf(w, id))
  }

  lemma {:induction false} WithoutFirst(w: Runs.World, next: Runs.World, w': Runs.World, leaving: seq<Listed>)
    requires leaving != [] && next.records == w.records - {leaving[0].status.ref.uid} && Without(next, w', leaving[1..])
    ensures Without(w, w', leaving)
  {
    forall id ensures Among(leaving, id) <==> id == leaving[0].status.ref.uid || Among(leaving[1..], id) {
      AmongMore(leaving, id);
    }
  }

  lemma {:induction false} AmongMore(list: seq<Listed>, id: string)
    requires list != []
    ensures Among(list, id) <==> id == list[0].status.ref.uid || Among(list[1..], id)
  {
    if i :| 0 <= i < |list[1..]| && list[1..][i].status.ref.uid == id { assert list[i + 1].status.ref.uid == id; }
    if i :| 1 <= i < |list| && list[i].status.ref.uid == id { assert list[1..][i - 1].status.ref.uid == id; }
  }

  lemma {:induction false} CarriedOn(w: Runs.World, next: Runs.World, leaving: seq<Listed>)
    requires leaving != [] && Distinguished(leaving) && Carried(w, leaving)
    requires next.records == w.records - {leaving[0].status.ref.uid}
    ensures Distinguished(leaving[1..]) && Carried(next, leaving[1..])
  {
    var rest := leaving[1..];
    assert forall i | 0 <= i < |rest| :: rest[i] == leaving[i + 1];
    forall i | 0 <= i < |rest| ensures Runs.RecordOf(next, rest[i].status.ref.uid) == Book(rest[i].status) {
      assert Runs.RecordOf(w, leaving[i + 1].status.ref.uid) == Book(leaving[i + 1].status);
    }
  }

  lemma {:induction false} WithoutOrphan(w: Runs.World, w': Runs.World, leaving: seq<Listed>)
    requires leaving != [] && leaving[0].obj.onRelease.Orphaned?
    requires Without(w, Forgotten(w', Disowners(leaving[1..])), leaving[1..])
    ensures Without(w, Forgotten(w', Disowners(leaving)), leaving)
  {
    DisownersFirst(leaving);
    forall id ensures Among(leaving, id) <==> id == leaving[0].status.ref.uid || Among(leaving[1..], id) {
      AmongMore(leaving, id);
    }
  }

  lemma {:induction false} WithoutReleased(w: Runs.World, next: Runs.World, w': Runs.World, leaving: seq<Listed>)
    requires leaving != [] && !leaving[0].obj.onRelease.Orphaned? && next.records == w.records - {leaving[0].status.ref.uid}
    requires Without(next, Forgotten(w', Disowners(leaving[1..])), leaving[1..])
    ensures Without(w, Forgotten(w', Disowners(leaving)), leaving)
  {
    DisownersFirst(leaving);
    assert Disowners(leaving) == Disowners(leaving[1..]);
    WithoutFirst(w, next, Forgotten(w', Disowners(leaving[1..])), leaving);
  }

  lemma {:induction false} RestCarried(w: Runs.World, leaving: seq<Listed>)
    requires leaving != [] && Distinguished(leaving) && Carried(w, leaving)
    ensures Distinguished(leaving[1..]) && Carried(w, leaving[1..])
  {
    var rest := leaving[1..];
    assert forall i | 0 <= i < |rest| :: rest[i] == leaving[i + 1];
  }

  lemma {:induction false} ReleaseIsAStep(w: Runs.World, target: Target, c: Listed)
    requires target.Some? && w.doc == Obj(target.value) && Releases(c) && !c.obj.onRelease.Orphaned?
    requires Carried(w, [c])
    ensures var uid := c.status.ref.uid;
      var (next, ok) := Runs.Step(w, Runs.Release(uid));
      && ok && next.doc == Obj(Released(target, c).value)
      && next.records == w.records - {uid}
      && (Book(c.status) == Runs.FRESH ==> next == w)
  {
    assert [c][0] == c;
    assert Runs.RecordOf(w, c.status.ref.uid) == Book(c.status);
    RevertKeepsObj(w.doc, Runs.ParsePaths(c.status.ownedPaths).value, Known(c.status));
    if Book(c.status) == Runs.FRESH {
      assert c.status.ref.uid !in w.records;
      assert w.records - {c.status.ref.uid} == w.records;
    }
  }

  /** The first release, and what is left to do. */
  lemma {:induction false} FirstRelease(w: Runs.World, target: Target, leaving: seq<Listed>) returns (next: Runs.World)
    requires target.Some? && w.doc == Obj(target.value) && leaving != [] && Releases(leaving[0])
    requires Distinguished(leaving) && Carried(w, leaving) && !leaving[0].obj.onRelease.Orphaned?
    ensures var c, rest, ops := leaving[0], leaving[1..], ReleaseOps(leaving);
      && next.doc == Obj(Released(target, c).value) && next.records == w.records - {c.status.ref.uid}
      && Distinguished(rest) && Carried(next, rest)
      && Runs.Run(w, ops) == Runs.Run(next, ReleaseOps(rest))
      && (AllTake(next, ReleaseOps(rest)) ==> AllTake(w, ops))
  {
    var c, rest, ops := leaving[0], leaving[1..], ReleaseOps(leaving);
    var op := Runs.Release(c.status.ref.uid);
    assert Runs.RecordOf(w, c.status.ref.uid) == Book(c.status);
    ReleaseIsAStep(w, target, c);
    next := Runs.Step(w, op).0;
    CarriedOn(w, next, leaving);
    if Book(c.status) == Runs.FRESH {
      assert ops == ReleaseOps(rest);
    } else {
      assert ops[0] == op && ops[1..] == ReleaseOps(rest);
    }
  }

  lemma {:induction false} ReleasesAreARun(w: Runs.World, target: Target, leaving: seq<Listed>)
    requires target.Some? && w.doc == Obj(target.value)
    requires Distinguished(leaving) && Carried(w, leaving)
    requires ReleaseAll(target, leaving).1
    ensures var w' := Runs.Run(w, ReleaseOps(leaving));
      && ReleaseAll(target, leaving).0.Some?
      && w'.doc == Obj(ReleaseAll(target, leaving).0.value)
      && AllTake(w, ReleaseOps(leaving))
      && Without(w, Forgotten(w', Disowners(leaving)), leaving)
    decreases |leaving|
  {
    if leaving == [] {
      assert Forgotten(w, Disowners([])).records == w.records;
    } else if leaving[0].obj.onRelease.Orphaned? {
      assert ReleaseOps(leaving) == ReleaseOps(leaving[1..]);
      RestCarried(w, leaving);
      ReleasesAreARun(w, target, leaving[1..]);
      WithoutOrphan(w, Runs.Run(w, ReleaseOps(leaving)), leaving);
    } else {
      var c, rest := leaving[0], leaving[1..];
      var next := FirstRelease(w, target, leaving);
      ReleasesAreARun(next, Released(target, c), rest);
      WithoutReleased(w, next, Runs.Run(next, ReleaseOps(rest)), leaving);
    }
  }

  // ---- Turns ----

  /** The turn writes this contributor's claims to the target. */
  predicate Writes(s: PassState, c: Listed, contribution: Contribution, loses: bool)
  {
    && s.target.Some? && !loses && (c.obj.fault.Clean? || c.obj.fault.Unsaved?)
    && Update(Obj(s.target.value), contribution, Runs.Previous(Book(c.status)), Known(c.status), c.status.captured).Some?
  }

  /** The applies of the turns from number i on. */
  function ApplyOps(s: PassState, active: seq<Listed>, claims: map<string, seq<nat>>, i: nat): seq<Runs.Op>
    requires AllRender(active) && i <= |active|
    decreases |active| - i
  {
    if i == |active| || !s.verdict.Running? then [] else
    var c, contribution, loses := active[i], active[i].obj.rendered.value, Yields(active, claims, i);
    (if Writes(s, c, contribution, loses) then [Runs.Apply(c.status.ref.uid, contribution)] else []) +
    ApplyOps(Turn(s, c, contribution, loses), active, claims, i + 1)
  }

  function AfterTurn(w: Runs.World, s: PassState, c: Listed, contribution: Contribution, loses: bool): Runs.World
  {
    if Writes(s, c, contribution, loses) then Runs.Step(w, Runs.Apply(c.status.ref.uid, contribution)).0 else w
  }

  lemma {:induction false} EncodedReadsBack(r: Record, c: Contributor, contribution: Contribution, priors: Priors)
    ensures Book(AppliedRecord(r, c, contribution, priors)) == Runs.Record(Texts(contribution.paths), priors, true)
  {}

  /** The turn, seen from the run: the document, this contributor's record, and everyone else's. */
  ghost predicate SteppedTo(w: Runs.World, w': Runs.World, t: PassState, uid: string)
  {
    && t.target.Some? && w'.doc == Obj(t.target.value)
    && t.records != [] && Runs.RecordOf(w', uid) == Book(t.records[|t.records| - 1])
    && w'.records.Keys <= w.records.Keys + {uid}
    && (forall id | id in w'.records :: w'.records[id].captured || (id in w.records && w'.records[id] == w.records[id]))
    && forall id | id != uid :: Runs.RecordOf(w', id) == Runs.RecordOf(w, id)
  }

  lemma {:induction false} WriteIsAStep(w: Runs.World, s: PassState, c: Listed, contribution: Contribution)
    requires contribution.obj.Obj? && s.verdict.Running? && w.doc.Obj? && s.target == Some(w.doc.fields)
    requires Runs.RecordOf(w, c.status.ref.uid) == Book(c.status)
    requires Writes(s, c, contribution, false)
    ensures var (w', ok) := Runs.Step(w, Runs.Apply(c.status.ref.uid, contribution));
      ok && SteppedTo(w, w', ApplyTo(s, c, contribution), c.status.ref.uid)
  {
    var uid := c.status.ref.uid;
    var x := Update(Obj(s.target.value), contribution, Runs.Previous(Book(c.status)), Known(c.status), c.status.captured);
    UpdateKeepsObj(Obj(s.target.value), contribution, Runs.Previous(Book(c.status)), Known(c.status), c.status.captured);
    EncodedReadsBack(c.status, c.obj, contribution, x.value.priors);
    var (w', ok) := Runs.Step(w, Runs.Apply(uid, contribution));
    assert ok && w' == Runs.World(x.value.doc, w.records[uid := Runs.Record(Texts(contribution.paths), x.value.priors, true)]);
    var t := ApplyTo(s, c, contribution);
    assert t.target == Some(Fields(x.value.doc));
    assert t.records == s.records + [AppliedRecord(c.status, c.obj, contribution, x.value.priors)];
  }

  lemma {:induction false} IdleIsNoStep(w: Runs.World, s: PassState, c: Listed, contribution: Contribution, loses: bool)
    requires contribution.obj.Obj? && s.verdict.Running? && s.target.Some? && w.doc == Obj(s.target.value)
    requires Runs.RecordOf(w, c.status.ref.uid) == Book(c.status)
    requires Turn(s, c, contribution, loses).verdict.Running? && !Writes(s, c, contribution, loses)
    ensures SteppedTo(w, w, Turn(s, c, contribution, loses), c.status.ref.uid)
  {
    var t := Turn(s, c, contribution, loses);
    assert c.obj.fault.NoIdentity? || loses || c.obj.fault.BadBase?;
    assert t.target == s.target;
    assert |t.records| == |s.records| + 1;
  }

  lemma {:induction false} TurnIsAStep(w: Runs.World, s: PassState, c: Listed, contribution: Contribution, loses: bool)
    requires contribution.obj.Obj? && s.verdict.Running? && s.target.Some? && w.doc == Obj(s.target.value)
    requires Runs.RecordOf(w, c.status.ref.uid) == Book(c.status)
    requires Turn(s, c, contribution, loses).verdict.Running?
    ensures SteppedTo(w, AfterTurn(w, s, c, contribution, loses), Turn(s, c, contribution, loses), c.status.ref.uid)
    ensures Writes(s, c, contribution, loses) ==> Runs.Step(w, Runs.Apply(c.status.ref.uid, contribution)).1
  {
    if Writes(s, c, contribution, loses) {
      WriteIsAStep(w, s, c, contribution);
    } else {
      IdleIsNoStep(w, s, c, contribution, loses);
    }
  }

  /** Records already written, and those still to come, are the run's. */
  ghost predicate InStep(w: Runs.World, s: PassState, active: seq<Listed>, i: nat)
    requires i <= |active|
  {
    && s.target.Some? && w.doc == Obj(s.target.value)
    && |s.records| == i
    && (forall k | 0 <= k < i :: SameEntry(s.records[k], active[k].status))
    && (forall k | 0 <= k < i :: Runs.RecordOf(w, active[k].status.ref.uid) == Book(s.records[k]))
    && (forall k | i <= k < |active| :: Runs.RecordOf(w, active[k].status.ref.uid) == Book(active[k].status))
    && (forall id | id in w.records :: w.records[id].captured && exists k :: 0 <= k < |active| && active[k].status.ref.uid == id)
  }

  lemma {:induction false} StaysInStep(w: Runs.World, s: PassState, active: seq<Listed>, i: nat, contribution: Contribution, loses: bool)
    requires i < |active| && Distinguished(active) && InStep(w, s, active, i) && s.verdict.Running?
    requires contribution.obj.Obj? && Turn(s, active[i], contribution, loses).verdict.Running?
    ensures InStep(AfterTurn(w, s, active[i], contribution, loses), Turn(s, active[i], contribution, loses), active, i + 1)
  {
    TurnIsAStep(w, s, active[i], contribution, loses);
    TurnCounts(s, active[i], contribution, loses);
  }

  lemma {:induction false} TurnsAreARun(w: Runs.World, s: PassState, active: seq<Listed>, claims: map<string, seq<nat>>, i: nat)
    requires AllRender(active) && i <= |active| && Distinguished(active) && InStep(w, s, active, i)
    requires s.verdict.Running? && Turns(s, active, claims, i).verdict.Running?
    ensures var ops := ApplyOps(s, active, claims, i);
      && InStep(Runs.Run(w, ops), Turns(s, active, claims, i), active, |active|)
      && AllTake(w, ops)
    decreases |active| - i
  {
    if i < |active| {
      var c, contribution, loses := active[i], active[i].obj.rendered.value, Yields(active, claims, i);
      var t := Turn(s, c, contribution, loses);
      var w' := AfterTurn(w, s, c, contribution, loses);
      assert t.verdict.Running?;
      StaysInStep(w, s, active, i, contribution, loses);
      TurnsAreARun(w', t, active, claims, i + 1);
      FirstTurnOfRun(w, s, active, claims, i);
    }
  }

  lemma {:induction false} FirstTurnOfRun(w: Runs.World, s: PassState, active: seq<Listed>, claims: map<string, seq<nat>>, i: nat)
    requires AllRender(active) && i < |active| && InStep(w, s, active, i) && s.verdict.Running?
    requires Turn(s, active[i], active[i].obj.rendered.value, Yields(active, claims, i)).verdict.Running?
    ensures var c, contribution, loses := active[i], active[i].obj.rendered.value, Yields(active, claims, i);
      var w', ops := AfterTurn(w, s, c, contribution, loses), ApplyOps(s, active, claims, i);
      var rest := ApplyOps(Turn(s, c, contribution, loses), active, claims, i + 1);
      && Runs.Run(w, ops) == Runs.Run(w', rest)
      && (AllTake(w', rest) ==> AllTake(w, ops))
  {
    var c, contribution, loses := active[i], active[i].obj.rendered.value, Yields(active, claims, i);
    TurnIsAStep(w, s, c, contribution, loses);
    var ops, rest := ApplyOps(s, active, claims, i), ApplyOps(Turn(s, c, contribution, loses), active, claims, i + 1);
    if Writes(s, c, contribution, loses) {
      assert ops[0] == Runs.Apply(c.status.ref.uid, contribution) && ops[1..] == rest;
    } else {
      assert ops == rest;
    }
  }

  // ---- The whole pass ----

  function PassOps(target: Target, status: Status, list: seq<Listed>): seq<Runs.Op>
  {
    ReleaseOps(Leaving(list)) +
    if AllRender(Active(list)) then
      ApplyOps(Departures(target, status, list), Active(list), ContestedPaths(Rendered(Active(list))), 0)
    else []
  }

  lemma {:induction false} Regrouped<T>(a: seq<T>, b: seq<T>, c: seq<T>)
    ensures a + (b + c) == a + b + c
  {}

  lemma {:induction false} RunSplit(w: Runs.World, a: seq<Runs.Op>, b: seq<Runs.Op>)
    ensures Runs.Run(w, a + b) == Runs.Run(Runs.Run(w, a), b)
    ensures Runs.Took(w, a + b) == Runs.Took(w, a) + Runs.Took(Runs.Run(w, a), b)
    decreases |a|
  {
    if a == [] {
      assert a + b == b;
    } else {
      assert (a + b)[0] == a[0] && (a + b)[1..] == a[1..] + b;
      var (next, ok) := Runs.Step(w, a[0]);
      RunSplit(next, a[1..], b);
      Regrouped(if ok then [a[0]] else [], Runs.Took(next, a[1..]), Runs.Took(Runs.Run(next, a[1..]), b));
    }
  }

  lemma {:induction false} Parts(list: seq<Listed>)
    requires Distinguished(list)
    ensures Distinguished(Leaving(list)) && Distinguished(Active(list))
    ensures forall c | c in list :: c in Leaving(list) || c in Active(list)
    ensures forall i, j | 0 <= i < |Leaving(list)| && 0 <= j < |Active(list)| ::
      Leaving(list)[i].status.ref.uid != Active(list)[j].status.ref.uid
  {
    if list != [] {
      var c, rest := list[0], list[1..];
      assert list == [c] + rest;
      forall i, j | 0 <= i < |rest| && 0 <= j < |rest| && i != j ensures rest[i].status.ref.uid != rest[j].status.ref.uid {
        assert list[i + 1] == rest[i] && list[j + 1] == rest[j];
      }
      Parts(rest);
      forall d | d in rest ensures d.status.ref.uid != c.status.ref.uid {
        var k :| 0 <= k < |rest| && rest[k] == d;
        assert list[k + 1] == d && list[0] == c;
      }
      forall d | d in Leaving(rest) || d in Active(rest) ensures d in rest { LeavingMembers(rest, d); }
    }
  }

  /** Every contributor on record is listed, with what is on record of it. */
  ghost predicate ListsAll(w: Runs.World, list: seq<Listed>)
  {
    && Distinguished(list)
    && Carried(w, list)
    && forall id | id in w.records :: exists i :: 0 <= i < |list| && list[i].status.ref.uid == id
  }

  /** The calls of the turns are made by those that stay. */
  lemma {:induction false} ApplyIds(s: PassState, active: seq<Listed>, claims: map<string, seq<nat>>, i: nat)
    requires AllRender(active) && i <= |active|
    ensures forall op | op in ApplyOps(s, active, claims, i) :: Among(active, op.id)
    decreases |active| - i
  {
    if i < |active| && s.verdict.Running? {
      var c, contribution, loses := active[i], active[i].obj.rendered.value, Yields(active, claims, i);
      assert Among(active, c.status.ref.uid);
      ApplyIds(Turn(s, c, contribution, loses), active, claims, i + 1);
    }
  }

  /** The releases are made for those that leave and are no orphans. */
  lemma {:induction false} ReleaseIds(leaving: seq<Listed>)
    requires Distinguished(leaving)
    ensures forall op | op in ReleaseOps(leaving) :: Among(leaving, op.id) && op.id !in Disowners(leaving)
  {
    if leaving != [] {
      var rest := leaving[1..];
      assert Distinguished(rest) by { assert forall i | 0 <= i < |rest| :: rest[i] == leaving[i + 1]; }
      ReleaseIds(rest);
      DisownersFirst(leaving);
      forall op | op in ReleaseOps(leaving) ensures Among(leaving, op.id) && op.id !in Disowners(leaving) {
        AmongMore(leaving, op.id);
        if op in ReleaseOps(rest) {
          var k :| 0 <= k < |rest| && rest[k].status.ref.uid == op.id;
          assert leaving[k + 1] == rest[k];
        } else {
          assert op.id == leaving[0].status.ref.uid;
          forall k | 0 <= k < |rest| ensures rest[k].status.ref.uid != op.id { assert leaving[k + 1] == rest[k]; }
        }
      }
    }
  }

  /** No call of a pass is one of its orphans'. */
  lemma {:induction false} OrphansMakeNoCall(target: Target, status: Status, list: seq<Listed>)
    requires Distinguished(list)
    ensures forall op | op in PassOps(target, status, list) :: op.id !in Disowners(Leaving(list))
  {
    var active, s := Active(list), Departures(target, status, list);
    Parts(list);
    ReleaseIds(Leaving(list));
    if AllRender(active) {
      ApplyIds(s, active, ContestedPaths(Rendered(active)), 0);
    }
    forall op | op in PassOps(target, status, list) ensures op.id !in Disowners(Leaving(list)) {
      if op !in ReleaseOps(Leaving(list)) {
        var k :| 0 <= k < |active| && active[k].status.ref.uid == op.id;
      }
    }
  }

  /**
   * A completed pass that finds the target and leaves it: the releases of those leaving, orphans apart, then the
   * applies of those that did not yield, each taking effect, give the target and, once the orphans are
   * forgotten, the records it stores.
   */
  lemma {:induction false} PassIsARun(w: Runs.World, target: Target, status: Status, list: seq<Listed>, saves: bool)
    requires Agrees(w, target, status.contributors) && ListsAll(w, list)
    requires var p := Pass(target, status, list, saves); p.verdict.Completed? && Departures(target, status, list).target.Some?
    ensures var p, ops := Pass(target, status, list, saves), PassOps(target, status, list);
      && Agrees(Forgotten(Runs.Run(w, ops), Disowners(Leaving(list))), p.target, p.status.contributors)
      && AllTake(w, ops)
  {
    var active, s := Active(list), Departures(target, status, list);
    var claims, gone := ContestedPaths(Rendered(active)), Disowners(Leaving(list));
    var first, second := ReleaseOps(Leaving(list)), ApplyOps(s, active, claims, 0);
    Parts(list);
    DeparturesAreARun(w, target, status, list);
    TurnsAddOneEach(s, active, claims, 0);
    var w1 := Runs.Run(w, first);
    TurnsAreARun(Forgotten(w1, gone), s, active, claims, 0);
    RunSplit(w, first, second);
    OrphansMakeNoCall(target, status, list);
    ForgottenRun(w1, gone, second);
    EndsInAgreement(Forgotten(Runs.Run(w1, second), gone), Turns(s, active, claims, 0), active);
  }

  /** A pass in which nobody orphans anything forgets nobody. */
  lemma {:induction false} NobodyForgotten(w: Runs.World, leaving: seq<Listed>)
    requires forall i | 0 <= i < |leaving| :: !leaving[i].obj.onRelease.Orphaned?
    ensures Disowners(leaving) == {} && Forgotten(w, Disowners(leaving)) == w
  {
    assert Disowners(leaving) == {};
    assert w.records - {} == w.records;
  }

  lemma {:induction false} DeparturesAreARun(w: Runs.World, target: Target, status: Status, list: seq<Listed>)
    requires target.Some? && w.doc == Obj(target.value) && ListsAll(w, list)
    requires Departures(target, status, list).verdict.Running? && Departures(target, status, list).target.Some?
    ensures InStep(Forgotten(Runs.Run(w, ReleaseOps(Leaving(list))), Disowners(Leaving(list))),
                   Departures(target, status, list), Active(list), 0)
    ensures AllTake(w, ReleaseOps(Leaving(list)))
  {
    var leaving := Leaving(list);
    Parts(list);
    forall i | 0 <= i < |leaving| ensures Runs.RecordOf(w, leaving[i].status.ref.uid) == Book(leaving[i].status) {
      LeavingMembers(list, leaving[i]);
      assert leaving[i] in list;
    }
    ReleasesAreARun(w, target, leaving);
    BetweenReleasesAndTurns(w, Forgotten(Runs.Run(w, ReleaseOps(leaving)), Disowners(leaving)), Departures(target, status, list), list);
  }

  lemma {:induction false} EndsInAgreement(w: Runs.World, t: PassState, active: seq<Listed>)
    requires InStep(w, t, active, |active|)
    ensures Agrees(w, t.target, t.records)
  {
    forall i | 0 <= i < |t.records| ensures Runs.RecordOf(w, t.records[i].ref.uid) == Book(t.records[i]) {
      assert SameEntry(t.records[i], active[i].status);
    }
    forall id | id in w.records ensures Knows(t.records, id) {
      var k :| 0 <= k < |active| && active[k].status.ref.uid == id;
      assert SameEntry(t.records[k], active[k].status);
    }
  }

  lemma {:induction false} BetweenReleasesAndTurns(w: Runs.World, w1: Runs.World, s: PassState, list: seq<Listed>)
    requires ListsAll(w, list) && s.target.Some? && s.records == [] && w1.doc == Obj(s.target.value)
    requires Without(w, w1, Leaving(list))
    ensures InStep(w1, s, Active(list), 0)
  {
    var leaving, active := Leaving(list), Active(list);
    Parts(list);
    forall k | 0 <= k < |active| ensures Runs.RecordOf(w1, active[k].status.ref.uid) == Book(active[k].status) {
      LeavingMembers(list, active[k]);
      assert active[k] in list;
      assert !Among(leaving, active[k].status.ref.uid);
    }
    forall id | id in w1.records ensures w1.records[id].captured && exists k :: 0 <= k < |active| && active[k].status.ref.uid == id {
      var i :| 0 <= i < |list| && list[i].status.ref.uid == id;
      assert !Among(leaving, id);
      assert forall c | c in leaving :: c.status.ref.uid != id;
      assert list[i] in list && list[i] in active;
    }
  }
}
