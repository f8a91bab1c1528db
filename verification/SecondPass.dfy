/** A pass over contributors that have not changed leaves the target and the bookkeeping as the pass before left them. */
module SecondPass {
  import opened FieldPath
  import opened PathText
  import opened ClientSideApply
  import opened ApplyLaws
  import opened ApplyLoss
  import opened Trackers
  import opened Adoption
  import opened Conflicts
  import opened TrackerPass
  import opened Listing
  import opened PassLaws
  import opened PassRuns
  import opened Rounds
  import Runs = ApplyRuns

  // ---- What the last apply of a run leaves ----

  /** One call that takes effect, seen by one contributor. */
  lemma {:induction false} RecordAfter(w: Runs.World, op: Runs.Op, id: Runs.Id)
    requires Runs.Step(w, op).1
    ensures var next := Runs.Step(w, op).0;
      && (op.id != id ==> (id in next.records <==> id in w.records) && Runs.RecordOf(next, id) == Runs.RecordOf(w, id))
      && (op.id == id && op.Apply? ==>
            id in next.records && next.records[id].captured && next.records[id].ownedPaths == Texts(op.c.paths))
  {
  }

  /** What a contributor's own calls leave on its record: the paths of the last apply, or what was there. */
  ghost predicate Left(w: Runs.World, own: seq<Runs.Op>, after: Runs.World, id: Runs.Id)
  {
    && (own == [] ==> (id in after.records <==> id in w.records) && Runs.RecordOf(after, id) == Runs.RecordOf(w, id))
    && (own != [] && own[|own| - 1].Apply? ==>
          id in after.records && after.records[id].captured
          && after.records[id].ownedPaths == Texts(own[|own| - 1].c.paths))
  }

  lemma {:induction false} LeftBefore(w: Runs.World, op: Runs.Op, rest: seq<Runs.Op>, after: Runs.World, id: Runs.Id)
    requires Runs.Step(w, op).1 && Left(Runs.Step(w, op).0, rest, after, id)
    ensures Left(w, if op.id == id then [op] + rest else rest, after, id)
  {
    RecordAfter(w, op, id);
    if rest != [] { assert ([op] + rest)[|rest|] == rest[|rest| - 1]; }
  }

  lemma {:induction false} LastRecord(w: Runs.World, ops: seq<Runs.Op>, id: Runs.Id)
    requires AllTake(w, ops)
    ensures Left(w, Runs.Own(ops, id), Runs.Run(w, ops), id)
    decreases |ops|
  {
    if ops != [] {
      AllTakeOn(w, ops);
      LastRecord(Runs.Step(w, ops[0]).0, ops[1..], id);
      LeftBefore(w, ops[0], Runs.Own(ops[1..], id), Runs.Run(w, ops), id);
    }
  }

  lemma {:induction false} AllTakeOn(w: Runs.World, ops: seq<Runs.Op>)
    requires ops != [] && AllTake(w, ops)
    ensures Runs.Step(w, ops[0]).1 && AllTake(Runs.Step(w, ops[0]).0, ops[1..])
  {
    var (next, ok) := Runs.Step(w, ops[0]);
    TookIsShorter(next, ops[1..]);
    if ok { assert ([ops[0]] + Runs.Took(next, ops[1..]))[1..] == Runs.Took(next, ops[1..]); }
  }

  lemma {:induction false} TookIsShorter(w: Runs.World, ops: seq<Runs.Op>)
    ensures |Runs.Took(w, ops)| <= |ops|
    decreases |ops|
  {
    if ops != [] { TookIsShorter(Runs.Step(w, ops[0]).0, ops[1..]); }
  }

  /** Applying once more what one reads already is no change at all. */
  lemma {:induction false} ApplyAgain(u: set<Path>, w: Runs.World, id: Runs.Id, c: Contribution)
    requires Territory(u) && forall p | p in c.paths :: p in u && Get(c.obj, p).Some? && Get(w.doc, p) == Get(c.obj, p)
    requires id in w.records && w.records[id].captured && w.records[id].ownedPaths == Texts(c.paths)
    ensures Runs.Step(w, Runs.Apply(id, c)) == (w, true)
  {
    var r := w.records[id];
    Runs.StoredPathsReadBack(c.paths);
    forall p | p in c.paths ensures Print(p) in (set t | t in Texts(c.paths)) { ClaimedByText(u, c.paths, p); }
    WithdrawClaimed(w.doc, c.paths, (set t | t in Texts(c.paths)), r.priors);
    SetAllSame(u, w.doc, c.obj, c.paths);
    assert w.records[id := r] == w.records;
  }

  lemma {:induction false} NoChanges(w: Runs.World, ops: seq<Runs.Op>)
    requires forall op | op in ops :: Runs.Step(w, op) == (w, true)
    ensures Runs.Run(w, ops) == w
    decreases |ops|
  {
    if ops != [] {
      assert ops[0] in ops;
      NoChanges(w, ops[1..]);
    }
  }

  // ---- The same contributors again ----

  /** The same live objects in the same order, each with a record under its own reference and priority. */
  predicate SameContributors(a: seq<Listed>, b: seq<Listed>)
  {
    |a| == |b| && forall k | 0 <= k < |a| ::
      a[k].obj == b[k].obj && a[k].status.ref == b[k].status.ref && a[k].status.priority == b[k].status.priority
  }

  lemma {:induction false} SameFinds(a: seq<Record>, b: seq<Record>, ref: ContributorRef)
    requires |a| == |b| && forall k | 0 <= k < |a| :: a[k].ref == b[k].ref
    ensures Find(a, ref) == Find(b, ref)
  {
    if a != [] { SameFinds(a[1..], b[1..], ref); }
  }

  lemma {:induction false} SameYields(a: seq<Listed>, b: seq<Listed>, claims: map<string, seq<nat>>, i: nat)
    requires SameContributors(a, b) && i < |a|
    ensures Yields(a, claims, i) == Yields(b, claims, i)
  {
    SameFinds(Refs(a), Refs(b), a[i].status.ref);
    var me := Find(Refs(a), a[i].status.ref);
    forall text | text in claims ensures Outranked(a, claims[text], me, a[i].status.priority) == Outranked(b, claims[text], me, b[i].status.priority) {
      assert forall j | j in claims[text] && j < |a| :: a[j].status.priority == b[j].status.priority;
    }
  }

  lemma {:induction false} OwnFirst(op: Runs.Op, rest: seq<Runs.Op>, id: Runs.Id)
    ensures Runs.Own([op] + rest, id) == if op.id == id then [op] + Runs.Own(rest, id) else Runs.Own(rest, id)
  {
    assert ([op] + rest)[0] == op && ([op] + rest)[1..] == rest;
  }

  /** The calls of the turns left, seen by one contributor: those of this turn, then the others. */
  lemma {:induction false} OwnOfTurn(s: PassState, active: seq<Listed>, claims: map<string, seq<nat>>, i: nat, uid: string)
    requires AllRender(active) && i < |active| && s.verdict.Running?
    ensures var c, contribution, loses := active[i], active[i].obj.rendered.value, Yields(active, claims, i);
      var rest := Runs.Own(ApplyOps(Turn(s, c, contribution, loses), active, claims, i + 1), uid);
      Runs.Own(ApplyOps(s, active, claims, i), uid) ==
      if Writes(s, c, contribution, loses) && c.status.ref.uid == uid then [Runs.Apply(uid, contribution)] + rest else rest
  {
    var c, contribution, loses := active[i], active[i].obj.rendered.value, Yields(active, claims, i);
    var op, rest := Runs.Apply(c.status.ref.uid, contribution), ApplyOps(Turn(s, c, contribution, loses), active, claims, i + 1);
    OwnFirst(op, rest, uid);
    assert [] + rest == rest;
  }

  lemma {:induction false} TurnGoesOn(s: PassState, active: seq<Listed>, claims: map<string, seq<nat>>, i: nat)
    requires AllRender(active) && i < |active| && s.verdict.Running? && s.target.Some? && Turns(s, active, claims, i).verdict.Running?
    ensures var c, contribution, loses := active[i], active[i].obj.rendered.value, Yields(active, claims, i);
      var next := Turn(s, c, contribution, loses);
      && next.verdict.Running? && next.target.Some? && Turns(next, active, claims, i + 1).verdict.Running?
      && (!loses && (c.obj.fault.Clean? || c.obj.fault.Unsaved?) ==> Writes(s, c, contribution, loses))
  {
    var c, contribution, loses := active[i], active[i].obj.rendered.value, Yields(active, claims, i);
    assert Turn(s, c, contribution, loses).verdict.Running?;
    TurnCreates(s, c, contribution, loses);
  }

  /** In a pass that completes over a target that is there, whoever can write at its turn does. */
  lemma {:induction false} WritesInTurn(s: PassState, active: seq<Listed>, claims: map<string, seq<nat>>, i: nat, n: nat)
    requires AllRender(active) && i <= n < |active| && s.verdict.Running? && s.target.Some? && Turns(s, active, claims, i).verdict.Running?
    requires !Yields(active, claims, n) && (active[n].obj.fault.Clean? || active[n].obj.fault.Unsaved?)
    requires forall k, l | 0 <= k < l < |active| :: active[k].status.ref.uid != active[l].status.ref.uid
    ensures Runs.Own(ApplyOps(s, active, claims, i), active[n].status.ref.uid) ==
      [Runs.Apply(active[n].status.ref.uid, active[n].obj.rendered.value)]
    decreases n - i
  {
    var c, contribution, loses := active[i], active[i].obj.rendered.value, Yields(active, claims, i);
    var next := Turn(s, c, contribution, loses);
    TurnGoesOn(s, active, claims, i);
    OwnOfTurn(s, active, claims, i, active[n].status.ref.uid);
    if i == n {
      OthersWriteLater(next, active, claims, i + 1, c.status.ref.uid);
    } else {
      WritesInTurn(next, active, claims, i + 1, n);
    }
  }

  lemma {:induction false} OthersWriteLater(s: PassState, active: seq<Listed>, claims: map<string, seq<nat>>, i: nat, uid: string)
    requires AllRender(active) && i <= |active| && forall k | i <= k < |active| :: active[k].status.ref.uid != uid
    ensures Runs.Own(ApplyOps(s, active, claims, i), uid) == []
    decreases |active| - i
  {
    if i < |active| && s.verdict.Running? {
      OwnOfTurn(s, active, claims, i, uid);
      OthersWriteLater(Turn(s, active[i], active[i].obj.rendered.value, Yields(active, claims, i)), active, claims, i + 1, uid);
    }
  }

  lemma {:induction false} OthersLeave(leaving: seq<Listed>, uid: string)
    requires forall k | 0 <= k < |leaving| :: leaving[k].status.ref.uid != uid
    ensures Runs.Own(ReleaseOps(leaving), uid) == []
  {
    if leaving != [] {
      var op, rest := Runs.Release(leaving[0].status.ref.uid), ReleaseOps(leaving[1..]);
      assert forall k | 0 <= k < |leaving| - 1 :: leaving[1..][k] == leaving[k + 1];
      OthersLeave(leaving[1..], uid);
      assert ([op] + rest)[0] == op && ([op] + rest)[1..] == rest && [] + rest == rest;
    }
  }

  lemma {:induction false} OwnSplit(a: seq<Runs.Op>, b: seq<Runs.Op>, id: Runs.Id)
    ensures Runs.Own(a + b, id) == Runs.Own(a, id) + Runs.Own(b, id)
    decreases |a|
  {
    if a == [] {
      assert a + b == b;
    } else {
      assert (a + b)[0] == a[0] && (a + b)[1..] == a[1..] + b;
      OwnSplit(a[1..], b, id);
    }
  }

  /** The call is an apply at this turn, which does not yield and is not prevented. */
  predicate AtTurn(active: seq<Listed>, claims: map<string, seq<nat>>, n: nat, op: Runs.Op)
    requires AllRender(active)
  {
    && n < |active| && !Yields(active, claims, n) && (active[n].obj.fault.Clean? || active[n].obj.fault.Unsaved?)
    && op == Runs.Apply(active[n].status.ref.uid, active[n].obj.rendered.value)
  }

  /** The applies of a pass are made at such turns. */
  lemma {:induction false} AppliesInTurn(s: PassState, active: seq<Listed>, claims: map<string, seq<nat>>, i: nat, op: Runs.Op)
    requires AllRender(active) && i <= |active| && op in ApplyOps(s, active, claims, i)
    ensures exists n: nat :: AtTurn(active, claims, n, op)
    decreases |active| - i
  {
    var c, contribution, loses := active[i], active[i].obj.rendered.value, Yields(active, claims, i);
    if Writes(s, c, contribution, loses) && op == Runs.Apply(c.status.ref.uid, contribution) {
      assert AtTurn(active, claims, i, op);
    } else if !(Writes(s, c, contribution, loses) && op == Runs.Apply(c.status.ref.uid, contribution)) {
      AppliesInTurn(Turn(s, c, contribution, loses), active, claims, i + 1, op);
    }
  }

  /** A pass of orderly kind makes one call for a contributor that is not prevented, and it is the apply at its turn. */
  lemma {:induction false} OneCallEach(target: Target, status: Status, list: seq<Listed>, n: nat, op: Runs.Op)
    requires Orderly(target, status, list) && AllRender(Active(list)) && AtTurn(Active(list), ContestedPaths(Rendered(Active(list))), n, op)
    ensures Runs.Own(PassOps(target, status, list), op.id) == [op]
  {
    var active, leaving, s := Active(list), Leaving(list), Departures(target, status, list);
    var claims := ContestedPaths(Rendered(active));
    Parts(list);
    TurnsAddOneEach(s, active, claims, 0);
    WritesInTurn(s, active, claims, 0, n);
    OthersLeave(leaving, op.id);
    OwnSplit(ReleaseOps(leaving), ApplyOps(s, active, claims, 0), op.id);
    assert [] + [op] == [op];
  }

  lemma {:induction false} AllStay(list: seq<Listed>)
    requires forall k | 0 <= k < |list| :: !list[k].obj.deleting
    ensures Leaving(list) == [] && Active(list) == list
  {
    if list != [] {
      assert forall k | 0 <= k < |list| - 1 :: list[1..][k] == list[k + 1];
      AllStay(list[1..]);
      assert list == [list[0]] + list[1..];
    }
  }

  /** Everyone who stayed is listed again, as before and with the tracker's record. */
  ghost predicate Again(target: Target, status: Status, list: seq<Listed>, again: seq<Listed>)
  {
    var p := Pass(target, status, list, true);
    && Orderly(target, status, list) && Orderly(p.target, p.status, again)
    && |again| == |Active(list)| && forall k | 0 <= k < |again| :: again[k].obj == Active(list)[k].obj
  }

  lemma {:induction false} AgainAt(target: Target, status: Status, list: seq<Listed>, again: seq<Listed>, k: nat)
    requires Again(target, status, list, again) && k < |again|
    ensures var before := Active(list)[k];
      && !again[k].obj.deleting && before.status.ref == again[k].status.ref && before.status.priority == again[k].status.priority
  {
    var before := Active(list)[k];
    LeavingMembers(list, before);
    assert before in Active(list);
    var i :| 0 <= i < |list| && list[i] == before;
    assert list[i].status == RecordFor(list[i].obj, status);
    assert again[k].status == RecordFor(again[k].obj, Pass(target, status, list, true).status);
  }

  lemma {:induction false} AgainIsTheSame(target: Target, status: Status, list: seq<Listed>, again: seq<Listed>)
    requires Again(target, status, list, again)
    ensures Leaving(again) == [] && Active(again) == again && SameContributors(Active(list), again)
  {
    forall k | 0 <= k < |again|
      ensures !again[k].obj.deleting && Active(list)[k].status.ref == again[k].status.ref
        && Active(list)[k].status.priority == again[k].status.priority
    {
      AgainAt(target, status, list, again, k);
    }
    AllStay(again);
  }

  /** Every call of the second pass finds its own values and its own record. */
  lemma {:induction false} CallIsSettled(claims: map<Runs.Id, set<Path>>, w: Runs.World, target: Target, status: Status, list: seq<Listed>,
                                    n: nat, op: Runs.Op)
    requires Runs.Apart(claims) && Runs.Sound(claims, w) && AllTake(w, PassOps(target, status, list))
    requires forall o | o in PassOps(target, status, list) :: Runs.Admissible(claims, o)
    requires Orderly(target, status, list) && AllRender(Active(list)) && AtTurn(Active(list), ContestedPaths(Rendered(Active(list))), n, op)
    ensures var after := Runs.Run(w, PassOps(target, status, list)); Runs.Step(after, op) == (after, true)
  {
    var ops := PassOps(target, status, list);
    OneCallEach(target, status, list, n, op);
    LastRecord(w, ops, op.id);
    Runs.OwnIsPart(ops, op.id);
    assert op in Runs.Own(ops, op.id);
    forall p | p in op.c.paths
      ensures p in claims[op.id] && Get(op.c.obj, p).Some? && Get(Runs.Run(w, ops).doc, p) == Get(op.c.obj, p)
    {
      Runs.AppliedReadsItsOwn(claims, w, ops, op.id, p);
    }
    Runs.TerritoryOf(claims);
    ApplyAgain(claims[op.id], Runs.Run(w, ops), op.id, op.c);
  }

  /** The calls of a pass over the same contributors come at the turns of the pass before. */
  lemma {:induction false} SameTurns(before: seq<Listed>, target: Target, status: Status, again: seq<Listed>, op: Runs.Op)
    requires SameContributors(before, again) && Leaving(again) == [] && Active(again) == again
    requires op in PassOps(target, status, again)
    ensures AllRender(before) && exists n: nat :: AtTurn(before, ContestedPaths(Rendered(before)), n, op)
  {
    assert AllRender(again);
    assert Rendered(again) == Rendered(before);
    var claimed := ContestedPaths(Rendered(again));
    AppliesInTurn(Departures(target, status, again), again, claimed, 0, op);
    var n: nat :| AtTurn(again, claimed, n, op);
    SameYields(before, again, claimed, n);
    assert AtTurn(before, claimed, n, op);
  }

  lemma {:induction false} EveryCallIsSettled(claims: map<Runs.Id, set<Path>>, w: Runs.World, target: Target, status: Status,
                                           list: seq<Listed>, target': Target, status': Status, again: seq<Listed>, op: Runs.Op)
    requires Runs.Apart(claims) && Runs.Sound(claims, w) && AllTake(w, PassOps(target, status, list))
    requires forall o | o in PassOps(target, status, list) :: Runs.Admissible(claims, o)
    requires Orderly(target, status, list) && SameContributors(Active(list), again) && Leaving(again) == [] && Active(again) == again
    requires op in PassOps(target', status', again)
    ensures var after := Forgotten(Runs.Run(w, PassOps(target, status, list)), Disowners(Leaving(list)));
      Runs.Step(after, op) == (after, true)
  {
    SameTurns(Active(list), target', status', again, op);
    var n: nat :| AtTurn(Active(list), ContestedPaths(Rendered(Active(list))), n, op);
    CallIsSettled(claims, w, target, status, list, n, op);
    Parts(list);
    ForgottenStep(Runs.Run(w, PassOps(target, status, list)), Disowners(Leaving(list)), op);
  }

  lemma {:induction false} OrderlyIsARun(w: Runs.World, target: Target, status: Status, list: seq<Listed>)
    requires Agrees(w, target, status.contributors) && Identified(status.contributors) && Orderly(target, status, list)
    ensures var p, ops := Pass(target, status, list, true), PassOps(target, status, list);
      && Agrees(Forgotten(Runs.Run(w, ops), Disowners(Leaving(list))), p.target, p.status.contributors)
      && Identified(p.status.contributors) && AllTake(w, ops)
  {
    RecordsAreCarried(w, target, status, list);
    PassIsARun(w, target, status, list, true);
    StaysIdentified(target, status, list);
  }

  /**
   * Two completed passes over the same unchanged contributors, whose claims do not overlap: the second leaves
   * the target exactly as it is, and every contributor's paths, priors and capture on record.
   */
  lemma {:induction false} SecondPassChangesNothing(claims: map<Runs.Id, set<Path>>, w: Runs.World, target: Target, status: Status,
                                               list: seq<Listed>, again: seq<Listed>)
    requires Agrees(w, target, status.contributors) && Identified(status.contributors)
    requires Runs.Apart(claims) && Runs.Sound(claims, w) && Again(target, status, list, again)
    requires forall op | op in PassOps(target, status, list) :: Runs.Admissible(claims, op)
    ensures var p := Pass(target, status, list, true);
      var q := Pass(p.target, p.status, again, true);
      && q.target == p.target && |q.status.contributors| == |p.status.contributors|
      && forall k | 0 <= k < |q.status.contributors| ::
           q.status.contributors[k].ref == p.status.contributors[k].ref && Book(q.status.contributors[k]) == Book(p.status.contributors[k])
  {
    var p, ops := Pass(target, status, list, true), PassOps(target, status, list);
    var q, more := Pass(p.target, p.status, again, true), PassOps(p.target, p.status, again);
    var after := Forgotten(Runs.Run(w, ops), Disowners(Leaving(list)));
    OrderlyIsARun(w, target, status, list);
    OrderlyIsARun(after, p.target, p.status, again);
    AgainIsTheSame(target, status, list, again);
    forall op | op in more ensures Runs.Step(after, op) == (after, true) {
      EveryCallIsSettled(claims, w, target, status, list, p.target, p.status, again, op);
    }
    NoChanges(after, more);
    NobodyForgotten(after, Leaving(again));
    SameBooks(after, p, q, list, again, target, status);
  }

  lemma {:induction false} SameRefs(target: Target, status: Status, list: seq<Listed>, again: seq<Listed>)
    requires Again(target, status, list, again)
    ensures var p := Pass(target, status, list, true);
      var q := Pass(p.target, p.status, again, true);
      |q.status.contributors| == |p.status.contributors| &&
      forall k | 0 <= k < |q.status.contributors| :: q.status.contributors[k].ref == p.status.contributors[k].ref
  {
    var p := Pass(target, status, list, true);
    ReferenceCount(target, status, list, true);
    ReferenceCount(p.target, p.status, again, true);
    AgainIsTheSame(target, status, list, again);
    forall k | 0 <= k < |again|
      ensures Pass(p.target, p.status, again, true).status.contributors[k].ref == p.status.contributors[k].ref
    {
      assert SameEntry(p.status.contributors[k], Active(list)[k].status);
      assert SameEntry(Pass(p.target, p.status, again, true).status.contributors[k], again[k].status);
    }
  }

  lemma {:induction false} SameBooks(w: Runs.World, p: PassState, q: PassState, list: seq<Listed>, again: seq<Listed>, target: Target, status: Status)
    requires Again(target, status, list, again) && p == Pass(target, status, list, true) && q == Pass(p.target, p.status, again, true)
    requires Agrees(w, p.target, p.status.contributors) && Agrees(w, q.target, q.status.contributors)
    ensures |q.status.contributors| == |p.status.contributors| && forall k | 0 <= k < |q.status.contributors| ::
      q.status.contributors[k].ref == p.status.contributors[k].ref && Book(q.status.contributors[k]) == Book(p.status.contributors[k])
  {
    SameRefs(target, status, list, again);
  }
}
