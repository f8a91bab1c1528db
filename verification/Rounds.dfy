/** Pass after pass over one target: what the contributors read, and what is left when they have gone. */
module Rounds {
  import opened Json
  import opened FieldPath
  import opened FieldLaws
  import opened ClientSideApply
  import opened ApplyLaws
  import opened Trackers
  import opened Adoption
  import opened TrackerPass
  import opened Listing
  import opened PassLaws
  import opened PassRuns
  import Runs = ApplyRuns
  import DeleteUndoesSet
  import TreeCore
  import UndoneTrees
  import UndoneRuns

  /** The target and the tracker's status after the given passes, each over its own list. */
  function After(target: Target, status: Status, lists: seq<seq<Listed>>): (Target, Status)
    decreases |lists|
  {
    if lists == [] then (target, status) else
    var p := Pass(target, status, lists[0], true);
    After(p.target, p.status, lists[1..])
  }

  /** The releases and applies those passes make. */
  function RoundOps(target: Target, status: Status, lists: seq<seq<Listed>>): seq<Runs.Op>
    decreases |lists|
  {
    if lists == [] then [] else
    var p := Pass(target, status, lists[0], true);
    PassOps(target, status, lists[0]) + RoundOps(p.target, p.status, lists[1..])
  }

  /** The list is of everyone alive, nobody on record has vanished, and every record is carried forward. */
  ghost predicate ListsEveryone(status: Status, list: seq<Listed>)
  {
    && Distinguished(list)
    && (forall i | 0 <= i < |list| :: list[i].obj.ref.uid != "" && list[i].status == RecordFor(list[i].obj, status))
    && (forall r | r in status.contributors :: exists i :: 0 <= i < |list| && list[i].obj.ref.uid == r.ref.uid)
  }

  /** One completed pass that finds the target and leaves it. */
  ghost predicate Orderly(target: Target, status: Status, list: seq<Listed>)
  {
    && ListsEveryone(status, list)
    && Pass(target, status, list, true).verdict.Completed?
    && Departures(target, status, list).target.Some?
  }

  ghost predicate AllOrderly(target: Target, status: Status, lists: seq<seq<Listed>>)
    decreases |lists|
  {
    lists == [] || (
      && Orderly(target, status, lists[0])
      && var p := Pass(target, status, lists[0], true); AllOrderly(p.target, p.status, lists[1..]))
  }

  /** Who has left under policy Orphan, leaving its fields to the target on purpose, makes no call any more. */
  predicate QuitForGood(target: Target, status: Status, lists: seq<seq<Listed>>)
    decreases |lists|
  {
    lists == [] || (
      var p := Pass(target, status, lists[0], true);
      && (forall op | op in RoundOps(p.target, p.status, lists[1..]) :: op.id !in Disowners(Leaving(lists[0])))
      && QuitForGood(p.target, p.status, lists[1..]))
  }

  function AllDisowners(lists: seq<seq<Listed>>): set<Runs.Id>
  {
    if lists == [] then {} else Disowners(Leaving(lists[0])) + AllDisowners(lists[1..])
  }

  /** Records built for the list carry the tracker's bookkeeping forward. */
  lemma {:induction false} RecordsAreCarried(w: Runs.World, target: Target, status: Status, list: seq<Listed>)
    requires Agrees(w, target, status.contributors) && Identified(status.contributors) && ListsEveryone(status, list)
    ensures ListsAll(w, list)
  {
    forall i | 0 <= i < |list| ensures Runs.RecordOf(w, list[i].status.ref.uid) == Book(list[i].status) {
      BookIsCarried(w, target, status, list[i].obj);
      assert list[i].status == RecordFor(list[i].obj, status);
    }
    forall id | id in w.records ensures exists i :: 0 <= i < |list| && list[i].status.ref.uid == id {
      RecordedIsListed(status, list, id);
    }
  }

  lemma {:induction false} RecordedIsListed(status: Status, list: seq<Listed>, id: string)
    requires ListsEveryone(status, list) && Knows(status.contributors, id)
    ensures exists i :: 0 <= i < |list| && list[i].status.ref.uid == id
  {
    var r :| r in status.contributors && r.ref.uid == id;
    var i :| 0 <= i < |list| && list[i].obj.ref.uid == r.ref.uid;
    RecordKeepsRef(list[i].obj, status);
  }

  lemma {:induction false} RecordKeepsRef(c: Contributor, status: Status)
    ensures RecordFor(c, status).ref == c.ref
  {}

  lemma {:induction false} BookIsCarried(w: Runs.World, target: Target, status: Status, c: Contributor)
    requires Agrees(w, target, status.contributors) && Identified(status.contributors) && c.ref.uid != ""
    ensures Runs.RecordOf(w, c.ref.uid) == Book(RecordFor(c, status))
  {
    var records := status.contributors;
    FindByUid(records, c.ref);
    var k := Find(records, c.ref);
    if k < 0 {
      assert c.ref.uid !in w.records;
    }
  }

  lemma {:induction false} StaysIdentified(target: Target, status: Status, list: seq<Listed>)
    requires Orderly(target, status, list)
    ensures Identified(Pass(target, status, list, true).status.contributors)
  {
    var records, active := Pass(target, status, list, true).status.contributors, Active(list);
    ReferenceCount(target, status, list, true);
    Parts(list);
    forall i | 0 <= i < |records|
      ensures records[i].ref.uid != "" && records[i].ref.uid == active[i].status.ref.uid
    {
      assert SameEntry(records[i], active[i].status);
      LeavingMembers(list, active[i]);
      assert active[i] in active;
      var k :| 0 <= k < |list| && list[k] == active[i];
      assert list[k].status == RecordFor(list[k].obj, status);
    }
  }

  lemma {:induction false} ForgottenTwice(w: Runs.World, a: set<Runs.Id>, b: set<Runs.Id>)
    ensures Forgotten(Forgotten(w, a), b) == Forgotten(w, a + b)
  {
    assert w.records - a - b == w.records - (a + b);
  }

  /** All the passes together are one run, every call of which takes effect; those who left orphans are forgotten. */
  lemma {:induction false} RoundsAreARun(w: Runs.World, target: Target, status: Status, lists: seq<seq<Listed>>)
    requires Agrees(w, target, status.contributors) && Identified(status.contributors)
    requires AllOrderly(target, status, lists) && QuitForGood(target, status, lists)
    ensures var (t, s), ops := After(target, status, lists), RoundOps(target, status, lists);
      Agrees(Forgotten(Runs.Run(w, ops), AllDisowners(lists)), t, s.contributors) && AllTake(w, ops)
    decreases |lists|
  {
    if lists == [] {
      assert w.records - {} == w.records;
    } else {
      var p := Pass(target, status, lists[0], true);
      var first, rest := PassOps(target, status, lists[0]), RoundOps(p.target, p.status, lists[1..]);
      var w1, gone, later := Runs.Run(w, first), Disowners(Leaving(lists[0])), AllDisowners(lists[1..]);
      RecordsAreCarried(w, target, status, lists[0]);
      PassIsARun(w, target, status, lists[0], true);
      StaysIdentified(target, status, lists[0]);
      RoundsAreARun(Forgotten(w1, gone), p.target, p.status, lists[1..]);
      ForgottenRun(w1, gone, rest);
      ForgottenTwice(Runs.Run(w1, rest), gone, later);
      RunSplit(w, first, rest);
    }
  }

  /** A target nobody contributes to yet. */
  predicate Untouched(target: Target, status: Status)
  {
    target.Some? && status.contributors == []
  }

  lemma {:induction false} RunReadsClaims(claims: map<Runs.Id, set<Path>>, w: Runs.World, ops: seq<Runs.Op>, id: Runs.Id, p: Path)
    requires Runs.Apart(claims) && w.records == map[] && AllTake(w, ops) && forall op | op in ops :: Runs.Admissible(claims, op)
    requires id in claims && p in claims[id]
    requires var own := Runs.Own(ops, id); own != [] && own[|own| - 1].Apply? && p in own[|own| - 1].c.paths
    ensures var own, doc := Runs.Own(ops, id), Runs.Run(w, ops).doc;
      Get(doc, p).Some? && Get(doc, p) == Get(own[|own| - 1].c.obj, p)
  {
    assert Runs.Sound(claims, w);
    Runs.AppliedReadsItsOwn(claims, w, ops, id, p);
  }

  /** After any passes, whoever applied last among its own calls and was not released reads its claims. */
  lemma {:induction false} ContributorsReadTheirClaims(claims: map<Runs.Id, set<Path>>, target: Target, status: Status,
                                    lists: seq<seq<Listed>>, id: Runs.Id, p: Path)
    requires Untouched(target, status) && AllOrderly(target, status, lists) && QuitForGood(target, status, lists)
    requires Runs.Apart(claims) && forall op | op in RoundOps(target, status, lists) :: Runs.Admissible(claims, op)
    requires id in claims && p in claims[id]
    requires var own := Runs.Own(RoundOps(target, status, lists), id);
      own != [] && own[|own| - 1].Apply? && p in own[|own| - 1].c.paths
    ensures var own, (t, _) := Runs.Own(RoundOps(target, status, lists), id), After(target, status, lists);
      t.Some? && Get(Obj(t.value), p).Some? && Get(Obj(t.value), p) == Get(own[|own| - 1].c.obj, p)
  {
    var w, ops := Runs.World(Obj(target.value), map[]), RoundOps(target, status, lists);
    RoundsAreARun(w, target, status, lists);
    RunReadsClaims(claims, w, ops, id, p);
  }

  lemma {:induction false} NoneOwn(ops: seq<Runs.Op>, id: Runs.Id)
    requires forall op | op in ops :: op.id != id
    ensures Runs.Own(ops, id) == []
  {
    if ops != [] {
      assert ops[0] in ops;
      NoneOwn(ops[1..], id);
    }
  }

  /** A path of somebody that makes none of the calls reads as before. */
  lemma {:induction false} IdleReadsTheSame(claims: map<Runs.Id, set<Path>>, w: Runs.World, ops: seq<Runs.Op>, id: Runs.Id, q: Path)
    requires Runs.Apart(claims) && Runs.Sound(claims, w) && AllTake(w, ops) && forall op | op in ops :: Runs.Admissible(claims, op) && op.id != id
    requires id in claims && q in claims[id]
    ensures Look(Runs.Run(w, ops).doc, q) == Look(w.doc, q)
  {
    Runs.RunLaws(claims, w, ops);
    Runs.OnlyOwnMatters(Runs.CellOf(w, id, q), ops, id, q);
    NoneOwn(ops, id);
    assert Runs.CellOf(Runs.Run(w, ops), id, q) == Runs.CellOf(w, id, q);
  }

  /**
   * A contributor that leaves under policy Orphan leaves its fields exactly as they are: after the pass each of its
   * paths reads what it did, whatever the others do in it, and nothing is on record of it.
   */
  lemma {:induction false} OrphanedFieldsStay(claims: map<Runs.Id, set<Path>>, w: Runs.World, target: Target, status: Status,
                                              list: seq<Listed>, c: Listed, q: Path)
    requires Agrees(w, target, status.contributors) && Identified(status.contributors) && Orderly(target, status, list)
    requires Runs.Apart(claims) && Runs.Sound(claims, w)
    requires forall op | op in PassOps(target, status, list) :: Runs.Admissible(claims, op)
    requires c in Leaving(list) && c.obj.onRelease.Orphaned?
    requires c.status.ref.uid in claims && q in claims[c.status.ref.uid]
    ensures var p := Pass(target, status, list, true);
      && p.target.Some? && Look(Obj(p.target.value), q) == Look(Obj(target.value), q)
      && !Knows(p.status.contributors, c.status.ref.uid)
  {
    var p, ops, id := Pass(target, status, list, true), PassOps(target, status, list), c.status.ref.uid;
    RecordsAreCarried(w, target, status, list);
    PassIsARun(w, target, status, list, true);
    OrphansMakeNoCall(target, status, list);
    var k :| 0 <= k < |Leaving(list)| && Leaving(list)[k] == c;
    assert id in Disowners(Leaving(list));
    IdleReadsTheSame(claims, w, ops, id, q);
    NotStored(target, status, list, k);
  }

  lemma {:induction false} NotStored(target: Target, status: Status, list: seq<Listed>, k: nat)
    requires Orderly(target, status, list) && k < |Leaving(list)|
    ensures !Knows(Pass(target, status, list, true).status.contributors, Leaving(list)[k].status.ref.uid)
  {
    var records := Pass(target, status, list, true).status.contributors;
    ReferenceCount(target, status, list, true);
    Parts(list);
    forall i | 0 <= i < |records| ensures records[i].ref.uid != Leaving(list)[k].status.ref.uid {
      assert SameEntry(records[i], Active(list)[i].status);
    }
  }

  /**
   * Of those that were released, in whatever passes and order, none having outgrown or repeated what it found:
   * the target reads as it did before the first pass at every path of theirs, and at every path apart from all
   * claims, whoever else is still there or has left its fields behind.
   */
  lemma {:induction false} TargetIsGivenBack(claims: map<Runs.Id, set<Path>>, target: Target, status: Status, lists: seq<seq<Listed>>,
                          lives: map<Runs.Id, seq<Contribution>>, q: Path)
    requires Untouched(target, status) && AllOrderly(target, status, lists) && QuitForGood(target, status, lists)
    requires Runs.Apart(claims) && forall op | op in RoundOps(target, status, lists) :: Runs.Admissible(claims, op)
    requires lives.Keys <= claims.Keys
    requires forall id | id in lives ::
      Runs.Own(RoundOps(target, status, lists), id) == if lives[id] == [] then [] else Runs.Applies(id, lives[id]) + [Runs.Release(id)]
    requires forall id, i | id in lives && 0 < i < |lives[id]| ::
      forall p | p in lives[id][i].paths :: p in lives[id][i - 1].paths
    requires forall id, p | id in lives && lives[id] != [] && p in lives[id][0].paths ::
      Get(Obj(target.value), p) != Get(lives[id][0].obj, p)
    requires (exists id :: id in lives && q in claims[id]) || Outside(Runs.Union(claims), q)
    ensures var (t, _) := After(target, status, lists);
      t.Some? && Get(Obj(t.value), q) == Get(Obj(target.value), q)
  {
    var w := Runs.World(Obj(target.value), map[]);
    var ops := RoundOps(target, status, lists);
    RoundsAreARun(w, target, status, lists);
    Runs.AllReleasedIsUndone(claims, w, ops, lives);
    if id :| id in lives && q in claims[id] {
      assert Get(Runs.Run(w, ops).doc, q) == Get(w.doc, q);
    }
  }

  lemma {:induction false} NobodyQuits(target: Target, status: Status, lists: seq<seq<Listed>>)
    requires AllDisowners(lists) == {}
    ensures QuitForGood(target, status, lists)
    decreases |lists|
  {
    if lists != [] {
      var p := Pass(target, status, lists[0], true);
      NobodyQuits(p.target, p.status, lists[1..]);
    }
  }

  /**
   * And not only what it reads: once nobody is on record any more, nothing was taken over unremembered, and nobody
   * left fields behind on purpose,
   * the target is as it was, up to what is hollow on the way to a claim, and exactly where no claim leaves a
   * trace.
   */
  lemma {:induction false} TargetComesBack(claims: map<Runs.Id, set<Path>>, target: Target, status: Status, lists: seq<seq<Listed>>)
    requires Untouched(target, status) && AllOrderly(target, status, lists) && AllDisowners(lists) == {}
    requires Runs.Apart(claims) && TreeCore.LeafClaims(Runs.Union(claims))
    requires forall op | op in RoundOps(target, status, lists) :: Runs.Admissible(claims, op)
    requires UndoneRuns.AllRemember(Runs.World(Obj(target.value), map[]), RoundOps(target, status, lists))
    requires After(target, status, lists).1.contributors == []
    ensures var (t, _) := After(target, status, lists);
      && t.Some? && UndoneTrees.Alike(Obj(t.value), Obj(target.value), Runs.Union(claims), [])
      && ((forall p | p in Runs.Union(claims) :: DeleteUndoesSet.LeavesNoTrace(Obj(target.value), p)) ==> t == target)
  {
    var w, ops := Runs.World(Obj(target.value), map[]), RoundOps(target, status, lists);
    NobodyQuits(target, status, lists);
    RoundsAreARun(w, target, status, lists);
    var after := Runs.Run(w, ops);
    assert after.records - {} == after.records;
    assert after.records == map[] by { assert forall id :: id !in after.records; }
    UndoneRuns.TreeComesBack(claims, w, ops);
  }
}
