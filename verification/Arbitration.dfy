/** Who gives way on contested paths, and whose value a contested path ends up with. */
module Arbitration {
  import opened Json
  import opened FieldPath
  import opened PathText
  import opened ClientSideApply
  import opened Trackers
  import opened Adoption
  import opened Conflicts
  import opened TrackerPass
  import Runs = ApplyRuns
  import opened FieldLaws
  import opened ApplyLaws
  import opened ApplyLoss
  import opened PassLaws
  import opened PassRuns

  /** Contributors i and j both claim the path, and not everyone who claims it agrees. */
  ghost predicate Contend(active: seq<Listed>, text: string, i: nat, j: nat)
    requires AllRender(active)
  {
    var rendered := Rendered(active);
    Contested(rendered, text) && Claimant(rendered, i, text) && Claimant(rendered, j, text)
  }

  lemma {:induction false} OwnPosition(active: seq<Listed>, i: nat)
    requires i < |active| && Identified(Refs(active))
    ensures Find(Refs(active), active[i].status.ref) == i
  {
    FindAt(Refs(active), i, active[i].status.ref);
  }

  /** A contributor yields exactly when its policy is Priority and it contends with someone of higher priority. */
  lemma {:induction false} YieldsExactly(active: seq<Listed>, i: nat)
    requires AllRender(active) && i < |active| && Identified(Refs(active))
    ensures Yields(active, ContestedPaths(Rendered(active)), i) <==>
      active[i].obj.policy.Priority? &&
      exists text, j: nat :: Contend(active, text, i, j) && j < |active| && active[j].status.priority > active[i].status.priority
  {
    var rendered := Rendered(active);
    var claims := ContestedPaths(rendered);
    OwnPosition(active, i);
    if Yields(active, claims, i) {
      var text :| text in claims && i in claims[text] && Outranked(active, claims[text], i, active[i].status.priority);
      var j :| j in claims[text] && j != i && j < |active| && active[j].status.priority > active[i].status.priority;
      ConflictsAreExact(rendered, text);
      assert Contend(active, text, i, j);
    }
    if active[i].obj.policy.Priority? {
      forall text, j: nat | Contend(active, text, i, j) && j < |active| && active[j].status.priority > active[i].status.priority
        ensures Yields(active, claims, i)
      {
        ConflictsAreExact(rendered, text);
        assert i in claims[text] && j in claims[text];
        assert Outranked(active, claims[text], i, active[i].status.priority);
      }
    }
  }

  /** Among contributors with policy Priority that do not yield, contention is between equals. */
  lemma {:induction false} UnyieldingAreEquals(active: seq<Listed>, i: nat, j: nat, text: string)
    requires AllRender(active) && i < |active| && j < |active| && Identified(Refs(active))
    requires Contend(active, text, i, j) && active[i].obj.policy.Priority? && active[j].obj.policy.Priority?
    requires !Yields(active, ContestedPaths(Rendered(active)), i) && !Yields(active, ContestedPaths(Rendered(active)), j)
    ensures active[i].status.priority == active[j].status.priority
  {
    YieldsExactly(active, i);
    YieldsExactly(active, j);
    assert Contend(active, text, j, i);
  }

  /** Nobody of the highest priority yields. */
  lemma {:induction false} HighestNeverYields(active: seq<Listed>, i: nat)
    requires AllRender(active) && i < |active| && Identified(Refs(active))
    requires forall k | 0 <= k < |active| :: active[k].status.priority <= active[i].status.priority
    ensures !Yields(active, ContestedPaths(Rendered(active)), i)
  {
    YieldsExactly(active, i);
  }

  // ---- The last word ----

  lemma {:induction false} TurnIsRead(u: set<Path>, t: PassState, c: Listed, p: Path)
    requires t.verdict.Running? && t.target.Some? && c.obj.fault.Clean? && c.obj.rendered.Some?
    requires var contribution := c.obj.rendered.value;
      && contribution.obj.Obj? && p in contribution.paths
      && Territory(u) && (forall q | q in contribution.paths :: q in u)
      && Turn(t, c, contribution, false).verdict.Running?
    ensures var contribution := c.obj.rendered.value;
      var r := Turn(t, c, contribution, false).target;
      r.Some? && Get(Obj(r.value), p).Some? && Get(Obj(r.value), p) == Get(contribution.obj, p)
  {
    var contribution, previous := c.obj.rendered.value, Runs.Previous(Book(c.status));
    assert Turn(t, c, contribution, false) == ApplyTo(t, c, contribution);
    UpdateKeepsObj(Obj(t.target.value), contribution, previous, Known(c.status), c.status.captured);
    UpdateIsRead(u, Obj(t.target.value), contribution, previous, Known(c.status), c.status.captured, p);
  }

  /** Paths that can be stored and part from p, and priors that can be put back at them. */
  ghost predicate PartsFrom(paths: seq<Path>, priors: Priors, p: Path)
  {
    forall q | q in paths :: Keyed(q) && Printable(q) && Diverge(q, p) && (Print(q) in priors ==> Fits(q, priors[Print(q)]))
  }

  lemma {:induction false} RestoreFrame(doc: Json, q: Path, priors: Priors, p: Path)
    requires KeepsKeys(p) && PartsFrom([q], priors, p)
    ensures Look(RestoreOrDelete(doc, q, priors), p) == Look(doc, p)
  {
    assert q in [q];
    if Print(q) in priors {
      SetFrame(doc, q, priors[Print(q)], p);
      DeleteLaws(Set(doc, q, priors[Print(q)]).tree, q);
    } else {
      DeleteLaws(doc, q);
    }
  }

  lemma {:induction false} WithdrawFrame(doc: Json, previous: seq<Path>, claimed: set<string>, priors: Priors, p: Path)
    requires KeepsKeys(p) && PartsFrom(previous, priors, p)
    ensures Look(Withdraw(doc, previous, claimed, priors).doc, p) == Look(doc, p)
    decreases |previous|
  {
    if previous != [] {
      var q, rest := previous[0], previous[1..];
      assert previous == [q] + rest;
      assert PartsFrom([q], priors, p) && PartsFrom(rest, priors, p) && PartsFrom(rest, priors - {Print(q)}, p);
      RestoreFrame(doc, q, priors, p);
      WithdrawFrame(doc, rest, claimed, priors, p);
      WithdrawFrame(RestoreOrDelete(doc, q, priors), rest, claimed, priors - {Print(q)}, p);
    }
  }

  lemma {:induction false} SetAllFrame(doc: Json, obj: Json, paths: seq<Path>, p: Path)
    requires KeepsKeys(p) && PartsFrom(paths, map[], p) && SetAll(doc, obj, paths).Some?
    ensures Look(SetAll(doc, obj, paths).value, p) == Look(doc, p)
    decreases |paths|
  {
    if paths != [] {
      var q, v := paths[0], Get(obj, paths[0]).value;
      assert paths == [q] + paths[1..];
      ClaimFits(obj, q, v);
      SetFrame(doc, q, v, p);
      SetAllFrame(Set(doc, q, v).tree, obj, paths[1..], p);
    }
  }

  /** What is captured fits where it was found, and only there. */
  lemma {:induction false} CapturedFits(live: Json, obj: Json, paths: seq<Path>, priors: Priors, q: Path)
    requires Printable(q) && (forall r | r in paths :: Printable(r)) && (Print(q) in priors ==> Fits(q, priors[Print(q)]))
    ensures var known := Capture(live, obj, paths, priors); Print(q) in known ==> Fits(q, known[Print(q)])
    decreases |paths|
  {
    if paths != [] {
      var r := paths[0];
      assert paths == [r] + paths[1..];
      if Print(r) in priors || Get(live, r).None? || Get(obj, r) == Get(live, r) {
        CapturedFits(live, obj, paths[1..], priors, q);
      } else {
        assert r in paths;
        ClaimFits(live, r, Get(live, r).value);
        if Print(r) == Print(q) { PrintIsInjective(r, q); }
        CapturedFits(live, obj, paths[1..], priors[Print(r) := Get(live, r).value], q);
      }
    }
  }

  /** An apply whose claims, old and new, part from p is not seen at p, whatever fails and falls back within it. */
  lemma {:induction false} UpdateFrame(live: Json, c: Contribution, previous: seq<Path>, priors: Priors, captured: bool, p: Path)
    requires KeepsKeys(p) && PartsFrom(c.paths, map[], p) && PartsFrom(previous, priors, p)
    requires Update(live, c, previous, priors, captured).Some?
    ensures Look(Update(live, c, previous, priors, captured).value.doc, p) == Look(live, p)
  {
    var known := if captured then priors else Capture(live, c.obj, c.paths, priors);
    forall q | q in previous ensures Print(q) in known ==> Fits(q, known[Print(q)]) {
      CapturedFits(live, c.obj, c.paths, priors, q);
    }
    var claimed := set t | t in Texts(c.paths);
    WithdrawFrame(live, previous, claimed, known, p);
    SetAllFrame(Withdraw(live, previous, claimed, known).doc, c.obj, c.paths, p);
  }

  /** Nothing this contributor claims or gives up concerns p. */
  ghost predicate Unconcerned(c: Listed, p: Path)
  {
    && c.obj.rendered.Some?
    && PartsFrom(c.obj.rendered.value.paths, map[], p)
    && PartsFrom(Runs.Previous(Book(c.status)), Known(c.status), p)
  }

  lemma {:induction false} TurnFrame(t: PassState, c: Listed, loses: bool, p: Path)
    requires t.verdict.Running? && t.target.Some? && c.obj.rendered.Some? && c.obj.rendered.value.obj.Obj? && KeepsKeys(p)
    requires loses || Unconcerned(c, p)
    requires Turn(t, c, c.obj.rendered.value, loses).verdict.Running?
    ensures var r := Turn(t, c, c.obj.rendered.value, loses).target;
      r.Some? && Look(Obj(r.value), p) == Look(Obj(t.target.value), p)
  {
    var contribution, previous := c.obj.rendered.value, Runs.Previous(Book(c.status));
    if !loses && (c.obj.fault.Clean? || c.obj.fault.Unsaved?) {
      UpdateKeepsObj(Obj(t.target.value), contribution, previous, Known(c.status), c.status.captured);
      UpdateFrame(Obj(t.target.value), contribution, previous, Known(c.status), c.status.captured, p);
    }
  }

  /** From number k on everyone yields or is not concerned with p. */
  ghost predicate QuietFrom(active: seq<Listed>, claims: map<string, seq<nat>>, k: nat, p: Path)
  {
    forall j: nat | k <= j < |active| :: Yields(active, claims, j) || Unconcerned(active[j], p)
  }

  lemma {:induction false} StillRunning(s: PassState, active: seq<Listed>, claims: map<string, seq<nat>>, k: nat)
    requires AllRender(active) && k <= |active| && Turns(s, active, claims, k).verdict.Running?
    ensures s.verdict.Running?
  {}

  lemma {:induction false} TurnsFrame(s: PassState, active: seq<Listed>, claims: map<string, seq<nat>>, k: nat, p: Path)
    requires AllRender(active) && k <= |active| && s.target.Some? && KeepsKeys(p)
    requires QuietFrom(active, claims, k, p) && Turns(s, active, claims, k).verdict.Running?
    ensures var r := Turns(s, active, claims, k).target; r.Some? && Look(Obj(r.value), p) == Look(Obj(s.target.value), p)
    decreases |active| - k
  {
    if k < |active| && s.verdict.Running? {
      var c, loses := active[k], Yields(active, claims, k);
      var next := Turn(s, c, c.obj.rendered.value, loses);
      assert (loses || Unconcerned(c, p)) && QuietFrom(active, claims, k + 1, p);
      assert Turns(s, active, claims, k) == Turns(next, active, claims, k + 1);
      StillRunning(next, active, claims, k + 1);
      TurnFrame(s, c, loses, p);
      TurnsFrame(next, active, claims, k + 1, p);
    } else {
      assert Turns(s, active, claims, k) == s;
    }
  }

  lemma {:induction false} TurnOf(s: PassState, active: seq<Listed>, claims: map<string, seq<nat>>, k: nat, i: nat) returns (t: PassState)
    requires AllRender(active) && k <= i < |active| && s.verdict.Running? && Turns(s, active, claims, k).verdict.Running?
    ensures t.verdict.Running? && (s.target.Some? ==> t.target.Some?)
    ensures var next := Turn(t, active[i], active[i].obj.rendered.value, Yields(active, claims, i));
      next.verdict.Running? && Turns(s, active, claims, k) == Turns(next, active, claims, i + 1)
    decreases i - k
  {
    var next := Turn(s, active[k], active[k].obj.rendered.value, Yields(active, claims, k));
    StillRunning(next, active, claims, k + 1);
    if k == i {
      t := s;
    } else {
      TurnCreates(s, active[k], active[k].obj.rendered.value, Yields(active, claims, k));
      t := TurnOf(next, active, claims, k + 1, i);
    }
  }

  lemma {:induction false} TurnsAreRead(u: set<Path>, s: PassState, active: seq<Listed>, claims: map<string, seq<nat>>, i: nat, p: Path)
    requires AllRender(active) && i < |active| && s.verdict.Running? && s.target.Some?
    requires Turns(s, active, claims, 0).verdict.Running? && active[i].obj.fault.Clean?
    requires Territory(u) && (forall q | q in active[i].obj.rendered.value.paths :: q in u)
    requires p in active[i].obj.rendered.value.paths && !Yields(active, claims, i) && QuietFrom(active, claims, i + 1, p)
    ensures var r, c := Turns(s, active, claims, 0).target, active[i].obj.rendered.value;
      r.Some? && Get(Obj(r.value), p).Some? && Get(Obj(r.value), p) == Get(c.obj, p)
  {
    var t := TurnOf(s, active, claims, 0, i);
    TurnIsRead(u, t, active[i], p);
    var next := Turn(t, active[i], active[i].obj.rendered.value, false);
    TurnsFrame(next, active, claims, i + 1, p);
    GetIsFirst(Obj(next.target.value), p);
    GetIsFirst(Obj(Turns(s, active, claims, 0).target.value), p);
  }

  /**
   * After a completed pass over a target, a contested path reads the value of the last contributor in order
   * that claims it and does not yield: of anyone, that is, whom only contributors follow that yield or have
   * nothing to do with the path.
   */
  lemma {:induction false} LastClaimantWins(u: set<Path>, target: Target, status: Status, list: seq<Listed>, i: nat, p: Path)
    requires Pass(target, status, list, true).verdict.Completed? && Departures(target, status, list).target.Some?
    requires i < |Active(list)|
    requires var active := Active(list);
      && active[i].obj.fault.Clean? && active[i].obj.rendered.Some?
      && Territory(u) && (forall q | q in active[i].obj.rendered.value.paths :: q in u)
      && p in active[i].obj.rendered.value.paths
    requires AllRender(Active(list))
    requires var active, claims := Active(list), ContestedPaths(Rendered(Active(list)));
      !Yields(active, claims, i) && QuietFrom(active, claims, i + 1, p)
    ensures var r, c := Pass(target, status, list, true).target, Active(list)[i].obj.rendered.value;
      r.Some? && Get(Obj(r.value), p).Some? && Get(Obj(r.value), p) == Get(c.obj, p)
  {
    var active, s := Active(list), Departures(target, status, list);
    var claims := ContestedPaths(Rendered(active));
    TurnsAddOneEach(s, active, claims, 0);
    TurnsAreRead(u, s, active, claims, i, p);
    assert Pass(target, status, list, true).target == Turns(s, active, claims, 0).target;
  }

  /**
   * So policy Fail does not stop anyone here: the contributor listed last, of the lowest priority, has the
   * last word on every path it claims unless its own policy is Priority, whoever else claims it.
   */
  lemma {:induction false} LastWithoutPriorityWins(u: set<Path>, target: Target, status: Status, list: seq<Listed>, p: Path)
    requires Pass(target, status, list, true).verdict.Completed? && Departures(target, status, list).target.Some?
    requires Active(list) != []
    requires var last := Active(list)[|Active(list)| - 1];
      && last.obj.fault.Clean? && !last.obj.policy.Priority? && last.obj.rendered.Some?
      && Territory(u) && (forall q | q in last.obj.rendered.value.paths :: q in u)
      && p in last.obj.rendered.value.paths
    ensures var r, last := Pass(target, status, list, true).target, Active(list)[|Active(list)| - 1];
      r.Some? && Get(Obj(r.value), p).Some? && Get(Obj(r.value), p) == Get(last.obj.rendered.value.obj, p)
  {
    ReferenceCount(target, status, list, true);
    LastClaimantWins(u, target, status, list, |Active(list)| - 1, p);
  }
}
