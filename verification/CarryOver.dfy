/**
 * What a pass does to the paths on record: which its list carries over, priors included, and which it does
 * not. It is what promotion asks of passes.
 */
module CarryOver {
  import opened Json
  import opened FieldPath
  import opened PathText
  import opened ClientSideApply
  import opened Trackers
  import opened Adoption
  import opened Conflicts
  import opened TrackerPass
  import opened Listing
  import opened PassLaws
  import opened PassRuns
  import opened Succession
  import Lifecycle
  import Runs = ApplyRuns

  /**
   * The record after a turn: it owns what the contribution claims if the turn wrote it, and what it did
   * otherwise; and a record that was captured has for each path it owns the prior it had, or none if the
   * turn made the target.
   */
  predicate Accounts(before: Record, after: Record, contribution: Contribution, wrote: bool, made: bool)
  {
    && after.ref == before.ref
    && after.ownedPaths == (if wrote then Texts(contribution.paths) else before.ownedPaths)
    && (before.captured ==>
          && after.captured
          && forall text | text in after.ownedPaths :: PriorOf(after, text) == if made then None else PriorOf(before, text))
  }

  lemma {:induction false} ClaimedPriorsStay(doc: Json, previous: seq<Path>, claimed: set<string>, priors: Priors, text: string)
    requires text in claimed
    ensures var w := Withdraw(doc, previous, claimed, priors);
      (text in w.priors <==> text in priors) && (text in priors ==> w.priors[text] == priors[text])
    decreases |previous|
  {
    if previous != [] {
      var p := previous[0];
      if Print(p) in claimed {
        ClaimedPriorsStay(doc, previous[1..], claimed, priors, text);
      } else {
        ClaimedPriorsStay(RestoreOrDelete(doc, p, priors), previous[1..], claimed, priors - {Print(p)}, text);
      }
    }
  }

  lemma {:induction false} AppliedAccounts(doc: Json, c: Listed, contribution: Contribution)
    requires Update(doc, contribution, Runs.Previous(Book(c.status)), Known(c.status), c.status.captured).Some?
    ensures var w := Update(doc, contribution, Runs.Previous(Book(c.status)), Known(c.status), c.status.captured).value;
      Accounts(c.status, AppliedRecord(c.status, c.obj, contribution, w.priors), contribution, true, false)
  {
    var w := Update(doc, contribution, Runs.Previous(Book(c.status)), Known(c.status), c.status.captured).value;
    var r := AppliedRecord(c.status, c.obj, contribution, w.priors);
    if c.status.captured {
      forall text | text in r.ownedPaths ensures PriorOf(r, text) == PriorOf(c.status, text) {
        var claimed := set t | t in Texts(contribution.paths);
        ClaimedPriorsStay(doc, Runs.Previous(Book(c.status)), claimed, Known(c.status), text);
      }
    }
  }

  /** A turn that goes on adds a record that accounts for the contributor's. */
  lemma {:induction false} TurnAccounts(s: PassState, c: Listed, contribution: Contribution, loses: bool)
    requires contribution.obj.Obj? && s.verdict.Running? && Turn(s, c, contribution, loses).verdict.Running?
    ensures var t, wrote := Turn(s, c, contribution, loses), Lifecycle.Touches(s, c, contribution, loses);
      && |t.records| == |s.records| + 1 && t.records[..|s.records|] == s.records
      && Accounts(c.status, t.records[|s.records|], contribution, wrote, wrote && s.target.None?)
  {
    if s.target.Some? && Writes(s, c, contribution, loses) {
      AppliedAccounts(Obj(s.target.value), c, contribution);
      WrittenRecord(s, c, contribution);
    } else if Lifecycle.Touches(s, c, contribution, loses) {
      MadeRecord(s, c, contribution);
    } else {
      IdleRecord(s, c, contribution, loses);
    }
  }

  lemma {:induction false} IdleRecord(s: PassState, c: Listed, contribution: Contribution, loses: bool)
    requires contribution.obj.Obj? && s.verdict.Running? && !Lifecycle.Touches(s, c, contribution, loses)
    requires Turn(s, c, contribution, loses).verdict.Running?
    ensures exists state :: Turn(s, c, contribution, loses).records == s.records + [c.status.(state := state)]
  {
    var t := Turn(s, c, contribution, loses);
    var state := if c.obj.fault.NoIdentity? then "Conflicted" else if loses then "Superseded" else if c.obj.fault.BadBase? then "Conflicted" else "";
    assert t.records == s.records + [c.status.(state := state)];
  }

  lemma {:induction false} WrittenRecord(s: PassState, c: Listed, contribution: Contribution)
    requires contribution.obj.Obj? && s.verdict.Running? && Writes(s, c, contribution, false)
    ensures var w := Update(Obj(s.target.value), contribution, Runs.Previous(Book(c.status)), Known(c.status), c.status.captured).value;
      ApplyTo(s, c, contribution).records == s.records + [AppliedRecord(c.status, c.obj, contribution, w.priors)]
  {}

  lemma {:induction false} MadeRecord(s: PassState, c: Listed, contribution: Contribution)
    requires contribution.obj.Obj? && s.verdict.Running? && s.target.None? && Lifecycle.Touches(s, c, contribution, false)
    requires ApplyTo(s, c, contribution).verdict.Running?
    ensures ApplyTo(s, c, contribution).records == s.records + [AppliedRecord(c.status, c.obj, contribution, map[])]
  {}

  /** The state in which turn number n begins, turn number i beginning in s. */
  function StateAt(s: PassState, active: seq<Listed>, claims: map<string, seq<nat>>, i: nat, n: nat): PassState
    requires AllRender(active) && i <= n <= |active|
    decreases n - i
  {
    if i == n then s
    else StateAt(Turn(s, active[i], active[i].obj.rendered.value, Yields(active, claims, i)), active, claims, i + 1, n)
  }

  /** Turn number n writes the contributor's claims, in a pass that goes on so far. */
  predicate WroteAt(s: PassState, active: seq<Listed>, claims: map<string, seq<nat>>, n: nat)
    requires AllRender(active) && n < |active|
  {
    Lifecycle.Touches(StateAt(s, active, claims, 0, n), active[n], active[n].obj.rendered.value, Yields(active, claims, n))
  }

  lemma {:induction false} RecordsStay(s: PassState, active: seq<Listed>, claims: map<string, seq<nat>>, i: nat)
    requires AllRender(active) && i <= |active| && s.verdict.Running? && Turns(s, active, claims, i).verdict.Running?
    ensures var t := Turns(s, active, claims, i); |t.records| >= |s.records| && t.records[..|s.records|] == s.records
    decreases |active| - i
  {
    if i < |active| {
      var contribution, loses := active[i].obj.rendered.value, Yields(active, claims, i);
      var next := Turn(s, active[i], contribution, loses);
      assert next.verdict.Running?;
      TurnAccounts(s, active[i], contribution, loses);
      RecordsStay(next, active, claims, i + 1);
      var t := Turns(s, active, claims, i);
      assert t.records[..|s.records|] == t.records[..|next.records|][..|s.records|];
    }
  }

  lemma {:induction false} TurnsAccount(s: PassState, active: seq<Listed>, claims: map<string, seq<nat>>, i: nat, n: nat)
    requires AllRender(active) && i <= n < |active| && s.verdict.Running? && |s.records| == i
    requires Turns(s, active, claims, i).verdict.Running?
    ensures var t, at, contribution := Turns(s, active, claims, i), StateAt(s, active, claims, i, n), active[n].obj.rendered.value;
      var wrote := Lifecycle.Touches(at, active[n], contribution, Yields(active, claims, n));
      && (s.target.Some? ==> at.target.Some?)
      && n < |t.records| && Accounts(active[n].status, t.records[n], contribution, wrote, wrote && at.target.None?)
    decreases n - i
  {
    var contribution, loses := active[i].obj.rendered.value, Yields(active, claims, i);
    var next := Turn(s, active[i], contribution, loses);
    assert next.verdict.Running?;
    TurnAccounts(s, active[i], contribution, loses);
    if i == n {
      RecordsStay(next, active, claims, i + 1);
      var t := Turns(s, active, claims, i);
      assert t.records[n] == t.records[..|next.records|][n];
    } else {
      TurnCreates(s, active[i], contribution, loses);
      TurnsAccount(next, active, claims, i + 1, n);
    }
  }

  /**
   * A completed pass over a list that carries records forward, seen at one path a contributor that stays has
   * on record: its list carries the path, prior included, if and only if the contributor still owns it and
   * its turn has not made the target again, which forgets a prior. Over a target that is there, all that it
   * still owns is carried. It still owns what it last wrote.
   */
  lemma {:induction false} PassCarriesExactly(target: Target, status: Status, list: seq<Listed>, saves: bool, n: nat, text: string)
    requires n < |Active(list)| && AllRender(Active(list)) && Identified(status.contributors) && Identified(Refs(Active(list)))
    requires var c := Active(list)[n]; c.status == RecordFor(c.obj, status)
    requires Pass(target, status, list, saves).verdict.Completed?
    requires Kept(status.contributors, Holding(Active(list)[n].status.ref.uid, text)).Some?
    ensures var active, s, c, h := Active(list), Departures(target, status, list), Active(list)[n], Holding(Active(list)[n].status.ref.uid, text);
      var claims, was, records := ContestedPaths(Rendered(active)), status.contributors, Pass(target, status, list, saves).status.contributors;
      && n < |records|
      && records[n].ownedPaths == (if WroteAt(s, active, claims, n) then Texts(c.obj.rendered.value.paths) else c.status.ownedPaths)
      && (Carries(was, records, h) <==>
            text in records[n].ownedPaths
            && !(Kept(was, h).value.Some? && WroteAt(s, active, claims, n) && StateAt(s, active, claims, 0, n).target.None?))
      && (s.target.Some? ==> StateAt(s, active, claims, 0, n).target.Some?)
  {
    var active, s := Active(list), Departures(target, status, list);
    var c, uid := active[n], active[n].status.ref.uid;
    var claims, records := ContestedPaths(Rendered(active)), Pass(target, status, list, saves).status.contributors;
    TurnsAddOneEach(s, active, claims, 0);
    TurnsAccount(s, active, claims, 0, n);
    assert Identified(records) by {
      forall i | 0 <= i < |records| ensures records[i].ref == Refs(active)[i].ref { assert SameEntry(records[i], active[i].status); }
    }
    assert Refs(active)[n] == c.status;
    EntryIsFound(records, n);
    CarriedEntry(status, c, text);
  }

  /** The listed record has what the tracker's own record of the contributor has. */
  lemma {:induction false} CarriedEntry(status: Status, c: Listed, text: string)
    requires Identified(status.contributors) && c.status == RecordFor(c.obj, status)
    requires Kept(status.contributors, Holding(c.status.ref.uid, text)).Some?
    ensures c.status.captured && text in c.status.ownedPaths
    ensures Kept(status.contributors, Holding(c.status.ref.uid, text)) == Some(PriorOf(c.status, text))
  {
    var uid := c.status.ref.uid;
    EntryIsKnown(status.contributors, uid);
    var i :| 0 <= i < |status.contributors| && status.contributors[i].ref.uid == uid
             && Entry(status.contributors, uid) == Some(status.contributors[i]);
    FindAt(status.contributors, i, c.obj.ref);
  }
}
