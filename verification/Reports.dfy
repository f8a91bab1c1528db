/** What a pass puts on record: each contributor's state, the phase, and what it may not touch. */
module Reports {
  import opened Json
  import opened ClientSideApply
  import opened Trackers
  import opened Conflicts
  import opened TrackerPass
  import opened PassLaws
  import Runs = ApplyRuns

  /** Whoever is stuck keeps a leaving contributor's release, and with it the pass, from going through. */
  predicate Stuck(c: Listed)
  {
    && c.obj.deleting && !c.obj.onRelease.Orphaned?
    && (|| Runs.ParsePaths(c.status.ownedPaths).Err?
        || c.obj.fault.NoIdentity? || c.obj.fault.BadPriors? || c.obj.fault.Contention? || c.obj.fault.Refused?)
  }

  lemma {:induction false} ReleasesExactly(target: Target, leaving: seq<Listed>)
    requires forall i | 0 <= i < |leaving| :: leaving[i].obj.deleting
    ensures ReleaseAll(target, leaving).1 <==> forall c | c in leaving :: !Stuck(c)
    decreases |leaving|
  {
    if leaving != [] {
      var rest := leaving[1..];
      assert leaving == [leaving[0]] + rest && leaving[0] in leaving && leaving[0].obj.deleting;
      assert forall i | 0 <= i < |rest| :: rest[i] == leaving[i + 1];
      if Releases(leaving[0]) { ReleasesExactly(Released(target, leaving[0]), rest); }
    }
  }

  /** One contributor that cannot be released stops the pass before anyone applies: nothing is stored, as long as that lasts. */
  lemma {:induction false} StuckPassStoresNothing(target: Target, status: Status, list: seq<Listed>, saves: bool)
    ensures var s := Departures(target, status, list);
      && ((exists c :: c in list && Stuck(c)) <==> s.verdict.Broken?)
      && (s.verdict.Broken? ==> Pass(target, status, list, saves).verdict.Broken? && Pass(target, status, list, saves).status == status)
  {
    var leaving := Leaving(list);
    forall c ensures c in leaving <==> c in list && c.obj.deleting { LeavingMembers(list, c); }
    assert forall i | 0 <= i < |leaving| :: leaving[i] in leaving;
    ReleasesExactly(target, leaving);
  }

  // ---- States and phase ----

  /** Nobody before number k has made the target, and it was not there at first. */
  predicate StillMissing(had: bool, records: seq<Record>, k: nat)
    requires k <= |records|
  {
    !had && forall j | 0 <= j < k :: records[j].state != "Applied"
  }

  /** What is on record of a contributor after its turn. */
  predicate Reported(r: Record, c: Listed, loses: bool, missing: bool)
  {
    var fault := c.obj.fault;
    && (r.state == "Superseded" <==> loses && !fault.NoIdentity?)
    && (r.state == "Conflicted" <==> fault.NoIdentity? || (!loses && fault.BadBase?))
    && (r.state == "" <==> !loses && !fault.NoIdentity? && !fault.BadBase? && missing && !c.obj.allowCreate)
    && r.state in {"Superseded", "Conflicted", "", "Applied"}
    && (r.state == "Applied" ==>
          && c.obj.rendered.Some? && r.ownedPaths == Texts(c.obj.rendered.value.paths)
          && r.lastAppliedHash == c.obj.hash && r.captured && r.fieldManager == c.status.fieldManager)
    && (r.state != "Applied" ==> r == c.status.(state := r.state))
  }

  ghost predicate ReportsOne(s: PassState, t: PassState, c: Listed, loses: bool)
  {
    && t.records != [] && t.records == s.records + [t.records[|t.records| - 1]]
    && var r := t.records[|t.records| - 1];
      && Reported(r, c, loses, s.target.None?)
      && t.missing == (s.missing || r.state == "") && t.conflicted == (s.conflicted || r.state == "Superseded")
      && t.target.Some? == (s.target.Some? || r.state == "Applied")
  }

  lemma {:induction false} NotedReports(s: PassState, t: PassState, r: Record, c: Listed, loses: bool)
    requires t.records == s.records && Reported(r, c, loses, s.target.None?)
    requires t.missing == (s.missing || r.state == "") && t.conflicted == (s.conflicted || r.state == "Superseded")
    requires t.target.Some? == (s.target.Some? || r.state == "Applied")
    ensures ReportsOne(s, Noted(t, r), c, loses)
  {}

  lemma {:induction false} AppliedIsReported(c: Listed, contribution: Contribution, priors: Priors, missing: bool)
    requires c.obj.rendered == Some(contribution) && !c.obj.fault.NoIdentity? && !c.obj.fault.BadBase?
    requires missing ==> c.obj.allowCreate
    ensures Reported(AppliedRecord(c.status, c.obj, contribution, priors), c, false, missing)
  {}

  lemma {:induction false} SettledReports(s: PassState, t: PassState, c: Listed, contribution: Contribution, created: bool, priors: Priors)
    requires t.records == s.records && t.missing == s.missing && t.conflicted == s.conflicted && t.target.Some?
    requires c.obj.rendered == Some(contribution) && !c.obj.fault.NoIdentity? && !c.obj.fault.BadBase?
    requires s.target.None? ==> c.obj.allowCreate
    requires t.verdict.Running? && Settled(t, c, contribution, created, priors).verdict.Running?
    ensures ReportsOne(s, Settled(t, c, contribution, created, priors), c, false)
  {
    var r := AppliedRecord(c.status, c.obj, contribution, priors);
    AppliedIsReported(c, contribution, priors, s.target.None?);
    var hash := if c.obj.base.Some? then c.obj.baseHash else "";
    NotedReports(s, t, r, c, false);
    NotedReports(s, t.(status := RecordProvenance(t.status, c.status.ref, hash)), r, c, false);
  }

  lemma {:induction false} AppliedReports(s: PassState, c: Listed)
    requires c.obj.rendered.Some? && c.obj.rendered.value.obj.Obj? && s.verdict.Running?
    requires ApplyTo(s, c, c.obj.rendered.value).verdict.Running? && !c.obj.fault.NoIdentity? && !c.obj.fault.BadBase?
    ensures ReportsOne(s, ApplyTo(s, c, c.obj.rendered.value), c, false)
  {
    var contribution := c.obj.rendered.value;
    if s.target.None? && !c.obj.allowCreate {
      NotedReports(s, s.(missing := true), c.status.(state := ""), c, false);
    } else if s.target.None? {
      SettledReports(s, s.(target := Seeded(contribution, c.obj.base)), c, contribution, true, map[]);
    } else {
      var x := Update(Obj(s.target.value), contribution, Runs.Previous(Book(c.status)), Known(c.status), c.status.captured).value;
      SettledReports(s, s.(target := Some(Fields(x.doc))), c, contribution, false, x.priors);
    }
  }

  lemma {:induction false} TurnReports(s: PassState, c: Listed, loses: bool)
    requires c.obj.rendered.Some? && c.obj.rendered.value.obj.Obj? && s.verdict.Running?
    requires Turn(s, c, c.obj.rendered.value, loses).verdict.Running?
    ensures ReportsOne(s, Turn(s, c, c.obj.rendered.value, loses), c, loses)
  {
    if c.obj.fault.NoIdentity? || (!loses && c.obj.fault.BadBase?) {
      NotedReports(s, s, c.status.(state := "Conflicted"), c, loses);
    } else if loses {
      NotedReports(s, s.(conflicted := true), c.status.(state := "Superseded"), c, loses);
    } else {
      AppliedReports(s, c);
    }
  }

  predicate Any(records: seq<Record>, state: string)
  {
    exists k :: 0 <= k < |records| && records[k].state == state
  }

  lemma {:induction false} AnyOrLast(a: seq<Record>, r: Record, state: string)
    ensures Any(a + [r], state) <==> Any(a, state) || r.state == state
  {
    var b := a + [r];
    if k :| 0 <= k < |a| && a[k].state == state { assert b[k].state == state; }
    if r.state == state { assert b[|a|].state == state; }
  }

  lemma {:induction false} MissingOn(had: bool, a: seq<Record>, r: Record, k: nat)
    requires k <= |a|
    ensures StillMissing(had, a + [r], k) <==> StillMissing(had, a, k)
    ensures StillMissing(had, a + [r], |a| + 1) <==> StillMissing(had, a, |a|) && r.state != "Applied"
  {
    var b := a + [r];
    assert forall j | 0 <= j < |a| :: b[j] == a[j];
    if StillMissing(had, b, |a| + 1) { assert b[|a|].state != "Applied"; }
  }

  predicate ReportedAt(records: seq<Record>, had: bool, active: seq<Listed>, claims: map<string, seq<nat>>, k: nat)
    requires k < |records| <= |active|
  {
    Reported(records[k], active[k], Yields(active, claims, k), StillMissing(had, records, k))
  }

  ghost predicate AllReported(records: seq<Record>, had: bool, active: seq<Listed>, claims: map<string, seq<nat>>)
  {
    |records| <= |active| && forall k | 0 <= k < |records| :: ReportedAt(records, had, active, claims, k)
  }

  lemma {:induction false} StillReported(records: seq<Record>, r: Record, had: bool, active: seq<Listed>, claims: map<string, seq<nat>>, k: nat)
    requires k < |records| < |active| && ReportedAt(records, had, active, claims, k)
    ensures ReportedAt(records + [r], had, active, claims, k)
  {
    assert (records + [r])[k] == records[k];
    MissingOn(had, records, r, k);
  }

  lemma {:induction false} JustReported(records: seq<Record>, r: Record, had: bool, active: seq<Listed>, claims: map<string, seq<nat>>)
    requires |records| < |active|
    requires Reported(r, active[|records|], Yields(active, claims, |records|), StillMissing(had, records, |records|))
    ensures ReportedAt(records + [r], had, active, claims, |records|)
  {
    assert (records + [r])[|records|] == r;
    MissingOn(had, records, r, |records|);
  }

  lemma {:induction false} OneMoreReported(records: seq<Record>, r: Record, had: bool, active: seq<Listed>, claims: map<string, seq<nat>>)
    requires AllReported(records, had, active, claims) && |records| < |active|
    requires Reported(r, active[|records|], Yields(active, claims, |records|), StillMissing(had, records, |records|))
    ensures AllReported(records + [r], had, active, claims)
  {
    JustReported(records, r, had, active, claims);
    forall k | 0 <= k < |records| ensures ReportedAt(records + [r], had, active, claims, k) {
      StillReported(records, r, had, active, claims, k);
    }
  }

  /** The records so far, and what the pass has noticed, agree. */
  ghost predicate SoFar(s: PassState, had: bool, active: seq<Listed>, claims: map<string, seq<nat>>)
  {
    && AllReported(s.records, had, active, claims)
    && s.missing == Any(s.records, "") && s.conflicted == Any(s.records, "Superseded")
    && (s.target.None? <==> StillMissing(had, s.records, |s.records|))
  }

  lemma {:induction false} OneMore(s: PassState, t: PassState, had: bool, active: seq<Listed>, claims: map<string, seq<nat>>)
    requires SoFar(s, had, active, claims) && |s.records| < |active|
    requires ReportsOne(s, t, active[|s.records|], Yields(active, claims, |s.records|))
    ensures SoFar(t, had, active, claims) && |t.records| == |s.records| + 1
  {
    var r := t.records[|t.records| - 1];
    OneMoreReported(s.records, r, had, active, claims);
    AnyOrLast(s.records, r, "");
    AnyOrLast(s.records, r, "Superseded");
    MissingOn(had, s.records, r, |s.records|);
  }

  lemma {:induction false} NextTurn(s: PassState, active: seq<Listed>, claims: map<string, seq<nat>>, i: nat) returns (t: PassState)
    requires AllRender(active) && i < |active| && s.verdict.Running? && Turns(s, active, claims, i).verdict.Running?
    ensures t.verdict.Running? && Turns(s, active, claims, i) == Turns(t, active, claims, i + 1)
    ensures ReportsOne(s, t, active[i], Yields(active, claims, i))
  {
    t := Turn(s, active[i], active[i].obj.rendered.value, Yields(active, claims, i));
    StillGoing(t, active, claims, i + 1);
    TurnReports(s, active[i], Yields(active, claims, i));
  }

  lemma {:induction false} StillGoing(t: PassState, active: seq<Listed>, claims: map<string, seq<nat>>, i: nat)
    requires AllRender(active) && i <= |active| && Turns(t, active, claims, i).verdict.Running?
    ensures t.verdict.Running?
  {}

  lemma {:induction false} NextReports(s: PassState, had: bool, active: seq<Listed>, claims: map<string, seq<nat>>, i: nat) returns (t: PassState)
    requires AllRender(active) && SoFar(s, had, active, claims) && |s.records| == i < |active|
    requires s.verdict.Running? && Turns(s, active, claims, i).verdict.Running?
    ensures SoFar(t, had, active, claims) && |t.records| == i + 1 && t.verdict.Running?
    ensures Turns(s, active, claims, i) == Turns(t, active, claims, i + 1)
  {
    t := NextTurn(s, active, claims, i);
    OneMore(s, t, had, active, claims);
  }

  lemma {:induction false} TurnsReport(s: PassState, had: bool, active: seq<Listed>, claims: map<string, seq<nat>>, i: nat)
    requires AllRender(active) && SoFar(s, had, active, claims) && |s.records| == i
    requires s.verdict.Running? && Turns(s, active, claims, i).verdict.Running?
    ensures var t := Turns(s, active, claims, i); SoFar(t, had, active, claims) && |t.records| == |active|
    decreases |active| - i
  {
    if i < |active| {
      var t := NextReports(s, had, active, claims, i);
      TurnsReport(t, had, active, claims, i + 1);
    }
  }

  /**
   * A completed pass says of everyone who stays whether it applied, gave way, was prevented, or found no target it
   * might make; what did not apply keeps its bookkeeping. The phase is Waiting if anyone found no target, else
   * Conflicted if anyone gave way, else Applied; and the target is there if it was before or somebody applied.
   */
  lemma {:induction false} PassReports(target: Target, status: Status, list: seq<Listed>)
    requires Pass(target, status, list, true).verdict.Completed? && AllRender(Active(list))
    ensures var p, active := Pass(target, status, list, true), Active(list);
      var records, had := p.status.contributors, Departures(target, status, list).target.Some?;
      && |records| == |active| && AllReported(records, had, active, ContestedPaths(Rendered(active)))
      && p.status.phase == (if Any(records, "") then Waiting else if Any(records, "Superseded") then Phase.Conflicted else Phase.Applied)
      && (p.target.Some? <==> had || Any(records, "Applied"))
  {
    var active, s := Active(list), Departures(target, status, list);
    var claims, had := ContestedPaths(Rendered(active)), s.target.Some?;
    assert SoFar(s, had, active, claims);
    TurnsAddOneEach(s, active, claims, 0);
    TurnsReport(s, had, active, claims, 0);
    MissingExactly(had, Turns(s, active, claims, 0).records);
  }

  lemma {:induction false} MissingExactly(had: bool, records: seq<Record>)
    ensures StillMissing(had, records, |records|) <==> !had && !Any(records, "Applied")
  {}

  /** Any other pass leaves the stored list's phase alone, but for one that a patch stops, which waits with an empty list. */
  lemma {:induction false} StoppedPassReports(target: Target, status: Status, list: seq<Listed>, saves: bool)
    requires !Pass(target, status, list, saves).verdict.Completed?
    ensures var p := Pass(target, status, list, saves);
      && p.status.phase == (if p.verdict.Unrendered? then Waiting else status.phase)
      && (p.verdict.Unrendered? ==> saves && p.target == Departures(target, status, list).target && p.status.contributors == [])
  {
    var active, s := Active(list), Departures(target, status, list);
    if s.verdict.Running? && AllRender(active) { TurnsKeepPhase(s, active, ContestedPaths(Rendered(active)), 0); }
  }

  lemma {:induction false} TurnsKeepPhase(s: PassState, active: seq<Listed>, claims: map<string, seq<nat>>, i: nat)
    requires AllRender(active) && i <= |active|
    ensures var t := Turns(s, active, claims, i);
      && t.status.phase == s.status.phase
      && (!s.verdict.Unrendered? ==> !t.verdict.Unrendered?) && (!s.verdict.Completed? ==> !t.verdict.Completed?)
    decreases |active| - i
  {
    if i < |active| && s.verdict.Running? {
      var c, contribution, loses := active[i], active[i].obj.rendered.value, Yields(active, claims, i);
      TurnKeepsPhase(s, c, contribution, loses);
      TurnsKeepPhase(Turn(s, c, contribution, loses), active, claims, i + 1);
    }
  }

  lemma {:induction false} TurnKeepsPhase(s: PassState, c: Listed, contribution: Contribution, loses: bool)
    requires contribution.obj.Obj? && s.verdict.Running?
    ensures var t := Turn(s, c, contribution, loses);
      t.status.phase == s.status.phase && !t.verdict.Unrendered? && !t.verdict.Completed?
  {}
}
