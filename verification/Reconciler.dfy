/** The tracker's pass as it runs: the lists it builds, the writes it makes, and where it stops. */
module Reconciler {
  import opened Json
  import opened FieldPath
  import PathText
  import opened ClientSideApply
  import opened Trackers
  import opened Conflicts
  import opened TrackerPass
  import Runs = ApplyRuns

  method ParsePaths(texts: seq<string>) returns (r: PathText.Result<seq<Path>>)
    ensures r == Runs.ParsePaths(texts)
  {
    var out: seq<Path> := [];
    assert texts[0..] == texts;
    assert Runs.ParsePaths(texts).Ok? ==> out + Runs.ParsePaths(texts).value == Runs.ParsePaths(texts).value;
    for i := 0 to |texts|
      invariant Runs.ParsePaths(texts) == (
        match Runs.ParsePaths(texts[i..])
        case Err(e) => PathText.Err(e)
        case Ok(rest) => PathText.Ok(out + rest))
    {
      assert texts[i..][0] == texts[i] && texts[i..][1..] == texts[i + 1..];
      var p := PathText.ParseLoop(texts[i]);
      if p.Err? { return PathText.Err(p.error); }
      ghost var rest := Runs.ParsePaths(texts[i + 1..]);
      assert rest.Ok? ==> out + ([p.value] + rest.value) == out + [p.value] + rest.value;
      out := out + [p.value];
    }
    assert out + [] == out;
    r := PathText.Ok(out);
  }

  method SplitReleasing(list: seq<Listed>) returns (releasing: seq<Listed>, active: seq<Listed>)
    ensures releasing == Leaving(list) && active == Active(list)
  {
    releasing, active := [], [];
    for i := 0 to |list|
      invariant releasing + Leaving(list[i..]) == Leaving(list)
      invariant active + Active(list[i..]) == Active(list)
    {
      assert list[i..][0] == list[i] && list[i..][1..] == list[i + 1..];
      if list[i].obj.deleting {
        releasing := releasing + [list[i]];
        continue;
      }
      active := active + [list[i]];
    }
  }

  /** Also names a contributor it loses to. */
  method IsSupersededOn(active: seq<Listed>, i: nat, claims: map<string, seq<nat>>) returns (loses: bool, holder: nat)
    requires i < |active|
    ensures loses == Yields(active, claims, i)
    ensures loses ==> holder < |active| && active[holder].status.priority > active[i].status.priority
    ensures loses ==> exists text :: text in claims && holder in claims[text]
  {
    holder := 0;
    if !active[i].obj.policy.Priority? { return false, holder; }
    var me := -1;
    ghost var refs := Refs(active);
    for k := 0 to |active|
      invariant me == -1
      invariant forall j | 0 <= j < k :: !SameContributor(active[j].status.ref, active[i].status.ref)
    {
      if SameContributor(active[k].status.ref, active[i].status.ref) {
        me := k;
        assert refs[k] == active[k].status && Find(refs, active[i].status.ref) == k;
        break;
      }
      assert refs[k] == active[k].status;
    }
    assert me == Find(Refs(active), active[i].status.ref);
    if me < 0 { return false, holder; }
    var todo := claims.Keys;
    while todo != {}
      invariant todo <= claims.Keys
      invariant forall text | text in claims.Keys - todo ::
        !(me in claims[text] && Outranked(active, claims[text], me, active[i].status.priority))
      decreases |todo|
    {
      var path :| path in todo;
      todo := todo - {path};
      var claimants := claims[path];
      if me !in claimants { continue; }
      for k := 0 to |claimants|
        invariant forall n | 0 <= n < k ::
          !(claimants[n] != me && claimants[n] < |active| && active[claimants[n]].status.priority > active[i].status.priority)
      {
        var other := claimants[k];
        if other == me { continue; }
        if other < |active| && active[other].status.priority > active[i].status.priority {
          return true, other;
        }
      }
    }
    loses := false;
  }

  class TrackerReconciler {
    const applier: Applier
    var status: Status
    var records: seq<Record>
    var missing: bool
    var conflicted: bool
    var verdict: Verdict

    constructor (a: Applier, stored: Status)
      ensures applier == a && State() == Start(a.stored, stored)
    {
      applier := a;
      status, records, missing, conflicted, verdict := stored, [], false, false, Running;
    }

    function State(): PassState
      reads this, applier
    {
      PassState(applier.stored, status, records, missing, conflicted, verdict)
    }

    method WriteStatus(computed: Status, list: Option<seq<Record>>)
      modifies this
      ensures State() == old(State()).(status := Trackers.WriteStatus(old(status), computed, list))
    {
      var draft := new StatusDraft(status);
      draft.Write(computed, list);
      status := draft.status;
    }

    method ReleaseContributor(c: Listed) returns (ok: bool)
      modifies applier
      ensures ok == Releases(c)
      ensures applier.stored == if ok then Released(old(applier.stored), c) else old(applier.stored)
    {
      if c.obj.onRelease.Orphaned? { return true; }
      if c.obj.fault.NoIdentity? { return false; }
      var paths := ParsePaths(c.status.ownedPaths);
      if paths.Err? || c.obj.fault.BadPriors? { return false; }
      if c.obj.fault.Contention? || c.obj.fault.Refused? { return false; }
      applier.Revert(paths.value, Known(c.status));
      ok := true;
    }

    method MaybeDeleteTarget(leaving: seq<Listed>)
      modifies applier
      ensures applier.stored == if WantsDelete(status, leaving) then None else old(applier.stored)
    {
      if !status.createdByOperator || status.creator.None? { return; }
      var wants := false;
      for i := 0 to |leaving|
        invariant !wants
        invariant forall k | 0 <= k < i ::
          !(leaving[k].obj.onRelease.Deleted? && SameContributor(leaving[k].status.ref, status.creator.value))
      {
        if !leaving[i].obj.onRelease.Deleted? { continue; }
        if SameContributor(leaving[i].status.ref, status.creator.value) {
          wants := true;
          break;
        }
      }
      if !wants { return; }
      applier.stored := None;
    }

    method Record(r: Trackers.Record)
      modifies this
      ensures State() == Noted(old(State()), r)
    {
      records := records + [r];
    }

    method Settle(c: Listed, contribution: Contribution, result: ApplyResult)
      requires result.Applied? && result.captured && result.ownedPaths == contribution.paths
      modifies this
      ensures State() == Settled(old(State()), c, contribution, result.created, result.priors)
    {
      if result.created && status.creator.None? {
        if c.obj.fault.Unsaved? {
          verdict := Broken;
          return;
        }
        var draft := new StatusDraft(status);
        draft.Provenance(c.status.ref, if c.obj.base.Some? then c.obj.baseHash else "");
        status := draft.status;
      }
      var rec := c.status;
      rec := rec.(state := "Applied", lastAppliedHash := c.obj.hash, ownedPaths := Texts(result.ownedPaths));
      if result.captured {
        rec := rec.(priors := Encoded(result.priors), captured := true);
      }
      Record(rec);
    }

    method ApplyContribution(c: Listed, contribution: Contribution, previous: seq<Path>)
      requires contribution.obj.Obj? && previous == Runs.Previous(Book(c.status))
      modifies this, applier
      ensures State() == ApplyTo(old(State()), c, contribution)
    {
      var rec := c.status;
      var reaches := applier.stored.Some? || c.obj.allowCreate;
      if reaches && c.obj.fault.Contention? {
        verdict := Requeued;
        return;
      }
      if reaches && c.obj.fault.Refused? {
        WriteStatus(status, None);
        verdict := Broken;
        return;
      }
      var result := applier.Apply(contribution, c.obj.base, c.obj.allowCreate, previous, Known(rec), rec.captured);
      if result.NotApplied? && result.error.NotFound? {
        missing := true;
        Record(rec.(state := ""));
        return;
      }
      if result.NotApplied? {
        WriteStatus(status, None);
        verdict := Broken;
        return;
      }
      Settle(c, contribution, result);
    }

    method ApplyOne(c: Listed, contribution: Contribution, loses: bool)
      requires contribution.obj.Obj?
      modifies this, applier
      ensures State() == Turn(old(State()), c, contribution, loses)
    {
      var rec := c.status;
      if c.obj.fault.NoIdentity? {
        Record(rec.(state := "Conflicted"));
        return;
      }
      if loses {
        conflicted := true;
        Record(rec.(state := "Superseded"));
        return;
      }
      var parsed := ParsePaths(rec.ownedPaths);
      var previous := if parsed.Ok? then parsed.value else [];
      if c.obj.fault.BadPriors? {
        verdict := Broken;
        return;
      }
      if c.obj.fault.BadBase? {
        Record(rec.(state := "Conflicted"));
        return;
      }
      ApplyContribution(c, contribution, previous);
    }

    method ReconcileContributions(list: seq<Listed>, saves: bool)
      requires State() == Start(applier.stored, status)
      modifies this, applier
      ensures State() == Pass(old(applier.stored), old(status), list, saves)
    {
      var leaving, active := SplitReleasing(list);
      ghost var target := applier.stored;
      for i := 0 to |leaving|
        modifies this, applier
        invariant State() == Start(applier.stored, old(status))
        invariant ReleaseAll(applier.stored, leaving[i..]) == ReleaseAll(target, leaving)
      {
        assert leaving[i..][0] == leaving[i] && leaving[i..][1..] == leaving[i + 1..];
        var ok := ReleaseContributor(leaving[i]);
        if !ok {
          verdict := Broken;
          return;
        }
      }
      if active == [] && leaving != [] {
        MaybeDeleteTarget(leaving);
      }
      assert State() == Departures(target, status, list);
      if !AllRender(active) {
        if saves {
          WriteStatus(status.(phase := Waiting), Some([]));
          verdict := Unrendered;
        } else {
          verdict := Broken;
        }
        return;
      }
      var claims := DetectPathConflicts(Rendered(active));
      ghost var before := State();
      for i := 0 to |active|
        invariant verdict.Running?
        invariant Turns(State(), active, claims, i) == Turns(before, active, claims, 0)
      {
        var loses, _ := IsSupersededOn(active, i, claims);
        ApplyOne(active[i], active[i].obj.rendered.value, loses);
        if !verdict.Running? { return; }
      }
      if !saves {
        verdict := Broken;
        return;
      }
      var phase := Phase.Applied;
      if missing {
        phase := Waiting;
      } else if conflicted {
        phase := Phase.Conflicted;
      }
      WriteStatus(status.(phase := phase), Some(records));
      verdict := Completed;
    }
  }
}
