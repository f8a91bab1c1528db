/** What a pass keeps: the reference count, the target, the creator, and what contributors wrote. */
module PassLaws {
  import opened Json
  import opened ClientSideApply
  import opened Trackers
  import opened Conflicts
  import opened TrackerPass
  import opened Ordering
  import opened Sorting
  import Runs = ApplyRuns

  // ---- The reference count ----

  /** The record is of the same contributor, and sorts the same. */
  predicate SameEntry(r: Record, s: Record)
  {
    r.ref == s.ref && r.priority == s.priority && r.creation == s.creation && r.generation == s.generation
  }

  predicate OneEach(records: seq<Record>, list: seq<Listed>)
  {
    |records| == |list| && forall i | 0 <= i < |list| :: SameEntry(records[i], list[i].status)
  }

  /** A turn that goes on has added this contributor's record; one that does not leaves the stored list. */
  ghost predicate Counted(s: PassState, t: PassState, c: Listed)
  {
    && t.status.contributors == s.status.contributors
    && (t.verdict.Running? || t.verdict.Requeued? || t.verdict.Broken?)
    && (t.verdict.Running? ==> exists r :: t.records == s.records + [r] && SameEntry(r, c.status))
  }

  lemma {:induction false} NotedCounts(s: PassState, t: PassState, r: Record, c: Listed)
    requires t.status.contributors == s.status.contributors && t.verdict.Running? && t.records == s.records
    requires SameEntry(r, c.status)
    ensures Counted(s, Noted(t, r), c)
  {
    assert Noted(t, r).records == s.records + [r];
  }

  lemma {:induction false} SettledCounts(s: PassState, t: PassState, c: Listed, contribution: Contribution, created: bool, priors: Priors)
    requires t.status == s.status && t.verdict.Running? && t.records == s.records
    ensures Counted(s, Settled(t, c, contribution, created, priors), c)
  {
    var r := AppliedRecord(c.status, c.obj, contribution, priors);
    NotedCounts(s, t, r, c);
    var hash := if c.obj.base.Some? then c.obj.baseHash else "";
    NotedCounts(s, t.(status := RecordProvenance(t.status, c.status.ref, hash)), r, c);
  }

  lemma {:induction false} ApplyCounts(s: PassState, c: Listed, contribution: Contribution)
    requires contribution.obj.Obj? && s.verdict.Running?
    ensures Counted(s, ApplyTo(s, c, contribution), c)
  {
    if s.target.None? && !c.obj.allowCreate {
      NotedCounts(s, s.(missing := true), c.status.(state := ""), c);
    } else if c.obj.fault.Contention? || c.obj.fault.Refused? {
    } else if s.target.None? {
      match Seeded(contribution, c.obj.base)
      case None =>
      case Some(content) => SettledCounts(s, s.(target := Some(content)), c, contribution, true, map[]);
    } else {
      match Update(Obj(s.target.value), contribution, Runs.Previous(Book(c.status)), Known(c.status), c.status.captured)
      case None =>
      case Some(w) => SettledCounts(s, s.(target := Some(Fields(w.doc))), c, contribution, false, w.priors);
    }
  }

  lemma {:induction false} TurnCounts(s: PassState, c: Listed, contribution: Contribution, loses: bool)
    requires contribution.obj.Obj? && s.verdict.Running?
    ensures Counted(s, Turn(s, c, contribution, loses), c)
  {
    if c.obj.fault.NoIdentity? {
      NotedCounts(s, s, c.status.(state := "Conflicted"), c);
    } else if loses {
      NotedCounts(s, s.(conflicted := true), c.status.(state := "Superseded"), c);
    } else if c.obj.fault.BadBase? {
      NotedCounts(s, s, c.status.(state := "Conflicted"), c);
    } else {
      ApplyCounts(s, c, contribution);
    }
  }

  lemma {:induction false} TurnsAddOneEach(s: PassState, active: seq<Listed>, claims: map<string, seq<nat>>, i: nat)
    requires AllRender(active) && i <= |active| && s.verdict.Running? && OneEach(s.records, active[..i])
    ensures var t := Turns(s, active, claims, i);
      && t.status.contributors == s.status.contributors
      && (t.verdict.Running? ==> OneEach(t.records, active))
      && (t.verdict.Running? || t.verdict.Requeued? || t.verdict.Broken?)
    decreases |active| - i
  {
    if i == |active| {
      assert active[..i] == active;
    } else {
      var contribution := active[i].obj.rendered.value;
      var t := Turn(s, active[i], contribution, Yields(active, claims, i));
      TurnCounts(s, active[i], contribution, Yields(active, claims, i));
      assert active[..i + 1] == active[..i] + [active[i]];
      if t.verdict.Running? {
        TurnsAddOneEach(t, active, claims, i + 1);
      }
    }
  }

  /**
   * A pass that completes stores one record for every contributor that is not being deleted, in the
   * listed order; one stopped by a contribution that does not render stores none; any other leaves
   * the stored list as it was. The count is the list's length whenever the list is written.
   */
  lemma {:induction false} ReferenceCount(target: Target, status: Status, list: seq<Listed>, saves: bool)
    ensures var p := Pass(target, status, list, saves);
      && (p.verdict.Completed? ==>
            OneEach(p.status.contributors, Active(list)) && p.status.contributorCount == |Active(list)|)
      && (p.verdict.Unrendered? ==> p.status.contributors == [] && p.status.contributorCount == 0)
      && (p.verdict.Requeued? || p.verdict.Broken? ==> p.status.contributors == status.contributors)
      && !p.verdict.Running?
      && (p.verdict.Unrendered? ==> !AllRender(Active(list)))
  {
    var active, s := Active(list), Departures(target, status, list);
    if s.verdict.Running? && AllRender(active) {
      TurnsAddOneEach(s, active, ContestedPaths(Rendered(active)), 0);
    }
  }

  lemma {:induction false} ActiveInOrder(list: seq<Listed>)
    requires InOrder(Refs(list), Before)
    ensures InOrder(Refs(Active(list)), Before)
  {
    if list != [] {
      var rest := list[1..];
      var t := Refs(Active(rest));
      assert Refs(list)[1..] == Refs(rest);
      ActiveInOrder(rest);
      forall i | 0 <= i < |t| ensures !Before(t[i], list[0].status) {
        LeavingMembers(rest, Active(rest)[i]);
        var k :| 0 <= k < |rest| && rest[k] == Active(rest)[i];
        assert Refs(list)[k + 1] == rest[k].status && Refs(list)[0] == list[0].status;
      }
      assert Refs([list[0]] + Active(rest)) == [list[0].status] + t;
      FirstInOrder(list[0].status, t);
      assert [] + Active(rest) == Active(rest);
    }
  }

  lemma {:induction false} FirstInOrder(r: Record, t: seq<Record>)
    requires InOrder(t, Before) && forall i | 0 <= i < |t| :: !Before(t[i], r)
    ensures InOrder([r] + t, Before)
  {}

  lemma {:induction false} OrderCarries(records: seq<Record>, list: seq<Listed>)
    requires OneEach(records, list) && InOrder(Refs(list), Before)
    ensures InOrder(records, Before)
  {
    forall i, j | 0 <= i < j < |records| ensures !Before(records[j], records[i]) {
      assert !Before(Refs(list)[j], Refs(list)[i]);
      assert SameEntry(records[i], list[i].status) && SameEntry(records[j], list[j].status);
    }
  }

  /** So the stored list of a completed pass is in the tracker's order. */
  lemma {:induction false} StoredInOrder(target: Target, status: Status, list: seq<Listed>, saves: bool)
    requires AllRanked(Refs(list)) && Pass(target, status, list, saves).verdict.Completed?
    ensures AllRanked(Pass(target, status, list, saves).status.contributors)
  {
    InOrderIsRanked(Refs(list));
    ReferenceCount(target, status, list, saves);
    ActiveInOrder(list);
    OrderCarries(Pass(target, status, list, saves).status.contributors, Active(list));
    InOrderIsRanked(Pass(target, status, list, saves).status.contributors);
  }

  // ---- The target and its creator ----

  lemma {:induction false} ReleasesKeepTarget(target: Target, cs: seq<Listed>)
    ensures ReleaseAll(target, cs).0.Some? == target.Some?
    decreases |cs|
  {
    if cs != [] && Releases(cs[0]) { ReleasesKeepTarget(Released(target, cs[0]), cs[1..]); }
  }

  /** The fence and what was observed of the target are kept, and so is a recorded base hash. */
  predicate KeepsRest(s: Status, t: Status)
  {
    && t.promotedTo == s.promotedTo && t.targetUID == s.targetUID && t.resourceVersion == s.resourceVersion
    && (s.baseHash != "" ==> t.baseHash == s.baseHash)
  }

  /** The target stays once there, and a creator is recorded only as it comes to be, with the hash of its base. */
  predicate Creates(s: PassState, t: PassState, c: Listed)
  {
    && KeepsRest(s.status, t.status)
    && (t.status.creator == s.status.creator ==> t.status.baseHash == s.status.baseHash)
    && (s.target.Some? ==> t.target.Some?)
    && (s.status.createdByOperator ==> t.status.createdByOperator)
    && (t.status.creator != s.status.creator ==>
          && s.target.None? && t.target.Some? && s.status.creator.None?
          && t.status.createdByOperator && c.obj.allowCreate && t.status.creator == Some(c.status.ref)
          && (s.status.baseHash == "" ==> t.status.baseHash == if c.obj.base.Some? then c.obj.baseHash else ""))
  }

  lemma {:induction false} SettledCreates(s: PassState, content: map<string, Json>, c: Listed, contribution: Contribution, priors: Priors)
    requires c.obj.allowCreate && s.target.None?
    ensures Creates(s, Settled(s.(target := Some(content)), c, contribution, true, priors), c)
  {}

  lemma {:induction false} UpdatedCreates(s: PassState, content: map<string, Json>, c: Listed, contribution: Contribution, priors: Priors)
    requires s.target.Some?
    ensures Creates(s, Settled(s.(target := Some(content)), c, contribution, false, priors), c)
  {}

  lemma {:induction false} StoppedCreates(s: PassState, c: Listed)
    ensures Creates(s, GiveUp(s), c) && Creates(s, s.(verdict := Requeued), c)
    ensures forall r :: Creates(s, Noted(s.(missing := true), r), c)
  {}

  lemma {:induction false} ApplyCreates(s: PassState, c: Listed, contribution: Contribution)
    requires contribution.obj.Obj?
    ensures Creates(s, ApplyTo(s, c, contribution), c)
  {
    StoppedCreates(s, c);
    if s.target.None? {
      match Seeded(contribution, c.obj.base)
      case None =>
      case Some(content) => if c.obj.allowCreate { SettledCreates(s, content, c, contribution, map[]); }
    } else {
      match Update(Obj(s.target.value), contribution, Runs.Previous(Book(c.status)), Known(c.status), c.status.captured)
      case None =>
      case Some(w) => UpdatedCreates(s, Fields(w.doc), c, contribution, w.priors);
    }
  }

  lemma {:induction false} TurnCreates(s: PassState, c: Listed, contribution: Contribution, loses: bool)
    requires contribution.obj.Obj?
    ensures Creates(s, Turn(s, c, contribution, loses), c)
  {
    ApplyCreates(s, c, contribution);
  }

  lemma {:induction false} TurnsCreate(s: PassState, active: seq<Listed>, claims: map<string, seq<nat>>, i: nat)
    requires AllRender(active) && i <= |active|
    ensures var t := Turns(s, active, claims, i);
      if t.status.creator == s.status.creator then
        && (s.target.Some? ==> t.target.Some?) && (s.status.createdByOperator ==> t.status.createdByOperator)
        && KeepsRest(s.status, t.status) && t.status.baseHash == s.status.baseHash
      else exists k :: 0 <= k < |active| && Creates(s, t, active[k])
    decreases |active| - i
  {
    if i < |active| && s.verdict.Running? {
      var t := Turn(s, active[i], active[i].obj.rendered.value, Yields(active, claims, i));
      var u := Turns(t, active, claims, i + 1);
      TurnCreates(s, active[i], active[i].obj.rendered.value, Yields(active, claims, i));
      TurnsCreate(t, active, claims, i + 1);
      if u.status.creator != t.status.creator {
        var k :| 0 <= k < |active| && Creates(t, u, active[k]);
        assert Creates(s, u, active[k]);
      } else if t.status.creator != s.status.creator {
        assert Creates(s, u, active[i]);
      }
    }
  }

  /** The contributor is leaving, wants the target gone, and is this creator. */
  predicate Asks(c: Listed, creator: ContributorRef)
  {
    c.obj.deleting && c.obj.onRelease.Deleted? && SameContributor(c.status.ref, creator)
  }

  /**
   * A pass deletes the target only when it lists nobody who stays and, among those leaving, one that
   * asks for the deletion and is the recorded creator of an object the operator made.
   */
  lemma {:induction false} DeletionIsSafe(target: Target, status: Status, list: seq<Listed>, saves: bool)
    requires target.Some? && Pass(target, status, list, saves).target.None?
    ensures Active(list) == []
    ensures status.createdByOperator && status.creator.Some?
    ensures exists c :: c in list && Asks(c, status.creator.value)
  {
    var active, s := Active(list), Departures(target, status, list);
    var leaving := Leaving(list);
    ReleasesKeepTarget(target, leaving);
    if s.verdict.Running? && AllRender(active) {
      TurnsCreate(s, active, ContestedPaths(Rendered(active)), 0);
    }
    assert s.target.None?;
    var i :| 0 <= i < |leaving| && leaving[i].obj.onRelease.Deleted? && SameContributor(leaving[i].status.ref, status.creator.value);
    LeavingMembers(list, leaving[i]);
  }

  lemma {:induction false} LeavingMembers(list: seq<Listed>, c: Listed)
    ensures c in Leaving(list) <==> c in list && c.obj.deleting
    ensures c in Active(list) <==> c in list && !c.obj.deleting
  {
    if list != [] {
      assert list == [list[0]] + list[1..];
      LeavingMembers(list[1..], c);
    }
  }

  lemma {:induction false} DeparturesKeepStatus(target: Target, status: Status, list: seq<Listed>)
    ensures var s := Departures(target, status, list);
      s.status == status && (s.target.None? <==> target.None? || (s.verdict.Running? && Active(list) == [] && Leaving(list) != [] && WantsDelete(status, Leaving(list))))
  {
    ReleasesKeepTarget(target, Leaving(list));
  }

  /** A pass puts a creator on record only once, and only one whose apply in this pass made the target. */
  lemma {:induction false} CreatorIsFirst(target: Target, status: Status, list: seq<Listed>, saves: bool)
    ensures var p := Pass(target, status, list, saves);
      && (status.creator.Some? ==> p.status.creator == status.creator)
      && (status.createdByOperator ==> p.status.createdByOperator)
      && KeepsRest(status, p.status)
      && (p.status.creator == status.creator ==> p.status.baseHash == status.baseHash)
      && (p.status.creator != status.creator ==>
            && (target.None? || WantsDelete(status, Leaving(list)))
            && p.target.Some? && p.status.createdByOperator
            && exists c :: c in Active(list) && c.obj.allowCreate && p.status.creator == Some(c.status.ref)
                 && (status.baseHash == "" ==> p.status.baseHash == if c.obj.base.Some? then c.obj.baseHash else ""))
  {
    var active, s := Active(list), Departures(target, status, list);
    DeparturesKeepStatus(target, status, list);
    if s.verdict.Running? && AllRender(active) {
      TurnsCreate(s, active, ContestedPaths(Rendered(active)), 0);
    }
  }
}
