/** What a tracker stores: who contributes to its target, and what only it knows about them. */
module Trackers {
  import opened Json

  /** uid is empty in a reference that never recorded one. */
  datatype ContributorRef = ContributorRef(kind: string, name: string, namespace: string, uid: string)

  /** The UID decides when both sides have one. */
  predicate SameContributor(a: ContributorRef, b: ContributorRef)
  {
    if a.uid != "" && b.uid != "" then a.uid == b.uid
    else a.kind == b.kind && a.name == b.name && a.namespace == b.namespace
  }

  /** A contributor's record; priors is None when none were ever stored, creation when it is unknown. */
  datatype Record = Record(
    ref: ContributorRef,
    generation: int,
    priority: int,
    fieldManager: string,
    state: string,
    lastAppliedHash: string,
    ownedPaths: seq<string>,
    priors: Option<map<string, Json>>,
    captured: bool,
    creation: Option<int>)

  datatype Promotion = Promotion(successor: string, adopted: bool)

  datatype Phase = Unset | Waiting | Applied | Conflicted | Releasing | Promoting

  /** A tracker's status. Empty strings and None are values never recorded. */
  datatype Status = Status(
    phase: Phase,
    promotedTo: Option<Promotion>,
    createdByOperator: bool,
    creator: Option<ContributorRef>,
    baseHash: string,
    targetUID: string,
    resourceVersion: string,
    contributors: seq<Record>,
    contributorCount: int)

  const BLANK := Status(Unset, None, false, None, "", "", "", [], 0)

  predicate IsFenced(s: Status)
  {
    s.promotedTo.Some?
  }

  /** Position of the first record of a contributor, or -1. */
  function Find(records: seq<Record>, ref: ContributorRef): (i: int)
    ensures -1 <= i < |records|
    ensures i >= 0 ==> SameContributor(records[i].ref, ref)
    ensures forall j | 0 <= j < (if i < 0 then |records| else i) :: !SameContributor(records[j].ref, ref)
  {
    if records == [] then -1
    else if SameContributor(records[0].ref, ref) then 0
    else
      var i := Find(records[1..], ref);
      if i < 0 then -1 else i + 1
  }

  /**
   * The end-of-pass write onto whatever is stored by then. No list leaves the stored list alone;
   * what the pass did not learn, it does not overwrite.
   */
  function WriteStatus(stored: Status, computed: Status, records: Option<seq<Record>>): Status
  {
    var list := if records.Some? then records.value else stored.contributors;
    Status(
      computed.phase,
      stored.promotedTo,
      stored.createdByOperator || computed.createdByOperator,
      if stored.creator.None? then computed.creator else stored.creator,
      if stored.baseHash == "" then computed.baseHash else stored.baseHash,
      if computed.targetUID != "" then computed.targetUID else stored.targetUID,
      if computed.resourceVersion != "" then computed.resourceVersion else stored.resourceVersion,
      list,
      |list|)
  }

  /** The write made the moment a contributor has created the target. */
  function RecordProvenance(stored: Status, creator: ContributorRef, baseHash: string): Status
  {
    stored.(createdByOperator := true,
            creator := if stored.creator.None? then Some(creator) else stored.creator,
            baseHash := if stored.baseHash == "" then baseHash else stored.baseHash)
  }

  /** A reconcile's own copy of a status, which it edits before sending it back. */
  class StatusDraft {
    var status: Status

    constructor (s: Status)
      ensures status == s
    {
      status := s;
    }

    method FindContributor(ref: ContributorRef) returns (i: int)
      ensures i == Find(status.contributors, ref)
    {
      for n := 0 to |status.contributors|
        invariant forall j | 0 <= j < n :: !SameContributor(status.contributors[j].ref, ref)
      {
        if SameContributor(status.contributors[n].ref, ref) {
          assert Find(status.contributors, ref) == n;
          return n;
        }
      }
      i := -1;
    }

    method Write(computed: Status, records: Option<seq<Record>>)
      modifies this
      ensures status == WriteStatus(old(status), computed, records)
    {
      if records.Some? {
        status := status.(contributors := records.value);
      }
      status := status.(contributorCount := |status.contributors|, phase := computed.phase);
      if computed.createdByOperator {
        status := status.(createdByOperator := true);
      }
      if computed.creator.Some? && status.creator.None? {
        status := status.(creator := computed.creator);
      }
      if computed.baseHash != "" && status.baseHash == "" {
        status := status.(baseHash := computed.baseHash);
      }
      if computed.targetUID != "" {
        status := status.(targetUID := computed.targetUID);
      }
      if computed.resourceVersion != "" {
        status := status.(resourceVersion := computed.resourceVersion);
      }
    }

    method Provenance(creator: ContributorRef, baseHash: string)
      modifies this
      ensures status == RecordProvenance(old(status), creator, baseHash)
    {
      status := status.(createdByOperator := true);
      if status.creator.None? {
        status := status.(creator := Some(creator));
      }
      if baseHash != "" && status.baseHash == "" {
        status := status.(baseHash := baseHash);
      }
    }
  }
}
