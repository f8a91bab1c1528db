/** A successor taking over what only its predecessor knows. */
module Adoption {
  import opened Json
  import opened Trackers

  /** The successor's record of a contributor, completed from the predecessor's. */
  function Filled(d: Record, s: Record): Record
  {
    var takes := !d.captured && (s.captured || s.priors.Some?);
    d.(priors := if takes && s.priors.Some? then s.priors else d.priors,
       captured := d.captured || takes,
       ownedPaths := if d.ownedPaths == [] then s.ownedPaths else d.ownedPaths,
       lastAppliedHash := if d.lastAppliedHash == "" then s.lastAppliedHash else d.lastAppliedHash,
       fieldManager := if d.fieldManager == "" then s.fieldManager else d.fieldManager)
  }

  function AdoptOne(dst: seq<Record>, s: Record): seq<Record>
  {
    var i := Find(dst, s.ref);
    if i < 0 then dst + [s] else dst[i := Filled(dst[i], s)]
  }

  function AdoptRecords(dst: seq<Record>, src: seq<Record>): seq<Record>
    decreases |src|
  {
    if src == [] then dst else AdoptRecords(AdoptOne(dst, src[0]), src[1..])
  }

  function Adopt(dst: Status, src: Status): Status
  {
    var records := AdoptRecords(dst.contributors, src.contributors);
    Status(
      if dst.phase.Unset? || dst.phase.Promoting? then Applied else dst.phase,
      None,
      dst.createdByOperator || src.createdByOperator,
      if dst.creator.None? then src.creator else dst.creator,
      if dst.baseHash == "" then src.baseHash else dst.baseHash,
      if dst.targetUID == "" then src.targetUID else dst.targetUID,
      if dst.resourceVersion == "" then src.resourceVersion else dst.resourceVersion,
      records,
      |records|)
  }

  method AdoptStatus(dst: StatusDraft, src: Status)
    modifies dst
    ensures dst.status == Adopt(old(dst.status), src)
  {
    if !dst.status.createdByOperator && src.createdByOperator {
      dst.status := dst.status.(createdByOperator := true);
    }
    if dst.status.creator.None? && src.creator.Some? {
      dst.status := dst.status.(creator := src.creator);
    }
    if dst.status.baseHash == "" {
      dst.status := dst.status.(baseHash := src.baseHash);
    }
    if dst.status.targetUID == "" {
      dst.status := dst.status.(targetUID := src.targetUID);
    }
    if dst.status.resourceVersion == "" {
      dst.status := dst.status.(resourceVersion := src.resourceVersion);
    }
    ghost var before := dst.status;
    for n := 0 to |src.contributors|
      modifies dst
      invariant dst.status == before.(contributors := dst.status.contributors)
      invariant AdoptRecords(dst.status.contributors, src.contributors[n..]) ==
        AdoptRecords(before.contributors, src.contributors)
    {
      assert src.contributors[n..][1..] == src.contributors[n + 1..];
      AdoptRecord(dst, src.contributors[n]);
    }
    dst.status := dst.status.(contributorCount := |dst.status.contributors|, promotedTo := None);
    if dst.status.phase.Unset? || dst.status.phase.Promoting? {
      dst.status := dst.status.(phase := Applied);
    }
  }

  method AdoptRecord(dst: StatusDraft, s: Record)
    modifies dst
    ensures dst.status == old(dst.status).(contributors := AdoptOne(old(dst.status.contributors), s))
  {
    var i := dst.FindContributor(s.ref);
    if i < 0 {
      dst.status := dst.status.(contributors := dst.status.contributors + [s]);
      return;
    }
    var existing := dst.status.contributors[i];
    if !existing.captured {
      if s.captured || s.priors.Some? {
        if s.priors.Some? {
          existing := existing.(priors := s.priors);
        }
        existing := existing.(captured := true);
      }
    }
    if existing.ownedPaths == [] {
      existing := existing.(ownedPaths := s.ownedPaths);
    }
    if existing.lastAppliedHash == "" {
      existing := existing.(lastAppliedHash := s.lastAppliedHash);
    }
    if existing.fieldManager == "" {
      existing := existing.(fieldManager := s.fieldManager);
    }
    dst.status := dst.status.(contributors := dst.status.contributors[i := existing]);
  }

  // ---- What adoption keeps ----

  /** Every record names its contributor by a UID of its own. */
  predicate Identified(records: seq<Record>)
  {
    (forall i | 0 <= i < |records| :: records[i].ref.uid != "") &&
    (forall i, j | 0 <= i < j < |records| :: records[i].ref.uid != records[j].ref.uid)
  }

  predicate Knows(records: seq<Record>, uid: string)
  {
    exists i :: 0 <= i < |records| && records[i].ref.uid == uid
  }

  /** A record completed from the predecessor's record of the same contributor, if there is one. */
  function Completed(d: Record, src: seq<Record>): Record
  {
    if src == [] then d
    else if src[0].ref.uid == d.ref.uid then Filled(d, src[0])
    else Completed(d, src[1..])
  }

  function CompletedAll(dst: seq<Record>, src: seq<Record>): seq<Record>
  {
    seq(|dst|, i requires 0 <= i < |dst| => Completed(dst[i], src))
  }

  /** The predecessor's records the successor has none of. */
  function Missing(dst: seq<Record>, src: seq<Record>): seq<Record>
  {
    if src == [] then []
    else (if Knows(dst, src[0].ref.uid) then [] else [src[0]]) + Missing(dst, src[1..])
  }

  lemma {:induction false} FindByUid(records: seq<Record>, ref: ContributorRef)
    requires Identified(records) && ref.uid != ""
    ensures Find(records, ref) >= 0 <==> Knows(records, ref.uid)
    ensures Find(records, ref) >= 0 ==> records[Find(records, ref)].ref.uid == ref.uid
  {}

  lemma {:induction false} CompletedByStranger(d: Record, src: seq<Record>)
    requires !Knows(src, d.ref.uid)
    ensures Completed(d, src) == d
  {
    if src != [] {
      assert src[0].ref.uid != d.ref.uid;
      forall i | 0 <= i < |src| - 1 ensures src[1..][i].ref.uid != d.ref.uid {
        assert src[1..][i] == src[i + 1];
      }
      CompletedByStranger(d, src[1..]);
    }
  }

  lemma {:induction false} MissingFromMore(dst: seq<Record>, s: Record, src: seq<Record>)
    requires !Knows(src, s.ref.uid)
    ensures Missing(dst + [s], src) == Missing(dst, src)
  {
    if src != [] {
      assert src[0].ref.uid != s.ref.uid;
      forall i | 0 <= i < |src| - 1 ensures src[1..][i].ref.uid != s.ref.uid {
        assert src[1..][i] == src[i + 1];
      }
      MissingFromMore(dst, s, src[1..]);
      assert Knows(dst + [s], src[0].ref.uid) == Knows(dst, src[0].ref.uid) by {
        KnowsMore(dst, s, src[0].ref.uid);
      }
    }
  }

  lemma {:induction false} KnowsMore(dst: seq<Record>, s: Record, uid: string)
    ensures Knows(dst + [s], uid) <==> Knows(dst, uid) || s.ref.uid == uid
  {
    if s.ref.uid == uid { assert (dst + [s])[|dst|] == s; }
    if Knows(dst, uid) {
      var i :| 0 <= i < |dst| && dst[i].ref.uid == uid;
      assert (dst + [s])[i].ref.uid == uid;
    }
  }

  lemma {:induction false} MissingFromSame(dst: seq<Record>, dst': seq<Record>, src: seq<Record>)
    requires |dst| == |dst'| && forall i | 0 <= i < |dst| :: dst[i].ref == dst'[i].ref
    ensures Missing(dst', src) == Missing(dst, src)
  {
    if src != [] {
      assert Knows(dst, src[0].ref.uid) == Knows(dst', src[0].ref.uid);
      MissingFromSame(dst, dst', src[1..]);
    }
  }

  lemma {:induction false} TailIdentified(src: seq<Record>)
    requires Identified(src) && src != []
    ensures Identified(src[1..]) && !Knows(src[1..], src[0].ref.uid)
  {}

  lemma {:induction false} CompletedMore(dst: seq<Record>, s: Record, src: seq<Record>)
    ensures CompletedAll(dst + [s], src) == CompletedAll(dst, src) + [Completed(s, src)]
  {}

  lemma {:induction false} CompletedSkips(dst: seq<Record>, src: seq<Record>)
    requires src != [] && !Knows(dst, src[0].ref.uid)
    ensures CompletedAll(dst, src) == CompletedAll(dst, src[1..])
  {
    forall i | 0 <= i < |dst| ensures Completed(dst[i], src) == Completed(dst[i], src[1..]) {
      assert dst[i].ref.uid != src[0].ref.uid;
    }
  }

  lemma {:induction false} Regrouped(a: seq<Record>, s: Record, b: seq<Record>)
    ensures a + [s] + b == a + ([s] + b)
  {}

  lemma {:induction false} AdoptNew(dst: seq<Record>, src: seq<Record>)
    requires Identified(dst) && Identified(src) && src != [] && !Knows(dst, src[0].ref.uid)
    ensures Identified(dst + [src[0]])
    ensures CompletedAll(dst + [src[0]], src[1..]) + Missing(dst + [src[0]], src[1..]) ==
      CompletedAll(dst, src) + Missing(dst, src)
  {
    var s, rest := src[0], src[1..];
    assert forall i | 0 <= i < |dst| :: dst[i].ref.uid != s.ref.uid;
    TailIdentified(src);
    CompletedByStranger(s, rest);
    MissingFromMore(dst, s, rest);
    CompletedMore(dst, s, rest);
    CompletedSkips(dst, src);
    Regrouped(CompletedAll(dst, rest), s, Missing(dst, rest));
  }

  lemma {:induction false} AdoptKnown(dst: seq<Record>, src: seq<Record>, i: nat)
    requires Identified(dst) && Identified(src) && src != [] && i < |dst| && dst[i].ref.uid == src[0].ref.uid
    ensures var next := dst[i := Filled(dst[i], src[0])];
      && Identified(next)
      && CompletedAll(next, src[1..]) + Missing(next, src[1..]) == CompletedAll(dst, src) + Missing(dst, src)
  {
    var rest := src[1..];
    var next := dst[i := Filled(dst[i], src[0])];
    TailIdentified(src);
    MissingFromSame(dst, next, rest);
    CompletedByStranger(next[i], rest);
    forall k | 0 <= k < |dst| && k != i ensures Completed(next[k], rest) == Completed(dst[k], src) {
      assert dst[k].ref.uid != src[0].ref.uid;
    }
    assert CompletedAll(next, rest) == CompletedAll(dst, src);
    assert Knows(dst, src[0].ref.uid);
    assert Missing(dst, src) == [] + Missing(dst, rest);
  }

  /** One record's adoption seen from the whole: what is done with it and what is left to do. */
  lemma {:induction false} AdoptFirst(dst: seq<Record>, src: seq<Record>)
    requires Identified(dst) && Identified(src) && src != []
    ensures var next := AdoptOne(dst, src[0]);
      && Identified(next)
      && CompletedAll(next, src[1..]) + Missing(next, src[1..]) == CompletedAll(dst, src) + Missing(dst, src)
  {
    FindByUid(dst, src[0].ref);
    if Find(dst, src[0].ref) < 0 {
      AdoptNew(dst, src);
    } else {
      AdoptKnown(dst, src, Find(dst, src[0].ref));
    }
  }

  /** What a record knows of its own is still in it: its capture, its paths, its hash and its manager. */
  predicate KeepsOwn(d: Record, r: Record)
  {
    && r.ref == d.ref && r.state == d.state && r.priority == d.priority && r.generation == d.generation && r.creation == d.creation
    && (d.captured ==> r.captured && r.priors == d.priors)
    && (d.ownedPaths != [] ==> r.ownedPaths == d.ownedPaths)
    && (d.lastAppliedHash != "" ==> r.lastAppliedHash == d.lastAppliedHash)
    && (d.fieldManager != "" ==> r.fieldManager == d.fieldManager)
  }

  /** And what it does not know it has from the predecessor's: recorded priors and the capture go together. */
  predicate LearnsRest(d: Record, s: Record, r: Record)
  {
    && (!d.captured ==>
          && (r.captured <==> s.captured || s.priors.Some?)
          && r.priors == (if s.priors.Some? then s.priors else d.priors))
    && (d.ownedPaths == [] ==> r.ownedPaths == s.ownedPaths)
    && (d.lastAppliedHash == "" ==> r.lastAppliedHash == s.lastAppliedHash)
    && (d.fieldManager == "" ==> r.fieldManager == s.fieldManager)
  }

  lemma {:induction false} CompletedKeepsOwn(d: Record, src: seq<Record>)
    ensures KeepsOwn(d, Completed(d, src))
  {
    if src != [] && src[0].ref.uid != d.ref.uid { CompletedKeepsOwn(d, src[1..]); }
  }

  /**
   * Adoption loses nothing: the successor keeps each of its records, in place, with all it knows of its own
   * and completed from the predecessor's, and gains each of the predecessor's records it lacked, unaltered
   * and in order.
   */
  lemma {:induction false} AdoptKeepsAll(dst: seq<Record>, src: seq<Record>)
    requires Identified(dst) && Identified(src)
    ensures AdoptRecords(dst, src) == CompletedAll(dst, src) + Missing(dst, src)
    ensures forall i | 0 <= i < |dst| :: KeepsOwn(dst[i], AdoptRecords(dst, src)[i])
    ensures Identified(AdoptRecords(dst, src))
    decreases |src|
  {
    forall i | 0 <= i < |dst| ensures KeepsOwn(dst[i], CompletedAll(dst, src)[i]) { CompletedKeepsOwn(dst[i], src); }
    if src == [] {
      assert CompletedAll(dst, src) == dst;
    } else {
      AdoptFirst(dst, src);
      TailIdentified(src);
      AdoptKeepsAll(AdoptOne(dst, src[0]), src[1..]);
    }
  }

  lemma {:induction false} CompletedFrom(d: Record, src: seq<Record>, j: nat)
    requires Identified(src) && j < |src| && src[j].ref.uid == d.ref.uid
    ensures Completed(d, src) == Filled(d, src[j])
  {
    if src[0].ref.uid != d.ref.uid {
      TailIdentified(src);
      assert src[1..][j - 1] == src[j];
      CompletedFrom(d, src[1..], j - 1);
    } else {
      assert j == 0;
    }
  }

  lemma {:induction false} MissingMembers(dst: seq<Record>, src: seq<Record>, m: Record)
    ensures m in Missing(dst, src) <==> m in src && !Knows(dst, m.ref.uid)
  {
    if src != [] {
      assert src == [src[0]] + src[1..];
      MissingMembers(dst, src[1..], m);
    }
  }

  /** Completing a record again from the same predecessor changes nothing. */
  lemma {:induction false} CompletedTwice(d: Record, src: seq<Record>)
    requires Identified(src)
    ensures Completed(Completed(d, src), src) == Completed(d, src)
    ensures Completed(d, src).ref == d.ref
  {
    if Knows(src, d.ref.uid) {
      var j :| 0 <= j < |src| && src[j].ref.uid == d.ref.uid;
      CompletedFrom(d, src, j);
      CompletedFrom(Filled(d, src[j]), src, j);
    } else {
      CompletedByStranger(d, src);
    }
  }

  lemma {:induction false} KnownIsFilled(dst: seq<Record>, src: seq<Record>, i: nat, j: nat)
    requires Identified(dst) && Identified(src) && i < |dst| && j < |src| && dst[i].ref.uid == src[j].ref.uid
    ensures Find(AdoptRecords(dst, src), src[j].ref) == i
    ensures AdoptRecords(dst, src)[i] == Filled(dst[i], src[j])
  {
    AdoptKeepsAll(dst, src);
    CompletedFrom(dst[i], src, j);
    assert AdoptRecords(dst, src)[i] == CompletedAll(dst, src)[i];
    FindAt(AdoptRecords(dst, src), i, src[j].ref);
  }

  lemma {:induction false} MissingIsAppended(dst: seq<Record>, src: seq<Record>, j: nat)
    requires Identified(dst) && Identified(src) && j < |src| && !Knows(dst, src[j].ref.uid)
    ensures var all := AdoptRecords(dst, src);
      Find(all, src[j].ref) >= |dst| && all[Find(all, src[j].ref)] == src[j]
  {
    AdoptKeepsAll(dst, src);
    MissingMembers(dst, src, src[j]);
    var i :| 0 <= i < |Missing(dst, src)| && Missing(dst, src)[i] == src[j];
    assert AdoptRecords(dst, src)[|dst| + i] == src[j];
    FindAt(AdoptRecords(dst, src), |dst| + i, src[j].ref);
  }

  /**
   * Whatever the predecessor recorded of a contributor is in the successor: its whole record where the
   * successor had none, and otherwise all that the successor's own record did not know already.
   */
  lemma {:induction false} PredecessorIsRemembered(dst: seq<Record>, src: seq<Record>, j: nat)
    requires Identified(dst) && Identified(src) && j < |src|
    ensures var s, all := src[j], AdoptRecords(dst, src);
      var i := Find(all, s.ref);
      && i >= 0
      && (i < |dst| <==> Knows(dst, s.ref.uid))
      && (if i < |dst| then dst[i].ref.uid == s.ref.uid && KeepsOwn(dst[i], all[i]) && LearnsRest(dst[i], s, all[i]) else all[i] == s)
  {
    if Knows(dst, src[j].ref.uid) {
      var i :| 0 <= i < |dst| && dst[i].ref.uid == src[j].ref.uid;
      KnownIsFilled(dst, src, i, j);
    } else {
      MissingIsAppended(dst, src, j);
    }
  }

  /** The successor's own knowledge, or where it has none the predecessor's. */
  predicate Learned(own: string, other: string, after: string)
  {
    (own != "" ==> after == own) && (own == "" ==> after == other)
  }

  /** Of the target and how it came to be, the copy forgets nothing that either side knew, and it is not fenced. */
  lemma {:induction false} AdoptionForgetsNothing(dst: Status, src: Status)
    ensures var r := Adopt(dst, src);
      && (r.createdByOperator <==> dst.createdByOperator || src.createdByOperator)
      && (r.creator.Some? <==> dst.creator.Some? || src.creator.Some?) && (dst.creator.Some? ==> r.creator == dst.creator)
      && (r.creator.Some? ==> r.creator == dst.creator || r.creator == src.creator)
      && Learned(dst.baseHash, src.baseHash, r.baseHash) && Learned(dst.targetUID, src.targetUID, r.targetUID)
      && Learned(dst.resourceVersion, src.resourceVersion, r.resourceVersion)
      && !IsFenced(r) && r.contributorCount == |r.contributors| && !r.phase.Unset? && !r.phase.Promoting?
  {}

  lemma {:induction false} FindAt(records: seq<Record>, i: nat, ref: ContributorRef)
    requires Identified(records) && i < |records| && records[i].ref.uid == ref.uid
    ensures Find(records, ref) == i
  {}

  lemma {:induction false} NothingMissing(dst: seq<Record>, src: seq<Record>)
    requires forall j | 0 <= j < |src| :: Knows(dst, src[j].ref.uid)
    ensures Missing(dst, src) == []
  {
    if src != [] {
      assert forall j | 0 <= j < |src| - 1 :: src[1..][j] == src[j + 1];
      NothingMissing(dst, src[1..]);
    }
  }

  /** A predecessor's record the successor lacks comes over as captured as it was. */
  predicate FlagsPriors(dst: seq<Record>, src: seq<Record>)
  {
    forall j | 0 <= j < |src| :: !Knows(dst, src[j].ref.uid) && src[j].priors.Some? ==> src[j].captured
  }

  /** A second copy changes a record only if the first had brought it over with unflagged priors. */
  lemma {:induction false} CopiedAgain(dst: seq<Record>, src: seq<Record>, i: nat)
    requires Identified(dst) && Identified(src) && i < |AdoptRecords(dst, src)|
    ensures var r := AdoptRecords(dst, src)[i];
      && (i < |dst| ==> Completed(r, src) == r)
      && (i >= |dst| ==>
            && r in src && !Knows(dst, r.ref.uid)
            && (Completed(r, src) == r <==> (r.priors.Some? ==> r.captured)))
  {
    AdoptKeepsAll(dst, src);
    var r := AdoptRecords(dst, src)[i];
    if i < |dst| {
      assert r == Completed(dst[i], src);
      CompletedTwice(dst[i], src);
    } else {
      assert r == Missing(dst, src)[i - |dst|];
      MissingMembers(dst, src, r);
      var j :| 0 <= j < |src| && src[j] == r;
      CompletedFrom(r, src, j);
    }
  }

  lemma {:induction false} SecondCopy(dst: seq<Record>, src: seq<Record>)
    requires Identified(dst) && Identified(src)
    ensures var once := AdoptRecords(dst, src);
      AdoptRecords(once, src) == CompletedAll(once, src)
  {
    var once := AdoptRecords(dst, src);
    AdoptKeepsAll(dst, src);
    AdoptKeepsAll(once, src);
    forall j | 0 <= j < |src| ensures Knows(once, src[j].ref.uid) {
      PredecessorIsRemembered(dst, src, j);
      FindByUid(once, src[j].ref);
    }
    NothingMissing(once, src);
  }

  lemma {:induction false} AdoptRecordsTwice(dst: seq<Record>, src: seq<Record>)
    requires Identified(dst) && Identified(src)
    ensures var once := AdoptRecords(dst, src);
      AdoptRecords(once, src) == once <==> FlagsPriors(dst, src)
  {
    var once := AdoptRecords(dst, src);
    SecondCopy(dst, src);
    if FlagsPriors(dst, src) {
      forall i | 0 <= i < |once| ensures CompletedAll(once, src)[i] == once[i] {
        CopiedAgain(dst, src, i);
      }
      assert CompletedAll(once, src) == once;
    } else {
      var j :| 0 <= j < |src| && !Knows(dst, src[j].ref.uid) && src[j].priors.Some? && !src[j].captured;
      PredecessorIsRemembered(dst, src, j);
      var i := Find(once, src[j].ref);
      CopiedAgain(dst, src, i);
      assert CompletedAll(once, src)[i] == Completed(once[i], src);
    }
  }

  /** A crash after the copy and a second copy are one copy, exactly when recorded priors are flagged as captured. */
  lemma {:induction false} AdoptTwice(dst: Status, src: Status)
    requires Identified(dst.contributors) && Identified(src.contributors)
    ensures Adopt(Adopt(dst, src), src) == Adopt(dst, src) <==> FlagsPriors(dst.contributors, src.contributors)
  {
    AdoptRecordsTwice(dst.contributors, src.contributors);
  }
}
