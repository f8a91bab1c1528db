/** Precedence in the contributors' own terms: priorities, creations and UIDs of the live objects of a listed pass. */
module Precedence {
  import opened Json
  import opened Text
  import opened FieldPath
  import opened ApplyLaws
  import opened ClientSideApply
  import opened Trackers
  import opened Adoption
  import opened Conflicts
  import opened TrackerPass
  import opened Ordering
  import opened Sorting
  import opened Listing
  import opened PassLaws
  import opened PassRuns
  import opened Arbitration

  /** a is listed before b: by higher priority, then earlier creation, then the UID that sorts first. */
  predicate Precedes(a: Contributor, b: Contributor)
  {
    a.priority > b.priority
    || (a.priority == b.priority && a.creation < b.creation)
    || (a.priority == b.priority && a.creation == b.creation && a.ref.uid != b.ref.uid && Leq(a.ref.uid, b.ref.uid))
  }

  /** A list as ListContributors leaves it, of contributors with UIDs of their own. */
  ghost predicate ListOf(live: seq<Contributor>, existing: Status, list: seq<Listed>)
  {
    DistinctIds(live) && (forall c | c in live :: c.ref.uid != "") && ListedInOrder(live, existing, list)
  }

  /** What this needs of those that stay: their records describe them, in order, under UIDs of their own. */
  ghost predicate Ordered(active: seq<Listed>)
  {
    && AllRanked(Refs(active)) && Identified(Refs(active))
    && forall i | 0 <= i < |active| :: Describes(active[i].status, active[i].obj)
  }

  lemma {:induction false} ListingIsOrdered(live: seq<Contributor>, existing: Status, list: seq<Listed>)
    requires ListOf(live, existing, list)
    ensures Ordered(list)
  {
    ListTells(live, existing, list);
    RecordsAreDistinct(live, existing);
    var refs := Refs(list);
    forall i | 0 <= i < |refs| ensures refs[i].ref.uid != "" {
      assert refs[i] == list[i].status && Describes(list[i].status, list[i].obj);
    }
    SortedUids(RecordsFor(live, existing));
  }

  lemma {:induction false} TwiceThere<T>(s: seq<T>, i: nat, j: nat)
    requires i < j < |s| && s[i] == s[j]
    ensures multiset(s)[s[i]] >= 2
  {
    assert s == s[..j] + [s[j]] + s[j + 1..];
    assert s[..j][i] == s[i] && s[i] in s[..j];
  }

  lemma {:induction false} TwicePlaces<T>(s: seq<T>, x: T) returns (i: nat, j: nat)
    requires multiset(s)[x] >= 2
    ensures i < |s| && j < |s| && i != j && s[i] == x && s[j] == x
  {
    assert x in multiset(s);
    i :| 0 <= i < |s| && s[i] == x;
    WithoutOne(s, i);
    assert x in multiset(Listing.Without(s, i));
    var k :| 0 <= k < |Listing.Without(s, i)| && Listing.Without(s, i)[k] == x;
    j := if k < i then k else k + 1;
  }

  /** Sorting keeps UIDs distinct. */
  lemma {:induction false} SortedUids(records: seq<Record>)
    requires DistinctUids(records)
    ensures DistinctUids(Sorted(records, Before))
  {
    SortedContributors(records);
    var s := Sorted(records, Before);
    forall i, j | 0 <= i < j < |s| ensures s[i].ref.uid != s[j].ref.uid {
      assert s[i] in multiset(s) && s[j] in multiset(s);
      assert s[i] in multiset(records) && s[j] in multiset(records);
      assert s[i] in records && s[j] in records;
      if s[i] == s[j] {
        TwiceThere(s, i, j);
        var k, l := TwicePlaces(records, s[i]);
      }
    }
  }

  lemma {:induction false} ActiveIsOrdered(list: seq<Listed>)
    requires Ordered(list)
    ensures Ordered(Active(list))
  {
    InOrderIsRanked(Refs(list));
    ActiveInOrder(list);
    InOrderIsRanked(Refs(Active(list)));
    assert Distinguished(list) by {
      assert forall i | 0 <= i < |list| :: Refs(list)[i] == list[i].status;
    }
    Parts(list);
    var active, refs := Active(list), Refs(Active(list));
    assert forall i | 0 <= i < |refs| :: refs[i] == active[i].status;
    forall i | 0 <= i < |active| ensures Describes(active[i].status, active[i].obj) && active[i].status.ref.uid != "" {
      LeavingMembers(list, active[i]);
      assert active[i] in active;
      var k :| 0 <= k < |list| && list[k] == active[i];
      assert Refs(list)[k] == list[k].status;
    }
  }

  lemma {:induction false} OrderedPrecedes(list: seq<Listed>, i: nat, j: nat)
    requires Ordered(list) && i < |list| && j < |list| && i != j
    ensures Precedes(list[i].obj, list[j].obj) <==> i < j
  {
    var a, b := list[i], list[j];
    assert Refs(list)[i] == a.status && Refs(list)[j] == b.status;
    assert Describes(a.status, a.obj) && Describes(b.status, b.obj);
    if Leq(a.obj.ref.uid, b.obj.ref.uid) && Leq(b.obj.ref.uid, a.obj.ref.uid) {
      LeqAntisymmetric(a.obj.ref.uid, b.obj.ref.uid);
    }
  }

  /** The list is in order of precedence of the live objects. */
  lemma {:induction false} ListedByPrecedence(live: seq<Contributor>, existing: Status, list: seq<Listed>, i: nat, j: nat)
    requires ListOf(live, existing, list) && i < |list| && j < |list| && i != j
    ensures Precedes(list[i].obj, list[j].obj) <==> i < j
  {
    ListingIsOrdered(live, existing, list);
    OrderedPrecedes(list, i, j);
  }

  lemma {:induction false} ListingActive(live: seq<Contributor>, existing: Status, list: seq<Listed>)
    requires ListOf(live, existing, list)
    ensures Ordered(Active(list))
    ensures forall i | 0 <= i < |Active(list)| :: Active(list)[i].status.priority == Active(list)[i].obj.priority
  {
    ListingIsOrdered(live, existing, list);
    ActiveIsOrdered(list);
    assert forall i | 0 <= i < |Active(list)| :: Describes(Active(list)[i].status, Active(list)[i].obj);
  }

  /** A contributor yields exactly if its policy is Priority and someone it contends with has the higher priority. */
  lemma {:induction false} YieldsToPriority(live: seq<Contributor>, existing: Status, list: seq<Listed>, i: nat)
    requires ListOf(live, existing, list) && AllRender(Active(list)) && i < |Active(list)|
    ensures var active := Active(list);
      Yields(active, ContestedPaths(Rendered(active)), i) <==>
      active[i].obj.policy.Priority? &&
      exists text, j: nat :: Contend(active, text, i, j) && j < |active| && active[j].obj.priority > active[i].obj.priority
  {
    var active := Active(list);
    ListingActive(live, existing, list);
    YieldsExactly(active, i);
    if text, j: nat :| Contend(active, text, i, j) && j < |active| && active[j].obj.priority > active[i].obj.priority {
      assert active[j].status.priority > active[i].status.priority;
    }
    if text, j: nat :| Contend(active, text, i, j) && j < |active| && active[j].status.priority > active[i].status.priority {
      assert active[j].obj.priority > active[i].obj.priority;
    }
  }

  /** Two of policy Priority that contend and do not yield have one priority. */
  lemma {:induction false} ContendersAreEquals(live: seq<Contributor>, existing: Status, list: seq<Listed>, i: nat, j: nat, text: string)
    requires ListOf(live, existing, list) && AllRender(Active(list)) && i < |Active(list)| && j < |Active(list)|
    requires var active := Active(list);
      && Contend(active, text, i, j) && active[i].obj.policy.Priority? && active[j].obj.policy.Priority?
      && !Yields(active, ContestedPaths(Rendered(active)), i) && !Yields(active, ContestedPaths(Rendered(active)), j)
    ensures Active(list)[i].obj.priority == Active(list)[j].obj.priority
  {
    ListingActive(live, existing, list);
    UnyieldingAreEquals(Active(list), i, j, text);
  }

  /** Whoever has the highest priority of all that stay never yields. */
  lemma {:induction false} HighestPriorityStands(live: seq<Contributor>, existing: Status, list: seq<Listed>, i: nat)
    requires ListOf(live, existing, list) && AllRender(Active(list)) && i < |Active(list)|
    requires forall k | 0 <= k < |Active(list)| :: Active(list)[k].obj.priority <= Active(list)[i].obj.priority
    ensures !Yields(Active(list), ContestedPaths(Rendered(Active(list))), i)
  {
    ListingActive(live, existing, list);
    HighestNeverYields(Active(list), i);
  }

  /**
   * After a completed pass over a target, a path reads the value of the one claimant that does not yield and
   * whom every other such claimant precedes: of lower priority, or of the same priority and made later.
   */
  lemma {:induction false} LastInPrecedenceWins(u: set<Path>, target: Target, live: seq<Contributor>, status: Status, list: seq<Listed>,
                                                i: nat, p: Path)
    requires ListOf(live, status, list) && AllRender(Active(list)) && i < |Active(list)|
    requires Pass(target, status, list, true).verdict.Completed? && Departures(target, status, list).target.Some?
    requires var c := Active(list)[i].obj;
      && c.fault.Clean? && p in c.rendered.value.paths
      && Territory(u) && forall q | q in c.rendered.value.paths :: q in u
    requires var active, claims := Active(list), ContestedPaths(Rendered(Active(list)));
      && !Yields(active, claims, i)
      && forall j: nat | j < |active| && j != i :: Yields(active, claims, j) || Unconcerned(active[j], p) || Precedes(active[j].obj, active[i].obj)
    ensures var r, c := Pass(target, status, list, true).target, Active(list)[i].obj.rendered.value;
      r.Some? && Get(Obj(r.value), p).Some? && Get(Obj(r.value), p) == Get(c.obj, p)
  {
    var active, claims := Active(list), ContestedPaths(Rendered(Active(list)));
    ListingActive(live, status, list);
    forall j: nat | i + 1 <= j < |active| ensures Yields(active, claims, j) || Unconcerned(active[j], p) {
      OrderedPrecedes(active, j, i);
    }
    LastClaimantWins(u, target, status, list, i, p);
  }
}
