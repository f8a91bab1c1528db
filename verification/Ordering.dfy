/** The order in which contributors are recorded and applied. */
module Ordering {
  import opened Text
  import opened Trackers
  import opened Sorting

  predicate BeforeUid(a: string, b: string)
  {
    a != b && Leq(a, b)
  }

  /** Priority descending, then creation ascending with unknown last, then UID. */
  predicate Before(a: Record, b: Record)
  {
    if a.priority != b.priority then a.priority > b.priority
    else if a.creation.Some? && b.creation.Some? && a.creation.value != b.creation.value then
      a.creation.value < b.creation.value
    else if a.creation.Some? && b.creation.None? then true
    else if a.creation.None? && b.creation.Some? then false
    else BeforeUid(a.ref.uid, b.ref.uid)
  }

  lemma {:induction false} UidsAreOrdered(a: string, b: string, c: string)
    ensures BeforeUid(a, b) ==> !BeforeUid(b, a)
    ensures !BeforeUid(a, b) && !BeforeUid(b, c) ==> !BeforeUid(a, c)
    ensures a != b ==> BeforeUid(a, b) || BeforeUid(b, a)
  {
    LeqTotal(a, b);
    LeqTotal(b, c);
    if Leq(a, b) && Leq(b, a) { LeqAntisymmetric(a, b); }
    if Leq(c, b) && Leq(b, a) { LeqTransitive(c, b, a); }
    if Leq(a, c) && Leq(c, a) { LeqAntisymmetric(a, c); }
  }

  lemma {:induction false} BeforeIsStrictOrder()
    ensures StrictOrder(Before)
  {
    forall a, b | Before(a, b) ensures !Before(b, a) {
      UidsAreOrdered(a.ref.uid, b.ref.uid, b.ref.uid);
    }
    forall a, b, c | !Before(a, b) && !Before(b, c) ensures !Before(a, c) {
      UidsAreOrdered(a.ref.uid, b.ref.uid, c.ref.uid);
    }
  }

  /**
   * a may stand in front of b: the higher priority first; of one priority, a known creation before an unknown
   * one and the earlier before the later; then the UID that sorts no later.
   */
  predicate Ranked(a: Record, b: Record)
  {
    && a.priority >= b.priority
    && (a.priority == b.priority ==>
          && (b.creation.Some? ==> a.creation.Some?)
          && (a.creation.Some? && b.creation.Some? ==> a.creation.value <= b.creation.value)
          && (a.creation == b.creation ==> Leq(a.ref.uid, b.ref.uid)))
  }

  predicate AllRanked(s: seq<Record>)
  {
    forall i, j | 0 <= i < j < |s| :: Ranked(s[i], s[j])
  }

  lemma {:induction false} RankedExactly(a: Record, b: Record)
    ensures Ranked(a, b) <==> !Before(b, a)
  {
    LeqTotal(a.ref.uid, b.ref.uid);
    if Leq(a.ref.uid, b.ref.uid) && Leq(b.ref.uid, a.ref.uid) { LeqAntisymmetric(a.ref.uid, b.ref.uid); }
  }

  /** Being sorted is being ranked throughout. */
  lemma {:induction false} InOrderIsRanked(s: seq<Record>)
    ensures InOrder(s, Before) <==> AllRanked(s)
  {
    forall i, j | 0 <= i < j < |s| ensures Ranked(s[i], s[j]) <==> !Before(s[j], s[i]) {
      RankedExactly(s[i], s[j]);
    }
  }

  /** The records that nothing tells from r in this order. */
  function Peers(s: seq<Record>, r: Record): seq<Record>
  {
    Those(s, (x: Record) => x.priority == r.priority && x.creation == r.creation && x.ref.uid == r.ref.uid)
  }

  lemma {:induction false} SortedContributors(s: seq<Record>)
    ensures AllRanked(Sorted(s, Before)) && multiset(Sorted(s, Before)) == multiset(s)
    ensures forall r :: Peers(Sorted(s, Before), r) == Peers(s, r)
  {
    BeforeIsStrictOrder();
    SortedKeeps(s, Before);
    InOrderIsRanked(Sorted(s, Before));
    forall r ensures Peers(Sorted(s, Before), r) == Peers(s, r) {
      SortedIsStable(s, Before, (x: Record) => x.priority == r.priority && x.creation == r.creation && x.ref.uid == r.ref.uid);
    }
  }

  method SortContributors(records: array<Record>)
    modifies records
    ensures records[..] == Sorted(old(records[..]), Before)
    ensures AllRanked(records[..]) && multiset(records[..]) == multiset(old(records[..]))
    ensures forall r :: Peers(records[..], r) == Peers(old(records[..]), r)
  {
    SortedContributors(records[..]);
    SortStable(records, Before);
  }

  /** No two records carry one UID. */
  predicate DistinctUids(s: seq<Record>)
  {
    forall i, j | 0 <= i < |s| && 0 <= j < |s| && i != j :: s[i].ref.uid != s[j].ref.uid
  }

  /** However the records arrive, distinct UIDs leave exactly one order to store them in. */
  lemma {:induction false} ArrivalDoesNotMatter(s: seq<Record>, t: seq<Record>)
    requires DistinctUids(s) && multiset(s) == multiset(t)
    ensures InOrder(Sorted(s, Before), Before) && multiset(Sorted(s, Before)) == multiset(s)
    ensures InOrder(t, Before) ==> t == Sorted(s, Before)
    ensures Sorted(t, Before) == Sorted(s, Before)
  {
    BeforeIsStrictOrder();
    SortedKeeps(s, Before);
    SortedKeeps(t, Before);
    var u := Sorted(s, Before);
    forall a, b | a in u && b in u && a != b ensures Before(a, b) || Before(b, a) {
      assert a in multiset(s) && b in multiset(s);
      assert a in s && b in s;
      UidsAreOrdered(a.ref.uid, b.ref.uid, b.ref.uid);
    }
    OrderIsUnique(u, Sorted(t, Before), Before);
    if InOrder(t, Before) { OrderIsUnique(u, t, Before); }
  }
}
