/** The contributor list of a pass: live contributors, in whatever order they were listed, with their records. */
module Listing {
  import opened Json
  import opened Trackers
  import opened Ordering
  import opened Sorting
  import opened TrackerPass

  /** A fresh record, carrying forward what the tracker already holds for this contributor. */
  function RecordFor(c: Contributor, existing: Status): Record
  {
    var i := Find(existing.contributors, c.ref);
    var blank := Record(c.ref, c.generation, c.priority, "", "", "", [], None, false, Some(c.creation));
    var rec :=
      if i < 0 then blank else
      var prev := existing.contributors[i];
      blank.(fieldManager := prev.fieldManager, lastAppliedHash := prev.lastAppliedHash,
             ownedPaths := prev.ownedPaths, priors := prev.priors, captured := prev.captured, state := prev.state);
    if rec.fieldManager == "" then rec.(fieldManager := c.manager) else rec
  }

  /** One contributor: by UID where both sides have one, else by kind, namespace and name. */
  predicate OneContributor(a: ContributorRef, b: ContributorRef)
  {
    (a.uid != "" && a.uid == b.uid) ||
    ((a.uid == "" || b.uid == "") && a.kind == b.kind && a.namespace == b.namespace && a.name == b.name)
  }

  /** Number k of these is the first record of this contributor. */
  predicate FirstOf(records: seq<Record>, k: nat, ref: ContributorRef)
  {
    k < |records| && OneContributor(records[k].ref, ref) && forall j | 0 <= j < k :: !OneContributor(records[j].ref, ref)
  }

  /** What the record says of the live object itself. */
  predicate Describes(r: Record, c: Contributor)
  {
    r.ref == c.ref && r.generation == c.generation && r.priority == c.priority && r.creation == Some(c.creation)
  }

  /** What the record brings over from an earlier one. */
  predicate BringsOver(r: Record, prev: Record, c: Contributor)
  {
    && r.ownedPaths == prev.ownedPaths && r.priors == prev.priors && r.captured == prev.captured
    && r.lastAppliedHash == prev.lastAppliedHash && r.state == prev.state
    && r.fieldManager == if prev.fieldManager != "" then prev.fieldManager else c.manager
  }

  /** Nothing is on record of the contributor yet. */
  predicate IsBlank(r: Record, c: Contributor)
  {
    r.ownedPaths == [] && r.priors.None? && !r.captured && r.lastAppliedHash == "" && r.state == "" && r.fieldManager == c.manager
  }

  /** The object's own reference, generation, priority and creation; the rest from the tracker's record of it, if any. */
  ghost predicate Tells(r: Record, c: Contributor, existing: Status)
  {
    && Describes(r, c)
    && (forall k: nat | FirstOf(existing.contributors, k, c.ref) :: BringsOver(r, existing.contributors[k], c))
    && ((forall prev | prev in existing.contributors :: !OneContributor(prev.ref, c.ref)) ==> IsBlank(r, c))
  }

  lemma {:induction false} RecordTells(c: Contributor, existing: Status)
    ensures Tells(RecordFor(c, existing), c, existing)
  {
    var records, i := existing.contributors, Find(existing.contributors, c.ref);
    forall k: nat | FirstOf(records, k, c.ref) ensures i == k {
      assert SameContributor(records[k].ref, c.ref);
      assert i >= 0 && SameContributor(records[i].ref, c.ref);
      assert OneContributor(records[i].ref, c.ref);
      assert i <= k;
    }
    if i >= 0 { assert records[i] in records && OneContributor(records[i].ref, c.ref); }
  }

  function RefText(r: ContributorRef): string
  {
    if r.namespace == "" then r.kind + "/" + r.name else r.kind + "/" + r.namespace + "/" + r.name
  }

  lemma {:induction false} CutAtSlash(a: string, x: string, b: string, y: string)
    requires '/' !in a && '/' !in b && a + "/" + x == b + "/" + y
    ensures a == b && x == y
  {
    var s := a + "/" + x;
    assert s[|a|] == '/' && s[|b|] == '/';
    assert forall k | 0 <= k < |a| :: s[k] == a[k] && a[k] in a;
    assert forall k | 0 <= k < |b| :: s[k] == b[k] && b[k] in b;
    assert |a| == |b|;
    assert a == s[..|a|] && b == s[..|b|] && x == s[|a| + 1..] && y == s[|b| + 1..];
  }

  /** Kinds, namespaces and names hold no slash, so the text of a reference tells contributors apart. */
  lemma {:induction false} TextTellsApart(r: ContributorRef, t: ContributorRef)
    requires '/' !in r.kind && '/' !in r.namespace && '/' !in r.name
    requires '/' !in t.kind && '/' !in t.namespace && '/' !in t.name
    requires RefText(r) == RefText(t)
    ensures r.(uid := "") == t.(uid := "")
  {
    var rest := if r.namespace == "" then r.name else r.namespace + "/" + r.name;
    var rest' := if t.namespace == "" then t.name else t.namespace + "/" + t.name;
    assert RefText(r) == r.kind + "/" + rest && RefText(t) == t.kind + "/" + rest';
    CutAtSlash(r.kind, rest, t.kind, rest');
    if r.namespace != "" && t.namespace != "" {
      CutAtSlash(r.namespace, r.name, t.namespace, t.name);
    }
    if r.namespace != "" { assert rest[|r.namespace|] == '/' && '/' in rest; }
    if t.namespace != "" { assert rest'[|t.namespace|] == '/' && '/' in rest'; }
  }

  function RecordsFor(live: seq<Contributor>, existing: Status): seq<Record>
  {
    seq(|live|, i requires 0 <= i < |live| => RecordFor(live[i], existing))
  }

  /** Live objects of one kind never share a namespace and name. */
  predicate DistinctNames(live: seq<Contributor>)
  {
    forall i, j | 0 <= i < |live| && 0 <= j < |live| && i != j :: RefText(live[i].ref) != RefText(live[j].ref)
  }

  /** Nor do any two share a UID, or lack one. */
  predicate DistinctIds(live: seq<Contributor>)
  {
    forall i, j | 0 <= i < |live| && 0 <= j < |live| && i != j :: live[i].ref.uid != live[j].ref.uid
  }

  /** Every live contributor once, paired with its own record, in the order of the records. */
  ghost predicate ListedInOrder(live: seq<Contributor>, existing: Status, list: seq<Listed>)
  {
    && Refs(list) == Sorted(RecordsFor(live, existing), Before)
    && forall i | 0 <= i < |list| :: list[i].obj in live && list[i].status == RecordFor(list[i].obj, existing)
  }

  lemma {:induction false} SameRecords(records: seq<Record>)
    ensures multiset(Sorted(records, Before)) == multiset(records)
    ensures |Sorted(records, Before)| == |records|
    ensures forall r :: r in Sorted(records, Before) <==> r in records
  {
    BeforeIsStrictOrder();
    SortedKeeps(records, Before);
    var sorted := Sorted(records, Before);
    assert |sorted| == |multiset(sorted)| && |records| == |multiset(records)|;
    forall r ensures r in sorted <==> r in records {
      assert r in multiset(sorted) <==> r in multiset(records);
    }
  }

  /** What a list says of the contributors, and in which order. */
  lemma {:induction false} ListTells(live: seq<Contributor>, existing: Status, list: seq<Listed>)
    requires ListedInOrder(live, existing, list)
    ensures AllRanked(Refs(list)) && multiset(Refs(list)) == multiset(RecordsFor(live, existing))
    ensures forall i | 0 <= i < |list| :: list[i].obj in live && Tells(list[i].status, list[i].obj, existing)
  {
    SortedContributors(RecordsFor(live, existing));
    forall i | 0 <= i < |list| ensures Tells(list[i].status, list[i].obj, existing) {
      RecordTells(list[i].obj, existing);
    }
  }

  method IndexByName(live: seq<Contributor>) returns (byKey: map<string, Contributor>)
    requires DistinctNames(live)
    ensures forall c :: c in live ==> RefText(c.ref) in byKey && byKey[RefText(c.ref)] == c
  {
    byKey := map[];
    for i := 0 to |live|
      invariant forall k | 0 <= k < i :: RefText(live[k].ref) in byKey && byKey[RefText(live[k].ref)] == live[k]
    {
      byKey := byKey[RefText(live[i].ref) := live[i]];
    }
  }

  lemma {:induction false} Owner(live: seq<Contributor>, existing: Status, rec: Record) returns (c: Contributor)
    requires rec in RecordsFor(live, existing)
    ensures c in live && rec == RecordFor(c, existing) && rec.ref == c.ref
  {
    var n :| 0 <= n < |live| && RecordsFor(live, existing)[n] == rec;
    c := live[n];
  }

  /** Each record with its object, found again by name. */
  method Paired(records: seq<Record>, byKey: map<string, Contributor>, live: seq<Contributor>, existing: Status)
    returns (list: seq<Listed>)
    requires forall r :: r in records <==> r in RecordsFor(live, existing)
    requires forall c :: c in live ==> RefText(c.ref) in byKey && byKey[RefText(c.ref)] == c
    ensures Refs(list) == records
    ensures forall i | 0 <= i < |list| :: list[i].obj in live && list[i].status == RecordFor(list[i].obj, existing)
  {
    list := [];
    for i := 0 to |records|
      invariant |list| == i
      invariant forall k | 0 <= k < i :: list[k].status == records[k]
      invariant forall k | 0 <= k < i :: list[k].obj in live && list[k].status == RecordFor(list[k].obj, existing)
    {
      ghost var c := Owner(live, existing, records[i]);
      var key := RefText(records[i].ref);
      if key in byKey {
        list := list + [Listed(byKey[key], records[i])];
      }
    }
  }

  method ListContributors(live: seq<Contributor>, existing: Status) returns (list: seq<Listed>)
    requires DistinctNames(live)
    ensures ListedInOrder(live, existing, list)
    ensures AllRanked(Refs(list))
    ensures forall i | 0 <= i < |list| :: list[i].obj in live && Tells(list[i].status, list[i].obj, existing)
  {
    var unsorted := RecordsFor(live, existing);
    var records := new Record[|unsorted|](i requires 0 <= i < |unsorted| => unsorted[i]);
    assert records[..] == unsorted;
    SortContributors(records);
    SameRecords(unsorted);
    var byKey := IndexByName(live);
    list := Paired(records[..], byKey, live, existing);
    ListTells(live, existing, list);
  }

  function Image<A, B>(s: seq<A>, f: A -> B): seq<B>
  {
    seq(|s|, i requires 0 <= i < |s| => f(s[i]))
  }

  function Without<T>(t: seq<T>, j: nat): seq<T>
    requires j < |t|
  {
    t[..j] + t[j + 1..]
  }

  lemma {:induction false} WithoutOne<T>(t: seq<T>, j: nat)
    requires j < |t|
    ensures multiset(t) == multiset(Without(t, j)) + multiset{t[j]}
    ensures multiset(Without(t, j)) == multiset(t) - multiset{t[j]}
  {
    assert t == t[..j] + [t[j]] + t[j + 1..];
  }

  lemma {:induction false} ImageWithout<A, B>(t: seq<A>, j: nat, f: A -> B)
    requires j < |t|
    ensures Image(Without(t, j), f) == Without(Image(t, f), j)
  {}

  lemma {:induction false} ImagePermuted<A(!new), B(!new)>(s: seq<A>, t: seq<A>, f: A -> B)
    requires multiset(s) == multiset(t)
    ensures multiset(Image(s, f)) == multiset(Image(t, f))
    decreases |s|
  {
    assert |s| == |multiset(s)| && |t| == |multiset(t)|;
    if s != [] {
      assert s[0] in multiset(t);
      var j :| 0 <= j < |t| && t[j] == s[0];
      WithoutOne(s, 0);
      WithoutOne(t, j);
      ImagePermuted(Without(s, 0), Without(t, j), f);
      ImageWithout(s, 0, f);
      ImageWithout(t, j, f);
      WithoutOne(Image(s, f), 0);
      WithoutOne(Image(t, f), j);
    }
  }

  lemma {:induction false} RecordsArePermuted(live: seq<Contributor>, live': seq<Contributor>, existing: Status)
    requires multiset(live) == multiset(live')
    ensures multiset(RecordsFor(live, existing)) == multiset(RecordsFor(live', existing))
  {
    var f := (c: Contributor) => RecordFor(c, existing);
    ImagePermuted(live, live', f);
    assert Image(live, f) == RecordsFor(live, existing) && Image(live', f) == RecordsFor(live', existing);
  }

  /** Distinct UIDs: one record, one contributor. */
  lemma {:induction false} SameObject(live: seq<Contributor>, existing: Status, a: Listed, b: Listed)
    requires DistinctIds(live) && a.obj in live && b.obj in live && a.status == b.status
    requires a.status == RecordFor(a.obj, existing) && b.status == RecordFor(b.obj, existing)
    ensures a.obj == b.obj
  {
    assert a.obj.ref == a.status.ref == b.obj.ref;
  }

  lemma {:induction false} OneListPerOrder(live: seq<Contributor>, existing: Status, list: seq<Listed>, list': seq<Listed>)
    requires DistinctIds(live) && Refs(list) == Refs(list')
    requires forall i | 0 <= i < |list| :: list[i].obj in live && list[i].status == RecordFor(list[i].obj, existing)
    requires forall i | 0 <= i < |list'| :: list'[i].obj in live && list'[i].status == RecordFor(list'[i].obj, existing)
    ensures list == list'
  {
    assert |Refs(list)| == |list| && |Refs(list')| == |list'|;
    forall i | 0 <= i < |list| ensures list[i] == list'[i] {
      assert Refs(list)[i] == list[i].status && Refs(list')[i] == list'[i].status;
      SameObject(live, existing, list[i], list'[i]);
    }
  }

  lemma {:induction false} EveryoneIsListed(live: seq<Contributor>, existing: Status, list: seq<Listed>, c: Contributor)
    requires DistinctIds(live) && ListedInOrder(live, existing, list) && c in live
    ensures exists i :: 0 <= i < |list| && list[i].obj == c
  {
    var records := RecordsFor(live, existing);
    SameRecords(records);
    var n :| 0 <= n < |live| && live[n] == c;
    assert records[n] in records;
    var i :| 0 <= i < |Refs(list)| && Refs(list)[i] == records[n];
    SameObject(live, existing, list[i], Listed(c, records[n]));
  }

  lemma {:induction false} RecordsAreDistinct(live: seq<Contributor>, existing: Status)
    requires DistinctIds(live)
    ensures DistinctUids(RecordsFor(live, existing))
  {
    var records := RecordsFor(live, existing);
    forall i, j | 0 <= i < |records| && 0 <= j < |records| && i != j ensures records[i].ref.uid != records[j].ref.uid {
      assert records[i].ref == live[i].ref && records[j].ref == live[j].ref;
    }
  }

  /** The list does not depend on the order in which the API server returned the contributors. */
  lemma {:induction false} ListIsUnique(live: seq<Contributor>, live': seq<Contributor>, existing: Status, list: seq<Listed>, list': seq<Listed>)
    requires DistinctIds(live) && multiset(live) == multiset(live')
    requires ListedInOrder(live, existing, list) && ListedInOrder(live', existing, list')
    ensures list == list'
    ensures AllRanked(Refs(list)) && |list| == |live|
    ensures forall c | c in live :: exists i :: 0 <= i < |list| && list[i].obj == c
  {
    var records, records' := RecordsFor(live, existing), RecordsFor(live', existing);
    RecordsArePermuted(live, live', existing);
    RecordsAreDistinct(live, existing);
    ArrivalDoesNotMatter(records, records');
    SameRecords(records);
    InOrderIsRanked(Refs(list));
    assert |Refs(list)| == |list|;
    forall i | 0 <= i < |list'| ensures list'[i].obj in live {
      assert list'[i].obj in multiset(live');
    }
    OneListPerOrder(live, existing, list, list');
    forall c | c in live ensures exists i :: 0 <= i < |list| && list[i].obj == c {
      EveryoneIsListed(live, existing, list, c);
    }
  }
}
