/** Which paths a contribution claims, said of the contribution itself, with the declared merge keys written out. */
module Claims {
  import opened Json
  import opened Text
  import opened FieldPath
  import opened PathText
  import opened Render
  import opened RenderLaws

  /** The element carries the merge key declared for the list at this path. */
  predicate Carries(e: Json, keys: MergeKeys, list: Path)
  {
    e.Obj? && Print(list) in keys && keys[Print(list)] != "" && keys[Print(list)] in e.fields
  }

  /**
   * The value found by going down q, by fields and by positions, from the value at path at. The two identity
   * fields of the whole object are not gone into, nor is an element that carries its list's merge key.
   */
  function Reach(v: Json, keys: MergeKeys, at: Path, q: Path): Option<Json>
    decreases |q|
  {
    if q == [] then Some(v)
    else if v.Obj? && q[0].Field? && q[0].name in v.fields && !(at == [] && q[0].name in {"apiVersion", "kind"}) then
      Reach(v.fields[q[0].name], keys, at + [q[0]], q[1..])
    else if v.Arr? && q[0].Index? && 0 <= q[0].i < |v.elems| && !Carries(v.elems[q[0].i], keys, at) then
      Reach(v.elems[q[0].i], keys, at + [q[0]], q[1..])
    else None
  }

  predicate IsLeafValue(v: Json)
  {
    v == EMPTY || v == Arr([]) || (!v.Obj? && !v.Arr?)
  }

  /** Of the value at path at, p is where the walk ends. */
  predicate EndsAt(v: Json, keys: MergeKeys, at: Path, p: Path)
  {
    var x := Reach(v, keys, at, p);
    x.Some? && IsLeafValue(x.value) && (at != [] || p != [])
  }

  predicate KeyedIn(es: seq<Json>, key: string, val: string)
  {
    exists i :: 0 <= i < |es| && es[i].Obj? && key in es[i].fields && Sprint(es[i].fields[key]) == val
  }

  /** Of the value at path at, p names an element by the merge key declared for its list. */
  predicate NamesElement(v: Json, keys: MergeKeys, at: Path, p: Path)
  {
    p != [] && p[|p| - 1].KeyMatch? &&
    var q, s := p[..|p| - 1], p[|p| - 1];
    var x, text := Reach(v, keys, at, q), Print(at + q);
    x.Some? && x.value.Arr? && text in keys && keys[text] == s.key != "" && KeyedIn(x.value.elems, s.key, s.val)
  }

  lemma {:induction false} LeafHere(v: Json, prefix: Path, keys: MergeKeys)
    ensures [] in LeavesBelow(v, prefix, keys) <==> EndsAt(v, keys, prefix, [])
  {
    if [] in LeavesBelow(v, prefix, keys) { LeafIsWhole(v, prefix, keys, []); }
  }

  lemma {:induction false} FieldLeaves(v: Json, prefix: Path, keys: MergeKeys, p: Path)
    requires v.Obj? && v.fields != map[] && p != []
    ensures p in LeavesBelow(v, prefix, keys) <==>
      p[0].Field? && p[0].name in v.fields && !(prefix == [] && p[0].name in {"apiVersion", "kind"})
      && p[1..] in LeavesBelow(v.fields[p[0].name], prefix + [p[0]], keys)
  {
    FieldsMember(v, SortedKeys(ClaimedNames(v.fields, prefix)), prefix, keys, p);
  }

  /** The leaves of a list: its elements by key, and what lies below the others, by position. */
  lemma {:induction false} ListLeaves(v: Json, prefix: Path, keys: MergeKeys, p: Path)
    requires v.Arr? && v.elems != [] && p != []
    ensures p in LeavesBelow(v, prefix, keys) <==>
      || (p == [p[0]] && NamesElement(v, keys, prefix, p))
      || (p[0].Index? && 0 <= p[0].i < |v.elems| && !Carries(v.elems[p[0].i], keys, prefix)
          && p[1..] in LeavesBelow(v.elems[p[0].i], prefix + [p[0]], keys))
  {
    ElementsMember(v, 0, prefix, keys, p);
    assert prefix + [] == prefix;
    forall i: nat | i < |v.elems|
      ensures p in LeavesOfElement(v, i, prefix, keys) <==>
        if Carries(v.elems[i], keys, prefix) then p == [KeyMatch(keys[Print(prefix)], Sprint(v.elems[i].fields[keys[Print(prefix)]]))]
        else p[0] == Index(i) && p[1..] in LeavesBelow(v.elems[i], prefix + [Index(i)], keys)
    {
      var seg := ElementSegment(v.elems[i], i, MergeKeyAt(keys, prefix));
      UnderMember(seg, LeavesBelow(v.elems[i], prefix + [seg], keys), p);
    }
    if p in LeavesBelow(v, prefix, keys) {
      var i: int :| 0 <= i && IsElementLeaf(v, i, prefix, keys, p);
      if Carries(v.elems[i], keys, prefix) { assert p[..0] == []; }
    }
    if p == [p[0]] && NamesElement(v, keys, prefix, p) {
      assert p[..0] == [];
      var i :| 0 <= i < |v.elems| && v.elems[i].Obj? && p[0].key in v.elems[i].fields && Sprint(v.elems[i].fields[p[0].key]) == p[0].val;
      assert IsElementLeaf(v, i, prefix, keys, p);
    }
    if p[0].Index? && 0 <= p[0].i < |v.elems| && !Carries(v.elems[p[0].i], keys, prefix)
       && p[1..] in LeavesBelow(v.elems[p[0].i], prefix + [p[0]], keys) {
      assert IsElementLeaf(v, p[0].i, prefix, keys, p);
    }
  }

  lemma {:induction false} NamesBelow(v: Json, keys: MergeKeys, at: Path, p: Path)
    requires |p| > 1
    ensures NamesElement(v, keys, at, p) <==>
      || (v.Obj? && p[0].Field? && p[0].name in v.fields && !(at == [] && p[0].name in {"apiVersion", "kind"})
          && NamesElement(v.fields[p[0].name], keys, at + [p[0]], p[1..]))
      || (v.Arr? && p[0].Index? && 0 <= p[0].i < |v.elems| && !Carries(v.elems[p[0].i], keys, at)
          && NamesElement(v.elems[p[0].i], keys, at + [p[0]], p[1..]))
  {
    var q := p[..|p| - 1];
    assert q[1..] == p[1..][..|p| - 2] && p[1..][|p| - 2] == p[|p| - 1];
    assert at + q == (at + [p[0]]) + q[1..];
  }

  lemma {:induction false} EndsBelow(v: Json, keys: MergeKeys, at: Path, p: Path)
    requires p != []
    ensures EndsAt(v, keys, at, p) <==>
      || (v.Obj? && p[0].Field? && p[0].name in v.fields && !(at == [] && p[0].name in {"apiVersion", "kind"})
          && EndsAt(v.fields[p[0].name], keys, at + [p[0]], p[1..]))
      || (v.Arr? && p[0].Index? && 0 <= p[0].i < |v.elems| && !Carries(v.elems[p[0].i], keys, at)
          && EndsAt(v.elems[p[0].i], keys, at + [p[0]], p[1..]))
  {}

  lemma {:induction false} NoNameHere(v: Json, keys: MergeKeys, at: Path, p: Path)
    requires |p| == 1 && (!v.Arr? || v.elems == [])
    ensures !NamesElement(v, keys, at, p)
  {
    assert p[..0] == [];
  }

  /** Exactly the ends of the walk, and the elements named by key, are leaves. */
  lemma {:induction false} LeavesBelowExactly(v: Json, prefix: Path, keys: MergeKeys, p: Path)
    ensures p in LeavesBelow(v, prefix, keys) <==> EndsAt(v, keys, prefix, p) || NamesElement(v, keys, prefix, p)
    decreases |p|
  {
    if p == [] {
      LeafHere(v, prefix, keys);
    } else {
      EndsBelow(v, keys, prefix, p);
      if |p| > 1 { NamesBelow(v, keys, prefix, p); } else if !v.Arr? || v.elems == [] { NoNameHere(v, keys, prefix, p); }
      if v.Obj? && v.fields != map[] {
        FieldLeaves(v, prefix, keys, p);
        if p[0].Field? && p[0].name in v.fields {
          LeavesBelowExactly(v.fields[p[0].name], prefix + [p[0]], keys, p[1..]);
          NoNameLeft(v.fields[p[0].name], keys, prefix + [p[0]], p[1..]);
        }
      } else if v.Arr? && v.elems != [] {
        ListLeaves(v, prefix, keys, p);
        if p[0].Index? && 0 <= p[0].i < |v.elems| {
          LeavesBelowExactly(v.elems[p[0].i], prefix + [p[0]], keys, p[1..]);
          NoNameLeft(v.elems[p[0].i], keys, prefix + [p[0]], p[1..]);
        }
      }
    }
  }

  lemma {:induction false} NoNameLeft(v: Json, keys: MergeKeys, at: Path, p: Path)
    ensures p == [] ==> !NamesElement(v, keys, at, p)
  {}

  // ---- The claims of a contribution ----

  /**
   * A contribution claims exactly the paths its walk ends at, at a scalar or an empty container, and, for each
   * element that carries the merge key declared for its list, the list's path with that key's value.
   */
  lemma {:induction false} LeavesExactly(fields: map<string, Json>, keys: MergeKeys, p: Path)
    ensures p in LeafPaths(fields, keys) <==> EndsAt(Obj(fields), keys, [], p) || NamesElement(Obj(fields), keys, [], p)
  {
    SortKeepsMembers(LeavesBelow(Obj(fields), [], keys), p);
    LeavesBelowExactly(Obj(fields), [], keys, p);
  }

  lemma {:induction false} ReachSplit(v: Json, keys: MergeKeys, at: Path, q: Path, r: Path)
    ensures Reach(v, keys, at, q + r) ==
      match Reach(v, keys, at, q) case None => None case Some(x) => Reach(x, keys, at + q, r)
    decreases |q|
  {
    if q == [] {
      assert q + r == r && at + q == at;
    } else {
      assert (q + r)[0] == q[0] && (q + r)[1..] == q[1..] + r;
      assert at + q == (at + [q[0]]) + q[1..];
      if v.Obj? && q[0].Field? && q[0].name in v.fields {
        ReachSplit(v.fields[q[0].name], keys, at + [q[0]], q[1..], r);
      } else if v.Arr? && q[0].Index? && 0 <= q[0].i < |v.elems| {
        ReachSplit(v.elems[q[0].i], keys, at + [q[0]], q[1..], r);
      }
    }
  }

  lemma {:induction false} ReachUsesNoKeys(v: Json, keys: MergeKeys, at: Path, q: Path)
    requires Reach(v, keys, at, q).Some?
    ensures forall i | 0 <= i < |q| :: !q[i].KeyMatch?
    decreases |q|
  {
    if q != [] {
      ReachUsesNoKeys(if v.Obj? then v.fields[q[0].name] else v.elems[q[0].i], keys, at + [q[0]], q[1..]);
      assert forall i | 1 <= i < |q| :: q[i] == q[1..][i - 1];
    }
  }

  lemma {:induction false} EndsThrough(v: Json, keys: MergeKeys, q: Path, x: Json, r: Path)
    requires q != [] && Reach(v, keys, [], q) == Some(x)
    ensures EndsAt(v, keys, [], q + r) <==> EndsAt(x, keys, q, r)
  {
    ReachSplit(v, keys, [], q, r);
    assert [] + q == q;
  }

  lemma {:induction false} NamesThrough(v: Json, keys: MergeKeys, q: Path, x: Json, r: Path)
    requires q != [] && Reach(v, keys, [], q) == Some(x)
    ensures NamesElement(v, keys, [], q + r) <==> NamesElement(x, keys, q, r)
  {
    if r == [] {
      assert q + r == q;
      ReachUsesNoKeys(v, keys, [], q);
    } else {
      var p, front := q + r, r[..|r| - 1];
      assert p[..|p| - 1] == q + front && p[|p| - 1] == r[|r| - 1] && [] + (q + front) == q + front && [] + q == q;
      ReachSplit(v, keys, [], q, front);
    }
  }

  /** What the walk finds below q is what it finds of the value at q. */
  lemma {:induction false} LeavesThrough(fields: map<string, Json>, keys: MergeKeys, q: Path, x: Json, r: Path)
    requires q != [] && Reach(Obj(fields), keys, [], q) == Some(x)
    ensures q + r in LeafPaths(fields, keys) <==> EndsAt(x, keys, q, r) || NamesElement(x, keys, q, r)
  {
    LeavesExactly(fields, keys, q + r);
    EndsThrough(Obj(fields), keys, q, x, r);
    NamesThrough(Obj(fields), keys, q, x, r);
  }

  /**
   * A list with a declared merge key: an element that carries the key is claimed whole, by the key's value and
   * not by position; any other by what lies below it, under its own position. Nothing else of the list is claimed.
   */
  lemma {:induction false} KeyedListClaims(fields: map<string, Json>, keys: MergeKeys, q: Path, es: seq<Json>)
    requires q != [] && Reach(Obj(fields), keys, [], q) == Some(Arr(es))
    requires Print(q) in keys && keys[Print(q)] != ""
    ensures var key := keys[Print(q)];
      && (forall i | 0 <= i < |es| && es[i].Obj? && key in es[i].fields ::
            && q + [KeyMatch(key, Sprint(es[i].fields[key]))] in LeafPaths(fields, keys)
            && forall r :: q + ([Index(i)] + r) !in LeafPaths(fields, keys))
      && (forall i, r | 0 <= i < |es| && !(es[i].Obj? && key in es[i].fields) ::
            q + ([Index(i)] + r) in LeafPaths(fields, keys) <==>
            EndsAt(es[i], keys, q + [Index(i)], r) || NamesElement(es[i], keys, q + [Index(i)], r))
      && (forall s: Segment, r: Path | q + ([s] + r) in LeafPaths(fields, keys) ::
            (s.Index? && 0 <= s.i < |es|) || (r == [] && s.KeyMatch? && s.key == key && KeyedIn(es, key, s.val)))
  {
    var key := keys[Print(q)];
    forall i | 0 <= i < |es| && es[i].Obj? && key in es[i].fields
      ensures q + [KeyMatch(key, Sprint(es[i].fields[key]))] in LeafPaths(fields, keys)
      ensures forall r :: q + ([Index(i)] + r) !in LeafPaths(fields, keys)
    {
      var named := [KeyMatch(key, Sprint(es[i].fields[key]))];
      LeavesThrough(fields, keys, q, Arr(es), named);
      assert named[..0] == [] && q + [] == q;
      forall r ensures q + ([Index(i)] + r) !in LeafPaths(fields, keys) {
        BelowPosition(fields, keys, q, es, i, r);
      }
    }
    forall i, r | 0 <= i < |es| && !(es[i].Obj? && key in es[i].fields)
      ensures q + ([Index(i)] + r) in LeafPaths(fields, keys) <==>
        EndsAt(es[i], keys, q + [Index(i)], r) || NamesElement(es[i], keys, q + [Index(i)], r)
    {
      BelowPosition(fields, keys, q, es, i, r);
    }
    forall s: Segment, r: Path | q + ([s] + r) in LeafPaths(fields, keys)
      ensures (s.Index? && 0 <= s.i < |es|) || (r == [] && s.KeyMatch? && s.key == key && KeyedIn(es, key, s.val))
    {
      StepFromList(fields, keys, q, es, s, r);
    }
  }

  lemma {:induction false} BelowPosition(fields: map<string, Json>, keys: MergeKeys, q: Path, es: seq<Json>, i: nat, r: Path)
    requires q != [] && Reach(Obj(fields), keys, [], q) == Some(Arr(es)) && i < |es|
    ensures q + ([Index(i)] + r) in LeafPaths(fields, keys) <==>
      !Carries(es[i], keys, q) && (EndsAt(es[i], keys, q + [Index(i)], r) || NamesElement(es[i], keys, q + [Index(i)], r))
  {
    var p := [Index(i)] + r;
    LeavesThrough(fields, keys, q, Arr(es), p);
    assert p[0] == Index(i) && p[1..] == r;
    if r == [] {
      assert p == [Index(i)];
    } else {
      NamesBelow(Arr(es), keys, q, p);
    }
  }

  lemma {:induction false} StepFromList(fields: map<string, Json>, keys: MergeKeys, q: Path, es: seq<Json>, s: Segment, r: Path)
    requires q != [] && Reach(Obj(fields), keys, [], q) == Some(Arr(es))
    requires q + ([s] + r) in LeafPaths(fields, keys)
    ensures (s.Index? && 0 <= s.i < |es|) ||
      (r == [] && s.KeyMatch? && Print(q) in keys && s.key == keys[Print(q)] && KeyedIn(es, s.key, s.val))
  {
    var p := [s] + r;
    LeavesThrough(fields, keys, q, Arr(es), p);
    assert p[0] == s && p[1..] == r;
    if r == [] {
      assert p == [s] && p[..0] == [] && q + [] == q;
    } else if NamesElement(Arr(es), keys, q, p) {
      NamesBelow(Arr(es), keys, q, p);
    }
  }

  lemma {:induction false} NotAnEnd(v: Json, keys: MergeKeys, at: Path, p: Path, i: nat)
    requires i < |p| && p[i].KeyMatch?
    ensures !EndsAt(v, keys, at, p)
  {
    if Reach(v, keys, at, p).Some? { ReachUsesNoKeys(v, keys, at, p); }
  }

  lemma {:induction false} NotAName(v: Json, keys: MergeKeys, q: Path, s: Segment, r: Path)
    requires (Print(q) !in keys || keys[Print(q)] == "") && s.KeyMatch?
    ensures !NamesElement(v, keys, [], q + ([s] + r))
  {
    var p := q + ([s] + r);
    var front := p[..|p| - 1];
    assert [] + front == front;
    assert r == [] ==> front == q;
    assert r != [] ==> front[|q|] == s;
    if Reach(v, keys, [], front).Some? { ReachUsesNoKeys(v, keys, [], front); }
  }

  /** From a path without a declared merge key no claim goes on by a key match. */
  lemma {:induction false} UndeclaredListClaims(fields: map<string, Json>, keys: MergeKeys, q: Path, s: Segment, r: Path)
    requires (Print(q) !in keys || keys[Print(q)] == "") && s.KeyMatch?
    ensures q + ([s] + r) !in LeafPaths(fields, keys)
  {
    var p := q + ([s] + r);
    LeavesExactly(fields, keys, p);
    assert p[|q|] == s;
    NotAnEnd(Obj(fields), keys, [], p, |q|);
    NotAName(Obj(fields), keys, q, s, r);
  }

  predicate InTextOrder(ps: seq<Path>)
  {
    forall i, j | 0 <= i < j < |ps| :: Leq(Print(ps[i]), Print(ps[j]))
  }

  lemma {:induction false} FirstInText(p: Path, ps: seq<Path>)
    requires InTextOrder(ps) && forall q | q in ps :: Leq(Print(p), Print(q))
    ensures InTextOrder([p] + ps)
  {}

  lemma {:induction false} InsertKeepsOrder(p: Path, sorted: seq<Path>)
    requires InTextOrder(sorted)
    ensures InTextOrder(InsertPath(p, sorted))
    decreases |sorted|
  {
    if sorted != [] {
      var first, rest := sorted[0], sorted[1..];
      LeqTotal(Print(p), Print(first));
      assert InTextOrder(rest) by { assert forall i | 0 <= i < |rest| :: rest[i] == sorted[i + 1]; }
      if Leq(Print(p), Print(first)) {
        forall q | q in sorted ensures Leq(Print(p), Print(q)) {
          var j :| 0 <= j < |sorted| && sorted[j] == q;
          if j > 0 { LeqTransitive(Print(p), Print(first), Print(q)); }
        }
        FirstInText(p, sorted);
      } else {
        InsertKeepsOrder(p, rest);
        BehindFirst(p, sorted);
        FirstInText(first, InsertPath(p, rest));
      }
    }
  }

  lemma {:induction false} BehindFirst(p: Path, sorted: seq<Path>)
    requires sorted != [] && InTextOrder(sorted) && Leq(Print(sorted[0]), Print(p))
    ensures forall q | q in InsertPath(p, sorted[1..]) :: Leq(Print(sorted[0]), Print(q))
  {
    forall q | q in InsertPath(p, sorted[1..]) ensures Leq(Print(sorted[0]), Print(q)) {
      assert q in multiset(InsertPath(p, sorted[1..]));
      if q != p {
        assert q in multiset(sorted[1..]);
        var j :| 0 <= j < |sorted[1..]| && sorted[1..][j] == q;
        assert sorted[j + 1] == q;
      }
    }
  }

  lemma {:induction false} SortedByText(ps: seq<Path>)
    ensures InTextOrder(SortPaths(ps))
  {
    if ps != [] {
      SortedByText(ps[1..]);
      InsertKeepsOrder(ps[0], SortPaths(ps[1..]));
    }
  }

  /** The claims are listed in the order of their texts. */
  lemma {:induction false} LeavesInTextOrder(fields: map<string, Json>, keys: MergeKeys)
    ensures InTextOrder(LeafPaths(fields, keys))
  {
    SortedByText(LeavesBelow(Obj(fields), [], keys));
  }
}
