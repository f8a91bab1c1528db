/**
 * The core of a document: what is left of it when every claim is masked. Writing and withdrawing
 * claims leaves the core alone, so what a run may have changed besides the claims shows in it.
 */
module TreeCore {
  import opened Json
  import opened FieldPath
  import opened FieldLaws
  import opened ApplyLaws
  import opened DeleteUndoesSet

  /** Claims as contributions render them: fields all the way, and at the end a field or a list element. */
  ghost predicate LeafClaims(u: set<Path>)
  {
    Territory(u) && forall p: Path, i | p in u && 0 <= i < |p| - 1 :: p[i].IsField()
  }

  /** Some claim lies below this position. */
  ghost predicate Leads(u: set<Path>, at: Path)
  {
    exists p :: p in u && at < p
  }

  ghost predicate ClaimsElement(u: set<Path>, at: Path, key: string, val: string)
  {
    at + [KeyMatch(key, val)] in u
  }

  /** Claims are made on elements of a list at this position. */
  ghost predicate ClaimsList(u: set<Path>, at: Path)
  {
    exists key, val :: ClaimsElement(u, at, key, val)
  }

  ghost function KeyAt(u: set<Path>, at: Path): string
    requires ClaimsList(u, at)
  {
    var key, val :| ClaimsElement(u, at, key, val);
    key
  }

  /** Marks the place of a claimed element. */
  function Marker(key: string, val: string): Json
  {
    Obj(map[key := Str(val)])
  }

  /** The first element of a claim: one of its key's value, and none before it was. */
  ghost predicate IsClaimed(e: Json, u: set<Path>, at: Path, seen: set<string>)
    requires ClaimsList(u, at)
  {
    e.Obj? && KeyText(e, KeyAt(u, at)) !in seen && ClaimsElement(u, at, KeyAt(u, at), KeyText(e, KeyAt(u, at)))
  }

  ghost function SeenAfter(e: Json, u: set<Path>, at: Path, seen: set<string>): set<string>
    requires ClaimsList(u, at)
  {
    if IsClaimed(e, u, at, seen) then seen + {KeyText(e, KeyAt(u, at))} else seen
  }

  /** The first element of each claim is marked if the claim was there at first, and left out otherwise. */
  ghost function CoreElems(es: seq<Json>, u: set<Path>, kept: set<Path>, at: Path, seen: set<string>): seq<Json>
    requires ClaimsList(u, at)
    decreases |es|
  {
    if es == [] then [] else
    var key, e := KeyAt(u, at), es[0];
    if IsClaimed(e, u, at, seen) then
      (if at + [KeyMatch(key, KeyText(e, key))] in kept then [Marker(key, KeyText(e, key))] else [])
      + CoreElems(es[1..], u, kept, at, seen + {KeyText(e, key)})
    else [e] + CoreElems(es[1..], u, kept, at, seen)
  }

  /**
   * The core of the value at a position. Claims count by whether they are kept, that is, were there at
   * first; on the way to claims a null or an empty container is nothing.
   */
  ghost function CoreOf(c: Json, u: set<Path>, kept: set<Path>, at: Path): Option<Json>
    decreases c, 1
  {
    if at in u then (if at in kept then Some(Null) else None)
    else if !Leads(u, at) then Some(c)
    else if c.Null? then None
    else if c.Arr? && ClaimsList(u, at) then
      var es := CoreElems(c.elems, u, kept, at, {});
      if es == [] then None else Some(Arr(es))
    else if c.Obj? && !ClaimsList(u, at) then
      var m := CoreFields(c, u, kept, at);
      if m == map[] then None else Some(Obj(m))
    else Some(c)
  }

  ghost function CoreFields(c: Json, u: set<Path>, kept: set<Path>, at: Path): map<string, Json>
    requires c.Obj?
    decreases c, 0
  {
    map f | f in c.fields && CoreOf(c.fields[f], u, kept, at + [Field(f)]).Some? ::
      CoreOf(c.fields[f], u, kept, at + [Field(f)]).value
  }

  ghost function CoreAt(m: map<string, Json>, f: string, u: set<Path>, kept: set<Path>, at: Path): Option<Json>
  {
    if f in m then CoreOf(m[f], u, kept, at + [Field(f)]) else None
  }

  lemma {:induction false} SameCoreFields(m: map<string, Json>, n: map<string, Json>, u: set<Path>, kept: set<Path>, at: Path)
    requires forall f | f in m || f in n :: CoreAt(m, f, u, kept, at) == CoreAt(n, f, u, kept, at)
    ensures CoreFields(Obj(m), u, kept, at) == CoreFields(Obj(n), u, kept, at)
  {
    var a, b := CoreFields(Obj(m), u, kept, at), CoreFields(Obj(n), u, kept, at);
    forall f ensures f in a <==> f in b {
      if f in a { assert CoreAt(m, f, u, kept, at).Some?; }
      if f in b { assert CoreAt(n, f, u, kept, at).Some?; }
    }
    forall f | f in a ensures a[f] == b[f] {
      assert CoreAt(m, f, u, kept, at) == CoreAt(n, f, u, kept, at);
    }
  }

  // ---- Positions ----

  lemma {:induction false} Further(at: Path, r: Path)
    requires r != []
    ensures at + r == (at + [r[0]]) + r[1..]
    ensures (at + r)[..|at|] == at && (at + r)[|at|..] == r
  {}

  /** Two claims below one position part there or later. */
  lemma {:induction false} ClaimsPart(u: set<Path>, at: Path, r: Path, s: Path)
    requires Territory(u) && at + r in u && at + s in u && r != s
    ensures r != [] && s != [] && Diverge(r, s)
  {
    if r != [] { Further(at, r); }
    if s != [] { Further(at, s); }
    assert at + r != at + s by {
      if |r| == |s| { var i :| 0 <= i < |r| && r[i] != s[i]; assert (at + r)[|at| + i] != (at + s)[|at| + i]; }
    }
    assert Diverge(at + r, at + s);
    assert (at + r)[..|at|] == at == (at + s)[..|at|];
    DivergeBelow(at + r, at + s, |at|);
    assert (at + r)[|at|..] == r && (at + s)[|at|..] == s;
  }

  lemma {:induction false} OneKey(u: set<Path>, at: Path, key: string, val: string)
    requires Territory(u) && ClaimsElement(u, at, key, val)
    ensures ClaimsList(u, at) && KeyAt(u, at) == key
  {
    var k := KeyAt(u, at);
    var v :| ClaimsElement(u, at, k, v);
    if KeyMatch(k, v) != KeyMatch(key, val) { ClaimsPart(u, at, [KeyMatch(k, v)], [KeyMatch(key, val)]); }
  }

  /** What a claim below a position says of the position. */
  lemma {:induction false} OnTheWay(u: set<Path>, at: Path, r: Path)
    requires LeafClaims(u) && at + r in u && r != []
    ensures Leads(u, at) && at !in u
    ensures r[0].IsField() ==> !ClaimsList(u, at)
    ensures !r[0].IsField() ==> r[0].IsKeyMatch() && |r| == 1 && ClaimsList(u, at) && KeyAt(u, at) == r[0].key
    ensures KeyedSteps(r)
  {
    var p := at + r;
    Further(at, r);
    assert at < p && p[|at|] == r[0] && r[0] in p;
    if at in u { assert at + [] == at; ClaimsPart(u, at, [], r); }
    assert |r| > 1 ==> p[|at|].IsField();
    if !r[0].IsField() {
      assert r == [KeyMatch(r[0].key, r[0].val)];
      OneKey(u, at, r[0].key, r[0].val);
    } else if key, val :| ClaimsElement(u, at, key, val) {
      ClaimsPart(u, at, r, [KeyMatch(key, val)]);
    }
    assert Keyed(p);
    forall s | s in r ensures s.IsField() || s.IsKeyMatch() { assert s in p; }
    forall i | 0 <= i < |r| - 1 ensures r[i].IsField() { assert r[i] == p[|at| + i]; }
  }

  lemma {:induction false} EmptyHasNoCore(u: set<Path>, kept: set<Path>, at: Path, r: Path)
    requires LeafClaims(u) && at + r in u && r != []
    ensures CoreOf(EmptyFor(r[0]), u, kept, at).None? && CoreOf(Null, u, kept, at).None?
  {
    OnTheWay(u, at, r);
  }

  // ---- Lists ----

  lemma {:induction false} ReplacedElem(es: seq<Json>, u: set<Path>, kept: set<Path>, at: Path, seen: set<string>,
                                   val: string, v: Json)
    requires ClaimsList(u, at) && ClaimsElement(u, at, KeyAt(u, at), val) && val !in seen
    requires Matches(v, KeyAt(u, at), val) && FindByKey(es, KeyAt(u, at), val) >= 0
    ensures CoreElems(es[FindByKey(es, KeyAt(u, at), val) := v], u, kept, at, seen) == CoreElems(es, u, kept, at, seen)
    decreases |es|
  {
    var key := KeyAt(u, at);
    var i := FindByKey(es, key, val);
    var after := es[i := v];
    if i == 0 {
      assert after[1..] == es[1..];
    } else {
      assert after[1..] == es[1..][i - 1 := v] && after[0] == es[0];
      ReplacedElem(es[1..], u, kept, at, SeenAfter(es[0], u, at, seen), val, v);
    }
  }

  lemma {:induction false} AppendedElem(es: seq<Json>, u: set<Path>, kept: set<Path>, at: Path, seen: set<string>,
                                   val: string, v: Json)
    requires ClaimsList(u, at) && ClaimsElement(u, at, KeyAt(u, at), val) && val !in seen
    requires at + [KeyMatch(KeyAt(u, at), val)] !in kept
    requires Matches(v, KeyAt(u, at), val) && FindByKey(es, KeyAt(u, at), val) < 0
    ensures CoreElems(es + [v], u, kept, at, seen) == CoreElems(es, u, kept, at, seen)
    decreases |es|
  {
    var key := KeyAt(u, at);
    if es == [] {
      assert [] + [v] == [v] && [v][1..] == [];
      assert CoreElems([v], u, kept, at, seen) == [] + CoreElems([], u, kept, at, seen + {val});
    } else {
      assert (es + [v])[1..] == es[1..] + [v] && (es + [v])[0] == es[0];
      AppendedElem(es[1..], u, kept, at, SeenAfter(es[0], u, at, seen), val, v);
    }
  }

  lemma {:induction false} UnseenElem(es: seq<Json>, u: set<Path>, kept: set<Path>, at: Path, seen: set<string>, val: string)
    requires ClaimsList(u, at) && FindByKey(es, KeyAt(u, at), val) < 0
    ensures CoreElems(es, u, kept, at, seen + {val}) == CoreElems(es, u, kept, at, seen)
    decreases |es|
  {
    if es != [] {
      var key, e := KeyAt(u, at), es[0];
      assert !Matches(e, key, val);
      if IsClaimed(e, u, at, seen) {
        UnseenElem(es[1..], u, kept, at, seen + {KeyText(e, key)}, val);
        assert seen + {val} + {KeyText(e, key)} == seen + {KeyText(e, key)} + {val};
      } else {
        UnseenElem(es[1..], u, kept, at, seen, val);
      }
    }
  }

  lemma {:induction false} RemovedElem(es: seq<Json>, u: set<Path>, kept: set<Path>, at: Path, seen: set<string>, val: string)
    requires ClaimsList(u, at) && ClaimsElement(u, at, KeyAt(u, at), val) && val !in seen
    requires at + [KeyMatch(KeyAt(u, at), val)] !in kept
    requires FindByKey(es, KeyAt(u, at), val) >= 0 && |Selected(es, KeyAt(u, at), val)| <= 1
    ensures var i := FindByKey(es, KeyAt(u, at), val);
      CoreElems(es[..i] + es[i + 1..], u, kept, at, seen) == CoreElems(es, u, kept, at, seen)
    decreases |es|
  {
    var key, e := KeyAt(u, at), es[0];
    var i := FindByKey(es, key, val);
    var after := es[..i] + es[i + 1..];
    if i == 0 {
      assert after == es[1..];
      FindIsFirstSelected(es[1..], key, val);
      UnseenElem(es[1..], u, kept, at, seen, val);
    } else {
      assert after[0] == e && after[1..] == es[1..][..i - 1] + es[1..][i..];
      RemovedElem(es[1..], u, kept, at, SeenAfter(e, u, at, seen), val);
    }
  }

  // ---- Writing and withdrawing ----

  /** A set at a claim leaves the core alone, unless it brings back a claim that was there at first. */
  lemma {:induction false} SetKeepsCore(c: Json, u: set<Path>, kept: set<Path>, at: Path, r: Path, v: Json)
    requires LeafClaims(u) && at + r in u && r != [] && Fits(r, v) && SetAt(c, r, v).ok
    requires at + r in kept ==> Look(c, r) != []
    ensures CoreOf(SetAt(c, r, v).tree, u, kept, at) == CoreOf(c, u, kept, at)
    decreases |r|
  {
    OnTheWay(u, at, r);
    Further(at, r);
    if c.Arr? {
      SetKeepsElems(c, u, kept, at, r, v);
    } else {
      var f, m := r[0].name, c.fields;
      if |r| == 1 {
        assert at + r == at + [Field(f)];
        SameCoreFields(m[f := v], m, u, kept, at);
      } else {
        var child := if f in m then OrEmpty(m[f], r[1]) else EmptyFor(r[1]);
        assert at + [r[0]] + r[1..] in u;
        EmptyHasNoCore(u, kept, at + [Field(f)], r[1..]);
        EmptyHasNothing(r[1], r[1..]);
        SetKeepsCore(child, u, kept, at + [Field(f)], r[1..], v);
        SameCoreFields(m[f := SetAt(child, r[1..], v).tree], m, u, kept, at);
      }
    }
  }

  lemma {:induction false} SetKeepsElems(c: Json, u: set<Path>, kept: set<Path>, at: Path, r: Path, v: Json)
    requires LeafClaims(u) && at + r in u && r != [] && Fits(r, v) && c.Arr? && SetAt(c, r, v).ok
    requires at + r in kept ==> Look(c, r) != []
    ensures CoreOf(SetAt(c, r, v).tree, u, kept, at) == CoreOf(c, u, kept, at)
  {
    OnTheWay(u, at, r);
    var key, val := r[0].key, r[0].val;
    assert r == [KeyMatch(key, val)];
    FindIsFirstSelected(c.elems, key, val);
    if FindByKey(c.elems, key, val) >= 0 {
      ReplacedElem(c.elems, u, kept, at, {}, val, v);
    } else {
      AppendedElem(c.elems, u, kept, at, {}, val, v);
      assert Grown(c.elems, r[0])[|c.elems| := v] == c.elems + [v];
    }
  }

  /** Withdrawing a claim that was not there at first leaves the core alone. */
  lemma {:induction false} WithdrawKeepsCore(c: Json, u: set<Path>, kept: set<Path>, at: Path, r: Path)
    requires LeafClaims(u) && at + r in u && r != [] && at + r !in kept && |Look(c, r)| <= 1 && DeleteAt(c, r).ok
    ensures CoreOf(Withdrawn(c, r), u, kept, at) == CoreOf(c, u, kept, at)
    decreases |r|
  {
    OnTheWay(u, at, r);
    Further(at, r);
    if c.Arr? {
      WithdrawnElem(c, u, kept, at, r);
    } else if |r| > 1 {
      WithdrawKeepsCore(c.fields[r[0].name], u, kept, at + [r[0]], r[1..]);
      WithdrawnBelow(c, u, kept, at, r);
    } else {
      assert at + r == at + [r[0]];
      SameCoreFields(c.fields - {r[0].name}, c.fields, u, kept, at);
    }
  }

  lemma {:induction false} WithdrawnElem(c: Json, u: set<Path>, kept: set<Path>, at: Path, r: Path)
    requires LeafClaims(u) && at + r in u && r != [] && at + r !in kept && |Look(c, r)| <= 1 && DeleteAt(c, r).ok && c.Arr?
    ensures CoreOf(Withdrawn(c, r), u, kept, at) == CoreOf(c, u, kept, at)
  {
    OnTheWay(u, at, r);
    assert r == [KeyMatch(r[0].key, r[0].val)];
    RemovedElem(c.elems, u, kept, at, {}, r[0].val);
  }

  lemma {:induction false} WithdrawnBelow(c: Json, u: set<Path>, kept: set<Path>, at: Path, r: Path)
    requires LeafClaims(u) && at + r in u && |r| > 1 && c.Obj? && DeleteAt(c, r).ok
    requires var f, below := r[0].name, at + [r[0]];
      CoreOf(Withdrawn(c.fields[f], r[1..]), u, kept, below) == CoreOf(c.fields[f], u, kept, below)
    ensures CoreOf(Withdrawn(c, r), u, kept, at) == CoreOf(c, u, kept, at)
  {
    var f, m := r[0].name, c.fields;
    var child := Withdrawn(m[f], r[1..]);
    OnTheWay(u, at, r);
    Further(at, r);
    WithdrawnKeepsKind(m[f], r[1..]);
    EmptyHasNoCore(u, kept, at + [Field(f)], r[1..]);
    SameCoreFields(if child == EMPTY then m - {f} else m[f := child], m, u, kept, at);
  }
}
