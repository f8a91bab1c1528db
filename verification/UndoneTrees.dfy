/** Two documents with one core that read the same at every claim: how much they can still differ. */
module UndoneTrees {
  import opened Json
  import opened FieldPath
  import opened FieldLaws
  import opened TreeCore

  /** On the way to claims, and nothing in it but what is hollow itself. */
  ghost predicate Hollow(c: Json, u: set<Path>, at: Path)
    decreases c
  {
    && Leads(u, at)
    && (c.Null? || c == Arr([]) || (c.Obj? && forall f | f in c.fields :: Hollow(c.fields[f], u, at + [Field(f)])))
  }

  /**
   * Equal, except that on the way to claims something hollow may stand for something else that is, or for
   * nothing: a missing, null or empty container.
   */
  ghost predicate Alike(a: Json, b: Json, u: set<Path>, at: Path)
    decreases a
  {
    || a == b
    || (Hollow(a, u, at) && Hollow(b, u, at))
    || (a.Obj? && b.Obj? && Leads(u, at)
        && (forall f | f in a.fields ::
              if f in b.fields then Alike(a.fields[f], b.fields[f], u, at + [Field(f)])
              else Hollow(a.fields[f], u, at + [Field(f)]))
        && (forall f | f in b.fields && f !in a.fields :: Hollow(b.fields[f], u, at + [Field(f)])))
  }

  /** Below this position the kept claims are those that are there. */
  ghost predicate Kept(c: Json, u: set<Path>, kept: set<Path>, at: Path)
  {
    forall p | p in u && at <= p :: p in kept <==> Look(c, p[|at|..]) != []
  }

  /** Every claim below this position reads the same. */
  ghost predicate SameReads(a: Json, b: Json, u: set<Path>, at: Path)
  {
    forall p | p in u && at <= p :: Look(a, p[|at|..]) == Look(b, p[|at|..])
  }

  lemma {:induction false} Down(at: Path, f: string, p: Path)
    requires at + [Field(f)] <= p
    ensures at <= p && p[|at|..] != [] && p[|at|..][0] == Field(f) && p[|at|..][1..] == p[|at| + 1..]
  {
    assert p[|at|] == (at + [Field(f)])[|at|];
  }

  lemma {:induction false} KeptBelow(c: Json, u: set<Path>, kept: set<Path>, at: Path, f: string)
    requires LeafClaims(u) && Kept(c, u, kept, at) && c.Obj?
    ensures f in c.fields ==> Kept(c.fields[f], u, kept, at + [Field(f)])
    ensures f !in c.fields ==> forall p | p in u && at + [Field(f)] <= p :: p !in kept
  {
    forall p | p in u && at + [Field(f)] <= p
      ensures Look(c, p[|at|..]) == if f in c.fields then Look(c.fields[f], p[|at| + 1..]) else []
    {
      Down(at, f, p);
      assert p[|at|] in p;
    }
  }

  lemma {:induction false} SameReadsBelow(a: Json, b: Json, u: set<Path>, at: Path, f: string)
    requires LeafClaims(u) && SameReads(a, b, u, at) && a.Obj? && b.Obj? && f in a.fields && f in b.fields
    ensures SameReads(a.fields[f], b.fields[f], u, at + [Field(f)])
  {
    forall p | p in u && at + [Field(f)] <= p ensures Look(a.fields[f], p[|at| + 1..]) == Look(b.fields[f], p[|at| + 1..]) {
      Down(at, f, p);
      assert p[|at|] in p;
    }
  }

  // ---- Lists ----

  /** Outside the values already seen, every claimed element reads the same in both, and is kept if it is there. */
  ghost predicate SameElems(x: seq<Json>, y: seq<Json>, u: set<Path>, kept: set<Path>, at: Path, seen: set<string>)
    requires ClaimsList(u, at)
  {
    forall val | val !in seen && ClaimsElement(u, at, KeyAt(u, at), val) ::
      && Selected(x, KeyAt(u, at), val) == Selected(y, KeyAt(u, at), val)
      && (at + [KeyMatch(KeyAt(u, at), val)] in kept <==> Selected(y, KeyAt(u, at), val) != [])
  }

  /** The first element is one the core marks. */
  ghost predicate Marks(x: seq<Json>, u: set<Path>, at: Path, seen: set<string>)
    requires ClaimsList(u, at)
  {
    x != [] && IsClaimed(x[0], u, at, seen)
  }

  lemma {:induction false} CoreHead(x: seq<Json>, y: seq<Json>, u: set<Path>, kept: set<Path>, at: Path, seen: set<string>)
    requires ClaimsList(u, at) && x != []
    requires SameElems(x, y, u, kept, at, seen) || SameElems(y, x, u, kept, at, seen)
    ensures var core, key := CoreElems(x, u, kept, at, seen), KeyAt(u, at);
      core == [if Marks(x, u, at, seen) then Marker(key, KeyText(x[0], key)) else x[0]]
        + CoreElems(x[1..], u, kept, at, SeenAfter(x[0], u, at, seen))
  {
    if Marks(x, u, at, seen) {
      var key := KeyAt(u, at);
      assert Selected(x, key, KeyText(x[0], key)) != [];
    }
  }

  lemma {:induction false} KeptElems(x: seq<Json>, u: set<Path>, kept: set<Path>, at: Path)
    requires LeafClaims(u) && ClaimsList(u, at) && Kept(Arr(x), u, kept, at)
    ensures SameElems(x, x, u, kept, at, {})
  {
    var key := KeyAt(u, at);
    forall val | ClaimsElement(u, at, key, val)
      ensures at + [KeyMatch(key, val)] in kept <==> Selected(x, key, val) != []
    {
      var p := at + [KeyMatch(key, val)];
      OnTheWay(u, at, [KeyMatch(key, val)]);
      assert at <= p && p[|at|..] == [KeyMatch(key, val)];
    }
  }

  lemma {:induction false} BothKeptElems(x: seq<Json>, y: seq<Json>, u: set<Path>, kept: set<Path>, at: Path)
    requires LeafClaims(u) && ClaimsList(u, at) && Kept(Arr(y), u, kept, at) && SameReads(Arr(x), Arr(y), u, at)
    ensures SameElems(x, y, u, kept, at, {})
  {
    var key := KeyAt(u, at);
    KeptElems(y, u, kept, at);
    forall val | ClaimsElement(u, at, key, val) ensures Selected(x, key, val) == Selected(y, key, val) {
      var p := at + [KeyMatch(key, val)];
      OnTheWay(u, at, [KeyMatch(key, val)]);
      assert at <= p && p[|at|..] == [KeyMatch(key, val)];
    }
  }

  /** Of two lists with one core the first elements are the same. */
  lemma {:induction false} OneHead(x: seq<Json>, y: seq<Json>, u: set<Path>, kept: set<Path>, at: Path, seen: set<string>)
    requires ClaimsList(u, at) && CoreElems(x, u, kept, at, seen) == CoreElems(y, u, kept, at, seen)
    requires SameElems(x, y, u, kept, at, seen) && x != [] && y != []
    ensures x[0] == y[0]
  {
    var key := KeyAt(u, at);
    CoreHead(x, y, u, kept, at, seen);
    CoreHead(y, x, u, kept, at, seen);
    var a, b := CoreElems(x, u, kept, at, seen)[0], CoreElems(y, u, kept, at, seen)[0];
    assert a == b && a.Obj? && key in a.fields ==> b.fields[key] == a.fields[key];
    if Marks(y, u, at, seen) { assert Matches(b, key, KeyText(y[0], key)); }
    if Marks(x, u, at, seen) {
      var val := KeyText(x[0], key);
      assert Matches(a, key, val) && Marks(y, u, at, seen);
      assert Selected(x, key, val)[0] == x[0] && Selected(y, key, val)[0] == y[0];
    }
  }

  lemma {:induction false} SameTails(x: seq<Json>, y: seq<Json>, u: set<Path>, kept: set<Path>, at: Path, seen: set<string>)
    requires ClaimsList(u, at) && SameElems(x, y, u, kept, at, seen) && x != [] && y != [] && x[0] == y[0]
    ensures SameElems(x[1..], y[1..], u, kept, at, SeenAfter(x[0], u, at, seen))
  {}

  /** Two lists with one core whose claimed elements read the same are one list. */
  lemma {:induction false} OneList(x: seq<Json>, y: seq<Json>, u: set<Path>, kept: set<Path>, at: Path, seen: set<string>)
    requires ClaimsList(u, at) && CoreElems(x, u, kept, at, seen) == CoreElems(y, u, kept, at, seen)
    requires SameElems(x, y, u, kept, at, seen)
    ensures x == y
    decreases |x|
  {
    if x != [] { CoreHead(x, y, u, kept, at, seen); }
    if y != [] { CoreHead(y, x, u, kept, at, seen); }
    if x != [] && y != [] {
      var next := SeenAfter(x[0], u, at, seen);
      OneHead(x, y, u, kept, at, seen);
      SameTails(x, y, u, kept, at, seen);
      var a, b := CoreElems(x, u, kept, at, seen), CoreElems(y, u, kept, at, seen);
      assert a[1..] == CoreElems(x[1..], u, kept, at, next) && b[1..] == CoreElems(y[1..], u, kept, at, next);
      OneList(x[1..], y[1..], u, kept, at, next);
      assert x == [x[0]] + x[1..] && y == [y[0]] + y[1..];
    }
  }

  // ---- Nothing in the core ----

  /** What has no core on the way to claims is hollow. */
  lemma {:induction false} CorelessIsHollow(c: Json, u: set<Path>, kept: set<Path>, at: Path)
    requires LeafClaims(u) && Kept(c, u, kept, at) && CoreOf(c, u, kept, at).None?
    ensures Hollow(c, u, at)
    decreases c
  {
    assert at <= at && at[|at|..] == [];
    if c.Arr? && c.elems != [] && ClaimsList(u, at) {
      KeptElems(c.elems, u, kept, at);
      CoreHead(c.elems, c.elems, u, kept, at, {});
    }
    if c.Obj? {
      forall f | f in c.fields ensures Hollow(c.fields[f], u, at + [Field(f)]) {
        assert f !in CoreFields(c, u, kept, at);
        KeptBelow(c, u, kept, at, f);
        CorelessIsHollow(c.fields[f], u, kept, at + [Field(f)]);
      }
    }
  }

  // ---- One core ----

  lemma {:induction false} OneCoreBelow(a: Json, b: Json, u: set<Path>, kept: set<Path>, at: Path, f: string)
    requires a.Obj? && b.Obj? && CoreFields(a, u, kept, at) == CoreFields(b, u, kept, at)
    ensures CoreAt(a.fields, f, u, kept, at) == CoreAt(b.fields, f, u, kept, at)
  {
    var x, y := CoreFields(a, u, kept, at), CoreFields(b, u, kept, at);
    assert f in x <==> CoreAt(a.fields, f, u, kept, at).Some?;
    assert f in y <==> CoreAt(b.fields, f, u, kept, at).Some?;
    if f in x { assert x[f] == y[f]; }
  }

  /** A field only one of them has is hollow. */
  lemma {:induction false} LoneField(a: Json, b: Json, u: set<Path>, kept: set<Path>, at: Path, f: string)
    requires LeafClaims(u) && a.Obj? && b.Obj? && f in a.fields && f !in b.fields
    requires Kept(a, u, kept, at) && CoreFields(a, u, kept, at) == CoreFields(b, u, kept, at)
    ensures Hollow(a.fields[f], u, at + [Field(f)])
  {
    OneCoreBelow(a, b, u, kept, at, f);
    KeptBelow(a, u, kept, at, f);
    CorelessIsHollow(a.fields[f], u, kept, at + [Field(f)]);
  }

  /** Two maps with one core that read the same at every claim have, field by field, one core and the same reads. */
  lemma {:induction false} FieldsAlike(a: Json, b: Json, u: set<Path>, kept: set<Path>, at: Path)
    requires LeafClaims(u) && a.Obj? && b.Obj? && Leads(u, at)
    requires Kept(a, u, kept, at) && Kept(b, u, kept, at) && CoreFields(a, u, kept, at) == CoreFields(b, u, kept, at)
    requires forall f | f in a.fields && f in b.fields :: Alike(a.fields[f], b.fields[f], u, at + [Field(f)])
    ensures Alike(a, b, u, at)
  {
    forall f | f in a.fields && f !in b.fields ensures Hollow(a.fields[f], u, at + [Field(f)]) {
      LoneField(a, b, u, kept, at, f);
    }
    forall f | f in b.fields && f !in a.fields ensures Hollow(b.fields[f], u, at + [Field(f)]) {
      LoneField(b, a, u, kept, at, f);
    }
  }

  lemma {:induction false} KeptInBoth(a: Json, b: Json, u: set<Path>, kept: set<Path>, at: Path)
    requires Kept(b, u, kept, at) && SameReads(a, b, u, at)
    ensures Kept(a, u, kept, at)
  {}

  /** Documents with one core that read the same at every claim are alike. */
  lemma {:induction false} OneCoreIsAlike(a: Json, b: Json, u: set<Path>, kept: set<Path>, at: Path)
    requires LeafClaims(u) && Kept(b, u, kept, at) && SameReads(a, b, u, at)
    requires CoreOf(a, u, kept, at) == CoreOf(b, u, kept, at)
    ensures Alike(a, b, u, at)
    decreases a
  {
    assert at <= at && at[|at|..] == [];
    KeptInBoth(a, b, u, kept, at);
    if at !in u && Leads(u, at) {
      if CoreOf(a, u, kept, at).None? {
        CorelessIsHollow(a, u, kept, at);
        CorelessIsHollow(b, u, kept, at);
      } else if a.Arr? && b.Arr? && ClaimsList(u, at) {
        BothKeptElems(a.elems, b.elems, u, kept, at);
        OneList(a.elems, b.elems, u, kept, at, {});
      } else if a.Obj? && b.Obj? && !ClaimsList(u, at) {
        forall f | f in a.fields && f in b.fields ensures Alike(a.fields[f], b.fields[f], u, at + [Field(f)]) {
          OneCoreBelow(a, b, u, kept, at, f);
          KeptBelow(b, u, kept, at, f);
          SameReadsBelow(a, b, u, at, f);
          OneCoreIsAlike(a.fields[f], b.fields[f], u, kept, at + [Field(f)]);
        }
        FieldsAlike(a, b, u, kept, at);
      }
    }
  }
}
