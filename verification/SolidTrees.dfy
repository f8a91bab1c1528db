/** Documents on which no claim leaves a trace: they stay so while claims come and go, and come back exactly. */
module SolidTrees {
  import opened Json
  import opened FieldPath
  import opened DeleteUndoesSet
  import opened TreeCore
  import opened UndoneTrees

  /** No claim below this position leaves a trace. */
  ghost predicate Solid(c: Json, u: set<Path>, at: Path)
  {
    forall p | p in u && at < p :: LeavesNoTrace(c, p[|at|..])
  }

  predicate FieldsThroughout(p: Path)
  {
    forall s | s in p :: s.IsField()
  }

  /** Claims through a field: each goes on in the child, or through fields only if there is none. */
  lemma {:induction false} SolidBelow(c: Json, u: set<Path>, at: Path, f: string)
    requires LeafClaims(u) && Solid(c, u, at) && c.Obj? && Leads(u, at + [Field(f)])
    ensures f in c.fields ==> !c.fields[f].Null? && c.fields[f] != EMPTY && Solid(c.fields[f], u, at + [Field(f)])
    ensures f !in c.fields ==> forall p | p in u && at + [Field(f)] < p :: FieldsThroughout(p[|at| + 1..])
  {
    forall p | p in u && at + [Field(f)] < p
      ensures f in c.fields ==> !c.fields[f].Null? && c.fields[f] != EMPTY && LeavesNoTrace(c.fields[f], p[|at| + 1..])
      ensures f !in c.fields ==> FieldsThroughout(p[|at| + 1..])
    {
      Down(at, f, p);
      assert p[|at|] in p && p[|at|..][1..] == p[|at| + 1..];
    }
    var p :| p in u && at + [Field(f)] < p;
  }

  /** What goes on through fields leaves no trace in an empty map. */
  lemma {:induction false} SolidEmpty(u: set<Path>, at: Path)
    requires LeafClaims(u) && forall p | p in u && at < p :: FieldsThroughout(p[|at|..])
    ensures Solid(EMPTY, u, at)
  {
    forall p | p in u && at < p ensures LeavesNoTrace(EMPTY, p[|at|..]) {
      var r := p[|at|..];
      assert r[0] in r;
      assert forall s | s in r[1..] :: s in r;
    }
  }

  lemma {:induction false} EmptySolid(u: set<Path>, at: Path, r: Path)
    requires LeafClaims(u) && at + r in u && r != [] && r[0].IsField() && Solid(EMPTY, u, at)
    ensures forall p | p in u && at < p :: FieldsThroughout(p[|at|..])
  {
    forall p | p in u && at < p ensures FieldsThroughout(p[|at|..]) {
      var s := p[|at|..];
      assert p == at + s;
      OnTheWay(u, at, r);
      OnTheWay(u, at, s);
      assert s == [s[0]] + s[1..];
      if |s| == 1 { assert s[1..] == []; }
    }
  }

  // ---- Solid documents stay solid ----

  lemma {:induction false} SolidFields(c: Json, d: Json, u: set<Path>, at: Path, f: string)
    requires LeafClaims(u) && Solid(c, u, at) && c.Obj? && d.Obj?
    requires forall g | g != f :: g in c.fields <==> g in d.fields
    requires forall g | g != f && g in c.fields :: c.fields[g] == d.fields[g]
    requires Leads(u, at + [Field(f)]) && f in d.fields ==>
      !d.fields[f].Null? && d.fields[f] != EMPTY && Solid(d.fields[f], u, at + [Field(f)])
    requires f !in d.fields ==> forall p | p in u && at + [Field(f)] < p :: FieldsThroughout(p[|at| + 1..])
    ensures Solid(d, u, at)
  {
    forall p | p in u && at < p ensures LeavesNoTrace(d, p[|at|..]) {
      var r := p[|at|..];
      assert p == at + r && LeavesNoTrace(c, r);
      if |r| > 1 {
        OnTheWay(u, at, r);
        Further(at, r);
        if r[0].name == f {
          assert at + [Field(f)] < p && p[|at| + 1..] == r[1..];
        }
      }
    }
  }

  lemma {:induction false} SetIsSomething(c: Json, p: Path, v: Json)
    requires p != [] && SetAt(c, p, v).ok
    ensures SetAt(c, p, v).tree != EMPTY && !SetAt(c, p, v).tree.Null?
  {
    if c.Obj? { assert p[0].name in SetAt(c, p, v).tree.fields; }
  }

  lemma {:induction false} SetKeepsSolid(c: Json, u: set<Path>, at: Path, r: Path, v: Json)
    requires LeafClaims(u) && at + r in u && r != [] && SetAt(c, r, v).ok && Solid(c, u, at)
    ensures Solid(SetAt(c, r, v).tree, u, at)
    decreases |r|
  {
    OnTheWay(u, at, r);
    Further(at, r);
    if c.Arr? {
      ListsAreSolid(SetAt(c, r, v).tree, u, at, r);
    } else {
      var f, m := r[0].name, c.fields;
      if |r| == 1 {
        OnlyThis(u, at, r);
        SolidFields(c, Obj(m[f := v]), u, at, f);
      } else {
        var child := if f in m then OrEmpty(m[f], r[1]) else EmptyFor(r[1]);
        assert at + [r[0]] + r[1..] in u && at + [Field(f)] < at + r;
        SolidBelow(c, u, at, f);
        if f !in m {
          assert (at + r)[|at| + 1..] == r[1..] && r[1] in r[1..];
          SolidEmpty(u, at + [Field(f)]);
        }
        SetKeepsSolid(child, u, at + [Field(f)], r[1..], v);
        SetIsSomething(child, r[1..], v);
        SolidFields(c, Obj(m[f := SetAt(child, r[1..], v).tree]), u, at, f);
      }
    }
  }

  /** Claims on elements end there. */
  lemma {:induction false} ListsAreSolid(d: Json, u: set<Path>, at: Path, r: Path)
    requires LeafClaims(u) && at + r in u && r != [] && !r[0].IsField()
    ensures Solid(d, u, at)
  {
    OnTheWay(u, at, r);
    forall p | p in u && at < p ensures LeavesNoTrace(d, p[|at|..]) {
      assert p == at + p[|at|..];
      OnTheWay(u, at, p[|at|..]);
    }
  }

  lemma {:induction false} OnlyThis(u: set<Path>, at: Path, r: Path)
    requires LeafClaims(u) && at + r in u && |r| == 1 && r[0].IsField()
    ensures !Leads(u, at + [r[0]]) && at + [r[0]] in u
    ensures forall p | p in u :: !(at + [r[0]] < p)
  {
    assert r == [r[0]];
    forall p | p in u ensures !(at + r < p) {
      if at + r < p {
        var s := p[|at|..];
        assert p == at + s && s[0] == r[0] && s != r;
        ClaimsPart(u, at, r, s);
      }
    }
  }

  lemma {:induction false} WithdrawKeepsSolid(c: Json, u: set<Path>, at: Path, r: Path)
    requires LeafClaims(u) && at + r in u && r != [] && DeleteAt(c, r).ok && Solid(c, u, at)
    ensures Solid(Withdrawn(c, r), u, at)
    decreases |r|
  {
    OnTheWay(u, at, r);
    Further(at, r);
    if c.Arr? {
      ListsAreSolid(Withdrawn(c, r), u, at, r);
    } else {
      var f, m := r[0].name, c.fields;
      if |r| == 1 {
        OnlyThis(u, at, r);
        SolidFields(c, Obj(m - {f}), u, at, f);
      } else {
        var child, below := Withdrawn(m[f], r[1..]), at + [Field(f)];
        assert below + r[1..] in u && below < at + r;
        SolidBelow(c, u, at, f);
        WithdrawKeepsSolid(m[f], u, below, r[1..]);
        WithdrawnKeepsKind(m[f], r[1..]);
        if child == EMPTY {
          EmptySolid(u, below, r[1..]);
          SolidFields(c, Obj(m - {f}), u, at, f);
        } else {
          SolidFields(c, Obj(m[f := child]), u, at, f);
        }
      }
    }
  }

  // ---- Exactly the same ----

  /** Where claims go on through fields, a solid value has a core. */
  lemma {:induction false} SolidHasCore(c: Json, u: set<Path>, kept: set<Path>, at: Path)
    requires LeafClaims(u) && Leads(u, at) && Kept(c, u, kept, at) && Solid(c, u, at) && !c.Null? && c != EMPTY
    requires forall p | p in u && at < p :: FieldsThroughout(p[|at|..])
    ensures CoreOf(c, u, kept, at).Some?
    decreases c
  {
    assert at <= at && at[|at|..] == [];
    if c.Obj? {
      var f :| f in c.fields;
      var below := at + [Field(f)];
      KeptBelow(c, u, kept, at, f);
      assert below <= below && below[|below|..] == [];
      if below !in u && Leads(u, below) {
        SolidBelow(c, u, at, f);
        forall p | p in u && below < p ensures FieldsThroughout(p[|below|..]) {
          assert at < p;
          forall s | s in p[|below|..] ensures s.IsField() { assert s in p[|at|..]; }
        }
        SolidHasCore(c.fields[f], u, kept, below);
      }
      assert CoreAt(c.fields, f, u, kept, at).Some?;
      assert f in CoreFields(c, u, kept, at);
    }
  }

  /** Of two solid maps with one core that read the same at every claim, one has no field the other lacks. */
  lemma {:induction false} NoLoneField(a: Json, b: Json, u: set<Path>, kept: set<Path>, at: Path, f: string)
    requires LeafClaims(u) && a.Obj? && b.Obj? && f in a.fields && Solid(a, u, at) && Solid(b, u, at)
    requires Kept(a, u, kept, at) && Kept(b, u, kept, at) && CoreFields(a, u, kept, at) == CoreFields(b, u, kept, at)
    ensures f in b.fields
  {
    var below := at + [Field(f)];
    OneCoreBelow(a, b, u, kept, at, f);
    KeptBelow(a, u, kept, at, f);
    KeptBelow(b, u, kept, at, f);
    assert below <= below && below[|below|..] == [];
    if below !in u && Leads(u, below) {
      SolidBelow(a, u, at, f);
      SolidBelow(b, u, at, f);
      if f !in b.fields { SolidHasCore(a.fields[f], u, kept, below); }
    }
  }

  /** Solid documents with one core that read the same at every claim are equal. */
  lemma {:induction false} OneCoreIsEqual(a: Json, b: Json, u: set<Path>, kept: set<Path>, at: Path)
    requires LeafClaims(u) && Kept(b, u, kept, at) && SameReads(a, b, u, at) && CoreOf(a, u, kept, at) == CoreOf(b, u, kept, at)
    requires Solid(a, u, at) && Solid(b, u, at) && !a.Null? && !b.Null?
    ensures a == b
    decreases a
  {
    assert at <= at && at[|at|..] == [];
    KeptInBoth(a, b, u, kept, at);
    if at !in u && Leads(u, at) {
      if a.Arr? && b.Arr? && ClaimsList(u, at) {
        BothKeptElems(a.elems, b.elems, u, kept, at);
        OneList(a.elems, b.elems, u, kept, at, {});
      } else if a.Obj? && b.Obj? && !ClaimsList(u, at) {
        forall f | f in a.fields || f in b.fields
          ensures f in a.fields && f in b.fields && a.fields[f] == b.fields[f]
        {
          if f in a.fields { NoLoneField(a, b, u, kept, at, f); } else { NoLoneField(b, a, u, kept, at, f); }
          OneCoreBelow(a, b, u, kept, at, f);
          KeptBelow(b, u, kept, at, f);
          SameReadsBelow(a, b, u, at, f);
          if Leads(u, at + [Field(f)]) {
            SolidBelow(a, u, at, f);
            SolidBelow(b, u, at, f);
            OneCoreIsEqual(a.fields[f], b.fields[f], u, kept, at + [Field(f)]);
          } else {
            OneCoreOffTheWay(a.fields[f], b.fields[f], u, kept, at + [Field(f)]);
          }
        }
        assert a.fields == b.fields;
      }
    }
  }

  lemma {:induction false} OneCoreOffTheWay(a: Json, b: Json, u: set<Path>, kept: set<Path>, at: Path)
    requires !Leads(u, at) && SameReads(a, b, u, at) && CoreOf(a, u, kept, at) == CoreOf(b, u, kept, at)
    ensures a == b
  {
    assert at <= at && at[|at|..] == [];
  }
}
