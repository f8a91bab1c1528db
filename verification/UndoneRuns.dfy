/** After a whole run the tree itself is back: what applying and releasing leave of a document, beyond what it reads. */
module UndoneRuns {
  import opened Json
  import opened Text
  import opened FieldPath
  import opened FieldLaws
  import opened PathText
  import opened ClientSideApply
  import opened ApplyLaws
  import opened ApplyRuns
  import opened DeleteUndoesSet
  import opened TreeCore
  import opened UndoneTrees
  import opened SolidTrees
  import opened Render
  import opened RenderLaws

  // ---- One call ----

  /** An edit that shows in the claims only. */
  ghost predicate Masked(u: set<Path>, kept: set<Path>, before: Json, after: Json)
  {
    && CoreOf(after, u, kept, []) == CoreOf(before, u, kept, [])
    && (Solid(before, u, []) ==> Solid(after, u, []))
    && (before.Obj? ==> after.Obj?)
  }

  /** The claim can be written: if it was there at first, it still is. */
  ghost predicate Writable(kept: set<Path>, doc: Json, p: Path)
  {
    p in kept ==> Look(doc, p) != []
  }

  /** The claim can be given back: with a prior if it was there at first, and else it is the only value. */
  ghost predicate Returnable(kept: set<Path>, doc: Json, priors: Priors, p: Path)
  {
    if p in kept then Print(p) in priors && Look(doc, p) != [] else Print(p) !in priors && |Look(doc, p)| <= 1
  }

  lemma {:induction false} SetMasked(u: set<Path>, kept: set<Path>, doc: Json, p: Path, v: Json)
    requires LeafClaims(u) && p in u && Fits(p, v) && Writable(kept, doc, p) && Set(doc, p, v).ok
    ensures Masked(u, kept, doc, Set(doc, p, v).tree)
  {
    assert [] + p == p;
    SetKeepsCore(doc, u, kept, [], p, v);
    if Solid(doc, u, []) { SetKeepsSolid(doc, u, [], p, v); }
    EditsKeepKind(doc, p, v);
  }

  lemma {:induction false} DeleteMasked(u: set<Path>, kept: set<Path>, doc: Json, p: Path)
    requires LeafClaims(u) && p in u && p !in kept && |Look(doc, p)| <= 1
    ensures Masked(u, kept, doc, Delete(doc, p).tree)
  {
    assert [] + p == p;
    OnTheWay(u, [], p);
    if DeleteAt(doc, p).ok {
      DeleteIsWithdrawn(doc, p);
      WithdrawKeepsCore(doc, u, kept, [], p);
      if Solid(doc, u, []) { WithdrawKeepsSolid(doc, u, [], p); }
      WithdrawnKeepsKind(doc, p);
    } else {
      DeleteNothing(doc, p);
    }
  }

  lemma {:induction false} RestoreMasked(u: set<Path>, kept: set<Path>, doc: Json, p: Path, priors: Priors)
    requires LeafClaims(u) && p in u && Returnable(kept, doc, priors, p) && PriorsFit({p}, priors)
    ensures Masked(u, kept, doc, RestoreOrDelete(doc, p, priors))
  {
    if p in kept {
      FoundThenSettable(doc, p, priors[Print(p)]);
      SetMasked(u, kept, doc, p, priors[Print(p)]);
    } else {
      DeleteMasked(u, kept, doc, p);
    }
  }

  lemma {:induction false} SetAllMasked(u: set<Path>, kept: set<Path>, doc: Json, obj: Json, paths: seq<Path>)
    requires LeafClaims(u) && (forall p | p in paths :: p in u && Writable(kept, doc, p)) && SetAll(doc, obj, paths).Some?
    ensures Masked(u, kept, doc, SetAll(doc, obj, paths).value)
    decreases |paths|
  {
    if paths != [] {
      var p, v := paths[0], Get(obj, paths[0]).value;
      assert paths == [p] + paths[1..];
      ClaimFits(obj, p, v);
      SetMasked(u, kept, doc, p, v);
      forall r | r in paths[1..] ensures r in u && Writable(kept, Set(doc, p, v).tree, r) {
        assert r in paths;
        SetAtTerritory(u, doc, p, v, r);
      }
      SetAllMasked(u, kept, Set(doc, p, v).tree, obj, paths[1..]);
    }
  }

  lemma {:induction false} RestoredStaysReturnable(mine: set<Path>, kept: set<Path>, doc: Json, p: Path, priors: Priors, r: Path)
    requires Territory(mine) && p in mine && r in mine && r != p && PriorsFit(mine, priors)
    requires Returnable(kept, doc, priors, p) && Returnable(kept, doc, priors, r)
    ensures var doc' := RestoreOrDelete(doc, p, priors);
      Returnable(kept, doc', priors, r) && Returnable(kept, doc', priors - {Print(p)}, r)
  {
    RestoreLaws(mine, doc, p, priors, r);
    if Print(r) == Print(p) { PrintIsInjective(r, p); }
  }

  lemma {:induction false} RevertMasked(u: set<Path>, mine: set<Path>, kept: set<Path>, doc: Json, owned: seq<Path>, priors: Priors)
    requires LeafClaims(u) && mine <= u && Territory(mine) && Distinct(owned) && PriorsFit(mine, priors)
    requires forall p | p in owned :: p in mine && Returnable(kept, doc, priors, p)
    ensures Masked(u, kept, doc, RevertAll(doc, owned, priors))
    decreases |owned|
  {
    if owned != [] {
      var p, rest := owned[0], owned[1..];
      assert owned == [p] + rest && p !in rest && Distinct(rest);
      RestoreMasked(u, kept, doc, p, priors);
      forall r | r in rest ensures r in mine && Returnable(kept, RestoreOrDelete(doc, p, priors), priors, r) {
        RestoredStaysReturnable(mine, kept, doc, p, priors, r);
      }
      RevertMasked(u, mine, kept, RestoreOrDelete(doc, p, priors), rest, priors);
    }
  }

  lemma {:induction false} WithdrawMasked(u: set<Path>, mine: set<Path>, kept: set<Path>, doc: Json, previous: seq<Path>,
                                     claimed: set<string>, priors: Priors)
    requires LeafClaims(u) && mine <= u && Territory(mine) && Distinct(previous) && PriorsFit(mine, priors)
    requires forall p | p in previous :: p in mine && Returnable(kept, doc, priors, p)
    ensures Masked(u, kept, doc, Withdraw(doc, previous, claimed, priors).doc)
    decreases |previous|
  {
    if previous != [] {
      var p, rest := previous[0], previous[1..];
      assert previous == [p] + rest && p !in rest && Distinct(rest);
      if Print(p) in claimed {
        WithdrawMasked(u, mine, kept, doc, rest, claimed, priors);
      } else {
        var doc', priors' := RestoreOrDelete(doc, p, priors), priors - {Print(p)};
        RestoreMasked(u, kept, doc, p, priors);
        forall r | r in rest ensures r in mine && Returnable(kept, doc', priors', r) {
          RestoredStaysReturnable(mine, kept, doc, p, priors, r);
        }
        WithdrawMasked(u, mine, kept, doc', rest, claimed, priors');
      }
    }
  }

  // ---- Runs that forget nothing ----

  /** A contributor's claims hold what was found under them, in its records or still in the document. */
  predicate GoodCell(cell: Cell, original: seq<Json>)
  {
    if cell.owned then
      cell.captured && cell.stack != [] && Tail(cell.stack) == Tail(original) && cell.prior == First(original)
    else
      cell.stack == original && cell.prior.None?
  }

  ghost predicate Accounted(claims: map<Id, set<Path>>, w: World, original: Json)
  {
    forall id, p | id in claims && p in claims[id] :: GoodCell(CellOf(w, id, p), Look(original, p))
  }

  /** Each path is owned already, or claimed by a first apply that finds something else there. */
  predicate Remembers(w: World, op: Op)
  {
    op.Apply? ==>
      forall p | p in op.c.paths ::
        p in Previous(RecordOf(w, op.id)) || (!RecordOf(w, op.id).captured && Get(w.doc, p) != Get(op.c.obj, p))
  }

  predicate AllRemember(w: World, ops: seq<Op>)
    decreases |ops|
  {
    ops == [] || (var (next, ok) := Step(w, ops[0]); (ok ==> Remembers(w, ops[0])) && AllRemember(next, ops[1..]))
  }

  ghost function There(u: set<Path>, doc: Json): set<Path>
  {
    set p | p in u && Look(doc, p) != []
  }

  lemma {:induction false} CellStaysGood(cell: Cell, original: seq<Json>, op: Op, id: Id, p: Path)
    requires GoodCell(cell, original)
    requires op.id == id && op.Apply? && p in op.c.paths ==> Get(op.c.obj, p).Some?
    requires op.id == id && op.Apply? && p in op.c.paths ==> cell.owned || (!cell.captured && First(cell.stack) != Get(op.c.obj, p))
    ensures GoodCell(CellStep(cell, op, id, p), original)
  {
    var next := CellStep(cell, op, id, p);
    if op.id == id && op.Apply? && p in op.c.paths {
      assert next.stack[1..] == Tail(cell.stack);
    } else if original != [] {
      assert original == [original[0]] + original[1..];
    } else {
      assert [] + Tail(original) == [];
    }
  }

  lemma {:induction false} AppliedHasValues(w: World, op: Op)
    requires op.Apply? && Step(w, op).1
    ensures forall p | p in op.c.paths :: Get(op.c.obj, p).Some?
  {
    assert Took(w, [op]) == [op] by { assert [op][1..] == []; }
    TookHaveValues(w, [op]);
    assert op in Took(w, [op]);
  }

  lemma {:induction false} StaysAccounted(claims: map<Id, set<Path>>, w: World, op: Op, original: Json)
    requires Apart(claims) && Sound(claims, w) && Admissible(claims, op) && Step(w, op).1
    requires Accounted(claims, w, original) && Remembers(w, op)
    ensures Accounted(claims, Step(w, op).0, original)
  {
    StepLaws(claims, w, op);
    forall id, p | id in claims && p in claims[id] ensures GoodCell(CellOf(Step(w, op).0, id, p), Look(original, p)) {
      if op.Apply? { AppliedHasValues(w, op); }
      GetIsFirst(w.doc, p);
      CellStaysGood(CellOf(w, id, p), Look(original, p), op, id, p);
    }
  }

  /** What a contributor owns it can give back. */
  lemma {:induction false} OwnedIsReturnable(claims: map<Id, set<Path>>, w: World, id: Id, original: Json)
    requires Apart(claims) && Sound(claims, w) && Accounted(claims, w, original) && id in w.records
    ensures var r := w.records[id];
      forall p | p in Previous(r) ::
        r.captured && p in claims[id] && Returnable(There(Union(claims), original), w.doc, r.priors, p)
  {
    var r := w.records[id];
    assert SoundRecord(claims[id], w.doc, r);
    forall p | p in Previous(r) ensures r.captured && Returnable(There(Union(claims), original), w.doc, r.priors, p) {
      assert GoodCell(CellOf(w, id, p), Look(original, p)) && CellOf(w, id, p).owned;
      assert p in Union(claims);
    }
  }

  lemma {:induction false} MyClaimsAreClaims(claims: map<Id, set<Path>>, id: Id)
    requires Apart(claims) && id in claims
    ensures claims[id] <= Union(claims) && Territory(claims[id])
  {
    TerritoryOf(claims);
  }

  lemma {:induction false} ReleaseMasked(claims: map<Id, set<Path>>, w: World, op: Op, original: Json)
    requires Apart(claims) && LeafClaims(Union(claims)) && Sound(claims, w) && Accounted(claims, w, original)
    requires Admissible(claims, op) && op.Release? && Step(w, op).1
    ensures Masked(Union(claims), There(Union(claims), original), w.doc, Step(w, op).0.doc)
  {
    MyClaimsAreClaims(claims, op.id);
    if op.id in w.records {
      var r := w.records[op.id];
      assert SoundRecord(claims[op.id], w.doc, r);
      OwnedIsReturnable(claims, w, op.id, original);
      RevertMasked(Union(claims), claims[op.id], There(Union(claims), original), w.doc, Previous(r), r.priors);
    }
  }

  lemma {:induction false} ApplyMasked(claims: map<Id, set<Path>>, w: World, op: Op, original: Json)
    requires Apart(claims) && LeafClaims(Union(claims)) && Sound(claims, w) && Accounted(claims, w, original)
    requires Admissible(claims, op) && op.Apply? && Step(w, op).1
    ensures Masked(Union(claims), There(Union(claims), original), w.doc, Step(w, op).0.doc)
  {
    var u, kept, mine, r := Union(claims), There(Union(claims), original), claims[op.id], RecordOf(w, op.id);
    var known := if r.captured then r.priors else Capture(w.doc, op.c.obj, op.c.paths, r.priors);
    var claimed := set t | t in Texts(op.c.paths);
    var left := Withdraw(w.doc, Previous(r), claimed, known).doc;
    MyClaimsAreClaims(claims, op.id);
    if op.id in w.records {
      assert SoundRecord(mine, w.doc, r);
      OwnedIsReturnable(claims, w, op.id, original);
    }
    if Previous(r) != [] {
      assert Previous(r)[0] in Previous(r);
      WithdrawMasked(u, mine, kept, w.doc, Previous(r), claimed, known);
    }
    forall p | p in op.c.paths ensures p in u && Writable(kept, left, p) {
      assert GoodCell(CellOf(w, op.id, p), Look(original, p));
      ClaimedByText(mine, op.c.paths, p);
      if Previous(r) != [] { WithdrawLaws(mine, w.doc, Previous(r), claimed, known, p); }
    }
    SetAllMasked(u, kept, left, op.c.obj, op.c.paths);
  }

  lemma {:induction false} RunMasked(claims: map<Id, set<Path>>, w: World, ops: seq<Op>, original: Json)
    requires Apart(claims) && LeafClaims(Union(claims)) && Sound(claims, w) && Accounted(claims, w, original)
    requires (forall op | op in ops :: Admissible(claims, op)) && AllRemember(w, ops)
    ensures Masked(Union(claims), There(Union(claims), original), w.doc, Run(w, ops).doc)
    ensures Accounted(claims, Run(w, ops), original)
    decreases |ops|
  {
    if ops != [] {
      var op := ops[0];
      var (next, ok) := Step(w, op);
      if ok {
        StepLaws(claims, w, op);
        StaysAccounted(claims, w, op, original);
        if op.Apply? { ApplyMasked(claims, w, op, original); } else { ReleaseMasked(claims, w, op, original); }
      } else {
        assert next == w;
      }
      RunMasked(claims, next, ops[1..], original);
    }
  }

  // ---- Main results ----

  /** Claims rendered without list positions have the shape asked for here. */
  lemma {:induction false} RenderedAreLeafClaims(fields: map<string, Json>, keys: MergeKeys)
    requires forall p | p in LeafPaths(fields, keys) :: IndexFree(p) && Printable(p)
    ensures LeafClaims(set p | p in LeafPaths(fields, keys))
  {
    RenderedClaimsAreTerritory(fields, keys);
    forall p: Path, i | p in LeafPaths(fields, keys) && 0 <= i < |p| - 1 ensures p[i].IsField() {
      SortKeepsMembers(LeavesBelow(Obj(fields), [], keys), p);
      InteriorIsFields(Obj(fields), [], keys, p);
      assert p[i] in p;
    }
  }

  lemma {:induction false} NothingOwned(claims: map<Id, set<Path>>, w: World, original: Json)
    requires Accounted(claims, w, original) && w.records == map[]
    ensures SameReads(w.doc, original, Union(claims), [])
    ensures Kept(original, Union(claims), There(Union(claims), original), [])
  {
    forall p | p in Union(claims) ensures p[0..] == p && Look(w.doc, p) == Look(original, p) {
      var id :| id in claims && p in claims[id];
      assert GoodCell(CellOf(w, id, p), Look(original, p));
    }
  }

  /**
   * Once nobody is on record any more, after applies and releases in any order that took nothing over
   * unremembered, the tree is the original: every value, every list element and their order, except that
   * on the way to a claim something hollow may stand for something else that is, or be missing. And where
   * no claim leaves a trace it is the original exactly.
   */
  lemma {:induction false} TreeComesBack(claims: map<Id, set<Path>>, w: World, ops: seq<Op>)
    requires Apart(claims) && LeafClaims(Union(claims)) && w.doc.Obj? && w.records == map[]
    requires (forall op | op in ops :: Admissible(claims, op)) && AllRemember(w, ops)
    requires Run(w, ops).records == map[]
    ensures Alike(Run(w, ops).doc, w.doc, Union(claims), [])
    ensures (forall p | p in Union(claims) :: LeavesNoTrace(w.doc, p)) ==> Run(w, ops).doc == w.doc
  {
    var u, kept, after := Union(claims), There(Union(claims), w.doc), Run(w, ops);
    RunMasked(claims, w, ops, w.doc);
    NothingOwned(claims, after, w.doc);
    OneCoreIsAlike(after.doc, w.doc, u, kept, []);
    if forall p | p in u :: LeavesNoTrace(w.doc, p) {
      forall p | p in u && [] < p ensures LeavesNoTrace(w.doc, p[0..]) { assert p[0..] == p; }
      OneCoreIsEqual(after.doc, w.doc, u, kept, []);
    }
  }
}
