/** What one apply and one revert do at each path, over a territory of paths that diverge pairwise. */
module ApplyLaws {
  import opened Json
  import opened Text
  import opened FieldPath
  import opened FieldLaws
  import opened PathText
  import opened ClientSideApply

  /** Claimable paths: each can be walked and stored, and any two part ways. */
  ghost predicate Territory(u: set<Path>)
  {
    (forall p | p in u :: Keyed(p) && Printable(p)) &&
    (forall p, q | p in u && q in u && p != q :: Diverge(p, q))
  }

  /** A path no claim can touch. */
  ghost predicate Outside(u: set<Path>, q: Path)
  {
    KeepsKeys(q) && forall p | p in u :: Diverge(p, q)
  }

  /** Paths whose observation a write at p must leave alone. */
  ghost predicate Elsewhere(u: set<Path>, p: Path, q: Path)
  {
    (q in u && q != p) || Outside(u, q)
  }

  /** Every recorded prior can be put back where it was found. */
  ghost predicate PriorsFit(u: set<Path>, priors: Priors)
  {
    forall p | p in u && Print(p) in priors :: Fits(p, priors[Print(p)])
  }

  function PriorAt(priors: Priors, p: Path): Option<Json>
  {
    if Print(p) in priors then Some(priors[Print(p)]) else None
  }

  /** What withdrawing a path leaves there. */
  function Restored(stack: seq<Json>, prior: Option<Json>): seq<Json>
  {
    (if prior.Some? then [prior.value] else []) + Tail(stack)
  }

  lemma {:induction false} SetAtTerritory(u: set<Path>, doc: Json, p: Path, v: Json, q: Path)
    requires Territory(u) && p in u && Fits(p, v) && Set(doc, p, v).ok
    ensures Look(Set(doc, p, v).tree, p) == [v] + Tail(Look(doc, p))
    ensures Elsewhere(u, p, q) ==> Look(Set(doc, p, v).tree, q) == Look(doc, q)
  {
    SetLaws(doc, p, v);
  }

  lemma {:induction false} RestoreLaws(u: set<Path>, doc: Json, p: Path, priors: Priors, q: Path)
    requires Territory(u) && p in u && PriorsFit(u, priors)
    requires Print(p) in priors ==> Look(doc, p) != []
    ensures Look(RestoreOrDelete(doc, p, priors), p) == Restored(Look(doc, p), PriorAt(priors, p))
    ensures Elsewhere(u, p, q) ==> Look(RestoreOrDelete(doc, p, priors), q) == Look(doc, q)
  {
    if Print(p) in priors {
      FoundThenSettable(doc, p, priors[Print(p)]);
      SetAtTerritory(u, doc, p, priors[Print(p)], q);
    } else {
      DeleteLaws(doc, p);
      assert [] + Tail(Look(doc, p)) == Tail(Look(doc, p));
    }
  }

  /** The values claimed at a path can be written there. */
  lemma {:induction false} ClaimFits(obj: Json, p: Path, v: Json)
    requires p != [] && Get(obj, p) == Some(v)
    ensures Fits(p, v)
  {
    GetIsFirst(obj, p);
    LookAtEnd(obj, p);
  }

  /** Writing all claims puts each claimed value in front, and shows nowhere else. */
  lemma {:induction false} SetAllLaws(u: set<Path>, doc: Json, obj: Json, paths: seq<Path>, q: Path)
    requires Territory(u) && (forall p | p in paths :: p in u) && SetAll(doc, obj, paths).Some?
    requires q in u || Outside(u, q)
    ensures q in paths ==>
      Get(obj, q).Some? && Look(SetAll(doc, obj, paths).value, q) == [Get(obj, q).value] + Tail(Look(doc, q))
    ensures q !in paths ==> Look(SetAll(doc, obj, paths).value, q) == Look(doc, q)
    decreases |paths|
  {
    if paths != [] {
      var p := paths[0];
      var v := Get(obj, p).value;
      ClaimFits(obj, p, v);
      SetAtTerritory(u, doc, p, v, q);
      SetAllLaws(u, Set(doc, p, v).tree, obj, paths[1..], q);
      assert paths == [p] + paths[1..];
      if q == p { assert !Outside(u, q) by { NotSelfDiverging(p); } }
    }
  }

  lemma {:induction false} NotSelfDiverging(p: Path)
    ensures !Diverge(p, p)
  {
    if p != [] { NotSelfDiverging(p[1..]); }
  }

  /** Withdrawing one path leaves every other path and its prior alone. */
  lemma {:induction false} WithdrawOne(u: set<Path>, doc: Json, p: Path, priors: Priors, r: Path)
    requires Territory(u) && p in u && PriorsFit(u, priors) && (Print(p) in priors ==> Look(doc, p) != [])
    ensures PriorsFit(u, priors - {Print(p)})
    ensures r in u && r != p ==>
      && PriorAt(priors - {Print(p)}, r) == PriorAt(priors, r)
      && Look(RestoreOrDelete(doc, p, priors), r) == Look(doc, r)
  {
    RestoreLaws(u, doc, p, priors, r);
    if r in u && r != p && Print(r) == Print(p) { PrintIsInjective(r, p); }
  }

  /** What withdrawing a list of paths comes to at one path. */
  ghost predicate WithdrawnAt(u: set<Path>, doc: Json, previous: seq<Path>, claimed: set<string>, priors: Priors, w: Written, q: Path)
  {
    && (q in u && q in previous && Print(q) !in claimed ==>
          Look(w.doc, q) == Restored(Look(doc, q), PriorAt(priors, q)) && Print(q) !in w.priors)
    && (q !in previous || q !in u || Print(q) in claimed ==> Look(w.doc, q) == Look(doc, q))
    && (q in u && (q !in previous || Print(q) in claimed) ==> PriorAt(w.priors, q) == PriorAt(priors, q))
  }

  /** Withdrawing what is no longer claimed restores exactly those paths and forgets their priors. */
  lemma {:induction false} WithdrawLaws(u: set<Path>, doc: Json, previous: seq<Path>, claimed: set<string>, priors: Priors, q: Path)
    requires Territory(u) && (forall p | p in previous :: p in u) && Distinct(previous) && PriorsFit(u, priors)
    requires forall p | p in previous && Print(p) in priors :: Look(doc, p) != []
    requires q in u || Outside(u, q)
    ensures var w := Withdraw(doc, previous, claimed, priors);
      PriorsFit(u, w.priors) && WithdrawnAt(u, doc, previous, claimed, priors, w, q)
    decreases |previous|
  {
    if previous != [] {
      var p := previous[0];
      var rest := previous[1..];
      assert previous == [p] + rest;
      assert p !in rest && Distinct(rest);
      if Print(p) in claimed {
        WithdrawLaws(u, doc, rest, claimed, priors, q);
      } else {
        var doc', priors' := RestoreOrDelete(doc, p, priors), priors - {Print(p)};
        RestoreLaws(u, doc, p, priors, q);
        WithdrawOne(u, doc, p, priors, q);
        forall r | r in rest && Print(r) in priors' ensures Look(doc', r) != [] {
          WithdrawOne(u, doc, p, priors, r);
        }
        WithdrawLaws(u, doc', rest, claimed, priors', q);
        if q == p { NotSelfDiverging(p); }
      }
    }
  }

  lemma {:induction false} CaptureLaws(u: set<Path>, live: Json, obj: Json, paths: seq<Path>, priors: Priors, q: Path)
    requires Territory(u) && (forall p | p in paths :: p in u) && PriorsFit(u, priors) && q in u
    ensures var known := Capture(live, obj, paths, priors);
      && PriorsFit(u, known)
      && PriorAt(known, q) == (
        if Print(q) in priors || q !in paths || Get(live, q).None? || Get(obj, q) == Get(live, q)
        then PriorAt(priors, q) else Get(live, q))
    decreases |paths|
  {
    if paths != [] {
      var p := paths[0];
      assert paths == [p] + paths[1..];
      var existing := Get(live, p);
      if Print(p) in priors || existing.None? || Get(obj, p) == existing {
        CaptureLaws(u, live, obj, paths[1..], priors, q);
      } else {
        assert p in u && Keyed(p);
        ClaimFits(live, p, existing.value);
        var next := priors[Print(p) := existing.value];
        forall r | r in u && r != p ensures PriorAt(next, r) == PriorAt(priors, r) {
          if Print(r) == Print(p) { PrintIsInjective(r, p); }
        }
        assert PriorsFit(u, next) by {
          forall r | r in u && Print(r) in next ensures Fits(r, next[Print(r)]) {
            if r != p { assert PriorAt(next, r) == PriorAt(priors, r); }
          }
        }
        CaptureLaws(u, live, obj, paths[1..], next, q);
      }
    }
  }

  /** Reverting restores or deletes every owned path, and shows nowhere else. */
  lemma {:induction false} RevertLaws(u: set<Path>, doc: Json, owned: seq<Path>, priors: Priors, q: Path)
    requires Territory(u) && (forall p | p in owned :: p in u) && Distinct(owned) && PriorsFit(u, priors)
    requires forall p | p in owned && Print(p) in priors :: Look(doc, p) != []
    requires q in u || Outside(u, q)
    ensures Look(RevertAll(doc, owned, priors), q) ==
      if q in owned then Restored(Look(doc, q), PriorAt(priors, q)) else Look(doc, q)
    decreases |owned|
  {
    if owned != [] {
      var p := owned[0];
      var rest := owned[1..];
      assert owned == [p] + rest && p !in rest && Distinct(rest);
      var doc' := RestoreOrDelete(doc, p, priors);
      RestoreLaws(u, doc, p, priors, q);
      forall r | r in rest && Print(r) in priors ensures Look(doc', r) != [] {
        RestoreLaws(u, doc, p, priors, r);
      }
      RevertLaws(u, doc', rest, priors, q);
      if q == p { assert !Outside(u, q) by { NotSelfDiverging(p); } }
    }
  }

  /** One apply, path by path: capture, withdraw, write. */
  lemma {:induction false} UpdateLaws(u: set<Path>, live: Json, c: Contribution, previous: seq<Path>, priors: Priors, captured: bool, q: Path)
    requires Territory(u) && PriorsFit(u, priors) && Distinct(previous)
    requires forall p | p in previous || p in c.paths :: p in u
    requires forall p | p in previous :: Look(live, p) != []
    requires q in u || Outside(u, q)
    requires Update(live, c, previous, priors, captured).Some?
    ensures var w := Update(live, c, previous, priors, captured).value;
      var known :=
        if captured || Print(q) in priors || q !in c.paths || Get(live, q).None? || Get(c.obj, q) == Get(live, q)
        then PriorAt(priors, q) else Get(live, q);
      && PriorsFit(u, w.priors)
      && (q in c.paths ==>
            && Get(c.obj, q).Some?
            && Look(w.doc, q) == [Get(c.obj, q).value] + Tail(Look(live, q))
            && PriorAt(w.priors, q) == known)
      && (q in u && q !in c.paths && q in previous ==>
            Look(w.doc, q) == Restored(Look(live, q), known) && Print(q) !in w.priors)
      && (q !in c.paths && q !in previous ==>
            Look(w.doc, q) == Look(live, q) && (q in u ==> PriorAt(w.priors, q) == PriorAt(priors, q)))
  {
    var known := if captured then priors else Capture(live, c.obj, c.paths, priors);
    var claimed := set t | t in Texts(c.paths);
    if q in u { CaptureLaws(u, live, c.obj, c.paths, priors, q); }
    if c.paths != [] { assert c.paths[0] in c.paths; CaptureLaws(u, live, c.obj, c.paths, priors, c.paths[0]); }
    assert q in u ==> (Print(q) in claimed <==> q in c.paths) by {
      if q in u { ClaimedByText(u, c.paths, q); }
    }
    WithdrawLaws(u, live, previous, claimed, known, q);
    SetAllLaws(u, Withdraw(live, previous, claimed, known).doc, c.obj, c.paths, q);
    if q !in u && (q in c.paths || q in previous) { NotSelfDiverging(q); }
  }

  /** Texts stand for paths one to one. */
  lemma {:induction false} ClaimedByText(u: set<Path>, paths: seq<Path>, q: Path)
    requires Territory(u) && q in u && forall p | p in paths :: p in u
    ensures Print(q) in (set t | t in Texts(paths)) <==> q in paths
  {
    if q in paths {
      var i :| 0 <= i < |paths| && paths[i] == q;
      assert Texts(paths)[i] == Print(q);
    }
    if Print(q) in Texts(paths) {
      var i :| 0 <= i < |paths| && Texts(paths)[i] == Print(q);
      assert paths[i] in paths;
      PrintIsInjective(paths[i], q);
    }
  }
}
