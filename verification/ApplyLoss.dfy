/** Applying again, also after the status write that should have recorded the first apply was lost. */
module ApplyLoss {
  import opened Json
  import opened Text
  import opened FieldPath
  import opened FieldLaws
  import opened PathText
  import opened ClientSideApply
  import opened ApplyLaws

  lemma {:induction false} SetAllSame(u: set<Path>, doc: Json, obj: Json, paths: seq<Path>)
    requires Territory(u) && forall p | p in paths :: p in u && Get(obj, p).Some? && Get(doc, p) == Get(obj, p)
    ensures SetAll(doc, obj, paths) == Some(doc)
    decreases |paths|
  {
    if paths != [] {
      assert paths == [paths[0]] + paths[1..];
      SetSame(doc, paths[0], Get(obj, paths[0]).value);
      SetAllSame(u, doc, obj, paths[1..]);
    }
  }

  lemma {:induction false} CaptureSame(live: Json, obj: Json, paths: seq<Path>, priors: Priors)
    requires forall p | p in paths :: Get(live, p) == Get(obj, p)
    ensures Capture(live, obj, paths, priors) == priors
    decreases |paths|
  {
    if paths != [] {
      assert paths == [paths[0]] + paths[1..];
      CaptureSame(live, obj, paths[1..], priors);
    }
  }

  lemma {:induction false} WithdrawClaimed(doc: Json, previous: seq<Path>, claimed: set<string>, priors: Priors)
    requires forall p | p in previous :: Print(p) in claimed
    ensures Withdraw(doc, previous, claimed, priors) == Written(doc, priors)
    decreases |previous|
  {
    if previous != [] {
      assert previous == [previous[0]] + previous[1..];
      WithdrawClaimed(doc, previous[1..], claimed, priors);
    }
  }

  /** After a successful apply every claimed path reads its claimed value. */
  lemma {:induction false} UpdateIsRead(u: set<Path>, live: Json, c: Contribution, previous: seq<Path>, priors: Priors, captured: bool, p: Path)
    requires Territory(u) && (forall q | q in c.paths :: q in u) && p in c.paths
    requires Update(live, c, previous, priors, captured).Some?
    ensures Get(c.obj, p).Some? && Get(Update(live, c, previous, priors, captured).value.doc, p) == Get(c.obj, p)
  {
    var known := if captured then priors else Capture(live, c.obj, c.paths, priors);
    var w := Withdraw(live, previous, (set t | t in Texts(c.paths)), known);
    SetAllLaws(u, w.doc, c.obj, c.paths, p);
    GetIsFirst(Update(live, c, previous, priors, captured).value.doc, p);
  }

  /**
   * Applying the same contribution again leaves the document exactly as it is and records no prior,
   * whatever bookkeeping the second apply starts from: carried forward, or lost and begun afresh.
   */
  lemma {:induction false} ReapplyChangesNothing(u: set<Path>, live: Json, c: Contribution, previous: seq<Path>, priors: Priors, captured: bool,
                              previous': seq<Path>, priors': Priors, captured': bool)
    requires Territory(u) && forall p | p in c.paths :: p in u
    requires Update(live, c, previous, priors, captured).Some?
    requires forall p | p in previous' :: p in c.paths
    ensures var doc := Update(live, c, previous, priors, captured).value.doc;
      Update(doc, c, previous', priors', captured') == Some(Written(doc, priors'))
  {
    var doc := Update(live, c, previous, priors, captured).value.doc;
    forall p | p in c.paths ensures Get(c.obj, p).Some? && Get(doc, p) == Get(c.obj, p) {
      UpdateIsRead(u, live, c, previous, priors, captured, p);
    }
    CaptureSame(doc, c.obj, c.paths, priors');
    forall p | p in previous' ensures Print(p) in (set t | t in Texts(c.paths)) {
      ClaimedByText(u, c.paths, p);
    }
    WithdrawClaimed(doc, previous', (set t | t in Texts(c.paths)), priors');
    SetAllSame(u, doc, c.obj, c.paths);
  }

  /**
   * The first apply's bookkeeping is lost; a second apply, possibly of an edited contribution, is
   * recorded, and then the contributor is released. Its second value never stays. Its first value
   * stays exactly where the contribution was edited in between, and what was there first is gone.
   */
  lemma {:induction false} LostThenReleased(u: set<Path>, live: Json, first: Contribution, second: Contribution, p: Path)
    requires Territory(u) && (forall q | q in first.paths || q in second.paths :: q in u)
    requires Distinct(second.paths) && p in first.paths && p in second.paths
    requires Update(live, first, [], map[], false).Some?
    requires Update(Update(live, first, [], map[], false).value.doc, second, [], map[], false).Some?
    ensures var once := Update(live, first, [], map[], false).value;
      var twice := Update(once.doc, second, [], map[], false).value;
      && Get(first.obj, p).Some?
      && Look(RevertAll(twice.doc, second.paths, twice.priors), p) ==
        (if Get(first.obj, p) == Get(second.obj, p) then [] else [Get(first.obj, p).value]) + Tail(Look(live, p))
  {
    var once := Update(live, first, [], map[], false).value;
    var twice := Update(once.doc, second, [], map[], false).value;
    UpdateLaws(u, live, first, [], map[], false, p);
    UpdateIsRead(u, live, first, [], map[], false, p);
    forall q | q in second.paths ensures Look(twice.doc, q) != [] {
      UpdateLaws(u, once.doc, second, [], map[], false, q);
    }
    UpdateLaws(u, once.doc, second, [], map[], false, p);
    RevertLaws(u, twice.doc, second.paths, twice.priors, p);
    assert Tail(Look(twice.doc, p)) == Tail(Look(live, p));
  }

  /**
   * The target is deleted and made again while the contributor's record stays. It applies to the new object with
   * the priors of the old one, and its release puts those back: a value that was never in the new object, in
   * place of whatever was.
   */
  lemma {:induction false} RecreatedThenReleased(u: set<Path>, live: Json, anew: Json, c: Contribution, p: Path)
    requires Territory(u) && (forall q | q in c.paths :: q in u) && Distinct(c.paths) && p in c.paths
    requires Update(live, c, [], map[], false).Some?
    requires Update(anew, c, c.paths, Update(live, c, [], map[], false).value.priors, true).Some?
    ensures var once := Update(live, c, [], map[], false).value;
      var again := Update(anew, c, c.paths, once.priors, true).value;
      && again.priors == once.priors
      && Look(RevertAll(again.doc, c.paths, again.priors), p) ==
        (if Get(live, p).Some? && Get(live, p) != Get(c.obj, p) then [Get(live, p).value] else []) + Tail(Look(anew, p))
  {
    var once := Update(live, c, [], map[], false).value;
    var again := Update(anew, c, c.paths, once.priors, true).value;
    UpdateLaws(u, live, c, [], map[], false, p);
    forall q | q in c.paths ensures Print(q) in (set t | t in Texts(c.paths)) { ClaimedByText(u, c.paths, q); }
    WithdrawClaimed(anew, c.paths, (set t | t in Texts(c.paths)), once.priors);
    forall q | q in c.paths ensures Look(again.doc, q) != [] { SetAllLaws(u, anew, c.obj, c.paths, q); }
    SetAllLaws(u, anew, c.obj, c.paths, p);
    RevertLaws(u, again.doc, c.paths, again.priors, p);
  }
}
