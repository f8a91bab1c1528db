/** Claims that path text cannot express: they are stored as another path's text, and so never withdrawn. */
module TornClaims {
  import opened Json
  import opened Text
  import opened FieldPath
  import opened FieldLaws
  import opened PathText
  import opened ClientSideApply
  import opened ApplyLaws
  import opened ApplyRuns

  /** The path the stored text of p is read back as. */
  function Reading(p: Path): Result<Path>
  {
    Parse(Print(p))
  }

  predicate AllFields(p: Path)
  {
    p != [] && forall s | s in p :: s.IsField()
  }

  /** Followed along p, r turns off before either ends. */
  predicate Misses(r: Path, p: Path)
  {
    r != [] && p != [] && (r[0] != p[0] || Misses(r[1..], p[1..]))
  }

  // ---- Text ----

  lemma {:induction false} ScanReadsSomething(s: string)
    requires s != "" && Scan(s).Ok?
    ensures Scan(s).value != []
    decreases |s|
  {
    if s[0] == '.' && |s| > 1 { ScanReadsSomething(s[1..]); }
  }

  lemma {:induction false} TextGoesOn(p: Path)
    requires AllFields(p)
    ensures PathText.Text(p, false) != "" && PathText.Text(p, false)[0] == '.'
    ensures PathText.Text(p, true) != ""
  {
    assert p[0] in p;
  }

  /** A field path that text cannot express is read back, if at all, as one that turns off from it. */
  lemma {:induction false} TextMisses(p: Path, first: bool)
    requires AllFields(p) && !Printable(p) && Scan(PathText.Text(p, first)).Ok?
    ensures Misses(Scan(PathText.Text(p, first)).value, p)
    decreases |p|
  {
    assert p[0] in p;
    TextGoesOn(p);
    ScanReadsSomething(PathText.Text(p, first));
    ScanIsPrintable(PathText.Text(p, first));
    var r := Scan(PathText.Text(p, first)).value;
    assert r[0] in r;
    if PrintableSegment(p[0]) {
      var rest := PathText.Text(p[1..], false);
      var s :| s in p && !PrintableSegment(s);
      assert s in p[1..];
      TextGoesOn(p[1..]);
      PieceReads(p[0], first, rest);
      TextMisses(p[1..], false);
      assert r == [p[0]] + Scan(rest).value;
    }
  }

  lemma {:induction false} ReadingMisses(p: Path)
    requires AllFields(p) && !Printable(p) && Reading(p).Ok?
    ensures Misses(Reading(p).value, p)
  {
    TextMisses(p, true);
  }

  lemma {:induction false} NothingMissesItself(p: Path)
    ensures !Misses(p, p)
  {
    if p != [] { NothingMissesItself(p[1..]); }
  }

  // ---- Writes that turn off from a path are not seen there ----

  lemma {:induction false} FieldsBelow(p: Path)
    requires AllFields(p) && |p| > 1
    ensures AllFields(p[1..]) && p[1].IsField() && p[0].IsField()
  {
    assert p[0] in p && p[1] in p;
    assert forall s | s in p[1..] :: s in p;
  }

  lemma {:induction false} SetMisses(c: Json, r: Path, v: Json, p: Path)
    requires AllFields(p) && Misses(r, p)
    ensures Look(SetAt(c, r, v).tree, p) == Look(c, p)
    decreases |p|
  {
    assert p[0] in p;
    if r[0] == p[0] && c.Obj? {
      FieldsBelow(p);
      var f := p[0].name;
      var child := if f in c.fields then OrEmpty(c.fields[f], r[1]) else EmptyFor(r[1]);
      SetMisses(child, r[1..], v, p[1..]);
      assert Look(EmptyFor(r[1]), p[1..]) == [] && Look(Null, p[1..]) == [];
    }
  }

  lemma {:induction false} DeleteMisses(c: Json, r: Path, p: Path)
    requires AllFields(p) && Misses(r, p)
    ensures Look(DeleteAt(c, r).tree, p) == Look(c, p)
    decreases |p|
  {
    assert p[0] in p;
    if r[0] == p[0] && c.Obj? && p[0].name in c.fields {
      FieldsBelow(p);
      DeleteMisses(c.fields[p[0].name], r[1..], p[1..]);
    }
  }

  lemma {:induction false} FieldsAreClaimable(p: Path)
    requires AllFields(p)
    ensures Keyed(p) && Walkable(p) && forall v :: Fits(p, v)
    ensures forall c :: |Look(c, p)| <= 1
  {
    assert p[0] in p && p[|p| - 1] in p;
    forall i | 0 <= i < |p| - 1 ensures !p[i].IsKeyMatch() { assert p[i] in p; }
    forall c ensures |Look(c, p)| <= 1 { LookAtEnd(c, p); }
  }

  /** A prefix of a path that turns off has turned off already, or runs along. */
  lemma {:induction false} MissesSplit(r: Path, p: Path, i: nat)
    requires Misses(r, p) && 0 < i <= |r|
    ensures Misses(r[..i], p) || (i < |p| && r[..i] == p[..i])
    decreases i
  {
    assert r[..i][0] == r[0] && r[..i][1..] == r[1..][..i - 1];
    if r[0] == p[0] {
      if i == 1 {
        assert r[..1] == [r[0]] && p[..1] == [p[0]];
      } else {
        MissesSplit(r[1..], p[1..], i - 1);
        if i - 1 < |p[1..]| && r[1..][..i - 1] == p[1..][..i - 1] {
          assert r[..i] == [r[0]] + r[1..][..i - 1] && p[..i] == [p[0]] + p[1..][..i - 1];
        }
      }
    }
  }

  /** Removing an empty container on the way to p is not seen at p. */
  lemma {:induction false} EmptyOnTheWay(c: Json, p: Path, i: nat)
    requires AllFields(p) && 0 < i < |p| && Get(c, p[..i]) == Some(EMPTY)
    ensures Look(DeleteAt(c, p[..i]).tree, p) == Look(c, p)
  {
    var front, back := p[..i], p[i..];
    assert p == front + back && back[0] == p[i] && p[i] in p;
    assert forall s | s in front :: s in p;
    assert AllFields(front);
    FieldsAreClaimable(front);
    GetIsFirst(c, front);
    DeleteThenLook(c, front);
    LookThrough(c, front, back);
    LookThrough(DeleteAt(c, front).tree, front, back);
    assert Look(EMPTY, back) == [];
  }

  lemma {:induction false} PruneMisses(c: Json, r: Path, i: int, p: Path)
    requires AllFields(p) && Misses(r, p) && i <= |r|
    ensures Look(PruneFrom(c, r, i), p) == Look(c, p)
    decreases i
  {
    if i > 0 && Get(c, r[..i]) == Some(EMPTY) {
      MissesSplit(r, p, i);
      if Misses(r[..i], p) { DeleteMisses(c, r[..i], p); } else { EmptyOnTheWay(c, p, i); }
      PruneMisses(DeleteAt(c, r[..i]).tree, r, i - 1, p);
    } else if i > 0 && Get(c, r[..i]).None? {
      PruneMisses(c, r, i - 1, p);
    }
  }

  lemma {:induction false} RestoreMisses(doc: Json, r: Path, priors: Priors, p: Path)
    requires AllFields(p) && Misses(r, p)
    ensures Look(RestoreOrDelete(doc, r, priors), p) == Look(doc, p)
  {
    var left := doc;
    if Print(r) in priors {
      left := Set(doc, r, priors[Print(r)]).tree;
      SetMisses(doc, r, priors[Print(r)], p);
    }
    DeleteMisses(left, r, p);
    PruneMisses(DeleteAt(left, r).tree, r, |r| - 1, p);
  }

  // ---- One contributor's apply and release ----

  /** The other claims turn off from p, and so does whatever their texts are read back as. */
  ghost predicate OthersMiss(paths: seq<Path>, p: Path)
  {
    forall q | q in paths && q != p :: Misses(q, p) && (Reading(q).Ok? ==> Misses(Reading(q).value, p))
  }

  lemma {:induction false} SetAllShows(doc: Json, obj: Json, paths: seq<Path>, p: Path)
    requires AllFields(p) && (forall q | q in paths && q != p :: Misses(q, p)) && Distinct(paths) && SetAll(doc, obj, paths).Some?
    ensures p in paths ==> Get(obj, p).Some? && Look(SetAll(doc, obj, paths).value, p) == [Get(obj, p).value]
    ensures p !in paths ==> Look(SetAll(doc, obj, paths).value, p) == Look(doc, p)
    decreases |paths|
  {
    if paths != [] {
      var q, rest := paths[0], paths[1..];
      assert paths == [q] + rest;
      var v := Get(obj, q).value;
      FieldsAreClaimable(p);
      if q == p { SetThenLook(doc, p, v); } else { SetMisses(doc, q, v, p); }
      SetAllShows(Set(doc, q, v).tree, obj, rest, p);
    }
  }

  lemma {:induction false} CaptureShows(live: Json, obj: Json, paths: seq<Path>, priors: Priors, p: Path)
    requires Distinct(paths) && forall q | q in paths && q != p :: Print(q) != Print(p)
    ensures PriorAt(Capture(live, obj, paths, priors), p) == (
      if Print(p) in priors || p !in paths || Get(live, p).None? || Get(obj, p) == Get(live, p)
      then PriorAt(priors, p) else Get(live, p))
    decreases |paths|
  {
    if paths != [] {
      var q, rest, existing := paths[0], paths[1..], Get(live, paths[0]);
      assert paths == [q] + rest;
      var next :=
        if Print(q) in priors || existing.None? || Get(obj, q) == existing then priors
        else priors[Print(q) := existing.value];
      assert q != p ==> PriorAt(next, p) == PriorAt(priors, p);
      CaptureShows(live, obj, rest, next, p);
    }
  }

  lemma {:induction false} RevertOneShows(doc: Json, q: Path, priors: Priors, p: Path)
    requires AllFields(p) && Reading(q).Ok? && (q != p ==> Misses(Reading(q).value, p))
    requires Print(p) in priors && q == p && Printable(p) ==> Look(doc, p) != []
    ensures Look(RestoreOrDelete(doc, Reading(q).value, priors), p) ==
      if q == p && Printable(p) then Restored(Look(doc, p), PriorAt(priors, p)) else Look(doc, p)
  {
    if q == p && Printable(p) {
      FieldsAreClaimable(p);
      ParseUndoesPrint(p);
      RestoreLaws({p}, doc, p, priors, p);
    } else {
      if q == p { ReadingMisses(p); }
      RestoreMisses(doc, Reading(q).value, priors, p);
    }
  }

  lemma {:induction false} ReadsHeadFirst(paths: seq<Path>)
    requires paths != [] && ParsePaths(Texts(paths)).Ok?
    ensures Reading(paths[0]).Ok? && ParsePaths(Texts(paths[1..])).Ok?
    ensures ParsePaths(Texts(paths)).value == [Reading(paths[0]).value] + ParsePaths(Texts(paths[1..])).value
  {
    assert Texts(paths)[1..] == Texts(paths[1..]);
  }

  lemma {:induction false} RevertShows(doc: Json, paths: seq<Path>, priors: Priors, p: Path)
    requires AllFields(p) && OthersMiss(paths, p) && Distinct(paths) && ParsePaths(Texts(paths)).Ok?
    requires Print(p) in priors && p in paths && Printable(p) ==> Look(doc, p) != []
    ensures Look(RevertAll(doc, ParsePaths(Texts(paths)).value, priors), p) ==
      if p in paths && Printable(p) then Restored(Look(doc, p), PriorAt(priors, p)) else Look(doc, p)
    decreases |paths|
  {
    if paths != [] {
      var q, rest := paths[0], paths[1..];
      var r := Reading(q).value;
      assert paths == [q] + rest;
      ReadsHeadFirst(paths);
      var ps := ParsePaths(Texts(rest)).value;
      assert ([r] + ps)[1..] == ps;
      RevertOneShows(doc, q, priors, p);
      RevertShows(RestoreOrDelete(doc, r, priors), rest, priors, p);
    }
  }

  // ---- Other claims whose texts lead along p ----

  predicate Along(r: Path, p: Path)
  {
    r != [] && r <= p
  }

  /** Some other claim's text is read back as a path along p. */
  predicate TornAlong(paths: seq<Path>, p: Path)
  {
    exists q | q in paths :: q != p && Reading(q).Ok? && Along(Reading(q).value, p)
  }

  lemma {:induction false} MissesOrMeets(r: Path, p: Path)
    requires r != [] && p != [] && !Misses(r, p)
    ensures r <= p || p <= r
    decreases |r|
  {
    assert r == [r[0]] + r[1..] && p == [p[0]] + p[1..];
    if |r| > 1 && |p| > 1 { MissesOrMeets(r[1..], p[1..]); }
  }

  /** What a text is read back as turns off from a path that text cannot express, or leads along it. */
  lemma {:induction false} ReadingMissesOrLeads(q: Path, p: Path)
    requires AllFields(p) && !Printable(p) && Reading(q).Ok?
    ensures Misses(Reading(q).value, p) || (Along(Reading(q).value, p) && q != p)
  {
    var r := Reading(q).value;
    PrintUndoesParse(Print(q));
    if q == p { ReadingMisses(p); }
    if !Misses(r, p) {
      MissesOrMeets(r, p);
      PrefixPrints(p, r);
    }
  }

  lemma {:induction false} PrefixPrints(p: Path, r: Path)
    requires p != [] && Printable(r)
    ensures p <= r ==> Printable(p)
  {
    assert p <= r ==> forall s | s in p :: s in r;
  }

  /** Withdrawing a path along p leaves nothing at p, or what the restored value has there. */
  lemma {:induction false} RestoreAlong(doc: Json, r: Path, priors: Priors, p: Path)
    requires AllFields(p) && r != [] && r < p
    ensures var left := Get(RestoreOrDelete(doc, r, priors), p);
      left.None? || (Print(r) in priors && left == Get(priors[Print(r)], p[|r|..]))
  {
    var back, after := p[|r|..], RestoreOrDelete(doc, r, priors);
    assert p == r + back;
    assert AllFields(r) by { assert forall s | s in r :: s in p; }
    FieldsAreClaimable(r);
    if Print(r) in priors && Set(doc, r, priors[Print(r)]).ok {
      SetThenLook(doc, r, priors[Print(r)]);
      GetIsFirst(priors[Print(r)], back);
    } else {
      DeleteLaws(if Print(r) in priors then Set(doc, r, priors[Print(r)]).tree else doc, r);
    }
    LookThrough(after, r, back);
    GetIsFirst(after, p);
  }

  /** What is on record to be put back on the way to p. */
  ghost predicate PutBack(paths: seq<Path>, priors: Priors, p: Path, left: Option<Json>)
  {
    exists q | q in paths :: q != p && Reading(q).Ok? && Along(Reading(q).value, p)
      && var r := Reading(q).value; Print(r) in priors && left == Get(priors[Print(r)], p[|r|..])
  }

  lemma {:induction false} RevertTorn(doc: Json, paths: seq<Path>, priors: Priors, p: Path)
    requires AllFields(p) && !Printable(p) && ParsePaths(Texts(paths)).Ok?
    ensures var after := RevertAll(doc, ParsePaths(Texts(paths)).value, priors);
      if TornAlong(paths, p) then Get(after, p).None? || PutBack(paths, priors, p, Get(after, p))
      else Look(after, p) == Look(doc, p)
    decreases |paths|
  {
    if paths != [] {
      var q, rest := paths[0], paths[1..];
      assert paths == [q] + rest;
      ReadsHeadFirst(paths);
      var r := Reading(q).value;
      var ps := ParsePaths(Texts(rest)).value;
      assert ([r] + ps)[1..] == ps;
      var next := RestoreOrDelete(doc, r, priors);
      RevertTorn(next, rest, priors, p);
      ReadingMissesOrLeads(q, p);
      if Misses(r, p) {
        RestoreMisses(doc, r, priors, p);
        NotAlong(r, p);
      } else if !TornAlong(rest, p) {
        ReadIsPrinted(q, p);
        RestoreAlong(doc, r, priors, p);
        GetIsFirst(next, p);
        GetIsFirst(RevertAll(next, ps, priors), p);
      }
      assert TornAlong(rest, p) ==> TornAlong(paths, p);
    }
  }

  lemma {:induction false} NotAlong(r: Path, p: Path)
    requires Misses(r, p)
    ensures !Along(r, p)
  {
    if r[0] == p[0] {
      NotAlong(r[1..], p[1..]);
      var back, front := r[1..], p[1..];
      assert r <= p ==> back <= front;
    }
  }

  lemma {:induction false} ReadIsPrinted(q: Path, p: Path)
    requires !Printable(p) && Reading(q).Ok?
    ensures Reading(q).value != p && Reading(q).value != []
  {
    PrintUndoesParse(Print(q));
  }

  /**
   * A contributor applies and is then released, and both take effect; its other claims turn off from p, as
   * leaf paths do. If p fits path text and no other claim is read back along it, it is given back or emptied.
   * If p does not fit, it still reads the claimed value, on every document and for good, if no other claim's
   * text is read back as a path along it; and otherwise it goes with that path: it reads nothing, or what the
   * prior put back there has at it. So but for such a prior, which can only hold the value by chance, the
   * value stays exactly if p is unprintable and no other text leads along it.
   */
  lemma {:induction false} TornExactly(w: World, id: Id, c: Contribution, p: Path)
    requires id !in w.records && Distinct(c.paths) && p in c.paths && AllFields(p)
    requires forall q | q in c.paths && q != p :: Misses(q, p)
    requires Printable(p) ==> OthersMiss(c.paths, p)
    requires var (applied, ok) := Step(w, Apply(id, c)); ok && Step(applied, Release(id)).1
    ensures var (applied, _) := Step(w, Apply(id, c));
      var (after, _) := Step(applied, Release(id));
      var left, priors := Get(after.doc, p), applied.records[id].priors;
      && id !in after.records && Get(c.obj, p).Some?
      && (Printable(p) ==> left == if Get(w.doc, p) == Get(c.obj, p) then None else Get(w.doc, p))
      && (!Printable(p) && !TornAlong(c.paths, p) ==> left == Get(c.obj, p))
      && (!Printable(p) && TornAlong(c.paths, p) ==> left.None? || PutBack(c.paths, priors, p, left))
      && (!PutBack(c.paths, priors, p, Get(c.obj, p)) ==>
            (left == Get(c.obj, p) <==> !Printable(p) && !TornAlong(c.paths, p)))
  {
    var priors := Capture(w.doc, c.obj, c.paths, map[]);
    var (applied, _) := Step(w, Apply(id, c));
    var (after, _) := Step(applied, Release(id));
    SetAllShows(w.doc, c.obj, c.paths, p);
    GetIsFirst(w.doc, p);
    GetIsFirst(after.doc, p);
    if Printable(p) {
      ParseUndoesPrint(p);
      NothingMissesItself(p);
      CaptureShows(w.doc, c.obj, c.paths, map[], p);
      RevertShows(applied.doc, c.paths, priors, p);
    } else {
      RevertTorn(applied.doc, c.paths, priors, p);
    }
  }

  // ---- Texts that are never read back ----

  /** No name holds an opening bracket. */
  predicate Bracketless(p: Path)
  {
    AllFields(p) && forall s | s in p :: '[' !in s.name
  }

  predicate EndsInDot(p: Path)
  {
    p != [] && p[|p| - 1].IsField() && var name := p[|p| - 1].name; name[|name| - 1] == '.'
  }

  lemma {:induction false} DotsEndIt(s: string)
    requires s != "" && '[' !in s
    ensures Scan(s).Ok? <==> s[|s| - 1] != '.'
    decreases |s|
  {
    assert s[0] in s;
    var n := if s[0] == '.' then 1 else NameEnd(s);
    var rest := s[n..];
    assert forall ch | ch in rest :: ch in s;
    if rest == "" {
      assert n == |s|;
    } else {
      assert rest[|rest| - 1] == s[|s| - 1];
      DotsEndIt(rest);
    }
  }

  lemma {:induction false} PieceEnds(seg: Segment, first: bool)
    requires seg.IsField() && '[' !in seg.name
    ensures var s := Piece(seg, first); s != "" && '[' !in s && s[|s| - 1] == seg.name[|seg.name| - 1]
  {
    assert Piece(seg, true) == seg.name;
  }

  lemma {:induction false} Joined(a: string, b: string)
    requires b != "" && '[' !in a && '[' !in b
    ensures a + b != "" && '[' !in a + b && (a + b)[|a + b| - 1] == b[|b| - 1]
  {}

  lemma {:induction false} BracketlessBelow(p: Path)
    requires Bracketless(p)
    ensures p[0].IsField() && '[' !in p[0].name
    ensures |p| > 1 ==> Bracketless(p[1..]) && (EndsInDot(p[1..]) <==> EndsInDot(p))
  {
    assert p[0] in p;
    if |p| > 1 {
      FieldsBelow(p);
      assert p[1..][|p| - 2] == p[|p| - 1];
      forall s | s in p[1..] ensures '[' !in s.name { assert s in p; }
    }
  }

  lemma {:induction false} TextEnds(p: Path, first: bool)
    requires Bracketless(p)
    ensures var s := PathText.Text(p, first); s != "" && '[' !in s && (s[|s| - 1] == '.' <==> EndsInDot(p))
    decreases |p|
  {
    var piece := Piece(p[0], first);
    BracketlessBelow(p);
    PieceEnds(p[0], first);
    if |p| > 1 {
      TextEnds(p[1..], false);
      Joined(piece, PathText.Text(p[1..], false));
      assert PathText.Text(p, first) == piece + PathText.Text(p[1..], false);
    } else {
      assert PathText.Text(p, first) == piece + "" == piece;
    }
  }

  /**
   * A record of claims without brackets in their names is released if and only if none of their last names
   * ends in a dot. One that does keeps the whole record, whatever else is on it, however often that is tried.
   */
  lemma {:induction false} TrailingDotNeverReleases(w: World, id: Id, paths: seq<Path>, n: nat)
    requires id in w.records && w.records[id].ownedPaths == Texts(paths)
    ensures (forall p | p in paths :: Bracketless(p)) ==>
      (Step(w, Release(id)).1 <==> forall p | p in paths :: !EndsInDot(p))
    ensures (exists p | p in paths :: Bracketless(p) && EndsInDot(p)) ==> Run(w, seq(n, i => Release(id))) == w
  {
    DotsEndThemAll(paths);
    if exists p | p in paths :: Bracketless(p) && EndsInDot(p) { StuckStays(w, id, n); }
  }

  lemma {:induction false} DotsEndThemAll(paths: seq<Path>)
    ensures (exists p | p in paths :: Bracketless(p) && EndsInDot(p)) ==> ParsePaths(Texts(paths)).Err?
    ensures (forall p | p in paths :: Bracketless(p) && !EndsInDot(p)) ==> ParsePaths(Texts(paths)).Ok?
    decreases |paths|
  {
    if paths != [] {
      var p := paths[0];
      assert paths == [p] + paths[1..] && Texts(paths)[1..] == Texts(paths[1..]);
      DotsEndThemAll(paths[1..]);
      if Bracketless(p) {
        TextEnds(p, true);
        DotsEndIt(Print(p));
        if Scan(Print(p)).Ok? { ScanReadsSomething(Print(p)); }
      }
    }
  }

  lemma {:induction false} StuckStays(w: World, id: Id, n: nat)
    requires Step(w, Release(id)) == (w, false)
    ensures Run(w, seq(n, i => Release(id))) == w
  {
    if n > 0 {
      var releases: seq<Op> := seq(n, i => Release(id));
      assert releases[1..] == seq(n - 1, i => Release(id));
      StuckStays(w, id, n - 1);
    }
  }
}
