/**
 * Whole runs: contributors apply and are released in any order, on one document. The tracker stores
 * each contributor's paths as text and its priors by path text between calls.
 */
module ApplyRuns {
  import opened Json
  import opened Text
  import opened FieldPath
  import opened FieldLaws
  import opened PathText
  import opened ClientSideApply
  import opened ApplyLaws

  type Id = string

  /** The tracker's bookkeeping for one contributor. */
  datatype Record = Record(ownedPaths: seq<string>, priors: Priors, captured: bool)

  const FRESH := Record([], map[], false)

  datatype World = World(doc: Json, records: map<Id, Record>)

  datatype Op = Apply(id: Id, c: Contribution) | Release(id: Id)

  function RecordOf(w: World, id: Id): Record
  {
    if id in w.records then w.records[id] else FRESH
  }

  function ParsePaths(texts: seq<string>): Result<seq<Path>>
  {
    if texts == [] then Ok([]) else
    match Parse(texts[0])
    case Err(e) => Err(e)
    case Ok(p) =>
      match ParsePaths(texts[1..])
      case Err(e) => Err(e)
      case Ok(ps) => Ok([p] + ps)
  }

  /** Stored paths that do not parse count as none. */
  function Previous(r: Record): seq<Path>
  {
    match ParsePaths(r.ownedPaths) case Ok(ps) => ps case Err(_) => []
  }

  /** One call of the tracker, and whether it took effect. A failing call changes nothing. */
  function Step(w: World, op: Op): (World, bool)
  {
    var r := RecordOf(w, op.id);
    match op
    case Apply(id, c) =>
      (match Update(w.doc, c, Previous(r), r.priors, r.captured)
       case None => (w, false)
       case Some(x) => (World(x.doc, w.records[id := Record(Texts(c.paths), x.priors, true)]), true))
    case Release(id) =>
      (match ParsePaths(r.ownedPaths)
       case Err(_) => (w, false)
       case Ok(ps) => (World(RevertAll(w.doc, ps, r.priors), w.records - {id}), true))
  }

  function Run(w: World, ops: seq<Op>): World
    decreases |ops|
  {
    if ops == [] then w else Run(Step(w, ops[0]).0, ops[1..])
  }

  /** The calls that took effect. */
  function Took(w: World, ops: seq<Op>): seq<Op>
    decreases |ops|
  {
    if ops == [] then [] else
    var (next, ok) := Step(w, ops[0]);
    (if ok then [ops[0]] else []) + Took(next, ops[1..])
  }

  // ---- What a run may do ----

  /** Every contributor has its own claimable paths, and no two of all of them overlap. */
  ghost predicate Apart(claims: map<Id, set<Path>>)
  {
    (forall id, p | id in claims && p in claims[id] :: Keyed(p) && Printable(p)) &&
    (forall i, j, p, q | i in claims && j in claims && p in claims[i] && q in claims[j] && (i != j || p != q) :: Diverge(p, q))
  }

  ghost predicate Admissible(claims: map<Id, set<Path>>, op: Op)
  {
    op.id in claims &&
    (op.Apply? ==> Distinct(op.c.paths) && forall p | p in op.c.paths :: p in claims[op.id])
  }

  function Union(claims: map<Id, set<Path>>): set<Path>
  {
    set id, p | id in claims && p in claims[id] :: p
  }

  /** What the records promise about the document. */
  ghost predicate Sound(claims: map<Id, set<Path>>, w: World)
  {
    forall id | id in w.records :: id in claims && SoundRecord(claims[id], w.doc, w.records[id])
  }

  ghost predicate SoundRecord(mine: set<Path>, doc: Json, r: Record)
  {
    var ps := Previous(r);
    && ParsePaths(r.ownedPaths).Ok?
    && Distinct(ps)
    && (forall p | p in ps :: p in mine && Look(doc, p) != [])
    && PriorsFit(mine, r.priors)
    && (forall p | p in mine && Print(p) in r.priors :: p in ps)
  }

  // ---- One path through a run ----

  /** All that matters of a run at one path of one contributor. */
  datatype Cell = Cell(stack: seq<Json>, owned: bool, prior: Option<Json>, captured: bool)

  function CellOf(w: World, id: Id, p: Path): Cell
  {
    var r := RecordOf(w, id);
    Cell(Look(w.doc, p), p in Previous(r), PriorAt(r.priors, p), r.captured)
  }

  /** What the path would hold if its contributor let go of it now. */
  function Released(cell: Cell): seq<Json>
  {
    if cell.owned then Restored(cell.stack, cell.prior) else cell.stack
  }

  function CellStep(cell: Cell, op: Op, id: Id, p: Path): Cell
  {
    if op.id != id then cell else
    match op
    case Release(_) => Cell(Released(cell), false, None, false)
    case Apply(_, c) =>
      if p in c.paths then
        var want := Get(c.obj, p);
        var found := First(cell.stack);
        var prior := if cell.captured || cell.prior.Some? || found == want then cell.prior else found;
        Cell((if want.Some? then [want.value] else []) + Tail(cell.stack), true, prior, true)
      else
        Cell(Released(cell), false, if cell.owned then None else cell.prior, true)
  }

  function CellRun(cell: Cell, ops: seq<Op>, id: Id, p: Path): Cell
    decreases |ops|
  {
    if ops == [] then cell else CellRun(CellStep(cell, ops[0], id, p), ops[1..], id, p)
  }

  lemma {:induction false} StoredPathsReadBack(ps: seq<Path>)
    requires forall p | p in ps :: Printable(p)
    ensures ParsePaths(Texts(ps)) == Ok(ps)
  {
    if ps != [] {
      assert ps[0] in ps && ps == [ps[0]] + ps[1..];
      ParseUndoesPrint(ps[0]);
      StoredPathsReadBack(ps[1..]);
      assert Texts(ps)[1..] == Texts(ps[1..]);
    }
  }

  lemma {:induction false} TerritoryOf(claims: map<Id, set<Path>>)
    requires Apart(claims)
    ensures Territory(Union(claims))
    ensures forall id | id in claims :: Territory(claims[id])
  {}

  /** Another contributor's path lies outside one's own territory. */
  lemma {:induction false} OthersAreOutside(claims: map<Id, set<Path>>, id: Id, other: Id, q: Path)
    requires Apart(claims) && id in claims && other in claims && id != other && q in claims[other]
    ensures Outside(claims[id], q)
  {
    assert Keyed(q);
  }

  /** One call, as seen at any claimed path and at any path outside all claims. */
  lemma {:induction false} StepLaws(claims: map<Id, set<Path>>, w: World, op: Op)
    requires Apart(claims) && Sound(claims, w) && Admissible(claims, op) && Step(w, op).1
    ensures Sound(claims, Step(w, op).0)
    ensures forall id, p | id in claims && p in claims[id] ::
      CellOf(Step(w, op).0, id, p) == CellStep(CellOf(w, id, p), op, id, p)
    ensures forall q | Outside(Union(claims), q) :: Look(Step(w, op).0.doc, q) == Look(w.doc, q)
  {
    var w' := Step(w, op).0;
    forall q | Outside(Union(claims), q) ensures Look(w'.doc, q) == Look(w.doc, q) {
      StepOutside(claims, w, op, q);
    }
    forall id, p | id in claims && p in claims[id]
      ensures CellOf(w', id, p) == CellStep(CellOf(w, id, p), op, id, p)
    {
      if id == op.id { StepAtOwn(claims, w, op, p); } else { StepAtOther(claims, w, op, id, p); }
    }
    forall id | id in w'.records ensures id in claims && SoundRecord(claims[id], w'.doc, w'.records[id]) {
      if id == op.id {
        StepKeepsSound(claims, w, op);
      } else {
        forall p | p in Previous(w.records[id]) ensures Look(w'.doc, p) != [] {
          StepAtOther(claims, w, op, id, p);
        }
      }
    }
  }

  lemma {:induction false} StepOutside(claims: map<Id, set<Path>>, w: World, op: Op, q: Path)
    requires Apart(claims) && Sound(claims, w) && Admissible(claims, op) && Step(w, op).1
    requires Outside(claims[op.id], q)
    ensures Look(Step(w, op).0.doc, q) == Look(w.doc, q)
  {
    TerritoryOf(claims);
    var mine := claims[op.id];
    var r := RecordOf(w, op.id);
    assert SoundRecord(mine, w.doc, r);
    if q in Previous(r) || (op.Apply? && q in op.c.paths) {
      assert q in mine;
      NotSelfDiverging(q);
    } else if op.Apply? {
      UpdateLaws(mine, w.doc, op.c, Previous(r), r.priors, r.captured, q);
    } else {
      RevertLaws(mine, w.doc, Previous(r), r.priors, q);
    }
  }

  lemma {:induction false} StepAtOther(claims: map<Id, set<Path>>, w: World, op: Op, id: Id, p: Path)
    requires Apart(claims) && Sound(claims, w) && Admissible(claims, op) && Step(w, op).1
    requires id in claims && id != op.id && p in claims[id]
    ensures CellOf(Step(w, op).0, id, p) == CellOf(w, id, p)
  {
    OthersAreOutside(claims, op.id, id, p);
    StepOutside(claims, w, op, p);
  }

  lemma {:induction false} StepAtOwn(claims: map<Id, set<Path>>, w: World, op: Op, p: Path)
    requires Apart(claims) && Sound(claims, w) && Admissible(claims, op) && Step(w, op).1 && p in claims[op.id]
    ensures CellOf(Step(w, op).0, op.id, p) == CellStep(CellOf(w, op.id, p), op, op.id, p)
  {
    TerritoryOf(claims);
    var mine := claims[op.id];
    var r := RecordOf(w, op.id);
    assert SoundRecord(mine, w.doc, r);
    if op.Apply? {
      StoredPathsReadBack(op.c.paths);
      UpdateLaws(mine, w.doc, op.c, Previous(r), r.priors, r.captured, p);
      GetIsFirst(w.doc, p);
    } else {
      RevertLaws(mine, w.doc, Previous(r), r.priors, p);
    }
  }

  lemma {:induction false} StepKeepsSound(claims: map<Id, set<Path>>, w: World, op: Op)
    requires Apart(claims) && Sound(claims, w) && Admissible(claims, op) && Step(w, op).1 && op.Apply?
    ensures var w' := Step(w, op).0; SoundRecord(claims[op.id], w'.doc, w'.records[op.id])
  {
    TerritoryOf(claims);
    var mine := claims[op.id];
    var r := RecordOf(w, op.id);
    assert SoundRecord(mine, w.doc, r);
    StoredPathsReadBack(op.c.paths);
    if mine != {} {
      var q :| q in mine;
      UpdateLaws(mine, w.doc, op.c, Previous(r), r.priors, r.captured, q);
    }
    forall p | p in mine
      ensures p in op.c.paths ==> Look(Step(w, op).0.doc, p) != []
      ensures Print(p) in Step(w, op).0.records[op.id].priors ==> p in op.c.paths
    {
      UpdateLaws(mine, w.doc, op.c, Previous(r), r.priors, r.captured, p);
    }
  }

  /** A run, seen at one path, is a run of that path's cell over the calls that took effect. */
  lemma {:induction false} RunLaws(claims: map<Id, set<Path>>, w: World, ops: seq<Op>)
    requires Apart(claims) && Sound(claims, w) && forall op | op in ops :: Admissible(claims, op)
    ensures Sound(claims, Run(w, ops))
    ensures forall id, p | id in claims && p in claims[id] ::
      CellOf(Run(w, ops), id, p) == CellRun(CellOf(w, id, p), Took(w, ops), id, p)
    ensures forall q | Outside(Union(claims), q) :: Look(Run(w, ops).doc, q) == Look(w.doc, q)
    decreases |ops|
  {
    if ops != [] {
      var (next, ok) := Step(w, ops[0]);
      if ok { StepLaws(claims, w, ops[0]); } else { assert next == w; }
      RunLaws(claims, next, ops[1..]);
      var took := Took(next, ops[1..]);
      assert ([ops[0]] + took)[1..] == took && [] + took == took;
    }
  }

  // ---- What a whole life gives back ----

  /** The contributions a contributor applied, in order, while it was not released. */
  function Applies(id: Id, cs: seq<Contribution>): seq<Op>
  {
    seq(|cs|, i requires 0 <= i < |cs| => Apply(id, cs[i]))
  }

  /** How often p was claimed again after having been dropped, or first claimed after the first apply. */
  function LateClaims(cs: seq<Contribution>, p: Path): nat
  {
    if |cs| < 2 then 0 else
    LateClaims(cs[..|cs| - 1], p) +
    (if p in cs[|cs| - 1].paths && p !in cs[|cs| - 2].paths then 1 else 0)
  }

  /** How often p was taken over without remembering what it held. */
  function Unremembered(original: seq<Json>, cs: seq<Contribution>, p: Path): nat
  {
    (if cs != [] && p in cs[0].paths && First(original) == Get(cs[0].obj, p) then 1 else 0) + LateClaims(cs, p)
  }

  function Drop(s: seq<Json>, k: nat): seq<Json>
  {
    if k < |s| then s[k..] else []
  }

  lemma {:induction false} CellRunSplit(cell: Cell, a: seq<Op>, b: seq<Op>, id: Id, p: Path)
    ensures CellRun(cell, a + b, id, p) == CellRun(CellRun(cell, a, id, p), b, id, p)
    decreases |a|
  {
    if a == [] {
      assert a + b == b;
    } else {
      assert (a + b)[0] == a[0] && (a + b)[1..] == a[1..] + b;
      CellRunSplit(CellStep(cell, a[0], id, p), a[1..], b, id, p);
    }
  }

  /** Other contributors' calls do not matter to a path. */
  function Own(ops: seq<Op>, id: Id): seq<Op>
  {
    if ops == [] then []
    else if ops[0].id == id then [ops[0]] + Own(ops[1..], id)
    else Own(ops[1..], id)
  }

  lemma {:induction false} OnlyOwnMatters(cell: Cell, ops: seq<Op>, id: Id, p: Path)
    ensures CellRun(cell, ops, id, p) == CellRun(cell, Own(ops, id), id, p)
    decreases |ops|
  {
    if ops != [] {
      OnlyOwnMatters(CellStep(cell, ops[0], id, p), ops[1..], id, p);
      if ops[0].id == id {
        assert ([ops[0]] + Own(ops[1..], id))[1..] == Own(ops[1..], id);
      }
    }
  }

  /** One apply at a cell: what the contributor reads there, and what letting go would give back. */
  lemma {:induction false} CellApply(cell: Cell, c: Contribution, id: Id, p: Path)
    requires p in c.paths ==> Get(c.obj, p).Some?
    requires cell.prior.Some? ==> cell.owned
    requires cell.owned ==> cell.captured && cell.stack != []
    ensures var next := CellStep(cell, Apply(id, c), id, p);
      && next.captured
      && (next.owned <==> p in c.paths)
      && (next.owned ==> First(next.stack) == Get(c.obj, p))
      && (next.prior.Some? ==> next.owned)
      && Released(next) == (
        if p in c.paths && !cell.owned && (cell.captured || First(cell.stack) == Get(c.obj, p)) then Tail(cell.stack)
        else Released(cell))
  {
    var next := CellStep(cell, Apply(id, c), id, p);
    if p in c.paths {
      assert next.stack[1..] == Tail(cell.stack);
    }
    assert [] + Tail(cell.stack) == Tail(cell.stack) && [] + Tail(next.stack) == Tail(next.stack);
  }

  lemma {:induction false} DropMore(s: seq<Json>, k: nat)
    ensures Drop(s, k + 1) == Tail(Drop(s, k))
    ensures Drop(s, 0) == s
  {}

  lemma {:induction false} TookOver(original: seq<Json>, cs: seq<Contribution>, p: Path)
    requires cs != []
    ensures var n := |cs| - 1;
      Unremembered(original, cs, p) == Unremembered(original, cs[..n], p) +
      (if p in cs[n].paths && (if n == 0 then First(original) == Get(cs[0].obj, p) else p !in cs[n - 1].paths) then 1 else 0)
  {
    if |cs| > 1 {
      assert cs[..|cs| - 1][0] == cs[0];
    }
  }

  /** A cell after the given applies: it reads the last claim, and letting go gives back the rest. */
  ghost predicate Holds(cell: Cell, original: seq<Json>, cs: seq<Contribution>, p: Path)
  {
    && (cell.captured <==> cs != [])
    && (cell.owned <==> cs != [] && p in cs[|cs| - 1].paths)
    && (cell.owned ==> cell.stack != [] && First(cell.stack) == Get(cs[|cs| - 1].obj, p))
    && (cell.prior.Some? ==> cell.owned)
    && (cs == [] ==> cell.stack == original)
    && Released(cell) == Drop(original, Unremembered(original, cs, p))
  }

  lemma {:induction false} HoldsStep(cell: Cell, original: seq<Json>, id: Id, cs: seq<Contribution>, p: Path)
    requires cs != [] && Holds(cell, original, cs[..|cs| - 1], p)
    requires p in cs[|cs| - 1].paths ==> Get(cs[|cs| - 1].obj, p).Some?
    ensures Holds(CellStep(cell, Apply(id, cs[|cs| - 1]), id, p), original, cs, p)
  {
    var n := |cs| - 1;
    CellApply(cell, cs[n], id, p);
    ReleasedStep(cell, original, id, cs, p);
  }

  /** The apply takes the path over without remembering what it held. */
  predicate TakesUnremembered(cell: Cell, c: Contribution, p: Path)
  {
    p in c.paths && !cell.owned && (cell.captured || First(cell.stack) == Get(c.obj, p))
  }

  lemma {:induction false} ReleasedAfter(cell: Cell, original: seq<Json>, c: Contribution, id: Id, p: Path, lost: nat)
    requires p in c.paths ==> Get(c.obj, p).Some?
    requires cell.prior.Some? ==> cell.owned
    requires cell.owned ==> cell.captured && cell.stack != []
    requires Released(cell) == Drop(original, lost)
    ensures Released(CellStep(cell, Apply(id, c), id, p)) ==
      Drop(original, lost + if TakesUnremembered(cell, c, p) then 1 else 0)
  {
    CellApply(cell, c, id, p);
    DropMore(original, lost);
  }

  lemma {:induction false} ReleasedStep(cell: Cell, original: seq<Json>, id: Id, cs: seq<Contribution>, p: Path)
    requires cs != [] && Holds(cell, original, cs[..|cs| - 1], p)
    requires p in cs[|cs| - 1].paths ==> Get(cs[|cs| - 1].obj, p).Some?
    ensures Released(CellStep(cell, Apply(id, cs[|cs| - 1]), id, p)) == Drop(original, Unremembered(original, cs, p))
  {
    var n := |cs| - 1;
    var before, c, lost := cs[..n], cs[n], Unremembered(original, cs[..n], p);
    ReleasedAfter(cell, original, c, id, p, lost);
    TookOver(original, cs, p);
    if n == 0 {
      assert before == [] && TakesUnremembered(cell, c, p) == (p in c.paths && First(original) == Get(c.obj, p));
    } else {
      assert before[n - 1] == cs[n - 1] && TakesUnremembered(cell, c, p) == (p in c.paths && p !in cs[n - 1].paths);
    }
  }

  lemma {:induction false} AfterApplies(original: seq<Json>, id: Id, cs: seq<Contribution>, p: Path)
    requires forall c | c in cs :: p in c.paths ==> Get(c.obj, p).Some?
    ensures Holds(CellRun(Cell(original, false, None, false), Applies(id, cs), id, p), original, cs, p)
    decreases |cs|
  {
    if cs != [] {
      var n := |cs| - 1;
      assert cs[n] in cs;
      assert forall c | c in cs[..n] :: c in cs;
      AfterApplies(original, id, cs[..n], p);
      LastApply(Cell(original, false, None, false), id, cs, p);
      HoldsStep(CellRun(Cell(original, false, None, false), Applies(id, cs[..n]), id, p), original, id, cs, p);
    } else {
      DropMore(original, 0);
    }
  }

  lemma {:induction false} LastApply(start: Cell, id: Id, cs: seq<Contribution>, p: Path)
    requires cs != []
    ensures CellRun(start, Applies(id, cs), id, p) ==
      CellStep(CellRun(start, Applies(id, cs[..|cs| - 1]), id, p), Apply(id, cs[|cs| - 1]), id, p)
  {
    var n := |cs| - 1;
    var last := [Apply(id, cs[n])];
    assert Applies(id, cs) == Applies(id, cs[..n]) + last;
    CellRunSplit(start, Applies(id, cs[..n]), last, id, p);
    assert last[1..] == [];
  }

  // ---- Main results ----

  lemma {:induction false} WrittenClaimsHaveValues(doc: Json, obj: Json, paths: seq<Path>)
    requires SetAll(doc, obj, paths).Some?
    ensures forall p | p in paths :: Get(obj, p).Some?
    decreases |paths|
  {
    if paths != [] {
      WrittenClaimsHaveValues(Set(doc, paths[0], Get(obj, paths[0]).value).tree, obj, paths[1..]);
      assert paths == [paths[0]] + paths[1..];
    }
  }

  lemma {:induction false} TookHaveValues(w: World, ops: seq<Op>)
    ensures forall op, p | op in Took(w, ops) && op.Apply? && p in op.c.paths :: Get(op.c.obj, p).Some?
    decreases |ops|
  {
    if ops != [] {
      var op := ops[0];
      TookHaveValues(Step(w, op).0, ops[1..]);
      if op.Apply? && Step(w, op).1 {
        var r := RecordOf(w, op.id);
        var known := if r.captured then r.priors else Capture(w.doc, op.c.obj, op.c.paths, r.priors);
        var x := Withdraw(w.doc, Previous(r), (set t | t in Texts(op.c.paths)), known);
        WrittenClaimsHaveValues(x.doc, op.c.obj, op.c.paths);
      }
    }
  }

  lemma {:induction false} OwnIsPart(ops: seq<Op>, id: Id)
    ensures forall op | op in Own(ops, id) :: op in ops && op.id == id
  {
    if ops != [] { OwnIsPart(ops[1..], id); }
  }

  /** While a contributor is applied, every path it claims reads the value it claims there. */
  lemma {:induction false} LastApplyIsOnTop(cell: Cell, own: seq<Op>, id: Id, p: Path)
    requires own != [] && own[|own| - 1].Apply? && own[|own| - 1].id == id && p in own[|own| - 1].c.paths
    requires Get(own[|own| - 1].c.obj, p).Some?
    ensures First(CellRun(cell, own, id, p).stack) == Get(own[|own| - 1].c.obj, p)
  {
    var n := |own| - 1;
    var last := [own[n]];
    assert own == own[..n] + last;
    CellRunSplit(cell, own[..n], last, id, p);
    assert last[1..] == [];
  }

  lemma {:induction false} LastHasValue(w: World, ops: seq<Op>, id: Id, p: Path)
    requires var own := Own(Took(w, ops), id);
      own != [] && own[|own| - 1].Apply? && p in own[|own| - 1].c.paths
    ensures var own := Own(Took(w, ops), id);
      own[|own| - 1].id == id && Get(own[|own| - 1].c.obj, p).Some?
  {
    var own := Own(Took(w, ops), id);
    OwnIsPart(Took(w, ops), id);
    TookHaveValues(w, ops);
    assert own[|own| - 1] in own;
  }

  /** A path after a run is its cell after the contributor's own calls. */
  lemma {:induction false} RunAt(claims: map<Id, set<Path>>, w: World, ops: seq<Op>, id: Id, p: Path)
    requires Apart(claims) && Sound(claims, w) && forall op | op in ops :: Admissible(claims, op)
    requires id in claims && p in claims[id]
    ensures CellOf(Run(w, ops), id, p) == CellRun(CellOf(w, id, p), Own(Took(w, ops), id), id, p)
  {
    RunLaws(claims, w, ops);
    OnlyOwnMatters(CellOf(w, id, p), Took(w, ops), id, p);
  }

  lemma {:induction false} AppliedReadsItsOwn(claims: map<Id, set<Path>>, w: World, ops: seq<Op>, id: Id, p: Path)
    requires Apart(claims) && Sound(claims, w) && forall op | op in ops :: Admissible(claims, op)
    requires var own := Own(Took(w, ops), id);
      own != [] && own[|own| - 1].Apply? && p in own[|own| - 1].c.paths
    requires id in claims && p in claims[id]
    ensures var own := Own(Took(w, ops), id);
      Get(Run(w, ops).doc, p).Some? && Get(Run(w, ops).doc, p) == Get(own[|own| - 1].c.obj, p)
  {
    LastHasValue(w, ops, id, p);
    RunAt(claims, w, ops, id, p);
    LastApplyIsOnTop(CellOf(w, id, p), Own(Took(w, ops), id), id, p);
    GetIsFirst(Run(w, ops).doc, p);
  }

  /**
   * A contributor's whole life, whatever the others do meanwhile: after its release each path it could
   * claim holds what it held at the start, less one value for every time the path was taken over
   * unremembered. So a path is given back exactly when it was absent, or was never taken over so.
   */
  lemma {:induction false} ReleaseGivesBack(claims: map<Id, set<Path>>, w: World, ops: seq<Op>, id: Id, cs: seq<Contribution>, p: Path)
    requires Apart(claims) && Sound(claims, w) && forall op | op in ops :: Admissible(claims, op)
    requires id in claims && p in claims[id] && id !in w.records
    requires Own(Took(w, ops), id) == Applies(id, cs) + [Release(id)]
    ensures var original := Look(w.doc, p);
      && Look(Run(w, ops).doc, p) == Drop(original, Unremembered(original, cs, p))
      && (Look(Run(w, ops).doc, p) == original <==> original == [] || Unremembered(original, cs, p) == 0)
  {
    var start := CellOf(w, id, p);
    var last: seq<Op> := [Release(id)];
    RunLaws(claims, w, ops);
    OnlyOwnMatters(start, Took(w, ops), id, p);
    CellRunSplit(start, Applies(id, cs), last, id, p);
    assert last[1..] == [];
    OwnIsPart(Took(w, ops), id);
    TookHaveValues(w, ops);
    forall c | c in cs && p in c.paths ensures Get(c.obj, p).Some? {
      var i :| 0 <= i < |cs| && cs[i] == c;
      assert (Applies(id, cs) + last)[i] == Apply(id, c);
      assert Apply(id, c) in Own(Took(w, ops), id);
    }
    AfterApplies(Look(w.doc, p), id, cs, p);
  }

  /** Claims that only ever shrink, none of them equal to what was there: nothing is lost. */
  lemma {:induction false} ShrinkingClaimsAreRemembered(original: seq<Json>, cs: seq<Contribution>, p: Path)
    requires forall i | 0 < i < |cs| :: p in cs[i].paths ==> p in cs[i - 1].paths
    requires cs != [] && p in cs[0].paths ==> First(original) != Get(cs[0].obj, p)
    ensures Unremembered(original, cs, p) == 0
    decreases |cs|
  {
    if |cs| > 1 {
      ShrinkingClaimsAreRemembered(original, cs[..|cs| - 1], p);
    }
  }

  /**
   * Of the contributors that were released again, in any order, none having outgrown or repeated what it found:
   * the document agrees with the original at every path of theirs, and at every path outside all claims.
   */
  lemma {:induction false} AllReleasedIsUndone(claims: map<Id, set<Path>>, w: World, ops: seq<Op>, lives: map<Id, seq<Contribution>>)
    requires Apart(claims) && w.records == map[] && forall op | op in ops :: Admissible(claims, op)
    requires lives.Keys <= claims.Keys
    requires forall id | id in lives ::
      Own(Took(w, ops), id) == if lives[id] == [] then [] else Applies(id, lives[id]) + [Release(id)]
    requires forall id, i | id in lives && 0 < i < |lives[id]| ::
      forall p | p in lives[id][i].paths :: p in lives[id][i - 1].paths
    requires forall id, p | id in lives && lives[id] != [] && p in lives[id][0].paths ::
      Get(w.doc, p) != Get(lives[id][0].obj, p)
    ensures forall id, p | id in lives && p in claims[id] ::
      Look(Run(w, ops).doc, p) == Look(w.doc, p) && Get(Run(w, ops).doc, p) == Get(w.doc, p)
    ensures forall q | Outside(Union(claims), q) ::
      Look(Run(w, ops).doc, q) == Look(w.doc, q) && Get(Run(w, ops).doc, q) == Get(w.doc, q)
  {
    RunLaws(claims, w, ops);
    forall q
      ensures Get(w.doc, q) == First(Look(w.doc, q))
      ensures Get(Run(w, ops).doc, q) == First(Look(Run(w, ops).doc, q))
    {
      GetIsFirst(w.doc, q);
      GetIsFirst(Run(w, ops).doc, q);
    }
    forall id, p | id in lives && p in claims[id] ensures Look(Run(w, ops).doc, p) == Look(w.doc, p) {
      if lives[id] == [] {
        OnlyOwnMatters(CellOf(w, id, p), Took(w, ops), id, p);
      } else {
        ReleaseGivesBack(claims, w, ops, id, lives[id], p);
        ShrinkingClaimsAreRemembered(Look(w.doc, p), lives[id], p);
      }
    }
  }
}
