/**
 * The client-side applier: capture what a contributor is about to overwrite, withdraw what it no
 * longer claims, write what it claims, and on release restore or delete path by path.
 */
module ClientSideApply {
  import opened Json
  import opened FieldPath
  import opened PathText
  import Documents
  import SeedMerge

  /** A rendered claim: the partial object and the leaf paths it sets. */
  datatype Contribution = Contribution(obj: Json, paths: seq<Path>)

  /** The values found at claimed paths before the contributor first wrote them, by path text. */
  type Priors = map<string, Json>

  datatype Written = Written(doc: Json, priors: Priors)

  /** The captured priors after looking at the given paths in the live object. */
  function Capture(live: Json, obj: Json, paths: seq<Path>, priors: Priors): Priors
    decreases |paths|
  {
    if paths == [] then priors else
    var p := paths[0];
    var existing := Get(live, p);
    var next :=
      if Print(p) in priors || existing.None? || Get(obj, p) == existing then priors
      else priors[Print(p) := existing.value];
    Capture(live, obj, paths[1..], next)
  }

  /** A recorded prior goes back; without one, or if it cannot, the path is deleted. */
  function RestoreOrDelete(doc: Json, p: Path, priors: Priors): Json
  {
    if Print(p) in priors then
      var r := Set(doc, p, priors[Print(p)]);
      if r.ok then r.tree else Delete(r.tree, p).tree
    else Delete(doc, p).tree
  }

  function Withdraw(doc: Json, previous: seq<Path>, claimed: set<string>, priors: Priors): Written
    decreases |previous|
  {
    if previous == [] then Written(doc, priors) else
    var p := previous[0];
    if Print(p) in claimed then Withdraw(doc, previous[1..], claimed, priors)
    else Withdraw(RestoreOrDelete(doc, p, priors), previous[1..], claimed, priors - {Print(p)})
  }

  /** Every claimed path written in turn; None when a value is missing or a write fails. */
  function SetAll(doc: Json, obj: Json, paths: seq<Path>): Option<Json>
    decreases |paths|
  {
    if paths == [] then Some(doc) else
    match Get(obj, paths[0])
    case None => None
    case Some(v) =>
      var r := Set(doc, paths[0], v);
      if !r.ok then None else SetAll(r.tree, obj, paths[1..])
  }

  function Texts(paths: seq<Path>): seq<string>
  {
    seq(|paths|, i requires 0 <= i < |paths| => Print(paths[i]))
  }

  /** What one apply to an existing target writes and remembers; None when it writes nothing and fails. */
  function Update(live: Json, c: Contribution, previous: seq<Path>, priors: Priors, captured: bool): Option<Written>
  {
    var known := if captured then priors else Capture(live, c.obj, c.paths, priors);
    var w := Withdraw(live, previous, (set t | t in Texts(c.paths)), known);
    match SetAll(w.doc, c.obj, c.paths)
    case None => None
    case Some(doc) => Some(Written(doc, w.priors))
  }

  /** What a missing target is created with; None when that would be nothing at all. */
  function Seeded(c: Contribution, base: Option<map<string, Json>>): Option<map<string, Json>>
    requires c.obj.Obj?
  {
    if base.None? then Some(c.obj.fields) else
    var merged := SeedMerge.DeepMerge(base.value, c.obj);
    if merged == map[] then None else Some(merged)
  }

  function RevertAll(doc: Json, owned: seq<Path>, priors: Priors): Json
    decreases |owned|
  {
    if owned == [] then doc else RevertAll(RestoreOrDelete(doc, owned[0], priors), owned[1..], priors)
  }

  datatype ApplyError = NotFound | Failed

  datatype ApplyResult =
    | Applied(created: bool, changed: bool, ownedPaths: seq<Path>, priors: Priors, captured: bool)
    | NotApplied(error: ApplyError)

  /** The applier and the one object it maintains in the API server, if that object exists. */
  class Applier {
    var stored: Option<map<string, Json>>

    constructor (target: Option<map<string, Json>>)
      ensures stored == target
    {
      stored := target;
    }

    method RestoreOrDeleteIn(desired: Documents.Document, p: Path, priors: Priors)
      modifies desired
      ensures desired.Tree() == RestoreOrDelete(old(desired.Tree()), p, priors)
      ensures stored == old(stored)
    {
      var text := PrintLoop(p);
      if text in priors {
        var ok := desired.Set(p, priors[text]);
        if ok { return; }
      }
      var _ := desired.Delete(p);
    }

    method CapturePriors(live: Documents.Document, c: Contribution, known: Priors) returns (priors: Priors)
      ensures priors == Capture(live.Tree(), c.obj, c.paths, known)
    {
      priors := known;
      for i := 0 to |c.paths|
        invariant Capture(live.Tree(), c.obj, c.paths[i..], priors) == Capture(live.Tree(), c.obj, c.paths, known)
      {
        var p := c.paths[i];
        assert c.paths[i..][1..] == c.paths[i + 1..];
        var text := PrintLoop(p);
        if text in priors { continue; }
        var existing := live.Get(p);
        if existing.None? { continue; }
        if FieldPath.Get(c.obj, p) == existing { continue; }
        priors := priors[text := existing.value];
      }
    }

    /** The update path: merge into a copy of the live object and write it back. */
    method UpdateTarget(c: Contribution, previous: seq<Path>, known: Priors, captured: bool) returns (r: ApplyResult)
      requires stored.Some?
      modifies this
      ensures
        match Update(Obj(old(stored).value), c, previous, known, captured)
        case None => r == NotApplied(Failed) && stored == old(stored)
        case Some(w) =>
          && stored.Some? && Obj(stored.value) == w.doc
          && r == Applied(false, stored != old(stored), c.paths, w.priors, true)
    {
      var live := new Documents.Document(stored.value);
      var desired := new Documents.Document(stored.value);
      ghost var before := desired.Tree();
      var priors := known;
      if !captured {
        priors := CapturePriors(live, c, known);
      }
      var claimed := set t | t in Texts(c.paths);
      ghost var expected := Withdraw(before, previous, claimed, priors);
      for i := 0 to |previous|
        modifies desired
        invariant stored == old(stored)
        invariant Withdraw(desired.Tree(), previous[i..], claimed, priors) == expected
      {
        var p := previous[i];
        assert previous[i..][1..] == previous[i + 1..];
        var text := PrintLoop(p);
        if text in claimed { continue; }
        RestoreOrDeleteIn(desired, p, priors);
        priors := priors - {text};
      }
      ghost var withdrawn := desired.Tree();
      for i := 0 to |c.paths|
        modifies desired
        invariant stored == old(stored)
        invariant SetAll(desired.Tree(), c.obj, c.paths[i..]) == SetAll(withdrawn, c.obj, c.paths)
      {
        var p := c.paths[i];
        assert c.paths[i..][0] == p && c.paths[i..][1..] == c.paths[i + 1..];
        var value := FieldPath.Get(c.obj, p);
        if value.None? { return NotApplied(Failed); }
        var ok := desired.Set(p, value.value);
        if !ok { return NotApplied(Failed); }
      }
      var changed := stored.value != desired.root;
      if changed {
        stored := Some(desired.root);
      }
      r := Applied(false, changed, c.paths, priors, true);
    }

    /** Builds the target from the base and this contribution; nothing pre-existed, and that is on record. */
    method Create(c: Contribution, base: Option<map<string, Json>>) returns (r: ApplyResult)
      requires c.obj.Obj? && stored.None?
      modifies this
      ensures
        match Seeded(c, base)
        case None => r == NotApplied(Failed) && stored.None?
        case Some(content) => stored == Some(content) && r == Applied(true, true, c.paths, map[], true)
    {
      var content := c.obj.fields;
      if base.Some? {
        var merged := SeedMerge.MergeBaseAndContribution(base.value, c.obj);
        if merged.None? { return NotApplied(Failed); }
        content := merged.value;
      }
      stored := Some(content);
      r := Applied(true, true, c.paths, map[], true);
    }

    /** One apply: create where that is allowed, update where the target exists. */
    method Apply(c: Contribution, base: Option<map<string, Json>>, allowCreate: bool,
                 previous: seq<Path>, known: Priors, captured: bool) returns (r: ApplyResult)
      requires c.obj.Obj?
      modifies this
      ensures old(stored).None? && !allowCreate ==> r == NotApplied(NotFound)
      ensures r.NotApplied? ==> stored == old(stored)
      ensures r.NotApplied? && r.error.NotFound? ==> old(stored).None? && !allowCreate
      ensures r.NotApplied? && r.error.Failed? ==>
        if old(stored).None? then Seeded(c, base).None?
        else Update(Obj(old(stored).value), c, previous, known, captured).None?
      ensures r.Applied? ==> r.captured && r.ownedPaths == c.paths && stored.Some?
      ensures r.Applied? ==> (r.created <==> old(stored).None?)
      ensures r.Applied? && r.created ==> r.changed && r.priors == map[] && Seeded(c, base) == stored
      ensures r.Applied? && !r.created ==>
        Update(Obj(old(stored).value), c, previous, known, captured) == Some(Written(Obj(stored.value), r.priors))
      ensures r.Applied? ==> (r.changed <==> stored != old(stored))
    {
      if stored.None? {
        if !allowCreate { return NotApplied(NotFound); }
        r := Create(c, base);
      } else {
        r := UpdateTarget(c, previous, known, captured);
      }
    }

    /** Withdraws the owned paths; nothing to do when the target is gone. */
    method Revert(owned: seq<Path>, priors: Priors)
      modifies this
      ensures old(stored).None? ==> stored.None?
      ensures old(stored).Some? ==>
        stored.Some? && Obj(stored.value) == RevertAll(Obj(old(stored).value), owned, priors)
    {
      if stored.None? { return; }
      var desired := new Documents.Document(stored.value);
      ghost var before := desired.Tree();
      for i := 0 to |owned|
        modifies desired
        invariant stored == old(stored)
        invariant RevertAll(desired.Tree(), owned[i..], priors) == RevertAll(before, owned, priors)
      {
        assert owned[i..][1..] == owned[i + 1..];
        RestoreOrDeleteIn(desired, owned[i], priors);
      }
      if stored.value != desired.root {
        stored := Some(desired.root);
      }
    }
  }
}
