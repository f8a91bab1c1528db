/** Overlaying a contribution on the base manifest that seeds a new target. */
module SeedMerge {
  import opened Json
  import opened FieldPath

  type Fields = map<string, Json>

  function Overlay(d: Option<Json>, s: Json): Json
    decreases s, 1
  {
    if s.Obj? && d.Some? && d.value.Obj? then Obj(DeepMerge(d.value.fields, s)) else s
  }

  function At(m: Fields, k: string): Option<Json>
  {
    if k in m then Some(m[k]) else None
  }

  /** src over dst: maps are merged, everything else is replaced. */
  function DeepMerge(dst: Fields, src: Json): Fields
    requires src.Obj?
    decreases src, 0
  {
    map k | k in dst.Keys + src.fields.Keys ::
      if k in src.fields then Overlay(At(dst, k), src.fields[k]) else dst[k]
  }

  /** The merge of the given keys only. */
  function MergedSoFar(dst: Fields, src: Json, done: set<string>): Fields
    requires src.Obj? && done <= src.fields.Keys
  {
    map k | k in dst.Keys + done :: if k in done then Overlay(At(dst, k), src.fields[k]) else dst[k]
  }

  lemma {:induction false} MergeOneMore(dst: Fields, src: Json, todo: set<string>, k: string)
    requires src.Obj? && todo <= src.fields.Keys && k in todo
    ensures var out := MergedSoFar(dst, src, src.fields.Keys - todo);
      var sv := src.fields[k];
      var merged := if sv.Obj? && k in out && out[k].Obj? then Obj(DeepMerge(out[k].fields, sv)) else sv;
      MergedSoFar(dst, src, src.fields.Keys - (todo - {k})) == out[k := merged]
  {
    var out := MergedSoFar(dst, src, src.fields.Keys - todo);
    assert src.fields.Keys - (todo - {k}) == src.fields.Keys - todo + {k};
    assert At(out, k) == At(dst, k);
  }

  lemma {:induction false} MergedAll(dst: Fields, src: Json)
    requires src.Obj?
    ensures MergedSoFar(dst, src, src.fields.Keys - src.fields.Keys) == dst
    ensures MergedSoFar(dst, src, src.fields.Keys - {}) == DeepMerge(dst, src)
  {
    assert src.fields.Keys - {} == src.fields.Keys;
  }

  method DeepMergeLoop(dst: Fields, src: Json) returns (out: Fields)
    requires src.Obj?
    ensures out == DeepMerge(dst, src)
    decreases src
  {
    out := dst;
    var todo := src.fields.Keys;
    MergedAll(dst, src);
    while todo != {}
      invariant todo <= src.fields.Keys
      invariant out == MergedSoFar(dst, src, src.fields.Keys - todo)
      decreases |todo|
    {
      var k :| k in todo;
      var sv := src.fields[k];
      MergeOneMore(dst, src, todo, k);
      if sv.Obj? && k in out && out[k].Obj? {
        var merged := DeepMergeLoop(out[k].fields, sv);
        out := out[k := Obj(merged)];
      } else {
        out := out[k := sv];
      }
      todo := todo - {k};
    }
  }

  /** None when nothing is left to create. */
  method MergeBaseAndContribution(base: Fields, contribution: Json) returns (r: Option<Fields>)
    requires contribution.Obj?
    ensures r == if DeepMerge(base, contribution) == map[] then None else Some(DeepMerge(base, contribution))
  {
    var out := DeepMergeLoop(base, contribution);
    r := if out == map[] then None else Some(out);
  }

  lemma {:induction false} OverlayTwice(d: Option<Json>, s: Json)
    ensures Overlay(Some(Overlay(d, s)), s) == Overlay(d, s)
    decreases s
  {
    if s.Obj? && d.Some? && d.value.Obj? {
      var once := DeepMerge(d.value.fields, s);
      forall k | k in s.fields ensures Overlay(At(once, k), s.fields[k]) == once[k] {
        OverlayTwice(At(d.value.fields, k), s.fields[k]);
      }
      assert DeepMerge(once, s) == once;
    } else {
      OverSame(s);
    }
  }

  lemma {:induction false} OverSame(s: Json)
    ensures Overlay(Some(s), s) == s
    decreases s
  {
    if s.Obj? {
      forall k | k in s.fields ensures Overlay(At(s.fields, k), s.fields[k]) == s.fields[k] {
        OverSame(s.fields[k]);
      }
      assert DeepMerge(s.fields, s) == s.fields;
    }
  }

  /** Merging the same contribution again changes nothing. */
  lemma {:induction false} DeepMergeIdempotent(dst: Fields, src: Json)
    requires src.Obj?
    ensures DeepMerge(DeepMerge(dst, src), src) == DeepMerge(dst, src)
  {
    OverlayTwice(Some(Obj(dst)), src);
  }

  predicate FieldsOnly(p: Path)
  {
    forall s | s in p :: s.IsField()
  }

  /** The contribution holds something other than a map on the way to p. */
  predicate Replaced(src: Json, p: Path)
  {
    if !src.Obj? then p != []
    else p != [] && p[0].Field? && p[0].name in src.fields && Replaced(src.fields[p[0].name], p[1..])
  }

  /**
   * What every field path reads after the merge, at any depth: the contribution's value unless both
   * hold maps, which merge; and the base's where the contribution neither sets nor replaces anything.
   */
  lemma {:induction false} MergeReads(dst: Json, src: Json, p: Path)
    requires dst.Obj? && src.Obj? && FieldsOnly(p)
    ensures var merged := Obj(DeepMerge(dst.fields, src));
      Get(merged, p) == (
        match Get(src, p)
        case Some(v) => Some(Overlay(Get(dst, p), v))
        case None => if Replaced(src, p) then None else Get(dst, p))
    decreases |p|
  {
    if p != [] {
      assert p[0] in p;
      var k := p[0].name;
      if k in src.fields && src.fields[k].Obj? && k in dst.fields && dst.fields[k].Obj? {
        MergeReads(dst.fields[k], src.fields[k], p[1..]);
      } else if k in src.fields {
        ReadBelow(src.fields[k], p[1..]);
        if k in dst.fields && !dst.fields[k].Obj? && p[1..] != [] { assert p[1] in p; }
      }
    }
  }

  /** A field path is absent below a value exactly as the value is replaced or lacks it. */
  lemma {:induction false} ReadBelow(v: Json, p: Path)
    requires FieldsOnly(p)
    ensures Get(v, p).None? && !Replaced(v, p) ==> v.Obj?
    ensures !v.Obj? && p != [] ==> Get(v, p).None? && Replaced(v, p)
  {
    if p != [] { assert p[0] in p; }
  }

  /** Whatever the contribution sets that is not a map, or lies inside a list, reads as it says. */
  lemma {:induction false} ContributionWins(dst: Json, src: Json, p: Path)
    requires dst.Obj? && src.Obj? && p != [] && Get(src, p).Some? && (forall s | s in p :: s.IsField() || s.IsListSegment())
    requires Get(src, p).value.Obj? ==> exists s :: s in p && s.IsListSegment()
    ensures Get(Obj(DeepMerge(dst.fields, src)), p) == Get(src, p)
    decreases |p|
  {
    assert p[0] in p;
    var k := p[0].name;
    var below := src.fields[k];
    if below.Obj? && k in dst.fields && dst.fields[k].Obj? {
      assert forall s | s in p[1..] :: s in p;
      assert p == [p[0]] + p[1..];
      ContributionWins(dst.fields[k], below, p[1..]);
    }
  }
}
