/** A target the operator created, and what is left of it when its creator is released. */
module CreateLaws {
  import opened Json
  import opened Text
  import opened FieldPath
  import opened FieldLaws
  import opened ClientSideApply
  import opened ApplyLaws
  import opened SeedMerge

  /**
   * Releasing the creator of a target takes the value in front at every path it claimed, base value or
   * not, because the creation recorded no priors; so a claim that one value answers reads nothing
   * afterwards. Every path apart from its claims reads the merge of base and contribution as before.
   */
  lemma {:induction false} CreatedThenReleased(u: set<Path>, c: Contribution, base: map<string, Json>, q: Path)
    requires Territory(u) && Distinct(c.paths) && (forall p | p in c.paths :: p in u)
    requires c.obj.Obj? && (q in u || Outside(u, q))
    ensures var seeded := Obj(DeepMerge(base, c.obj));
      var left := RevertAll(seeded, c.paths, map[]);
      && Look(left, q) == (if q in c.paths then Tail(Look(seeded, q)) else Look(seeded, q))
      && (q in c.paths && |Look(seeded, q)| <= 1 ==> Get(left, q).None?)
      && (q !in c.paths ==> Get(left, q) == Get(seeded, q))
  {
    var seeded := Obj(DeepMerge(base, c.obj));
    RevertLaws(u, seeded, c.paths, map[], q);
    GetIsFirst(seeded, q);
    GetIsFirst(RevertAll(seeded, c.paths, map[]), q);
  }

  /** A field path is answered once at most, so the creator's fields are emptied and the others read the merge. */
  lemma {:induction false} CreatedFieldsReleased(u: set<Path>, c: Contribution, base: map<string, Json>, q: Path)
    requires Territory(u) && Distinct(c.paths) && (forall p | p in c.paths :: p in u)
    requires c.obj.Obj? && q != [] && FieldsOnly(q) && (q in u || Outside(u, q))
    ensures Get(RevertAll(Obj(DeepMerge(base, c.obj)), c.paths, map[]), q) == (
      if q in c.paths then None
      else
        match Get(c.obj, q)
        case Some(v) => Some(Overlay(Get(Obj(base), q), v))
        case None => if Replaced(c.obj, q) then None else Get(Obj(base), q))
  {
    CreatedThenReleased(u, c, base, q);
    LookAtEnd(Obj(DeepMerge(base, c.obj)), q);
    assert q[|q| - 1] in q;
    MergeReads(Obj(base), c.obj, q);
  }
}
