/** Which paths the rendered contributions disagree on, and who gives way. */
module Conflicts {
  import opened Json
  import opened FieldPath
  import opened PathText
  import opened ClientSideApply

  /** A claimant's position and the value it claims; hashing values is taken to be injective. */
  datatype Claim = Claim(idx: nat, value: Json)

  type Claims = map<string, seq<Claim>>

  function ValueAt(c: Contribution, p: Path): Json
  {
    match Get(c.obj, p) case Some(v) => v case None => Null
  }

  /** A claim under the text of its path. */
  datatype Named = Named(text: string, claim: Claim)

  function NamedClaims(i: nat, c: Contribution): seq<Named>
  {
    seq(|c.paths|, k requires 0 <= k < |c.paths| => Named(Print(c.paths[k]), Claim(i, ValueAt(c, c.paths[k]))))
  }

  /** All claims of the first n contributions, in order. */
  function AllClaims(rendered: seq<Contribution>, n: nat): seq<Named>
    requires n <= |rendered|
  {
    if n == 0 then [] else AllClaims(rendered, n - 1) + NamedClaims(n - 1, rendered[n - 1])
  }

  /** The claims under one text. */
  function Under(ns: seq<Named>, text: string): seq<Claim>
    decreases |ns|
  {
    if ns == [] then []
    else
      var last := ns[|ns| - 1];
      Under(ns[..|ns| - 1], text) + (if last.text == text then [last.claim] else [])
  }

  /** Contributor i claims the path of that text, with that value. */
  ghost predicate Holds(rendered: seq<Contribution>, i: nat, text: string, value: Json)
  {
    i < |rendered| && exists p :: p in rendered[i].paths && Print(p) == text && ValueAt(rendered[i], p) == value
  }

  ghost predicate Claimant(rendered: seq<Contribution>, i: nat, text: string)
  {
    exists value :: Holds(rendered, i, text, value)
  }

  /** Two claims on the path hold different values. */
  ghost predicate Contested(rendered: seq<Contribution>, text: string)
  {
    exists i, j, v, w :: Holds(rendered, i, text, v) && Holds(rendered, j, text, w) && v != w
  }

  function At(claims: Claims, text: string): seq<Claim>
  {
    if text in claims then claims[text] else []
  }

  ghost predicate Gathered(claims: Claims, ns: seq<Named>)
  {
    && (forall text :: At(claims, text) == Under(ns, text))
    && (forall text | text in claims :: claims[text] != [])
  }

  method AddClaim(before: Claims, text: string, c: Claim, ghost ns: seq<Named>) returns (claims: Claims)
    requires Gathered(before, ns)
    ensures Gathered(claims, ns + [Named(text, c)])
  {
    claims := before[text := At(before, text) + [c]];
    assert (ns + [Named(text, c)])[..|ns|] == ns;
  }

  lemma {:induction false} NextNamed(done: seq<Named>, mine: seq<Named>, n: nat)
    requires n < |mine|
    ensures done + mine[..n] + [mine[n]] == done + mine[..n + 1]
  {}

  method GatherOne(i: nat, c: Contribution, before: Claims, ghost done: seq<Named>) returns (claims: Claims)
    requires Gathered(before, done)
    ensures Gathered(claims, done + NamedClaims(i, c))
  {
    claims := before;
    ghost var mine := NamedClaims(i, c);
    assert done + mine[..0] == done;
    for n := 0 to |c.paths|
      invariant Gathered(claims, done + mine[..n])
    {
      var key := PrintLoop(c.paths[n]);
      claims := AddClaim(claims, key, Claim(i, ValueAt(c, c.paths[n])), done + mine[..n]);
      NextNamed(done, mine, n);
    }
    assert mine[..|c.paths|] == mine;
  }

  method Gather(rendered: seq<Contribution>) returns (claims: Claims)
    ensures Gathered(claims, AllClaims(rendered, |rendered|))
  {
    claims := map[];
    for i := 0 to |rendered|
      invariant Gathered(claims, AllClaims(rendered, i))
    {
      claims := GatherOne(i, rendered[i], claims, AllClaims(rendered, i));
    }
  }

  predicate Disagree(cs: seq<Claim>)
  {
    exists a, b | 0 <= a < |cs| && 0 <= b < |cs| :: cs[a].value != cs[b].value
  }

  function Indexes(cs: seq<Claim>): seq<nat>
  {
    seq(|cs|, k requires 0 <= k < |cs| => cs[k].idx)
  }

  /** At least two values among the claims, found by collecting the distinct ones. */
  method Contradicts(cs: seq<Claim>) returns (r: bool, idxs: seq<nat>)
    ensures r == Disagree(cs)
    ensures r ==> idxs == Indexes(cs)
  {
    idxs := [];
    if |cs| < 2 { return false, idxs; }
    var distinct: set<Json> := {};
    for k := 0 to |cs|
      invariant distinct == set j | 0 <= j < k :: cs[j].value
    {
      distinct := distinct + {cs[k].value};
    }
    if |distinct| < 2 {
      forall a, b | 0 <= a < |cs| && 0 <= b < |cs| ensures cs[a].value == cs[b].value {
        assert {cs[a].value, cs[b].value} <= distinct;
        if cs[a].value != cs[b].value { SubsetSize({cs[a].value, cs[b].value}, distinct); }
      }
      return false, idxs;
    }
    if !Disagree(cs) {
      assert distinct <= {cs[0].value};
      SubsetSize(distinct, {cs[0].value});
      assert false;
    }
    for k := 0 to |cs|
      invariant idxs == Indexes(cs[..k])
    {
      idxs := idxs + [cs[k].idx];
    }
    assert cs[..|cs|] == cs;
    r := true;
  }

  lemma {:induction false} SubsetSize<T>(a: set<T>, b: set<T>)
    requires a <= b
    ensures |a| <= |b|
  {
    if a != {} {
      var x :| x in a;
      SubsetSize(a - {x}, b - {x});
    }
  }

  function ClaimsFor(rendered: seq<Contribution>, text: string): seq<Claim>
  {
    Under(AllClaims(rendered, |rendered|), text)
  }

  /** The contested path texts, each with all its claimants in order. */
  function ContestedPaths(rendered: seq<Contribution>): (r: map<string, seq<nat>>)
    ensures forall text :: text in r <==> Disagree(ClaimsFor(rendered, text))
  {
    var all := AllClaims(rendered, |rendered|);
    var texts := set n | n in all :: n.text;
    assert forall text | Disagree(Under(all, text)) :: text in texts by {
      forall text | Disagree(Under(all, text)) ensures text in texts {
        var x := Under(all, text)[0];
        assert x in Under(all, text);
        UnderMember(all, text, x);
        assert Named(text, x) in all;
      }
    }
    map text | text in texts && Disagree(ClaimsFor(rendered, text)) :: Indexes(ClaimsFor(rendered, text))
  }

  /** The contested paths among those already looked at. */
  ghost predicate Marked(out: map<string, seq<nat>>, claims: Claims, todo: set<string>)
  {
    && (forall text :: text in out <==> text in claims && text !in todo && Disagree(claims[text]))
    && (forall text | text in out :: out[text] == Indexes(claims[text]))
  }

  lemma {:induction false} AllMarked(out: map<string, seq<nat>>, claims: Claims, rendered: seq<Contribution>)
    requires Marked(out, claims, {}) && Gathered(claims, AllClaims(rendered, |rendered|))
    ensures out == ContestedPaths(rendered)
  {
    forall text ensures text in out <==> text in ContestedPaths(rendered) {
      assert At(claims, text) == ClaimsFor(rendered, text);
    }
    forall text | text in out ensures out[text] == ContestedPaths(rendered)[text] {
      assert At(claims, text) == ClaimsFor(rendered, text);
    }
  }

  method DetectPathConflicts(rendered: seq<Contribution>) returns (out: map<string, seq<nat>>)
    ensures out == ContestedPaths(rendered)
  {
    var claims := Gather(rendered);
    out := map[];
    var todo := claims.Keys;
    while todo != {}
      invariant todo <= claims.Keys
      invariant Marked(out, claims, todo)
      decreases |todo|
    {
      var path :| path in todo;
      todo := todo - {path};
      var contested, idxs := Contradicts(claims[path]);
      if contested {
        out := out[path := idxs];
      }
    }
    AllMarked(out, claims, rendered);
  }

  // ---- What the map says ----

  lemma {:induction false} UnderMember(ns: seq<Named>, text: string, x: Claim)
    ensures x in Under(ns, text) <==> Named(text, x) in ns
    decreases |ns|
  {
    if ns != [] {
      var init, last := ns[..|ns| - 1], ns[|ns| - 1];
      UnderMember(init, text, x);
      assert ns == init + [last];
    }
  }

  lemma {:induction false} AllClaimsMember(rendered: seq<Contribution>, n: nat, x: Named)
    requires n <= |rendered|
    ensures x in AllClaims(rendered, n) <==> x.claim.idx < n && x in NamedClaims(x.claim.idx, rendered[x.claim.idx])
  {
    if n > 0 { AllClaimsMember(rendered, n - 1, x); }
  }

  lemma {:induction false} ClaimIsHeld(rendered: seq<Contribution>, text: string, x: Claim)
    ensures x in ClaimsFor(rendered, text) <==> Holds(rendered, x.idx, text, x.value)
  {
    UnderMember(AllClaims(rendered, |rendered|), text, x);
    AllClaimsMember(rendered, |rendered|, Named(text, x));
    if x.idx < |rendered| {
      var c := rendered[x.idx];
      if Holds(rendered, x.idx, text, x.value) {
        var p :| p in c.paths && Print(p) == text && ValueAt(c, p) == x.value;
        var k :| 0 <= k < |c.paths| && c.paths[k] == p;
        assert NamedClaims(x.idx, c)[k] == Named(text, x);
      }
      if Named(text, x) in NamedClaims(x.idx, c) {
        var k :| 0 <= k < |c.paths| && NamedClaims(x.idx, c)[k] == Named(text, x);
        assert c.paths[k] in c.paths;
      }
    }
  }

  lemma {:induction false} HeldIsClaimed(rendered: seq<Contribution>, text: string, i: nat, v: Json) returns (k: nat)
    requires Holds(rendered, i, text, v)
    ensures k < |ClaimsFor(rendered, text)| && ClaimsFor(rendered, text)[k] == Claim(i, v)
  {
    ClaimIsHeld(rendered, text, Claim(i, v));
    k :| 0 <= k < |ClaimsFor(rendered, text)| && ClaimsFor(rendered, text)[k] == Claim(i, v);
  }

  lemma {:induction false} ClaimedIsHeld(rendered: seq<Contribution>, text: string, k: nat)
    requires k < |ClaimsFor(rendered, text)|
    ensures var x := ClaimsFor(rendered, text)[k]; Holds(rendered, x.idx, text, x.value)
  {
    ClaimIsHeld(rendered, text, ClaimsFor(rendered, text)[k]);
  }

  lemma {:induction false} ContestedIsDisagreed(rendered: seq<Contribution>, text: string)
    ensures Disagree(ClaimsFor(rendered, text)) <==> Contested(rendered, text)
  {
    var cs := ClaimsFor(rendered, text);
    if Contested(rendered, text) {
      var i: nat, j: nat, v, w :| Holds(rendered, i, text, v) && Holds(rendered, j, text, w) && v != w;
      var a := HeldIsClaimed(rendered, text, i, v);
      var b := HeldIsClaimed(rendered, text, j, w);
      assert cs[a].value != cs[b].value;
    }
    if Disagree(cs) {
      var a, b :| 0 <= a < |cs| && 0 <= b < |cs| && cs[a].value != cs[b].value;
      ClaimedIsHeld(rendered, text, a);
      ClaimedIsHeld(rendered, text, b);
    }
  }

  lemma {:induction false} ClaimantIsIndexed(rendered: seq<Contribution>, text: string, i: nat)
    ensures i in Indexes(ClaimsFor(rendered, text)) <==> Claimant(rendered, i, text)
  {
    var cs := ClaimsFor(rendered, text);
    if i in Indexes(cs) {
      var k :| 0 <= k < |cs| && Indexes(cs)[k] == i;
      ClaimedIsHeld(rendered, text, k);
    }
    if Claimant(rendered, i, text) {
      var v :| Holds(rendered, i, text, v);
      var k := HeldIsClaimed(rendered, text, i, v);
      assert Indexes(cs)[k] == i;
    }
  }

  /** A path is reported exactly when two claims on it differ, and then with all its claimants. */
  lemma {:induction false} ConflictsAreExact(rendered: seq<Contribution>, text: string)
    ensures text in ContestedPaths(rendered) <==> Contested(rendered, text)
    ensures text in ContestedPaths(rendered) ==>
      forall i: nat :: i in ContestedPaths(rendered)[text] <==> Claimant(rendered, i, text)
  {
    ContestedIsDisagreed(rendered, text);
    forall i: nat ensures i in Indexes(ClaimsFor(rendered, text)) <==> Claimant(rendered, i, text) {
      ClaimantIsIndexed(rendered, text, i);
    }
  }

  /** Contributions i and j set the path p, of that text, to different values. */
  ghost predicate Contest(rendered: seq<Contribution>, i: nat, j: nat, p: Path, text: string)
  {
    i < j < |rendered| && p in rendered[i].paths && p in rendered[j].paths && Print(p) == text &&
    ValueAt(rendered[i], p) != ValueAt(rendered[j], p)
  }

  /** On printable paths a contest is between two contributions that set one path to different values. */
  lemma {:induction false} ContestIsBetweenTwo(rendered: seq<Contribution>, text: string)
    requires forall i, p | 0 <= i < |rendered| && p in rendered[i].paths :: Printable(p)
    ensures Contested(rendered, text) <==> exists i: nat, j: nat, p :: Contest(rendered, i, j, p, text)
  {
    if Contested(rendered, text) {
      var i: nat, j: nat, v, w :| Holds(rendered, i, text, v) && Holds(rendered, j, text, w) && v != w;
      var p :| p in rendered[i].paths && Print(p) == text && ValueAt(rendered[i], p) == v;
      var q :| q in rendered[j].paths && Print(q) == text && ValueAt(rendered[j], q) == w;
      PrintIsInjective(p, q);
      assert Contest(rendered, i, j, p, text) || Contest(rendered, j, i, p, text);
    }
    if i: nat, j: nat, p :| Contest(rendered, i, j, p, text) {
      assert Holds(rendered, i, text, ValueAt(rendered[i], p));
      assert Holds(rendered, j, text, ValueAt(rendered[j], p));
    }
  }
}
