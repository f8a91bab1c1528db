/** Stable sorting in place by a given strict order. */
module Sorting {

  /** x put behind every element that does not come after it. */
  function Insert<T>(s: seq<T>, x: T, less: (T, T) -> bool): seq<T>
    decreases |s|
  {
    if s == [] || !less(x, s[|s| - 1]) then s + [x]
    else Insert(s[..|s| - 1], x, less) + [s[|s| - 1]]
  }

  function Sorted<T>(s: seq<T>, less: (T, T) -> bool): seq<T>
    decreases |s|
  {
    if s == [] then [] else Insert(Sorted(s[..|s| - 1], less), s[|s| - 1], less)
  }

  ghost predicate InOrder<T>(s: seq<T>, less: (T, T) -> bool)
  {
    forall i, j | 0 <= i < j < |s| :: !less(s[j], s[i])
  }

  /** A strict order in which being incomparable is an equivalence. */
  ghost predicate StrictOrder<T(!new)>(less: (T, T) -> bool)
  {
    && (forall a :: !less(a, a))
    && (forall a, b :: less(a, b) ==> !less(b, a))
    && (forall a, b, c :: !less(a, b) && !less(b, c) ==> !less(a, c))
  }

  lemma {:induction false} InsertAt<T>(s: seq<T>, x: T, j: nat, less: (T, T) -> bool)
    requires j <= |s|
    requires forall k | j <= k < |s| :: less(x, s[k])
    requires j == 0 || !less(x, s[j - 1])
    ensures Insert(s, x, less) == s[..j] + [x] + s[j..]
    decreases |s|
  {
    if j == |s| {
      assert s[..j] == s && s[j..] == [];
    } else {
      var init := s[..|s| - 1];
      InsertAt(init, x, j, less);
      assert init[..j] == s[..j] && init[j..] + [s[|s| - 1]] == s[j..];
    }
  }

  /** Moves element i down to its place in the sorted part before it, exchanging neighbours. */
  method SiftDown<T>(a: array<T>, i: nat, less: (T, T) -> bool)
    requires i < a.Length
    modifies a
    ensures a[..i + 1] == Insert(old(a[..i]), old(a[i]), less)
    ensures a[i + 1..] == old(a[i + 1..])
  {
    ghost var sorted, x := a[..i], a[i];
    var j := i;
    while j > 0 && less(a[j], a[j - 1])
      invariant 0 <= j <= i
      invariant a[j] == x
      invariant forall k | 0 <= k < j :: a[k] == sorted[k]
      invariant forall k | j < k <= i :: a[k] == sorted[k - 1]
      invariant forall k | i < k < a.Length :: a[k] == old(a[k])
      invariant forall k | j <= k < i :: less(x, sorted[k])
    {
      a[j], a[j - 1] := a[j - 1], a[j];
      j := j - 1;
    }
    InsertAt(sorted, x, j, less);
    assert a[..i + 1] == sorted[..j] + [x] + sorted[j..];
  }

  method SortStable<T>(a: array<T>, less: (T, T) -> bool)
    modifies a
    ensures a[..] == Sorted(old(a[..]), less)
  {
    ghost var was := a[..];
    for i := 0 to a.Length
      invariant a[..i] == Sorted(was[..i], less)
      invariant a[i..] == was[i..]
    {
      assert a[i] == a[i..][0] && a[i + 1..] == a[i..][1..] && was[i + 1..] == was[i..][1..];
      assert was[..i + 1][..i] == was[..i];
      SiftDown(a, i, less);
    }
    assert was[..a.Length] == was && a[..a.Length] == a[..];
  }

  lemma {:induction false} InOrderExtended<T>(s: seq<T>, x: T, less: (T, T) -> bool)
    requires InOrder(s, less) && forall r | r in s :: !less(x, r)
    ensures InOrder(s + [x], less)
  {}

  lemma {:induction false} LastIsGreatest<T(!new)>(s: seq<T>, x: T, less: (T, T) -> bool)
    requires StrictOrder(less) && InOrder(s, less) && s != []
    ensures !less(x, s[|s| - 1]) ==> forall r | r in s :: !less(x, r)
    ensures forall r | r in s :: !less(s[|s| - 1], r)
  {}

  lemma {:induction false} InsertKeeps<T(!new)>(s: seq<T>, x: T, less: (T, T) -> bool)
    requires StrictOrder(less) && InOrder(s, less)
    ensures InOrder(Insert(s, x, less), less)
    ensures multiset(Insert(s, x, less)) == multiset(s) + multiset{x}
    decreases |s|
  {
    if s == [] || !less(x, s[|s| - 1]) {
      if s != [] { LastIsGreatest(s, x, less); }
      InOrderExtended(s, x, less);
    } else {
      var init, last := s[..|s| - 1], s[|s| - 1];
      InsertKeeps(init, x, less);
      LastIsGreatest(s, x, less);
      assert s == init + [last];
      var t := Insert(init, x, less);
      forall r | r in t ensures !less(last, r) {
        assert r in multiset(t);
        assert r in init ==> r in s;
      }
      InOrderExtended(t, last, less);
    }
  }

  lemma {:induction false} SortedKeeps<T(!new)>(s: seq<T>, less: (T, T) -> bool)
    requires StrictOrder(less)
    ensures InOrder(Sorted(s, less), less)
    ensures multiset(Sorted(s, less)) == multiset(s)
    decreases |s|
  {
    if s != [] {
      var init, last := s[..|s| - 1], s[|s| - 1];
      SortedKeeps(init, less);
      InsertKeeps(Sorted(init, less), last, less);
      assert s == init + [last];
    }
  }

  // ---- Stability ----

  /** The elements that are so, in order. */
  function Those<T>(s: seq<T>, so: T -> bool): seq<T>
    decreases |s|
  {
    if s == [] then [] else Those(s[..|s| - 1], so) + if so(s[|s| - 1]) then [s[|s| - 1]] else []
  }

  lemma {:induction false} InsertIsStable<T(!new)>(s: seq<T>, x: T, less: (T, T) -> bool, so: T -> bool)
    requires forall r | r in s && so(r) && so(x) :: !less(x, r)
    ensures Those(Insert(s, x, less), so) == Those(s, so) + if so(x) then [x] else []
    decreases |s|
  {
    if s == [] || !less(x, s[|s| - 1]) {
      assert (s + [x])[..|s|] == s;
    } else {
      var init, last := s[..|s| - 1], s[|s| - 1];
      InsertIsStable(init, x, less, so);
      var t := Insert(init, x, less);
      assert (t + [last])[..|t|] == t && last in s;
    }
  }

  /** Elements none of which is less than another stay in the order they came in. */
  lemma {:induction false} SortedIsStable<T(!new)>(s: seq<T>, less: (T, T) -> bool, so: T -> bool)
    requires StrictOrder(less) && forall a, b | a in s && b in s && so(a) && so(b) :: !less(a, b)
    ensures Those(Sorted(s, less), so) == Those(s, so)
    decreases |s|
  {
    if s != [] {
      var init, last := s[..|s| - 1], s[|s| - 1];
      SortedIsStable(init, less, so);
      SortedKeeps(init, less);
      forall r | r in Sorted(init, less) && so(r) && so(last) ensures !less(last, r) {
        assert r in multiset(Sorted(init, less));
        assert r in multiset(init);
        assert last in s;
      }
      InsertIsStable(Sorted(init, less), last, less, so);
    }
  }

  lemma {:induction false} SameFirst<T(!new)>(s: seq<T>, t: seq<T>, less: (T, T) -> bool)
    requires StrictOrder(less) && InOrder(s, less) && InOrder(t, less) && multiset(s) == multiset(t) && s != []
    requires forall a, b | a in s && b in s && a != b :: less(a, b) || less(b, a)
    ensures t != [] && s[0] == t[0]
  {
    assert s[0] in multiset(t);
    assert s[0] in t;
    assert t[0] in multiset(s);
    assert t[0] in s;
  }

  lemma {:induction false} TailsMatch<T>(s: seq<T>, t: seq<T>)
    requires s != [] && t != [] && s[0] == t[0] && multiset(s) == multiset(t)
    ensures multiset(s[1..]) == multiset(t[1..])
  {
    assert s == [s[0]] + s[1..] && t == [t[0]] + t[1..];
    assert multiset(s[1..]) == multiset(s) - multiset{s[0]};
    assert multiset(t[1..]) == multiset(t) - multiset{t[0]};
  }

  /** Where any two different elements compare, one multiset has one order. */
  lemma {:induction false} OrderIsUnique<T(!new)>(s: seq<T>, t: seq<T>, less: (T, T) -> bool)
    requires StrictOrder(less) && InOrder(s, less) && InOrder(t, less) && multiset(s) == multiset(t)
    requires forall a, b | a in s && b in s && a != b :: less(a, b) || less(b, a)
    ensures s == t
    decreases |s|
  {
    assert |multiset(s)| == |s| && |multiset(t)| == |t|;
    if s != [] {
      SameFirst(s, t, less);
      TailsMatch(s, t);
      OrderIsUnique(s[1..], t[1..], less);
      assert s == [s[0]] + s[1..] && t == [t[0]] + t[1..];
    }
  }
}
