/** Strings as the program compares and sorts them: byte order, and the ordered keys of a map. */
module Text {

  /** s sorts no later than t. */
  predicate Leq(s: string, t: string)
  {
    s == [] || (t != [] && (s[0] < t[0] || (s[0] == t[0] && Leq(s[1..], t[1..]))))
  }

  lemma {:induction false} LeqReflexive(s: string)
    ensures Leq(s, s)
  {
    if s != [] { LeqReflexive(s[1..]); }
  }

  lemma {:induction false} LeqTotal(s: string, t: string)
    ensures Leq(s, t) || Leq(t, s)
  {
    if s != [] && t != [] { LeqTotal(s[1..], t[1..]); }
  }

  lemma {:induction false} LeqAntisymmetric(s: string, t: string)
    requires Leq(s, t) && Leq(t, s)
    ensures s == t
  {
    if s != [] && t != [] {
      LeqAntisymmetric(s[1..], t[1..]);
      assert s == [s[0]] + s[1..] && t == [t[0]] + t[1..];
    }
  }

  lemma {:induction false} LeqTransitive(s: string, t: string, u: string)
    requires Leq(s, t) && Leq(t, u)
    ensures Leq(s, u)
  {
    if s != [] && t != [] && u != [] && Leq(s[1..], t[1..]) && Leq(t[1..], u[1..]) {
      LeqTransitive(s[1..], t[1..], u[1..]);
    }
  }

  /** Which order it is: a prefix comes first, and otherwise the first character that differs decides. */
  lemma {:induction false} LeqExactly(s: string, t: string)
    ensures Leq(s, t) <==> s <= t || exists k :: 0 <= k < |s| && k < |t| && s[..k] == t[..k] && s[k] < t[k]
  {
    if s != [] && t != [] && s[0] == t[0] {
      LeqExactly(s[1..], t[1..]);
      assert s == [s[0]] + s[1..] && t == [t[0]] + t[1..];
      if k :| 0 <= k < |s[1..]| && k < |t[1..]| && s[1..][..k] == t[1..][..k] && s[1..][k] < t[1..][k] {
        FirstTheSame(s, t, k);
        assert s[k + 1] < t[k + 1];
      }
      if k :| 0 <= k < |s| && k < |t| && s[..k] == t[..k] && s[k] < t[k] {
        assert s[..k] == [s[0]] + s[1..][..k - 1] && t[..k] == [t[0]] + t[1..][..k - 1];
        assert s[1..][..k - 1] == s[..k][1..] && t[1..][..k - 1] == t[..k][1..];
        assert s[1..][k - 1] < t[1..][k - 1];
      }
    } else if s != [] && t != [] {
      assert s[..0] == t[..0];
    }
  }

  lemma {:induction false} FirstTheSame(s: string, t: string, k: nat)
    requires s != [] && t != [] && s[0] == t[0] && k < |s| && k < |t| && s[1..][..k] == t[1..][..k]
    ensures s[..k + 1] == t[..k + 1]
  {
    assert s[..k + 1] == [s[0]] + s[1..][..k] && t[..k + 1] == [t[0]] + t[1..][..k];
  }

  predicate IsLeast(k: string, s: set<string>)
  {
    k in s && forall j | j in s :: Leq(k, j)
  }

  lemma {:induction false} LeastExists(s: set<string>)
    requires s != {}
    ensures exists k :: IsLeast(k, s)
  {
    var x :| x in s;
    var rest := s - {x};
    if rest == {} {
      LeqReflexive(x);
      assert s == {x};
      assert IsLeast(x, s);
    } else {
      LeastExists(rest);
      var k :| IsLeast(k, rest);
      LeqTotal(k, x);
      LeqReflexive(x);
      if Leq(k, x) {
        assert IsLeast(k, s);
      } else {
        forall j | j in s ensures Leq(x, j) {
          if j != x { LeqTransitive(x, k, j); }
        }
        assert IsLeast(x, s);
      }
    }
  }

  function Least(s: set<string>): (k: string)
    requires s != {}
    ensures IsLeast(k, s)
  {
    LeastExists(s);
    assert forall j, k | IsLeast(j, s) && IsLeast(k, s) :: j == k by {
      forall j, k | IsLeast(j, s) && IsLeast(k, s) ensures j == k {
        LeqAntisymmetric(j, k);
      }
    }
    var k :| IsLeast(k, s);
    k
  }

  predicate Distinct<T(==)>(s: seq<T>)
  {
    forall i, j | 0 <= i < j < |s| :: s[i] != s[j]
  }

  /** The members of a set in ascending order, each once. */
  function SortedKeys(s: set<string>): (ks: seq<string>)
    ensures forall k :: k in ks <==> k in s
    ensures Distinct(ks)
    ensures |ks| == |s|
    ensures forall i, j | 0 <= i < j < |ks| :: Leq(ks[i], ks[j])
  {
    if s == {} then [] else
    var k := Least(s);
    [k] + SortedKeys(s - {k})
  }
}
