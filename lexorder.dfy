/** Python's ordering of str values (code point by code point) and sorted(set(xs)). */
module LexOrder {

  /** a < b for Python strings: the first differing character decides, and a proper
      prefix comes first. */
  predicate LexLess(a: string, b: string)
  {
    if |a| == 0 then |b| > 0
    else if |b| == 0 then false
    else if a[0] != b[0] then a[0] < b[0]
    else LexLess(a[1..], b[1..])
  }

  lemma {:induction false} LexIrreflexive(a: string)
    ensures !LexLess(a, a)
  {
    if |a| > 0 { LexIrreflexive(a[1..]); }
  }

  lemma {:induction false} LexTransitive(a: string, b: string, c: string)
    requires LexLess(a, b) && LexLess(b, c)
    ensures LexLess(a, c)
  {
    if |a| > 0 && |b| > 0 && |c| > 0 && a[0] == b[0] && b[0] == c[0] {
      LexTransitive(a[1..], b[1..], c[1..]);
    }
  }

  /** Any two different strings are ordered one way or the other. */
  lemma {:induction false} LexTotal(a: string, b: string)
    requires a != b
    ensures LexLess(a, b) || LexLess(b, a)
  {
    if |a| > 0 && |b| > 0 && a[0] == b[0] {
      assert a == [a[0]] + a[1..] && b == [b[0]] + b[1..];
      LexTotal(a[1..], b[1..]);
    }
  }

  lemma {:induction false} LexAsymmetric(a: string, b: string)
    requires LexLess(a, b)
    ensures !LexLess(b, a)
  {
    if |a| > 0 && |b| > 0 && a[0] == b[0] {
      LexAsymmetric(a[1..], b[1..]);
    }
  }

  /** Strictly increasing: sorted and free of duplicates. */
  predicate StrictlySorted(s: seq<string>)
  {
    forall i, j | 0 <= i < j < |s| :: LexLess(s[i], s[j])
  }

  /** Adds x to a strictly sorted list, in its place, unless it is already there. */
  function InsertUnique(x: string, s: seq<string>): (r: seq<string>)
    requires StrictlySorted(s)
    ensures StrictlySorted(r)
    ensures forall y :: y in r <==> y == x || y in s
  {
    if s == [] then [x]
    else if x == s[0] then s
    else if LexLess(x, s[0]) then
      var r := [x] + s;
      assert StrictlySorted(r) by {
        forall i, j | 0 <= i < j < |r| ensures LexLess(r[i], r[j]) {
          if i == 0 && j > 1 { LexTransitive(x, s[0], s[j - 1]); }
        }
      }
      r
    else
      LexTotal(x, s[0]);
      var rest := InsertUnique(x, s[1..]);
      var r := [s[0]] + rest;
      assert StrictlySorted(r) by {
        forall i, j | 0 <= i < j < |r| ensures LexLess(r[i], r[j]) {
          if i == 0 {
            assert r[j] in rest;
            if r[j] != x {
              var k :| 1 <= k < |s| && s[k] == r[j];
            }
          }
        }
      }
      r
  }

  /** sorted(set(xs)): the distinct strings of xs in increasing order. */
  function SortedSet(xs: seq<string>): (r: seq<string>)
    ensures StrictlySorted(r)
    ensures forall y :: y in r <==> y in xs
  {
    if xs == [] then []
    else InsertUnique(xs[|xs| - 1], SortedSet(xs[..|xs| - 1]))
  }

  /** A strictly sorted list holds each string once. */
  lemma StrictlySortedDistinct(s: seq<string>, i: int, j: int)
    requires StrictlySorted(s) && 0 <= i < j < |s|
    ensures s[i] != s[j]
  {
    LexIrreflexive(s[i]);
  }

  /** Only one strictly sorted list has a given set of elements, so sorted(set(xs))
      depends on the set of xs alone (the order and the repetitions in xs do not matter). */
  lemma {:induction false} StrictlySortedUnique(s: seq<string>, t: seq<string>)
    requires StrictlySorted(s) && StrictlySorted(t)
    requires forall y :: y in s <==> y in t
    ensures s == t
  {
    assert s != [] ==> s[0] in t;
    assert t != [] ==> t[0] in s;
    if s != [] && t != [] {
      if s[0] != t[0] {
        assert t[0] in s;
        assert s[0] in t;
        var i :| 0 <= i < |s| && s[i] == t[0];
        var j :| 0 <= j < |t| && t[j] == s[0];
        LexIrreflexive(s[0]);
        LexIrreflexive(t[0]);
        assert LexLess(s[0], t[0]);
        assert LexLess(t[0], s[0]);
        LexAsymmetric(s[0], t[0]);
        assert false;
      }
      var s', t' := s[1..], t[1..];
      forall y ensures y in s' <==> y in t' {
        if y in s' {
          var i :| 1 <= i < |s| && s[i] == y;
          StrictlySortedDistinct(s, 0, i);
          assert y in t;
          var j :| 0 <= j < |t| && t[j] == y;
          assert j != 0;
          assert y == t'[j - 1];
        }
        if y in t' {
          var j :| 1 <= j < |t| && t[j] == y;
          StrictlySortedDistinct(t, 0, j);
          assert y in s;
          var i :| 0 <= i < |s| && s[i] == y;
          assert i != 0;
          assert y == s'[i - 1];
        }
      }
      StrictlySortedUnique(s', t');
      assert s == [s[0]] + s' && t == [t[0]] + t';
    }
  }

  lemma SortedSetOfSameStrings(xs: seq<string>, ys: seq<string>)
    requires forall y :: y in xs <==> y in ys
    ensures SortedSet(xs) == SortedSet(ys)
  {
    StrictlySortedUnique(SortedSet(xs), SortedSet(ys));
  }
}
