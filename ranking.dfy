/** Python's stable sorted(..., key=...) followed by [:k], over the positions of the
    category table: ties keep table order because the sort is stable. */
module Ranking {

  import opened Seqs

  /** p comes before q: a smaller key, or an equal key and an earlier table position. */
  predicate RankedBefore(keys: seq<real>, p: nat, q: nat)
    requires p < |keys| && q < |keys|
  {
    keys[p] < keys[q] || (keys[p] == keys[q] && p < q)
  }

  predicate InRange(s: seq<nat>, n: nat)
  {
    forall i | 0 <= i < |s| :: s[i] < n
  }

  /** Every earlier entry is ranked before every later one. */
  predicate Ranked(s: seq<nat>, keys: seq<real>)
    requires InRange(s, |keys|)
  {
    forall i, j | 0 <= i < j < |s| :: RankedBefore(keys, s[i], s[j])
  }

  /** One step of a stable insertion sort: p goes before the first entry whose key is not smaller. */
  function Insert(p: nat, s: seq<nat>, keys: seq<real>): (r: seq<nat>)
    requires p < |keys| && InRange(s, |keys|)
    ensures multiset(r) == multiset(s) + multiset{p}
    ensures InRange(r, |keys|)
  {
    if s == [] then [p]
    else if keys[p] <= keys[s[0]] then [p] + s
    else
      assert s == [s[0]] + s[1..];
      [s[0]] + Insert(p, s[1..], keys)
  }

  /** sorted(ps, key=keys): a stable sort of ps by their keys. */
  function SortByKey(ps: seq<nat>, keys: seq<real>): (r: seq<nat>)
    requires InRange(ps, |keys|)
    ensures multiset(r) == multiset(ps)
    ensures InRange(r, |keys|)
  {
    if ps == [] then []
    else
      assert ps == [ps[0]] + ps[1..];
      Insert(ps[0], SortByKey(ps[1..], keys), keys)
  }

  lemma {:induction false} InsertRanked(p: nat, s: seq<nat>, keys: seq<real>)
    requires p < |keys| && InRange(s, |keys|)
    requires Ranked(s, keys)
    requires forall q | q in s :: p < q
    ensures Ranked(Insert(p, s, keys), keys)
  {
    if s == [] {
    } else if keys[p] <= keys[s[0]] {
      var r := [p] + s;
      forall i, j | 0 <= i < j < |r| ensures RankedBefore(keys, r[i], r[j]) {
        if i == 0 {
          assert r[j] == s[j - 1] && s[j - 1] in s;
          if j > 1 { assert RankedBefore(keys, s[0], s[j - 1]); }
        } else {
          assert r[i] == s[i - 1] && r[j] == s[j - 1];
        }
      }
    } else {
      var t := s[1..];
      assert Ranked(t, keys) by {
        forall i, j | 0 <= i < j < |t| ensures RankedBefore(keys, t[i], t[j]) {
          assert t[i] == s[i + 1] && t[j] == s[j + 1];
        }
      }
      assert forall q | q in t :: q in s;
      InsertRanked(p, t, keys);
      var ins := Insert(p, t, keys);
      var r := [s[0]] + ins;
      forall i, j | 0 <= i < j < |r| ensures RankedBefore(keys, r[i], r[j]) {
        if i == 0 {
          var x := r[j];
          assert x == ins[j - 1];
          assert x in multiset(ins);
          assert x == p || x in multiset(t);
          if x != p {
            var k :| 0 <= k < |t| && t[k] == x;
            assert s[k + 1] == x;
          }
        } else {
          assert r[i] == ins[i - 1] && r[j] == ins[j - 1];
        }
      }
    }
  }

  predicate Increasing(ps: seq<nat>)
  {
    forall i, j | 0 <= i < j < |ps| :: ps[i] < ps[j]
  }

  lemma {:induction false} SortByKeyRanked(ps: seq<nat>, keys: seq<real>)
    requires InRange(ps, |keys|)
    requires Increasing(ps)
    ensures Ranked(SortByKey(ps, keys), keys)
  {
    if ps != [] {
      var rest := ps[1..];
      SortByKeyRanked(rest, keys);
      var sorted := SortByKey(rest, keys);
      forall q | q in sorted ensures ps[0] < q {
        assert q in multiset(rest);
        var k :| 0 <= k < |rest| && rest[k] == q;
        assert ps[k + 1] == q;
      }
      InsertRanked(ps[0], sorted, keys);
    }
  }

  /** The table positions 0 .. n-1 in table order. */
  function Positions(n: nat): (ps: seq<nat>)
    ensures |ps| == n && InRange(ps, n) && Increasing(ps)
    ensures forall i | 0 <= i < n :: ps[i] == i
  {
    seq(n, i requires 0 <= i < n => i)
  }

  /** The first k positions of the stable sort of all positions by key. The entries are
      ranked (smaller key first, equal keys in table order), and every position left out
      is ranked after every position kept: these facts determine the result. */
  function Top(keys: seq<real>, k: nat): (top: seq<nat>)
    ensures |top| == Min(k, |keys|)
    ensures InRange(top, |keys|)
    ensures Ranked(top, keys)
    ensures Distinct(top)
    ensures forall p, q | p in top && 0 <= q < |keys| && q !in top :: RankedBefore(keys, p, q)
  {
    var all := Positions(|keys|);
    var order := SortByKey(all, keys);
    SortByKeyRanked(all, keys);
    var n := Min(k, |keys|);
    assert |order| == |keys| by { assert |multiset(order)| == |multiset(all)|; }
    var top := order[..n];
    forall p, q | p in top && 0 <= q < |keys| && q !in top
      ensures RankedBefore(keys, p, q)
    {
      assert all[q] == q;
      assert q in multiset(order);
      var j :| 0 <= j < |order| && order[j] == q;
      var i :| 0 <= i < n && top[i] == p;
      assert j >= n;
    }
    top
  }

  lemma SubsetSameSize<T>(a: set<T>, b: set<T>)
    requires a <= b && |a| == |b|
    ensures a == b
  {
    var d := b - a;
    assert b == a + d;
    assert |b| == |a| + |d|;
  }

  /** With exactly |T| = k positions whose keys are all smaller than every other key,
      the top k positions are exactly T. */
  lemma TopIsSeparatedSet(keys: seq<real>, k: nat, T: set<nat>)
    requires k <= |keys| && |T| == k
    requires forall p | p in T :: p < |keys|
    requires forall p, q | p in T && 0 <= q < |keys| && q !in T :: keys[p] < keys[q]
    ensures (set p | p in Top(keys, k)) == T
  {
    var top := Top(keys, k);
    var S := set p | p in top;
    DistinctCard(top);
    forall q | q in S ensures q in T {
      if q !in T {
        // |S| == |T| and q is in S but not in T, so some p of T is not in S,
        // and q, ranked before p, would need a key no larger than p's.
        if T <= S { SubsetSameSize(T, S); }
        assert false;
      }
    }
    SubsetSameSize(S, T);
  }
}
