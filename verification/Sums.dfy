/** Finite sums of integers, taken over the keys of a map or over a sequence. */
module Sums {

  ghost function Sum<K(!new)>(m: map<K, int>): int
  {
    if m == map[] then 0 else
      var k :| k in m; m[k] + Sum(m - {k})
  }

  /** Any key may be summed first. */
  lemma {:induction false} SumPick<K(!new)>(m: map<K, int>, k: K)
    requires k in m
    ensures Sum(m) == m[k] + Sum(m - {k})
    decreases |m|
  {
    var j :| j in m && Sum(m) == m[j] + Sum(m - {j});
    if j != k {
      SumPick(m - {j}, k);
      SumPick(m - {k}, j);
      assert (m - {j}) - {k} == (m - {k}) - {j};
    }
  }

  lemma SumInsert<K(!new)>(m: map<K, int>, k: K, v: int)
    requires k !in m
    ensures Sum(m[k := v]) == Sum(m) + v
  {
    SumPick(m[k := v], k);
    assert m[k := v] - {k} == m;
  }

  lemma SumUpdate<K(!new)>(m: map<K, int>, k: K, v: int)
    requires k in m
    ensures Sum(m[k := v]) == Sum(m) - m[k] + v
  {
    SumPick(m[k := v], k);
    SumPick(m, k);
    assert m[k := v] - {k} == m - {k};
  }

  lemma SumChangesAt<K(!new)>(m: map<K, int>, n: map<K, int>, k: K)
    requires m.Keys == n.Keys && k in m
    requires forall j :: j in m && j != k ==> n[j] == m[j]
    ensures Sum(n) == Sum(m) - m[k] + n[k]
  {
    SumUpdate(m, k, n[k]);
    assert m[k := n[k]] == n;
  }

  lemma {:induction false} SumNonNegative<K(!new)>(m: map<K, int>)
    requires forall k :: k in m ==> 0 <= m[k]
    ensures 0 <= Sum(m)
    ensures forall k :: k in m ==> m[k] <= Sum(m)
    decreases |m|
  {
    forall k | k in m ensures m[k] <= Sum(m) {
      SumPick(m, k);
      SumNonNegative(m - {k});
    }
    if m != map[] {
      var k :| k in m;
      assert m[k] <= Sum(m);
    }
  }

  /** Removing non-negative summands never makes a sum larger. */
  lemma {:induction false} SumSubmap<K(!new)>(small: map<K, int>, big: map<K, int>)
    requires forall k :: k in small ==> k in big && big[k] == small[k]
    requires forall k :: k in big ==> 0 <= big[k]
    ensures Sum(small) <= Sum(big)
    decreases |small|
  {
    if small == map[] {
      SumNonNegative(big);
    } else {
      var k :| k in small;
      SumPick(small, k);
      SumPick(big, k);
      SumSubmap(small - {k}, big - {k});
    }
  }

  lemma SubsetIsSmaller<T>(a: set<T>, b: set<T>)
    requires a <= b
    ensures |a| <= |b|
  {
    assert b == a + (b - a);
  }
}
