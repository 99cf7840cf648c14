/** Sums of a weight over the entries of a finite map: the meaning of SQL's
    COUNT and SUM, and of "bytes pending" in the gateway machine. */
module Sums {

  ghost function Sum<K, V>(m: map<K, V>, w: V -> int): int
    decreases |m|
  {
    if m == map[] then 0
    else
      var k :| k in m;
      w(m[k]) + Sum(m - {k}, w)
  }

  lemma SumEmpty<K, V>(w: V -> int)
    ensures Sum<K, V>(map[], w) == 0
  {
  }

  // The order in which entries are picked does not matter.
  lemma {:induction false} SumRemove<K, V>(m: map<K, V>, w: V -> int, k: K)
    requires k in m
    ensures Sum(m, w) == w(m[k]) + Sum(m - {k}, w)
    decreases |m|
  {
    var p :| p in m && Sum(m, w) == w(m[p]) + Sum(m - {p}, w);
    if p != k {
      SumRemove(m - {p}, w, k);
      SumRemove(m - {k}, w, p);
      assert m - {p} - {k} == m - {k} - {p};
    }
  }

  lemma SumInsert<K, V>(m: map<K, V>, w: V -> int, k: K, v: V)
    requires k !in m
    ensures Sum(m[k := v], w) == Sum(m, w) + w(v)
  {
    SumRemove(m[k := v], w, k);
    assert m[k := v] - {k} == m;
  }

  lemma SumUpdate<K, V>(m: map<K, V>, w: V -> int, k: K, v: V)
    requires k in m
    ensures Sum(m[k := v], w) == Sum(m, w) - w(m[k]) + w(v)
  {
    SumRemove(m, w, k);
    SumRemove(m[k := v], w, k);
    assert m[k := v] - {k} == m - {k};
  }

  // Entries are split into those whose keys lie in ks and the others.
  lemma {:induction false} SumSplit<K, V>(m: map<K, V>, w: V -> int, ks: set<K>)
    requires ks <= m.Keys
    ensures Sum(m, w) == Sum(m - (m.Keys - ks), w) + Sum(m - ks, w)
    decreases |ks|
  {
    if ks == {} {
      assert m - m.Keys == map[];
      assert m - ks == m;
    } else {
      var k :| k in ks;
      SumRemove(m, w, k);
      SumSplit(m - {k}, w, ks - {k});
      var part := m - (m.Keys - ks);
      SumRemove(part, w, k);
      assert part - {k} == (m - {k}) - ((m - {k}).Keys - (ks - {k}));
      assert m - ks == (m - {k}) - (ks - {k});
    }
  }

  lemma {:induction false} SumNonNegative<K, V>(m: map<K, V>, w: V -> int)
    requires forall k :: k in m ==> w(m[k]) >= 0
    ensures Sum(m, w) >= 0
    decreases |m|
  {
    if m != map[] {
      var k :| k in m;
      SumRemove(m, w, k);
      SumNonNegative(m - {k}, w);
    }
  }

  // Fewer entries with smaller weights give a smaller sum.
  lemma {:induction false} SumMonotone<K, V, W>(m: map<K, V>, n: map<K, W>, v: V -> int, w: W -> int)
    requires m.Keys <= n.Keys
    requires forall k :: k in m ==> v(m[k]) <= w(n[k])
    requires forall k :: k in n ==> w(n[k]) >= 0
    ensures Sum(m, v) <= Sum(n, w)
    decreases |m|
  {
    if m == map[] {
      SumNonNegative(n, w);
    } else {
      var k :| k in m;
      SumRemove(m, v, k);
      SumRemove(n, w, k);
      SumMonotone(m - {k}, n - {k}, v, w);
    }
  }

  lemma Distribute(factor: int, a: int, b: int)
    ensures factor * (a + b) == factor * a + factor * b
  {
  }

  lemma {:induction false} SumBounded<K, V>(m: map<K, V>, v: V -> int, w: V -> int, factor: int)
    requires forall k :: k in m ==> v(m[k]) <= factor * w(m[k])
    ensures Sum(m, v) <= factor * Sum(m, w)
    decreases |m|
  {
    if m == map[] {
      assert Sum(m, v) == Sum(m, w) == 0;
    } else {
      var k :| k in m;
      var rest := m - {k};
      SumRemove(m, v, k);
      SumRemove(m, w, k);
      assert forall j :: j in rest ==> j in m && rest[j] == m[j];
      SumBounded(rest, v, w, factor);
      Distribute(factor, w(m[k]), Sum(rest, w));
    }
  }
}
