/** Sums over the entries of a map. */
module MapSums {
  ghost function Sum<K, V>(m: map<K, V>, f: (K, V) -> int): int {
    if m == map[] then 0
    else
      var k :| k in m;
      f(k, m[k]) + Sum(m - {k}, f)
  }

  /** Any entry can be taken out first. */
  lemma {:induction false} SumSplit<K, V>(m: map<K, V>, k: K, f: (K, V) -> int)
    requires k in m
    ensures Sum(m, f) == f(k, m[k]) + Sum(m - {k}, f)
    decreases |m|
  {
    var p :| p in m && Sum(m, f) == f(p, m[p]) + Sum(m - {p}, f);
    if p != k {
      SumSplit(m - {p}, k, f);
      SumSplit(m - {k}, p, f);
      assert m - {p} - {k} == m - {k} - {p};
    }
  }

  lemma SumRemove<K, V>(m: map<K, V>, k: K, f: (K, V) -> int)
    ensures Sum(m - {k}, f) == Sum(m, f) - if k in m then f(k, m[k]) else 0
  {
    if k in m {
      SumSplit(m, k, f);
    } else {
      assert m - {k} == m;
    }
  }

  lemma SumUpdate<K, V>(m: map<K, V>, k: K, v: V, f: (K, V) -> int)
    ensures Sum(m[k := v], f) == Sum(m, f) + f(k, v) - if k in m then f(k, m[k]) else 0
  {
    SumSplit(m[k := v], k, f);
    assert m[k := v] - {k} == m - {k};
    SumRemove(m, k, f);
  }

  /** A sum of non-negative terms is at least each of them. */
  lemma {:induction false} SumAtLeast<K, V>(m: map<K, V>, k: K, f: (K, V) -> int)
    requires forall j <- m :: f(j, m[j]) >= 0
    ensures Sum(m, f) >= 0 && (k in m ==> Sum(m, f) >= f(k, m[k]))
    decreases |m|
  {
    if m != map[] {
      var p :| p in m && Sum(m, f) == f(p, m[p]) + Sum(m - {p}, f);
      SumAtLeast(m - {p}, k, f);
    }
  }

  /** A positive sum has a positive term. */
  lemma {:induction false} SumPositive<K, V>(m: map<K, V>, f: (K, V) -> int) returns (k: K)
    requires Sum(m, f) > 0
    ensures k in m && f(k, m[k]) > 0
    decreases |m|
  {
    var p :| p in m && Sum(m, f) == f(p, m[p]) + Sum(m - {p}, f);
    if f(p, m[p]) > 0 {
      k := p;
    } else {
      k := SumPositive(m - {p}, f);
    }
  }

  lemma {:induction false} SumOnly<K, V>(m: map<K, V>, k: K, f: (K, V) -> int)
    requires k in m && forall j <- m :: j != k ==> f(j, m[j]) == 0
    ensures Sum(m, f) == f(k, m[k])
  {
    SumSplit(m, k, f);
    SumZero(m - {k}, f);
  }

  lemma {:induction false} SumZero<K, V>(m: map<K, V>, f: (K, V) -> int)
    requires forall j <- m :: f(j, m[j]) == 0
    ensures Sum(m, f) == 0
    decreases |m|
  {
    if m != map[] {
      var p :| p in m && Sum(m, f) == f(p, m[p]) + Sum(m - {p}, f);
      SumZero(m - {p}, f);
    }
  }
}
