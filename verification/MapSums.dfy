/** Sums over the values of a map, in no particular order. */
module MapSums {

  ghost function Sum<K>(m: map<K, int>): int {
    if m == map[] then 0 else
    var k :| k in m;
    m[k] + Sum(m - {k})
  }

  /** Any key may be taken out first. */
  lemma {:induction false} TakeOut<K>(m: map<K, int>, k: K)
    requires k in m
    ensures Sum(m) == m[k] + Sum(m - {k})
    decreases |m|
  {
    var j :| j in m && Sum(m) == m[j] + Sum(m - {j});
    if j != k {
      TakeOut(m - {j}, k);
      TakeOut(m - {k}, j);
      assert m - {j} - {k} == m - {k} - {j};
    }
  }

  lemma PutIn<K>(m: map<K, int>, k: K, v: int)
    ensures Sum(m[k := v]) == v + Sum(m) - (if k in m then m[k] else 0)
  {
    TakeOut(m[k := v], k);
    assert m[k := v] - {k} == m - {k};
    if k in m {
      TakeOut(m, k);
    } else {
      assert m - {k} == m;
    }
  }

  lemma {:induction false} SumOfZeros<K>(m: map<K, int>)
    requires forall k :: k in m ==> m[k] == 0
    ensures Sum(m) == 0
    decreases |m|
  {
    if m != map[] {
      var k :| k in m && Sum(m) == m[k] + Sum(m - {k});
      SumOfZeros(m - {k});
    }
  }

  lemma {:induction false} SumIsNatural<K>(m: map<K, int>)
    requires forall k :: k in m ==> m[k] >= 0
    ensures Sum(m) >= 0 && forall k :: k in m ==> m[k] <= Sum(m)
    decreases |m|
  {
    forall k | k in m
      ensures m[k] <= Sum(m)
    {
      TakeOut(m, k);
      SumIsNatural(m - {k});
    }
    if m != map[] {
      var k :| k in m;
      assert m[k] >= 0;
    }
  }

  function Part<K, V>(m: map<K, V>, keys: set<K>): map<K, V> {
    map k | k in keys && k in m :: m[k]
  }

  /** A walk over a map that has seen some keys, has the rest ahead and has added up what it saw. */
  ghost predicate Walking<K>(m: map<K, int>, seen: set<K>, rest: set<K>, total: int) {
    seen !! rest && seen + rest == m.Keys && total == Sum(Part(m, seen))
  }

  lemma WalkStarts<K>(m: map<K, int>)
    ensures Walking(m, {}, m.Keys, 0)
  {
    assert Part(m, {}) == map[];
  }

  lemma WalkGoesOn<K>(m: map<K, int>, seen: set<K>, rest: set<K>, total: int, k: K)
    requires Walking(m, seen, rest, total) && k in rest
    ensures k in m && Walking(m, seen + {k}, rest - {k}, total + m[k])
  {
    PutIn(Part(m, seen), k, m[k]);
    assert Part(m, seen + {k}) == Part(m, seen)[k := m[k]];
  }

  lemma WalkEnds<K>(m: map<K, int>, seen: set<K>, total: int)
    requires Walking(m, seen, {}, total)
    ensures total == Sum(m)
  {
    assert seen == m.Keys && Part(m, seen) == m;
  }
}
