/** The sum of a weight over the entries of a finite map; the measures of the protocols are built from it. */
module MapSum {

  ghost function Sum<K(!new), V(!new)>(keys: set<K>, m: map<K, V>, weight: V -> nat): nat
    requires keys <= m.Keys
    decreases keys
  {
    if keys == {} then 0 else
    var k :| k in keys;
    weight(m[k]) + Sum(keys - {k}, m, weight)
  }

  lemma {:induction false} SumTakes<K(!new), V(!new)>(keys: set<K>, m: map<K, V>, weight: V -> nat, k: K)
    requires keys <= m.Keys && k in keys
    ensures Sum(keys, m, weight) == weight(m[k]) + Sum(keys - {k}, m, weight)
    decreases keys
  {
    var j :| j in keys && Sum(keys, m, weight) == weight(m[j]) + Sum(keys - {j}, m, weight);
    if j != k {
      SumTakes(keys - {j}, m, weight, k);
      SumTakes(keys - {k}, m, weight, j);
      assert keys - {j} - {k} == keys - {k} - {j};
    }
  }

  lemma {:induction false} SumSame<K(!new), V(!new)>(keys: set<K>, m: map<K, V>, m': map<K, V>, weight: V -> nat)
    requires keys <= m.Keys && keys <= m'.Keys
    requires forall k :: k in keys ==> m[k] == m'[k]
    ensures Sum(keys, m, weight) == Sum(keys, m', weight)
    decreases keys
  {
    if keys != {} {
      var k :| k in keys;
      SumTakes(keys, m, weight, k);
      SumTakes(keys, m', weight, k);
      SumSame(keys - {k}, m, m', weight);
    }
  }

  /** Changing one entry changes the sum by the difference of its weights. */
  lemma SumUpdate<K(!new), V(!new)>(m: map<K, V>, weight: V -> nat, k: K, v: V)
    requires k in m
    ensures Sum(m.Keys, m[k := v], weight) == Sum(m.Keys, m, weight) - weight(m[k]) + weight(v)
  {
    SumTakes(m.Keys, m, weight, k);
    SumTakes(m.Keys, m[k := v], weight, k);
    SumSame(m.Keys - {k}, m, m[k := v], weight);
  }

  lemma SubsetSize<T>(a: set<T>, b: set<T>)
    requires a <= b
    ensures |a| <= |b|
  {
    assert b == a + (b - a);
  }

  /** A measure that goes down at every step bounds the number of steps. */
  lemma {:induction false} Descent(measure: seq<nat>, k: nat)
    requires k < |measure| && forall i :: 0 <= i < |measure| - 1 ==> measure[i + 1] < measure[i]
    ensures k + measure[k] <= measure[0]
  {
    if k != 0 {
      Descent(measure, k - 1);
      assert measure[k - 1 + 1] < measure[k - 1];
    }
  }
}
