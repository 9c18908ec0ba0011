/**
 * Sums over the entries of a map, in no particular order: the meaning of Python's
 * `sum(f(v) for v in d.values())`.
 */
module Tally {

  /** Sum of `f(m[k])` over the keys `k` in `keys`. */
  ghost function SumKeys<K, V>(m: map<K, V>, keys: set<K>, f: V -> nat): nat
    requires keys <= m.Keys
    decreases keys
  {
    if keys == {} then 0
    else
      var k :| k in keys;
      f(m[k]) + SumKeys(m, keys - {k}, f)
  }

  /** Sum of `f(v)` over every value `v` of `m`. */
  ghost function SumMap<K, V>(m: map<K, V>, f: V -> nat): nat {
    SumKeys(m, m.Keys, f)
  }

  /** Any key may be taken out first: the sum does not depend on the order of the keys. */
  lemma {:induction false} SumKeysRemove<K, V>(m: map<K, V>, keys: set<K>, k: K, f: V -> nat)
    requires keys <= m.Keys && k in keys
    ensures SumKeys(m, keys, f) == f(m[k]) + SumKeys(m, keys - {k}, f)
    decreases keys
  {
    var j :| j in keys && SumKeys(m, keys, f) == f(m[j]) + SumKeys(m, keys - {j}, f);
    if j != k {
      SumKeysRemove(m, keys - {j}, k, f);
      SumKeysRemove(m, keys - {k}, j, f);
      assert keys - {j} - {k} == keys - {k} - {j};
    }
  }

  /** Two maps that agree on `keys` have the same sum over `keys`. */
  lemma {:induction false} SumKeysAgree<K, V>(m1: map<K, V>, m2: map<K, V>, keys: set<K>, f: V -> nat)
    requires keys <= m1.Keys && keys <= m2.Keys
    requires forall k :: k in keys ==> m1[k] == m2[k]
    ensures SumKeys(m1, keys, f) == SumKeys(m2, keys, f)
    decreases keys
  {
    if keys != {} {
      var k :| k in keys && SumKeys(m1, keys, f) == f(m1[k]) + SumKeys(m1, keys - {k}, f);
      SumKeysRemove(m2, keys, k, f);
      SumKeysAgree(m1, m2, keys - {k}, f);
    }
  }

  /** Storing `v` under `k` replaces that key's share of the sum by `f(v)`. */
  lemma SumMapUpdate<K, V>(m: map<K, V>, k: K, v: V, f: V -> nat)
    ensures SumMap(m[k := v], f) == SumMap(m, f) - (if k in m then f(m[k]) else 0) + f(v)
  {
    var m' := m[k := v];
    var rest := m.Keys - {k};
    SumKeysRemove(m', m'.Keys, k, f);
    assert m'.Keys - {k} == rest;
    SumKeysAgree(m', m, rest, f);
    if k in m {
      SumKeysRemove(m, m.Keys, k, f);
    } else {
      assert m.Keys == rest;
    }
  }

  /** Every share of a sum is at most the whole. */
  lemma SumMapAtLeastEntry<K, V>(m: map<K, V>, k: K, f: V -> nat)
    requires k in m
    ensures f(m[k]) <= SumMap(m, f)
  {
    SumKeysRemove(m, m.Keys, k, f);
  }
}
