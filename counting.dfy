/**
 * Integer bookkeeping shared by the Bayesian counting store: the count a
 * dictionary holds for a key (0 when the key is absent, as every lookup of
 * the store defaults), and the sum of all counts of a dictionary, defined
 * independently of any key order.
 */
module Counting {
  import opened Dictionaries

  /** The count stored under `k`, 0 when `k` is absent. */
  function Count<K>(m: map<K, int>, k: K): int {
    if k in m then m[k] else 0
  }

  /** The sum of all values of `m`, in no particular order. */
  ghost function MapSum<K>(m: map<K, int>): int
    decreases |m|
  {
    if m == map[] then 0
    else
      var k :| k in m;
      assert |m - {k}| < |m| by { assert (m - {k}).Keys == m.Keys - {k}; }
      m[k] + MapSum(m - {k})
  }

  /** Any key may be taken out first: the sum does not depend on the order. */
  lemma {:induction false} MapSumRemove<K>(m: map<K, int>, k: K)
    requires k in m
    ensures MapSum(m) == m[k] + MapSum(m - {k})
    decreases |m|
  {
    var j :| j in m && MapSum(m) == m[j] + MapSum(m - {j});
    if j != k {
      assert (m - {j}).Keys == m.Keys - {j};
      assert (m - {k}).Keys == m.Keys - {k};
      MapSumRemove(m - {j}, k);
      MapSumRemove(m - {k}, j);
      assert m - {j} - {k} == m - {k} - {j};
    }
  }

  /** Overwriting (or adding) one key changes the sum by the difference. */
  lemma MapSumUpdate<K>(m: map<K, int>, k: K, v: int)
    ensures MapSum(m[k := v]) == MapSum(m) - Count(m, k) + v
  {
    MapSumRemove(m[k := v], k);
    assert m[k := v] - {k} == m - {k};
    if k in m {
      MapSumRemove(m, k);
    } else {
      assert m - {k} == m;
    }
  }

  /** The sum over the keys listed in `keys`, in that order. */
  function SeqSum<K>(keys: seq<K>, m: map<K, int>): int
    requires forall i :: 0 <= i < |keys| ==> keys[i] in m
  {
    if keys == [] then 0 else m[keys[0]] + SeqSum(keys[1..], m)
  }

  /** Summing a prefix one more key further. */
  lemma {:induction false} SeqSumSnoc<K>(keys: seq<K>, m: map<K, int>, k: K)
    requires forall i :: 0 <= i < |keys| ==> keys[i] in m
    requires k in m
    ensures SeqSum(keys + [k], m) == SeqSum(keys, m) + m[k]
  {
    if keys != [] {
      assert (keys + [k])[1..] == keys[1..] + [k];
      SeqSumSnoc(keys[1..], m, k);
    }
  }

  /** Summing the first i + 1 keys adds the (i+1)-th value to the sum of the first i. */
  lemma SeqSumStep<K>(keys: seq<K>, m: map<K, int>, i: int)
    requires forall j :: 0 <= j < |keys| ==> keys[j] in m
    requires 0 <= i < |keys|
    ensures SeqSum(keys[..i + 1], m) == SeqSum(keys[..i], m) + m[keys[i]]
  {
    assert keys[..i + 1] == keys[..i] + [keys[i]];
    SeqSumSnoc(keys[..i], m, keys[i]);
  }

  /** Summing a dictionary entry by entry, in enumeration order, gives its order-free sum. */
  lemma {:induction false} SeqSumIsMapSum<K>(keys: seq<K>, m: map<K, int>)
    requires Distinct(keys)
    requires m.Keys == set k | k in keys
    ensures SeqSum(keys, m) == MapSum(m)
  {
    if keys == [] {
      assert m == map[];
    } else {
      var k := keys[0];
      var rest := m - {k};
      assert rest.Keys == set x | x in keys[1..] by {
        forall x | x in keys[1..] ensures x != k {
          var i :| 0 <= i < |keys[1..]| && keys[1..][i] == x;
          assert keys[i + 1] == x;
        }
      }
      SeqSumIsMapSum(keys[1..], rest);
      SeqSumOtherMap(keys[1..], m, rest);
      MapSumRemove(m, k);
    }
  }

  /** A sum over `keys` reads only the values of those keys. */
  lemma {:induction false} SeqSumOtherMap<K>(keys: seq<K>, m: map<K, int>, m': map<K, int>)
    requires forall i :: 0 <= i < |keys| ==> keys[i] in m && keys[i] in m' && m[keys[i]] == m'[keys[i]]
    ensures SeqSum(keys, m) == SeqSum(keys, m')
  {
    if keys != [] {
      SeqSumOtherMap(keys[1..], m, m');
    }
  }
}
