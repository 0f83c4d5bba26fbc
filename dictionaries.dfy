/**
 * A .NET `Dictionary<K, V>` as the source uses it: a finite map whose keys
 * are enumerated in insertion order. Nothing in the modelled code removes
 * a key, so the enumeration order is the order of first insertion.
 */
module Dictionaries {

  /** No element occurs twice. */
  ghost predicate Distinct<T>(s: seq<T>) {
    forall i, j :: 0 <= i < j < |s| ==> s[i] != s[j]
  }

  datatype Dict<K, V> = Dict(keys: seq<K>, items: map<K, V>) {

    /** The key sequence lists exactly the stored keys, each once. */
    ghost predicate Valid() {
      Distinct(keys) && items.Keys == set k | k in keys
    }

    /** `dict[k] = v`, or `dict.Add(k, v)` on a new key. */
    function Put(k: K, v: V): (r: Dict<K, V>)
      ensures Valid() ==> r.Valid()
      ensures r.items == items[k := v]
      ensures r.keys == if k in items then keys else keys + [k]
    {
      Dict(if k in items then keys else keys + [k], items[k := v])
    }
  }

  /** A fresh, empty dictionary. */
  function Empty<K, V>(): (r: Dict<K, V>)
    ensures r.Valid() && r.keys == [] && r.items == map[]
  {
    Dict([], map[])
  }

  /** Dropping the last element of a distinct sequence leaves it distinct and without that element. */
  lemma DistinctInit<T>(s: seq<T>)
    requires Distinct(s) && s != []
    ensures Distinct(s[..|s| - 1]) && s[|s| - 1] !in s[..|s| - 1]
  {
    var init := s[..|s| - 1];
    forall i, j | 0 <= i < j < |init| ensures init[i] != init[j] {
      assert init[i] == s[i] && init[j] == s[j];
    }
    forall i | 0 <= i < |init| ensures init[i] != s[|s| - 1] {
      assert init[i] == s[i];
    }
  }

  /** Taking the element at `k` out of a distinct sequence leaves it distinct, holding everything else. */
  lemma DistinctRemoveAt<T>(s: seq<T>, k: int)
    requires Distinct(s) && 0 <= k < |s|
    ensures Distinct(s[..k] + s[k + 1..])
    ensures forall y :: y in s[..k] + s[k + 1..] <==> y in s && y != s[k]
  {
    var r := s[..k] + s[k + 1..];
    forall i, j | 0 <= i < j < |r| ensures r[i] != r[j] {
      var i' := if i < k then i else i + 1;
      var j' := if j < k then j else j + 1;
      assert r[i] == s[i'] && r[j] == s[j'];
    }
    forall y ensures y in r <==> y in s && y != s[k] {
      if y in s && y != s[k] {
        var m :| 0 <= m < |s| && s[m] == y;
        if m < k { assert r[m] == y; } else { assert r[m - 1] == y; }
      }
      if y in r {
        var m :| 0 <= m < |r| && r[m] == y;
        if m < k { assert s[m] == y; } else { assert s[m + 1] == y; }
      }
    }
  }

  /** `x` occurs among the first `j` elements of `s`. */
  ghost predicate OccursBefore<T>(x: T, s: seq<T>, j: int) {
    exists k | 0 <= k < j && k < |s| :: s[k] == x
  }

  /** One more element scanned: in a distinct sequence, a match is the first one. */
  lemma OccursStep<T>(x: T, s: seq<T>, j: int)
    requires 0 <= j < |s|
    ensures OccursBefore(x, s, j + 1) <==> OccursBefore(x, s, j) || s[j] == x
    ensures Distinct(s) && s[j] == x ==> !OccursBefore(x, s, j)
  {
  }

  /** Scanning all of `s` finds exactly its elements. */
  lemma OccursAll<T>(x: T, s: seq<T>)
    ensures OccursBefore(x, s, |s|) <==> x in s
  {
  }

  /** A distinct sequence is exactly as long as the set of its elements is large. */
  lemma {:induction false} DistinctCard<T>(s: seq<T>)
    requires Distinct(s)
    ensures |set x | x in s| == |s|
  {
    if s != [] {
      DistinctCard(s[1..]);
      assert (set x | x in s) == (set x | x in s[1..]) + {s[0]};
      assert s[0] !in (set x | x in s[1..]);
    }
  }
}
