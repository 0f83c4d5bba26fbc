/**
 * BayesianClassifier/FeatureDictionary.cs: feature -> CategoryDictionary,
 * the per-feature, per-category counts of the classifier. The inner
 * dictionaries are separate objects updated in place.
 */
module FeatureDictionaries {
  import opened Dictionaries
  import opened Counting
  import opened CategoryDictionaries

  /** The counts of one feature's row; an absent feature has an empty row. */
  function Row<T>(m: map<T, map<string, int>>, f: T): map<string, int> {
    if f in m then m[f] else map[]
  }

  /** The count of (f, c), 0 when either is absent. */
  function FCount<T>(m: map<T, map<string, int>>, f: T, c: string): int {
    Count(Row(m, f), c)
  }

  /** The sum of one feature's counts, 0 for an absent feature. */
  ghost function RowSum<T>(m: map<T, map<string, int>>, f: T): int {
    MapSum(Row(m, f))
  }

  /** The counts after raising (f, c) by one. */
  function Incremented<T>(m: map<T, map<string, int>>, f: T, c: string): map<T, map<string, int>> {
    m[f := Row(m, f)[c := FCount(m, f, c) + 1]]
  }

  /** The counts after a lookup of (f, c) that inserts zero entries on a miss. */
  function ZeroFilled<T>(m: map<T, map<string, int>>, f: T, c: string): map<T, map<string, int>> {
    if f in m && c in m[f] then m else m[f := Row(m, f)[c := 0]]
  }

  /** Raising (f, c) in a present row replaces that row by the raised one. */
  lemma IncrementedAt<T>(m: map<T, map<string, int>>, f: T, c: string, raised: map<string, int>)
    requires f in m && raised == m[f][c := Count(m[f], c) + 1]
    ensures m[f := raised] == Incremented(m, f, c)
  {
  }

  /** Zero-filling (f, c) in a present row replaces that row by the filled one. */
  lemma ZeroFilledAt<T>(m: map<T, map<string, int>>, f: T, c: string, filled: map<string, int>)
    requires f in m && filled == if c in m[f] then m[f] else m[f][c := 0]
    ensures m[f := filled] == ZeroFilled(m, f, c)
  {
  }

  /**
   * Giving a missing feature the row c -> 0 and then raising (f, c) in it
   * is the same as raising (f, c) directly.
   */
  lemma IncrementAfterFill<T>(before: map<T, map<string, int>>, mid: map<T, map<string, int>>, f: T, c: string)
    requires mid == if f in before then before else before[f := map[c := 0]]
    ensures Incremented(mid, f, c) == Incremented(before, f, c)
  {
    if f !in before {
      assert mid[f][c := 1] == map[c := 1];
      assert Row(before, f)[c := FCount(before, f, c) + 1] == map[c := 1];
    }
  }

  /**
   * Giving a missing feature the row c -> 0 and then looking up (f, c) in it
   * reads the count of (f, c) and leaves the zero-filled counts.
   */
  lemma GetAfterFill<T>(before: map<T, map<string, int>>, mid: map<T, map<string, int>>, f: T, c: string)
    requires mid == if f in before then before else before[f := map[c := 0]]
    ensures FCount(mid, f, c) == FCount(before, f, c)
    ensures ZeroFilled(mid, f, c) == ZeroFilled(before, f, c)
  {
    if f !in before {
      assert Row(before, f)[c := 0] == map[c := 0];
    }
  }

  /** A lookup that fills in zeros changes no count and no row sum. */
  lemma ZeroFilledSame<T>(m: map<T, map<string, int>>, f: T, c: string, g: T, d: string)
    ensures FCount(ZeroFilled(m, f, c), g, d) == FCount(m, g, d)
    ensures RowSum(ZeroFilled(m, f, c), g) == RowSum(m, g)
  {
    if !(f in m && c in m[f]) && g == f {
      MapSumUpdate(Row(m, f), c, 0);
    }
  }

  class FeatureDictionary<T(==)> {
    var dict: Dict<T, CategoryDictionary>
    /** The counts, feature by feature, without their enumeration order. */
    ghost var counts: map<T, map<string, int>>
    ghost var Repr: set<object>

    ghost predicate Valid()
      reads this, Repr
    {
      && this in Repr
      && dict.Valid()
      && counts.Keys == dict.items.Keys
      && (forall f | f in dict.items ::
            dict.items[f] in Repr && dict.items[f].Valid() && dict.items[f].Counts() == counts[f])
      && (forall f, g | f in dict.items && g in dict.items && f != g :: dict.items[f] != dict.items[g])
    }

    constructor ()
      ensures Valid() && fresh(Repr) && counts == map[] && dict.keys == []
    {
      dict := Empty();
      counts := map[];
      Repr := {this};
    }

    /** `_dict.Add(feature, cd)` for a new feature and a dictionary not yet in use. */
    method AddRow(feature: T, cd: CategoryDictionary)
      requires Valid() && cd.Valid()
      requires feature !in dict.items && cd !in Repr
      modifies this
      ensures Valid() && Repr == old(Repr) + {cd}
      ensures counts == old(counts)[feature := cd.Counts()]
      ensures dict.keys == old(dict.keys) + [feature]
    {
      dict := dict.Put(feature, cd);
      counts := counts[feature := cd.Counts()];
      Repr := Repr + {cd};
    }

    /** `_dict[feature].AddKeyValuePair(category, value)` on a present feature. */
    method RowPut(feature: T, category: string, value: int)
      requires Valid() && feature in dict.items
      modifies Repr
      ensures Valid() && Repr == old(Repr) && dict == old(dict)
      ensures counts == old(counts)[feature := old(counts)[feature][category := value]]
    {
      var cd := dict.items[feature];
      cd.AddKeyValuePair(category, value);
      counts := counts[feature := cd.Counts()];
    }

    /** `_dict[feature].IncrementValue(category)` on a present feature. */
    method RowIncrement(feature: T, category: string)
      requires Valid() && feature in dict.items
      modifies Repr
      ensures Valid() && Repr == old(Repr) && dict == old(dict)
      ensures counts == Incremented(old(counts), feature, category)
    {
      var cd := dict.items[feature];
      ghost var before := counts;
      cd.IncrementValue(category);
      IncrementedAt(before, feature, category, cd.Counts());
      counts := counts[feature := cd.Counts()];
    }

    /** `_dict[feature].GetValue(category)` on a present feature. */
    method RowGet(feature: T, category: string) returns (v: int)
      requires Valid() && feature in dict.items
      modifies Repr
      ensures Valid() && Repr == old(Repr) && dict == old(dict)
      ensures v == FCount(old(counts), feature, category)
      ensures counts == ZeroFilled(old(counts), feature, category)
    {
      var cd := dict.items[feature];
      ghost var before := counts;
      v := cd.GetValue(category);
      ZeroFilledAt(before, feature, category, cd.Counts());
      counts := counts[feature := cd.Counts()];
      forall f | f in dict.items && f != feature
        ensures dict.items[f].Valid() && dict.items[f].Counts() == counts[f]
      {
        assert dict.items[f] != cd;
      }
    }

    /** A missing feature gets the row c -> 0 (the guarded `_dict.Add` of IncrementValue and GetCategoryValue). */
    method EnsureRow(feature: T, category: string)
      requires Valid()
      modifies this
      ensures Valid() && fresh(Repr - old(Repr))
      ensures feature in dict.items
      ensures counts == if feature in old(counts) then old(counts) else old(counts)[feature := map[category := 0]]
      ensures dict.keys == if feature in old(counts) then old(dict.keys) else old(dict.keys) + [feature]
    {
      if feature !in dict.items {
        var added := new CategoryDictionary.WithEntry(category, DefaultValue);
        AddRow(feature, added);
      }
    }

    /** Sets (f, c) to `value`; a missing feature gets a dictionary holding just that entry. */
    method AddElement(feature: T, category: string, value: int)
      requires Valid()
      modifies Repr
      ensures Valid() && fresh(Repr - old(Repr))
      ensures counts == old(counts)[feature := Row(old(counts), feature)[category := value]]
      ensures dict.keys == if feature in old(counts) then old(dict.keys) else old(dict.keys) + [feature]
    {
      if feature !in dict.items {
        var cd := new CategoryDictionary.WithEntry(category, value);
        AddRow(feature, cd);
      } else {
        RowPut(feature, category, value);
      }
    }

    /** Raises (f, c) by one; a missing feature first gets the entry c -> 0. */
    method IncrementValue(feature: T, category: string)
      requires Valid()
      modifies Repr
      ensures Valid() && fresh(Repr - old(Repr))
      ensures counts == Incremented(old(counts), feature, category)
      ensures dict.keys == if feature in old(counts) then old(dict.keys) else old(dict.keys) + [feature]
    {
      ghost var before := counts;
      EnsureRow(feature, category);
      ghost var mid := counts;
      RowIncrement(feature, category);
      IncrementAfterFill(before, mid, feature, category);
    }

    /** `_dict.Keys.ToList()`: every stored feature once, in insertion order. */
    function GetFeatures(): (r: seq<T>)
      reads this, Repr
      requires Valid()
      ensures Distinct(r)
      ensures (set f | f in r) == counts.Keys
    {
      dict.keys
    }

    /** The categories counted for a present feature (the indexer throws for an absent one). */
    function GetCategoriesForFeature(feature: T): (r: seq<string>)
      reads this, Repr
      requires Valid()
      requires feature in counts
      ensures Distinct(r)
      ensures forall c :: c in r <==> c in counts[feature]
    {
      dict.items[feature].GetCategories()
    }

    /** The count of (f, c), 0 when absent; a miss inserts zero entries. */
    method GetCategoryValue(feature: T, category: string) returns (v: int)
      requires Valid()
      modifies Repr
      ensures Valid() && fresh(Repr - old(Repr))
      ensures v == FCount(old(counts), feature, category)
      ensures counts == ZeroFilled(old(counts), feature, category)
      ensures dict.keys == if feature in old(counts) then old(dict.keys) else old(dict.keys) + [feature]
    {
      ghost var before := counts;
      EnsureRow(feature, category);
      ghost var mid := counts;
      v := RowGet(feature, category);
      GetAfterFill(before, mid, feature, category);
    }

    /** The sum of the feature's counts, 0 for an absent feature; changes no count. */
    method GetSumOfAllValues(feature: T) returns (sum: int)
      requires Valid()
      modifies Repr
      ensures Valid() && Repr == old(Repr) && dict == old(dict)
      ensures counts == old(counts)
      ensures sum == RowSum(old(counts), feature)
    {
      sum := 0;
      if feature in dict.items {
        var categories := GetCategoriesForFeature(feature);
        ghost var row := counts[feature];
        var i := 0;
        while i < |categories|
          invariant 0 <= i <= |categories|
          invariant Valid() && Repr == old(Repr) && dict == old(dict)
          invariant counts == old(counts)
          invariant sum == SeqSum(categories[..i], row)
        {
          var value := RowGet(feature, categories[i]);
          SeqSumStep(categories, row, i);
          sum := sum + value;
          i := i + 1;
        }
        assert categories[..i] == categories;
        SeqSumIsMapSum(categories, row);
      }
    }
  }
}
