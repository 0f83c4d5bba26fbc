/**
 * The collaborative-filtering dataset: for each category (a critic, a
 * customer) a dictionary from feature (an item) to the value the category
 * gives it. Lookups of missing data fall back to "absent", the empty key
 * collection or 0.0 instead of failing.
 */
module Datasets {
  import opened Dictionaries

  /** The values one category gives its features. */
  type Row = Dict<string, real>

  /** category -> feature -> value. */
  type Dataset = Dict<string, Row>

  /** Both levels enumerate exactly their keys, each once. */
  ghost predicate WellFormed(d: Dataset) {
    d.Valid() && forall c | c in d.items :: d.items[c].Valid()
  }

  /** `ContainsCategory`. */
  function ContainsCategory(d: Dataset, c: string): (r: bool)
    ensures r <==> c in d.items
    ensures WellFormed(d) ==> (r <==> c in GetCategoryNames(d))
  {
    c in d.items
  }

  /** `ContainsFeatureInCategory`: never true for an absent category. */
  function ContainsFeatureInCategory(d: Dataset, c: string, f: string): (r: bool)
    ensures r ==> ContainsCategory(d, c)
    ensures !ContainsCategory(d, c) ==> !r
    ensures WellFormed(d) ==> (r <==> f in GetFeatureNamesInCategory(d, c))
  {
    c in d.items && f in d.items[c].items
  }

  /** `GetCategoryNames`: the categories in insertion order. */
  function GetCategoryNames(d: Dataset): (r: seq<string>)
    ensures WellFormed(d) ==> Distinct(r) && (set c | c in r) == d.items.Keys
  {
    d.keys
  }

  /** `GetFeatureNamesInCategory`: empty for an absent category. */
  function GetFeatureNamesInCategory(d: Dataset, c: string): (r: seq<string>)
    ensures !ContainsCategory(d, c) ==> r == []
    ensures WellFormed(d) && ContainsCategory(d, c) ==>
              Distinct(r) && (set f | f in r) == d.items[c].items.Keys
  {
    if c in d.items then d.items[c].keys else []
  }

  /** `GetValueForFeatureInCategory`: 0.0 when the category or the feature is absent. */
  function GetValueForFeatureInCategory(d: Dataset, c: string, f: string): (r: real)
    ensures !ContainsFeatureInCategory(d, c, f) ==> r == 0.0
    ensures ContainsFeatureInCategory(d, c, f) ==> r == d.items[c].items[f]
  {
    if c in d.items && f in d.items[c].items then d.items[c].items[f] else 0.0
  }

  /** The dataset after `AddCategory(c)`: a new, empty row unless `c` is present. */
  function WithCategory(d: Dataset, c: string): (r: Dataset)
    ensures WellFormed(d) ==> WellFormed(r)
    ensures ContainsCategory(r, c)
  {
    if c in d.items then d else d.Put(c, Empty())
  }

  /** The dataset after `AddValueForFeatureToCategory(c, f, v)`. */
  function WithValue(d: Dataset, c: string, f: string, v: real): (r: Dataset)
    ensures WellFormed(d) ==> WellFormed(r)
  {
    var e := WithCategory(d, c);
    e.Put(c, e.items[c].Put(f, v))
  }

  /** Adding a category that is already present changes nothing. */
  lemma WithCategoryExisting(d: Dataset, c: string)
    requires ContainsCategory(d, c)
    ensures WithCategory(d, c) == d
  {
  }

  /** Adding a category appends it to the enumeration and gives every lookup its old answer. */
  lemma WithCategoryLookups(d: Dataset, c: string, c': string, f: string)
    ensures GetCategoryNames(WithCategory(d, c)) ==
              if ContainsCategory(d, c) then GetCategoryNames(d) else GetCategoryNames(d) + [c]
    ensures GetValueForFeatureInCategory(WithCategory(d, c), c', f) == GetValueForFeatureInCategory(d, c', f)
    ensures ContainsFeatureInCategory(WithCategory(d, c), c', f) == ContainsFeatureInCategory(d, c', f)
  {
  }

  /**
   * After storing `v` under (c, f) the category exists, that entry reads `v`
   * and every other (category, feature) entry reads what it read before.
   */
  lemma WithValueLookups(d: Dataset, c: string, f: string, v: real, c': string, f': string)
    ensures ContainsCategory(WithValue(d, c, f, v), c)
    ensures ContainsFeatureInCategory(WithValue(d, c, f, v), c, f)
    ensures GetValueForFeatureInCategory(WithValue(d, c, f, v), c, f) == v
    ensures (c', f') != (c, f) ==>
              GetValueForFeatureInCategory(WithValue(d, c, f, v), c', f') == GetValueForFeatureInCategory(d, c', f')
              && ContainsFeatureInCategory(WithValue(d, c, f, v), c', f') == ContainsFeatureInCategory(d, c', f')
  {
  }

  /** Storing a value adds `c` to the categories only when it was new. */
  lemma WithValueCategories(d: Dataset, c: string, f: string, v: real)
    ensures GetCategoryNames(WithValue(d, c, f, v)) ==
              if ContainsCategory(d, c) then GetCategoryNames(d) else GetCategoryNames(d) + [c]
  {
  }
}
