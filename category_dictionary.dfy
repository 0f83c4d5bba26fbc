/**
 * BayesianClassifier/CategoryDictionary.cs: a category -> count dictionary,
 * updated in place. Even a read (`GetValue`) inserts a zero entry for a
 * missing category.
 */
module CategoryDictionaries {
  import opened Dictionaries
  import opened Counting

  /** The count a missing category starts from. */
  const DefaultValue := 0

  class CategoryDictionary {
    var dict: Dict<string, int>

    ghost predicate Valid()
      reads this
    {
      dict.Valid()
    }

    /** The counts, without their enumeration order. */
    ghost function Counts(): map<string, int>
      reads this
    {
      dict.items
    }

    constructor ()
      ensures Valid() && Counts() == map[] && dict.keys == []
    {
      dict := Empty();
    }

    /** `new CategoryDictionary(category, value)`: exactly one entry. */
    constructor WithEntry(category: string, value: int)
      ensures Valid() && Counts() == map[category := value] && dict.keys == [category]
    {
      dict := Empty();
      new;
      AddKeyValuePair(category, value);
    }

    /** Adds `category` with `value`, or overwrites its value when present. */
    method AddKeyValuePair(category: string, value: int)
      requires Valid()
      modifies this
      ensures Valid()
      ensures Counts() == old(Counts())[category := value]
      ensures dict.keys == if category in old(Counts()) then old(dict.keys) else old(dict.keys) + [category]
    {
      // `_dict.Add` on a new key and the indexer on an existing one both come to `Put`.
      dict := dict.Put(category, value);
    }

    /** Raises the count of `category` by one, starting from 0 when absent. */
    method IncrementValue(category: string)
      requires Valid()
      modifies this
      ensures Valid()
      ensures Counts() == old(Counts())[category := Count(old(Counts()), category) + 1]
      ensures dict.keys == if category in old(Counts()) then old(dict.keys) else old(dict.keys) + [category]
      ensures GetSumOfValues() == old(GetSumOfValues()) + 1
    {
      if category !in dict.items {
        AddKeyValuePair(category, DefaultValue);
      }
      var value := dict.items[category] + 1;
      AddKeyValuePair(category, value);
      MapSumUpdate(old(Counts()), category, Count(old(Counts()), category) + 1);
    }

    /** `_dict.Keys.ToList()`: every stored category once, in insertion order. */
    function GetCategories(): (r: seq<string>)
      reads this
      requires Valid()
      ensures Distinct(r)
      ensures forall c :: c in r <==> c in Counts()
    {
      dict.keys
    }

    /** The count of `category`; a missing category is first inserted with 0. */
    method GetValue(category: string) returns (v: int)
      requires Valid()
      modifies this
      ensures Valid()
      ensures v == Count(old(Counts()), category)
      ensures Counts() == if category in old(Counts()) then old(Counts()) else old(Counts())[category := 0]
      ensures dict.keys == if category in old(Counts()) then old(dict.keys) else old(dict.keys) + [category]
      ensures GetSumOfValues() == old(GetSumOfValues())
    {
      if category !in dict.items {
        dict := dict.Put(category, DefaultValue);
        MapSumUpdate(old(Counts()), category, DefaultValue);
      }
      v := dict.items[category];
    }

    /** The sum of all counts; 0 for an empty dictionary. */
    function GetSumOfValues(): (s: int)
      reads this
      requires Valid()
      ensures s == MapSum(Counts())
      ensures Counts() == map[] ==> s == 0
    {
      SeqSumIsMapSum(dict.keys, dict.items);
      if |dict.keys| > 0 then SeqSum(dict.keys, dict.items) else 0
    }
  }
}
