/**
 * BayesianClassifier/NaiveBayes.cs: a naive Bayes classifier over features
 * of type T. Training raises counts in a FeatureDictionary (feature ->
 * category -> count) and a CategoryDictionary (category -> number of
 * training rounds); classification picks the category of largest
 * probability, or the default category when none is positive.
 *
 * Every method is proved against the functions of BayesModel, evaluated on
 * the snapshot of the counts the method starts from. Lookups may insert
 * zero entries; each method keeps the snapshot Equivalent to the old one.
 */
module NaiveBayesClassifier {
  import opened Doubles
  import opened Counting
  import opened CategoryDictionaries
  import opened FeatureDictionaries
  import opened BayesModel

  /** The default category of the constructors that take none. */
  const Unclassified := "Unclassified"

  class NaiveBayes<T(==, !new)> {
    const featureDict: FeatureDictionary<T>
    const categoryDict: CategoryDictionary
    var weight: real
    var assumedProbability: real
    var defaultCategory: string

    /**
     * The feature store owns the objects in featureDict.Repr; the
     * classifier and the category store are not among them.
     */
    ghost predicate Valid()
      reads this, featureDict, featureDict.Repr, categoryDict
    {
      && this !in featureDict.Repr && categoryDict !in featureDict.Repr
      && featureDict.Valid() && categoryDict.Valid()
      && NonNegative(Snap())
    }

    /** The counts and tuning parameters the probabilities read. */
    ghost function Snap(): Snapshot<T>
      reads this, featureDict, categoryDict
    {
      Snapshot(featureDict.counts, categoryDict.Counts(), weight, assumedProbability)
    }

    /** `new NaiveBayes<T>()`: untrained, weight 1.0, assumed probability 1.0, default "Unclassified". */
    constructor ()
      ensures Valid() && fresh(featureDict.Repr) && fresh(categoryDict)
      ensures Snap() == Snapshot(map[], map[], 1.0, 1.0) && defaultCategory == Unclassified
      ensures categoryDict.dict.keys == []
    {
      featureDict := new FeatureDictionary();
      categoryDict := new CategoryDictionary();
      weight := 1.0;
      assumedProbability := 1.0;
      defaultCategory := Unclassified;
    }

    /** `new NaiveBayes<T>(weight, assumedProbability)`. */
    constructor WithParameters(weight: real, assumedProbability: real)
      ensures Valid() && fresh(featureDict.Repr) && fresh(categoryDict)
      ensures Snap() == Snapshot(map[], map[], weight, assumedProbability) && defaultCategory == Unclassified
      ensures categoryDict.dict.keys == []
    {
      featureDict := new FeatureDictionary();
      categoryDict := new CategoryDictionary();
      this.weight := weight;
      this.assumedProbability := assumedProbability;
      defaultCategory := Unclassified;
    }

    /** `new NaiveBayes<T>(defaultCategory)`. */
    constructor WithDefault(defaultCategory: string)
      ensures Valid() && fresh(featureDict.Repr) && fresh(categoryDict)
      ensures Snap() == Snapshot(map[], map[], 1.0, 1.0) && this.defaultCategory == defaultCategory
      ensures categoryDict.dict.keys == []
    {
      featureDict := new FeatureDictionary();
      categoryDict := new CategoryDictionary();
      weight := 1.0;
      assumedProbability := 1.0;
      this.defaultCategory := defaultCategory;
    }

    /** `new NaiveBayes<T>(weight, assumedProbability, defaultCategory)`. */
    constructor WithAll(weight: real, assumedProbability: real, defaultCategory: string)
      ensures Valid() && fresh(featureDict.Repr) && fresh(categoryDict)
      ensures Snap() == Snapshot(map[], map[], weight, assumedProbability)
      ensures this.defaultCategory == defaultCategory
      ensures categoryDict.dict.keys == []
    {
      featureDict := new FeatureDictionary();
      categoryDict := new CategoryDictionary();
      this.weight := weight;
      this.assumedProbability := assumedProbability;
      this.defaultCategory := defaultCategory;
    }

    method SetAssumedProb(assumedProbability: real)
      requires Valid()
      modifies this
      ensures Valid()
      ensures this.assumedProbability == assumedProbability
      ensures weight == old(weight) && defaultCategory == old(defaultCategory)
    {
      this.assumedProbability := assumedProbability;
    }

    method SetWeight(weight: real)
      requires Valid()
      modifies this
      ensures Valid()
      ensures this.weight == weight
      ensures assumedProbability == old(assumedProbability) && defaultCategory == old(defaultCategory)
    {
      this.weight := weight;
    }

    method SetDefaultCategory(defaultCategory: string)
      requires Valid()
      modifies this
      ensures Valid()
      ensures this.defaultCategory == defaultCategory
      ensures weight == old(weight) && assumedProbability == old(assumedProbability)
    {
      this.defaultCategory := defaultCategory;
    }

    /** `_featureDict.IncrementValue(feature, category)`. */
    method IncrementFeatureCount(feature: T, category: string)
      requires Valid()
      modifies featureDict.Repr
      ensures Valid() && fresh(featureDict.Repr - old(featureDict.Repr))
      ensures Snap() == old(Snap()).(features := Incremented(old(featureDict.counts), feature, category))
    {
      ghost var before := Snap();
      IncrementedNonNegative(before, feature, category);
      featureDict.IncrementValue(feature, category);
      assert Snap() == before.(features := Incremented(before.features, feature, category));
    }

    /** `_categoryDict.IncrementValue(category)`. */
    method IncrementCategoryCount(category: string)
      requires Valid()
      modifies categoryDict
      ensures Valid()
      ensures Snap() == old(Snap()).(categories := old(categoryDict.Counts())[category := Count(old(categoryDict.Counts()), category) + 1])
      ensures categoryDict.dict.keys == if category in old(categoryDict.Counts()) then old(categoryDict.dict.keys)
                                        else old(categoryDict.dict.keys) + [category]
    {
      ghost var before, cats := Snap(), categoryDict.dict;
      ghost var cc := before.categories[category := Count(before.categories, category) + 1];
      RaiseCategoryNonNegative(before, category);
      categoryDict.IncrementValue(category);
      assert featureDict.counts == before.features && categoryDict.Counts() == cc;
      assert categoryDict.dict.keys == if category in cats.items then cats.keys else cats.keys + [category];
      assert Snap() == before.(categories := cc);
    }

    /** Raises (f, category) once per occurrence of f in `features`, then the count of `category`. */
    method Train(features: seq<T>, category: string)
      requires Valid()
      modifies featureDict.Repr, categoryDict
      ensures Valid() && fresh(featureDict.Repr - old(featureDict.Repr))
      ensures Snap() == old(Snap()).(features := TrainAll(old(featureDict.counts), features, category),
                                     categories := old(categoryDict.Counts())[category := Count(old(categoryDict.Counts()), category) + 1])
      ensures categoryDict.dict.keys == if category in old(categoryDict.Counts()) then old(categoryDict.dict.keys)
                                        else old(categoryDict.dict.keys) + [category]
    {
      for i := 0 to |features|
        invariant Valid() && fresh(featureDict.Repr - old(featureDict.Repr))
        invariant Snap() == old(Snap()).(features := TrainAll(old(featureDict.counts), features[..i], category))
        invariant categoryDict.dict == old(categoryDict.dict)
      {
        IncrementFeatureCount(features[i], category);
        assert features[..i + 1][..i] == features[..i];
      }
      assert features[..|features|] == features;
      IncrementCategoryCount(category);
    }

    /** The single-feature Train: raises (feature, category) and the count of `category` by one each. */
    method TrainFeature(feature: T, category: string)
      requires Valid()
      modifies featureDict.Repr, categoryDict
      ensures Valid() && fresh(featureDict.Repr - old(featureDict.Repr))
      ensures Snap() == old(Snap()).(features := Incremented(old(featureDict.counts), feature, category),
                                     categories := old(categoryDict.Counts())[category := Count(old(categoryDict.Counts()), category) + 1])
      ensures categoryDict.dict.keys == if category in old(categoryDict.Counts()) then old(categoryDict.dict.keys)
                                        else old(categoryDict.dict.keys) + [category]
    {
      ghost var before, cats := Snap(), categoryDict.dict;
      ghost var fc := Incremented(featureDict.counts, feature, category);
      ghost var cc := categoryDict.Counts()[category := Count(categoryDict.Counts(), category) + 1];
      IncrementFeatureCount(feature, category);
      assert featureDict.counts == fc && categoryDict.dict == cats;
      IncrementCategoryCount(category);
      assert featureDict.counts == fc && categoryDict.Counts() == cc;
      assert categoryDict.dict.keys == if category in cats.items then cats.keys else cats.keys + [category];
      assert Snap() == before.(features := fc, categories := cc);
    }

    /** `_categoryDict.GetValue(category)`, which inserts a zero entry on a miss. */
    method GetCategoryValue(category: string) returns (v: int)
      requires Valid()
      modifies categoryDict
      ensures Valid() && Equivalent(old(Snap()), Snap())
      ensures v == Count(old(categoryDict.Counts()), category)
      ensures featureDict.counts == old(featureDict.counts)
      ensures categoryDict.dict.keys == if category in old(categoryDict.Counts()) then old(categoryDict.dict.keys)
                                        else old(categoryDict.dict.keys) + [category]
    {
      CategoryFilledEquivalent(Snap(), category);
      v := categoryDict.GetValue(category);
      EquivalentNonNegative(old(Snap()), Snap());
    }

    /** `_featureDict.GetCategoryValue(feature, category)`, which inserts zero entries on a miss. */
    method GetFeaturesCategoryValue(feature: T, category: string) returns (v: int)
      requires Valid()
      modifies featureDict.Repr
      ensures Valid() && fresh(featureDict.Repr - old(featureDict.Repr)) && Equivalent(old(Snap()), Snap())
      ensures v == FCount(old(featureDict.counts), feature, category)
    {
      ZeroFilledEquivalent(Snap(), feature, category);
      v := featureDict.GetCategoryValue(feature, category);
      EquivalentNonNegative(old(Snap()), Snap());
    }

    /** count(feature, category) / count(category), or 0.0 for an untrained category. */
    method FeatureProbability(feature: T, category: string) returns (p: real)
      requires Valid()
      modifies featureDict.Repr, categoryDict
      ensures Valid() && fresh(featureDict.Repr - old(featureDict.Repr)) && Equivalent(old(Snap()), Snap())
      ensures p == FeatureProb(old(Snap()), feature, category)
      ensures categoryDict.dict.keys == if category in old(categoryDict.Counts()) then old(categoryDict.dict.keys)
                                        else old(categoryDict.dict.keys) + [category]
    {
      var categoryCount := GetCategoryValue(category);
      if categoryCount == 0 {
        p := 0.0;
      } else {
        ghost var mid := Snap();
        var featureCount := GetFeaturesCategoryValue(feature, category);
        ghost var late := Snap();
        EquivalentTrans(old(Snap()), mid, late);
        var categoryCount' := GetCategoryValue(category);
        EquivalentTrans(old(Snap()), late, Snap());
        assert FCount(mid.features, feature, category) == FCount(old(Snap()).features, feature, category);
        assert Count(late.categories, category) == Count(old(Snap()).categories, category);
        p := featureCount as real / categoryCount' as real;
      }
    }

    /**
     * The weighted probability of `feature` in `category`, by the formula
     * as written: ((weight * assumed) * (total * basic)) / (weight + total).
     */
    method WeightedProbability(feature: T, category: string) returns (p: Double)
      requires Valid()
      modifies featureDict.Repr, categoryDict
      ensures Valid() && fresh(featureDict.Repr - old(featureDict.Repr)) && Equivalent(old(Snap()), Snap())
      ensures p == Weighted(AsWritten, old(Snap()), feature, category)
      ensures categoryDict.dict.keys == if category in old(categoryDict.Counts()) then old(categoryDict.dict.keys)
                                        else old(categoryDict.dict.keys) + [category]
    {
      var basicProbability := FeatureProbability(feature, category);
      ghost var mid := Snap();
      var total := featureDict.GetSumOfAllValues(feature);
      assert Snap() == mid;
      assert RowSum(mid.features, feature) == RowSum(old(Snap()).features, feature);
      p := AsWrittenFormula(weight, assumedProbability, total as real, basicProbability);
    }

    /** The product of the weighted probabilities of `features`, starting from 1.0. */
    method CommonAppearanceProbability(features: seq<T>, category: string) returns (p: Double)
      requires Valid()
      modifies featureDict.Repr, categoryDict
      ensures Valid() && fresh(featureDict.Repr - old(featureDict.Repr)) && Equivalent(old(Snap()), Snap())
      ensures p == CommonProb(AsWritten, old(Snap()), features, category)
      ensures categoryDict.dict.keys == if category in old(categoryDict.Counts()) || features == [] then old(categoryDict.dict.keys)
                                        else old(categoryDict.dict.keys) + [category]
    {
      p := Finite(1.0);
      ghost var added := if category in categoryDict.Counts() then categoryDict.dict.keys else categoryDict.dict.keys + [category];
      for i := 0 to |features|
        invariant Valid() && fresh(featureDict.Repr - old(featureDict.Repr)) && Equivalent(old(Snap()), Snap())
        invariant p == CommonProb(AsWritten, old(Snap()), features[..i], category)
        invariant categoryDict.dict.keys == if i == 0 then old(categoryDict.dict.keys) else added
        invariant i > 0 ==> category in categoryDict.Counts()
      {
        ghost var before := Snap();
        var w := WeightedProbability(features[i], category);
        assert category in categoryDict.Counts() by {
          assert category in categoryDict.dict.keys;
        }
        WeightedEquivalent(AsWritten, old(Snap()), before, features[i], category);
        EquivalentTrans(old(Snap()), before, Snap());
        assert features[..i + 1][..i] == features[..i];
        p := Mul(p, w);
      }
      assert features[..|features|] == features;
    }

    /** count(category) / (sum of all category counts), times the common probability. */
    method Probability(features: seq<T>, category: string) returns (p: Double)
      requires Valid()
      modifies featureDict.Repr, categoryDict
      ensures Valid() && fresh(featureDict.Repr - old(featureDict.Repr)) && Equivalent(old(Snap()), Snap())
      ensures p == Prob(AsWritten, old(Snap()), features, category)
      ensures categoryDict.dict.keys == if category in old(categoryDict.Counts()) then old(categoryDict.dict.keys)
                                        else old(categoryDict.dict.keys) + [category]
    {
      var categoryCount := GetCategoryValue(category);
      ghost var mid := Snap();
      var sum := categoryDict.GetSumOfValues();
      var categoryProbability := Div(categoryCount as real, sum as real);
      var common := CommonAppearanceProbability(features, category);
      EquivalentTrans(old(Snap()), mid, Snap());
      CommonProbEquivalent(AsWritten, old(Snap()), mid, features, category);
      p := Mul(categoryProbability, common);
    }

    /**
     * The category of largest probability for `features`, scanning the
     * categories in enumeration order and replacing the best only on a
     * strictly larger probability; the default category when none is
     * above 0.0.
     */
    method Classify(features: seq<T>) returns (best: string)
      requires Valid()
      modifies featureDict.Repr, categoryDict
      ensures Valid() && fresh(featureDict.Repr - old(featureDict.Repr)) && Equivalent(old(Snap()), Snap())
      ensures best == Classification(AsWritten, old(Snap()), features, old(categoryDict.dict.keys), old(defaultCategory))
      ensures categoryDict.dict.keys == old(categoryDict.dict.keys)
    {
      var max := 0.0;
      best := defaultCategory;
      var categories := categoryDict.GetCategories();
      for i := 0 to |categories|
        invariant Valid() && fresh(featureDict.Repr - old(featureDict.Repr)) && Equivalent(old(Snap()), Snap())
        invariant Choice(max, best) == Pick(categories[..i], Scores(AsWritten, old(Snap()), features, categories[..i]), defaultCategory)
        invariant categoryDict.dict.keys == old(categoryDict.dict.keys) == categories
      {
        ghost var before := Snap();
        var categoryProbability := Probability(features, categories[i]);
        ProbEquivalent(AsWritten, old(Snap()), before, features, categories[i]);
        EquivalentTrans(old(Snap()), before, Snap());
        PickStep(AsWritten, old(Snap()), features, categories, i, defaultCategory);
        if Greater(categoryProbability, Finite(max)) {
          max := categoryProbability.value;
          best := categories[i];
        }
      }
      assert categories[..|categories|] == categories;
    }
  }
}
