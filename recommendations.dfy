/**
 * The `Recommendations` object: a dataset it updates in place, the three
 * similarity scores computed by nested loops over two categories' features,
 * and the prediction and rankings built from them. Each method is proved to
 * compute the function of the dataset that `Datasets`, `Similarity` and
 * `RecommendationModel` define, where the properties of those functions are
 * proved. The scoring delegate the rankings and the prediction take is a
 * function value; `ScoringFunction` and `SimFn` tie the three built-in
 * scores to it. The square root is a parameter.
 */
module CollaborativeFiltering {
  import opened Doubles
  import opened Dictionaries
  import opened Datasets
  import opened Similarity
  import opened Ranking
  import opened RecommendationModel

  class Recommendations {
    /** `_dataset`: category -> feature -> value. */
    var dataset: Dataset
    /** `Math.Sqrt`, taken as given. */
    const sqrt: real -> real

    ghost predicate Valid()
      reads this
    {
      WellFormed(dataset)
    }

    /** A recommender with no categories. */
    constructor(sqrt: real -> real)
      ensures Valid() && dataset == Empty() && this.sqrt == sqrt
    {
      dataset := Empty();
      this.sqrt := sqrt;
    }

    /** `AddCategory`: a new, empty category unless it is already present. */
    method AddCategory(c: string)
      requires Valid()
      modifies this
      ensures Valid() && dataset == WithCategory(old(dataset), c)
    {
      if !ContainsCategory(dataset, c) {
        dataset := dataset.Put(c, Empty());
      }
    }

    /** `AddValueForFeatureToCategory`: creates the category if need be, then adds or overwrites the value. */
    method AddValueForFeatureToCategory(c: string, f: string, rating: real)
      requires Valid()
      modifies this
      ensures Valid() && dataset == WithValue(old(dataset), c, f, rating)
    {
      AddCategory(c);
      // `Add` on a new feature and the indexer on an existing one both come to `Put`.
      dataset := dataset.Put(c, dataset.items[c].Put(f, rating));
    }

    /** `EuclideanDistanceScore(a, b)`. */
    method EuclideanDistanceScore(a: string, b: string) returns (r: real)
      requires Valid()
      ensures r == Euclidean(dataset, a, b)
    {
      if !ContainsCategory(dataset, a) || !ContainsCategory(dataset, b) {
        return 0.0;
      }
      var sumOfSquares := SumOfSquares(dataset.items[a], dataset.items[b]);
      if sumOfSquares == 0.0 {
        return 0.0;
      }
      return 1.0 / (1.0 + sumOfSquares);
    }

    /** `PearsonCorrelationScore(a, b)`. */
    method PearsonCorrelationScore(a: string, b: string) returns (r: real)
      requires Valid()
      ensures r == Pearson(dataset, sqrt, a, b)
    {
      if !ContainsCategory(dataset, a) || !ContainsCategory(dataset, b) {
        return 0.0;
      }
      var n, sumA, sumB, sumOfSquaresA, sumOfSquaresB, sumOfProducts := PearsonSums(dataset.items[a], dataset.items[b]);
      if n == 0 {
        return 0.0;
      }
      var numerator := Numerator(n, sumA, sumB, sumOfProducts);
      var denominator := sqrt(Radicand(n, sumA, sumB, sumOfSquaresA, sumOfSquaresB));
      if denominator == 0.0 {
        return 0.0;
      }
      return numerator / denominator;
    }

    /** `TanimotoSimilarityScore(a, b)`. */
    method TanimotoSimilarityScore(a: string, b: string) returns (r: real)
      requires Valid()
      ensures r == Tanimoto(dataset, a, b)
    {
      if !ContainsCategory(dataset, a) || !ContainsCategory(dataset, b) {
        return 0.0;
      }
      var sharedFeaturesCount := CountShared(dataset.items[a], dataset.items[b]);
      var numerator := sharedFeaturesCount as real;
      var denominator := |dataset.items[a].keys| + |dataset.items[b].keys| - sharedFeaturesCount;
      if denominator == 0 {
        return 0.0;
      }
      return numerator / denominator as real;
    }

    /**
     * One of the three built-in scores by name. A ranking called with
     * `recommendations.PearsonCorrelationScore` as its delegate is called
     * here with `SimFn(dataset, sqrt, PearsonMetric)`, which this method
     * computes.
     */
    method ScoringFunction(m: Metric, a: string, b: string) returns (r: real)
      requires Valid()
      ensures r == Sim(dataset, sqrt, m, a, b) && r == SimFn(dataset, sqrt, m)(a, b)
    {
      match m
      case EuclideanMetric => r := EuclideanDistanceScore(a, b);
      case PearsonMetric => r := PearsonCorrelationScore(a, b);
      case TanimotoMetric => r := TanimotoSimilarityScore(a, b);
    }

    /** `PredictFeatureValueForCategory(q, f, scoringFunction)`. */
    method PredictFeatureValueForCategory(q: string, f: string, scoringFunction: (string, string) -> real) returns (p: Double)
      requires Valid()
      ensures p == Prediction(dataset, scoringFunction, q, f)
    {
      var total, simSum := 0.0, 0.0;
      var categories := GetCategoryNames(dataset);
      for i := 0 to |categories|
        invariant total == PredictionTotals(dataset, scoringFunction, q, f, categories[..i]).total
        invariant simSum == PredictionTotals(dataset, scoringFunction, q, f, categories[..i]).simSum
      {
        var c := categories[i];
        PredictionTotalsStep(dataset, scoringFunction, q, f, categories, i);
        if c == q {
          continue;
        }
        var simScore := scoringFunction(q, c);
        if simScore <= 0.0 {
          continue;
        }
        var candidates := GetFeatureNamesInCategory(dataset, c);
        for j := 0 to |candidates|
          invariant forall k | 0 <= k < j :: candidates[k] != f
          invariant total == PredictionTotals(dataset, scoringFunction, q, f, categories[..i]).total
          invariant simSum == PredictionTotals(dataset, scoringFunction, q, f, categories[..i]).simSum
        {
          if f == candidates[j] {
            // `value_for_feature * simScore`
            total := total + Weighted(dataset, c, candidates[j], simScore);
            simSum := simSum + simScore;
            break;
          }
        }
      }
      assert categories[..|categories|] == categories;
      return Div(total, simSum);
    }

    /** `TopNCategoryRecommendations(q, n, scoringFunction)`. */
    method TopNCategoryRecommendations(q: string, n: nat, scoringFunction: (string, string) -> real) returns (r: seq<Score>)
      requires Valid()
      ensures r == TopNCategories(dataset, scoringFunction, q, n)
    {
      var scoreList := [];
      var categories := GetCategoryNames(dataset);
      for i := 0 to |categories|
        invariant scoreList == CategoryScores(dataset, scoringFunction, q, categories[..i])
      {
        var c := categories[i];
        assert categories[..i + 1][..i] == categories[..i];
        if c != q {
          var value := scoringFunction(q, c);
          scoreList := scoreList + [Score(c, Finite(value))];
        }
      }
      assert categories[..|categories|] == categories;
      r := Ranked(scoreList, n);
    }

    /** `TopNFeatureRecommendations(q, n, scoringFunction)`. */
    method TopNFeatureRecommendations(q: string, n: nat, scoringFunction: (string, string) -> real) returns (r: seq<Score>)
      requires Valid()
      ensures r == TopNFeatures(dataset, scoringFunction, q, n)
    {
      var features := GetFeatureNamesInCategory(dataset, q);
      var totals, simSums := AccumulateCategories(dataset, scoringFunction, q, features);
      var rankedFeatures := FeatureAverages(totals, simSums);
      r := Ranked(rankedFeatures, n);
    }

    /** `TopNCategoriesForFeature(f, n, scoringFunction, includePredictions)`. */
    method TopNCategoriesForFeature(f: string, n: nat, scoringFunction: (string, string) -> real, includePredictions: bool) returns (r: seq<Score>)
      requires Valid()
      ensures r == TopNHolders(dataset, scoringFunction, f, n, includePredictions)
    {
      var scoreList := [];
      var categories := GetCategoryNames(dataset);
      for i := 0 to |categories|
        invariant scoreList == HolderScores(dataset, scoringFunction, f, includePredictions, categories[..i])
      {
        var c := categories[i];
        assert categories[..i + 1][..i] == categories[..i];
        var featureFound := false;
        var candidates := GetFeatureNamesInCategory(dataset, c);
        for j := 0 to |candidates|
          invariant !featureFound && forall k | 0 <= k < j :: candidates[k] != f
          invariant scoreList == HolderScores(dataset, scoringFunction, f, includePredictions, categories[..i])
        {
          if candidates[j] == f {
            scoreList := scoreList + [Score(c, Finite(GetValueForFeatureInCategory(dataset, c, candidates[j])))];
            featureFound := true;
            break;
          }
        }
        if !featureFound && includePredictions {
          var prediction := PredictFeatureValueForCategory(c, f, scoringFunction);
          scoreList := scoreList + [Score(c, prediction)];
        }
      }
      assert categories[..|categories|] == categories;
      r := Ranked(scoreList, n);
    }
  }

  /** `Sort` by value, `Reverse`, then `GetRange(0, n)` when `n` is below the count. */
  method Ranked(scoreList: seq<Score>, n: nat) returns (r: seq<Score>)
    ensures r == TopN(scoreList, n)
  {
    var sorted := SortDescending(scoreList);
    if n < |sorted| {
      r := sorted[..n];
    } else {
      r := sorted;
    }
  }

  /** The outer loop of `TopNFeatureRecommendations`: every other category of positive similarity adds its features' weighted values. */
  method AccumulateCategories(d: Dataset, scoringFunction: (string, string) -> real, q: string, features: seq<string>)
    returns (totals: Dict<string, real>, simSums: Dict<string, real>)
    ensures Accumulators(totals, simSums) == AddCategories(d, scoringFunction, q, features, GetCategoryNames(d))
    ensures AccValid(Accumulators(totals, simSums))
  {
    totals, simSums := Empty(), Empty();
    var categories := GetCategoryNames(d);
    for i := 0 to |categories|
      invariant Accumulators(totals, simSums) == AddCategories(d, scoringFunction, q, features, categories[..i])
    {
      var c := categories[i];
      AddCategoriesStep(d, scoringFunction, q, features, categories, i);
      if c == q {
        continue;
      }
      var simScore := scoringFunction(q, c);
      if simScore <= 0.0 {
        continue;
      }
      totals, simSums := AccumulateFeatures(d, c, simScore, features, totals, simSums);
    }
    assert categories[..|categories|] == categories;
    AddCategoriesValid(d, scoringFunction, q, features, categories);
  }

  /** The ranking list of `TopNFeatureRecommendations`: each accumulated feature with total / simSum. */
  method FeatureAverages(totals: Dict<string, real>, simSums: Dict<string, real>) returns (rankedFeatures: seq<Score>)
    requires AccValid(Accumulators(totals, simSums))
    ensures rankedFeatures == FeatureScores(Accumulators(totals, simSums), totals.keys)
  {
    rankedFeatures := [];
    var keys := totals.keys;
    for k := 0 to |keys|
      invariant rankedFeatures == FeatureScores(Accumulators(totals, simSums), keys[..k])
    {
      var feature := keys[k];
      assert keys[..k + 1][..k] == keys[..k];
      rankedFeatures := rankedFeatures + [Score(feature, Div(totals.items[feature], simSums.items[feature]))];
    }
    assert keys[..|keys|] == keys;
  }

  /** The inner loop of `TopNFeatureRecommendations`: adds `c`'s weighted values of the features `features` does not list. */
  method AccumulateFeatures(d: Dataset, c: string, simScore: real, features: seq<string>, totals0: Dict<string, real>, simSums0: Dict<string, real>)
    returns (totals: Dict<string, real>, simSums: Dict<string, real>)
    ensures Accumulators(totals, simSums) == AddFeatures(Accumulators(totals0, simSums0), d, c, simScore, features, GetFeatureNamesInCategory(d, c))
  {
    totals, simSums := totals0, simSums0;
    var candidates := GetFeatureNamesInCategory(d, c);
    for j := 0 to |candidates|
      invariant Accumulators(totals, simSums) == AddFeatures(Accumulators(totals0, simSums0), d, c, simScore, features, candidates[..j])
    {
      var feature := candidates[j];
      AddFeaturesStep(Accumulators(totals0, simSums0), d, c, simScore, features, candidates, j);
      if feature !in features {
        // value * simScore
        var weighted := Weighted(d, c, feature, simScore);
        totals := AddOrIncrease(totals, feature, weighted);
        simSums := AddOrIncrease(simSums, feature, simScore);
      }
    }
    assert candidates[..|candidates|] == candidates;
  }

  /** `if (!m.ContainsKey(k)) m[k] = delta; else m[k] += delta;`: both branches come to `Put`. */
  method AddOrIncrease(m: Dict<string, real>, k: string, delta: real) returns (r: Dict<string, real>)
    ensures r == Increase(m, k, delta)
  {
    if k !in m.items {
      r := m.Put(k, delta);
    } else {
      r := m.Put(k, m.items[k] + delta);
    }
  }

  /** The nested loops of `EuclideanDistanceScore`: the squared differences over the shared features. */
  method SumOfSquares(rowA: Row, rowB: Row) returns (sumOfSquares: real)
    requires rowA.Valid() && rowB.Valid()
    ensures sumOfSquares == Sums(rowA, rowB, rowA.keys).sqDiff
  {
    var featuresA, featuresB := rowA.keys, rowB.keys;
    sumOfSquares := 0.0;
    for i := 0 to |featuresA|
      invariant sumOfSquares == Sums(rowA, rowB, featuresA[..i]).sqDiff
    {
      var fa := featuresA[i];
      SumsStep(rowA, rowB, featuresA, i);
      for j := 0 to |featuresB|
        invariant sumOfSquares == Sums(rowA, rowB, featuresA[..i]).sqDiff
                                  + if OccursBefore(fa, featuresB, j) then Term(rowA, rowB, fa).sqDiff else 0.0
      {
        var fb := featuresB[j];
        OccursStep(fa, featuresB, j);
        if fa == fb {
          var valueA, valueB := rowA.items[fa], rowB.items[fb];
          assert Term(rowA, rowB, fa).sqDiff == Square(valueA - valueB);
          sumOfSquares := sumOfSquares + Square(valueA - valueB);
        }
      }
      OccursAll(fa, featuresB);
    }
    assert featuresA[..|featuresA|] == featuresA;
  }

  /** The nested loops of `PearsonCorrelationScore`: count, sums, sums of squares and of products over the shared features. */
  method PearsonSums(rowA: Row, rowB: Row)
    returns (n: int, sumA: real, sumB: real, sumOfSquaresA: real, sumOfSquaresB: real, sumOfProducts: real)
    requires rowA.Valid() && rowB.Valid()
    ensures var st := Sums(rowA, rowB, rowA.keys);
            && n == st.n && sumA == st.sumA && sumB == st.sumB
            && sumOfSquaresA == st.sqA && sumOfSquaresB == st.sqB && sumOfProducts == st.prod
  {
    var featuresA, featuresB := rowA.keys, rowB.keys;
    n, sumA, sumB, sumOfSquaresA, sumOfSquaresB, sumOfProducts := 0, 0.0, 0.0, 0.0, 0.0, 0.0;
    for i := 0 to |featuresA|
      invariant var st := Sums(rowA, rowB, featuresA[..i]);
                && n == st.n && sumA == st.sumA && sumB == st.sumB
                && sumOfSquaresA == st.sqA && sumOfSquaresB == st.sqB && sumOfProducts == st.prod
    {
      var fa := featuresA[i];
      SumsStep(rowA, rowB, featuresA, i);
      ghost var before := Sums(rowA, rowB, featuresA[..i]);
      for j := 0 to |featuresB|
        invariant var st := if OccursBefore(fa, featuresB, j) then Add(before, Term(rowA, rowB, fa)) else before;
                  && n == st.n && sumA == st.sumA && sumB == st.sumB
                  && sumOfSquaresA == st.sqA && sumOfSquaresB == st.sqB && sumOfProducts == st.prod
      {
        var fb := featuresB[j];
        OccursStep(fa, featuresB, j);
        if fa == fb {
          var valueA, valueB := rowA.items[fa], rowB.items[fb];
          sumA := sumA + valueA;
          sumB := sumB + valueB;
          sumOfSquaresA := sumOfSquaresA + Square(valueA);
          sumOfSquaresB := sumOfSquaresB + Square(valueB);
          sumOfProducts := sumOfProducts + Product(valueA, valueB);
          n := n + 1;
        }
      }
      OccursAll(fa, featuresB);
    }
    assert featuresA[..|featuresA|] == featuresA;
  }

  /** The nested loops of `TanimotoSimilarityScore`: how many features both rows hold. */
  method CountShared(rowA: Row, rowB: Row) returns (sharedFeaturesCount: int)
    requires rowA.Valid() && rowB.Valid()
    ensures sharedFeaturesCount == Sums(rowA, rowB, rowA.keys).n
  {
    var featuresA, featuresB := rowA.keys, rowB.keys;
    sharedFeaturesCount := 0;
    for i := 0 to |featuresA|
      invariant sharedFeaturesCount == Sums(rowA, rowB, featuresA[..i]).n
    {
      var fa := featuresA[i];
      SumsStep(rowA, rowB, featuresA, i);
      for j := 0 to |featuresB|
        invariant sharedFeaturesCount == Sums(rowA, rowB, featuresA[..i]).n + if OccursBefore(fa, featuresB, j) then 1 else 0
      {
        var fb := featuresB[j];
        OccursStep(fa, featuresB, j);
        if fa == fb {
          sharedFeaturesCount := sharedFeaturesCount + 1;
        }
      }
      OccursAll(fa, featuresB);
    }
    assert featuresA[..|featuresA|] == featuresA;
  }
}
