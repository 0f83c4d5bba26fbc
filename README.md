# CSharpClassifier in Dafny

A model of the two engines of CSharpClassifier, with proofs of the properties
their code promises.

- **CollaborativeFiltering.** `Recommendations` owns a dataset that maps
  category -> feature -> value. It scores how alike two categories are with
  three scores: Euclidean, Pearson and Tanimoto. It then ranks similar
  categories, recommends features a category lacks, ranks categories for a
  feature, and predicts a feature's value for a category.
- **BayesianClassifier.** `NaiveBayes<T>` counts training rounds per
  category in a `CategoryDictionary`. It counts (feature, category)
  occurrences in a `FeatureDictionary<T>`, which holds one
  `CategoryDictionary` per feature. From these counts it computes
  per-feature, weighted, common and per-category probabilities. `Classify`
  picks the most probable category, or the default one.

The model follows the source's own form:

- Classes whose methods update fields in place become Dafny classes:
  `Recommendations`, `CategoryDictionary`, `FeatureDictionary` and
  `NaiveBayes`.
- Each loop of the source is a loop with invariants.
- Every method is proved against a pure function of the state it starts
  from. The properties the source promises are proved about those
  functions as lemmas.

Files:

- `dictionaries.dfy`: a .NET `Dictionary` as `Dict`, a map together with
  the insertion order of its keys. The source never removes a key, so that
  order is the enumeration order.
- `doubles.dfy`: a double as a real, or `NonFinite` for the NaN or
  infinity of a zero divisor.
- `datasets.dfy`: the dataset functions.
- `similarity.dfy`: the three scores.
- `ranking.dfy`: sort, reverse and truncate.
- `recommendation_model.dfy`: prediction and the three rankings.
- `recommendations.dfy`: the `Recommendations` class.
- `counting.dfy`: sums of counts.
- `category_dictionary.dfy`, `feature_dictionary.dfy`: the two count
  stores.
- `bayes_model.dfy`: the probabilities over a `Snapshot` of the counts.
- `naive_bayes.dfy`: the `NaiveBayes` class.

Lookups such as `GetValue` insert a zero entry on a miss. The classifier's
methods therefore promise new counts that are `Equivalent` to the old ones
(equal everywhere but in zero entries), not identical to them.

The classifier computes the weighted probability by the formula the code
writes (see Findings). `BayesModel` builds every probability over a
`Formula` parameter: `AsWritten` is what `NaiveBayes` computes, `Intended`
is the corrected formula. Every lemma about the product, the category
probability and the scan holds for both.

## Model

| member | source | states |
|---|---|---|
| Datasets.ContainsCategory | CollaborativeFiltering/Recommendations.cs:30-33 | true exactly for a stored category, and so exactly for a name `GetCategoryNames` lists |
| Datasets.ContainsFeatureInCategory | CollaborativeFiltering/Recommendations.cs:35-38 | false for an absent category; for a present one, true exactly for the features `GetFeatureNamesInCategory` lists |
| Datasets.GetCategoryNames | CollaborativeFiltering/Recommendations.cs:48-51 | every stored category exactly once |
| Datasets.GetFeatureNamesInCategory | CollaborativeFiltering/Recommendations.cs:53-63 | empty for an absent category; otherwise each of its features exactly once |
| Datasets.GetValueForFeatureInCategory | CollaborativeFiltering/Recommendations.cs:79-89 | 0.0 when the category or the feature is absent, the stored value otherwise |
| Datasets.WithCategory | CollaborativeFiltering/Recommendations.cs:40-46 | the category is present afterwards and the dataset stays well formed |
| Datasets.WithCategoryExisting | CollaborativeFiltering/Recommendations.cs:40-46 | adding a category that is already present changes nothing |
| Datasets.WithCategoryLookups | CollaborativeFiltering/Recommendations.cs:40-46 | a new category is appended to the names; no feature lookup changes |
| Datasets.WithValue | CollaborativeFiltering/Recommendations.cs:65-77 | setting a value keeps the dataset well formed |
| Datasets.WithValueLookups | CollaborativeFiltering/Recommendations.cs:65-77 | the value reads back; every other (category, feature) lookup is unchanged |
| Datasets.WithValueCategories | CollaborativeFiltering/Recommendations.cs:65-77 | the category names grow by the category only when it was absent |
| CollaborativeFiltering.Recommendations.constructor | CollaborativeFiltering/Recommendations.cs:23-26 | starts from the empty dataset |
| CollaborativeFiltering.Recommendations.AddCategory | CollaborativeFiltering/Recommendations.cs:40-46 | the new dataset is `WithCategory` of the old one |
| CollaborativeFiltering.Recommendations.AddValueForFeatureToCategory | CollaborativeFiltering/Recommendations.cs:65-77 | the new dataset is `WithValue` of the old one; both the add and the overwrite branch |
| CollaborativeFiltering.Recommendations.EuclideanDistanceScore | CollaborativeFiltering/Recommendations.cs:108-138 | computes `Similarity.Euclidean` of the dataset |
| CollaborativeFiltering.SumOfSquares | CollaborativeFiltering/Recommendations.cs:115-130 | the nested loops sum the squared differences over exactly the shared features |
| Similarity.Sums | CollaborativeFiltering/Recommendations.cs:119-130 | the count of shared features and the sum of squared differences are never negative |
| Similarity.SumsPermutation | CollaborativeFiltering/Recommendations.cs:119-130 | the totals depend only on which features are shared, not on the enumeration order |
| Similarity.SumsUnshared | CollaborativeFiltering/Recommendations.cs:119-130 | with no shared feature every total is zero |
| Similarity.SumsSwap | CollaborativeFiltering/Recommendations.cs:119-130 | swapping the two categories swaps A's and B's totals and keeps the rest |
| Similarity.SumsSelf | CollaborativeFiltering/Recommendations.cs:119-130 | a category compared with itself has no squared difference |
| Similarity.SumsCount | CollaborativeFiltering/Recommendations.cs:119-130 | the count is the number of features both categories hold |
| Similarity.SharedCount | CollaborativeFiltering/Recommendations.cs:203-213 | for two present categories the count is the size of the intersection of their feature sets |
| Similarity.SharedSwap | CollaborativeFiltering/Recommendations.cs:119-130 | the shared totals of (b, a) are the swapped totals of (a, b), although the loops run over different features |
| Similarity.EuclideanRange | CollaborativeFiltering/Recommendations.cs:108-138 | the score lies in [0, 1); it is 0.0 exactly when a category is unknown or the squared differences sum to 0 |
| Similarity.EuclideanZeroCases | CollaborativeFiltering/Recommendations.cs:132-135 | no shared features gives 0.0, and so does a category compared with itself |
| Similarity.EuclideanSymmetric | CollaborativeFiltering/Recommendations.cs:108-138 | the score of (a, b) equals that of (b, a) |
| CollaborativeFiltering.Recommendations.PearsonCorrelationScore | CollaborativeFiltering/Recommendations.cs:140-191 | computes `Similarity.Pearson` of the dataset, including the `n == 0` and zero-denominator guards |
| CollaborativeFiltering.PearsonSums | CollaborativeFiltering/Recommendations.cs:147-172 | the nested loops compute n, both sums, both sums of squares and the sum of products over exactly the shared features |
| Similarity.PearsonZeroCases | CollaborativeFiltering/Recommendations.cs:140-178 | 0.0 for an unknown category, and 0.0 when the categories share no feature |
| Similarity.PearsonOfSwap | CollaborativeFiltering/Recommendations.cs:180-190 | the coefficient computed from the totals is symmetric in the two categories |
| Similarity.PearsonSymmetric | CollaborativeFiltering/Recommendations.cs:140-191 | the score of (a, b) equals that of (b, a) |
| CollaborativeFiltering.Recommendations.TanimotoSimilarityScore | CollaborativeFiltering/Recommendations.cs:193-226 | computes `Similarity.Tanimoto` of the dataset |
| CollaborativeFiltering.CountShared | CollaborativeFiltering/Recommendations.cs:203-213 | the nested loops count exactly the shared features |
| Similarity.TanimotoIsJaccard | CollaborativeFiltering/Recommendations.cs:215-225 | the score is `\|A∩B\| / \|A∪B\|` (0.0 when both are empty) and lies in [0, 1] |
| Similarity.TanimotoSymmetric | CollaborativeFiltering/Recommendations.cs:193-226 | the score of (a, b) equals that of (b, a) |
| Similarity.SimUnknown | CollaborativeFiltering/Recommendations.cs:108-113 | every built-in score is 0.0 when a category is unknown |
| CollaborativeFiltering.Recommendations.ScoringFunction | CollaborativeFiltering/Recommendations.cs:5 | a built-in score used as the `SimilarityScore` delegate computes that score |
| CollaborativeFiltering.Recommendations.PredictFeatureValueForCategory | CollaborativeFiltering/Recommendations.cs:376-406 | computes `RecommendationModel.Prediction`, stopping the inner scan at the first match |
| RecommendationModel.PredictionTotalsPositive | CollaborativeFiltering/Recommendations.cs:376-406 | simSum is non-negative and positive exactly when some other category with positive similarity holds the feature; with simSum 0 the total is 0 |
| RecommendationModel.PredictionBetween | CollaborativeFiltering/Recommendations.cs:376-406 | the prediction is finite exactly when some category contributes, and it then lies in [lo, hi] whenever every contributing value does |
| RecommendationModel.PredictionTotalsBetween | CollaborativeFiltering/Recommendations.cs:382-403 | lo·simSum <= total <= hi·simSum whenever every contributing value lies in [lo, hi] |
| RecommendationModel.PredictionUndefined | CollaborativeFiltering/Recommendations.cs:405 | with no contributing category the division is 0/0, which is non-finite |
| CollaborativeFiltering.Recommendations.TopNCategoryRecommendations | CollaborativeFiltering/Recommendations.cs:233-259 | computes `RecommendationModel.TopNCategories` |
| RecommendationModel.CategoryScoresNames | CollaborativeFiltering/Recommendations.cs:235-246 | the unsorted list names every category but the query once, each with its score |
| RecommendationModel.TopNCategoriesSpec | CollaborativeFiltering/Recommendations.cs:233-259 | min(n, number of other categories) entries, never the query, each category at most once, each with its score, non-increasing, and no category left out scores higher than one kept |
| CollaborativeFiltering.Ranked | CollaborativeFiltering/Recommendations.cs:248-258 | the sorted, reversed and truncated list is `Ranking.TopN` of the input, so `TopNIsTop` and `TopNNames` hold of it |
| Ranking.SortIsDescending | CollaborativeFiltering/Recommendations.cs:248-249 | sorting by `CompareTo` then reversing gives a non-increasing list, with non-finite scores after every finite one |
| Ranking.SortMultiset | CollaborativeFiltering/Recommendations.cs:248-249 | the sorted list is a permutation of the input |
| Ranking.SortNames | CollaborativeFiltering/Recommendations.cs:248-249 | sorting keeps the set of names |
| Ranking.SortKeepsUnique | CollaborativeFiltering/Recommendations.cs:248-249 | sorting a list without repeated names repeats none |
| Ranking.Truncate | CollaborativeFiltering/Recommendations.cs:251-258 | a prefix of length min(n, count) |
| Ranking.TopNIsTop | CollaborativeFiltering/Recommendations.cs:248-258 | min(n, count) entries, non-increasing, drawn from the input, and nothing dropped scores above anything kept |
| Ranking.PrefixIsTop | CollaborativeFiltering/Recommendations.cs:251-258 | a prefix of a non-increasing list is non-increasing and dominates what it leaves out |
| Ranking.TopNNames | CollaborativeFiltering/Recommendations.cs:248-258 | every kept entry comes from the input, and no name is repeated if none was |
| Ranking.TopNTieOrder | CollaborativeFiltering/Recommendations.cs:248-253 | of two equal scores the model ranks the one found first ahead, so a top-1 list keeps it |
| CollaborativeFiltering.Recommendations.TopNFeatureRecommendations | CollaborativeFiltering/Recommendations.cs:262-327 | computes `RecommendationModel.TopNFeatures` |
| CollaborativeFiltering.AccumulateCategories | CollaborativeFiltering/Recommendations.cs:271-305 | the outer loop skips the query and every category of similarity <= 0, and leaves `AddCategories` of the dataset in both dictionaries |
| CollaborativeFiltering.AccumulateFeatures | CollaborativeFiltering/Recommendations.cs:281-303 | the inner loop adds value·score and score for each feature the query lacks |
| CollaborativeFiltering.AddOrIncrease | CollaborativeFiltering/Recommendations.cs:286-301 | the first sight of a key sets it; later ones add to it; both come to `m[k] + delta` with 0.0 for a missing key |
| CollaborativeFiltering.FeatureAverages | CollaborativeFiltering/Recommendations.cs:307-314 | one score per accumulated feature, in key order, valued `totals[f] / simSums[f]` |
| RecommendationModel.AddFeaturesKeys | CollaborativeFiltering/Recommendations.cs:281-303 | both dictionaries stay well formed with equal key sets, growing by exactly the features not excluded |
| RecommendationModel.AddFeaturesLookup | CollaborativeFiltering/Recommendations.cs:281-303 | a feature's total grows by value·score and its simSum by score exactly when it is listed and not excluded |
| RecommendationModel.AddCategoriesValid | CollaborativeFiltering/Recommendations.cs:271-305 | the two dictionaries always hold the same keys, so `simSums[feature]` never misses |
| RecommendationModel.AddCategoriesMember | CollaborativeFiltering/Recommendations.cs:271-305 | a feature is accumulated exactly when the query lacks it and some other category with positive similarity holds it |
| RecommendationModel.AddCategoriesSums | CollaborativeFiltering/Recommendations.cs:271-305 | a feature's accumulated total and simSum are those `PredictFeatureValueForCategory` computes for it |
| RecommendationModel.FeatureScoresNames | CollaborativeFiltering/Recommendations.cs:307-314 | each key once, valued total / simSum |
| RecommendationModel.FeatureCandidateValue | CollaborativeFiltering/Recommendations.cs:262-314 | an accumulated feature is one the query lacks, and its score is the finite prediction for it |
| RecommendationModel.FeatureCandidatesSpec | CollaborativeFiltering/Recommendations.cs:262-314 | the unsorted list holds each recommendable feature exactly once, never one the query has, each scored by its prediction |
| RecommendationModel.TopNFeaturesSpec | CollaborativeFiltering/Recommendations.cs:262-327 | min(n, recommendable features) entries, none the query has, unique, each scored by its finite prediction, non-increasing, and no dropped feature scores higher |
| CollaborativeFiltering.Recommendations.TopNCategoriesForFeature | CollaborativeFiltering/Recommendations.cs:332-373 | computes `RecommendationModel.TopNHolders`, `break`ing at the first match |
| RecommendationModel.HolderScoresNames | CollaborativeFiltering/Recommendations.cs:336-360 | each category listed at most once: those holding the feature, and all of them when predictions are included |
| RecommendationModel.HolderScoresValues | CollaborativeFiltering/Recommendations.cs:336-360 | a holder of the feature is scored by its stored value, any other category by its prediction |
| RecommendationModel.HolderListSpec | CollaborativeFiltering/Recommendations.cs:336-360 | the unsorted list has exactly as many entries as listed categories, each once, each with its value |
| RecommendationModel.TopNHoldersSpec | CollaborativeFiltering/Recommendations.cs:332-373 | min(n, listed categories) entries, unique, only holders when predictions are off, each with its stored or predicted value, non-increasing, nothing dropped above anything kept |
| CategoryDictionaries.CategoryDictionary.constructor | BayesianClassifier/CategoryDictionary.cs:9-12 | no categories |
| CategoryDictionaries.CategoryDictionary.WithEntry | BayesianClassifier/CategoryDictionary.cs:14-18 | exactly one key, with the given value |
| CategoryDictionaries.CategoryDictionary.AddKeyValuePair | BayesianClassifier/CategoryDictionary.cs:20-30 | the key now holds the value, no other key changes, and a new key is appended to the order |
| CategoryDictionaries.CategoryDictionary.IncrementValue | BayesianClassifier/CategoryDictionary.cs:32-41 | the count of the key is its old count plus one (0 when absent), nothing else changes, and the sum of values grows by exactly 1 |
| CategoryDictionaries.CategoryDictionary.GetCategories | BayesianClassifier/CategoryDictionary.cs:43-46 | every stored category exactly once |
| CategoryDictionaries.CategoryDictionary.GetValue | BayesianClassifier/CategoryDictionary.cs:48-56 | the old count, 0 on a miss, which inserts key -> 0 and leaves the sum of values unchanged |
| CategoryDictionaries.CategoryDictionary.GetSumOfValues | BayesianClassifier/CategoryDictionary.cs:58-68 | the sum of all stored values, 0 when empty |
| Counting.MapSumUpdate | BayesianClassifier/CategoryDictionary.cs:58-68 | overwriting one entry changes the sum by the difference |
| Counting.SeqSumIsMapSum | BayesianClassifier/FeatureDictionary.cs:55-68 | summing a row category by category in enumeration order gives its order-free sum |
| FeatureDictionaries.FeatureDictionary.constructor | BayesianClassifier/FeatureDictionary.cs:9-12 | no features |
| FeatureDictionaries.FeatureDictionary.AddElement | BayesianClassifier/FeatureDictionary.cs:14-24 | an absent feature gets the single entry c -> v; a present one has its entry for c set to v; nothing else changes |
| FeatureDictionaries.FeatureDictionary.AddRow | BayesianClassifier/FeatureDictionary.cs:18 | a fresh row for an absent feature is appended, and no other row changes |
| FeatureDictionaries.FeatureDictionary.RowPut | BayesianClassifier/FeatureDictionary.cs:22 | only the one entry of the one row changes; the feature order is kept |
| FeatureDictionaries.FeatureDictionary.EnsureRow | BayesianClassifier/FeatureDictionary.cs:28-31 | an absent feature gets the row c -> 0, appended to the order; a present one is untouched |
| FeatureDictionaries.FeatureDictionary.RowIncrement | BayesianClassifier/FeatureDictionary.cs:32 | raising the row's entry raises exactly (f, c); the feature order is kept |
| FeatureDictionaries.FeatureDictionary.RowGet | BayesianClassifier/FeatureDictionary.cs:52 | the row's old count for c, 0 on a miss, which fills in only that zero entry |
| FeatureDictionaries.FeatureDictionary.IncrementValue | BayesianClassifier/FeatureDictionary.cs:26-33 | the (f, c) count rises by exactly 1 from 0 or its old value, and no other count changes |
| FeatureDictionaries.IncrementAfterFill | BayesianClassifier/FeatureDictionary.cs:28-32 | creating the row c -> 0 first and then raising (f, c) is the same as raising (f, c) |
| FeatureDictionaries.FeatureDictionary.GetFeatures | BayesianClassifier/FeatureDictionary.cs:35-38 | exactly the stored features, each once |
| FeatureDictionaries.FeatureDictionary.GetCategoriesForFeature | BayesianClassifier/FeatureDictionary.cs:40-43 | requires a present feature (the indexer throws otherwise); its categories, each once |
| FeatureDictionaries.FeatureDictionary.GetCategoryValue | BayesianClassifier/FeatureDictionary.cs:45-53 | the old (f, c) count, 0 when f or c is absent; the only change is the zero entries filled in |
| FeatureDictionaries.ZeroFilledSame | BayesianClassifier/FeatureDictionary.cs:45-53 | the zero entries a lookup fills in change no count and no row sum |
| FeatureDictionaries.GetAfterFill | BayesianClassifier/FeatureDictionary.cs:47-52 | creating the row c -> 0 before the lookup changes neither the value read nor the state left |
| FeatureDictionaries.FeatureDictionary.GetSumOfAllValues | BayesianClassifier/FeatureDictionary.cs:55-68 | the sum of the feature's counts, 0 when it is absent, with the counts unchanged |
| NaiveBayesClassifier.NaiveBayes.constructor | BayesianClassifier/NaiveBayes.cs:11-18 | untrained, weight 1.0, assumed probability 1.0, default "Unclassified" |
| NaiveBayesClassifier.NaiveBayes.WithParameters | BayesianClassifier/NaiveBayes.cs:20-27 | untrained, with the given weight and assumed probability, default "Unclassified" |
| NaiveBayesClassifier.NaiveBayes.WithDefault | BayesianClassifier/NaiveBayes.cs:29-36 | untrained, weight 1.0, assumed probability 1.0, the given default |
| NaiveBayesClassifier.NaiveBayes.WithAll | BayesianClassifier/NaiveBayes.cs:38-45 | untrained, with all three given |
| NaiveBayesClassifier.NaiveBayes.SetAssumedProb | BayesianClassifier/NaiveBayes.cs:69-72 | sets the assumed probability; the weight and the default are unchanged |
| NaiveBayesClassifier.NaiveBayes.SetWeight | BayesianClassifier/NaiveBayes.cs:74-77 | sets the weight; the other two are unchanged |
| NaiveBayesClassifier.NaiveBayes.SetDefaultCategory | BayesianClassifier/NaiveBayes.cs:79-82 | sets the default; the other two are unchanged |
| NaiveBayesClassifier.NaiveBayes.IncrementFeatureCount | BayesianClassifier/NaiveBayes.cs:84-87 | raises (feature, category) by one and no other feature count; the category store is outside what it may modify, so the category counts and their order stay |
| NaiveBayesClassifier.NaiveBayes.IncrementCategoryCount | BayesianClassifier/NaiveBayes.cs:89-92 | raises the category's count by one and changes no other count; a category seen for the first time is appended to the order `Classify` scans, and the order is otherwise kept |
| NaiveBayesClassifier.NaiveBayes.GetFeaturesCategoryValue | BayesianClassifier/NaiveBayes.cs:94-97 | the (feature, category) count, with the state left equivalent; the category store is outside what it may modify |
| NaiveBayesClassifier.NaiveBayes.GetCategoryValue | BayesianClassifier/NaiveBayes.cs:99-102 | the category count, with the state left equivalent; a missing category is appended to the scan order |
| NaiveBayesClassifier.NaiveBayes.Train | BayesianClassifier/NaiveBayes.cs:114-122 | the feature counts become `TrainAll` of the listed features and the category count rises by one; a category seen for the first time is appended to the order `Classify` scans, and the order is otherwise kept |
| BayesModel.TrainAllCount | BayesianClassifier/NaiveBayes.cs:114-122 | (g, c) rises by the number of occurrences of g in the list, so duplicates count twice; no other category's counts change |
| BayesModel.TrainAllRowSum | BayesianClassifier/NaiveBayes.cs:114-122 | a feature's row sum rises by its number of occurrences |
| BayesModel.TrainAllNonNegative | BayesianClassifier/NaiveBayes.cs:114-122 | training keeps every count non-negative |
| NaiveBayesClassifier.NaiveBayes.TrainFeature | BayesianClassifier/NaiveBayes.cs:124-128 | raises (feature, category) and the category count by exactly one each; a category seen for the first time is appended to the order `Classify` scans, and the order is otherwise kept |
| BayesModel.TrainAllSingle | BayesianClassifier/NaiveBayes.cs:114-128 | training on one feature alone is training on the one-element list |
| NaiveBayesClassifier.NaiveBayes.FeatureProbability | BayesianClassifier/NaiveBayes.cs:133-143 | 0.0 for a category count of 0, otherwise count(f, c) / count(c), read from the starting counts although the lookups insert zeros; a missing category is appended to the scan order |
| NaiveBayesClassifier.NaiveBayes.WeightedProbability | BayesianClassifier/NaiveBayes.cs:148-154 | computes `BayesModel.Weighted(AsWritten, …)`, the formula as line 153 writes it (see Findings); a missing category is appended to the scan order |
| BayesModel.WeightedBetween | BayesianClassifier/NaiveBayes.cs:153 | the corrected half of the Findings row: with a positive weight the intended weighted probability is finite and lies between the assumed and the observed probability |
| BayesModel.WeightedUnseen | BayesianClassifier/NaiveBayes.cs:153 | the corrected half of the Findings row: under the intended formula a feature never seen gets the assumed probability |
| BayesModel.IntendedBetween | BayesianClassifier/NaiveBayes.cs:153 | the intended average (corrected half of the Findings row) lies between its two terms |
| BayesModel.IntendedUnseen | BayesianClassifier/NaiveBayes.cs:153 | with no observations the intended average (corrected half of the Findings row) is the assumed probability |
| BayesModel.WeightedAsWrittenUnseen | BayesianClassifier/NaiveBayes.cs:148-154 | the weighted probability the classifier computes is 0.0 for a feature never seen, whatever the assumed probability |
| BayesModel.WeightedAsWrittenCounterexample | BayesianClassifier/NaiveBayes.cs:153 | one training round of "f" in "c": the formula as written gives 0.5 where the intended one gives 1.0 |
| BayesModel.WeightedAsWrittenNonNegative | BayesianClassifier/NaiveBayes.cs:148-154 | with a positive weight and a non-negative assumed probability, the weighted probability the classifier computes is finite and never negative |
| BayesModel.FeatureProbNonNegative | BayesianClassifier/NaiveBayes.cs:133-143 | the basic probability is never negative |
| NaiveBayesClassifier.NaiveBayes.CommonAppearanceProbability | BayesianClassifier/NaiveBayes.cs:159-169 | computes `BayesModel.CommonProb(AsWritten, …)`: 1.0 for no features, otherwise the product of the as-written weighted probabilities; a missing category is appended to the scan order unless the list is empty |
| BayesModel.CommonProbAppend | BayesianClassifier/NaiveBayes.cs:159-169 | the product over two concatenated lists is the product of their products |
| BayesModel.CommonProbDefined | BayesianClassifier/NaiveBayes.cs:159-169 | the product is finite exactly when every factor is |
| BayesModel.CommonProbZeroFactor | BayesianClassifier/NaiveBayes.cs:159-169 | one factor 0.0 makes the product 0.0 or non-finite |
| BayesModel.CommonProbSingle | BayesianClassifier/NaiveBayes.cs:159-169 | the product for one feature is 1.0 times its weighted probability |
| NaiveBayesClassifier.NaiveBayes.Probability | BayesianClassifier/NaiveBayes.cs:174-180 | computes `BayesModel.Prob(AsWritten, …)`: count(c) / sum of counts, times the common probability; a missing category is appended to the scan order |
| BayesModel.IncrementedNonNegative | BayesianClassifier/NaiveBayes.cs:84-87 | raising a feature count keeps every count non-negative |
| BayesModel.RaiseCategoryNonNegative | BayesianClassifier/NaiveBayes.cs:89-92 | raising a category count keeps every count non-negative |
| BayesModel.WeightedEquivalent | BayesianClassifier/NaiveBayes.cs:148-154 | inserted zero entries change no weighted probability |
| BayesModel.CommonProbEquivalent | BayesianClassifier/NaiveBayes.cs:159-169 | inserted zero entries change no product of weighted probabilities |
| BayesModel.ProbUntrained | BayesianClassifier/NaiveBayes.cs:176 | before any training the share is 0/0, non-finite |
| BayesModel.ProbEquivalent | BayesianClassifier/NaiveBayes.cs:174-180 | inserted zero entries change no probability |
| BayesModel.EquivalentNonNegative | BayesianClassifier/CategoryDictionary.cs:48-56 | inserted zero entries keep every count non-negative |
| BayesModel.ZeroFilledEquivalent | BayesianClassifier/FeatureDictionary.cs:45-53 | a feature lookup leaves counts equivalent to the old ones |
| BayesModel.CategoryFilledEquivalent | BayesianClassifier/CategoryDictionary.cs:48-56 | a category lookup leaves counts equivalent to the old ones |
| NaiveBayesClassifier.NaiveBayes.Classify | BayesianClassifier/NaiveBayes.cs:182-200 | computes `BayesModel.Classification(AsWritten, …)` over the categories in enumeration order, from the default and 0.0, and leaves that order as it was |
| BayesModel.PickStep | BayesianClassifier/NaiveBayes.cs:189-197 | each category replaces the best only when its probability is strictly greater |
| BayesModel.PickIsMax | BayesianClassifier/NaiveBayes.cs:189-197 | the running maximum is at least 0.0 and at least every finite probability |
| BayesModel.PickWitness | BayesianClassifier/NaiveBayes.cs:189-197 | either no probability exceeds 0.0 and the answer is (0.0, default), or the answer is a category whose probability is the positive maximum and every earlier category's probability is strictly below it |
| BayesModel.ClassificationIsDefaultOrKey | BayesianClassifier/NaiveBayes.cs:182-200 | the answer is the default or a trained category |
| BayesModel.ClassificationDefault | BayesianClassifier/NaiveBayes.cs:182-200 | when no category has probability > 0 the answer is the default |
| BayesModel.ClassificationArgmax | BayesianClassifier/NaiveBayes.cs:182-200 | when some category has probability > 0 the answer has the largest probability, and every earlier category a strictly smaller one, so ties go to the earliest |
| BayesModel.ClassificationSingle | BayesianClassifier/NaiveBayes.cs:182-200 | with one category of positive probability, Classify returns it |
| BayesModel.ClassificationAsWrittenUnseen | BayesianClassifier/NaiveBayes.cs:153 | as written, a single feature never seen in training makes Classify return the default, whatever the other features |
| BayesModel.ClassificationAsWrittenCounterexample | BayesianClassifier/NaiveBayes.cs:153 | after one training of "f" in "c" on the default parameters, Classify(["g"]) gives "Unclassified" as written, "c" as intended |
| BayesModel.IntendedClassifiesUnseen | BayesianClassifier/NaiveBayes.cs:153 | under the intended formula that same classifier returns "c" for ["g"] |

## Left out

- I/O and the console programs: `JsonSerialise`, `NaiveBayes.LoadClassifier` and `SaveClassifier`, and both console driver programs. They only read, write or print.
- `Math.Sqrt`: the Pearson score takes the square root as a parameter fixed when the recommender is built. `Pow(x, 2)` is `x * x`.
- Doubles are reals, so rounding is not modelled. Each IEEE-754 non-finite result is the single value `NonFinite`.
  - NaN comes from a division whose two operands are both zero.
  - An infinity comes from a non-zero value divided by zero. `>` could prefer an infinity where the model's `NonFinite` never wins.
  - An infinity needs `_weight + total == 0` with a non-zero numerator, which means a negative weight. A NaN radicand is not modelled either.
- Similarity.PearsonSymmetric: the Pearson score is not proved to lie in [-1, 1], because that needs properties of the square root the model leaves open.
- `SimilarityScore` delegates are pure functions from two names to a finite real. A delegate with side effects in `_dataset`, or one returning NaN, is not modelled.
- CollaborativeFiltering.Recommendations.TopNCategoryRecommendations: `n` is a `nat`; a negative `n` makes `List.GetRange` throw, and that path is not modelled.
- CollaborativeFiltering.Recommendations.TopNFeatureRecommendations: `n` is a `nat`, for the same reason.
- CollaborativeFiltering.Recommendations.TopNCategoriesForFeature: `n` is a `nat`, for the same reason.
- Ranking.SortIsDescending: `List.Sort` is an unstable sort, so the order it gives equal scores is not fixed by its documentation. The model sorts by insertion, which ranks tied scores in encounter order (`Ranking.TopNIsTop` and the `TopN*Spec` lemmas state only what any order has: non-increasing, a permutation, the top n dominate the rest).
- CollaborativeFiltering.Recommendations.TopNCategoryRecommendations: its equation with `RecommendationModel.TopNCategories` ranks tied scores in encounter order (see `Ranking.TopNTieOrder`). The documented unstable sort allows that order, but the .NET sort leaves equal elements of a short list in place, so after `Reverse` the program returns ties in reverse encounter order: for two candidates scoring 0.5 and n = 1 the program keeps the second, the model the first.
- CollaborativeFiltering.Recommendations.TopNFeatureRecommendations: its equation with `RecommendationModel.TopNFeatures` ranks tied scores in encounter order (see `Ranking.TopNTieOrder`). The documented unstable sort allows that order, but the .NET sort leaves equal elements of a short list in place, so after `Reverse` the program returns ties in reverse encounter order: for two candidates scoring 0.5 and n = 1 the program keeps the second, the model the first.
- CollaborativeFiltering.Recommendations.TopNCategoriesForFeature: its equation with `RecommendationModel.TopNHolders` ranks tied scores in encounter order (see `Ranking.TopNTieOrder`). The documented unstable sort allows that order, but the .NET sort leaves equal elements of a short list in place, so after `Reverse` the program returns ties in reverse encounter order: for two candidates scoring 0.5 and n = 1 the program keeps the second, the model the first.
- CollaborativeFiltering.Ranked: its equation with `Ranking.TopN` ranks tied scores in encounter order (see `Ranking.TopNTieOrder`). The documented unstable sort allows that order, but the .NET sort leaves equal elements of a short list in place, so after `Reverse` the program returns ties in reverse encounter order: for two candidates scoring 0.5 and n = 1 the program keeps the second, the model the first.
- CategoryDictionaries.CategoryDictionary.IncrementValue: counts are unbounded integers. The 32-bit wrap-around of `int` after 2^31 - 1 increments is not modelled.
- CategoryDictionaries.CategoryDictionary.GetSumOfValues: the LINQ `Sum` over `int` (BayesianClassifier/CategoryDictionary.cs:62) is checked and throws `OverflowException` once the total exceeds 2^31 - 1; the model's sum is unbounded and never fails.
- FeatureDictionaries.FeatureDictionary.GetSumOfAllValues: the unchecked `sum +=` (BayesianClassifier/FeatureDictionary.cs:63) wraps around past 2^31 - 1; the model's sum is unbounded.
- FeatureDictionaries.FeatureDictionary.GetCategoriesForFeature: the indexer at BayesianClassifier/FeatureDictionary.cs:42 throws `KeyNotFoundException` for an absent feature; the model does not represent the exception and instead requires the feature to be present.
- The nested loops of the three scores and the two loops of `TopNFeatureRecommendations` are written as module-level helper methods. Those are `SumOfSquares`, `PearsonSums`, `CountShared`, `AccumulateCategories`, `AccumulateFeatures` and `FeatureAverages`. The class methods call them with rows of the dataset. The loops' behaviour is the source's.
- `GetCategoriesSum` and `GetCategoryKeys` of `NaiveBayes` are one-line delegations. They are inlined into `Probability` and `Classify`.
- The single-feature `Train` overload is named `TrainFeature`, because Dafny has no overloading.

## Findings

| source | as written | input that shows it | evidently intended | confidence | as-written member | corrected member |
|---|---|---|---|---|---|---|
| BayesianClassifier/NaiveBayes.cs:153 | `((_weight * _assumedProbability) * (total * basicProbability)) / (_weight + total)` multiplies the prior by the evidence | weight 1.0, assumed probability 1.0, one training of feature "f" in category "c": the formula as written gives 0.5 where 1.0 is meant; for a feature never seen it gives 0.0 instead of the assumed probability, so after that training `Classify(["g"])` returns "Unclassified" where "c" is meant | `(weight * assumed + total * basic) / (weight + total)`, a weighted average that starts at the assumed probability and moves toward the observed one | not executed | BayesModel.WeightedAsWrittenCounterexample | BayesModel.WeightedBetween |
