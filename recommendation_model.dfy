/**
 * What the four recommendation operations compute, as functions of the
 * dataset: the similarity-weighted prediction of one value, and the three
 * ranked lists. `sim(a, b)` is the similarity score the caller passes in;
 * every property here holds whatever that score is.
 */
module RecommendationModel {
  import opened Doubles
  import opened Dictionaries
  import opened Datasets
  import opened Similarity
  import opened Ranking

  // ----- predicting one value -----

  /** Category `c` counts towards predicting `q`'s value for `f`. */
  predicate Contributes(d: Dataset, sim: (string, string) -> real, q: string, f: string, c: string) {
    c != q && sim(q, c) > 0.0 && ContainsFeatureInCategory(d, c, f)
  }

  /** The similarity-weighted sum of values and the sum of similarities. */
  datatype Totals = Totals(total: real, simSum: real)

  /** The value category `c` gives feature `f`, weighted by the similarity `w`. */
  function Weighted(d: Dataset, c: string, f: string, w: real): real {
    GetValueForFeatureInCategory(d, c, f) * w
  }

  /** The two running sums `PredictFeatureValueForCategory` keeps, over the categories `cats`. */
  function PredictionTotals(d: Dataset, sim: (string, string) -> real, q: string, f: string, cats: seq<string>): Totals
    decreases |cats|
  {
    if cats == [] then Totals(0.0, 0.0)
    else
      var t := PredictionTotals(d, sim, q, f, cats[..|cats| - 1]);
      var c := cats[|cats| - 1];
      if c == q then t
      else
        var w := sim(q, c);
        if w <= 0.0 then t
        else if ContainsFeatureInCategory(d, c, f) then
          Totals(t.total + Weighted(d, c, f, w), t.simSum + w)
        else t
  }

  /** `total / simSum` over all categories: non-finite (0/0) when nothing contributes. */
  function Prediction(d: Dataset, sim: (string, string) -> real, q: string, f: string): Double {
    var t := PredictionTotals(d, sim, q, f, d.keys);
    Div(t.total, t.simSum)
  }

  /**
   * The similarity sum is positive exactly when some category contributes;
   * with none, both sums are 0.
   */
  lemma {:induction false} PredictionTotalsPositive(d: Dataset, sim: (string, string) -> real, q: string, f: string, cats: seq<string>)
    ensures var t := PredictionTotals(d, sim, q, f, cats);
            && t.simSum >= 0.0
            && (t.simSum > 0.0 <==> exists c | c in cats :: Contributes(d, sim, q, f, c))
            && (t.simSum == 0.0 ==> t.total == 0.0)
    decreases |cats|
  {
    if cats != [] {
      var init := cats[..|cats| - 1];
      var c := cats[|cats| - 1];
      assert cats == init + [c];
      PredictionTotalsPositive(d, sim, q, f, init);
      if Contributes(d, sim, q, f, c) {
        assert c in cats;
      } else {
        assert forall c' | c' in cats :: c' in init || c' == c;
      }
    }
  }

  /** The weighted sum lies between `lo` and `hi` times the sum of the weights. */
  ghost predicate ScaledBounds(t: Totals, lo: real, hi: real) {
    lo * t.simSum <= t.total <= hi * t.simSum
  }

  /** When every contributed value lies in [lo, hi], the weighted sum lies in [lo * simSum, hi * simSum]. */
  lemma {:induction false} PredictionTotalsBetween(d: Dataset, sim: (string, string) -> real, q: string, f: string, cats: seq<string>, lo: real, hi: real)
    requires forall c | c in cats && Contributes(d, sim, q, f, c) ::
               lo <= GetValueForFeatureInCategory(d, c, f) <= hi
    ensures ScaledBounds(PredictionTotals(d, sim, q, f, cats), lo, hi)
    decreases |cats|
  {
    if cats != [] {
      var init := cats[..|cats| - 1];
      var c := cats[|cats| - 1];
      assert cats == init + [c];
      PredictionTotalsBetween(d, sim, q, f, init, lo, hi);
      var t := PredictionTotals(d, sim, q, f, init);
      if Contributes(d, sim, q, f, c) {
        var w := sim(q, c);
        assert PredictionTotals(d, sim, q, f, cats) == Totals(t.total + Weighted(d, c, f, w), t.simSum + w);
        BoundsStep(t, lo, hi, d, c, f, w);
      } else {
        assert PredictionTotals(d, sim, q, f, cats) == t;
      }
    }
  }

  /** Adding one weighted value in [lo, hi] keeps the weighted sum between lo and hi times the weights. */
  lemma BoundsStep(t: Totals, lo: real, hi: real, d: Dataset, c: string, f: string, w: real)
    requires ScaledBounds(t, lo, hi)
    requires lo <= GetValueForFeatureInCategory(d, c, f) <= hi && w > 0.0
    ensures ScaledBounds(Totals(t.total + Weighted(d, c, f, w), t.simSum + w), lo, hi)
  {
    var v := GetValueForFeatureInCategory(d, c, f);
    ScaleBetween(lo, v, hi, w);
    assert lo * (t.simSum + w) == lo * t.simSum + lo * w;
    assert hi * (t.simSum + w) == hi * t.simSum + hi * w;
  }

  lemma ScaleBetween(lo: real, v: real, hi: real, k: real)
    requires lo <= v <= hi && k > 0.0
    ensures lo * k <= v * k <= hi * k
  {
  }

  /**
   * The prediction is finite exactly when some other category with positive
   * similarity holds the feature, and then it lies between the smallest and
   * largest value those categories hold.
   */
  lemma PredictionBetween(d: Dataset, sim: (string, string) -> real, q: string, f: string, lo: real, hi: real)
    requires forall c | c in d.keys && Contributes(d, sim, q, f, c) ::
               lo <= GetValueForFeatureInCategory(d, c, f) <= hi
    ensures Prediction(d, sim, q, f).Finite? <==>
              exists c | c in d.keys :: Contributes(d, sim, q, f, c)
    ensures Prediction(d, sim, q, f).Finite? ==> lo <= Prediction(d, sim, q, f).value <= hi
  {
    PredictionTotalsPositive(d, sim, q, f, d.keys);
    PredictionTotalsBetween(d, sim, q, f, d.keys, lo, hi);
    var t := PredictionTotals(d, sim, q, f, d.keys);
    if t.simSum > 0.0 {
      DivideBetween(lo, t.total, hi, t.simSum);
    }
  }

  lemma DivideBetween(lo: real, x: real, hi: real, k: real)
    requires k > 0.0 && lo * k <= x <= hi * k
    ensures lo <= x / k <= hi
  {
    assert (x / k) * k == x;
    if x / k < lo {
      ScaleStrict(x / k, lo, k);
    }
    if x / k > hi {
      ScaleStrict(hi, x / k, k);
    }
  }

  lemma ScaleStrict(x: real, y: real, k: real)
    requires x < y && k > 0.0
    ensures x * k < y * k
  {
  }

  /** With no contributing category both sums stay 0, and the division is 0/0 (NaN). */
  lemma PredictionUndefined(d: Dataset, sim: (string, string) -> real, q: string, f: string)
    requires forall c | c in d.keys :: !Contributes(d, sim, q, f, c)
    ensures PredictionTotals(d, sim, q, f, d.keys) == Totals(0.0, 0.0)
    ensures Prediction(d, sim, q, f) == NonFinite
  {
    PredictionTotalsPositive(d, sim, q, f, d.keys);
  }

  // ----- top-N similar categories -----

  /** `scoreList` of `TopNCategoryRecommendations`: every other category with its similarity to `q`. */
  function CategoryScores(d: Dataset, sim: (string, string) -> real, q: string, cats: seq<string>): seq<Score>
    decreases |cats|
  {
    if cats == [] then []
    else
      var init := CategoryScores(d, sim, q, cats[..|cats| - 1]);
      var c := cats[|cats| - 1];
      if c == q then init else init + [Score(c, Finite(sim(q, c)))]
  }

  /** The result of `TopNCategoryRecommendations(q, n, m)`. */
  function TopNCategories(d: Dataset, sim: (string, string) -> real, q: string, n: nat): seq<Score> {
    TopN(CategoryScores(d, sim, q, d.keys), n)
  }

  lemma {:induction false} CategoryScoresNames(d: Dataset, sim: (string, string) -> real, q: string, cats: seq<string>)
    requires Distinct(cats)
    ensures var s := CategoryScores(d, sim, q, cats);
            && Unique(s)
            && Names(s) == (set c | c in cats) - {q}
            && |s| == (if q in cats then |cats| - 1 else |cats|)
            && forall y | y in s :: y.value == Finite(sim(q, y.name))
    decreases |cats|
  {
    if cats != [] {
      var init := cats[..|cats| - 1];
      var c := cats[|cats| - 1];
      assert cats == init + [c];
      DistinctInit(cats);
      CategoryScoresNames(d, sim, q, init);
      var s0 := CategoryScores(d, sim, q, init);
      if c != q {
        SnocNames(s0, Score(c, Finite(sim(q, c))));
      }
    }
  }

  /** Appending a score with a new name keeps names unique and adds that name. */
  lemma SnocNames(s: seq<Score>, x: Score)
    ensures Names(s + [x]) == Names(s) + {x.name}
    ensures Unique(s) && x.name !in Names(s) ==> Unique(s + [x])
  {
    var t := s + [x];
    forall nm | nm in Names(t) ensures nm in Names(s) + {x.name} {
      var i :| 0 <= i < |t| && t[i].name == nm;
      if i < |s| { assert s[i].name == nm; }
    }
    forall nm | nm in Names(s) ensures nm in Names(t) {
      var i :| 0 <= i < |s| && s[i].name == nm;
      assert t[i].name == nm;
    }
    assert t[|s|].name == x.name;
    if Unique(s) && x.name !in Names(s) {
      forall i, j | 0 <= i < j < |t| ensures t[i].name != t[j].name {
        if j == |s| {
          assert t[i].name == s[i].name && s[i].name in Names(s);
        } else {
          assert t[i] == s[i] && t[j] == s[j];
        }
      }
    }
  }

  /**
   * `TopNCategoryRecommendations` lists other categories only, each once,
   * with its similarity to `q`, non-increasing; there are min(n, number of
   * other categories) of them and no category left out is more similar
   * than one listed.
   */
  lemma TopNCategoriesSpec(d: Dataset, sim: (string, string) -> real, q: string, n: nat)
    requires WellFormed(d)
    ensures var r := TopNCategories(d, sim, q, n);
            var others := if ContainsCategory(d, q) then |d.keys| - 1 else |d.keys|;
            && |r| == (if n < others then n else others)
            && Descending(r)
            && Unique(r)
            && (forall y | y in r :: y.name != q && ContainsCategory(d, y.name)
                                     && y.value == Finite(sim(q, y.name)))
            && forall x, y | x in multiset(CategoryScores(d, sim, q, d.keys)) - multiset(r) && y in r ::
                 AtMost(x.value, y.value)
  {
    var s := CategoryScores(d, sim, q, d.keys);
    CategoryScoresNames(d, sim, q, d.keys);
    TopNIsTop(s, n);
    TopNNames(s, n);
    var r := TopNCategories(d, sim, q, n);
    forall y | y in r ensures y.name != q && ContainsCategory(d, y.name) {
      NameIn(s, y);
    }
  }

  // ----- top-N unseen features -----

  /** A dictionary's value for `k`, 0.0 when absent. */
  function Lookup(m: Dict<string, real>, k: string): real {
    if k in m.items then m.items[k] else 0.0
  }

  /** `m[k] += delta`, a missing entry starting from 0.0. */
  function Increase(m: Dict<string, real>, k: string, delta: real): Dict<string, real> {
    m.Put(k, Lookup(m, k) + delta)
  }

  /** `totals` and `simSums` of `TopNFeatureRecommendations`. */
  datatype Accumulators = Accumulators(totals: Dict<string, real>, simSums: Dict<string, real>)

  /**
   * One feature `g` of category `c`, with weight `w`, added to both
   * dictionaries; a missing entry starts from 0.0, which is what storing
   * the first product outright amounts to.
   */
  function AddFeature(acc: Accumulators, d: Dataset, c: string, w: real, g: string): Accumulators {
    Accumulators(Increase(acc.totals, g, Weighted(d, c, g, w)), Increase(acc.simSums, g, w))
  }

  /** The inner loop: the features `gs` of `c` that `q` does not hold. */
  function AddFeatures(acc: Accumulators, d: Dataset, c: string, w: real, exclude: seq<string>, gs: seq<string>): Accumulators
    decreases |gs|
  {
    if gs == [] then acc
    else
      var a := AddFeatures(acc, d, c, w, exclude, gs[..|gs| - 1]);
      var g := gs[|gs| - 1];
      if g in exclude then a else AddFeature(a, d, c, w, g)
  }

  /** One more feature for the inner loop. */
  lemma AddFeaturesStep(acc: Accumulators, d: Dataset, c: string, w: real, exclude: seq<string>, gs: seq<string>, j: int)
    requires 0 <= j < |gs|
    ensures AddFeatures(acc, d, c, w, exclude, gs[..j + 1]) ==
            if gs[j] in exclude then AddFeatures(acc, d, c, w, exclude, gs[..j])
            else AddFeature(AddFeatures(acc, d, c, w, exclude, gs[..j]), d, c, w, gs[j])
  {
    assert gs[..j + 1][..j] == gs[..j];
  }

  /** The outer loop over the categories `cats`. */
  function AddCategories(d: Dataset, sim: (string, string) -> real, q: string, exclude: seq<string>, cats: seq<string>): Accumulators
    decreases |cats|
  {
    if cats == [] then Accumulators(Empty(), Empty())
    else
      var a := AddCategories(d, sim, q, exclude, cats[..|cats| - 1]);
      var c := cats[|cats| - 1];
      if c == q then a
      else
        var w := sim(q, c);
        if w <= 0.0 then a else AddFeatures(a, d, c, w, exclude, GetFeatureNamesInCategory(d, c))
  }

  /** `rankedFeatures` before sorting: each accumulated feature with `totals[f] / simSums[f]`. */
  function FeatureScores(acc: Accumulators, keys: seq<string>): seq<Score>
    decreases |keys|
  {
    if keys == [] then []
    else
      var g := keys[|keys| - 1];
      FeatureScores(acc, keys[..|keys| - 1]) + [Score(g, Div(Lookup(acc.totals, g), Lookup(acc.simSums, g)))]
  }

  /** Both loops of `TopNFeatureRecommendations`, over every category, skipping what `q` holds. */
  function FeatureAccumulators(d: Dataset, sim: (string, string) -> real, q: string): Accumulators {
    AddCategories(d, sim, q, GetFeatureNamesInCategory(d, q), d.keys)
  }

  /** `rankedFeatures` before sorting. */
  function FeatureCandidates(d: Dataset, sim: (string, string) -> real, q: string): seq<Score> {
    var acc := FeatureAccumulators(d, sim, q);
    FeatureScores(acc, acc.totals.keys)
  }

  /** The result of `TopNFeatureRecommendations(q, n, m)`. */
  function TopNFeatures(d: Dataset, sim: (string, string) -> real, q: string, n: nat): seq<Score> {
    TopN(FeatureCandidates(d, sim, q), n)
  }

  /** Both dictionaries are well formed and hold the same keys. */
  ghost predicate AccValid(acc: Accumulators) {
    acc.totals.Valid() && acc.simSums.Valid() && acc.totals.items.Keys == acc.simSums.items.Keys
  }

  /** The inner loop keeps both dictionaries well formed and adds exactly the listed features not excluded. */
  lemma {:induction false} AddFeaturesKeys(acc: Accumulators, d: Dataset, c: string, w: real, exclude: seq<string>, gs: seq<string>)
    ensures AccValid(acc) ==> AccValid(AddFeatures(acc, d, c, w, exclude, gs))
    ensures AddFeatures(acc, d, c, w, exclude, gs).totals.items.Keys ==
              acc.totals.items.Keys + set g | g in gs && g !in exclude
    decreases |gs|
  {
    if gs != [] {
      var init := gs[..|gs| - 1];
      var x := gs[|gs| - 1];
      assert gs == init + [x];
      AddFeaturesKeys(acc, d, c, w, exclude, init);
      var a := AddFeatures(acc, d, c, w, exclude, init);
      if x !in exclude {
        AddFeatureKeys(a, d, c, w, x);
        assert (set g | g in gs && g !in exclude) == (set g | g in init && g !in exclude) + {x};
      } else {
        assert (set g | g in gs && g !in exclude) == (set g | g in init && g !in exclude);
      }
    }
  }

  /** The inner loop adds `v * sim` and `sim` once for every listed feature not excluded, and nothing else. */
  lemma {:induction false} AddFeaturesLookup(acc: Accumulators, d: Dataset, c: string, w: real, exclude: seq<string>, gs: seq<string>, g: string)
    requires Distinct(gs)
    ensures Lookup(AddFeatures(acc, d, c, w, exclude, gs).totals, g) ==
              Lookup(acc.totals, g) + if g in gs && g !in exclude then Weighted(d, c, g, w) else 0.0
    ensures Lookup(AddFeatures(acc, d, c, w, exclude, gs).simSums, g) ==
              Lookup(acc.simSums, g) + if g in gs && g !in exclude then w else 0.0
    decreases |gs|
  {
    if gs != [] {
      var init := gs[..|gs| - 1];
      var x := gs[|gs| - 1];
      assert gs == init + [x];
      DistinctInit(gs);
      AddFeaturesLookup(acc, d, c, w, exclude, init, g);
      var a := AddFeatures(acc, d, c, w, exclude, init);
      if x !in exclude {
        AddFeatureLookup(a, d, c, w, x, g);
      }
    }
  }

  /** One feature keeps both dictionaries well formed and adds its key to both. */
  lemma AddFeatureKeys(acc: Accumulators, d: Dataset, c: string, w: real, x: string)
    ensures AccValid(acc) ==> AccValid(AddFeature(acc, d, c, w, x))
    ensures AddFeature(acc, d, c, w, x).totals.items.Keys == acc.totals.items.Keys + {x}
  {
    PutLookup(acc.totals, x, Weighted(d, c, x, w), x);
    PutLookup(acc.simSums, x, w, x);
  }

  /** One feature adds its weighted value and its weight under its own key, and nothing elsewhere. */
  lemma AddFeatureLookup(acc: Accumulators, d: Dataset, c: string, w: real, x: string, g: string)
    ensures Lookup(AddFeature(acc, d, c, w, x).totals, g) ==
              Lookup(acc.totals, g) + if g == x then Weighted(d, c, x, w) else 0.0
    ensures Lookup(AddFeature(acc, d, c, w, x).simSums, g) ==
              Lookup(acc.simSums, g) + if g == x then w else 0.0
  {
    PutLookup(acc.totals, x, Weighted(d, c, x, w), g);
    PutLookup(acc.simSums, x, w, g);
  }

  /** Raising the value under `x` by `delta`, a missing value counting as 0.0. */
  lemma PutLookup(m: Dict<string, real>, x: string, delta: real, g: string)
    ensures m.Valid() ==> m.Put(x, Lookup(m, x) + delta).Valid()
    ensures m.Put(x, Lookup(m, x) + delta).items.Keys == m.items.Keys + {x}
    ensures Lookup(m.Put(x, Lookup(m, x) + delta), g) == Lookup(m, g) + if g == x then delta else 0.0
  {
  }

  /** One more category, in the terms of the two loops' bodies. */
  lemma PredictionTotalsSnoc(d: Dataset, sim: (string, string) -> real, q: string, f: string, init: seq<string>, c: string)
    ensures PredictionTotals(d, sim, q, f, init + [c]).total == PredictionTotals(d, sim, q, f, init).total +
              if Contributes(d, sim, q, f, c) then Weighted(d, c, f, sim(q, c)) else 0.0
    ensures PredictionTotals(d, sim, q, f, init + [c]).simSum == PredictionTotals(d, sim, q, f, init).simSum +
              if Contributes(d, sim, q, f, c) then sim(q, c) else 0.0
  {
    assert (init + [c])[..|init + [c]| - 1] == init;
  }

  lemma AddCategoriesSnoc(d: Dataset, sim: (string, string) -> real, q: string, exclude: seq<string>, init: seq<string>, c: string)
    ensures AddCategories(d, sim, q, exclude, init + [c]) ==
              var a := AddCategories(d, sim, q, exclude, init);
              if c != q && sim(q, c) > 0.0 then AddFeatures(a, d, c, sim(q, c), exclude, GetFeatureNamesInCategory(d, c))
              else a
  {
    assert (init + [c])[..|init + [c]| - 1] == init;
  }

  /** `PredictionTotalsSnoc` at the i-th category of `cats`. */
  lemma PredictionTotalsStep(d: Dataset, sim: (string, string) -> real, q: string, f: string, cats: seq<string>, i: int)
    requires 0 <= i < |cats|
    ensures PredictionTotals(d, sim, q, f, cats[..i + 1]).total == PredictionTotals(d, sim, q, f, cats[..i]).total +
              if Contributes(d, sim, q, f, cats[i]) then Weighted(d, cats[i], f, sim(q, cats[i])) else 0.0
    ensures PredictionTotals(d, sim, q, f, cats[..i + 1]).simSum == PredictionTotals(d, sim, q, f, cats[..i]).simSum +
              if Contributes(d, sim, q, f, cats[i]) then sim(q, cats[i]) else 0.0
  {
    assert cats[..i + 1][..i] == cats[..i];
  }

  /** `AddCategoriesSnoc` at the i-th category of `cats`. */
  lemma AddCategoriesStep(d: Dataset, sim: (string, string) -> real, q: string, exclude: seq<string>, cats: seq<string>, i: int)
    requires 0 <= i < |cats|
    ensures AddCategories(d, sim, q, exclude, cats[..i + 1]) ==
              var a := AddCategories(d, sim, q, exclude, cats[..i]);
              if cats[i] != q && sim(q, cats[i]) > 0.0 then AddFeatures(a, d, cats[i], sim(q, cats[i]), exclude, GetFeatureNamesInCategory(d, cats[i]))
              else a
  {
    assert cats[..i + 1][..i] == cats[..i];
  }

  /** The outer loop keeps both dictionaries well formed with the same keys. */
  lemma {:induction false} AddCategoriesValid(d: Dataset, sim: (string, string) -> real, q: string, exclude: seq<string>, cats: seq<string>)
    ensures AccValid(AddCategories(d, sim, q, exclude, cats))
    decreases |cats|
  {
    if cats != [] {
      var init := cats[..|cats| - 1];
      var c := cats[|cats| - 1];
      AddCategoriesValid(d, sim, q, exclude, init);
      var a := AddCategories(d, sim, q, exclude, init);
      if c != q && sim(q, c) > 0.0 {
        AddFeaturesKeys(a, d, c, sim(q, c), exclude, GetFeatureNamesInCategory(d, c));
      }
    }
  }

  /** A feature not excluded is accumulated exactly when some category of `cats` contributes to it. */
  lemma {:induction false} AddCategoriesMember(d: Dataset, sim: (string, string) -> real, q: string, exclude: seq<string>, cats: seq<string>, g: string)
    requires WellFormed(d)
    ensures g in AddCategories(d, sim, q, exclude, cats).totals.items <==>
              g !in exclude && exists c | c in cats :: Contributes(d, sim, q, g, c)
    decreases |cats|
  {
    if cats != [] {
      var init := cats[..|cats| - 1];
      var c := cats[|cats| - 1];
      assert cats == init + [c];
      AddCategoriesMember(d, sim, q, exclude, init, g);
      var a := AddCategories(d, sim, q, exclude, init);
      AddCategoriesSnoc(d, sim, q, exclude, init, c);
      if c != q && sim(q, c) > 0.0 {
        var gs := GetFeatureNamesInCategory(d, c);
        AddFeaturesKeys(a, d, c, sim(q, c), exclude, gs);
        assert g in gs <==> ContainsFeatureInCategory(d, c, g);
      }
      if Contributes(d, sim, q, g, c) {
        assert c in cats;
      } else {
        assert forall c' | c' in cats :: c' in init || c' == c;
      }
    }
  }

  /**
   * The two sums accumulated for a feature not excluded are those
   * `PredictFeatureValueForCategory` computes for it.
   */
  lemma {:induction false} AddCategoriesSums(d: Dataset, sim: (string, string) -> real, q: string, exclude: seq<string>, cats: seq<string>, g: string)
    requires WellFormed(d) && g !in exclude
    ensures Lookup(AddCategories(d, sim, q, exclude, cats).totals, g) == PredictionTotals(d, sim, q, g, cats).total
    ensures Lookup(AddCategories(d, sim, q, exclude, cats).simSums, g) == PredictionTotals(d, sim, q, g, cats).simSum
    decreases |cats|
  {
    if cats != [] {
      var init := cats[..|cats| - 1];
      var c := cats[|cats| - 1];
      assert cats == init + [c];
      AddCategoriesSums(d, sim, q, exclude, init, g);
      PredictionTotalsSnoc(d, sim, q, g, init, c);
      AddCategoriesSnoc(d, sim, q, exclude, init, c);
      if c != q && sim(q, c) > 0.0 {
        var gs := GetFeatureNamesInCategory(d, c);
        AddFeaturesLookup(AddCategories(d, sim, q, exclude, init), d, c, sim(q, c), exclude, gs, g);
        assert g in gs <==> ContainsFeatureInCategory(d, c, g);
      }
    }
  }

  /** One score per accumulated key, each name once, each valued `totals[g] / simSums[g]`. */
  lemma {:induction false} FeatureScoresNames(acc: Accumulators, keys: seq<string>)
    requires Distinct(keys)
    ensures Unique(FeatureScores(acc, keys))
    ensures Names(FeatureScores(acc, keys)) == set g | g in keys
    ensures |FeatureScores(acc, keys)| == |keys|
    ensures forall y | y in FeatureScores(acc, keys) :: y.value == Div(Lookup(acc.totals, y.name), Lookup(acc.simSums, y.name))
    decreases |keys|
  {
    if keys != [] {
      var init := keys[..|keys| - 1];
      var g := keys[|keys| - 1];
      assert keys == init + [g];
      DistinctInit(keys);
      FeatureScoresNames(acc, init);
      var s0 := FeatureScores(acc, init);
      var x := Score(g, Div(Lookup(acc.totals, g), Lookup(acc.simSums, g)));
      assert FeatureScores(acc, keys) == s0 + [x];
      assert Names(s0 + [x]) == set h | h in keys by {
        SnocNames(s0, x);
        assert (set h | h in keys) == (set h | h in init) + {g};
      }
      assert Unique(s0 + [x]) by {
        SnocNames(s0, x);
      }
      forall y | y in s0 + [x] ensures y.value == Div(Lookup(acc.totals, y.name), Lookup(acc.simSums, y.name)) {
        if y != x {
          assert y in s0;
        }
      }
    }
  }

  /** The features some other category recommends: held by a contributing category, not by `q`. */
  ghost function Unseen(d: Dataset, sim: (string, string) -> real, q: string): set<string> {
    set c, g | c in d.items && g in d.items[c].items &&
               !ContainsFeatureInCategory(d, q, g) && Contributes(d, sim, q, g, c) :: g
  }

  /** An accumulated feature is one `q` lacks, and its score is the prediction for it, a finite one. */
  lemma FeatureCandidateValue(d: Dataset, sim: (string, string) -> real, q: string, g: string)
    requires WellFormed(d)
    ensures var acc := FeatureAccumulators(d, sim, q);
            g in acc.totals.items <==> g in Unseen(d, sim, q)
    ensures var acc := FeatureAccumulators(d, sim, q);
            g in acc.totals.items ==>
              && !ContainsFeatureInCategory(d, q, g)
              && Div(Lookup(acc.totals, g), Lookup(acc.simSums, g)) == Prediction(d, sim, q, g)
              && Prediction(d, sim, q, g).Finite?
  {
    var exclude := GetFeatureNamesInCategory(d, q);
    assert g !in exclude <==> !ContainsFeatureInCategory(d, q, g);
    AddCategoriesMember(d, sim, q, exclude, d.keys, g);
    if g in Unseen(d, sim, q) {
      var c :| c in d.items && g in d.items[c].items &&
               !ContainsFeatureInCategory(d, q, g) && Contributes(d, sim, q, g, c);
      assert c in d.keys;
    }
    if g in FeatureAccumulators(d, sim, q).totals.items {
      var c :| c in d.keys && Contributes(d, sim, q, g, c);
      assert c in d.items && g in d.items[c].items;
      AddCategoriesSums(d, sim, q, exclude, d.keys, g);
      PredictionTotalsPositive(d, sim, q, g, d.keys);
    }
  }

  /** The candidates: one per unseen feature, each with its finite prediction. */
  lemma FeatureCandidatesSpec(d: Dataset, sim: (string, string) -> real, q: string)
    requires WellFormed(d)
    ensures Unique(FeatureCandidates(d, sim, q))
    ensures Names(FeatureCandidates(d, sim, q)) == Unseen(d, sim, q)
    ensures |FeatureCandidates(d, sim, q)| == |Unseen(d, sim, q)|
    ensures forall y | y in FeatureCandidates(d, sim, q) ::
              !ContainsFeatureInCategory(d, q, y.name) && y.value.Finite? && y.value == Prediction(d, sim, q, y.name)
  {
    var acc := FeatureAccumulators(d, sim, q);
    var s := FeatureCandidates(d, sim, q);
    var keys := set g | g in acc.totals.keys;
    assert Unique(s) && Names(s) == keys && |s| == |acc.totals.keys| && |keys| == |acc.totals.keys| by {
      AddCategoriesValid(d, sim, q, GetFeatureNamesInCategory(d, q), d.keys);
      FeatureScoresNames(acc, acc.totals.keys);
      DistinctCard(acc.totals.keys);
    }
    assert keys == Unseen(d, sim, q) by {
      AddCategoriesValid(d, sim, q, GetFeatureNamesInCategory(d, q), d.keys);
      forall g ensures g in acc.totals.items <==> g in Unseen(d, sim, q) {
        FeatureCandidateValue(d, sim, q, g);
      }
    }
    forall y | y in s
      ensures !ContainsFeatureInCategory(d, q, y.name) && y.value.Finite? && y.value == Prediction(d, sim, q, y.name)
    {
      assert y.value == Div(Lookup(acc.totals, y.name), Lookup(acc.simSums, y.name)) && y.name in acc.totals.items by {
        AddCategoriesValid(d, sim, q, GetFeatureNamesInCategory(d, q), d.keys);
        FeatureScoresNames(acc, acc.totals.keys);
        NameIn(s, y);
      }
      FeatureCandidateValue(d, sim, q, y.name);
    }
  }

  /**
   * `TopNFeatureRecommendations` lists only features `q` does not hold and
   * some other category of positive similarity does, each once, each with
   * exactly the value `PredictFeatureValueForCategory(q, f)` predicts (and
   * a finite one), non-increasing; there are min(n, number of such features)
   * of them and none left out is predicted higher than one listed.
   */
  lemma TopNFeaturesSpec(d: Dataset, sim: (string, string) -> real, q: string, n: nat)
    requires WellFormed(d)
    ensures var r := TopNFeatures(d, sim, q, n);
            var u := Unseen(d, sim, q);
            && |r| == (if n < |u| then n else |u|)
            && Descending(r)
            && Unique(r)
            && (forall y | y in r :: y.name in u && !ContainsFeatureInCategory(d, q, y.name)
                                     && y.value.Finite? && y.value == Prediction(d, sim, q, y.name))
            && forall x, y | x in multiset(FeatureCandidates(d, sim, q)) - multiset(r) && y in r ::
                 AtMost(x.value, y.value)
  {
    var s := FeatureCandidates(d, sim, q);
    FeatureCandidatesSpec(d, sim, q);
    TopNIsTop(s, n);
    TopNNames(s, n);
    forall y | y in TopNFeatures(d, sim, q, n) ensures y.name in Unseen(d, sim, q) {
      NameIn(s, y);
    }
  }

  // ----- top-N categories for a feature -----

  /** A holder's own value for `f`, and for any other category the value predicted for it. */
  function HolderValue(d: Dataset, sim: (string, string) -> real, f: string, c: string): Double {
    if ContainsFeatureInCategory(d, c, f) then Finite(GetValueForFeatureInCategory(d, c, f))
    else Prediction(d, sim, c, f)
  }

  /** `scoreList` of `TopNCategoriesForFeature`: holders with their value, others predicted if asked. */
  function HolderScores(d: Dataset, sim: (string, string) -> real, f: string, includePredictions: bool, cats: seq<string>): seq<Score>
    decreases |cats|
  {
    if cats == [] then []
    else
      var init := HolderScores(d, sim, f, includePredictions, cats[..|cats| - 1]);
      var c := cats[|cats| - 1];
      if ContainsFeatureInCategory(d, c, f) || includePredictions then init + [Score(c, HolderValue(d, sim, f, c))]
      else init
  }

  /** The result of `TopNCategoriesForFeature(f, n, m, includePredictions)`. */
  function TopNHolders(d: Dataset, sim: (string, string) -> real, f: string, n: nat, includePredictions: bool): seq<Score> {
    TopN(HolderScores(d, sim, f, includePredictions, d.keys), n)
  }

  /** The listed categories, each once. */
  lemma {:induction false} HolderScoresNames(d: Dataset, sim: (string, string) -> real, f: string, includePredictions: bool, cats: seq<string>)
    requires Distinct(cats)
    ensures Unique(HolderScores(d, sim, f, includePredictions, cats))
    ensures Names(HolderScores(d, sim, f, includePredictions, cats)) ==
              set c | c in cats && (includePredictions || ContainsFeatureInCategory(d, c, f))
    decreases |cats|
  {
    if cats != [] {
      var init := cats[..|cats| - 1];
      var c := cats[|cats| - 1];
      DistinctInit(cats);
      HolderScoresNames(d, sim, f, includePredictions, init);
      ListedSnoc(d, f, includePredictions, cats);
      var s0 := HolderScores(d, sim, f, includePredictions, init);
      if includePredictions || ContainsFeatureInCategory(d, c, f) {
        SnocNames(s0, Score(c, HolderValue(d, sim, f, c)));
      }
    }
  }

  /** One more category is listed when it holds the feature or predictions are asked for. */
  lemma ListedSnoc(d: Dataset, f: string, includePredictions: bool, cats: seq<string>)
    requires cats != []
    ensures var c := cats[|cats| - 1];
            (set c' | c' in cats && (includePredictions || ContainsFeatureInCategory(d, c', f))) ==
            (set c' | c' in cats[..|cats| - 1] && (includePredictions || ContainsFeatureInCategory(d, c', f))) +
            (if includePredictions || ContainsFeatureInCategory(d, c, f) then {c} else {})
  {
    assert cats == cats[..|cats| - 1] + [cats[|cats| - 1]];
  }

  /** Each listed category carries its stored value or its prediction. */
  lemma {:induction false} HolderScoresValues(d: Dataset, sim: (string, string) -> real, f: string, includePredictions: bool, cats: seq<string>)
    ensures forall y | y in HolderScores(d, sim, f, includePredictions, cats) ::
              y.value == HolderValue(d, sim, f, y.name)
    decreases |cats|
  {
    if cats != [] {
      HolderScoresValues(d, sim, f, includePredictions, cats[..|cats| - 1]);
    }
  }

  /**
   * `TopNCategoriesForFeature` lists each category at most once, non-increasing
   * (NaN predictions last). Without predictions it lists only categories
   * holding the feature, each with its stored value; with them, every
   * category, the others with their prediction. It has min(n, that many)
   * entries and nothing left out scores higher than an entry.
   */
  lemma TopNHoldersSpec(d: Dataset, sim: (string, string) -> real, f: string, n: nat, includePredictions: bool)
    requires WellFormed(d)
    ensures var r := TopNHolders(d, sim, f, n, includePredictions);
            var listed := set c | c in d.items && (includePredictions || ContainsFeatureInCategory(d, c, f));
            && |r| == (if n < |listed| then n else |listed|)
            && Descending(r)
            && Unique(r)
            && (forall y | y in r :: y.name in listed && y.value == HolderValue(d, sim, f, y.name))
            && forall x, y | x in multiset(HolderScores(d, sim, f, includePredictions, d.keys)) - multiset(r)
                             && y in r :: AtMost(x.value, y.value)
  {
    var s := HolderScores(d, sim, f, includePredictions, d.keys);
    var r := TopNHolders(d, sim, f, n, includePredictions);
    var listed := set c | c in d.items && (includePredictions || ContainsFeatureInCategory(d, c, f));
    HolderListSpec(d, sim, f, includePredictions);
    assert |r| == (if n < |s| then n else |s|) && Descending(r)
           && forall x: Score, y | x in multiset(s) - multiset(r) && y in r :: AtMost(x.value, y.value) by {
      TopNIsTop(s, n);
    }
    assert Unique(r) && forall y | y in r :: y.name in listed && y.value == HolderValue(d, sim, f, y.name) by {
      TopNNames(s, n);
      forall y | y in r ensures y.name in listed && y.value == HolderValue(d, sim, f, y.name) {
        NameIn(s, y);
      }
    }
  }

  /** The unsorted list of `TopNCategoriesForFeature`: each listed category once, with its value. */
  lemma HolderListSpec(d: Dataset, sim: (string, string) -> real, f: string, includePredictions: bool)
    requires WellFormed(d)
    ensures var s := HolderScores(d, sim, f, includePredictions, d.keys);
            var listed := set c | c in d.items && (includePredictions || ContainsFeatureInCategory(d, c, f));
            && Names(s) == listed && Unique(s) && |listed| == |s|
            && forall y | y in s :: y.value == HolderValue(d, sim, f, y.name)
  {
    var s := HolderScores(d, sim, f, includePredictions, d.keys);
    HolderScoresNames(d, sim, f, includePredictions, d.keys);
    HolderScoresValues(d, sim, f, includePredictions, d.keys);
    UniqueCard(s);
  }

  /** Unique names are as many as the scores. */
  lemma {:induction false} UniqueCard(s: seq<Score>)
    requires Unique(s)
    ensures |Names(s)| == |s|
  {
    if s != [] {
      var init := s[..|s| - 1];
      var x := s[|s| - 1];
      assert s == init + [x];
      assert Unique(init) by {
        forall i, j | 0 <= i < j < |init| ensures init[i].name != init[j].name {
          assert init[i] == s[i] && init[j] == s[j];
        }
      }
      assert x.name !in Names(init) by {
        forall i | 0 <= i < |init| ensures init[i].name != x.name {
          assert init[i] == s[i];
        }
      }
      SnocNames(init, x);
      UniqueCard(init);
    }
  }
}
