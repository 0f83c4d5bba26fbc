/**
 * The arithmetic of BayesianClassifier/NaiveBayes.cs over a snapshot of
 * the classifier's counts: the per-feature probabilities, their product
 * over a feature list, the per-category probability and the argmax that
 * Classify computes. Doubles are modelled as reals; a quotient whose
 * divisor is zero (NaN or an infinity in IEEE-754) is `NonFinite`.
 */
module BayesModel {
  import opened Doubles
  import opened Counting
  import opened FeatureDictionaries

  /** What the probabilities read: both count stores and the two tuning parameters. */
  datatype Snapshot<T> = Snapshot(
    features: map<T, map<string, int>>,
    categories: map<string, int>,
    weight: real,
    assumed: real)

  /** Counts only ever start at zero and are raised, so none is negative. */
  ghost predicate NonNegative<T(!new)>(s: Snapshot<T>) {
    && (forall f, c :: FCount(s.features, f, c) >= 0)
    && (forall c :: Count(s.categories, c) >= 0)
  }

  /**
   * Two snapshots that no probability can tell apart: they differ at most
   * in entries holding 0, which the zero-inserting lookups add.
   */
  ghost predicate Equivalent<T(!new)>(a: Snapshot<T>, b: Snapshot<T>) {
    && a.weight == b.weight
    && a.assumed == b.assumed
    && (forall f, c :: FCount(a.features, f, c) == FCount(b.features, f, c))
    && (forall f :: RowSum(a.features, f) == RowSum(b.features, f))
    && (forall c :: Count(a.categories, c) == Count(b.categories, c))
    && MapSum(a.categories) == MapSum(b.categories)
  }

  /** FeatureProbability: count(f, c) / count(c), and 0.0 for an untrained category. */
  function FeatureProb<T>(s: Snapshot<T>, f: T, c: string): real {
    if Count(s.categories, c) == 0 then 0.0
    else FCount(s.features, f, c) as real / Count(s.categories, c) as real
  }

  /**
   * WeightedProbability's formula as the source writes it, over the weight
   * w, the assumed probability ap, the feature's total count and its basic
   * probability: the prior and the evidence are multiplied.
   */
  function AsWrittenFormula(w: real, ap: real, total: real, basic: real): Double {
    Div((w * ap) * (total * basic), w + total)
  }

  /**
   * WeightedProbability's formula as intended: the assumed probability
   * counts as w observations, averaged with the total real observations.
   */
  function IntendedFormula(w: real, ap: real, total: real, basic: real): Double {
    Div(w * ap + total * basic, w + total)
  }

  /**
   * Which weighted-probability formula the probabilities are built on: the
   * classifier computes `AsWritten`; `Intended` is the corrected one.
   */
  datatype Formula = AsWritten | Intended

  /** The weighted probability by `form`, from w, ap, the feature's total count and its basic probability. */
  function FormulaOf(form: Formula, w: real, ap: real, total: real, basic: real): Double {
    match form
    case AsWritten => AsWrittenFormula(w, ap, total, basic)
    case Intended => IntendedFormula(w, ap, total, basic)
  }

  /** WeightedProbability, by the formula `form`. */
  ghost function Weighted<T>(form: Formula, s: Snapshot<T>, f: T, c: string): Double {
    FormulaOf(form, s.weight, s.assumed, RowSum(s.features, f) as real, FeatureProb(s, f, c))
  }

  /** CommonAppearanceProbability: the product of the weighted probabilities, 1.0 for no features. */
  ghost function CommonProb<T>(form: Formula, s: Snapshot<T>, fs: seq<T>, c: string): Double
    decreases |fs|
  {
    if fs == [] then Finite(1.0)
    else Mul(CommonProb(form, s, fs[..|fs| - 1], c), Weighted(form, s, fs[|fs| - 1], c))
  }

  /** Probability: the category's share of all training rounds times the common probability. */
  ghost function Prob<T>(form: Formula, s: Snapshot<T>, fs: seq<T>, c: string): Double {
    Mul(Div(Count(s.categories, c) as real, MapSum(s.categories) as real), CommonProb(form, s, fs, c))
  }

  /** The running state of Classify: the best probability so far and its category. */
  datatype Choice = Choice(max: real, best: string)

  /**
   * Classify's scan: start from (0.0, default) and take a category only when
   * its probability is strictly greater than the best so far.
   */
  function Pick(keys: seq<string>, scores: seq<Double>, default: string): Choice
    requires |keys| == |scores|
    decreases |keys|
  {
    if keys == [] then Choice(0.0, default)
    else
      var prev := Pick(keys[..|keys| - 1], scores[..|scores| - 1], default);
      var score := scores[|scores| - 1];
      if score.Finite? && score.value > prev.max then Choice(score.value, keys[|keys| - 1]) else prev
  }

  /** The probabilities of the categories `keys`, in that order. */
  ghost function Scores<T>(form: Formula, s: Snapshot<T>, fs: seq<T>, keys: seq<string>): (r: seq<Double>)
    ensures |r| == |keys|
    ensures forall i :: 0 <= i < |keys| ==> r[i] == Prob(form, s, fs, keys[i])
  {
    seq(|keys|, i requires 0 <= i < |keys| => Prob(form, s, fs, keys[i]))
  }

  /** One more category in the scan: its probability replaces the best only when strictly larger. */
  lemma PickStep<T>(form: Formula, s: Snapshot<T>, fs: seq<T>, keys: seq<string>, i: int, default: string)
    requires 0 <= i < |keys|
    ensures var prev := Pick(keys[..i], Scores(form, s, fs, keys[..i]), default);
            var score := Prob(form, s, fs, keys[i]);
            Pick(keys[..i + 1], Scores(form, s, fs, keys[..i + 1]), default)
              == if score.Finite? && score.value > prev.max then Choice(score.value, keys[i]) else prev
  {
    assert keys[..i + 1][..i] == keys[..i];
    assert Scores(form, s, fs, keys[..i + 1])[..i] == Scores(form, s, fs, keys[..i]);
  }

  /** Classify's answer for the features `fs`, scanning the categories `keys`. */
  ghost function Classification<T>(form: Formula, s: Snapshot<T>, fs: seq<T>, keys: seq<string>, default: string): string {
    Pick(keys, Scores(form, s, fs, keys), default).best
  }

  /** The counts after Train(features, c) has raised (f, c) for each listed f in turn. */
  function TrainAll<T>(m: map<T, map<string, int>>, fs: seq<T>, c: string): map<T, map<string, int>>
    decreases |fs|
  {
    if fs == [] then m else Incremented(TrainAll(m, fs[..|fs| - 1], c), fs[|fs| - 1], c)
  }

  // ---------------------------------------------------------------- training

  /** Train(features, c) raises (g, c) once per occurrence of g in features, and nothing else. */
  lemma {:induction false} TrainAllCount<T>(m: map<T, map<string, int>>, fs: seq<T>, c: string, g: T, d: string)
    ensures FCount(TrainAll(m, fs, c), g, d) == FCount(m, g, d) + (if d == c then multiset(fs)[g] else 0)
    decreases |fs|
  {
    if fs != [] {
      var init, last := fs[..|fs| - 1], fs[|fs| - 1];
      assert fs == init + [last];
      TrainAllCount(m, init, c, g, d);
    }
  }

  /** Train(features, c) raises the row sum of g by the number of occurrences of g. */
  lemma {:induction false} TrainAllRowSum<T>(m: map<T, map<string, int>>, fs: seq<T>, c: string, g: T)
    ensures RowSum(TrainAll(m, fs, c), g) == RowSum(m, g) + multiset(fs)[g]
    decreases |fs|
  {
    if fs != [] {
      var init, last := fs[..|fs| - 1], fs[|fs| - 1];
      assert fs == init + [last];
      TrainAllRowSum(m, init, c, g);
      var before := TrainAll(m, init, c);
      if last == g {
        MapSumUpdate(Row(before, g), c, FCount(before, g, c) + 1);
      }
    }
  }

  /** Raising counts keeps them non-negative. */
  lemma TrainAllNonNegative<T(!new)>(s: Snapshot<T>, fs: seq<T>, c: string)
    requires NonNegative(s)
    ensures NonNegative(s.(features := TrainAll(s.features, fs, c)))
  {
    forall f, d ensures FCount(TrainAll(s.features, fs, c), f, d) >= 0 {
      TrainAllCount(s.features, fs, c, f, d);
    }
  }

  /** The sum of a dictionary of non-negative counts is non-negative. */
  lemma {:induction false} MapSumNonNegative<K>(m: map<K, int>)
    requires forall k | k in m :: m[k] >= 0
    ensures MapSum(m) >= 0
    decreases |m|
  {
    if m != map[] {
      var k :| k in m;
      MapSumRemove(m, k);
      assert (m - {k}).Keys == m.Keys - {k};
      MapSumNonNegative(m - {k});
    }
  }

  /** Every row sum of non-negative counts is non-negative. */
  lemma RowSumNonNegative<T(!new)>(s: Snapshot<T>, f: T)
    requires NonNegative(s)
    ensures RowSum(s.features, f) >= 0
  {
    forall k | k in Row(s.features, f) ensures Row(s.features, f)[k] >= 0 {
      assert FCount(s.features, f, k) >= 0;
    }
    MapSumNonNegative(Row(s.features, f));
  }

  /** Raising one count keeps all counts non-negative. */
  lemma IncrementedNonNegative<T(!new)>(s: Snapshot<T>, f: T, c: string)
    requires NonNegative(s)
    ensures NonNegative(s.(features := Incremented(s.features, f, c)))
  {
    var m := Incremented(s.features, f, c);
    forall g, d ensures FCount(m, g, d) >= 0 {
      assert FCount(s.features, g, d) >= 0;
    }
  }

  /** The single-feature Train is the list Train on a one-element list. */
  lemma TrainAllSingle<T>(m: map<T, map<string, int>>, f: T, c: string)
    ensures TrainAll(m, [f], c) == Incremented(m, f, c)
  {
    assert [f][..0] == [];
  }

  /** Raising one category count keeps all counts non-negative. */
  lemma RaiseCategoryNonNegative<T(!new)>(s: Snapshot<T>, c: string)
    requires NonNegative(s)
    ensures NonNegative(s.(categories := s.categories[c := Count(s.categories, c) + 1]))
  {
    var s' := s.(categories := s.categories[c := Count(s.categories, c) + 1]);
    forall d ensures Count(s'.categories, d) >= 0 {
      assert Count(s.categories, d) >= 0;
    }
  }

  // ----------------------------------------------------- zero-filling reads

  /** A feature lookup that inserts zero entries changes no probability. */
  lemma ZeroFilledEquivalent<T(!new)>(s: Snapshot<T>, f: T, c: string)
    ensures Equivalent(s, s.(features := ZeroFilled(s.features, f, c)))
  {
    var m := ZeroFilled(s.features, f, c);
    forall g, d ensures FCount(s.features, g, d) == FCount(m, g, d) {
      ZeroFilledSame(s.features, f, c, g, d);
    }
    forall g ensures RowSum(s.features, g) == RowSum(m, g) {
      ZeroFilledSame(s.features, f, c, g, c);
    }
  }

  /** A category lookup that inserts a zero entry changes no probability. */
  lemma CategoryFilledEquivalent<T(!new)>(s: Snapshot<T>, c: string)
    ensures Equivalent(s, s.(categories := if c in s.categories then s.categories else s.categories[c := 0]))
  {
    if c !in s.categories {
      MapSumUpdate(s.categories, c, 0);
    }
  }

  /** Equivalent snapshots agree on whether every count is non-negative. */
  lemma EquivalentNonNegative<T(!new)>(a: Snapshot<T>, b: Snapshot<T>)
    requires Equivalent(a, b) && NonNegative(a)
    ensures NonNegative(b)
  {
    forall f, c ensures FCount(b.features, f, c) >= 0 {
      assert FCount(a.features, f, c) >= 0;
    }
    forall c ensures Count(b.categories, c) >= 0 {
      assert Count(a.categories, c) >= 0;
    }
  }

  // ---------------------------------------------------------- probabilities

  /** The smaller and the larger of two reals. */
  function Min(a: real, b: real): real { if a <= b then a else b }
  function Max(a: real, b: real): real { if a <= b then b else a }

  /** With w > 0 and total >= 0 the intended average lies between ap and the basic probability. */
  lemma IntendedBetween(w: real, ap: real, total: real, basic: real)
    requires w > 0.0 && total >= 0.0
    ensures IntendedFormula(w, ap, total, basic).Finite?
    ensures Min(ap, basic) <= IntendedFormula(w, ap, total, basic).value <= Max(ap, basic)
  {
    var lo, hi := Min(ap, basic), Max(ap, basic);
    var sum := w * ap + total * basic;
    MeanAbove(lo, w, ap, total, basic);
    MeanBelow(hi, w, ap, total, basic);
    DivBetween(lo, sum, hi, w + total);
  }

  /** A bound below both a and b bounds their weighted sum. */
  lemma MeanAbove(lo: real, w: real, a: real, t: real, b: real)
    requires w >= 0.0 && t >= 0.0 && lo <= a && lo <= b
    ensures lo * (w + t) <= w * a + t * b
  {
    MulAtMost(w, lo, a);
    MulAtMost(t, lo, b);
    Distribute(lo, w, t);
  }

  /** A bound above both a and b bounds their weighted sum. */
  lemma MeanBelow(hi: real, w: real, a: real, t: real, b: real)
    requires w >= 0.0 && t >= 0.0 && a <= hi && b <= hi
    ensures w * a + t * b <= hi * (w + t)
  {
    MulAtMost(w, a, hi);
    MulAtMost(t, b, hi);
    Distribute(hi, w, t);
  }

  /** A non-negative factor keeps an inequality. */
  lemma MulAtMost(k: real, x: real, y: real)
    requires k >= 0.0 && x <= y
    ensures k * x <= k * y
  {
  }

  lemma Distribute(x: real, a: real, b: real)
    ensures x * (a + b) == a * x + b * x
  {
  }

  /** Dividing lo * k <= x <= hi * k by a positive k. */
  lemma DivBetween(lo: real, x: real, hi: real, k: real)
    requires k > 0.0 && lo * k <= x <= hi * k
    ensures lo <= x / k <= hi
  {
    var v := x / k;
    assert v * k == x;
    ScaleMonotone(lo, v, k);
    ScaleMonotone(v, hi, k);
  }

  /** Dividing both sides of an inequality by a positive number. */
  lemma ScaleMonotone(x: real, y: real, k: real)
    requires k > 0.0 && x * k <= y * k
    ensures x <= y
  {
  }

  /** With no observations the intended average is the assumed probability. */
  lemma IntendedUnseen(w: real, ap: real, basic: real)
    requires w != 0.0
    ensures IntendedFormula(w, ap, 0.0, basic) == Finite(ap)
  {
    assert (w * ap + 0.0 * basic) / (w + 0.0) == (w * ap) / w;
    assert (w * ap) / w == ap;
  }

  /**
   * With a positive weight the weighted probability is defined and lies
   * between the assumed probability and the observed one.
   */
  lemma WeightedBetween<T(!new)>(s: Snapshot<T>, f: T, c: string)
    requires s.weight > 0.0 && NonNegative(s)
    ensures Weighted(Intended, s, f, c).Finite?
    ensures Min(s.assumed, FeatureProb(s, f, c)) <= Weighted(Intended, s, f, c).value <= Max(s.assumed, FeatureProb(s, f, c))
  {
    RowSumNonNegative(s, f);
    IntendedBetween(s.weight, s.assumed, RowSum(s.features, f) as real, FeatureProb(s, f, c));
  }

  /** For a feature never seen in training the weighted probability is the assumed one. */
  lemma WeightedUnseen<T>(s: Snapshot<T>, f: T, c: string)
    requires RowSum(s.features, f) == 0 && s.weight != 0.0
    ensures Weighted(Intended, s, f, c) == Finite(s.assumed)
  {
    IntendedUnseen(s.weight, s.assumed, FeatureProb(s, f, c));
  }

  /** As written, an unseen feature gets 0 whatever the assumed probability is. */
  lemma WeightedAsWrittenUnseen<T>(s: Snapshot<T>, f: T, c: string)
    requires RowSum(s.features, f) == 0 && s.weight != 0.0
    ensures Weighted(AsWritten, s, f, c) == Finite(0.0)
  {
  }

  /**
   * The discrepancy on the default parameters: a feature seen once, in c
   * only, with c trained once, scores 0.5 as written, but 1.0 (between the
   * assumed 1.0 and the observed 1.0) as intended.
   */
  lemma WeightedAsWrittenCounterexample()
    ensures var s := Snapshot(map["f" := map["c" := 1]], map["c" := 1], 1.0, 1.0);
      && Weighted(AsWritten, s, "f", "c") == Finite(0.5)
      && Weighted(Intended, s, "f", "c") == Finite(1.0)
  {
    var s := Snapshot(map["f" := map["c" := 1]], map["c" := 1], 1.0, 1.0);
    var row := map["c" := 1];
    MapSumRemove(row, "c");
    assert row - {"c"} == map[];
    assert RowSum(s.features, "f") == 1;
    assert FeatureProb(s, "f", "c") == 1.0;
  }

  /** The basic probability is a ratio of counts, so it is never negative. */
  lemma FeatureProbNonNegative<T(!new)>(s: Snapshot<T>, f: T, c: string)
    requires NonNegative(s)
    ensures FeatureProb(s, f, c) >= 0.0
  {
    if Count(s.categories, c) != 0 {
      assert FCount(s.features, f, c) >= 0 && Count(s.categories, c) > 0;
      QuotientNonNegative(FCount(s.features, f, c) as real, Count(s.categories, c) as real);
    }
  }

  lemma QuotientNonNegative(x: real, k: real)
    requires x >= 0.0 && k > 0.0
    ensures x / k >= 0.0
  {
  }

  lemma ProductNonNegative(x: real, y: real)
    requires x >= 0.0 && y >= 0.0
    ensures x * y >= 0.0
  {
  }

  /**
   * As written, a positive weight and a non-negative assumed probability
   * give a defined weighted probability that is never negative.
   */
  lemma WeightedAsWrittenNonNegative<T(!new)>(s: Snapshot<T>, f: T, c: string)
    requires s.weight > 0.0 && s.assumed >= 0.0 && NonNegative(s)
    ensures Weighted(AsWritten, s, f, c).Finite? && Weighted(AsWritten, s, f, c).value >= 0.0
  {
    RowSumNonNegative(s, f);
    FeatureProbNonNegative(s, f, c);
    var total, basic := RowSum(s.features, f) as real, FeatureProb(s, f, c);
    ProductNonNegative(s.weight, s.assumed);
    ProductNonNegative(total, basic);
    ProductNonNegative(s.weight * s.assumed, total * basic);
    QuotientNonNegative((s.weight * s.assumed) * (total * basic), s.weight + total);
  }

  /** One factor 0.0 makes the whole product 0.0, or non-finite. */
  lemma {:induction false} CommonProbZeroFactor<T>(form: Formula, s: Snapshot<T>, fs: seq<T>, c: string, k: int)
    requires 0 <= k < |fs| && Weighted(form, s, fs[k], c) == Finite(0.0)
    ensures CommonProb(form, s, fs, c) == Finite(0.0) || CommonProb(form, s, fs, c) == NonFinite
    decreases |fs|
  {
    if k < |fs| - 1 {
      CommonProbZeroFactor(form, s, fs[..|fs| - 1], c, k);
    }
  }

  /**
   * As written, a single feature never seen in training makes every
   * category's probability 0.0 or undefined, so Classify returns the
   * default whatever the other features are.
   */
  lemma ClassificationAsWrittenUnseen<T>(s: Snapshot<T>, fs: seq<T>, keys: seq<string>, default: string, k: int)
    requires 0 <= k < |fs| && RowSum(s.features, fs[k]) == 0 && s.weight != 0.0
    ensures Classification(AsWritten, s, fs, keys, default) == default
  {
    forall i | 0 <= i < |keys|
      ensures Prob(AsWritten, s, fs, keys[i]).NonFinite? || Prob(AsWritten, s, fs, keys[i]).value <= 0.0
    {
      WeightedAsWrittenUnseen(s, fs[k], keys[i]);
      CommonProbZeroFactor(AsWritten, s, fs, keys[i], k);
    }
    ClassificationDefault(AsWritten, s, fs, keys, default);
  }

  /**
   * The discrepancy as Classify shows it: after one training of "f" in "c"
   * on the default parameters, classifying the unseen "g" gives the default
   * as written, but "c" (probability 1.0) as intended.
   */
  lemma ClassificationAsWrittenCounterexample()
    ensures var s := Snapshot(map["f" := map["c" := 1]], map["c" := 1], 1.0, 1.0);
      && Classification(AsWritten, s, ["g"], ["c"], "Unclassified") == "Unclassified"
      && Classification(Intended, s, ["g"], ["c"], "Unclassified") == "c"
  {
    var s := Snapshot(map["f" := map["c" := 1]], map["c" := 1], 1.0, 1.0);
    assert Row(s.features, "g") == map[];
    assert RowSum(s.features, "g") == 0;
    ClassificationAsWrittenUnseen(s, ["g"], ["c"], "Unclassified", 0);
    IntendedClassifiesUnseen(s);
  }

  lemma IntendedClassifiesUnseen(s: Snapshot<string>)
    requires s == Snapshot(map["f" := map["c" := 1]], map["c" := 1], 1.0, 1.0)
    ensures Classification(Intended, s, ["g"], ["c"], "Unclassified") == "c"
  {
    assert Row(s.features, "g") == map[];
    WeightedUnseen(s, "g", "c");
    var row := map["c" := 1];
    MapSumRemove(row, "c");
    assert row - {"c"} == map[];
    CommonProbSingle(Intended, s, "g", "c");
    assert Prob(Intended, s, ["g"], "c") == Finite(1.0);
    ClassificationSingle(Intended, s, ["g"], "c", "Unclassified");
  }

  /** The common probability of a one-feature list is that feature's weighted probability. */
  lemma CommonProbSingle<T>(form: Formula, s: Snapshot<T>, f: T, c: string)
    ensures CommonProb(form, s, [f], c) == Mul(Finite(1.0), Weighted(form, s, f, c))
  {
    assert [f][..0] == [];
    assert [f][|[f]| - 1] == f;
  }

  /** Scanning one category of positive probability picks it. */
  lemma ClassificationSingle<T>(form: Formula, s: Snapshot<T>, fs: seq<T>, c: string, default: string)
    requires Prob(form, s, fs, c).Finite? && Prob(form, s, fs, c).value > 0.0
    ensures Classification(form, s, fs, [c], default) == c
  {
    var sc := Scores(form, s, fs, [c]);
    assert sc[..0] == [] && [c][..0] == [];
    assert Pick([c][..0], sc[..0], default) == Choice(0.0, default);
    assert sc[0] == Prob(form, s, fs, c);
  }

  /** The common probability of a concatenation is the product of the parts'. */
  lemma {:induction false} CommonProbAppend<T>(form: Formula, s: Snapshot<T>, fs: seq<T>, gs: seq<T>, c: string)
    ensures CommonProb(form, s, fs + gs, c) == Mul(CommonProb(form, s, fs, c), CommonProb(form, s, gs, c))
    decreases |gs|
  {
    if gs == [] {
      assert fs + gs == fs;
      MulOne(CommonProb(form, s, fs, c));
    } else {
      var init, last := gs[..|gs| - 1], gs[|gs| - 1];
      assert (fs + gs)[..|fs + gs| - 1] == fs + init;
      assert (fs + gs)[|fs + gs| - 1] == last;
      CommonProbAppend(form, s, fs, init, c);
      var a, b, w := CommonProb(form, s, fs, c), CommonProb(form, s, init, c), Weighted(form, s, last, c);
      assert CommonProb(form, s, fs + init, c) == Mul(a, b);
      assert CommonProb(form, s, fs + gs, c) == Mul(Mul(a, b), w);
      assert CommonProb(form, s, gs, c) == Mul(b, w);
      MulAssoc(a, b, w);
    }
  }

  /** The common probability is defined exactly when every weighted probability is. */
  lemma {:induction false} CommonProbDefined<T>(form: Formula, s: Snapshot<T>, fs: seq<T>, c: string)
    ensures CommonProb(form, s, fs, c).Finite? <==> forall i :: 0 <= i < |fs| ==> Weighted(form, s, fs[i], c).Finite?
    decreases |fs|
  {
    if fs != [] {
      var init := fs[..|fs| - 1];
      CommonProbDefined(form, s, init, c);
      assert forall i :: 0 <= i < |init| ==> init[i] == fs[i];
    }
  }

  /** Equivalent snapshots give every feature the same weighted probability. */
  lemma WeightedEquivalent<T(!new)>(form: Formula, a: Snapshot<T>, b: Snapshot<T>, f: T, c: string)
    requires Equivalent(a, b)
    ensures Weighted(form, a, f, c) == Weighted(form, b, f, c)
  {
    assert FCount(a.features, f, c) == FCount(b.features, f, c);
    assert Count(a.categories, c) == Count(b.categories, c);
    assert RowSum(a.features, f) == RowSum(b.features, f);
    assert FeatureProb(a, f, c) == FeatureProb(b, f, c);
  }

  /** Equivalent snapshots give every feature list the same common probability. */
  lemma {:induction false} CommonProbEquivalent<T(!new)>(form: Formula, a: Snapshot<T>, b: Snapshot<T>, fs: seq<T>, c: string)
    requires Equivalent(a, b)
    ensures CommonProb(form, a, fs, c) == CommonProb(form, b, fs, c)
    decreases |fs|
  {
    if fs != [] {
      CommonProbEquivalent(form, a, b, fs[..|fs| - 1], c);
      WeightedEquivalent(form, a, b, fs[|fs| - 1], c);
    }
  }

  /** Equivalent snapshots give every category the same probability. */
  lemma ProbEquivalent<T(!new)>(form: Formula, a: Snapshot<T>, b: Snapshot<T>, fs: seq<T>, c: string)
    requires Equivalent(a, b)
    ensures Prob(form, a, fs, c) == Prob(form, b, fs, c)
  {
    CommonProbEquivalent(form, a, b, fs, c);
    assert Count(a.categories, c) == Count(b.categories, c);
  }

  /** Before any training no category has a probability, so Classify keeps the default. */
  lemma ProbUntrained<T>(form: Formula, s: Snapshot<T>, fs: seq<T>, c: string)
    requires s.categories == map[]
    ensures Prob(form, s, fs, c) == NonFinite
  {
  }

  /** Equivalence is symmetric and transitive, so it can be carried through a sequence of lookups. */
  lemma EquivalentTrans<T(!new)>(a: Snapshot<T>, b: Snapshot<T>, c: Snapshot<T>)
    requires Equivalent(a, b) && Equivalent(b, c)
    ensures Equivalent(a, c) && Equivalent(c, a)
  {
  }

  // ---------------------------------------------------------------- Classify

  /** The scan's maximum is at least 0.0 and at least every defined score. */
  lemma {:induction false} PickIsMax(keys: seq<string>, scores: seq<Double>, default: string)
    requires |keys| == |scores|
    ensures Pick(keys, scores, default).max >= 0.0
    ensures forall i :: 0 <= i < |scores| && scores[i].Finite? ==> scores[i].value <= Pick(keys, scores, default).max
    decreases |keys|
  {
    if keys != [] {
      PickIsMax(keys[..|keys| - 1], scores[..|scores| - 1], default);
    }
  }

  /**
   * The scan either kept the default with maximum 0.0, or it chose the
   * earliest category whose score is the (positive) maximum.
   */
  lemma {:induction false} PickWitness(keys: seq<string>, scores: seq<Double>, default: string)
    requires |keys| == |scores|
    ensures var ch := Pick(keys, scores, default);
      || (ch == Choice(0.0, default) && forall i :: 0 <= i < |scores| && scores[i].Finite? ==> scores[i].value <= 0.0)
      || (exists i :: && 0 <= i < |keys| && keys[i] == ch.best && scores[i] == Finite(ch.max) && ch.max > 0.0
                     && forall j :: 0 <= j < i && scores[j].Finite? ==> scores[j].value < ch.max)
    decreases |keys|
  {
    if keys != [] {
      var n := |keys| - 1;
      var init, initScores := keys[..n], scores[..n];
      PickWitness(init, initScores, default);
      PickIsMax(init, initScores, default);
      var prev := Pick(init, initScores, default);
      var ch := Pick(keys, scores, default);
      if ch != prev {
        assert keys[n] == ch.best && scores[n] == Finite(ch.max);
        assert forall j :: 0 <= j < n && scores[j].Finite? ==> scores[j].value < ch.max by {
          assert forall j :: 0 <= j < n ==> scores[j] == initScores[j];
        }
      } else if ch == Choice(0.0, default) && forall i :: 0 <= i < n && initScores[i].Finite? ==> initScores[i].value <= 0.0 {
        assert forall i :: 0 <= i < n ==> scores[i] == initScores[i];
      } else {
        var i :| && 0 <= i < n && init[i] == prev.best && initScores[i] == Finite(prev.max) && prev.max > 0.0
                 && forall j :: 0 <= j < i && initScores[j].Finite? ==> initScores[j].value < prev.max;
        assert keys[i] == ch.best && scores[i] == Finite(ch.max);
        assert forall j :: 0 <= j < i ==> scores[j] == initScores[j];
      }
    }
  }

  /** Classify returns the default or one of the scanned categories. */
  lemma ClassificationIsDefaultOrKey<T>(form: Formula, s: Snapshot<T>, fs: seq<T>, keys: seq<string>, default: string)
    ensures var r := Classification(form, s, fs, keys, default); r == default || r in keys
  {
    PickWitness(keys, Scores(form, s, fs, keys), default);
  }

  /** With no category of positive probability, Classify returns the default. */
  lemma ClassificationDefault<T>(form: Formula, s: Snapshot<T>, fs: seq<T>, keys: seq<string>, default: string)
    requires forall i :: 0 <= i < |keys| ==> Prob(form, s, fs, keys[i]).NonFinite? || Prob(form, s, fs, keys[i]).value <= 0.0
    ensures Classification(form, s, fs, keys, default) == default
  {
    PickWitness(keys, Scores(form, s, fs, keys), default);
  }

  /**
   * When some category has positive probability, Classify returns the
   * category at the earliest index whose probability is the largest.
   */
  lemma ClassificationArgmax<T>(form: Formula, s: Snapshot<T>, fs: seq<T>, keys: seq<string>, default: string, k: int)
    requires 0 <= k < |keys| && Prob(form, s, fs, keys[k]).Finite? && Prob(form, s, fs, keys[k]).value > 0.0
    ensures exists i :: && 0 <= i < |keys| && keys[i] == Classification(form, s, fs, keys, default)
                        && Prob(form, s, fs, keys[i]).Finite? && Prob(form, s, fs, keys[i]).value > 0.0
                        && (forall j :: 0 <= j < |keys| && Prob(form, s, fs, keys[j]).Finite? ==>
                              Prob(form, s, fs, keys[j]).value <= Prob(form, s, fs, keys[i]).value)
                        && (forall j :: 0 <= j < i && Prob(form, s, fs, keys[j]).Finite? ==>
                              Prob(form, s, fs, keys[j]).value < Prob(form, s, fs, keys[i]).value)
  {
    var scores := Scores(form, s, fs, keys);
    PickWitness(keys, scores, default);
    PickIsMax(keys, scores, default);
    assert scores[k] == Prob(form, s, fs, keys[k]);
  }
}
