/**
 * The three similarity scores between two categories, each computed from
 * the features both categories hold. `Stats` gathers every running total
 * the three nested loops keep; summing it over a feature sequence gives
 * the totals over the shared features, whatever order they come in.
 */
module Similarity {
  import opened Dictionaries
  import opened Datasets

  /** Running totals over shared features: A's values, B's values, their squares and products. */
  datatype Stats = Stats(n: int, sumA: real, sumB: real, sqA: real, sqB: real, prod: real, sqDiff: real)

  const Zero := Stats(0, 0.0, 0.0, 0.0, 0.0, 0.0, 0.0)

  function Add(x: Stats, y: Stats): Stats {
    Stats(x.n + y.n, x.sumA + y.sumA, x.sumB + y.sumB, x.sqA + y.sqA, x.sqB + y.sqB,
          x.prod + y.prod, x.sqDiff + y.sqDiff)
  }

  /** The same totals seen from the other category. */
  function Swap(x: Stats): Stats {
    Stats(x.n, x.sumB, x.sumA, x.sqB, x.sqA, x.prod, x.sqDiff)
  }

  /** `Pow(x, 2)`. */
  function Square(x: real): real {
    x * x
  }

  /** `valueA * valueB`. */
  function Product(x: real, y: real): real {
    x * y
  }

  /** What one feature adds: nothing unless both categories hold it. */
  function Term(a: Row, b: Row, f: string): Stats {
    if f in a.items && f in b.items then
      var va := a.items[f];
      var vb := b.items[f];
      Stats(1, va, vb, Square(va), Square(vb), Product(va, vb), Square(va - vb))
    else Zero
  }

  /** The totals over `fs`, accumulated front to back. */
  function Sums(a: Row, b: Row, fs: seq<string>): (r: Stats)
    ensures r.n >= 0 && r.sqDiff >= 0.0
    decreases |fs|
  {
    if fs == [] then Zero else Add(Sums(a, b, fs[..|fs| - 1]), Term(a, b, fs[|fs| - 1]))
  }

  /** The features of `fs` both categories hold. */
  ghost function Common(a: Row, b: Row, fs: seq<string>): set<string> {
    set f | f in fs && f in a.items && f in b.items
  }

  /** The totals over the features two present categories share. */
  function Shared(d: Dataset, a: string, b: string): Stats
    requires ContainsCategory(d, a) && ContainsCategory(d, b)
  {
    Sums(d.items[a], d.items[b], d.items[a].keys)
  }

  /** `EuclideanDistanceScore`: 1/(1+s) for the sum s of squared differences, 0.0 when s is 0. */
  function Euclidean(d: Dataset, a: string, b: string): real {
    if !ContainsCategory(d, a) || !ContainsCategory(d, b) then 0.0
    else
      var s := Shared(d, a, b).sqDiff;
      if s == 0.0 then 0.0 else 1.0 / (1.0 + s)
  }

  /** `PearsonCorrelationScore`, with the square root taken as given. */
  function Pearson(d: Dataset, sqrt: real -> real, a: string, b: string): real {
    if !ContainsCategory(d, a) || !ContainsCategory(d, b) then 0.0
    else PearsonOf(Shared(d, a, b), sqrt)
  }

  /** Pearson's coefficient from the totals: 0.0 with nothing shared or a zero denominator. */
  function PearsonOf(st: Stats, sqrt: real -> real): real {
    if st.n == 0 then 0.0
    else
      var denominator := sqrt(Radicand(st.n, st.sumA, st.sumB, st.sqA, st.sqB));
      if denominator == 0.0 then 0.0 else Numerator(st.n, st.sumA, st.sumB, st.prod) / denominator
  }

  /** `sumOfProducts - (sumA * sumB / n)`. */
  function Numerator(n: int, sumA: real, sumB: real, prod: real): real
    requires n != 0
  {
    prod - (sumA * sumB / n as real)
  }

  /** `(sumOfSquaresA - sumA² / n) * (sumOfSquaresB - sumB² / n)`, whose square root is the denominator. */
  function Radicand(n: int, sumA: real, sumB: real, sqA: real, sqB: real): real
    requires n != 0
  {
    (sqA - Square(sumA) / n as real) * (sqB - Square(sumB) / n as real)
  }

  /** `TanimotoSimilarityScore`: shared / (|A| + |B| - shared), 0.0 when that is 0. */
  function Tanimoto(d: Dataset, a: string, b: string): real {
    if !ContainsCategory(d, a) || !ContainsCategory(d, b) then 0.0
    else TanimotoOf(Shared(d, a, b).n, |d.items[a].keys|, |d.items[b].keys|)
  }

  function TanimotoOf(shared: int, countA: int, countB: int): real {
    var denominator := countA + countB - shared;
    if denominator == 0 then 0.0 else shared as real / denominator as real
  }

  /** The built-in scores a ranking can be asked to use. */
  datatype Metric = EuclideanMetric | PearsonMetric | TanimotoMetric

  function Sim(d: Dataset, sqrt: real -> real, m: Metric, a: string, b: string): real {
    match m
    case EuclideanMetric => Euclidean(d, a, b)
    case PearsonMetric => Pearson(d, sqrt, a, b)
    case TanimotoMetric => Tanimoto(d, a, b)
  }

  /** A built-in score as the function value `scoringFunction` the rankings are handed. */
  function SimFn(d: Dataset, sqrt: real -> real, m: Metric): (string, string) -> real {
    (a, b) => Sim(d, sqrt, m, a, b)
  }

  /** The totals over one more feature, as the outer loop of each score adds it. */
  lemma SumsStep(a: Row, b: Row, fs: seq<string>, i: int)
    requires 0 <= i < |fs|
    ensures Sums(a, b, fs[..i + 1]) == Add(Sums(a, b, fs[..i]), Term(a, b, fs[i]))
  {
    assert fs[..i + 1][..i] == fs[..i];
  }

  // ----- the totals do not depend on order -----

  lemma {:induction false} SumsConcat(a: Row, b: Row, p: seq<string>, q: seq<string>)
    ensures Sums(a, b, p + q) == Add(Sums(a, b, p), Sums(a, b, q))
    decreases |q|
  {
    if q == [] {
      assert p + q == p;
      AddZero(Sums(a, b, p));
    } else {
      var q', x := q[..|q| - 1], q[|q| - 1];
      assert (p + q)[..|p + q| - 1] == p + q';
      assert (p + q)[|p + q| - 1] == x;
      calc {
        Sums(a, b, p + q);
        Add(Sums(a, b, p + q'), Term(a, b, x));
        { SumsConcat(a, b, p, q'); }
        Add(Add(Sums(a, b, p), Sums(a, b, q')), Term(a, b, x));
        { AddAssoc(Sums(a, b, p), Sums(a, b, q'), Term(a, b, x)); }
        Add(Sums(a, b, p), Add(Sums(a, b, q'), Term(a, b, x)));
      }
    }
  }

  /** Taking one feature out of the middle. */
  lemma SumsRemoveAt(a: Row, b: Row, gs: seq<string>, k: int)
    requires 0 <= k < |gs|
    ensures Sums(a, b, gs) == Add(Sums(a, b, gs[..k] + gs[k + 1..]), Term(a, b, gs[k]))
  {
    var p, x, q := gs[..k], gs[k], gs[k + 1..];
    assert gs == (p + [x]) + q;
    SumsConcat(a, b, p + [x], q);
    assert (p + [x])[..|p + [x]| - 1] == p;
    assert Sums(a, b, p + [x]) == Add(Sums(a, b, p), Term(a, b, x));
    SumsConcat(a, b, p, q);
    AddShuffle(Sums(a, b, p), Term(a, b, x), Sums(a, b, q));
  }

  lemma AddAssoc(x: Stats, y: Stats, z: Stats)
    ensures Add(Add(x, y), z) == Add(x, Add(y, z))
  {
  }

  lemma AddShuffle(x: Stats, t: Stats, y: Stats)
    ensures Add(Add(x, t), y) == Add(Add(x, y), t)
  {
  }

  lemma AddZero(x: Stats)
    ensures Add(x, Zero) == x
  {
  }

  /** Two duplicate-free feature sequences with the same shared features have the same totals. */
  lemma {:induction false} SumsPermutation(a: Row, b: Row, fs: seq<string>, gs: seq<string>)
    requires Distinct(fs) && Distinct(gs)
    requires Common(a, b, fs) == Common(a, b, gs)
    ensures Sums(a, b, fs) == Sums(a, b, gs)
    decreases |fs| + |gs|
  {
    if fs == [] {
      SumsUnshared(a, b, gs);
    } else {
      var init := fs[..|fs| - 1];
      var x := fs[|fs| - 1];
      assert fs == init + [x];
      assert x !in init;
      if x in a.items && x in b.items {
        assert x in Common(a, b, gs);
        var k :| 0 <= k < |gs| && gs[k] == x;
        var rest := gs[..k] + gs[k + 1..];
        DistinctRemoveAt(gs, k);
        assert Common(a, b, init) == Common(a, b, rest) by {
          assert Common(a, b, init) == Common(a, b, fs) - {x};
        }
        SumsPermutation(a, b, init, rest);
        SumsRemoveAt(a, b, gs, k);
        assert Sums(a, b, fs) == Add(Sums(a, b, init), Term(a, b, x));
        assert Sums(a, b, gs) == Add(Sums(a, b, rest), Term(a, b, x));
      } else {
        assert Common(a, b, init) == Common(a, b, fs);
        SumsPermutation(a, b, init, gs);
        assert Term(a, b, x) == Zero;
        assert Sums(a, b, fs) == Add(Sums(a, b, init), Zero);
        AddZero(Sums(a, b, init));
      }
    }
  }

  /** A sequence with no shared feature adds nothing. */
  lemma {:induction false} SumsUnshared(a: Row, b: Row, gs: seq<string>)
    requires Common(a, b, gs) == {}
    ensures Sums(a, b, gs) == Zero
    decreases |gs|
  {
    if gs != [] {
      var init := gs[..|gs| - 1];
      var x := gs[|gs| - 1];
      assert x in gs && x !in Common(a, b, gs);
      assert Term(a, b, x) == Zero;
      assert Common(a, b, init) <= Common(a, b, gs);
      SumsUnshared(a, b, init);
      AddZero(Sums(a, b, init));
    }
  }

  /** Seen from the other category, the totals swap their A and B halves. */
  lemma {:induction false} SumsSwap(a: Row, b: Row, fs: seq<string>)
    ensures Sums(b, a, fs) == Swap(Sums(a, b, fs))
    decreases |fs|
  {
    if fs != [] {
      SumsSwap(a, b, fs[..|fs| - 1]);
      TermSwap(a, b, fs[|fs| - 1]);
    }
  }

  /** One feature's terms seen from the other category. */
  lemma TermSwap(a: Row, b: Row, f: string)
    ensures Term(b, a, f) == Swap(Term(a, b, f))
  {
    if f in a.items && f in b.items {
      var va, vb := a.items[f], b.items[f];
      assert Square(vb - va) == Square(va - vb);
      assert Product(vb, va) == Product(va, vb);
    }
  }

  /** The count is the number of shared features, and the squared differences never sum below 0. */
  lemma {:induction false} SumsCount(a: Row, b: Row, fs: seq<string>)
    requires Distinct(fs)
    ensures Sums(a, b, fs).n == |Common(a, b, fs)|
    ensures Sums(a, b, fs).sqDiff >= 0.0
    decreases |fs|
  {
    if fs != [] {
      var init := fs[..|fs| - 1];
      var x := fs[|fs| - 1];
      assert fs == init + [x];
      assert x !in init;
      SumsCount(a, b, init);
      if x in a.items && x in b.items {
        assert Common(a, b, fs) == Common(a, b, init) + {x};
      } else {
        assert Common(a, b, fs) == Common(a, b, init);
      }
    }
  }

  /** Every feature a category holds agrees with itself: no squared difference at all. */
  lemma {:induction false} SumsSelf(a: Row, fs: seq<string>)
    ensures Sums(a, a, fs).sqDiff == 0.0
    decreases |fs|
  {
    if fs != [] {
      SumsSelf(a, fs[..|fs| - 1]);
    }
  }

  /** The totals from A's side and from B's side agree up to the swap. */
  lemma SharedSwap(d: Dataset, a: string, b: string)
    requires WellFormed(d)
    requires ContainsCategory(d, a) && ContainsCategory(d, b)
    ensures Shared(d, b, a) == Swap(Shared(d, a, b))
  {
    var ra, rb := d.items[a], d.items[b];
    SumsSwap(ra, rb, rb.keys);
    assert Common(ra, rb, rb.keys) == Common(ra, rb, ra.keys) by {
      assert forall f :: f in ra.keys <==> f in ra.items;
      assert forall f :: f in rb.keys <==> f in rb.items;
    }
    SumsPermutation(ra, rb, rb.keys, ra.keys);
  }

  /** The shared count is the size of the intersection of the two feature sets. */
  lemma SharedCount(d: Dataset, a: string, b: string)
    requires WellFormed(d)
    requires ContainsCategory(d, a) && ContainsCategory(d, b)
    ensures Shared(d, a, b).n == |d.items[a].items.Keys * d.items[b].items.Keys|
  {
    var ra, rb := d.items[a], d.items[b];
    SumsCount(ra, rb, ra.keys);
    assert Common(ra, rb, ra.keys) == ra.items.Keys * rb.items.Keys;
  }

  // ----- properties of the scores -----

  /**
   * Euclidean is 0.0 for an unknown category and when the squared
   * differences sum to 0; otherwise it is 1/(1+s), strictly between 0 and 1.
   */
  lemma EuclideanRange(d: Dataset, a: string, b: string)
    requires WellFormed(d)
    ensures 0.0 <= Euclidean(d, a, b) < 1.0
    ensures Euclidean(d, a, b) == 0.0 <==>
              !ContainsCategory(d, a) || !ContainsCategory(d, b) || Shared(d, a, b).sqDiff == 0.0
  {
    if ContainsCategory(d, a) && ContainsCategory(d, b) {
      SumsCount(d.items[a], d.items[b], d.items[a].keys);
      var s := Shared(d, a, b).sqDiff;
      if s != 0.0 {
        assert 1.0 + s > 1.0;
        assert 1.0 / (1.0 + s) < 1.0;
      }
    }
  }

  /** Categories with no shared feature, and a category compared with itself, both score 0.0. */
  lemma EuclideanZeroCases(d: Dataset, a: string, b: string)
    requires WellFormed(d)
    requires ContainsCategory(d, a) && ContainsCategory(d, b)
    ensures d.items[a].items.Keys * d.items[b].items.Keys == {} ==> Euclidean(d, a, b) == 0.0
    ensures Euclidean(d, a, a) == 0.0
  {
    SumsSelf(d.items[a], d.items[a].keys);
    if d.items[a].items.Keys * d.items[b].items.Keys == {} {
      assert Common(d.items[a], d.items[b], d.items[a].keys) == {};
      SumsUnshared(d.items[a], d.items[b], d.items[a].keys);
    }
  }

  lemma EuclideanSymmetric(d: Dataset, a: string, b: string)
    requires WellFormed(d)
    ensures Euclidean(d, a, b) == Euclidean(d, b, a)
  {
    if ContainsCategory(d, a) && ContainsCategory(d, b) {
      SharedSwap(d, a, b);
    }
  }

  /** Pearson is 0.0 for an unknown category and for categories with no shared feature. */
  lemma PearsonZeroCases(d: Dataset, sqrt: real -> real, a: string, b: string)
    requires WellFormed(d)
    ensures !ContainsCategory(d, a) || !ContainsCategory(d, b) ==> Pearson(d, sqrt, a, b) == 0.0
    ensures ContainsCategory(d, a) && ContainsCategory(d, b) ==>
              (d.items[a].items.Keys * d.items[b].items.Keys == {} ==> Pearson(d, sqrt, a, b) == 0.0)
  {
    if ContainsCategory(d, a) && ContainsCategory(d, b) {
      SharedCount(d, a, b);
    }
  }

  lemma PearsonSymmetric(d: Dataset, sqrt: real -> real, a: string, b: string)
    requires WellFormed(d)
    ensures Pearson(d, sqrt, a, b) == Pearson(d, sqrt, b, a)
  {
    if ContainsCategory(d, a) && ContainsCategory(d, b) {
      SharedSwap(d, a, b);
      PearsonOfSwap(Shared(d, a, b), sqrt);
    }
  }

  lemma PearsonOfSwap(st: Stats, sqrt: real -> real)
    ensures PearsonOf(Swap(st), sqrt) == PearsonOf(st, sqrt)
  {
    if st.n != 0 {
      var n := st.n as real;
      assert Numerator(st.n, st.sumB, st.sumA, st.prod) == Numerator(st.n, st.sumA, st.sumB, st.prod) by {
        assert st.sumB * st.sumA == st.sumA * st.sumB;
      }
      assert Radicand(st.n, st.sumB, st.sumA, st.sqB, st.sqA) == Radicand(st.n, st.sumA, st.sumB, st.sqA, st.sqB) by {
        var x := st.sqA - Square(st.sumA) / n;
        var y := st.sqB - Square(st.sumB) / n;
        assert Radicand(st.n, st.sumB, st.sumA, st.sqB, st.sqA) == y * x;
        assert y * x == x * y;
      }
    }
  }

  /** A present category pair scores |A∩B| / |A∪B| (0.0 when both are empty), which lies in [0, 1]. */
  lemma TanimotoIsJaccard(d: Dataset, a: string, b: string)
    requires WellFormed(d)
    requires ContainsCategory(d, a) && ContainsCategory(d, b)
    ensures var fa, fb := d.items[a].items.Keys, d.items[b].items.Keys;
            Tanimoto(d, a, b) == if fa + fb == {} then 0.0 else |fa * fb| as real / |fa + fb| as real
    ensures 0.0 <= Tanimoto(d, a, b) <= 1.0
  {
    var fa, fb := d.items[a].items.Keys, d.items[b].items.Keys;
    SharedCount(d, a, b);
    DistinctCard(d.items[a].keys);
    DistinctCard(d.items[b].keys);
    var shared := |fa * fb|;
    var union := |fa + fb|;
    assert union == |d.items[a].keys| + |d.items[b].keys| - shared by {
      UnionCard(fa, fb);
    }
    assert shared <= union by {
      SubsetCard(fa * fb, fa + fb);
    }
    if union == 0 {
      assert fa + fb == {};
    } else {
      assert fa + fb != {};
      FractionAtMostOne(shared, union);
    }
  }

  lemma UnionCard<X>(s: set<X>, t: set<X>)
    ensures |s + t| == |s| + |t| - |s * t|
  {
  }

  lemma FractionAtMostOne(x: int, y: int)
    requires 0 <= x <= y && y > 0
    ensures 0.0 <= x as real / y as real <= 1.0
  {
  }

  lemma SubsetCard<X>(s: set<X>, t: set<X>)
    requires s <= t
    ensures |s| <= |t|
  {
    assert t == s + (t - s);
  }

  lemma TanimotoSymmetric(d: Dataset, a: string, b: string)
    requires WellFormed(d)
    ensures Tanimoto(d, a, b) == Tanimoto(d, b, a)
  {
    if ContainsCategory(d, a) && ContainsCategory(d, b) {
      SharedSwap(d, a, b);
      var n := Shared(d, a, b).n;
      assert Shared(d, b, a).n == n;
      var ca, cb := |d.items[a].keys|, |d.items[b].keys|;
      assert Tanimoto(d, a, b) == TanimotoOf(n, ca, cb);
      assert Tanimoto(d, b, a) == TanimotoOf(n, cb, ca);
    }
  }

  /** Every score of an unknown category is 0.0. */
  lemma SimUnknown(d: Dataset, sqrt: real -> real, m: Metric, a: string, b: string)
    requires !ContainsCategory(d, a) || !ContainsCategory(d, b)
    ensures Sim(d, sqrt, m, a, b) == 0.0
  {
  }
}
