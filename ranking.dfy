/**
 * The sort-then-truncate step every recommendation list ends with: sort by
 * `Value.CompareTo`, reverse, keep the first n. `Double.CompareTo` orders
 * NaN below every number, so after the reverse NaN scores come last. Which
 * of several equal scores comes first is not fixed by the source (the list
 * sort is unstable); any non-increasing arrangement is one it may produce,
 * and the model picks one, by insertion.
 */
module Ranking {
  import opened Doubles

  datatype Score = Score(name: string, value: Double)

  /** `x.CompareTo(y) <= 0`: NaN is below every number. */
  predicate AtMost(x: Double, y: Double) {
    x.NonFinite? || (y.Finite? && x.value <= y.value)
  }

  /** Non-increasing in value, NaN last. */
  predicate Descending(s: seq<Score>) {
    forall i, j :: 0 <= i < j < |s| ==> AtMost(s[j].value, s[i].value)
  }

  /** No name occurs twice. */
  predicate Unique(s: seq<Score>) {
    forall i, j :: 0 <= i < j < |s| ==> s[i].name != s[j].name
  }

  ghost function Names(s: seq<Score>): set<string> {
    set i | 0 <= i < |s| :: s[i].name
  }

  /** The name of a listed score is among the names. */
  lemma NameIn(s: seq<Score>, y: Score)
    requires y in s
    ensures y.name in Names(s)
  {
    var i :| 0 <= i < |s| && s[i] == y;
  }

  /** Places `x` in a non-increasing list, after every score above it. */
  function Insert(x: Score, s: seq<Score>): seq<Score> {
    if s == [] || AtMost(s[0].value, x.value) then [x] + s
    else [s[0]] + Insert(x, s[1..])
  }

  /** `Sort` by `CompareTo` then `Reverse`: a non-increasing arrangement of `s`. */
  function SortDescending(s: seq<Score>): seq<Score> {
    if s == [] then [] else Insert(s[0], SortDescending(s[1..]))
  }

  lemma {:induction false} InsertPermutes(x: Score, s: seq<Score>)
    ensures multiset(Insert(x, s)) == multiset(s) + multiset{x}
    ensures Names(Insert(x, s)) == Names(s) + {x.name}
  {
    InsertMultiset(x, s);
    InsertNames(x, s);
  }

  lemma {:induction false} InsertMultiset(x: Score, s: seq<Score>)
    ensures multiset(Insert(x, s)) == multiset(s) + multiset{x}
  {
    if s != [] && !AtMost(s[0].value, x.value) {
      InsertMultiset(x, s[1..]);
      assert s == [s[0]] + s[1..];
    }
  }

  lemma {:induction false} InsertNames(x: Score, s: seq<Score>)
    ensures Names(Insert(x, s)) == Names(s) + {x.name}
  {
    NamesCons(x, s);
    if s != [] && !AtMost(s[0].value, x.value) {
      InsertNames(x, s[1..]);
      assert s == [s[0]] + s[1..];
      NamesCons(s[0], s[1..]);
      NamesCons(s[0], Insert(x, s[1..]));
    }
  }

  lemma {:induction false} InsertDescending(x: Score, s: seq<Score>)
    requires Descending(s)
    ensures Descending(Insert(x, s))
  {
    if s == [] || AtMost(s[0].value, x.value) {
      forall y: Score | y in multiset(s) ensures AtMost(y.value, x.value) {
        var k :| 0 <= k < |s| && s[k] == y;
        if k > 0 { assert AtMost(s[k].value, s[0].value); }
      }
      ConsDescending(x, s);
    } else {
      var r' := Insert(x, s[1..]);
      InsertDescending(x, s[1..]);
      InsertPermutes(x, s[1..]);
      forall y: Score | y in multiset(r') ensures AtMost(y.value, s[0].value) {
        if y != x {
          assert y in multiset(s[1..]);
          var k :| 0 <= k < |s[1..]| && s[1..][k] == y;
          assert s[k + 1] == y;
        }
      }
      ConsDescending(s[0], r');
    }
  }

  lemma {:induction false} InsertUnique(x: Score, s: seq<Score>)
    requires Unique(s) && x.name !in Names(s)
    ensures Unique(Insert(x, s))
  {
    if s == [] || AtMost(s[0].value, x.value) {
      ConsUnique(x, s);
    } else {
      assert s == [s[0]] + s[1..];
      NamesCons(s[0], s[1..]);
      UniqueTail(s);
      InsertUnique(x, s[1..]);
      InsertPermutes(x, s[1..]);
      ConsUnique(s[0], Insert(x, s[1..]));
    }
  }

  lemma {:induction false} NamesCons(x: Score, s: seq<Score>)
    ensures Names([x] + s) == {x.name} + Names(s)
  {
    var t := [x] + s;
    forall nm | nm in Names(t) ensures nm in {x.name} + Names(s) {
      var i :| 0 <= i < |t| && t[i].name == nm;
      if i > 0 { assert s[i - 1].name == nm; }
    }
    forall nm | nm in Names(s) ensures nm in Names(t) {
      var i :| 0 <= i < |s| && s[i].name == nm;
      assert t[i + 1].name == nm;
    }
    assert t[0].name == x.name;
  }

  /** Putting a score in front of a non-increasing list of scores no greater keeps it non-increasing. */
  lemma {:induction false} ConsDescending(x: Score, s: seq<Score>)
    requires Descending(s)
    requires forall y: Score | y in multiset(s) :: AtMost(y.value, x.value)
    ensures Descending([x] + s)
  {
    var t := [x] + s;
    forall i, j | 0 <= i < j < |t| ensures AtMost(t[j].value, t[i].value) {
      if i == 0 {
        assert t[j] == s[j - 1];
        assert s[j - 1] in multiset(s);
      } else {
        assert t[i] == s[i - 1] && t[j] == s[j - 1];
      }
    }
  }

  lemma {:induction false} ConsUnique(x: Score, s: seq<Score>)
    requires Unique(s) && x.name !in Names(s)
    ensures Unique([x] + s)
  {
    var t := [x] + s;
    forall i, j | 0 <= i < j < |t| ensures t[i].name != t[j].name {
      if i == 0 {
        assert t[j].name == s[j - 1].name && s[j - 1].name in Names(s);
      } else {
        assert t[i] == s[i - 1] && t[j] == s[j - 1];
      }
    }
  }

  lemma {:induction false} UniqueTail(s: seq<Score>)
    requires s != [] && Unique(s)
    ensures Unique(s[1..]) && s[0].name !in Names(s[1..])
  {
    forall i, j | 0 <= i < j < |s[1..]| ensures s[1..][i].name != s[1..][j].name {
      assert s[1..][i] == s[i + 1] && s[1..][j] == s[j + 1];
    }
    forall k | 0 <= k < |s[1..]| ensures s[1..][k].name != s[0].name {
      assert s[1..][k] == s[k + 1];
    }
  }

  /** The sort yields a non-increasing permutation of its input, with the same names. */
  lemma {:induction false} SortDescendingSorts(s: seq<Score>)
    ensures Descending(SortDescending(s))
    ensures multiset(SortDescending(s)) == multiset(s)
    ensures Names(SortDescending(s)) == Names(s)
    ensures Unique(s) ==> Unique(SortDescending(s))
  {
    SortPermutes(s);
    SortIsDescending(s);
    if Unique(s) {
      SortKeepsUnique(s);
    }
  }

  lemma {:induction false} SortPermutes(s: seq<Score>)
    ensures multiset(SortDescending(s)) == multiset(s)
    ensures Names(SortDescending(s)) == Names(s)
  {
    SortMultiset(s);
    SortNames(s);
  }

  lemma {:induction false} SortMultiset(s: seq<Score>)
    ensures multiset(SortDescending(s)) == multiset(s)
  {
    if s != [] {
      var t := SortDescending(s[1..]);
      assert SortDescending(s) == Insert(s[0], t);
      SortMultiset(s[1..]);
      InsertMultiset(s[0], t);
      assert s == [s[0]] + s[1..];
      assert multiset(s) == multiset(s[1..]) + multiset{s[0]};
    }
  }

  lemma {:induction false} SortNames(s: seq<Score>)
    ensures Names(SortDescending(s)) == Names(s)
  {
    if s != [] {
      var t := SortDescending(s[1..]);
      assert SortDescending(s) == Insert(s[0], t);
      SortNames(s[1..]);
      InsertNames(s[0], t);
      assert s == [s[0]] + s[1..];
      NamesCons(s[0], s[1..]);
    }
  }

  lemma {:induction false} SortIsDescending(s: seq<Score>)
    ensures Descending(SortDescending(s))
  {
    if s != [] {
      SortIsDescending(s[1..]);
      InsertDescending(s[0], SortDescending(s[1..]));
    }
  }

  lemma {:induction false} SortKeepsUnique(s: seq<Score>)
    requires Unique(s)
    ensures Unique(SortDescending(s))
  {
    if s != [] {
      var t := SortDescending(s[1..]);
      UniqueTail(s);
      SortKeepsUnique(s[1..]);
      SortPermutes(s[1..]);
      InsertUnique(s[0], t);
    }
  }

  /** `GetRange(0, n)` when `n` is below the length, the whole list otherwise. */
  function Truncate(s: seq<Score>, n: nat): (r: seq<Score>)
    ensures |r| == if n < |s| then n else |s|
    ensures r == s[..|r|]
  {
    if n < |s| then s[..n] else s
  }

  /** The ranked, truncated list every recommendation returns. */
  function TopN(s: seq<Score>, n: nat): seq<Score> {
    Truncate(SortDescending(s), n)
  }

  /**
   * The top n: as many scores as asked for (or all there are), non-increasing,
   * drawn from the candidates, and no candidate left out scores higher than
   * one kept.
   */
  lemma {:induction false} TopNIsTop(s: seq<Score>, n: nat)
    ensures var r := TopN(s, n);
            && |r| == (if n < |s| then n else |s|)
            && Descending(r)
            && multiset(r) <= multiset(s)
            && forall x, y | x in multiset(s) - multiset(r) && y in r :: AtMost(x.value, y.value)
  {
    var t := SortDescending(s);
    SortPermutes(s);
    SortIsDescending(s);
    PrefixIsTop(t, |TopN(s, n)|);
  }

  /** A prefix of a non-increasing list keeps its order and is at least everything it leaves out. */
  lemma {:induction false} PrefixIsTop(t: seq<Score>, k: int)
    requires Descending(t) && 0 <= k <= |t|
    ensures Descending(t[..k])
    ensures multiset(t[..k]) <= multiset(t)
    ensures forall x, y | x in multiset(t) - multiset(t[..k]) && y in t[..k] :: AtMost(x.value, y.value)
  {
    var kept, dropped := t[..k], t[k..];
    assert multiset(t) - multiset(kept) == multiset(dropped) && multiset(kept) <= multiset(t) by {
      assert t == kept + dropped;
    }
    assert Descending(kept) by {
      forall i, j | 0 <= i < j < |kept| ensures AtMost(kept[j].value, kept[i].value) {
        assert kept[i] == t[i] && kept[j] == t[j];
      }
    }
    forall x, y | x in multiset(dropped) && y in kept ensures AtMost(x.value, y.value) {
      DroppedAtMost(t, k, x, y);
    }
  }

  /** In a non-increasing list, a score after position k is at most any score before it. */
  lemma DroppedAtMost(t: seq<Score>, k: int, x: Score, y: Score)
    requires Descending(t) && 0 <= k <= |t|
    requires x in t[k..] && y in t[..k]
    ensures AtMost(x.value, y.value)
  {
    var j :| 0 <= j < |t[k..]| && t[k..][j] == x;
    var i :| 0 <= i < k && t[..k][i] == y;
    assert t[i] == y && t[k + j] == x;
  }

  /** Every kept score is a candidate, and distinct candidate names stay distinct. */
  lemma {:induction false} TopNNames(s: seq<Score>, n: nat)
    ensures forall y | y in TopN(s, n) :: y in s
    ensures Names(TopN(s, n)) <= Names(s)
    ensures Unique(s) ==> Unique(TopN(s, n))
  {
    var t := SortDescending(s);
    SortDescendingSorts(s);
    var r := TopN(s, n);
    forall y | y in r ensures y in s {
      assert y in multiset(t);
    }
    forall nm | nm in Names(r) ensures nm in Names(t) {
      var i :| 0 <= i < |r| && r[i].name == nm;
      assert t[i] == r[i];
    }
  }

  /**
   * Ties keep encounter order: of two equal scores the first one found is
   * ranked first, so a top-1 list keeps it.
   */
  lemma TopNTieOrder()
    ensures TopN([Score("A", Finite(0.5)), Score("B", Finite(0.5))], 1) == [Score("A", Finite(0.5))]
  {
    var a, b := Score("A", Finite(0.5)), Score("B", Finite(0.5));
    assert SortDescending([b]) == [b];
    assert SortDescending([a, b]) == Insert(a, [b]) == [a, b];
  }
}
