/** `compute_metrics`: accuracy, precision, recall and F1 of one-vs-rest
    counts, each division guarded so that a zero denominator gives 0.
    Python's float division is modelled by exact rational division. */
module Metrics {
  import opened Common

  datatype Scores = Scores(accuracy: real, precision: real, recall: real, f1: real)

  /** `num / den if den > 0 else 0` */
  function GuardedRatio(num: nat, den: nat): (r: real)
    requires num <= den
    ensures den == 0 ==> r == 0.0
    ensures 0.0 <= r <= 1.0
    ensures r == 0.0 <==> num == 0
    ensures r == 1.0 <==> 0 < den && num == den
  {
    if den > 0 then num as real / den as real else 0.0
  }

  function Accuracy(c: Counts): real
  {
    GuardedRatio(c.tp + c.tn, c.Total())
  }

  function Precision(c: Counts): real
  {
    GuardedRatio(c.tp, c.tp + c.fp)
  }

  function Recall(c: Counts): real
  {
    GuardedRatio(c.tp, c.tp + c.fn)
  }

  /** `2 * (p * r) / (p + r) if (p + r) > 0 else 0` */
  function F1(p: real, r: real): real
  {
    if p + r > 0.0 then 2.0 * (p * r) / (p + r) else 0.0
  }

  /** The metrics record the source builds for one category. */
  function ScoresOf(c: Counts): Scores
  {
    var p := Precision(c);
    var r := Recall(c);
    Scores(Accuracy(c), p, r, F1(p, r))
  }

  /** `compute_metrics(confusion_matrix)`: one metrics record per category. */
  function ComputeMetrics<C>(cm: map<C, Counts>): (m: map<C, Scores>)
    ensures m.Keys == cm.Keys
    ensures forall c :: c in cm ==> m[c].precision == Precision(cm[c]) && m[c].recall == Recall(cm[c])
    ensures forall c :: c in cm ==> 0.0 <= m[c].accuracy <= 1.0 && 0.0 <= m[c].f1 <= 1.0
  {
    var m := map c | c in cm :: ScoresOf(cm[c]);
    forall c | c in cm ensures 0.0 <= m[c].f1 <= 1.0 {
      F1Bounds(Precision(cm[c]), Recall(cm[c]));
    }
    m
  }

  /** The harmonic mean of two rates in [0, 1] is again in [0, 1], lies
      between them, and is 0 exactly when one of them is 0. */
  lemma F1Bounds(p: real, r: real)
    requires 0.0 <= p <= 1.0 && 0.0 <= r <= 1.0
    ensures 0.0 <= F1(p, r) <= 1.0
    ensures F1(p, r) == 0.0 <==> p == 0.0 || r == 0.0
    ensures p + r > 0.0 ==> (if p <= r then p else r) <= F1(p, r) <= (if p <= r then r else p)
  {
    if p + r > 0.0 {
      var f := 2.0 * (p * r) / (p + r);
      assert f * (p + r) == 2.0 * (p * r);
      assert p * r >= 0.0;
      MinMaxProduct(p, r, f);
    }
  }

  lemma MinMaxProduct(p: real, r: real, f: real)
    requires 0.0 <= p && 0.0 <= r && p + r > 0.0
    requires f * (p + r) == 2.0 * (p * r)
    ensures f >= 0.0
    ensures f == 0.0 <==> p == 0.0 || r == 0.0
    ensures (if p <= r then p else r) <= f <= (if p <= r then r else p)
  {
    var lo := if p <= r then p else r;
    var hi := if p <= r then r else p;
    var d := hi - lo;
    assert 2.0 * (p * r) - lo * (p + r) == lo * d && hi * (p + r) - 2.0 * (p * r) == hi * d by {
      if p <= r {
        assert 2.0 * (p * r) - p * (p + r) == p * (r - p);
        assert r * (p + r) - 2.0 * (p * r) == r * (r - p);
      } else {
        assert 2.0 * (p * r) - r * (p + r) == r * (p - r);
        assert p * (p + r) - 2.0 * (p * r) == p * (p - r);
      }
    }
    NonNegativeProduct(lo, d);
    NonNegativeProduct(hi, d);
    assert lo * (p + r) <= f * (p + r) <= hi * (p + r);
    ScaleCancel(lo, f, p + r);
    ScaleCancel(f, hi, p + r);
    if p * r == 0.0 { assert f * (p + r) == 0.0; }
    if f == 0.0 { assert p * r == 0.0; }
  }

  lemma NonNegativeProduct(a: real, b: real)
    requires a >= 0.0 && b >= 0.0
    ensures a * b >= 0.0
  {
  }

  lemma ScaleCancel(a: real, b: real, k: real)
    requires k > 0.0 && a * k <= b * k
    ensures a <= b
  {
  }

  /** Every metric of `compute_metrics` is 0 when its denominator is 0 and
      otherwise lies in [0, 1]; F1 is 0 when precision + recall is 0, which
      happens exactly when there is no true positive. */
  lemma ScoresBounds(c: Counts)
    ensures c.Total() == 0 ==> ScoresOf(c).accuracy == 0.0
    ensures c.tp + c.fp == 0 ==> ScoresOf(c).precision == 0.0
    ensures c.tp + c.fn == 0 ==> ScoresOf(c).recall == 0.0
    ensures 0.0 <= ScoresOf(c).accuracy <= 1.0
    ensures 0.0 <= ScoresOf(c).precision <= 1.0
    ensures 0.0 <= ScoresOf(c).recall <= 1.0
    ensures 0.0 <= ScoresOf(c).f1 <= 1.0
    ensures ScoresOf(c).precision + ScoresOf(c).recall == 0.0 ==> ScoresOf(c).f1 == 0.0
    ensures ScoresOf(c).f1 == 0.0 <==> c.tp == 0
  {
    F1Bounds(Precision(c), Recall(c));
  }

  /** With no true positives the category scores zero precision, recall
      and F1 (this covers a category absent from the evaluated set), and no
      division is attempted. */
  lemma NoTruePositives(c: Counts)
    requires c.tp == 0
    ensures ScoresOf(c).precision == 0.0 && ScoresOf(c).recall == 0.0 && ScoresOf(c).f1 == 0.0
  {
  }

  /** Perfect predictions: precision, recall and F1 are all 1. */
  lemma PerfectCategory(c: Counts)
    requires c.tp > 0 && c.fp == 0 && c.fn == 0
    ensures ScoresOf(c).precision == 1.0 && ScoresOf(c).recall == 1.0 && ScoresOf(c).f1 == 1.0
  {
  }

  /** Sum of a list of reals. */
  function Sum(xs: seq<real>): real
  {
    if xs == [] then 0.0 else Sum(xs[..|xs| - 1]) + xs[|xs| - 1]
  }

  /** `np.mean(xs)`; the mean of an empty list is NaN, modelled as None. */
  function Mean(xs: seq<real>): (m: Option<real>)
    ensures m.None? <==> xs == []
  {
    if xs == [] then None else Some(Sum(xs) / |xs| as real)
  }

  lemma {:induction false} SumBounds(xs: seq<real>)
    requires forall k :: 0 <= k < |xs| ==> 0.0 <= xs[k] <= 1.0
    ensures 0.0 <= Sum(xs) <= |xs| as real
  {
    if xs != [] {
      SumBounds(xs[..|xs| - 1]);
    }
  }

  /** A macro average of rates in [0, 1] is again in [0, 1]. */
  lemma MeanBounds(xs: seq<real>)
    requires xs != []
    requires forall k :: 0 <= k < |xs| ==> 0.0 <= xs[k] <= 1.0
    ensures 0.0 <= Mean(xs).value <= 1.0
  {
    SumBounds(xs);
    var n := |xs| as real;
    assert Sum(xs) <= n * 1.0;
    ScaleCancel(Sum(xs) / n, 1.0, n);
  }
}
