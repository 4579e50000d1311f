/** `compute_confusion_matrix`: one-vs-rest TP/FP/FN/TN tallies for every
    category over the zipped (true, predicted) label pairs. */
module Confusion {
  import opened Common

  /** `zip(a, b)`: stops at the shorter of the two sequences. */
  function Zip<C>(a: seq<C>, b: seq<C>): (z: seq<(C, C)>)
    ensures |z| == if |a| <= |b| then |a| else |b|
    ensures forall k :: 0 <= k < |z| ==> z[k] == (a[k], b[k])
  {
    seq(if |a| <= |b| then |a| else |b|, k requires 0 <= k < |a| && k < |b| => (a[k], b[k]))
  }

  /** The cell a pair is tallied in for category `c`. */
  function BucketFor<C(==)>(pair: (C, C), c: C): Bucket
  {
    BucketOf(pair.0 == c, pair.1 == c)
  }

  /** The counters of category `c` after every pair has bumped one cell by
      `k`, the number of times `c` is listed among the categories (the inner
      loop visits a category once per listing). */
  function Tally<C(==)>(pairs: seq<(C, C)>, c: C, k: nat): Counts
  {
    if pairs == [] then Zero
    else Tally(pairs[..|pairs| - 1], c, k).Bump(BucketFor(pairs[|pairs| - 1], c), k)
  }

  /** The dictionary `compute_confusion_matrix` returns. */
  function OneVsRest<C(==)>(yTrue: seq<C>, yPred: seq<C>, categories: seq<C>): (cm: map<C, Counts>)
    ensures cm.Keys == set c | c in categories
  {
    map c | c in categories :: Tally(Zip(yTrue, yPred), c, multiset(categories)[c])
  }

  /** Pairs whose true label is `c`. */
  function CountTrue<C(==)>(pairs: seq<(C, C)>, c: C): (n: nat)
    ensures n <= |pairs|
  {
    if pairs == [] then 0
    else CountTrue(pairs[..|pairs| - 1], c) + (if pairs[|pairs| - 1].0 == c then 1 else 0)
  }

  /** Pairs whose predicted label is `c`. */
  function CountPredicted<C(==)>(pairs: seq<(C, C)>, c: C): (n: nat)
    ensures n <= |pairs|
  {
    if pairs == [] then 0
    else CountPredicted(pairs[..|pairs| - 1], c) + (if pairs[|pairs| - 1].1 == c then 1 else 0)
  }

  /** Pairs that are `(c, c)`: correctly predicted as `c`. */
  function CountHits<C(==)>(pairs: seq<(C, C)>, c: C): (n: nat)
    ensures n <= |pairs|
  {
    if pairs == [] then 0
    else CountHits(pairs[..|pairs| - 1], c) + (if pairs[|pairs| - 1] == (c, c) then 1 else 0)
  }

  /** Every pair lands in exactly one cell, so the counters of a category
      add up to k times the number of pairs; TP + FN counts the pairs truly
      in `c` and TP + FP those predicted as `c`. */
  lemma TallyAccounting<C>(pairs: seq<(C, C)>, c: C, k: nat)
    ensures Tally(pairs, c, k).Total() == k * |pairs|
    ensures Tally(pairs, c, k).Actual() == k * CountTrue(pairs, c)
    ensures Tally(pairs, c, k).Predicted() == k * CountPredicted(pairs, c)
    ensures Tally(pairs, c, k).tp == k * CountHits(pairs, c)
  {
    TallyHits(pairs, c, k);
    TallyTotal(pairs, c, k);
    TallyActual(pairs, c, k);
    TallyPredicted(pairs, c, k);
  }

  lemma {:induction false} TallyTotal<C>(pairs: seq<(C, C)>, c: C, k: nat)
    ensures Tally(pairs, c, k).Total() == k * |pairs|
  {
    if pairs != [] {
      var init := pairs[..|pairs| - 1];
      TallyTotal(init, c, k);
      BumpEffect(Tally(init, c, k), BucketFor(pairs[|pairs| - 1], c), k);
      Distrib(k, |init|, 1);
    }
  }

  lemma {:induction false} TallyHits<C>(pairs: seq<(C, C)>, c: C, k: nat)
    ensures Tally(pairs, c, k).tp == k * CountHits(pairs, c)
  {
    if pairs != [] {
      var init := pairs[..|pairs| - 1];
      var last := pairs[|pairs| - 1];
      TallyHits(init, c, k);
      assert Tally(pairs, c, k) == Tally(init, c, k).Bump(BucketFor(last, c), k);
      BumpEffect(Tally(init, c, k), BucketFor(last, c), k);
      ScaledStep(Tally(init, c, k).tp, CountHits(init, c), k, Tally(pairs, c, k).tp, CountHits(pairs, c), last == (c, c));
    }
  }

  lemma {:induction false} TallyActual<C>(pairs: seq<(C, C)>, c: C, k: nat)
    ensures Tally(pairs, c, k).Actual() == k * CountTrue(pairs, c)
  {
    if pairs != [] {
      var init := pairs[..|pairs| - 1];
      var last := pairs[|pairs| - 1];
      TallyActual(init, c, k);
      assert Tally(pairs, c, k) == Tally(init, c, k).Bump(BucketFor(last, c), k);
      BumpEffect(Tally(init, c, k), BucketFor(last, c), k);
      ScaledStep(Tally(init, c, k).Actual(), CountTrue(init, c), k, Tally(pairs, c, k).Actual(), CountTrue(pairs, c), last.0 == c);
    }
  }

  lemma {:induction false} TallyPredicted<C>(pairs: seq<(C, C)>, c: C, k: nat)
    ensures Tally(pairs, c, k).Predicted() == k * CountPredicted(pairs, c)
  {
    if pairs != [] {
      var init := pairs[..|pairs| - 1];
      var last := pairs[|pairs| - 1];
      TallyPredicted(init, c, k);
      assert Tally(pairs, c, k) == Tally(init, c, k).Bump(BucketFor(last, c), k);
      BumpEffect(Tally(init, c, k), BucketFor(last, c), k);
      ScaledStep(Tally(init, c, k).Predicted(), CountPredicted(init, c), k, Tally(pairs, c, k).Predicted(), CountPredicted(pairs, c), last.1 == c);
    }
  }

  /** A count kept at k times a pair count stays so when one more pair
      adds k to the one and 1 to the other, or nothing to both. */
  lemma ScaledStep(t: nat, n: nat, k: nat, t': nat, n': nat, hit: bool)
    requires t == k * n
    requires t' == t + (if hit then k else 0)
    requires n' == n + (if hit then 1 else 0)
    ensures t' == k * n'
  {
    if hit {
      Distrib(k, n, 1);
    }
  }

  lemma Distrib(k: nat, a: nat, b: nat)
    ensures k * (a + b) == k * a + k * b
  {
  }

  /** For distinct categories (as `unique()` yields them), each category's
      TP + FP + FN + TN is the number of zipped pairs, TP + FN the number of
      pairs whose true label is that category, TP + FP the number of pairs
      predicted as it, and TP the number predicted correctly as it. */
  lemma OneVsRestAccounting<C>(yTrue: seq<C>, yPred: seq<C>, categories: seq<C>, c: C)
    requires c in categories
    requires forall i, j :: 0 <= i < j < |categories| ==> categories[i] != categories[j]
    ensures c in OneVsRest(yTrue, yPred, categories)
    ensures OneVsRest(yTrue, yPred, categories)[c].Total() == |Zip(yTrue, yPred)|
    ensures OneVsRest(yTrue, yPred, categories)[c].Actual() == CountTrue(Zip(yTrue, yPred), c)
    ensures OneVsRest(yTrue, yPred, categories)[c].Predicted() == CountPredicted(Zip(yTrue, yPred), c)
    ensures OneVsRest(yTrue, yPred, categories)[c].tp == CountHits(Zip(yTrue, yPred), c)
  {
    DistinctOccursOnce(categories, c);
    TallyAccounting(Zip(yTrue, yPred), c, 1);
  }

  /** The dictionary keeps one entry per category, but the inner loop
      visits a category once per listing: a category listed k times has
      every pair tallied k times. */
  lemma RepeatedCategoryAccounting<C>(yTrue: seq<C>, yPred: seq<C>, categories: seq<C>, c: C)
    requires c in categories
    ensures c in OneVsRest(yTrue, yPred, categories)
    ensures var k, pairs := multiset(categories)[c], Zip(yTrue, yPred);
            var x := OneVsRest(yTrue, yPred, categories)[c];
            && x.Total() == k * |pairs|
            && x.Actual() == k * CountTrue(pairs, c)
            && x.Predicted() == k * CountPredicted(pairs, c)
            && x.tp == k * CountHits(pairs, c)
  {
    TallyAccounting(Zip(yTrue, yPred), c, multiset(categories)[c]);
  }

  lemma {:induction false} DistinctOccursOnce<C>(s: seq<C>, c: C)
    requires c in s
    requires forall i, j :: 0 <= i < j < |s| ==> s[i] != s[j]
    ensures multiset(s)[c] == 1
  {
    var last := s[|s| - 1];
    var init := s[..|s| - 1];
    assert s == init + [last];
    if c == last {
      assert c !in init;
    } else {
      DistinctOccursOnce(init, c);
    }
  }

  lemma BumpAgain(x: Counts, b: Bucket, m: nat)
    ensures x.Bump(b, m).Bump(b, 1) == x.Bump(b, m + 1)
  {
  }

  lemma TallyPairStep<C>(cm0: map<C, Counts>, t: C, p: C, categories: seq<C>, j: nat,
                         before: map<C, Counts>, after: map<C, Counts>)
    requires j < |categories| && categories[j] in before
    requires before.Keys == cm0.Keys
    requires forall c :: c in before ==> before[c] == cm0[c].Bump(BucketFor((t, p), c), multiset(categories[..j])[c])
    requires after == before[categories[j] := before[categories[j]].Bump(BucketFor((t, p), categories[j]), 1)]
    ensures after.Keys == cm0.Keys
    ensures forall c :: c in after ==> after[c] == cm0[c].Bump(BucketFor((t, p), c), multiset(categories[..j + 1])[c])
  {
    var category := categories[j];
    assert categories[..j + 1] == categories[..j] + [category];
    forall c | c in after
      ensures after[c] == cm0[c].Bump(BucketFor((t, p), c), multiset(categories[..j + 1])[c])
    {
      assert multiset(categories[..j + 1])[c] == multiset(categories[..j])[c] + (if c == category then 1 else 0);
      if c == category {
        BumpAgain(cm0[c], BucketFor((t, p), c), multiset(categories[..j])[c]);
      } else {
        assert after[c] == before[c];
      }
    }
  }

  /** The body of the outer loop: the pair `(t, p)` bumps one cell of every
      listed category, once per listing. */
  method TallyPair<C(==)>(cm0: map<C, Counts>, t: C, p: C, categories: seq<C>)
    returns (cm: map<C, Counts>)
    requires forall c :: c in categories ==> c in cm0
    ensures cm.Keys == cm0.Keys
    ensures forall c :: c in cm ==> cm[c] == cm0[c].Bump(BucketFor((t, p), c), multiset(categories)[c])
  {
    cm := cm0;
    var j := 0;
    while j < |categories|
      invariant 0 <= j <= |categories|
      invariant cm.Keys == cm0.Keys
      invariant forall c :: c in cm ==> cm[c] == cm0[c].Bump(BucketFor((t, p), c), multiset(categories[..j])[c])
    {
      var category := categories[j];
      var b := BucketOf(t == category, p == category);
      ghost var before := cm;
      cm := cm[category := cm[category].Bump(b, 1)];
      TallyPairStep(cm0, t, p, categories, j, before, cm);
      j := j + 1;
    }
    assert categories[..j] == categories;
  }

  /** Counting one more pair. */
  lemma TallyStep<C>(pairs: seq<(C, C)>, i: nat, c: C, k: nat)
    requires i < |pairs|
    ensures Tally(pairs[..i + 1], c, k) == Tally(pairs[..i], c, k).Bump(BucketFor(pairs[i], c), k)
  {
    assert pairs[..i + 1][..i] == pairs[..i];
  }

  /** `compute_confusion_matrix(y_true, y_pred, categories)` */
  method ComputeConfusionMatrix<C(==)>(yTrue: seq<C>, yPred: seq<C>, categories: seq<C>)
    returns (cm: map<C, Counts>)
    ensures cm == OneVsRest(yTrue, yPred, categories)
  {
    ghost var pairs := Zip(yTrue, yPred);
    ghost var mult := multiset(categories);
    cm := map c | c in categories :: Zero;
    var n := if |yTrue| <= |yPred| then |yTrue| else |yPred|;
    var i := 0;
    while i < n
      invariant 0 <= i <= n
      invariant cm.Keys == set c | c in categories
      invariant forall c :: c in cm ==> cm[c] == Tally(pairs[..i], c, mult[c])
    {
      assert pairs[i] == (yTrue[i], yPred[i]);
      cm := TallyPair(cm, yTrue[i], yPred[i], categories);
      forall c | c in cm ensures cm[c] == Tally(pairs[..i + 1], c, mult[c]) {
        TallyStep(pairs, i, c, mult[c]);
      }
      i := i + 1;
    }
    assert pairs[..i] == pairs;
  }
}
