/** The multi-class confusion grid of `macroaverage_values_matrix`: a
    |C| x |C| count grid indexed by (true, predicted) category, the
    one-vs-rest counts derived from its row and column sums, and the
    macro-averaged precision, recall and F1 and overall accuracy. */
module Grid {
  import opened Common
  import opened Metrics
  import Confusion

  type Cell = (nat, nat)

  /** `{category: i for i, category in enumerate(categories)}`: a category
      listed twice keeps the index of its last listing. */
  function IndexMap<C>(categories: seq<C>): (m: map<C, nat>)
    ensures m.Keys == set c | c in categories
    ensures forall c :: c in m ==> m[c] < |categories| && categories[m[c]] == c
    ensures forall c, k :: c in m && m[c] < k < |categories| ==> categories[k] != c
  {
    if categories == [] then map[]
    else IndexMap(categories[..|categories| - 1])[categories[|categories| - 1] := |categories| - 1]
  }

  /** For distinct categories the index of `categories[i]` is `i`. */
  lemma IndexOfDistinct<C>(categories: seq<C>, i: nat)
    requires i < |categories|
    requires forall j, k :: 0 <= j < k < |categories| ==> categories[j] != categories[k]
    ensures categories[i] in IndexMap(categories) && IndexMap(categories)[categories[i]] == i
  {
    assert categories[i] in IndexMap(categories);
  }

  predicate AllIndexed<C>(pairs: seq<(C, C)>, index: map<C, nat>)
  {
    forall k :: 0 <= k < |pairs| ==> pairs[k].0 in index && pairs[k].1 in index
  }

  /** The (true_index, pred_index) cell of every pair. */
  function Cells<C>(pairs: seq<(C, C)>, index: map<C, nat>): (ix: seq<Cell>)
    requires AllIndexed(pairs, index)
    ensures |ix| == |pairs|
    ensures forall k :: 0 <= k < |ix| ==> ix[k] == (index[pairs[k].0], index[pairs[k].1])
  {
    seq(|pairs|, k requires 0 <= k < |pairs| && AllIndexed(pairs, index) => (index[pairs[k].0], index[pairs[k].1]))
  }

  /** Number of cells satisfying `f`. */
  function Count(ix: seq<Cell>, f: Cell -> bool): (n: nat)
    ensures n <= |ix|
  {
    if ix == [] then 0 else Count(ix[..|ix| - 1], f) + (if f(ix[|ix| - 1]) then 1 else 0)
  }

  lemma {:induction false} CountExt(ix: seq<Cell>, f: Cell -> bool, g: Cell -> bool)
    requires forall x :: f(x) == g(x)
    ensures Count(ix, f) == Count(ix, g)
  {
    if ix != [] { CountExt(ix[..|ix| - 1], f, g); }
  }

  lemma {:induction false} CountSplit(ix: seq<Cell>, f: Cell -> bool, g: Cell -> bool, h: Cell -> bool)
    requires forall x :: f(x) == (g(x) || h(x))
    requires forall x :: !(g(x) && h(x))
    ensures Count(ix, f) == Count(ix, g) + Count(ix, h)
  {
    if ix != [] { CountSplit(ix[..|ix| - 1], f, g, h); }
  }

  lemma {:induction false} CountEvery(ix: seq<Cell>, f: Cell -> bool)
    requires forall k :: 0 <= k < |ix| ==> f(ix[k])
    ensures Count(ix, f) == |ix|
  {
    if ix != [] { CountEvery(ix[..|ix| - 1], f); }
  }

  /** The grid entry `confusion_matrix[a, b]` after all pairs are counted. */
  function CellCount(ix: seq<Cell>, a: nat, b: nat): nat
  {
    Count(ix, (x: Cell) => x.0 == a && x.1 == b)
  }

  /** The cell predicates of category index `i`: truly `i`, predicted `i`,
      and the four one-vs-rest outcomes. */
  function TrulyAt(i: nat): Cell -> bool { (x: Cell) => x.0 == i }
  function PredictedAt(i: nat): Cell -> bool { (x: Cell) => x.1 == i }
  function HitAt(i: nat): Cell -> bool { (x: Cell) => x.0 == i && x.1 == i }
  function FalsePositiveAt(i: nat): Cell -> bool { (x: Cell) => x.0 != i && x.1 == i }
  function FalseNegativeAt(i: nat): Cell -> bool { (x: Cell) => x.0 == i && x.1 != i }
  function TrueNegativeAt(i: nat): Cell -> bool { (x: Cell) => x.0 != i && x.1 != i }
  function TouchesAt(i: nat): Cell -> bool { (x: Cell) => x.0 == i || x.1 == i }
  const Everything: Cell -> bool := (x: Cell) => true

  /** The one-vs-rest counts of category index `i`, read off the pairs
      directly: TP are the pairs in cell (i, i), FP those predicted `i` but
      truly something else, FN the converse, TN those touching `i` nowhere. */
  function GridCounts(ix: seq<Cell>, i: nat): Counts
  {
    Counts(Count(ix, HitAt(i)),
           Count(ix, FalsePositiveAt(i)),
           Count(ix, FalseNegativeAt(i)),
           Count(ix, TrueNegativeAt(i)))
  }

  // Sums over the numpy grid, as `sum` and `np.sum` / `np.trace` compute them.

  function RowSum(g: array2<int>, a: nat, k: nat): int
    reads g
    requires a < g.Length0 && k <= g.Length1
  {
    if k == 0 then 0 else RowSum(g, a, k - 1) + g[a, k - 1]
  }

  function ColSum(g: array2<int>, b: nat, k: nat): int
    reads g
    requires b < g.Length1 && k <= g.Length0
  {
    if k == 0 then 0 else ColSum(g, b, k - 1) + g[k - 1, b]
  }

  function GridSum(g: array2<int>, k: nat): int
    reads g
    requires k <= g.Length0
  {
    if k == 0 then 0 else GridSum(g, k - 1) + RowSum(g, k - 1, g.Length1)
  }

  function Trace(g: array2<int>, k: nat): int
    reads g
    requires k <= g.Length0 && k <= g.Length1
  {
    if k == 0 then 0 else Trace(g, k - 1) + g[k - 1, k - 1]
  }

  /** `g` is the n x n grid of the cells `ix`, each of which lies inside it. */
  ghost predicate Tabulates(g: array2<int>, ix: seq<Cell>, n: nat)
    reads g
  {
    && g.Length0 == n && g.Length1 == n
    && (forall k :: 0 <= k < |ix| ==> ix[k].0 < n && ix[k].1 < n)
    && (forall a, b :: 0 <= a < n && 0 <= b < n ==> g[a, b] == CellCount(ix, a, b))
  }

  lemma {:induction false} RowSumCounts(g: array2<int>, ix: seq<Cell>, n: nat, a: nat, k: nat)
    requires Tabulates(g, ix, n) && a < n && k <= n
    ensures RowSum(g, a, k) == Count(ix, (x: Cell) => x.0 == a && x.1 < k)
  {
    if k == 0 {
      CountExt(ix, (x: Cell) => x.0 == a && x.1 < k, (x: Cell) => false);
      CountZero(ix);
    } else {
      RowSumCounts(g, ix, n, a, k - 1);
      CountSplit(ix, (x: Cell) => x.0 == a && x.1 < k, (x: Cell) => x.0 == a && x.1 < k - 1, (x: Cell) => x.0 == a && x.1 == k - 1);
    }
  }

  lemma {:induction false} ColSumCounts(g: array2<int>, ix: seq<Cell>, n: nat, b: nat, k: nat)
    requires Tabulates(g, ix, n) && b < n && k <= n
    ensures ColSum(g, b, k) == Count(ix, (x: Cell) => x.1 == b && x.0 < k)
  {
    if k == 0 {
      CountExt(ix, (x: Cell) => x.1 == b && x.0 < k, (x: Cell) => false);
      CountZero(ix);
    } else {
      ColSumCounts(g, ix, n, b, k - 1);
      CountSplit(ix, (x: Cell) => x.1 == b && x.0 < k, (x: Cell) => x.1 == b && x.0 < k - 1, (x: Cell) => x.0 == k - 1 && x.1 == b);
    }
  }

  lemma {:induction false} CountZero(ix: seq<Cell>)
    ensures Count(ix, (x: Cell) => false) == 0
  {
    if ix != [] { CountZero(ix[..|ix| - 1]); }
  }

  /** Row sum `i` counts the pairs truly in `i`, column sum `i` the pairs
      predicted as `i`. */
  lemma Marginals(g: array2<int>, ix: seq<Cell>, n: nat, i: nat)
    requires Tabulates(g, ix, n) && i < n
    ensures RowSum(g, i, n) == Count(ix, TrulyAt(i))
    ensures ColSum(g, i, n) == Count(ix, PredictedAt(i))
  {
    RowSumCounts(g, ix, n, i, n);
    ColSumCounts(g, ix, n, i, n);
    CountExtOn(ix, (x: Cell) => x.0 == i && x.1 < n, TrulyAt(i));
    CountExtOn(ix, (x: Cell) => x.1 == i && x.0 < n, PredictedAt(i));
  }

  /** Like CountExt, but the two predicates need only agree on the cells. */
  lemma {:induction false} CountExtOn(ix: seq<Cell>, f: Cell -> bool, g: Cell -> bool)
    requires forall k :: 0 <= k < |ix| ==> f(ix[k]) == g(ix[k])
    ensures Count(ix, f) == Count(ix, g)
  {
    if ix != [] { CountExtOn(ix[..|ix| - 1], f, g); }
  }

  lemma {:induction false} GridSumCounts(g: array2<int>, ix: seq<Cell>, n: nat, k: nat)
    requires Tabulates(g, ix, n) && k <= n
    ensures GridSum(g, k) == Count(ix, (x: Cell) => x.0 < k)
  {
    if k == 0 {
      CountExt(ix, (x: Cell) => x.0 < k, (x: Cell) => false);
      CountZero(ix);
    } else {
      GridSumCounts(g, ix, n, k - 1);
      Marginals(g, ix, n, k - 1);
      CountSplit(ix, (x: Cell) => x.0 < k, (x: Cell) => x.0 < k - 1, (x: Cell) => x.0 == k - 1);
    }
  }

  lemma {:induction false} TraceCounts(g: array2<int>, ix: seq<Cell>, n: nat, k: nat)
    requires Tabulates(g, ix, n) && k <= n
    ensures Trace(g, k) == Count(ix, (x: Cell) => x.0 == x.1 && x.0 < k)
  {
    if k == 0 {
      CountExt(ix, (x: Cell) => x.0 == x.1 && x.0 < k, (x: Cell) => false);
      CountZero(ix);
    } else {
      TraceCounts(g, ix, n, k - 1);
      CountSplit(ix, (x: Cell) => x.0 == x.1 && x.0 < k, (x: Cell) => x.0 == x.1 && x.0 < k - 1, (x: Cell) => x.0 == k - 1 && x.1 == k - 1);
    }
  }

  /** The grid total is the number of pairs and the trace the number of
      pairs whose true and predicted index agree. */
  lemma SumAndTrace(g: array2<int>, ix: seq<Cell>, n: nat)
    requires Tabulates(g, ix, n)
    ensures GridSum(g, n) == |ix|
    ensures Trace(g, n) == Count(ix, (x: Cell) => x.0 == x.1)
  {
    GridSumCounts(g, ix, n, n);
    CountExtOn(ix, (x: Cell) => x.0 < n, Everything);
    CountEvery(ix, Everything);
    TraceCounts(g, ix, n, n);
    CountExtOn(ix, (x: Cell) => x.0 == x.1 && x.0 < n, (x: Cell) => x.0 == x.1);
  }

  /** The source's derivation `TP = grid[i, i]`, `FP = column sum - TP`,
      `FN = row sum - TP`, `TN = total - (TP + FP + FN)` yields non-negative
      numbers, and they are exactly the one-vs-rest counts of index `i`. */
  lemma DerivedCounts(g: array2<int>, ix: seq<Cell>, n: nat, i: nat)
    requires Tabulates(g, ix, n) && i < n
    ensures var tp := g[i, i];
            var fp := ColSum(g, i, n) - tp;
            var fn := RowSum(g, i, n) - tp;
            var tn := GridSum(g, n) - (tp + fp + fn);
            && 0 <= tp && 0 <= fp && 0 <= fn && 0 <= tn
            && GridCounts(ix, i) == Counts(tp, fp, fn, tn)
  {
    Marginals(g, ix, n, i);
    SumAndTrace(g, ix, n);
    var c := GridCounts(ix, i);
    assert g[i, i] == c.tp;
    CountSplit(ix, PredictedAt(i), HitAt(i), FalsePositiveAt(i));
    CountSplit(ix, TrulyAt(i), HitAt(i), FalseNegativeAt(i));
    CountSplit(ix, Everything, TouchesAt(i), TrueNegativeAt(i));
    CountSplit(ix, TouchesAt(i), TrulyAt(i), FalsePositiveAt(i));
    CountEvery(ix, Everything);
  }

  /** The pairs truly `i` are its TP and FN. */
  lemma GridCountsActual(ix: seq<Cell>, i: nat)
    ensures GridCounts(ix, i).Actual() == Count(ix, TrulyAt(i))
  {
    CountSplit(ix, TrulyAt(i), HitAt(i), FalseNegativeAt(i));
  }

  /** The pairs predicted `i` are its TP and FP. */
  lemma GridCountsPredicted(ix: seq<Cell>, i: nat)
    ensures GridCounts(ix, i).Predicted() == Count(ix, PredictedAt(i))
  {
    CountSplit(ix, PredictedAt(i), HitAt(i), FalsePositiveAt(i));
  }

  /** Every cell is counted once among the four counts of category `i`. */
  lemma GridCountsTotal(ix: seq<Cell>, i: nat)
    ensures GridCounts(ix, i).Total() == |ix|
  {
    GridCountsActual(ix, i);
    assert Count(ix, TouchesAt(i)) == Count(ix, TrulyAt(i)) + Count(ix, FalsePositiveAt(i)) by {
      CountSplit(ix, TouchesAt(i), TrulyAt(i), FalsePositiveAt(i));
    }
    assert Count(ix, Everything) == Count(ix, TouchesAt(i)) + Count(ix, TrueNegativeAt(i)) by {
      CountSplit(ix, Everything, TouchesAt(i), TrueNegativeAt(i));
    }
    assert Count(ix, Everything) == |ix| by {
      CountEvery(ix, Everything);
    }
  }

  /** Counts agreeing on TP and on the actual, predicted and overall totals
      are equal. */
  lemma SameCounts(a: Counts, b: Counts)
    requires a.tp == b.tp && a.Actual() == b.Actual() && a.Predicted() == b.Predicted() && a.Total() == b.Total()
    ensures a == b
  {
  }

  /** With distinct categories the counts derived from the grid agree with
      `compute_confusion_matrix` for the same category. */
  lemma GridAgreesWithOneVsRest<C>(yTest: seq<C>, yPred: seq<C>, categories: seq<C>, i: nat)
    requires i < |categories|
    requires forall j, k :: 0 <= j < k < |categories| ==> categories[j] != categories[k]
    requires AllIndexed(Confusion.Zip(yTest, yPred), IndexMap(categories))
    ensures GridCounts(Cells(Confusion.Zip(yTest, yPred), IndexMap(categories)), i)
         == Confusion.OneVsRest(yTest, yPred, categories)[categories[i]]
  {
    var pairs := Confusion.Zip(yTest, yPred);
    var index := IndexMap(categories);
    var ix := Cells(pairs, index);
    var c := categories[i];
    IndexOfDistinct(categories, i);
    Confusion.OneVsRestAccounting(yTest, yPred, categories, c);
    CellsMatchLabels(pairs, index, c, i);
    GridCountsActual(ix, i);
    GridCountsPredicted(ix, i);
    GridCountsTotal(ix, i);
    SameCounts(GridCounts(ix, i), Confusion.OneVsRest(yTest, yPred, categories)[c]);
  }

  /** On the cells, "index i" means "label c" when c is the only label with
      index i. */
  lemma {:induction false} CellsMatchLabels<C>(pairs: seq<(C, C)>, index: map<C, nat>, c: C, i: nat)
    requires AllIndexed(pairs, index)
    requires c in index && index[c] == i
    requires forall d :: d in index && index[d] == i ==> d == c
    ensures Count(Cells(pairs, index), HitAt(i)) == Confusion.CountHits(pairs, c)
    ensures Count(Cells(pairs, index), TrulyAt(i)) == Confusion.CountTrue(pairs, c)
    ensures Count(Cells(pairs, index), PredictedAt(i)) == Confusion.CountPredicted(pairs, c)
  {
    if pairs != [] {
      var init := pairs[..|pairs| - 1];
      assert AllIndexed(init, index);
      CellsMatchLabels(init, index, c, i);
      assert Cells(pairs, index)[..|pairs| - 1] == Cells(init, index);
    }
  }

  /** What `macroaverage_values_matrix` prints, plus the per-category counts
      it derives (np.mean of an empty list and 0 / 0 in numpy are NaN,
      modelled as None). */
  datatype MacroReport = MacroReport(
    counts: seq<Counts>,
    precision: Option<real>,
    recall: Option<real>,
    f1: Option<real>,
    accuracy: Option<real>)

  /** Pairs whose true and predicted index agree. */
  function Correct(ix: seq<Cell>): nat
  {
    Count(ix, (x: Cell) => x.0 == x.1)
  }

  /** Pairs whose true and predicted labels agree. */
  function Agreeing<C(==)>(pairs: seq<(C, C)>): (n: nat)
    ensures n <= |pairs|
  {
    if pairs == [] then 0
    else Agreeing(pairs[..|pairs| - 1]) + (if pairs[|pairs| - 1].0 == pairs[|pairs| - 1].1 then 1 else 0)
  }

  /** When different labels get different indices, the cells whose indices
      agree are the pairs whose labels agree. */
  lemma {:induction false} CorrectCells<C>(pairs: seq<(C, C)>, index: map<C, nat>)
    requires AllIndexed(pairs, index)
    requires forall c, d :: c in index && d in index && index[c] == index[d] ==> c == d
    ensures Correct(Cells(pairs, index)) == Agreeing(pairs)
  {
    if pairs != [] {
      var init := pairs[..|pairs| - 1];
      assert AllIndexed(init, index);
      CorrectCells(init, index);
      assert Cells(pairs, index)[..|pairs| - 1] == Cells(init, index);
    }
  }

  /** `np.trace(confusion_matrix)` counts the pairs whose true and
      predicted labels agree, so the accuracy is their share of all pairs. */
  lemma CorrectPairs<C>(pairs: seq<(C, C)>, categories: seq<C>)
    requires AllIndexed(pairs, IndexMap(categories))
    ensures Correct(Cells(pairs, IndexMap(categories))) == Agreeing(pairs)
    ensures Report(Cells(pairs, IndexMap(categories)), |categories|).accuracy
            == if pairs == [] then None else Some(Agreeing(pairs) as real / |pairs| as real)
  {
    var index := IndexMap(categories);
    forall c, d | c in index && d in index && index[c] == index[d]
      ensures c == d
    {
      assert categories[index[c]] == c && categories[index[d]] == d;
    }
    CorrectCells(pairs, index);
  }

  /** The counts of every category index below `n`. */
  function AllGridCounts(ix: seq<Cell>, n: nat): seq<Counts>
  {
    seq(n, i requires 0 <= i < n => GridCounts(ix, i))
  }

  function Precisions(counts: seq<Counts>): seq<real>
  {
    seq(|counts|, i requires 0 <= i < |counts| => Precision(counts[i]))
  }

  /** The recall of each category in turn. */
  function Recalls(counts: seq<Counts>): seq<real>
  {
    seq(|counts|, i requires 0 <= i < |counts| => Recall(counts[i]))
  }

  /** The F1 score of each category in turn. */
  function F1s(counts: seq<Counts>): seq<real>
  {
    seq(|counts|, i requires 0 <= i < |counts| => ScoresOf(counts[i]).f1)
  }

  /** The report for the cells `ix` of an n-category grid. */
  function Report(ix: seq<Cell>, n: nat): MacroReport
  {
    var counts := AllGridCounts(ix, n);
    MacroReport(
      counts,
      Mean(Precisions(counts)),
      Mean(Recalls(counts)),
      Mean(F1s(counts)),
      if |ix| == 0 then None else Some(GuardedRatio(Correct(ix), |ix|)))
  }

  /** Every figure of the report is a rate in [0, 1]; the accuracy is NaN
      exactly when there are no pairs, the macro averages exactly when there
      are no categories. */
  lemma {:induction false} ReportBounds(ix: seq<Cell>, n: nat)
    ensures Report(ix, n).accuracy.None? <==> |ix| == 0
    ensures Report(ix, n).precision.None? <==> n == 0
    ensures Report(ix, n).accuracy.Some? ==> 0.0 <= Report(ix, n).accuracy.value <= 1.0
    ensures Report(ix, n).precision.Some? ==> 0.0 <= Report(ix, n).precision.value <= 1.0
    ensures Report(ix, n).recall.Some? ==> 0.0 <= Report(ix, n).recall.value <= 1.0
    ensures Report(ix, n).f1.Some? ==> 0.0 <= Report(ix, n).f1.value <= 1.0
  {
    var r := Report(ix, n);
    if n > 0 {
      var ps, rs, fs := Precisions(r.counts), Recalls(r.counts), F1s(r.counts);
      forall i | 0 <= i < n
        ensures 0.0 <= ps[i] <= 1.0 && 0.0 <= rs[i] <= 1.0 && 0.0 <= fs[i] <= 1.0
      {
        ScoresBounds(r.counts[i]);
      }
      MeanBounds(Precisions(r.counts));
      MeanBounds(Recalls(r.counts));
      MeanBounds(F1s(r.counts));
    }
  }

  /** `confusion_matrix[a, b] += 1`: the grid now tabulates one more cell. */
  method Increment(g: array2<int>, ghost ix: seq<Cell>, ghost n: nat, a: nat, b: nat)
    requires Tabulates(g, ix, n) && a < n && b < n
    modifies g
    ensures Tabulates(g, ix + [(a, b)], n)
  {
    g[a, b] := g[a, b] + 1;
    forall a', b' | 0 <= a' < n && 0 <= b' < n
      ensures g[a', b'] == CellCount(ix + [(a, b)], a', b')
    {
      assert (ix + [(a, b)])[..|ix|] == ix;
    }
  }

  /** One more pair whose labels both have an index. */
  lemma CellsStep<C>(pairs: seq<(C, C)>, i: nat, index: map<C, nat>)
    requires i < |pairs| && AllIndexed(pairs[..i], index) && pairs[i].0 in index && pairs[i].1 in index
    ensures AllIndexed(pairs[..i + 1], index)
    ensures Cells(pairs[..i + 1], index) == Cells(pairs[..i], index) + [(index[pairs[i].0], index[pairs[i].1])]
  {
    assert pairs[..i + 1] == pairs[..i] + [pairs[i]];
  }

  /** `confusion_matrix[true_index, pred_index] += 1` over the zipped pairs;
      a label missing from `categories` raises KeyError. */
  method BuildGrid<C(==)>(yTest: seq<C>, yPred: seq<C>, categories: seq<C>) returns (r: Result<array2<int>>)
    ensures var pairs := Confusion.Zip(yTest, yPred);
            r.Success? <==> AllIndexed(pairs, IndexMap(categories))
    ensures r.Success? ==> fresh(r.value)
    ensures r.Success? ==>
              && AllIndexed(Confusion.Zip(yTest, yPred), IndexMap(categories))
              && Tabulates(r.value, Cells(Confusion.Zip(yTest, yPred), IndexMap(categories)), |categories|)
    ensures r.Failure? ==> r.error == KeyError
  {
    var n := |categories|;
    var grid := new int[n, n]((_, _) => 0);
    var index := IndexMap(categories);
    ghost var pairs := Confusion.Zip(yTest, yPred);
    var m := if |yTest| <= |yPred| then |yTest| else |yPred|;
    var i := 0;
    while i < m
      invariant 0 <= i <= m && |pairs| == m
      invariant AllIndexed(pairs[..i], index)
      invariant Tabulates(grid, Cells(pairs[..i], index), n)
    {
      var t, p := yTest[i], yPred[i];
      if t !in index || p !in index {
        assert !AllIndexed(pairs, index) by { assert pairs[i] == (t, p); }
        return Failure(KeyError);
      }
      ghost var before := Cells(pairs[..i], index);
      CellsStep(pairs, i, index);
      Increment(grid, before, n, index[t], index[p]);
      i := i + 1;
    }
    assert pairs[..i] == pairs;
    r := Success(grid);
  }

  /** TP, FP, FN and TN of category index `i`, derived from the grid by the
      source's row- and column-sum formulas. */
  method CategoryCounts(grid: array2<int>, ghost ix: seq<Cell>, n: nat, i: nat) returns (c: Counts)
    requires Tabulates(grid, ix, n) && i < n
    ensures c == GridCounts(ix, i)
  {
    DerivedCounts(grid, ix, n, i);
    var tp := grid[i, i];
    var fp := ColSum(grid, i, n) - tp;
    var fn := RowSum(grid, i, n) - tp;
    var tn := GridSum(grid, n) - (tp + fp + fn);
    c := Counts(tp, fp, fn, tn);
  }

  /** The loop of `macroaverage_values_matrix`: for every category index,
      its derived counts and its precision, recall and F1. */
  method PerCategory(grid: array2<int>, ghost ix: seq<Cell>, n: nat)
    returns (counts: seq<Counts>, precisions: seq<real>, recalls: seq<real>, f1s: seq<real>)
    requires Tabulates(grid, ix, n)
    ensures |counts| == n && |precisions| == n && |recalls| == n && |f1s| == n
    ensures forall k :: 0 <= k < n ==> counts[k] == GridCounts(ix, k)
    ensures forall k :: 0 <= k < n ==> precisions[k] == Precision(counts[k])
    ensures forall k :: 0 <= k < n ==> recalls[k] == Recall(counts[k])
    ensures forall k :: 0 <= k < n ==> f1s[k] == ScoresOf(counts[k]).f1
  {
    counts, precisions, recalls, f1s := [], [], [], [];
    var i := 0;
    while i < n
      invariant 0 <= i <= n
      invariant |counts| == i && |precisions| == i && |recalls| == i && |f1s| == i
      invariant forall k :: 0 <= k < i ==> counts[k] == GridCounts(ix, k)
      invariant forall k :: 0 <= k < i ==> precisions[k] == Precision(counts[k])
      invariant forall k :: 0 <= k < i ==> recalls[k] == Recall(counts[k])
      invariant forall k :: 0 <= k < i ==> f1s[k] == ScoresOf(counts[k]).f1
    {
      var c := CategoryCounts(grid, ix, n, i);
      var precision := Precision(c);
      var recall := Recall(c);
      var f1 := F1(precision, recall);
      counts := counts + [c];
      precisions := precisions + [precision];
      recalls := recalls + [recall];
      f1s := f1s + [f1];
      i := i + 1;
    }
  }

  /** The per-category lists built by the loop of `macroaverage_values_matrix`
      are those of the report. */
  lemma ListedCounts(ix: seq<Cell>, n: nat, counts: seq<Counts>)
    requires |counts| == n
    requires forall k :: 0 <= k < n ==> counts[k] == GridCounts(ix, k)
    ensures counts == AllGridCounts(ix, n)
  {
  }

  lemma ListedPrecisions(counts: seq<Counts>, precisions: seq<real>)
    requires |precisions| == |counts|
    requires forall k :: 0 <= k < |counts| ==> precisions[k] == Precision(counts[k])
    ensures precisions == Precisions(counts)
  {
  }

  lemma ListedRecalls(counts: seq<Counts>, recalls: seq<real>)
    requires |recalls| == |counts|
    requires forall k :: 0 <= k < |counts| ==> recalls[k] == Recall(counts[k])
    ensures recalls == Recalls(counts)
  {
  }

  lemma ListedF1s(counts: seq<Counts>, f1s: seq<real>)
    requires |f1s| == |counts|
    requires forall k :: 0 <= k < |counts| ==> f1s[k] == ScoresOf(counts[k]).f1
    ensures f1s == F1s(counts)
  {
  }

  lemma {:induction false} ReportFromLists(ix: seq<Cell>, n: nat, counts: seq<Counts>, precisions: seq<real>, recalls: seq<real>, f1s: seq<real>)
    requires |counts| == n && |precisions| == n && |recalls| == n && |f1s| == n
    requires forall k :: 0 <= k < n ==> counts[k] == GridCounts(ix, k)
    requires forall k :: 0 <= k < n ==> precisions[k] == Precision(counts[k])
    requires forall k :: 0 <= k < n ==> recalls[k] == Recall(counts[k])
    requires forall k :: 0 <= k < n ==> f1s[k] == ScoresOf(counts[k]).f1
    ensures Report(ix, n).counts == counts
    ensures Report(ix, n).precision == Mean(precisions)
    ensures Report(ix, n).recall == Mean(recalls)
    ensures Report(ix, n).f1 == Mean(f1s)
  {
    ListedCounts(ix, n, counts);
    ListedPrecisions(counts, precisions);
    ListedRecalls(counts, recalls);
    ListedF1s(counts, f1s);
  }

  /** The grid and derived-count half of `macroaverage_values_matrix`,
      with the macro averages and the accuracy it prints. */
  method MacroAverage<C(==)>(yTest: seq<C>, yPred: seq<C>, categories: seq<C>) returns (r: Result<MacroReport>)
    ensures var pairs := Confusion.Zip(yTest, yPred);
            r.Success? <==> AllIndexed(pairs, IndexMap(categories))
    ensures r.Failure? ==> r.error == KeyError
    ensures r.Success? ==> r.value == Report(Cells(Confusion.Zip(yTest, yPred), IndexMap(categories)), |categories|)
  {
    var built := BuildGrid(yTest, yPred, categories);
    if built.Failure? {
      return Failure(built.error);
    }
    var grid := built.value;
    ghost var ix := Cells(Confusion.Zip(yTest, yPred), IndexMap(categories));
    var n := |categories|;
    var counts, precisions, recalls, f1s := PerCategory(grid, ix, n);
    SumAndTrace(grid, ix, n);
    var correct := Trace(grid, n);
    var total := GridSum(grid, n);
    var accuracy := if total == 0 then None else Some(correct as real / total as real);
    ReportFromLists(ix, n, counts, precisions, recalls, f1s);
    r := Success(MacroReport(counts, Mean(precisions), Mean(recalls), Mean(f1s), accuracy));
  }
}
