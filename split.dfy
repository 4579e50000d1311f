/** `train_test_split`: a stratified train/test partition. Every category's
    rows are shuffled and cut at `int(len * (1 - test_size))`; the head goes
    to train and the tail to test, and both concatenations are shuffled
    once more. Rows are identified by their position in the frame. The
    random shuffles of `DataFrame.sample(frac=1)` are a parameter that
    returns some rearrangement of what it is given. */
module Split {

  /** `sample(frac=1)`: `f` only rearranges its input. */
  ghost predicate Shuffles(f: seq<nat> -> seq<nat>)
  {
    forall s: seq<nat> :: multiset(f(s)) == multiset(s)
  }

  /** `df[column].unique()`: every value of the column, each exactly once. */
  function Unique<K(==)>(ks: seq<K>): (u: seq<K>)
    ensures forall k :: 0 <= k < |ks| ==> ks[k] in u
    ensures forall k :: 0 <= k < |u| ==> u[k] in ks
    ensures forall i, j :: 0 <= i < j < |u| ==> u[i] != u[j]
  {
    if ks == [] then []
    else
      var n := |ks| - 1;
      var front := Unique(ks[..n]);
      assert forall k :: 0 <= k < n ==> ks[k] == ks[..n][k];
      if ks[n] in front then front else front + [ks[n]]
  }

  /** The column `df[stratify_column]`. */
  function Column<R, K>(df: seq<R>, key: R -> K): (col: seq<K>)
    ensures |col| == |df| && forall i :: 0 <= i < |df| ==> col[i] == key(df[i])
  {
    seq(|df|, i requires 0 <= i < |df| => key(df[i]))
  }

  /** `df[df[stratify_column] == category]`: the positions of the rows of
      `category`, in frame order. */
  function Positions<R, K(==)>(df: seq<R>, key: R -> K, category: K): (ps: seq<nat>)
    ensures forall k :: 0 <= k < |ps| ==> ps[k] < |df| && key(df[ps[k]]) == category
  {
    if df == [] then []
    else
      var n := |df| - 1;
      var front := Positions(df[..n], key, category);
      assert forall k :: 0 <= k < |front| ==> df[front[k]] == df[..n][front[k]];
      front + (if key(df[n]) == category then [n] else [])
  }

  /** Each row of `category` occurs once among its positions, and no other
      row occurs. */
  lemma {:induction false} PositionsCount<R, K>(df: seq<R>, key: R -> K, category: K, i: nat)
    ensures multiset(Positions(df, key, category))[i] == if i < |df| && key(df[i]) == category then 1 else 0
  {
    if df != [] {
      var n := |df| - 1;
      var front: seq<nat> := Positions(df[..n], key, category);
      var last: seq<nat> := if key(df[n]) == category then [n] else [];
      assert Positions(df, key, category) == front + last;
      PositionsCount(df[..n], key, category, i);
      assert multiset(front)[i] == if i < n && key(df[i]) == category then 1 else 0 by {
        if i < n {
          assert df[..n][i] == df[i];
        }
      }
      assert multiset(last)[i] == if i == n && key(df[n]) == category then 1 else 0;
      assert multiset(front + last)[i] == multiset(front)[i] + multiset(last)[i];
    }
  }

  /** `int(x)`: truncation toward zero. */
  function Truncate(x: real): (t: int)
    ensures 0.0 <= x ==> 0 <= t && t as real <= x < t as real + 1.0
    ensures x < 0.0 ==> t <= 0 && t as real - 1.0 < x <= t as real
  {
    if 0.0 <= x then x.Floor else -((-x).Floor)
  }

  /** `split_idx = int(len(category_subset) * (1 - test_size))` */
  function SplitIndex(n: nat, testSize: real): int
  {
    Truncate(n as real * (1.0 - testSize))
  }

  /** Where Python's slices `s[:i]` and `s[i:]` cut a sequence of length
      `n`: a negative `i` counts from the end, and both ends clamp. */
  function SliceBound(i: int, n: nat): (b: nat)
    ensures b <= n
    ensures 0 <= i <= n ==> b == i
  {
    if i < 0 then (if n + i < 0 then 0 else n + i) else if i > n then n else i
  }

  /** The cut of a category with `n` rows: for a test fraction in [0, 1] the
      split index lies in [0, n] and is where the slices cut; it is the
      largest whole number of rows not above the train fraction of `n`. */
  lemma SplitIndexBounds(n: nat, testSize: real)
    requires 0.0 <= testSize <= 1.0
    ensures 0 <= SplitIndex(n, testSize) <= n
    ensures SliceBound(SplitIndex(n, testSize), n) == SplitIndex(n, testSize)
    ensures SplitIndex(n, testSize) as real <= n as real * (1.0 - testSize) < SplitIndex(n, testSize) as real + 1.0
  {
    var x := n as real * (1.0 - testSize);
    Scale(n as real, 1.0 - testSize);
    assert 0.0 <= x <= n as real;
    var t := Truncate(x);
    assert 0 <= t && t as real <= x;
    assert t <= n;
  }

  /** A fraction of a non-negative amount lies between zero and the amount. */
  lemma Scale(a: real, f: real)
    requires 0.0 <= a && 0.0 <= f <= 1.0
    ensures 0.0 <= a * f <= a
  {
    assert a - a * f == a * (1.0 - f);
  }

  /** `category_subset.sample(frac=1)`, as frame positions. */
  function Shuffled<R, K(==)>(df: seq<R>, key: R -> K, category: K, sample: seq<nat> -> seq<nat>): seq<nat>
  {
    sample(Positions(df, key, category))
  }

  /** Where the shuffled rows of a category are cut. */
  function Cut<R, K(==)>(df: seq<R>, key: R -> K, category: K, testSize: real, sample: seq<nat> -> seq<nat>): nat
  {
    var n := |Shuffled(df, key, category, sample)|;
    SliceBound(SplitIndex(n, testSize), n)
  }

  /** `train_subset = category_subset[:split_idx]` */
  function TrainPart<R, K(==)>(df: seq<R>, key: R -> K, category: K, testSize: real, sample: seq<nat> -> seq<nat>): seq<nat>
  {
    Shuffled(df, key, category, sample)[..Cut(df, key, category, testSize, sample)]
  }

  /** `test_subset = category_subset[split_idx:]` */
  function TestPart<R, K(==)>(df: seq<R>, key: R -> K, category: K, testSize: real, sample: seq<nat> -> seq<nat>): seq<nat>
  {
    Shuffled(df, key, category, sample)[Cut(df, key, category, testSize, sample)..]
  }

  /** The train pieces of the categories `cs`, concatenated in order. */
  function TrainPositions<R, K(==)>(df: seq<R>, key: R -> K, cs: seq<K>, testSize: real, sample: seq<nat> -> seq<nat>): seq<nat>
  {
    if cs == [] then []
    else TrainPositions(df, key, cs[..|cs| - 1], testSize, sample) + TrainPart(df, key, cs[|cs| - 1], testSize, sample)
  }

  /** The test pieces of the categories `cs`, concatenated in order. */
  function TestPositions<R, K(==)>(df: seq<R>, key: R -> K, cs: seq<K>, testSize: real, sample: seq<nat> -> seq<nat>): seq<nat>
  {
    if cs == [] then []
    else TestPositions(df, key, cs[..|cs| - 1], testSize, sample) + TestPart(df, key, cs[|cs| - 1], testSize, sample)
  }

  predicate InFrame(ps: seq<nat>, n: nat)
  {
    forall k :: 0 <= k < |ps| ==> ps[k] < n
  }

  /** The rows at the positions `ps`. */
  function RowsAt<R>(df: seq<R>, ps: seq<nat>): (rows: seq<R>)
    requires InFrame(ps, |df|)
    ensures |rows| == |ps| && forall k :: 0 <= k < |ps| ==> rows[k] == df[ps[k]]
  {
    seq(|ps|, k requires 0 <= k < |ps| && InFrame(ps, |df|) => df[ps[k]])
  }

  /** The positions of the rows of the categories `cs`, category by category. */
  function Strata<R, K(==)>(df: seq<R>, key: R -> K, cs: seq<K>): seq<nat>
  {
    if cs == [] then [] else Strata(df, key, cs[..|cs| - 1]) + Positions(df, key, cs[|cs| - 1])
  }

  /** Each category's shuffled rows are split in two, its head going to
      train and its tail to test: the pieces together are its rows. */
  lemma PartsCoverCategory<R, K>(df: seq<R>, key: R -> K, category: K, testSize: real, sample: seq<nat> -> seq<nat>)
    requires Shuffles(sample)
    ensures multiset(TrainPart(df, key, category, testSize, sample)) + multiset(TestPart(df, key, category, testSize, sample))
            == multiset(Positions(df, key, category))
    ensures |TrainPart(df, key, category, testSize, sample)| + |TestPart(df, key, category, testSize, sample)|
            == |Positions(df, key, category)|
  {
    var s := Shuffled(df, key, category, sample);
    var k := Cut(df, key, category, testSize, sample);
    assert s == s[..k] + s[k..];
    assert multiset(s) == multiset(s[..k]) + multiset(s[k..]);
    assert multiset(s) == multiset(Positions(df, key, category));
  }

  /** Over several categories the train and test pieces together hold the
      rows of every category, each once. */
  lemma {:induction false} PositionsCoverStrata<R, K>(df: seq<R>, key: R -> K, cs: seq<K>, testSize: real, sample: seq<nat> -> seq<nat>)
    requires Shuffles(sample)
    ensures multiset(TrainPositions(df, key, cs, testSize, sample)) + multiset(TestPositions(df, key, cs, testSize, sample))
            == multiset(Strata(df, key, cs))
  {
    if cs != [] {
      var n := |cs| - 1;
      PositionsCoverStrata(df, key, cs[..n], testSize, sample);
      PartsCoverCategory(df, key, cs[n], testSize, sample);
    }
  }

  /** The strata of distinct categories hold each row of those categories
      once and no other row. */
  lemma {:induction false} StrataCount<R, K>(df: seq<R>, key: R -> K, cs: seq<K>, i: nat)
    requires forall a, b :: 0 <= a < b < |cs| ==> cs[a] != cs[b]
    ensures multiset(Strata(df, key, cs))[i] == if i < |df| && key(df[i]) in cs then 1 else 0
  {
    if cs != [] {
      var n := |cs| - 1;
      StrataCount(df, key, cs[..n], i);
      PositionsCount(df, key, cs[n], i);
      assert cs == cs[..n] + [cs[n]];
    }
  }

  /** The positions 0 ... n-1 of an n-row frame, in order. */
  function Range(n: nat): (r: seq<nat>)
    ensures |r| == n && forall k :: 0 <= k < n ==> r[k] == k
  {
    seq(n, k requires 0 <= k < n => k)
  }

  lemma {:induction false} RangeCount(n: nat, i: nat)
    ensures multiset(Range(n))[i] == if i < n then 1 else 0
  {
    if n > 0 {
      assert Range(n) == Range(n - 1) + [n - 1];
      RangeCount(n - 1, i);
    }
  }

  /** The rows of `ps` whose category is `category`, in order. */
  function OfCategory<R, K(==)>(df: seq<R>, key: R -> K, ps: seq<nat>, category: K): seq<nat>
  {
    if ps == [] then []
    else
      var n := |ps| - 1;
      OfCategory(df, key, ps[..n], category) + (if ps[n] < |df| && key(df[ps[n]]) == category then [ps[n]] else [])
  }

  lemma {:induction false} OfCategoryCount<R, K>(df: seq<R>, key: R -> K, ps: seq<nat>, category: K, i: nat)
    ensures multiset(OfCategory(df, key, ps, category))[i]
            == if i < |df| && key(df[i]) == category then multiset(ps)[i] else 0
  {
    if ps != [] {
      var n := |ps| - 1;
      var front: seq<nat> := ps[..n];
      OfCategoryCount(df, key, front, category, i);
      var last: seq<nat> := if ps[n] < |df| && key(df[ps[n]]) == category then [ps[n]] else [];
      SnocCount(ps, i);
      assert OfCategory(df, key, ps, category) == OfCategory(df, key, front, category) + last;
      assert multiset(last)[i] == if ps[n] == i && i < |df| && key(df[i]) == category then 1 else 0;
    }
  }

  /** The count of `i` in a non-empty sequence: that in all but the last
      element, plus one if the last is `i`. */
  lemma SnocCount(ps: seq<nat>, i: nat)
    requires ps != []
    ensures multiset(ps)[i] == multiset(ps[..|ps| - 1])[i] + if ps[|ps| - 1] == i then 1 else 0
  {
    assert ps == ps[..|ps| - 1] + [ps[|ps| - 1]];
  }

  /** Rearranging rows does not change how many rows of a category there are. */
  lemma OfCategoryRearranged<R, K>(df: seq<R>, key: R -> K, ps: seq<nat>, qs: seq<nat>, category: K)
    requires multiset(ps) == multiset(qs)
    ensures multiset(OfCategory(df, key, ps, category)) == multiset(OfCategory(df, key, qs, category))
    ensures |OfCategory(df, key, ps, category)| == |OfCategory(df, key, qs, category)|
  {
    forall i: nat
      ensures multiset(OfCategory(df, key, ps, category))[i] == multiset(OfCategory(df, key, qs, category))[i]
    {
      OfCategoryCount(df, key, ps, category, i);
      OfCategoryCount(df, key, qs, category, i);
    }
    assert multiset(OfCategory(df, key, ps, category)) == multiset(OfCategory(df, key, qs, category));
    assert |multiset(OfCategory(df, key, ps, category))| == |OfCategory(df, key, ps, category)|;
  }

  lemma {:induction false} OfCategoryAppend<R, K>(df: seq<R>, key: R -> K, a: seq<nat>, b: seq<nat>, category: K)
    ensures OfCategory(df, key, a + b, category) == OfCategory(df, key, a, category) + OfCategory(df, key, b, category)
    decreases |b|
  {
    if b == [] {
      assert a + b == a;
    } else {
      var n := |b| - 1;
      assert (a + b)[..|a + b| - 1] == a + b[..n];
      OfCategoryAppend(df, key, a, b[..n], category);
    }
  }

  /** Positions that all hold rows of category `d` are all kept when
      selecting `d` and all dropped when selecting another category. */
  lemma {:induction false} OfCategoryUniform<R, K>(df: seq<R>, key: R -> K, ps: seq<nat>, d: K, category: K)
    requires forall k :: 0 <= k < |ps| ==> ps[k] < |df| && key(df[ps[k]]) == d
    ensures OfCategory(df, key, ps, category) == if d == category then ps else []
  {
    if ps != [] {
      var n := |ps| - 1;
      OfCategoryUniform(df, key, ps[..n], d, category);
      assert ps == ps[..n] + [ps[n]];
    }
  }

  /** A shuffled category holds rows of that category only. */
  lemma ShuffledRows<R, K>(df: seq<R>, key: R -> K, category: K, sample: seq<nat> -> seq<nat>)
    requires Shuffles(sample)
    ensures var s := Shuffled(df, key, category, sample);
            InFrame(s, |df|) && forall k :: 0 <= k < |s| ==> key(df[s[k]]) == category
  {
    var ps := Positions(df, key, category);
    var s := Shuffled(df, key, category, sample);
    assert multiset(s) == multiset(ps);
    forall k | 0 <= k < |s| ensures s[k] < |df| && key(df[s[k]]) == category {
      assert s[k] in multiset(ps);
    }
  }

  lemma {:induction false} TrainInFrame<R, K>(df: seq<R>, key: R -> K, cs: seq<K>, testSize: real, sample: seq<nat> -> seq<nat>)
    requires Shuffles(sample)
    ensures InFrame(TrainPositions(df, key, cs, testSize, sample), |df|)
    ensures InFrame(TestPositions(df, key, cs, testSize, sample), |df|)
  {
    if cs != [] {
      TrainInFrame(df, key, cs[..|cs| - 1], testSize, sample);
      ShuffledRows(df, key, cs[|cs| - 1], sample);
    }
  }

  /** The head and the tail of a shuffled category hold rows of that
      category only. */
  lemma PartsOfCategory<R, K>(df: seq<R>, key: R -> K, d: K, testSize: real, sample: seq<nat> -> seq<nat>, c: K)
    requires Shuffles(sample)
    ensures OfCategory(df, key, TrainPart(df, key, d, testSize, sample), c)
            == if d == c then TrainPart(df, key, d, testSize, sample) else []
    ensures OfCategory(df, key, TestPart(df, key, d, testSize, sample), c)
            == if d == c then TestPart(df, key, d, testSize, sample) else []
  {
    ShuffledRows(df, key, d, sample);
    var s := Shuffled(df, key, d, sample);
    var k := Cut(df, key, d, testSize, sample);
    var head, tail := s[..k], s[k..];
    assert TrainPart(df, key, d, testSize, sample) == head;
    assert TestPart(df, key, d, testSize, sample) == tail;
    assert forall j :: 0 <= j < |head| ==> head[j] < |df| && key(df[head[j]]) == d by {
      forall j | 0 <= j < |head| ensures head[j] < |df| && key(df[head[j]]) == d {
        assert head[j] == s[j];
      }
    }
    assert forall j :: 0 <= j < |tail| ==> tail[j] < |df| && key(df[tail[j]]) == d by {
      forall j | 0 <= j < |tail| ensures tail[j] < |df| && key(df[tail[j]]) == d {
        assert tail[j] == s[j + k];
      }
    }
    OfCategoryUniform(df, key, head, d, c);
    OfCategoryUniform(df, key, tail, d, c);
  }

  /** Among the train pieces of distinct categories, the rows of category
      `c` are exactly the head of `c`'s shuffled rows; among the test
      pieces, exactly its tail. */
  lemma {:induction false} CategoryPieces<R, K>(df: seq<R>, key: R -> K, cs: seq<K>, testSize: real, sample: seq<nat> -> seq<nat>, c: K)
    requires Shuffles(sample)
    requires multiset(cs)[c] <= 1
    ensures OfCategory(df, key, TrainPositions(df, key, cs, testSize, sample), c)
            == if c in cs then TrainPart(df, key, c, testSize, sample) else []
    ensures OfCategory(df, key, TestPositions(df, key, cs, testSize, sample), c)
            == if c in cs then TestPart(df, key, c, testSize, sample) else []
  {
    if cs != [] {
      var n := |cs| - 1;
      var d := cs[n];
      var init := cs[..n];
      assert cs == init + [d];
      CategoryPieces(df, key, init, testSize, sample, c);
      PartsOfCategory(df, key, d, testSize, sample, c);
      var train0, test0 := TrainPositions(df, key, init, testSize, sample), TestPositions(df, key, init, testSize, sample);
      var train1, test1 := TrainPart(df, key, d, testSize, sample), TestPart(df, key, d, testSize, sample);
      assert TrainPositions(df, key, cs, testSize, sample) == train0 + train1;
      assert TestPositions(df, key, cs, testSize, sample) == test0 + test1;
      OfCategoryAppend(df, key, train0, train1, c);
      OfCategoryAppend(df, key, test0, test1, c);
      if c == d {
        assert c !in init;
        assert OfCategory(df, key, train0, c) == [] && OfCategory(df, key, test0, c) == [];
      } else {
        assert c in cs <==> c in init;
        assert OfCategory(df, key, train1, c) == [] && OfCategory(df, key, test1, c) == [];
      }
    }
  }

  /** A value occurs at most once in a sequence without repetitions. */
  lemma {:induction false} AtMostOnce<K>(cs: seq<K>, c: K)
    requires forall a, b :: 0 <= a < b < |cs| ==> cs[a] != cs[b]
    ensures multiset(cs)[c] <= 1
  {
    if cs != [] {
      var n := |cs| - 1;
      var init := cs[..n];
      assert cs == init + [cs[n]];
      assert forall a, b :: 0 <= a < b < |init| ==> init[a] != init[b] by {
        forall a, b | 0 <= a < b < |init| ensures init[a] != init[b] {
          assert init[a] == cs[a] && init[b] == cs[b];
        }
      }
      AtMostOnce(init, c);
    }
  }

  /** What `train_test_split` returns, as frame positions: the train pieces
      and the test pieces of every category in `unique()` order, each
      concatenation shuffled once more. */
  function SplitPositions<R, K(==)>(df: seq<R>, key: R -> K, testSize: real, sample: seq<nat> -> seq<nat>): (seq<nat>, seq<nat>)
  {
    var cs := Unique(Column(df, key));
    (sample(TrainPositions(df, key, cs, testSize, sample)), sample(TestPositions(df, key, cs, testSize, sample)))
  }

  /** The strata of all categories of the key column hold every row once. */
  lemma StrataOfAll<R, K>(df: seq<R>, key: R -> K)
    ensures multiset(Strata(df, key, Unique(Column(df, key)))) == multiset(Range(|df|))
  {
    var col := Column(df, key);
    var cs := Unique(col);
    var strata, all := multiset(Strata(df, key, cs)), multiset(Range(|df|));
    forall i: nat ensures strata[i] == all[i] {
      StrataCount(df, key, cs, i);
      RangeCount(|df|, i);
      if i < |df| {
        assert col[i] in cs;
      }
    }
    assert strata == all;
  }

  /** Two sequences that together hold every position below `n` once have
      `n` elements between them and no element in common. */
  lemma Partition(a: seq<nat>, b: seq<nat>, n: nat)
    requires multiset(a) + multiset(b) == multiset(Range(n))
    ensures |a| + |b| == n
    ensures forall i :: i in a ==> i !in b
  {
    assert |multiset(a) + multiset(b)| == |multiset(Range(n))|;
    forall i | i in a ensures i !in b {
      RangeCount(n, i);
      assert multiset(a)[i] >= 1;
      assert (multiset(a) + multiset(b))[i] == 1;
    }
  }

  /** The split is a partition of the frame: every row lands in train or in
      test, none in both and none twice. */
  lemma SplitPartitions<R, K>(df: seq<R>, key: R -> K, testSize: real, sample: seq<nat> -> seq<nat>)
    requires Shuffles(sample)
    ensures var (train, test) := SplitPositions(df, key, testSize, sample);
            && multiset(train) + multiset(test) == multiset(Range(|df|))
            && |train| + |test| == |df|
            && (forall i :: i in train ==> i !in test)
  {
    var cs := Unique(Column(df, key));
    var (train, test) := SplitPositions(df, key, testSize, sample);
    var tp, sp := TrainPositions(df, key, cs, testSize, sample), TestPositions(df, key, cs, testSize, sample);
    assert multiset(train) == multiset(tp) && multiset(test) == multiset(sp);
    PositionsCoverStrata(df, key, cs, testSize, sample);
    StrataOfAll(df, key);
    Partition(train, test, |df|);
  }

  /** Both sets hold positions of rows of the frame. */
  lemma SplitInFrame<R, K>(df: seq<R>, key: R -> K, testSize: real, sample: seq<nat> -> seq<nat>)
    requires Shuffles(sample)
    ensures InFrame(SplitPositions(df, key, testSize, sample).0, |df|)
    ensures InFrame(SplitPositions(df, key, testSize, sample).1, |df|)
  {
    var cs := Unique(Column(df, key));
    var (train, test) := SplitPositions(df, key, testSize, sample);
    var tp, sp := TrainPositions(df, key, cs, testSize, sample), TestPositions(df, key, cs, testSize, sample);
    TrainInFrame(df, key, cs, testSize, sample);
    assert multiset(train) == multiset(tp) && multiset(test) == multiset(sp);
    forall k | 0 <= k < |train| ensures train[k] < |df| { assert train[k] in multiset(tp); }
    forall k | 0 <= k < |test| ensures test[k] < |df| { assert test[k] in multiset(sp); }
  }

  /** Stratification: of the `n` rows of a category, the train set holds
      exactly `int(n * (1 - test_size))` (as Python slices that index) and
      the test set the rest. */
  lemma SplitStratified<R, K>(df: seq<R>, key: R -> K, testSize: real, sample: seq<nat> -> seq<nat>, c: K)
    requires Shuffles(sample)
    ensures var (train, test) := SplitPositions(df, key, testSize, sample);
            var n := |Positions(df, key, c)|;
            && InFrame(train, |df|) && InFrame(test, |df|)
            && |OfCategory(df, key, train, c)| == SliceBound(SplitIndex(n, testSize), n)
            && |OfCategory(df, key, test, c)| == n - SliceBound(SplitIndex(n, testSize), n)
  {
    var cs := Unique(Column(df, key));
    var (train, test) := SplitPositions(df, key, testSize, sample);
    var tp, sp := TrainPositions(df, key, cs, testSize, sample), TestPositions(df, key, cs, testSize, sample);
    var n := |Positions(df, key, c)|;
    AtMostOnce(cs, c);
    CategoryPieces(df, key, cs, testSize, sample, c);
    SplitInFrame(df, key, testSize, sample);
    OfCategoryRearranged(df, key, train, tp, c);
    OfCategoryRearranged(df, key, test, sp, c);
    assert |Shuffled(df, key, c, sample)| == n by {
      assert |multiset(Shuffled(df, key, c, sample))| == |multiset(Positions(df, key, c))|;
    }
  }

  /** One more category of the split loop. */
  lemma PositionsStep<R, K>(df: seq<R>, key: R -> K, cs: seq<K>, j: nat, testSize: real, sample: seq<nat> -> seq<nat>)
    requires j < |cs|
    ensures TrainPositions(df, key, cs[..j + 1], testSize, sample)
            == TrainPositions(df, key, cs[..j], testSize, sample) + TrainPart(df, key, cs[j], testSize, sample)
    ensures TestPositions(df, key, cs[..j + 1], testSize, sample)
            == TestPositions(df, key, cs[..j], testSize, sample) + TestPart(df, key, cs[j], testSize, sample)
  {
    assert cs[..j + 1][..j] == cs[..j];
  }

  /** `train_test_split(df, test_size)`: the rows of the train set and of the
      test set. */
  method TrainTestSplit<R, K(==)>(df: seq<R>, key: R -> K, testSize: real, sample: seq<nat> -> seq<nat>)
    returns (trainSet: seq<R>, testSet: seq<R>)
    requires Shuffles(sample)
    ensures var (train, test) := SplitPositions(df, key, testSize, sample);
            && InFrame(train, |df|) && InFrame(test, |df|)
            && trainSet == RowsAt(df, train) && testSet == RowsAt(df, test)
  {
    var categories := Unique(Column(df, key));
    var trainPositions: seq<nat> := [];
    var testPositions: seq<nat> := [];
    var j := 0;
    while j < |categories|
      invariant 0 <= j <= |categories|
      invariant trainPositions == TrainPositions(df, key, categories[..j], testSize, sample)
      invariant testPositions == TestPositions(df, key, categories[..j], testSize, sample)
    {
      var categorySubset := sample(Positions(df, key, categories[j]));
      var splitIdx := SplitIndex(|categorySubset|, testSize);
      var cut := SliceBound(splitIdx, |categorySubset|);
      PositionsStep(df, key, categories, j, testSize, sample);
      trainPositions := trainPositions + categorySubset[..cut];
      testPositions := testPositions + categorySubset[cut..];
      j := j + 1;
    }
    assert categories[..j] == categories;
    var train, test := sample(trainPositions), sample(testPositions);
    SplitInFrame(df, key, testSize, sample);
    trainSet := RowsAt(df, train);
    testSet := RowsAt(df, test);
  }
}
