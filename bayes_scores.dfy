/** What `_calculate_posteriors`, `predict` and `classify` compute from a
    trained model, stated on values: the add-one smoothed likelihoods, the
    posteriors in the insertion order of `class_priors`, Python's `max` with
    a key (the first maximal key wins) and the threshold bucketing. Real
    arithmetic is exact: float rounding and underflow are not modelled. */
module BayesScores {
  import opened Common
  import opened BayesTables
  import Tokens

  /** What the scoring methods read from the classifier: the trained
      tables, the labels of `class_priors` in insertion order and
      `class_priors` itself. */
  datatype Model = Model(tables: Tables, priorOrder: seq<Word>, priors: map<Word, real>)

  /** Every model a classifier reaches: consistent tables, and priors for
      labels of `class_word_counts`, each listed once in the order. */
  ghost predicate ModelOk(m: Model)
  {
    && Consistent(m.tables)
    && Distinct(m.priorOrder)
    && (forall l :: l in m.priors <==> l in m.priorOrder)
    && (forall l :: l in m.priors ==> l in m.tables.counts)
  }

  /** `total_words + len(self.vocab)` for label `l`. */
  function Denominator(m: Model, l: Word): nat
  {
    Count(m.tables, l, TOTAL) + |m.tables.vocab|
  }

  /** `(word_count + 1) / (total_words + len(self.vocab))` */
  function Factor(m: Model, l: Word, w: Word): real
    requires Denominator(m, l) > 0
  {
    (Count(m.tables, l, w) + 1) as real / Denominator(m, l) as real
  }

  /** `likelihood` after multiplying in the factors of `words`. */
  function Product(m: Model, l: Word, words: seq<Word>): real
    requires Denominator(m, l) > 0
  {
    if words == [] then 1.0 else Product(m, l, words[..|words| - 1]) * Factor(m, l, words[|words| - 1])
  }

  /** The likelihood loop of one label: the division raises when the
      denominator is 0, which happens only if there is a word to score. */
  function Likelihood(m: Model, l: Word, words: seq<Word>): (r: Result<real>)
    ensures r.Failure? ==> r.error == ZeroDivisionError && words != []
  {
    if words == [] then Success(1.0)
    else if Denominator(m, l) == 0 then Failure(ZeroDivisionError)
    else Success(Product(m, l, words))
  }

  /** `prior * likelihood` for one label whose likelihood loop succeeded. */
  function PosteriorOf(m: Model, l: Word, words: seq<Word>): real
    requires l in m.priors && Likelihood(m, l, words).Success?
  {
    m.priors[l] * Likelihood(m, l, words).value
  }

  /** The posteriors of the labels `order`, computed in that order; the
      first failing label ends the computation. */
  function PosteriorsOver(m: Model, order: seq<Word>, words: seq<Word>): (r: Result<map<Word, real>>)
    requires forall l :: l in order ==> l in m.priors
    ensures r.Failure? ==> r.error == ZeroDivisionError
  {
    if order == [] then Success(map[])
    else
      var n := |order| - 1;
      var front := PosteriorsOver(m, order[..n], words);
      var lk := Likelihood(m, order[n], words);
      if front.Failure? then front
      else if lk.Failure? then Failure(lk.error)
      else Success(front.value[order[n] := PosteriorOf(m, order[n], words)])
  }

  /** `_calculate_posteriors(text)` on the text's tokens. */
  function Posteriors(m: Model, words: seq<Word>): (r: Result<map<Word, real>>)
    requires ModelOk(m)
    ensures r.Success? ==> forall l :: l in r.value <==> l in m.priorOrder
    ensures r.Failure? ==> r.error == ZeroDivisionError
  {
    PosteriorsOverKeys(m, m.priorOrder, words);
    PosteriorsOver(m, m.priorOrder, words)
  }

  /** A successful computation has one posterior per label of `order`. */
  lemma {:induction false} PosteriorsOverKeys(m: Model, order: seq<Word>, words: seq<Word>)
    requires forall l :: l in order ==> l in m.priors
    ensures PosteriorsOver(m, order, words).Success? ==>
              forall l :: l in PosteriorsOver(m, order, words).value <==> l in order
  {
    if order != [] {
      var n := |order| - 1;
      PosteriorsOverKeys(m, order[..n], words);
      assert order == order[..n] + [order[n]];
    }
  }

  /** The posterior computation fails (dividing by zero) exactly when there
      is a word to score and some label has no tokens while the vocabulary
      is empty. */
  lemma {:induction false} PosteriorsOverFails(m: Model, order: seq<Word>, words: seq<Word>)
    requires forall l :: l in order ==> l in m.priors
    ensures PosteriorsOver(m, order, words).Failure?
            <==> words != [] && exists l :: l in order && Denominator(m, l) == 0
  {
    if order != [] {
      var n := |order| - 1;
      PosteriorsOverFails(m, order[..n], words);
      if PosteriorsOver(m, order[..n], words).Failure? {
        var l :| l in order[..n] && Denominator(m, l) == 0;
        assert l in order;
      } else if PosteriorsOver(m, order, words).Success? {
        forall l | l in order ensures words == [] || Denominator(m, l) != 0 {
          if l !in order[..n] {
            assert order == order[..n] + [order[n]];
            assert l == order[n];
          }
        }
      }
    }
  }

  /** One failing likelihood makes the whole computation fail. */
  lemma PosteriorsOverFailsAt(m: Model, order: seq<Word>, words: seq<Word>, i: nat)
    requires forall l :: l in order ==> l in m.priors
    requires i < |order| && Likelihood(m, order[i], words).Failure?
    ensures PosteriorsOver(m, order, words) == Failure(ZeroDivisionError)
  {
    PosteriorsOverFails(m, order, words);
    assert order[i] in order;
  }

  /** One more label computed after the prefix `order[..i]`: its posterior
      is its prior times its likelihood. */
  lemma PosteriorsOverStep(m: Model, order: seq<Word>, words: seq<Word>, i: nat, done: map<Word, real>, posterior: real)
    requires forall l :: l in order ==> l in m.priors
    requires i < |order| && order[i] in m.priors
    requires PosteriorsOver(m, order[..i], words) == Success(done)
    requires Likelihood(m, order[i], words).Success?
    requires posterior == m.priors[order[i]] * Likelihood(m, order[i], words).value
    ensures PosteriorsOver(m, order[..i + 1], words) == Success(done[order[i] := posterior])
  {
    var next := order[..i + 1];
    assert |next| - 1 == i && next[i] == order[i];
    assert next[..i] == order[..i];
    assert PosteriorOf(m, order[i], words) == posterior;
    assert PosteriorsOver(m, next, words) == Success(done[next[i] := PosteriorOf(m, next[i], words)]);
  }

  /** The posteriors are the priors times the smoothed likelihoods. */
  lemma {:induction false} PosteriorsOverValues(m: Model, order: seq<Word>, words: seq<Word>)
    requires forall l :: l in order ==> l in m.priors
    ensures PosteriorsOver(m, order, words).Success? ==>
              forall l :: l in order ==>
                Likelihood(m, l, words).Success? && l in PosteriorsOver(m, order, words).value
                && PosteriorsOver(m, order, words).value[l] == PosteriorOf(m, l, words)
  {
    if order != [] && PosteriorsOver(m, order, words).Success? {
      var n := |order| - 1;
      PosteriorsOverValues(m, order[..n], words);
      var r := PosteriorsOver(m, order, words).value;
      forall l | l in order
        ensures Likelihood(m, l, words).Success? && l in r && r[l] == PosteriorOf(m, l, words)
      {
        if l != order[n] {
          assert order == order[..n] + [order[n]];
          assert l in order[..n];
        }
      }
    }
  }

  /** Laplace smoothing: every factor is strictly positive, even for a word
      never seen with the label. */
  lemma {:induction false} ProductPositive(m: Model, l: Word, words: seq<Word>)
    requires Denominator(m, l) > 0
    ensures Product(m, l, words) > 0.0
  {
    if words != [] {
      var n := |words| - 1;
      ProductPositive(m, l, words[..n]);
      var a, b := Product(m, l, words[..n]), Factor(m, l, words[n]);
      assert b > 0.0;
      assert a * b > 0.0;
    }
  }

  /** With a non-empty vocabulary no posterior computation fails, and a label
      with a positive prior has a positive posterior. */
  lemma {:induction false} PosteriorsPositive(m: Model, words: seq<Word>)
    requires ModelOk(m) && |m.tables.vocab| > 0
    ensures Posteriors(m, words).Success?
    ensures forall l :: l in m.priorOrder && m.priors[l] > 0.0 ==> Posteriors(m, words).value[l] > 0.0
  {
    PosteriorsOverFails(m, m.priorOrder, words);
    PosteriorsOverValues(m, m.priorOrder, words);
    var post := PosteriorsOver(m, m.priorOrder, words);
    assert Posteriors(m, words) == post;
    assert forall l :: Denominator(m, l) > 0;
    assert post.Success?;
    forall l | l in m.priorOrder && m.priors[l] > 0.0 ensures post.value[l] > 0.0 {
      PosteriorOfPositive(m, l, words);
    }
  }

  /** A positive prior times a smoothed likelihood is positive. */
  lemma PosteriorOfPositive(m: Model, l: Word, words: seq<Word>)
    requires l in m.priors && m.priors[l] > 0.0 && Denominator(m, l) > 0
    ensures Likelihood(m, l, words).Success? && PosteriorOf(m, l, words) > 0.0
  {
    var lk := Likelihood(m, l, words);
    if words != [] {
      ProductPositive(m, l, words);
    }
    PositiveProduct(m.priors[l], lk.value, PosteriorOf(m, l, words));
  }

  lemma PositiveProduct(p: real, q: real, v: real)
    requires p > 0.0 && q > 0.0 && v == p * q
    ensures v > 0.0
  {
  }


  /** `max(scores, key=scores.get)` over keys in the order `order`: the
      position of the first maximal score. */
  function ArgMaxIndex(order: seq<Word>, scores: map<Word, real>): (i: nat)
    requires order != [] && forall l :: l in order ==> l in scores
    ensures i < |order|
    ensures forall j :: 0 <= j < |order| ==> scores[order[j]] <= scores[order[i]]
    ensures forall j :: 0 <= j < i ==> scores[order[j]] < scores[order[i]]
  {
    var n := |order| - 1;
    if n == 0 then 0
    else
      var k := ArgMaxIndex(order[..n], scores);
      assert forall j :: 0 <= j < n ==> order[..n][j] == order[j];
      if scores[order[n]] > scores[order[k]] then n else k
  }

  /** `max(posteriors, key=posteriors.get)`; `max` of an empty dict raises
      ValueError. */
  function Best(order: seq<Word>, scores: map<Word, real>): (r: Result<Word>)
    requires forall l :: l in order ==> l in scores
    ensures r.Failure? <==> order == []
    ensures r.Failure? ==> r.error == ValueError
    ensures r.Success? ==> r.value in order
  {
    if order == [] then Failure(ValueError) else Success(order[ArgMaxIndex(order, scores)])
  }

  /** One iteration of `predict`: the label of one text. */
  function PredictOne(m: Model, tok: Tokens.Tokenizer, text: Word): Result<Word>
    requires ModelOk(m)
  {
    var post := Posteriors(m, tok.Apply(text));
    if post.Failure? then Failure(post.error) else Best(m.priorOrder, post.value)
  }

  /** The label of one text is the first label in `class_priors` order
      with a maximal posterior. */
  lemma PredictOneSpec(m: Model, tok: Tokens.Tokenizer, text: Word)
    requires ModelOk(m)
    ensures PredictOne(m, tok, text).Success? <==> Posteriors(m, tok.Apply(text)).Success? && m.priorOrder != []
    ensures PredictOne(m, tok, text).Success? ==>
              var post := Posteriors(m, tok.Apply(text)).value;
              var i := ArgMaxIndex(m.priorOrder, post);
              && PredictOne(m, tok, text).value == m.priorOrder[i]
              && (forall j :: 0 <= j < |m.priorOrder| ==> post[m.priorOrder[j]] <= post[m.priorOrder[i]])
              && (forall j :: 0 <= j < i ==> post[m.priorOrder[j]] < post[m.priorOrder[i]])
  {
  }

  /** The label of each text in turn. */
  function Predictions(m: Model, tok: Tokens.Tokenizer, X: seq<Word>): (rs: seq<Result<Word>>)
    requires ModelOk(m)
    ensures |rs| == |X|
  {
    seq(|X|, k requires 0 <= k < |X| => PredictOne(m, tok, X[k]))
  }

  /** `predict(X)`: the labels of all texts, or the first error. */
  function PredictAll(m: Model, tok: Tokens.Tokenizer, X: seq<Word>): (r: Result<seq<Word>>)
    requires ModelOk(m)
    ensures r.Success? ==> |r.value| == |X|
  {
    Collect(Predictions(m, tok, X))
  }

  /** `predict` returns one label per text, each the label `PredictOne`
      gives that text alone (the first label in `class_priors` order with a
      maximal posterior, by `PredictOneSpec`); it fails exactly when some
      text fails on its own. */
  lemma {:induction false} PredictAllSpec(m: Model, tok: Tokens.Tokenizer, X: seq<Word>)
    requires ModelOk(m)
    ensures PredictAll(m, tok, X).Success? <==> forall k :: 0 <= k < |X| ==> PredictOne(m, tok, X[k]).Success?
    ensures PredictAll(m, tok, X).Success? ==>
              && |PredictAll(m, tok, X).value| == |X|
              && forall k :: 0 <= k < |X| ==> PredictOne(m, tok, X[k]) == Success(PredictAll(m, tok, X).value[k])
  {
    var rs := Predictions(m, tok, X);
    CollectSpec(rs);
    assert forall k :: 0 <= k < |X| ==> rs[k] == PredictOne(m, tok, X[k]);
  }

  /** `sum(posteriors.values())` */
  function SumOver(order: seq<Word>, post: map<Word, real>): real
    requires forall l :: l in order ==> l in post
  {
    if order == [] then 0.0 else SumOver(order[..|order| - 1], post) + post[order[|order| - 1]]
  }

  lemma {:induction false} SumOverPositive(order: seq<Word>, post: map<Word, real>, c: Word)
    requires forall l :: l in order ==> l in post && post[l] > 0.0
    requires c in order
    ensures SumOver(order, post) >= post[c] > 0.0
  {
    var n := |order| - 1;
    if order[..n] == [] {
      assert order == [order[n]];
    } else {
      if c in order[..n] {
        SumOverPositive(order[..n], post, c);
      } else {
        assert c == order[n];
        SumOverNonNegative(order[..n], post);
      }
    }
  }

  lemma {:induction false} SumOverNonNegative(order: seq<Word>, post: map<Word, real>)
    requires forall l :: l in order ==> l in post && post[l] > 0.0
    ensures SumOver(order, post) >= 0.0
  {
    if order != [] {
      SumOverNonNegative(order[..|order| - 1], post);
    }
  }

  /** One iteration of `classify`: the normalised score `cat_prob /
      total_sum` of document `i` and whether its true label is `category`,
      with the errors in the order the source meets them. */
  function DocOutcome(m: Model, tok: Tokens.Tokenizer, X: seq<Word>, y: seq<Word>, i: nat, category: Word): Result<(real, bool)>
    requires ModelOk(m) && i < |X|
  {
    var post := Posteriors(m, tok.Apply(X[i]));
    if post.Failure? then Failure(post.error)
    else if category !in post.value then Failure(KeyError)
    else
      var total := SumOver(m.priorOrder, post.value);
      if total == 0.0 then Failure(ZeroDivisionError)
      else if i >= |y| then Failure(IndexError)
      else Success((post.value[category] / total, y[i] == category))
  }

  /** The outcome of each document in turn. */
  function DocOutcomes(m: Model, tok: Tokens.Tokenizer, X: seq<Word>, y: seq<Word>, category: Word): (rs: seq<Result<(real, bool)>>)
    requires ModelOk(m)
    ensures |rs| == |X|
  {
    seq(|X|, i requires 0 <= i < |X| => DocOutcome(m, tok, X, y, i, category))
  }

  /** The bucketing of `classify`: positive iff the score is strictly above
      the threshold. */
  function ThresholdCounts(o: seq<(real, bool)>, umbral: real): Counts
  {
    if o == [] then Zero
    else
      var x := o[|o| - 1];
      ThresholdCounts(o[..|o| - 1], umbral).Bump(BucketOf(x.1, x.0 > umbral), 1)
  }

  /** One more document compared with the threshold. */
  lemma ThresholdStep(o: seq<(real, bool)>, x: (real, bool), umbral: real)
    ensures ThresholdCounts(o + [x], umbral) == ThresholdCounts(o, umbral).Bump(BucketOf(x.1, x.0 > umbral), 1)
  {
    assert (o + [x])[..|o|] == o;
  }

  /** `classify(X, y, umbral, category)`: when it succeeds, every document
      lands in exactly one of the four buckets. */
  function ClassifySpec(m: Model, tok: Tokens.Tokenizer, X: seq<Word>, y: seq<Word>, umbral: real, category: Word): (r: Result<Counts>)
    requires ModelOk(m)
    ensures r.Success? ==> r.value.Total() == |X|
  {
    var o := Collect(DocOutcomes(m, tok, X, y, category));
    if o.Failure? then Failure(o.error)
    else
      ThresholdTotal(o.value, umbral);
      Success(ThresholdCounts(o.value, umbral))
  }

  /** Number of documents whose true label is the category. */
  function Positives(o: seq<(real, bool)>): nat
  {
    if o == [] then 0 else Positives(o[..|o| - 1]) + (if o[|o| - 1].1 then 1 else 0)
  }

  /** Number of documents scored above the threshold. */
  function Above(o: seq<(real, bool)>, umbral: real): nat
  {
    if o == [] then 0 else Above(o[..|o| - 1], umbral) + (if o[|o| - 1].0 > umbral then 1 else 0)
  }

  lemma {:induction false} ThresholdTotal(o: seq<(real, bool)>, umbral: real)
    ensures ThresholdCounts(o, umbral).Total() == |o|
  {
    if o != [] {
      var x := o[|o| - 1];
      ThresholdTotal(o[..|o| - 1], umbral);
      BumpEffect(ThresholdCounts(o[..|o| - 1], umbral), BucketOf(x.1, x.0 > umbral), 1);
    }
  }

  lemma {:induction false} ThresholdActual(o: seq<(real, bool)>, umbral: real)
    ensures ThresholdCounts(o, umbral).Actual() == Positives(o)
  {
    if o != [] {
      var x := o[|o| - 1];
      ThresholdActual(o[..|o| - 1], umbral);
      BumpEffect(ThresholdCounts(o[..|o| - 1], umbral), BucketOf(x.1, x.0 > umbral), 1);
    }
  }

  lemma {:induction false} ThresholdPredicted(o: seq<(real, bool)>, umbral: real)
    ensures ThresholdCounts(o, umbral).Predicted() == Above(o, umbral)
  {
    if o != [] {
      var x := o[|o| - 1];
      ThresholdPredicted(o[..|o| - 1], umbral);
      BumpEffect(ThresholdCounts(o[..|o| - 1], umbral), BucketOf(x.1, x.0 > umbral), 1);
    }
  }

  /** Every document lands in exactly one bucket; TP + FN counts the
      documents of the category whatever the threshold, and TP + FP the
      documents scored strictly above it. */
  lemma {:induction false} ThresholdAccounting(o: seq<(real, bool)>, umbral: real)
    ensures ThresholdCounts(o, umbral).Total() == |o|
    ensures ThresholdCounts(o, umbral).Actual() == Positives(o)
    ensures ThresholdCounts(o, umbral).Predicted() == Above(o, umbral)
  {
    ThresholdTotal(o, umbral);
    ThresholdActual(o, umbral);
    ThresholdPredicted(o, umbral);
  }

  /** Raising the threshold never adds a positive: TP and FP shrink, FN and
      TN grow. */
  lemma {:induction false} ThresholdMonotone(o: seq<(real, bool)>, lo: real, hi: real)
    requires lo <= hi
    ensures ThresholdCounts(o, hi).tp <= ThresholdCounts(o, lo).tp
    ensures ThresholdCounts(o, hi).fp <= ThresholdCounts(o, lo).fp
    ensures ThresholdCounts(o, hi).fn >= ThresholdCounts(o, lo).fn
    ensures ThresholdCounts(o, hi).tn >= ThresholdCounts(o, lo).tn
  {
    if o != [] {
      ThresholdMonotone(o[..|o| - 1], lo, hi);
    }
  }

  /** When every score is above the threshold, every document is predicted
      positive: there are no false or true negatives. */
  lemma {:induction false} AllAbove(o: seq<(real, bool)>, umbral: real)
    requires forall k :: 0 <= k < |o| ==> o[k].0 > umbral
    ensures ThresholdCounts(o, umbral).fn == 0 && ThresholdCounts(o, umbral).tn == 0
  {
    if o != [] {
      AllAbove(o[..|o| - 1], umbral);
    }
  }

  /** On such a model a document that is scored gets a positive score. */
  lemma {:induction false} DocScorePositive(m: Model, tok: Tokens.Tokenizer, X: seq<Word>, y: seq<Word>, i: nat, category: Word)
    requires ModelOk(m) && |m.tables.vocab| > 0 && i < |X|
    requires forall l :: l in m.priors ==> m.priors[l] > 0.0
    requires DocOutcome(m, tok, X, y, i, category).Success?
    ensures DocOutcome(m, tok, X, y, i, category).value.0 > 0.0
  {
    var words := tok.Apply(X[i]);
    PosteriorsPositive(m, words);
    var post := Posteriors(m, words).value;
    assert category in post;
    SumOverPositive(m.priorOrder, post, category);
    var a, b := post[category], SumOver(m.priorOrder, post);
    PositiveQuotient(a, b);
  }

  lemma PositiveQuotient(a: real, b: real)
    requires a > 0.0 && b > 0.0
    ensures a / b > 0.0
  {
  }

  /** `classify` with threshold 0 on a model with a non-empty vocabulary and
      positive priors predicts every document positive, so FN == TN == 0. */
  lemma {:induction false} ZeroThresholdAllPositive(m: Model, tok: Tokens.Tokenizer, X: seq<Word>, y: seq<Word>, category: Word)
    requires ModelOk(m) && |m.tables.vocab| > 0
    requires forall l :: l in m.priors ==> m.priors[l] > 0.0
    requires ClassifySpec(m, tok, X, y, 0.0, category).Success?
    ensures ClassifySpec(m, tok, X, y, 0.0, category).value.fn == 0
    ensures ClassifySpec(m, tok, X, y, 0.0, category).value.tn == 0
  {
    var rs := DocOutcomes(m, tok, X, y, category);
    var o := Collect(rs).value;
    CollectSpec(rs);
    forall k | 0 <= k < |o| ensures o[k].0 > 0.0 {
      assert rs[k] == DocOutcome(m, tok, X, y, k, category);
      DocScorePositive(m, tok, X, y, k, category);
    }
    AllAbove(o, 0.0);
  }
}
