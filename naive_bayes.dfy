/** `NaiveBayesClassifier`: an object whose `fit` updates its vocabulary,
    its per-category word counts and its priors in place, and whose
    `predict`, `classify` and `_calculate_posteriors` read them. Each
    method is proved to compute the value-level definitions of modules
    BayesTables and BayesScores. */
module NaiveBayes {
  import opened Common
  import opened BayesTables
  import opened BayesScores
  import Tokens

  /** The model of a classifier that has not been fitted yet. */
  const Fresh := Model(Empty, [], map[])

  /** Training only adds categories. */
  lemma {:induction false} TrainKeepsCategories(t: Tables, tok: Tokens.Tokenizer, X: seq<Word>, y: seq<Word>)
    requires Consistent(t) && |X| <= |y|
    ensures t.counts.Keys <= Train(t, tok, X, y).counts.Keys
  {
    forall l | l in t.counts ensures l in Train(t, tok, X, y).counts {
      TrainLabels(t, tok, X, y, l);
    }
  }

  /** `fit(X, y)` from model `m`: the new model and the exception that ends
      the call, if any; the new model is again well formed. */
  function FitSpec(m: Model, tok: Tokens.Tokenizer, X: seq<Word>, y: seq<Word>): (r: (Model, Option<Error>))
    requires ModelOk(m)
    ensures ModelOk(r.0)
  {
    if |X| > |y| then
      var t := Train(m.tables, tok, X[..|y|], y);
      TrainKeepsCategories(m.tables, tok, X[..|y|], y);
      KeptPriors(m, t);
      (Model(t, m.priorOrder, m.priors), Some(IndexError))
    else
      var t := Train(m.tables, tok, X, y);
      if |y| == 0 then
        TrainKeepsCategories(m.tables, tok, X, y);
        KeptPriors(m, t);
        if t.labels == [] then (Model(t, [], map[]), None)
        else (Model(t, m.priorOrder, m.priors), Some(ZeroDivisionError))
      else
        NewPriors(t, |y|);
        (Model(t, t.labels, PriorMap(t, |y|)), None)
  }

  /** Tables that only gained categories keep the old priors well formed. */
  lemma KeptPriors(m: Model, t: Tables)
    requires ModelOk(m) && Consistent(t) && m.tables.counts.Keys <= t.counts.Keys
    ensures ModelOk(Model(t, m.priorOrder, m.priors))
    ensures t.labels == [] ==> ModelOk(Model(t, [], map[]))
  {
  }

  /** Priors computed for every category of consistent tables are well formed. */
  lemma NewPriors(t: Tables, docs: nat)
    requires Consistent(t) && docs > 0
    ensures ModelOk(Model(t, t.labels, PriorMap(t, docs)))
  {
  }

  /** A document without a category (`y.iloc[i]` out of range) raises
      IndexError after the earlier documents were counted; with no category
      at all, the priors' division raises ZeroDivisionError as soon as some
      category exists. In both cases the priors keep their old value;
      otherwise there is one prior per category, in the order the
      categories were first seen. */
  lemma FitOutcome(m: Model, tok: Tokens.Tokenizer, X: seq<Word>, y: seq<Word>)
    requires ModelOk(m)
    ensures var r := FitSpec(m, tok, X, y);
            && (r.1 == Some(IndexError) <==> |X| > |y|)
            && (r.1 == Some(ZeroDivisionError) <==> |X| <= |y| && |y| == 0 && m.tables.labels != [])
            && (r.1.Some? ==> r.1 == Some(IndexError) || r.1 == Some(ZeroDivisionError))
            && (r.1.Some? ==> r.0.priorOrder == m.priorOrder && r.0.priors == m.priors)
            && (r.1.None? ==> r.0.priorOrder == r.0.tables.labels && r.0.priors.Keys == r.0.tables.counts.Keys)
  {
    if |X| <= |y| && |y| == 0 {
      assert X == [];
    }
  }

  /** Fitting a fresh classifier on labelled documents succeeds, learns
      exactly the categories of the documents, in order of first
      appearance, and orders the priors the same way. */
  lemma {:induction false} FitFresh(tok: Tokens.Tokenizer, X: seq<Word>, y: seq<Word>)
    requires |X| <= |y| && |y| > 0
    ensures var r := FitSpec(Fresh, tok, X, y);
            && r.1 == None
            && r.0.tables == Train(Empty, tok, X, y)
            && r.0.priorOrder == r.0.tables.labels
            && (forall l :: l in r.0.priors <==> l in y[..|X|])
  {
    forall l ensures l in Train(Empty, tok, X, y).counts <==> l in y[..|X|] {
      TrainLabels(Empty, tok, X, y, l);
    }
  }

  /** After fitting a fresh classifier, the prior of a category is its
      number of tokens (a token that is literally `'__total__'` counted
      twice) over the number of labels. */
  lemma {:induction false} FitFreshPrior(tok: Tokens.Tokenizer, X: seq<Word>, y: seq<Word>, l: Word)
    requires |X| <= |y| && |y| > 0 && l in y[..|X|]
    ensures l in FitSpec(Fresh, tok, X, y).0.priors
    ensures FitSpec(Fresh, tok, X, y).0.priors[l] == TotalEntry(TokensOf(tok, X, y, l)) as real / |y| as real
  {
    FitFresh(tok, X, y);
    var t := Train(Empty, tok, X, y);
    var c := Count(t, l, TOTAL);
    TrainCount(Empty, tok, X, y, l, TOTAL);
    assert c == TotalEntry(TokensOf(tok, X, y, l));
    var p := FitSpec(Fresh, tok, X, y).0.priors;
    assert p == PriorMap(t, |y|);
    assert p[l] == c as real / |y| as real;
  }

  /** After fitting a fresh classifier the priors sum to the number of
      tokens over the number of labels, so to 1 only when the two agree. */
  lemma {:induction false} FitFreshPriorSum(tok: Tokens.Tokenizer, X: seq<Word>, y: seq<Word>)
    requires |X| <= |y| && |y| > 0
    ensures var r := FitSpec(Fresh, tok, X, y);
            && SumPriors(r.0.priors, r.0.priorOrder) == TotalEntry(AllTokens(tok, X)) as real / |y| as real
            && (SumPriors(r.0.priors, r.0.priorOrder) == 1.0 <==> TotalEntry(AllTokens(tok, X)) == |y|)
  {
    var t := Train(Empty, tok, X, y);
    assert FitSpec(Fresh, tok, X, y).0 == Model(t, t.labels, PriorMap(t, |y|));
    PriorSum(tok, X, y);
  }

  /** The inner loop of `fit` over one document's tokens. */
  method CountWords(table: Table, words: seq<Word>) returns (r: Table)
    ensures r == AddWords(table, words)
  {
    r := table;
    var j := 0;
    while j < |words|
      invariant 0 <= j <= |words|
      invariant r == AddWords(table, words[..j])
    {
      var w := words[j];
      if w !in r {
        r := r[w := 0];
      }
      r := r[w := r[w] + 1];
      assert words[..j + 1][..j] == words[..j];
      j := j + 1;
    }
    assert words[..j] == words;
  }

  class NaiveBayesClassifier {
    const tokenizer: Tokens.Tokenizer
    var vocab: set<Word>
    /** The keys of `classWordCounts` in insertion order. */
    var labels: seq<Word>
    var classWordCounts: map<Word, Table>
    /** The keys of `classPriors` in insertion order. */
    var priorOrder: seq<Word>
    var classPriors: map<Word, real>

    function State(): Model
      reads this
    {
      Model(Tables(vocab, labels, classWordCounts), priorOrder, classPriors)
    }

    ghost predicate Valid()
      reads this
    {
      ModelOk(State())
    }

    constructor(tokenizer: Tokens.Tokenizer)
      ensures Valid()
      ensures this.tokenizer == tokenizer && State() == Fresh
    {
      this.tokenizer := tokenizer;
      vocab := {};
      labels := [];
      classWordCounts := map[];
      priorOrder := [];
      classPriors := map[];
    }

    /** `fit(X, y)`; the exception it raises, if any, is returned. */
    method Fit(X: seq<Word>, y: seq<Word>) returns (err: Option<Error>)
      requires Valid()
      modifies this
      ensures Valid()
      ensures (State(), err) == FitSpec(old(State()), tokenizer, X, y)
    {
      ghost var m := State();
      err := CountDocuments(X, y);
      if err.None? {
        err := ComputePriors(|y|);
      }
      assert (State(), err) == FitSpec(m, tokenizer, X, y);
    }

    /** `fit`'s loop over the documents. */
    method CountDocuments(X: seq<Word>, y: seq<Word>) returns (err: Option<Error>)
      requires Consistent(State().tables)
      modifies this
      ensures err == if |X| > |y| then Some(IndexError) else None
      ensures State().tables == Train(old(State().tables), tokenizer, if |X| > |y| then X[..|y|] else X, y)
      ensures priorOrder == old(priorOrder) && classPriors == old(classPriors)
    {
      ghost var t0 := State().tables;
      var i := 0;
      while i < |X| && i < |y|
        invariant 0 <= i <= |X| && i <= |y|
        invariant State().tables == Train(t0, tokenizer, X[..i], y)
        invariant priorOrder == old(priorOrder) && classPriors == old(classPriors)
      {
        CountDocument(t0, X, y, i);
        i := i + 1;
      }
      if i < |X| {
        return Some(IndexError);
      }
      assert X[..i] == X;
      return None;
    }

    /** One iteration of `fit`'s loop: document `i` and its category. */
    method CountDocument(ghost t0: Tables, X: seq<Word>, y: seq<Word>, i: nat)
      requires Consistent(t0) && i < |X| && i < |y|
      requires State().tables == Train(t0, tokenizer, X[..i], y)
      modifies this
      ensures State().tables == Train(t0, tokenizer, X[..i + 1], y)
      ensures priorOrder == old(priorOrder) && classPriors == old(classPriors)
    {
      TrainStep(t0, tokenizer, X, y, i);
      var category := y[i];
      var words := tokenizer.Apply(X[i]);
      AddDocument(category, words);
    }

    /** The priors comprehension at the end of `fit`: dividing by the number
        of documents raises when there is none and some category exists. */
    method ComputePriors(totalDocuments: nat) returns (err: Option<Error>)
      modifies this
      ensures State().tables == old(State().tables)
      ensures err == if totalDocuments == 0 && labels != [] then Some(ZeroDivisionError) else None
      ensures err.Some? ==> priorOrder == old(priorOrder) && classPriors == old(classPriors)
      ensures err.None? ==> priorOrder == labels
      ensures err.None? && totalDocuments == 0 ==> classPriors == map[]
      ensures err.None? && totalDocuments > 0 ==> classPriors == PriorMap(State().tables, totalDocuments)
    {
      if totalDocuments == 0 {
        if labels != [] {
          return Some(ZeroDivisionError);
        }
        priorOrder := [];
        classPriors := map[];
        return None;
      }
      classPriors := PriorMap(State().tables, totalDocuments);
      priorOrder := labels;
      return None;
    }

    /** The body of `fit`'s loop for one document of `category` with
        tokens `words`. */
    method AddDocument(category: Word, words: seq<Word>)
      requires category in classWordCounts ==> TOTAL in classWordCounts[category]
      modifies this
      ensures State().tables == TrainDoc(old(State().tables), category, words)
      ensures priorOrder == old(priorOrder) && classPriors == old(classPriors)
    {
      var isNew := category !in classWordCounts;
      var table := if isNew then map[TOTAL := 0] else classWordCounts[category];
      table := table[TOTAL := table[TOTAL] + |words|];
      table := CountWords(table, words);
      vocab, labels := vocab + Elements(words), if isNew then labels + [category] else labels;
      classWordCounts := classWordCounts[category := table];
    }

    /** The likelihood loop of `_calculate_posteriors` for one category. */
    method LikelihoodOf(category: Word, words: seq<Word>) returns (r: Result<real>)
      requires category in classWordCounts && TOTAL in classWordCounts[category]
      ensures r == Likelihood(State(), category, words)
    {
      var likelihood := 1.0;
      var j := 0;
      while j < |words|
        invariant 0 <= j <= |words|
        invariant j > 0 ==> Denominator(State(), category) > 0
        invariant j > 0 ==> likelihood == Product(State(), category, words[..j])
        invariant j == 0 ==> likelihood == 1.0
      {
        var wordCount := Get(classWordCounts[category], words[j]);
        var totalWords := classWordCounts[category][TOTAL];
        var d := totalWords + |vocab|;
        if d == 0 {
          return Failure(ZeroDivisionError);
        }
        assert words[..j + 1][..j] == words[..j];
        likelihood := likelihood * ((wordCount + 1) as real / d as real);
        j := j + 1;
      }
      if words != [] {
        assert words[..j] == words;
      }
      return Success(likelihood);
    }

    /** `_calculate_posteriors(text)` */
    method CalculatePosteriors(text: Word) returns (r: Result<map<Word, real>>)
      requires Valid()
      ensures r == Posteriors(State(), tokenizer.Apply(text))
    {
      var words := tokenizer.Apply(text);
      r := PosteriorsOf(words);
    }

    /** The loop of `_calculate_posteriors` over `class_priors`, given the
        text's tokens. */
    method PosteriorsOf(words: seq<Word>) returns (r: Result<map<Word, real>>)
      requires forall l :: l in priorOrder ==> l in classPriors && l in classWordCounts && TOTAL in classWordCounts[l]
      ensures r == PosteriorsOver(State(), priorOrder, words)
    {
      ghost var m := State();
      var order := priorOrder;
      var posteriors := map[];
      var i := 0;
      while i < |order|
        invariant 0 <= i <= |order|
        invariant PosteriorsOver(m, order[..i], words) == Success(posteriors)
      {
        var category := order[i];
        assert category in order;
        var prior := classPriors[category];
        var likelihood := LikelihoodOf(category, words);
        if likelihood.Failure? {
          PosteriorsOverFailsAt(m, order, words, i);
          return Failure(likelihood.error);
        }
        var posterior := prior * likelihood.value;
        PosteriorsOverStep(m, order, words, i, posteriors, posterior);
        posteriors := posteriors[category := posterior];
        i := i + 1;
      }
      assert order[..i] == order;
      return Success(posteriors);
    }

    /** `predict(X)`; the exception it raises, if any, is returned. */
    method Predict(X: seq<Word>) returns (r: Result<seq<Word>>)
      requires Valid()
      ensures r == PredictAll(State(), tokenizer, X)
    {
      ghost var rs := Predictions(State(), tokenizer, X);
      var predictions := [];
      var i := 0;
      while i < |X|
        invariant 0 <= i <= |X|
        invariant Collect(rs[..i]) == Success(predictions)
      {
        var posteriors := CalculatePosteriors(X[i]);
        assert rs[i] == if posteriors.Failure? then Failure(posteriors.error) else Best(priorOrder, posteriors.value);
        CollectStep(rs, i, predictions);
        if posteriors.Failure? {
          CollectStops(rs, i + 1);
          return Failure(posteriors.error);
        }
        var best := Best(priorOrder, posteriors.value);
        if best.Failure? {
          CollectStops(rs, i + 1);
          return Failure(best.error);
        }
        predictions := predictions + [best.value];
        i := i + 1;
      }
      assert rs[..i] == rs;
      return Success(predictions);
    }

    /** `classify(X, y, umbral, category)`: the counts TP, FP, FN, TN, or the
        exception that ends the call. */
    method Classify(X: seq<Word>, y: seq<Word>, umbral: real, category: Word) returns (r: Result<Counts>)
      requires Valid()
      ensures r == ClassifySpec(State(), tokenizer, X, y, umbral, category)
    {
      ghost var rs := DocOutcomes(State(), tokenizer, X, y, category);
      ghost var seen: seq<(real, bool)> := [];
      var counts := Zero;
      var index := 0;
      while index < |X|
        invariant 0 <= index <= |X|
        invariant Collect(rs[..index]) == Success(seen)
        invariant counts == ThresholdCounts(seen, umbral)
      {
        var outcome := ScoreDocument(X, y, index, category);
        assert rs[index] == outcome;
        CollectStep(rs, index, seen);
        if outcome.Failure? {
          CollectStops(rs, index + 1);
          return Failure(outcome.error);
        }
        var score, actual := outcome.value.0, outcome.value.1;
        counts := counts.Bump(BucketOf(actual, score > umbral), 1);
        ThresholdStep(seen, outcome.value, umbral);
        seen := seen + [outcome.value];
        index := index + 1;
      }
      assert rs[..index] == rs;
      assert Collect(DocOutcomes(State(), tokenizer, X, y, category)) == Success(seen);
      return Success(counts);
    }

    /** The body of `classify`'s loop up to the comparison with the
        threshold: the category's share of the posterior mass and whether
        the document belongs to the category. */
    method ScoreDocument(X: seq<Word>, y: seq<Word>, index: nat, category: Word) returns (r: Result<(real, bool)>)
      requires Valid() && index < |X|
      ensures r == DocOutcome(State(), tokenizer, X, y, index, category)
    {
      var posteriors := CalculatePosteriors(X[index]);
      if posteriors.Failure? {
        return Failure(posteriors.error);
      }
      if category !in posteriors.value {
        return Failure(KeyError);
      }
      var catProb := posteriors.value[category];
      var totalSum := SumOver(priorOrder, posteriors.value);
      if totalSum == 0.0 {
        return Failure(ZeroDivisionError);
      }
      if index >= |y| {
        return Failure(IndexError);
      }
      return Success((catProb / totalSum, y[index] == category));
    }
  }
}
