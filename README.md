# Naive Bayes headline classifier — a Dafny model

This project models the core of `TP1/ej_2.py`, a small classifier that assigns a
news category to a headline. The model covers:

- **Evaluation counters.** `compute_confusion_matrix` builds one-vs-rest TP/FP/FN/TN tallies per
  category. `compute_metrics` turns each tally into accuracy, precision,
  recall and F1, with every division guarded. The grid half of
  `macroaverage_values_matrix` fills a |C|×|C| count grid from (true,
  predicted) pairs. It derives the per-category counts from the grid's row
  and column sums and averages the per-category scores. Modules
  `Confusion`, `Metrics` and `Grid`.
- **Tokenizer.** `Tokenizer.apply` splits a text the way `str.split()`
  does. It keeps the words its filter accepts and maps each through its
  sanitizer. The model also covers the filter and sanitizer helpers:
  `complex_filter`, `remove_short_words`, `remove_non_alpha`,
  `complex_sanitize`, `remove_punctuation`, `to_lower`, `identity`,
  `identity_filter`, `custom_filter` and `custom_sanitizer`. Module `Tokens`.
- **`NaiveBayesClassifier`.** `fit` grows the vocabulary and the
  per-category word-count dictionaries in place. Each dictionary keeps the
  special `'__total__'` key alongside the words. The priors are token totals
  divided by the document count. `_calculate_posteriors` applies add-one
  smoothing. `predict` takes Python's `max` with a key, so the first maximal
  label in insertion order wins. `classify` buckets documents with a strict
  `>` threshold.
  - The class in module `NaiveBayes` has the source's fields and updates
    them in place.
  - Each method is proved to compute a value-level definition.
  - Module `BayesTables` defines the count tables and the priors.
  - Module `BayesScores` defines the posteriors, the arg-max and the
    bucketing.
- **Stratified split.** `train_test_split` shuffles the rows of every
  category and cuts them at `int(len * (1 - test_size))`. The head goes to
  train and the tail to test, and both concatenations are shuffled again.
  Module `Split`.

Python exceptions that can escape the core are modelled as a `Result`
carrying the exception kind:

- `IndexError` from `y.iloc[i]`;
- `KeyError` from a missing dictionary key;
- `ZeroDivisionError`;
- `ValueError` from `max` of an empty dictionary.

A loop that stops at the first exception is modelled by `Common.Collect`.

Arithmetic is on exact `real` and unbounded `int`.

Behaviour of the code worth noting:

- `custom_filter` accepts every word. It is not the same as
  `complex_filter`.
- `fit` on zero documents does not raise. On a fresh classifier the priors
  stay empty. If categories already exist, the comprehension divides by zero.
- The priors do not sum to 1. They sum to (number of tokens) / (number of
  documents), where a token that is literally `'__total__'` counts twice,
  because it raises its label's `'__total__'` entry once as a word and once
  as part of the document's length. `BayesTables.PriorSum` proves that the
  sum is 1 exactly when these two numbers are equal.
- In the three-headline example ("stocks rally today" and "market crash
  fears" as finance, "team wins championship" as sports), the vocabulary has
  9 distinct words (`BayesTables.FitScenarioVocabulary`).

## Model

| member | source | states |
|---|---|---|
| Common.Collect | TP1/ej_2.py:94-98 | a loop that raises nowhere yields one value per step |
| Common.CollectSpec | TP1/ej_2.py:94-98 | the loop succeeds iff every step succeeds, and then yields the step values in order; otherwise its error is the error of the first step that raised, and every earlier step succeeded |
| Common.CollectSuccess | TP1/ej_2.py:94-98 | success iff every step succeeds, values in step order |
| Common.CollectFailure | TP1/ej_2.py:94-98 | a failed loop names the first raising step and carries its error |
| Common.CollectStops | TP1/ej_2.py:94-98 | once a prefix of the steps has raised, later steps change nothing: the whole loop fails with that error |
| Common.BucketOf | TP1/ej_2.py:44-51 | the if/elif chain is exclusive and exhaustive: TP iff true and predicted, FP iff only predicted, FN iff only true, TN iff neither |
| Common.BumpEffect | TP1/ej_2.py:44-51 | adding k to one bucket adds k to the total, and adds k to TP, to TP+FN and to TP+FP exactly when the bucket belongs to them |
| Metrics.GuardedRatio | TP1/ej_2.py:23-24 | a guarded ratio is 0 when the denominator is 0, lies in [0,1], is 0 iff the numerator is 0 and is 1 iff numerator equals a positive denominator |
| Metrics.F1 | TP1/ej_2.py:25-26 | `2 * (precision * recall) / (precision + recall)`, or 0 when precision + recall is 0; its bounds are `F1Bounds` |
| Metrics.ScoresOf | TP1/ej_2.py:21-33 | the metrics record of one category: guarded accuracy, precision and recall, and their F1; its bounds are `ScoresBounds` |
| Metrics.ComputeMetrics | TP1/ej_2.py:13-35 | one entry per category of the confusion matrix; precision and recall are the guarded ratios of that category's counts; accuracy and F1 lie in [0,1] |
| Metrics.F1Bounds | TP1/ej_2.py:25-26 | for precision and recall in [0,1], F1 lies in [0,1], is 0 iff one of them is 0, and lies between their minimum and maximum |
| Metrics.ScoresBounds | TP1/ej_2.py:21-26 | accuracy, precision and recall are 0 when their denominator is 0; all four scores lie in [0,1]; F1 is 0 when precision+recall is 0, and 0 iff TP is 0 |
| Metrics.NoTruePositives | TP1/ej_2.py:23-26 | TP = 0 gives precision, recall and F1 all 0 |
| Metrics.PerfectCategory | TP1/ej_2.py:23-26 | TP > 0 with FP = FN = 0 gives precision, recall and F1 all 1 |
| Metrics.Mean | TP1/ej_2.py:301-303 | the mean of a list is undefined exactly when the list is empty |
| Metrics.MeanBounds | TP1/ej_2.py:301-303 | the mean of a non-empty list of scores in [0,1] lies in [0,1] |
| Confusion.Tally | TP1/ej_2.py:42-51 | the counters of one category after every pair has bumped the bucket the if/elif chain picks, by the number of times the category is listed; its accounting is `TallyAccounting` |
| Confusion.OneVsRest | TP1/ej_2.py:38-53 | the dictionary `compute_confusion_matrix` returns has exactly the listed categories as keys |
| Confusion.Zip | TP1/ej_2.py:42 | `zip` stops at the shorter list and pairs elements index by index |
| Confusion.TallyAccounting | TP1/ej_2.py:42-51 | counting every pair k times for category c: TP+FP+FN+TN = k·pairs, TP+FN = k·(pairs truly c), TP+FP = k·(pairs predicted c), TP = k·(pairs both c) |
| Confusion.TallyTotal | TP1/ej_2.py:42-51 | each pair increments exactly one bucket: the total is k times the number of pairs |
| Confusion.TallyHits | TP1/ej_2.py:44-45 | TP is k times the number of pairs whose true and predicted labels are both c |
| Confusion.TallyActual | TP1/ej_2.py:44-49 | TP+FN is k times the number of pairs whose true label is c |
| Confusion.TallyPredicted | TP1/ej_2.py:44-47 | TP+FP is k times the number of pairs predicted c |
| Confusion.OneVsRestAccounting | TP1/ej_2.py:38-53 | with each category listed once, its counts sum to the number of zipped pairs, TP+FN is the number of pairs truly that category, TP+FP the number predicted it, and TP the number with both |
| Confusion.RepeatedCategoryAccounting | TP1/ej_2.py:39-51 | a category listed k times keeps one dictionary entry but the inner loop visits it k times: its total, TP+FN, TP+FP and TP are k times the number of pairs, of pairs truly it, of pairs predicted it and of pairs with both |
| Confusion.TallyPair | TP1/ej_2.py:43-51 | the inner loop over the categories adds one pair to each category's bucket, as many times as the category is listed, and touches no key |
| Confusion.ComputeConfusionMatrix | TP1/ej_2.py:38-53 | the nested loops compute the one-vs-rest tallies of the zipped pairs for every listed category |
| Grid.IndexMap | TP1/ej_2.py:257 | `category_to_index` has exactly the categories as keys, maps each to a position holding it, and to the last such position |
| Grid.IndexOfDistinct | TP1/ej_2.py:257 | with distinct categories, the index of the i-th category is i |
| Grid.Cells | TP1/ej_2.py:259-261 | one grid cell per zipped pair: (index of the true label, index of the predicted label) |
| Grid.Marginals | TP1/ej_2.py:274-275 | row i of the grid sums to the pairs truly of category i, column i to the pairs predicted i |
| Grid.SumAndTrace | TP1/ej_2.py:305-306 | the grid sums to the number of cells, and its trace is the number of cells whose true and predicted indices agree |
| Grid.Correct | TP1/ej_2.py:305 | the cells whose true and predicted indices agree; related to labels by `CorrectPairs` |
| Grid.CorrectCells | TP1/ej_2.py:257-262 | when different labels have different indices, the cells with agreeing indices are exactly the pairs with agreeing labels |
| Grid.CorrectPairs | TP1/ej_2.py:257-262 | with `category_to_index` and every label a category, the trace counts the pairs whose true and predicted labels agree, and the accuracy is their share of all pairs (undefined when there are none) |
| Grid.DerivedCounts | TP1/ej_2.py:272-276 | TP = grid[i,i], FP = column sum − TP, FN = row sum − TP and TN = total − (TP+FP+FN) are all non-negative, and they are the counts of pairs in cell (i,i), predicted i but not truly i, truly i but not predicted i, and neither |
| Grid.GridCountsActual | TP1/ej_2.py:273-275 | TP+FN of category i equals the pairs truly i |
| Grid.GridCountsPredicted | TP1/ej_2.py:273-274 | TP+FP of category i equals the pairs predicted i |
| Grid.GridCountsTotal | TP1/ej_2.py:276 | TP+FP+FN+TN equals the grid total, the number of pairs |
| Grid.GridAgreesWithOneVsRest | TP1/ej_2.py:272-276 | with distinct categories and every label indexed, the counts derived from the grid equal those `compute_confusion_matrix` builds |
| Grid.CellsMatchLabels | TP1/ej_2.py:259-262 | when only category c has index i, counting cells by index counts pairs by label c |
| Grid.Report | TP1/ej_2.py:301-307 | the macro averages of the per-category precision, recall and F1 and the accuracy trace/total; its bounds are `ReportBounds` |
| Grid.ReportBounds | TP1/ej_2.py:301-307 | accuracy is undefined iff there are no pairs, the macro averages iff there are no categories; every defined score lies in [0,1] |
| Grid.Increment | TP1/ej_2.py:262 | `confusion_matrix[true_index, pred_index] += 1` makes the grid tabulate one more pair |
| Grid.BuildGrid | TP1/ej_2.py:255-262 | KeyError iff some true or predicted label is not a category; otherwise a new n×n grid whose cell (a,b) counts the pairs in cell (a,b) |
| Grid.CategoryCounts | TP1/ej_2.py:273-276 | the four counts read off the grid for category i are its one-vs-rest counts |
| Grid.PerCategory | TP1/ej_2.py:272-294 | the loop yields, per category index, its counts, precision, recall and F1 as guarded by the source |
| Grid.ReportFromLists | TP1/ej_2.py:264-303 | the lists the loop appends to give the report's counts and macro averages |
| Grid.MacroAverage | TP1/ej_2.py:254-307 | KeyError iff some label is not a category; otherwise the per-category counts, the macro averages of precision, recall and F1, and the accuracy trace/total of the grid |
| Tokens.Split | TP1/ej_2.py:62 | every piece of `text.split()` is non-empty and has no whitespace, and the pieces concatenated are the text with its whitespace removed |
| Tokens.Tokenizer.Apply | TP1/ej_2.py:61-62 | `apply` yields at most one token per word of `text.split()`; which tokens is `ApplyExactly` |
| Tokens.SplitConcat | TP1/ej_2.py:62 | splitting a text at a whitespace character splits its words there |
| Tokens.SplitJoin | TP1/ej_2.py:62 | joining words by single spaces and splitting gives the words back |
| Tokens.Keep | TP1/ej_2.py:62 | the comprehension yields at most as many tokens as words |
| Tokens.KeptIndices | TP1/ej_2.py:62 | the positions of the accepted words, strictly increasing, and every accepted position is among them |
| Tokens.KeepAtIndices | TP1/ej_2.py:62 | the k-th token is the sanitized k-th accepted word |
| Tokens.KeepAppend | TP1/ej_2.py:62 | the comprehension over two word lists is the concatenation of the two results |
| Tokens.ApplyExactly | TP1/ej_2.py:56-62 | `apply` returns `sanitizer(w)` for exactly the words w of `text.split()` that the filter accepts, in document order |
| Tokens.ApplySource | TP1/ej_2.py:62 | every token comes from some accepted word |
| Tokens.ApplyTarget | TP1/ej_2.py:62 | every accepted word's sanitized form is a token |
| Tokens.ApplyMembership | TP1/ej_2.py:62 | x is a token iff x is the sanitized form of an accepted word |
| Tokens.ApplyConcat | TP1/ej_2.py:61-62 | tokenizing two texts joined by whitespace concatenates their tokens |
| Tokens.KeepIdentity | TP1/ej_2.py:345-350 | with `identity_filter` and `identity` the comprehension returns its words unchanged |
| Tokens.ApplyIdentity | TP1/ej_2.py:345-350 | a tokenizer of `identity_filter` and `identity` returns `text.split()` |
| Tokens.RemoveShortWords | TP1/ej_2.py:314-315 | accepts a word iff it is longer than n, 3 by default |
| Tokens.RemoveNonAlpha | TP1/ej_2.py:318-319 | accepts a word iff it is non-empty and every character is alphabetic |
| Tokens.ComplexFilter | TP1/ej_2.py:322-323 | accepts a word iff both `remove_short_words` and `remove_non_alpha` do |
| Tokens.ToLower | TP1/ej_2.py:326-327 | lower-cases a word character by character |
| Tokens.RemovePunctuation | TP1/ej_2.py:330-331 | deletes the characters of `string.punctuation`; its effect is `RemovePunctuationCounts` |
| Tokens.ComplexSanitize | TP1/ej_2.py:341-342 | lower-cases the word after removing its punctuation |
| Tokens.Identity | TP1/ej_2.py:345-346 | returns the word unchanged |
| Tokens.IdentityFilter | TP1/ej_2.py:349-350 | accepts every word |
| Tokens.CustomSanitize | TP1/ej_2.py:353-354 | stems the word after lower-casing after removing punctuation |
| Tokens.CustomFilter | TP1/ej_2.py:357-358 | accepts every word |
| Tokens.AsciiSound | TP1/ej_2.py:318-327 | ASCII letters and ASCII lower-casing satisfy the character facts the sanitizer lemmas rely on |
| Tokens.RemovePunctuationClean | TP1/ej_2.py:330-331 | after `remove_punctuation` no punctuation character is left |
| Tokens.RemovePunctuationCounts | TP1/ej_2.py:330-331 | `remove_punctuation` keeps every other character as often as it occurs and deletes every punctuation character |
| Tokens.RemovePunctuationKeeps | TP1/ej_2.py:330-331 | a word without punctuation is returned unchanged |
| Tokens.ComplexSanitizeAccepted | TP1/ej_2.py:322-342 | on a word `complex_filter` accepts, `complex_sanitize` only lower-cases it: same length above 3, no punctuation, already lower case |
| Tokens.ComplexTokens | TP1/ej_2.py:322-342 | every token of the complex tokenizer is longer than 3, has no punctuation or whitespace and is lower case |
| Tokens.CustomTokens | TP1/ej_2.py:353-358 | the custom tokenizer keeps every word and maps each through stemming after lower-casing after punctuation removal |
| BayesTables.AddWordsCount | TP1/ej_2.py:84-87 | the inner loop raises each word's count by its number of occurrences and leaves other counts alone |
| BayesTables.AddWordsKeys | TP1/ej_2.py:84-87 | the inner loop adds exactly the document's words as keys |
| BayesTables.TrainDoc | TP1/ej_2.py:78-87 | one document adds its words to the vocabulary and its label to the categories, and no other category |
| BayesTables.TrainDocConsistent | TP1/ej_2.py:78-87 | one document keeps the invariant: categories listed once in insertion order, every category holds `'__total__'`, every counted word is in the vocabulary |
| BayesTables.DocLabels | TP1/ej_2.py:79-81 | the insertion order still lists each category once and exactly the categories |
| BayesTables.DocTotals | TP1/ej_2.py:79-82 | every category dictionary still holds `'__total__'` |
| BayesTables.DocVocab | TP1/ej_2.py:78-87 | every counted word is still in the vocabulary |
| BayesTables.TrainDocCount | TP1/ej_2.py:79-87 | one document raises each count of its label by the word's occurrences, and `'__total__'` also by the document's length; other labels are unchanged |
| BayesTables.Train | TP1/ej_2.py:73-88 | the `fit` loop keeps the table invariant |
| BayesTables.TrainCount | TP1/ej_2.py:73-88 | after the loop, a label's count of w is the initial count plus the occurrences of w among the tokens of that label's documents, plus their number when w is `'__total__'` |
| BayesTables.TrainLabels | TP1/ej_2.py:73-88 | a category is present after the loop iff it was present before or labels a processed document |
| BayesTables.TrainExtendsLabels | TP1/ej_2.py:79-81 | categories already present keep their place in the insertion order |
| BayesTables.TrainVocab | TP1/ej_2.py:78 | the vocabulary after the loop is the old vocabulary plus every token of every document |
| BayesTables.TotalIsTokenCount | TP1/ej_2.py:81-87 | from empty tables, a label's `'__total__'` is its number of tokens iff no token is literally `'__total__'` |
| BayesTables.TrainDocSum | TP1/ej_2.py:82-87 | one document raises the sum of the `'__total__'` entries by its length plus its `'__total__'` tokens |
| BayesTables.TrainSum | TP1/ej_2.py:73-88 | the sum of the `'__total__'` entries over the categories grows by the number of tokens of all documents plus the number of tokens that are literally `'__total__'` |
| BayesTables.PriorMap | TP1/ej_2.py:89-91 | the priors have exactly the categories as keys |
| BayesTables.PriorSum | TP1/ej_2.py:89-91 | after `fit` from empty tables, the priors sum to (tokens, counting `'__total__'` tokens twice) / documents, and to 1 iff that count equals the number of documents |
| BayesTables.IdentityWords | TP1/ej_2.py:345-350 | the identity tokenizer on words joined by spaces returns those words |
| BayesTables.ThreeDocuments | TP1/ej_2.py:73-88 | for three documents, a label's tokens are those of its documents in order, and all tokens are the three token lists concatenated |
| BayesTables.ScenarioTokens | TP1/ej_2.py:73-88 | in the three-headline example, finance has the first and third headlines' tokens and sports the second's |
| BayesTables.FitScenarioTotals | TP1/ej_2.py:79-87 | in the example, `'__total__'` is 6 for finance and 3 for sports |
| BayesTables.FitScenarioVocabulary | TP1/ej_2.py:78 | in the example, the vocabulary is the nine distinct words |
| BayesScores.Likelihood | TP1/ej_2.py:131-137 | the smoothed likelihood of one label; the only error is ZeroDivisionError, and only when there is a word to score |
| BayesScores.PosteriorsOver | TP1/ej_2.py:129-139 | the posterior loop can only fail by a zero denominator |
| BayesScores.Posteriors | TP1/ej_2.py:124-141 | on success the posteriors have exactly the labels of `class_priors` as keys; the only error is ZeroDivisionError |
| BayesScores.PosteriorsOverKeys | TP1/ej_2.py:129-139 | the posteriors of a label order have exactly those labels as keys |
| BayesScores.PosteriorsOverFails | TP1/ej_2.py:133-137 | the loop raises iff there is a word to score and some label has `total_words + len(vocab)` = 0 |
| BayesScores.PosteriorsOverValues | TP1/ej_2.py:129-139 | each label's posterior is its prior times its smoothed likelihood |
| BayesScores.ProductPositive | TP1/ej_2.py:133-137 | with a positive denominator, every smoothed likelihood product is positive |
| BayesScores.PosteriorsPositive | TP1/ej_2.py:124-141 | with a non-empty vocabulary the posteriors never fail, and a label with a positive prior has a positive posterior |
| BayesScores.PosteriorOfPositive | TP1/ej_2.py:136-139 | a positive prior and a positive denominator give a positive posterior |
| BayesScores.ArgMaxIndex | TP1/ej_2.py:97 | `max(..., key=posteriors.get)` picks a label whose score is maximal and strictly above every earlier label's score: the first maximum |
| BayesScores.Best | TP1/ej_2.py:97 | `max` raises ValueError iff there are no labels; otherwise it returns one of them |
| BayesScores.PredictOne | TP1/ej_2.py:96-97 | one text's label: the arg-max of its posteriors, or the error met first; characterised by `PredictOneSpec` |
| BayesScores.PredictOneSpec | TP1/ej_2.py:96-97 | a text's prediction succeeds iff its posteriors do and there is a label; it is then the first label with maximal posterior |
| BayesScores.Predictions | TP1/ej_2.py:95-97 | one outcome per text |
| BayesScores.PredictAll | TP1/ej_2.py:93-98 | a successful `predict` returns one label per text |
| BayesScores.PredictAllSpec | TP1/ej_2.py:93-98 | `predict` succeeds iff every text's prediction does, and then returns one label per text, the k-th being the k-th text's prediction |
| BayesScores.SumOverPositive | TP1/ej_2.py:107-108 | with positive posteriors, `total_sum` is at least `cat_prob`, which is positive |
| BayesScores.DocOutcome | TP1/ej_2.py:106-110 | one iteration of `classify`: a ZeroDivisionError from the posteriors, a KeyError when the category has no posterior, a ZeroDivisionError when `total_sum` is 0, an IndexError when the label is missing, else the normalised score and whether the label is the category |
| BayesScores.DocOutcomes | TP1/ej_2.py:105-109 | one score outcome per document |
| BayesScores.ThresholdCounts | TP1/ej_2.py:109-118 | the four counters after bucketing every score against the threshold with strict `>`; their accounting is `ThresholdAccounting` |
| BayesScores.ThresholdStep | TP1/ej_2.py:109-118 | one more document adds one to its bucket: positive iff its score is strictly above the threshold, actual iff its label is the category |
| BayesScores.ClassifySpec | TP1/ej_2.py:100-119 | a successful `classify` puts every document in exactly one of TP, FP, FN and TN |
| BayesScores.ThresholdTotal | TP1/ej_2.py:100-119 | TP+FP+FN+TN is the number of documents |
| BayesScores.ThresholdActual | TP1/ej_2.py:110-116 | TP+FN is the number of documents labelled with the category, whatever the threshold |
| BayesScores.ThresholdPredicted | TP1/ej_2.py:109-113 | TP+FP is the number of documents scored strictly above the threshold |
| BayesScores.ThresholdAccounting | TP1/ej_2.py:100-119 | the three accounting facts together |
| BayesScores.ThresholdMonotone | TP1/ej_2.py:109-118 | raising the threshold never raises TP or FP and never lowers FN or TN |
| BayesScores.AllAbove | TP1/ej_2.py:109-118 | when every score is above the threshold, FN and TN are 0 |
| BayesScores.DocScorePositive | TP1/ej_2.py:106-109 | with positive priors and a non-empty vocabulary, a document's normalised score is positive |
| BayesScores.ZeroThresholdAllPositive | TP1/ej_2.py:100-119 | with positive priors, a non-empty vocabulary and threshold 0, `classify` reports no FN and no TN |
| NaiveBayes.TrainKeepsCategories | TP1/ej_2.py:79-81 | `fit` never removes a category |
| NaiveBayes.FitSpec | TP1/ej_2.py:73-91 | `fit` keeps the classifier's invariant: consistent tables, priors for categories only, each listed once |
| NaiveBayes.FitOutcome | TP1/ej_2.py:73-91 | IndexError iff more texts than labels; ZeroDivisionError iff no labels but existing categories; on either error the old priors stay; otherwise the priors follow the categories in insertion order |
| NaiveBayes.FitFresh | TP1/ej_2.py:73-91 | on a new classifier with labels, `fit` raises nothing, builds the tables of the documents, and has priors for exactly the labels seen |
| NaiveBayes.FitFreshPrior | TP1/ej_2.py:89-91 | every label of a processed document has a prior, equal to its `'__total__'` entry (its tokens, a literal `'__total__'` token counted twice) divided by the number of documents |
| NaiveBayes.FitFreshPriorSum | TP1/ej_2.py:89-91 | the priors sum to the `'__total__'` entry of all tokens over the number of documents, and to 1 iff these are equal |
| NaiveBayes.CountWords | TP1/ej_2.py:84-87 | the inner loop's dictionary is the one `AddWords` specifies |
| NaiveBayes.NaiveBayesClassifier.constructor | TP1/ej_2.py:66-71 | a new classifier has an empty vocabulary, no counts and no priors |
| NaiveBayes.NaiveBayesClassifier.Fit | TP1/ej_2.py:73-91 | the new state and the raised error are those of `FitSpec` on the old state, and the invariant is kept |
| NaiveBayes.NaiveBayesClassifier.CountDocuments | TP1/ej_2.py:74-87 | the document loop trains on every document that has a label and raises IndexError at the first one without; priors untouched |
| NaiveBayes.NaiveBayesClassifier.CountDocument | TP1/ej_2.py:75-87 | one iteration trains on one more document |
| NaiveBayes.NaiveBayesClassifier.ComputePriors | TP1/ej_2.py:89-91 | ZeroDivisionError iff no documents but some category; otherwise the priors are the categories' totals over the document count, in category order |
| NaiveBayes.NaiveBayesClassifier.AddDocument | TP1/ej_2.py:78-87 | the fields change as `TrainDoc` says for one document; priors untouched |
| NaiveBayes.NaiveBayesClassifier.LikelihoodOf | TP1/ej_2.py:131-137 | the likelihood loop of one label computes the smoothed product or raises ZeroDivisionError |
| NaiveBayes.NaiveBayesClassifier.CalculatePosteriors | TP1/ej_2.py:124-141 | `_calculate_posteriors` returns the posteriors of the text's tokens |
| NaiveBayes.NaiveBayesClassifier.PosteriorsOf | TP1/ej_2.py:127-141 | the label loop computes the posteriors in `class_priors` order |
| NaiveBayes.NaiveBayesClassifier.Predict | TP1/ej_2.py:93-98 | `predict` returns what `PredictAll` specifies |
| NaiveBayes.NaiveBayesClassifier.Classify | TP1/ej_2.py:100-119 | `classify` returns the threshold counts of the documents' scores, or the first error |
| NaiveBayes.NaiveBayesClassifier.ScoreDocument | TP1/ej_2.py:106-110 | one document's normalised score and whether it is truly of the category, or the error met first |
| Split.Unique | TP1/ej_2.py:182 | `unique()` lists every value of the column, each once, and nothing else |
| Split.Positions | TP1/ej_2.py:183 | the category subset holds only rows of that category |
| Split.PositionsCount | TP1/ej_2.py:183 | the category subset holds each row of that category exactly once |
| Split.Truncate | TP1/ej_2.py:186 | `int()` truncates toward zero |
| Split.SliceBound | TP1/ej_2.py:187-188 | a slice bound is clamped into [0, n] and left alone inside it |
| Split.SplitIndex | TP1/ej_2.py:186 | `int(len(category_subset) * (1 - test_size))` over exact reals; its bounds are `SplitIndexBounds` |
| Split.SplitIndexBounds | TP1/ej_2.py:186 | for 0 ≤ test_size ≤ 1, the cut index lies in [0, n] and is the integer part of n·(1 − test_size) |
| Split.TrainPart | TP1/ej_2.py:187 | the shuffled category subset up to the cut index |
| Split.TestPart | TP1/ej_2.py:188 | the shuffled category subset from the cut index on |
| Split.RowsAt | TP1/ej_2.py:194-196 | the rows at given positions, in that order |
| Split.PartsCoverCategory | TP1/ej_2.py:184-188 | a category's train head and test tail together hold exactly its rows, and their sizes sum to its size |
| Split.PositionsCoverStrata | TP1/ej_2.py:182-196 | the concatenated train and test pieces hold exactly the rows of the visited categories |
| Split.StrataOfAll | TP1/ej_2.py:182-183 | the subsets of all categories of the column hold every row exactly once |
| Split.ShuffledRows | TP1/ej_2.py:183-185 | a shuffled category subset lies in the frame and holds only that category's rows |
| Split.SplitPositions | TP1/ej_2.py:182-199 | the train and test positions: every category's train and test parts in `unique()` order, each concatenation shuffled; its properties are `SplitPartitions` and `SplitStratified` |
| Split.SplitPartitions | TP1/ej_2.py:175-201 | train and test together hold every row exactly once: sizes sum to the frame's and no row is in both |
| Split.SplitStratified | TP1/ej_2.py:182-199 | for each category with n rows, train holds the cut index of its rows and test the remaining ones |
| Split.TrainTestSplit | TP1/ej_2.py:175-201 | the loop builds the train and test frames as the rows at the positions `SplitPositions` specifies |

## Left out

- `read_input`: file I/O with pickle and Excel.
- `split_x_y` and `extract_categories`: thin pandas column selection (`titular` and `categoria`, and the latter's `unique()`, which is `Split.Unique`).
- `no_category_filter`: a pandas row filter, not modelled. It drops the rows whose category is "Destacadas" or "Noticias destacadas", returns the rows that have a category as `with_cat`, and fills the missing categories of the other frame with "Sin categoría".
- `split_train_test`: calls `train_test_split` with `test_size=0.2` and `random_state=42`. This is `Split.TrainTestSplit` at `testSize == 0.2`, with the seeded shuffles standing as the `sample` parameter; it has no member of its own.
- `values_matrix`: printing only. `plot_confusion_matrix`, `show_matrix`, `roc`: plotting with seaborn and matplotlib.
- Printing in `macroaverage_values_matrix`. `main`, `no_filters` and `_tokenize`: glue code, or code nothing calls.
- Randomness:
  - `np.random.seed` and `DataFrame.sample(frac=1)` are one parameter, `sample`, that returns some rearrangement of its input.
  - Split.TrainTestSplit: requires only that `sample` permutes. It does not tie the shuffle to `random_state`.
- Split.SplitIndex: computed over exact reals, where the source multiplies doubles and truncates. They can differ when `1 - test_size` is not exact in binary: at `test_size = 0.3` a 90-row category is cut at 62 by the source (90 * 0.7 is 62.99999999999999 in doubles) and at 63 by the model. The two cut indices differ by at most one row.
- Split.SplitIndexBounds: bounds the cut index by the exact product n·(1 − test_size), not by the rounded double product.
- Split.SplitStratified: gives each category the cut index of the exact product, so it inherits the rounding gap of `SplitIndex`.
- Split.TrainTestSplit: inherits the rounding gap of `SplitIndex` in the per-category train and test sizes.
- Split.SplitPartitions: key equality is reflexive in the model. In pandas, `unique()` keeps a missing key (NaN), but `df[col] == nan` selects no rows, so rows with a missing key land in neither part. The only caller, `split_train_test` (TP1/ej_2.py:207), is given the frame `with_cat`, from which `no_category_filter` has already dropped the rows without a category (TP1/ej_2.py:168, 442).
- Split.TrainTestSplit: `dropna(how='all')` is not modelled, because rows are positions with no missing-value notion. Skipping an empty subset is the same as concatenating it, so it needs no separate case.
- `DataFrame` row labels and `ignore_index=True` are not modelled. Rows are identified by their position in the input frame.
- Unicode tables behind `str.isalpha` and `str.lower`:
  - They are a parameter (`CharModel`).
  - The sanitizer lemmas rely only on the facts in `Tokens.Sound`.
  - `str.lower` is modelled character by character, so multi-character lower-case expansions are not covered.
- `custom_sanitizer`'s Snowball stemmer is a parameter. Its Spanish rules are not modelled.
- Floating point: scores are exact reals, so rounding and underflow of the likelihood product and of `np.mean` are not modelled. Because of this:
  - BayesScores.PosteriorsPositive: proves positive posteriors for exact reals. A float product can underflow to 0.
  - BayesScores.DocScorePositive: proves a positive score for exact reals. Float underflow could also make `total_sum` zero.
  - BayesScores.ProductPositive: the smoothed likelihood product is positive for exact reals only. In doubles it underflows to 0.0 on a long enough document (81 factors of 1e-4 give 1e-324, below the smallest positive double).
  - BayesScores.PosteriorOfPositive: a positive prior gives a positive posterior for exact reals only. A positive prior times an underflowed product is 0.0.
  - BayesScores.ZeroThresholdAllPositive: holds for exact reals only. With doubles, an underflowed `cat_prob` gives the score 0.0, which is not `> 0`, so `classify` can count FN and TN at threshold 0.
  - Metrics.Mean: returns no value for an empty list, where `np.mean` returns `nan` with a warning.
- `macroaverage_values_matrix`'s final `accuracy = total_correct / total_predictions` on an empty grid: numpy gives `nan` rather than raising. Grid.ReportBounds: reports this as an undefined accuracy.
- NaiveBayes.NaiveBayesClassifier.LikelihoodOf: requires the category to be in `class_word_counts` with a `'__total__'` entry. Every caller in the source satisfies this, because priors exist only for counted categories.
- NaiveBayes.NaiveBayesClassifier.PosteriorsOf: requires the same of every label in `class_priors`. The classifier invariant gives this.
- BayesTables.ScenarioTokens, BayesTables.FitScenarioTotals, BayesTables.FitScenarioVocabulary: take as given that the tokenizer returns the listed words for the three headlines. They do not recompute the tokens from the headline strings.
- `fit`'s labels are a list read by position (`y.iloc[i]`). Pandas index alignment is not modelled.
