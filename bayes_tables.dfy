/** What `NaiveBayesClassifier.fit` builds: the vocabulary, the per-category
    word-count dictionaries `class_word_counts` (whose special key
    `'__total__'` shares the dictionary with the words) and the priors,
    stated on values. The class in module NaiveBayes is proved to follow
    these definitions. */
module BayesTables {
  import opened Common
  import Tokens

  type Word = seq<char>

  /** The key under which a category's token total is kept. */
  const TOTAL: Word := "__total__"

  /** One `class_word_counts[category]` dictionary. */
  type Table = map<Word, nat>

  /** `table.get(w, 0)` */
  function Get(table: Table, w: Word): nat
  {
    if w in table then table[w] else 0
  }

  /** `set(words)` */
  function Elements(words: seq<Word>): set<Word>
  {
    set w | w in words
  }

  /** The learned state: `vocab`, the labels of `class_word_counts` in
      insertion order, and `class_word_counts` itself. */
  datatype Tables = Tables(vocab: set<Word>, labels: seq<Word>, counts: map<Word, Table>)

  predicate Distinct(ls: seq<Word>)
  {
    forall i, j :: 0 <= i < j < |ls| ==> ls[i] != ls[j]
  }

  /** What every state reached by `fit` satisfies: the order lists each key
      of `class_word_counts` once, every category dictionary holds
      `'__total__'`, and every counted word is in the vocabulary. */
  ghost predicate Consistent(t: Tables)
  {
    && Distinct(t.labels)
    && (forall l :: l in t.counts <==> l in t.labels)
    && (forall l :: l in t.counts ==> TOTAL in t.counts[l])
    && (forall l, w :: l in t.counts && w in t.counts[l] && w != TOTAL ==> w in t.vocab)
  }

  const Empty := Tables({}, [], map[])

  /** `class_word_counts[category].get(w, 0)`, and 0 for an unknown category. */
  function Count(t: Tables, l: Word, w: Word): nat
  {
    if l in t.counts then Get(t.counts[l], w) else 0
  }

  /** `if word not in d: d[word] = 0`, then `d[word] += 1` */
  function AddWord(table: Table, w: Word): Table
  {
    table[w := Get(table, w) + 1]
  }

  /** The inner `for word in words` loop of `fit`. */
  function AddWords(table: Table, words: seq<Word>): Table
  {
    if words == [] then table else AddWord(AddWords(table, words[..|words| - 1]), words[|words| - 1])
  }

  /** After the inner loop each word's count has grown by its number of
      occurrences. */
  lemma {:induction false} AddWordsCount(table: Table, words: seq<Word>, w: Word)
    ensures Get(AddWords(table, words), w) == Get(table, w) + multiset(words)[w]
  {
    if words != [] {
      var n := |words| - 1;
      AddWordsCount(table, words[..n], w);
      WordSnoc(words, w);
    }
  }

  /** After the inner loop the keys are the old keys plus the words. */
  lemma {:induction false} AddWordsKeys(table: Table, words: seq<Word>)
    ensures AddWords(table, words).Keys == table.Keys + Elements(words)
  {
    if words != [] {
      var n := |words| - 1;
      AddWordsKeys(table, words[..n]);
      forall w ensures w in Elements(words) <==> w in Elements(words[..n]) || w == words[n] {
        WordSnoc(words, w);
      }
    }
  }

  /** The occurrences of `w` in a non-empty sequence of words: those before
      the last word, plus the last word itself. */
  lemma WordSnoc(words: seq<Word>, w: Word)
    requires words != []
    ensures var n := |words| - 1;
            && multiset(words)[w] == multiset(words[..n])[w] + (if words[n] == w then 1 else 0)
            && (w in words <==> w in words[..n] || w == words[n])
  {
    var n := |words| - 1;
    assert words == words[..n] + [words[n]];
  }

  /** The body of `fit`'s outer loop for one document with `category` whose
      tokens are `words`. */
  function TrainDoc(t: Tables, category: Word, words: seq<Word>): (r: Tables)
    requires category in t.counts ==> TOTAL in t.counts[category]
    ensures r.vocab == t.vocab + Elements(words)
    ensures forall l :: l in r.counts <==> l in t.counts || l == category
  {
    var isNew := category !in t.counts;
    var labels := if isNew then t.labels + [category] else t.labels;
    var start := if isNew then map[TOTAL := 0] else t.counts[category];
    var table := start[TOTAL := start[TOTAL] + |words|];
    Tables(t.vocab + Elements(words), labels, t.counts[category := AddWords(table, words)])
  }

  /** One document keeps the tables consistent. */
  lemma TrainDocConsistent(t: Tables, category: Word, words: seq<Word>)
    requires Consistent(t)
    ensures Consistent(TrainDoc(t, category, words))
  {
    DocLabels(t, category, words);
    DocTotals(t, category, words);
    DocVocab(t, category, words);
  }

  /** One document keeps each category once in `labels`, in step with the
      keys of `class_word_counts`. */
  lemma DocLabels(t: Tables, category: Word, words: seq<Word>)
    requires Distinct(t.labels) && forall l :: l in t.counts <==> l in t.labels
    requires category in t.counts ==> TOTAL in t.counts[category]
    ensures Distinct(TrainDoc(t, category, words).labels)
    ensures forall l :: l in TrainDoc(t, category, words).counts <==> l in TrainDoc(t, category, words).labels
  {
    var r := TrainDoc(t, category, words);
    if category !in t.counts {
      DistinctSnoc(t.labels, category);
      assert r.labels == t.labels + [category];
      forall l ensures l in r.labels <==> l in t.labels || l == category {
        assert l in r.labels <==> l in t.labels || l == category;
      }
    }
  }

  lemma DistinctSnoc(ls: seq<Word>, x: Word)
    requires Distinct(ls) && x !in ls
    ensures Distinct(ls + [x])
  {
    forall i, j | 0 <= i < j < |ls| + 1 ensures (ls + [x])[i] != (ls + [x])[j] {
      if j == |ls| {
        assert ls[i] in ls;
      }
    }
  }

  /** One document keeps a `'__total__'` entry in every category. */
  lemma DocTotals(t: Tables, category: Word, words: seq<Word>)
    requires forall l :: l in t.counts ==> TOTAL in t.counts[l]
    ensures forall l :: l in TrainDoc(t, category, words).counts ==> TOTAL in TrainDoc(t, category, words).counts[l]
  {
    var start := if category !in t.counts then map[TOTAL := 0] else t.counts[category];
    var table := start[TOTAL := start[TOTAL] + |words|];
    AddWordsKeys(table, words);
  }

  /** The words counted for a category after one document are in the
      vocabulary after that document. */
  lemma DocVocab(t: Tables, category: Word, words: seq<Word>)
    requires forall l, w :: l in t.counts && w in t.counts[l] && w != TOTAL ==> w in t.vocab
    requires category in t.counts ==> TOTAL in t.counts[category]
    ensures var r := TrainDoc(t, category, words);
            forall l, w :: l in r.counts && w in r.counts[l] && w != TOTAL ==> w in r.vocab
  {
    var r := TrainDoc(t, category, words);
    var start := if category !in t.counts then map[TOTAL := 0] else t.counts[category];
    var table := start[TOTAL := start[TOTAL] + |words|];
    AddWordsKeys(table, words);
    forall l, w | l in r.counts && w in r.counts[l] && w != TOTAL ensures w in r.vocab {
      if l != category {
        assert w in t.counts[l];
      } else if w !in words {
        assert w in table;
      }
    }
  }

  /** One document adds its tokens to its own category's counts, its token
      count to that category's `'__total__'` entry, and touches no other category. */
  lemma {:induction false} TrainDocCount(t: Tables, category: Word, words: seq<Word>, l: Word, w: Word)
    requires Consistent(t)
    ensures Count(TrainDoc(t, category, words), l, w)
            == Count(t, l, w) + (if l == category then multiset(words)[w] + (if w == TOTAL then |words| else 0) else 0)
  {
    var start := if category !in t.counts then map[TOTAL := 0] else t.counts[category];
    var table := start[TOTAL := start[TOTAL] + |words|];
    AddWordsCount(table, words, w);
  }

  /** `fit`'s outer loop over the documents `X` (all of which have a category). */
  function Train(t: Tables, tok: Tokens.Tokenizer, X: seq<Word>, y: seq<Word>): (r: Tables)
    requires Consistent(t) && |X| <= |y|
    ensures Consistent(r)
  {
    if X == [] then t
    else
      var n := |X| - 1;
      TrainDocConsistent(Train(t, tok, X[..n], y), y[n], tok.Apply(X[n]));
      TrainDoc(Train(t, tok, X[..n], y), y[n], tok.Apply(X[n]))
  }

  /** `fit`'s outer loop after one more document. */
  lemma TrainStep(t: Tables, tok: Tokens.Tokenizer, X: seq<Word>, y: seq<Word>, i: nat)
    requires Consistent(t) && i < |X| && i < |y|
    ensures Train(t, tok, X[..i + 1], y) == TrainDoc(Train(t, tok, X[..i], y), y[i], tok.Apply(X[i]))
  {
    assert X[..i + 1][..i] == X[..i];
  }

  /** All tokens of the documents labelled `l`, in order. */
  function TokensOf(tok: Tokens.Tokenizer, X: seq<Word>, y: seq<Word>, l: Word): seq<Word>
    requires |X| <= |y|
  {
    if X == [] then []
    else
      var n := |X| - 1;
      TokensOf(tok, X[..n], y, l) + (if y[n] == l then tok.Apply(X[n]) else [])
  }

  /** All tokens of all documents, in order. */
  function AllTokens(tok: Tokens.Tokenizer, X: seq<Word>): seq<Word>
  {
    if X == [] then [] else AllTokens(tok, X[..|X| - 1]) + tok.Apply(X[|X| - 1])
  }

  /** After `fit`, `class_word_counts[l][w]` is the number of times `w`
      occurs among the tokens of the documents labelled `l`, and
      `class_word_counts[l]['__total__']` is their number, plus one for every
      token that is itself `'__total__'` (the key shares the dictionary). */
  lemma {:induction false} TrainCount(t: Tables, tok: Tokens.Tokenizer, X: seq<Word>, y: seq<Word>, l: Word, w: Word)
    requires Consistent(t) && |X| <= |y|
    ensures Count(Train(t, tok, X, y), l, w)
            == Count(t, l, w) + multiset(TokensOf(tok, X, y, l))[w]
               + (if w == TOTAL then |TokensOf(tok, X, y, l)| else 0)
  {
    if X != [] {
      var n := |X| - 1;
      TrainCount(t, tok, X[..n], y, l, w);
      TrainDocCount(Train(t, tok, X[..n], y), y[n], tok.Apply(X[n]), l, w);
    }
  }

  /** After `fit` the categories of `class_word_counts` are the old ones
      and those of the documents counted. */
  lemma {:induction false} TrainLabels(t: Tables, tok: Tokens.Tokenizer, X: seq<Word>, y: seq<Word>, l: Word)
    requires Consistent(t) && |X| <= |y|
    ensures l in Train(t, tok, X, y).counts <==> l in t.counts || l in y[..|X|]
  {
    if X != [] {
      var n := |X| - 1;
      TrainLabels(t, tok, X[..n], y, l);
      InPrefix(y, n, l);
    }
  }

  lemma InPrefix(y: seq<Word>, n: nat, l: Word)
    requires n < |y|
    ensures l in y[..n + 1] <==> l in y[..n] || l == y[n]
  {
    assert y[..n + 1] == y[..n] + [y[n]];
  }

  /** `fit` only appends categories to the order in which they were first
      seen. */
  lemma {:induction false} TrainExtendsLabels(t: Tables, tok: Tokens.Tokenizer, X: seq<Word>, y: seq<Word>)
    requires Consistent(t) && |X| <= |y|
    ensures t.labels <= Train(t, tok, X, y).labels
  {
    if X != [] {
      var n := |X| - 1;
      TrainExtendsLabels(t, tok, X[..n], y);
      var prev := Train(t, tok, X[..n], y);
      DocExtendsLabels(prev, y[n], tok.Apply(X[n]));
    }
  }

  lemma DocExtendsLabels(t: Tables, category: Word, words: seq<Word>)
    requires category in t.counts ==> TOTAL in t.counts[category]
    ensures t.labels <= TrainDoc(t, category, words).labels
  {
  }

  /** After `fit` the vocabulary is the old one plus every token seen. */
  lemma {:induction false} TrainVocab(t: Tables, tok: Tokens.Tokenizer, X: seq<Word>, y: seq<Word>)
    requires Consistent(t) && |X| <= |y|
    ensures Train(t, tok, X, y).vocab == t.vocab + Elements(AllTokens(tok, X))
  {
    if X != [] {
      var n := |X| - 1;
      TrainVocab(t, tok, X[..n], y);
      assert AllTokens(tok, X) == AllTokens(tok, X[..n]) + tok.Apply(X[n]);
    }
  }

  /** The `'__total__'` entry is the category's token count exactly when no
      token of that category is literally `'__total__'`. */
  lemma {:induction false} TotalIsTokenCount(tok: Tokens.Tokenizer, X: seq<Word>, y: seq<Word>, l: Word)
    requires |X| <= |y|
    ensures Count(Train(Empty, tok, X, y), l, TOTAL) == |TokensOf(tok, X, y, l)|
            <==> TOTAL !in TokensOf(tok, X, y, l)
  {
    TrainCount(Empty, tok, X, y, l, TOTAL);
  }

  /** The amount by which the tokens `ts` raise their category's
      `'__total__'` entry: one per token, and one more for each token that
      is itself `'__total__'`. */
  function TotalEntry(ts: seq<Word>): nat
  {
    |ts| + multiset(ts)[TOTAL]
  }

  /** Sum of the `'__total__'` entries of the labels `ls`. */
  function SumTotals(t: Tables, ls: seq<Word>): nat
  {
    if ls == [] then 0 else SumTotals(t, ls[..|ls| - 1]) + Count(t, ls[|ls| - 1], TOTAL)
  }

  /** Changing the `'__total__'` entry of one category by `d` changes the sum
      over a list of distinct labels by `d` if the category is in the list. */
  lemma {:induction false} SumTotalsShift(t1: Tables, t2: Tables, ls: seq<Word>, category: Word, d: nat)
    requires Distinct(ls)
    requires forall l :: l != category ==> Count(t2, l, TOTAL) == Count(t1, l, TOTAL)
    requires Count(t2, category, TOTAL) == Count(t1, category, TOTAL) + d
    ensures SumTotals(t2, ls) == SumTotals(t1, ls) + (if category in ls then d else 0)
  {
    if ls != [] {
      var n := |ls| - 1;
      SumTotalsShift(t1, t2, ls[..n], category, d);
      assert ls == ls[..n] + [ls[n]];
      assert category == ls[n] ==> category !in ls[..n];
    }
  }

  lemma {:induction false} SumTotalsFresh(t: Tables, ls: seq<Word>)
    requires forall l :: l in ls ==> l !in t.counts
    ensures SumTotals(t, ls) == 0
  {
    if ls != [] {
      SumTotalsFresh(t, ls[..|ls| - 1]);
    }
  }

  /** One document adds its token count, plus its `'__total__'` tokens, to
      the sum of the `'__total__'` entries over all labels. */
  lemma {:induction false} TrainDocSum(t: Tables, category: Word, words: seq<Word>)
    requires Consistent(t)
    ensures var r := TrainDoc(t, category, words);
            SumTotals(r, r.labels) == SumTotals(t, t.labels) + TotalEntry(words)
  {
    var r := TrainDoc(t, category, words);
    var d := TotalEntry(words);
    forall l ensures Count(r, l, TOTAL) == Count(t, l, TOTAL) + (if l == category then d else 0) {
      TrainDocCount(t, category, words, l, TOTAL);
    }
    if category in t.counts {
      SumTotalsShift(t, r, t.labels, category, d);
    } else {
      SumTotalsShift(t, r, t.labels, category, d);
      assert r.labels == t.labels + [category];
      assert r.labels[..|r.labels| - 1] == t.labels;
      assert Count(t, category, TOTAL) == 0;
    }
  }

  /** Over all labels, the `'__total__'` entries add up to the number of
      tokens seen, plus the tokens that are literally `'__total__'`. */
  lemma {:induction false} TrainSum(t: Tables, tok: Tokens.Tokenizer, X: seq<Word>, y: seq<Word>)
    requires Consistent(t) && |X| <= |y|
    ensures var r := Train(t, tok, X, y);
            SumTotals(r, r.labels)
            == SumTotals(t, t.labels) + TotalEntry(AllTokens(tok, X))
  {
    if X != [] {
      var n := |X| - 1;
      TrainSum(t, tok, X[..n], y);
      TrainDocSum(Train(t, tok, X[..n], y), y[n], tok.Apply(X[n]));
    }
  }

  /** `{category: count['__total__'] / total_documents for ...}` */
  function PriorMap(t: Tables, docs: nat): (p: map<Word, real>)
    requires docs > 0
    ensures p.Keys == t.counts.Keys
  {
    map l | l in t.counts :: Count(t, l, TOTAL) as real / docs as real
  }

  lemma AddQuotients(s: real, s0: real, q: real, d: real, a: real, b: real)
    requires d > 0.0 && s0 == a / d && q == b / d && s == s0 + q
    ensures s == (a + b) / d
  {
    assert s0 * d == a && q * d == b;
    assert s * d == a + b;
  }

  lemma UnitScale(s: real, d: real, a: real)
    requires d > 0.0 && s == a / d
    ensures s == 1.0 <==> a == d
  {
    assert s * d == a;
    if a == d {
      assert (s - 1.0) * d == 0.0;
    }
  }

  /** Sum of `priors[l]` over the labels `ls`. */
  function SumPriors(p: map<Word, real>, ls: seq<Word>): real
    requires forall l :: l in ls ==> l in p
  {
    if ls == [] then 0.0 else SumPriors(p, ls[..|ls| - 1]) + p[ls[|ls| - 1]]
  }

  lemma {:induction false} SumPriorMap(t: Tables, docs: nat, ls: seq<Word>)
    requires docs > 0 && forall l :: l in ls ==> l in t.counts
    ensures SumPriors(PriorMap(t, docs), ls) == SumTotals(t, ls) as real / docs as real
  {
    if ls != [] {
      var n := |ls| - 1;
      SumPriorMap(t, docs, ls[..n]);
      var p, d := PriorMap(t, docs), docs as real;
      AddQuotients(SumPriors(p, ls), SumPriors(p, ls[..n]), p[ls[n]], d,
                   SumTotals(t, ls[..n]) as real, Count(t, ls[n], TOTAL) as real);
    }
  }

  /** The prior of a category is its token total over the number of
      documents, so after training from scratch the priors sum to the
      number of tokens (counting `'__total__'` tokens twice) over the number
      of documents; they sum to 1 only when these two numbers agree. */
  lemma {:induction false} PriorSum(tok: Tokens.Tokenizer, X: seq<Word>, y: seq<Word>)
    requires |X| <= |y| && |y| > 0
    ensures SumPriors(PriorMap(Train(Empty, tok, X, y), |y|), Train(Empty, tok, X, y).labels)
            == TotalEntry(AllTokens(tok, X)) as real / |y| as real
    ensures SumPriors(PriorMap(Train(Empty, tok, X, y), |y|), Train(Empty, tok, X, y).labels) == 1.0
            <==> TotalEntry(AllTokens(tok, X)) == |y|
  {
    var t := Train(Empty, tok, X, y);
    TrainSum(Empty, tok, X, y);
    assert SumTotals(Empty, Empty.labels) == 0;
    PriorsOverLabels(t, |y|, TotalEntry(AllTokens(tok, X)));
  }

  lemma {:induction false} PriorsOverLabels(t: Tables, docs: nat, tokens: nat)
    requires docs > 0 && (forall l :: l in t.labels ==> l in t.counts) && SumTotals(t, t.labels) == tokens
    ensures SumPriors(PriorMap(t, docs), t.labels) == tokens as real / docs as real
    ensures SumPriors(PriorMap(t, docs), t.labels) == 1.0 <==> tokens == docs
  {
    SumPriorMap(t, docs, t.labels);
    UnitScale(SumPriors(PriorMap(t, docs), t.labels), docs as real, tokens as real);
  }

  /** The identity tokenizer yields the words of a text written with single
      spaces. */
  lemma IdentityWords(text: Word, ws: seq<Word>)
    requires forall k :: 0 <= k < |ws| ==> Tokens.IsWord(ws[k])
    requires Tokens.Join(ws) == text
    ensures Tokens.Tokenizer(Tokens.IdentityFilter, Tokens.Identity).Apply(text) == ws
  {
    Tokens.ApplyIdentity(text);
    Tokens.SplitJoin(ws);
  }

  /** The scenario of three headlines, two about finance and one about
      sports, which any tokenizer under which the headlines yield the words
      below (the identity tokenizer, say: see `IdentityWords`) turns into
      these tokens. */
  const ScenarioY: seq<Word> := ["finance", "sports", "finance"]
  const Words0: seq<Word> := ["stocks", "rally", "today"]
  const Words1: seq<Word> := ["team", "wins", "championship"]
  const Words2: seq<Word> := ["market", "crash", "fears"]

  predicate ScenarioInput(tok: Tokens.Tokenizer, X: seq<Word>, y: seq<Word>)
  {
    && |X| == 3 && y == ScenarioY
    && tok.Apply(X[0]) == Words0 && tok.Apply(X[1]) == Words1 && tok.Apply(X[2]) == Words2
  }

  /** The tokens of three documents, by label and in all. */
  lemma ThreeDocuments(tok: Tokens.Tokenizer, a: Word, b: Word, c: Word, y: seq<Word>, l: Word)
    requires |y| >= 3
    ensures TokensOf(tok, [a, b, c], y, l)
            == (if y[0] == l then tok.Apply(a) else []) + (if y[1] == l then tok.Apply(b) else [])
               + (if y[2] == l then tok.Apply(c) else [])
    ensures AllTokens(tok, [a, b, c]) == tok.Apply(a) + tok.Apply(b) + tok.Apply(c)
  {
    LabelTokensOfThree(tok, a, b, c, y, l);
    AllTokensOfThree(tok, a, b, c);
  }

  lemma LabelTokensOfThree(tok: Tokens.Tokenizer, a: Word, b: Word, c: Word, y: seq<Word>, l: Word)
    requires |y| >= 3
    ensures TokensOf(tok, [a, b, c], y, l)
            == (if y[0] == l then tok.Apply(a) else []) + (if y[1] == l then tok.Apply(b) else [])
               + (if y[2] == l then tok.Apply(c) else [])
  {
    assert [a] == [] + [a];
    assert [a, b] == [a] + [b];
    assert [a, b, c] == [a, b] + [c];
    TokensOfSnoc(tok, [], y, l, a);
    TokensOfSnoc(tok, [a], y, l, b);
    TokensOfSnoc(tok, [a, b], y, l, c);
  }

  /** One more document at the end. */
  lemma TokensOfSnoc(tok: Tokens.Tokenizer, X: seq<Word>, y: seq<Word>, l: Word, x: Word)
    requires |X| < |y|
    ensures TokensOf(tok, X + [x], y, l) == TokensOf(tok, X, y, l) + (if y[|X|] == l then tok.Apply(x) else [])
  {
    assert (X + [x])[..|X|] == X;
  }

  lemma AllTokensOfThree(tok: Tokens.Tokenizer, a: Word, b: Word, c: Word)
    ensures AllTokens(tok, [a, b, c]) == tok.Apply(a) + tok.Apply(b) + tok.Apply(c)
  {
    assert [a, b, c][..2] == [a, b];
    assert [a, b][..1] == [a];
    assert [a][..0] == [];
    assert AllTokens(tok, [a]) == [] + tok.Apply(a);
    assert AllTokens(tok, [a, b]) == tok.Apply(a) + tok.Apply(b);
  }

  /** The tokens of the three headlines, by category and in all. */
  lemma ScenarioTokens(tok: Tokens.Tokenizer, X: seq<Word>, y: seq<Word>)
    requires ScenarioInput(tok, X, y)
    ensures TokensOf(tok, X, y, "finance") == Words0 + Words2
    ensures TokensOf(tok, X, y, "sports") == Words1
    ensures AllTokens(tok, X) == Words0 + Words1 + Words2
  {
    assert X == [X[0], X[1], X[2]];
    assert y[0] == "finance" && y[1] == "sports" && y[2] == "finance";
    ThreeDocuments(tok, X[0], X[1], X[2], y, "finance");
    ThreeDocuments(tok, X[0], X[1], X[2], y, "sports");
  }

  lemma ElementsOfThree(a: Word, b: Word, c: Word)
    ensures Elements([a, b, c]) == {a, b, c}
  {
    assert forall w :: w in [a, b, c] <==> w == a || w == b || w == c;
  }

  lemma ElementsAppend(xs: seq<Word>, ys: seq<Word>)
    ensures Elements(xs + ys) == Elements(xs) + Elements(ys)
  {
    assert forall w :: w in xs + ys <==> w in xs || w in ys;
  }

  const ScenarioVocab: set<Word> := {"stocks", "rally", "today", "team", "wins", "championship", "market", "crash", "fears"}

  lemma NineWords()
    ensures |ScenarioVocab| == 9
  {
  }

  lemma ScenarioVocabulary(ws: seq<Word>)
    requires ws == Words0 + Words1 + Words2
    ensures Elements(ws) == ScenarioVocab
  {
    ElementsAppend(Words0 + Words1, Words2);
    ElementsAppend(Words0, Words1);
    ElementsOfThree("stocks", "rally", "today");
    ElementsOfThree("team", "wins", "championship");
    ElementsOfThree("market", "crash", "fears");
  }

  /** Words of another length than `'__total__'` are not that key. */
  lemma NoTotalToken(ws: seq<Word>)
    requires forall k :: 0 <= k < |ws| ==> |ws[k]| != |TOTAL|
    ensures multiset(ws)[TOTAL] == 0
  {
    assert TOTAL !in ws;
  }

  /** The finance tokens of the three headlines: 6 of them, none `'__total__'`. */
  lemma FinanceTokens(ws: seq<Word>)
    requires ws == Words0 + Words2
    ensures |ws| == 6 && multiset(ws)[TOTAL] == 0
  {
    NoTotalToken(ws);
  }

  /** The sports tokens of the three headlines: 3 of them, none `'__total__'`. */
  lemma SportsTokens(ws: seq<Word>)
    requires ws == Words1
    ensures |ws| == 3 && multiset(ws)[TOTAL] == 0
  {
    NoTotalToken(ws);
  }

  /** A fit on fresh tables leaves `n` as the `'__total__'` entry of a
      category whose `n` tokens include no literal `'__total__'`. */
  lemma FreshTotal(tok: Tokens.Tokenizer, X: seq<Word>, y: seq<Word>, l: Word, n: nat)
    requires |X| <= |y|
    requires |TokensOf(tok, X, y, l)| == n && multiset(TokensOf(tok, X, y, l))[TOTAL] == 0
    ensures Count(Train(Empty, tok, X, y), l, TOTAL) == n
  {
    TrainCount(Empty, tok, X, y, l, TOTAL);
  }

  /** Three headlines, two about finance and one about sports, under the
      identity tokenizer: the finance total is 6 and the sports total 3. */
  lemma FitScenarioTotals(tok: Tokens.Tokenizer, X: seq<Word>, y: seq<Word>)
    requires ScenarioInput(tok, X, y)
    ensures Count(Train(Empty, tok, X, y), "finance", TOTAL) == 6
    ensures Count(Train(Empty, tok, X, y), "sports", TOTAL) == 3
  {
    ScenarioTokens(tok, X, y);
    FinanceTokens(TokensOf(tok, X, y, "finance"));
    SportsTokens(TokensOf(tok, X, y, "sports"));
    FreshTotal(tok, X, y, "finance", 6);
    FreshTotal(tok, X, y, "sports", 3);
  }

  /** The same three headlines give a vocabulary of 9 distinct words. */
  lemma FitScenarioVocabulary(tok: Tokens.Tokenizer, X: seq<Word>, y: seq<Word>)
    requires ScenarioInput(tok, X, y)
    ensures Train(Empty, tok, X, y).vocab == ScenarioVocab
    ensures |Train(Empty, tok, X, y).vocab| == 9
  {
    ScenarioTokens(tok, X, y);
    TrainVocab(Empty, tok, X, y);
    ScenarioVocabulary(AllTokens(tok, X));
    NineWords();
  }
}
