/** `Tokenizer.apply` and the filter and sanitizer helpers it is built from.
    A text is split into words the way Python's `str.split()` does, each
    word the filter rejects is dropped and every kept word goes through the
    sanitizer. The Unicode tables behind `str.isalpha` and `str.lower` are
    parameters (a `CharModel`); `string.punctuation` is written out. */
module Tokens {

  /** The characters `str.isspace` accepts, by which `str.split()` splits. */
  predicate IsSpace(c: char)
  {
    || ('\t' <= c <= '\r')
    || ('\U{1c}' <= c <= '\U{1f}')
    || c == ' ' || c == '\U{85}' || c == '\U{a0}' || c == '\U{1680}'
    || ('\U{2000}' <= c <= '\U{200a}')
    || c == '\U{2028}' || c == '\U{2029}' || c == '\U{202f}' || c == '\U{205f}' || c == '\U{3000}'
  }

  /** A word of `str.split()`: non-empty and free of whitespace. */
  predicate IsWord(w: string)
  {
    w != [] && forall i :: 0 <= i < |w| ==> !IsSpace(w[i])
  }

  predicate NoSpace(w: string)
  {
    forall i :: 0 <= i < |w| ==> !IsSpace(w[i])
  }

  /** The scan behind `str.split()`: `cur` is the word being read. */
  function SplitFrom(s: string, cur: string): seq<string>
    decreases |s|
  {
    if s == [] then (if cur == [] then [] else [cur])
    else if IsSpace(s[0]) then (if cur == [] then [] else [cur]) + SplitFrom(s[1..], [])
    else SplitFrom(s[1..], cur + [s[0]])
  }

  /** `text.split()`: the maximal runs of non-whitespace characters. Every
      word is non-empty and free of whitespace, and the words together hold
      every other character of the text, in order. */
  function Split(s: string): (ws: seq<string>)
    ensures forall k :: 0 <= k < |ws| ==> IsWord(ws[k])
    ensures Concat(ws) == NonSpace(s)
  {
    SplitFromWords(s, []);
    SplitFromKeeps(s, []);
    SplitFrom(s, [])
  }

  lemma {:induction false} SplitFromWords(s: string, cur: string)
    requires NoSpace(cur)
    ensures forall k :: 0 <= k < |SplitFrom(s, cur)| ==> IsWord(SplitFrom(s, cur)[k])
    decreases |s|
  {
    if s != [] {
      if IsSpace(s[0]) {
        SplitFromWords(s[1..], []);
      } else {
        assert NoSpace(cur + [s[0]]) by {
          forall i | 0 <= i < |cur + [s[0]]| ensures !IsSpace((cur + [s[0]])[i]) {
            if i < |cur| { assert (cur + [s[0]])[i] == cur[i]; }
          }
        }
        SplitFromWords(s[1..], cur + [s[0]]);
      }
    }
  }

  /** `' '.join(ws)` */
  function Join(ws: seq<string>): string
  {
    if ws == [] then [] else if |ws| == 1 then ws[0] else ws[0] + [' '] + Join(ws[1..])
  }

  function Concat(ws: seq<string>): string
  {
    if ws == [] then [] else ws[0] + Concat(ws[1..])
  }

  /** The characters of `s` that are not whitespace, in order. */
  function NonSpace(s: string): string
  {
    if s == [] then [] else (if IsSpace(s[0]) then [] else [s[0]]) + NonSpace(s[1..])
  }

  lemma {:induction false} ConcatAppend(a: seq<string>, b: seq<string>)
    ensures Concat(a + b) == Concat(a) + Concat(b)
  {
    if a != [] {
      assert (a + b)[0] == a[0];
      assert (a + b)[1..] == a[1..] + b;
      ConcatAppend(a[1..], b);
      calc {
        Concat(a + b);
        (a + b)[0] + Concat((a + b)[1..]);
        a[0] + Concat(a[1..] + b);
        a[0] + (Concat(a[1..]) + Concat(b));
        (a[0] + Concat(a[1..])) + Concat(b);
        Concat(a) + Concat(b);
      }
    } else {
      assert a + b == b;
    }
  }

  lemma {:induction false} SplitFromKeeps(s: string, cur: string)
    requires NoSpace(cur)
    ensures Concat(SplitFrom(s, cur)) == cur + NonSpace(s)
    decreases |s|
  {
    if s == [] {
    } else if IsSpace(s[0]) {
      SplitFromKeeps(s[1..], []);
      ConcatAppend(if cur == [] then [] else [cur], SplitFrom(s[1..], []));
    } else {
      SplitFromKeeps(s[1..], cur + [s[0]]);
    }
  }

  lemma {:induction false} SplitFromConcat(a: string, b: string, sp: char, cur: string)
    requires NoSpace(cur) && IsSpace(sp)
    ensures SplitFrom(a + [sp] + b, cur) == SplitFrom(a, cur) + Split(b)
    decreases |a|
  {
    if a == [] {
      assert a + [sp] + b == [sp] + b;
      assert ([sp] + b)[1..] == b;
    } else {
      assert (a + [sp] + b)[0] == a[0];
      assert (a + [sp] + b)[1..] == a[1..] + [sp] + b;
      if IsSpace(a[0]) {
        SplitFromConcat(a[1..], b, sp, []);
      } else {
        SplitFromConcat(a[1..], b, sp, cur + [a[0]]);
      }
    }
  }

  /** Two texts separated by a whitespace character split into the words of
      the first followed by the words of the second. */
  lemma SplitConcat(a: string, sp: char, b: string)
    requires IsSpace(sp)
    ensures Split(a + [sp] + b) == Split(a) + Split(b)
  {
    SplitFromConcat(a, b, sp, []);
  }

  lemma {:induction false} SplitFromWord(w: string, cur: string)
    requires NoSpace(cur) && NoSpace(w) && cur + w != []
    ensures SplitFrom(w, cur) == [cur + w]
    decreases |w|
  {
    if w == [] {
      assert cur + w == cur;
    } else {
      assert cur + w == (cur + [w[0]]) + w[1..];
      SplitFromWord(w[1..], cur + [w[0]]);
    }
  }

  /** `' '.join(ws).split() == ws` for words that `str.split()` can produce. */
  lemma {:induction false} SplitJoin(ws: seq<string>)
    requires forall k :: 0 <= k < |ws| ==> IsWord(ws[k])
    ensures Split(Join(ws)) == ws
  {
    if ws == [] {
    } else if |ws| == 1 {
      SplitFromWord(ws[0], []);
      assert [] + ws[0] == ws[0];
    } else {
      SplitJoin(ws[1..]);
      SplitConcat(ws[0], ' ', Join(ws[1..]));
      SplitFromWord(ws[0], []);
      assert [] + ws[0] == ws[0];
      assert ws == [ws[0]] + ws[1..];
    }
  }

  /** The list comprehension `[g(w) for w in words if f(w)]`. */
  function Keep(f: string -> bool, g: string -> string, words: seq<string>): (r: seq<string>)
    ensures |r| <= |words|
  {
    if words == [] then []
    else Keep(f, g, words[..|words| - 1]) + (if f(words[|words| - 1]) then [g(words[|words| - 1])] else [])
  }

  /** The positions of the words `f` accepts. */
  function KeptIndices(f: string -> bool, words: seq<string>): (idx: seq<nat>)
    ensures forall k :: 0 <= k < |idx| ==> idx[k] < |words| && f(words[idx[k]])
    ensures forall k, l :: 0 <= k < l < |idx| ==> idx[k] < idx[l]
    ensures forall j :: 0 <= j < |words| && f(words[j]) ==> j in idx
  {
    if words == [] then []
    else
      var n := |words| - 1;
      var front := KeptIndices(f, words[..n]);
      var tail: seq<nat> := if f(words[n]) then [n] else [];
      assert forall k :: 0 <= k < |front| ==> front[k] < n && words[front[k]] == words[..n][front[k]];
      assert forall j :: 0 <= j < n ==> words[j] == words[..n][j];
      assert forall j :: 0 <= j < n && f(words[j]) ==> j in front;
      front + tail
  }

  /** The comprehension keeps, in order, exactly the words at the kept
      positions, each passed through `g`. */
  lemma {:induction false} KeepAtIndices(f: string -> bool, g: string -> string, words: seq<string>)
    ensures |Keep(f, g, words)| == |KeptIndices(f, words)|
    ensures forall k :: 0 <= k < |KeptIndices(f, words)| ==>
              Keep(f, g, words)[k] == g(words[KeptIndices(f, words)[k]])
  {
    if words != [] {
      var n := |words| - 1;
      KeepAtIndices(f, g, words[..n]);
      var front := KeptIndices(f, words[..n]);
      var kept := Keep(f, g, words[..n]);
      var tail := if f(words[n]) then [g(words[n])] else [];
      var idx := front + (if f(words[n]) then [n] else []);
      assert Keep(f, g, words) == kept + tail;
      assert KeptIndices(f, words) == idx;
      forall k | 0 <= k < |idx| ensures (kept + tail)[k] == g(words[idx[k]]) {
        if k < |front| {
          assert words[front[k]] == words[..n][front[k]];
        }
      }
    }
  }

  lemma {:induction false} KeepAppend(f: string -> bool, g: string -> string, a: seq<string>, b: seq<string>)
    ensures Keep(f, g, a + b) == Keep(f, g, a) + Keep(f, g, b)
    decreases |b|
  {
    if b == [] {
      assert a + b == a;
    } else {
      var n := |b| - 1;
      assert (a + b)[..|a + b| - 1] == a + b[..n];
      assert (a + b)[|a + b| - 1] == b[n];
      KeepAppend(f, g, a, b[..n]);
    }
  }

  /** `Tokenizer(filter, sanitizer)` */
  datatype Tokenizer = Tokenizer(filter: string -> bool, sanitizer: string -> string)
  {
    /** `apply(text)`: the sanitized words of `text.split()` that pass the
        filter. */
    function Apply(text: string): (tokens: seq<string>)
      ensures |tokens| <= |Split(text)|
    {
      Keep(filter, sanitizer, Split(text))
    }
  }

  /** `apply` returns `sanitizer(w)` for exactly the words `w` of
      `text.split()` that satisfy the filter, in document order. */
  lemma ApplyExactly(t: Tokenizer, text: string)
    ensures var words, idx := Split(text), KeptIndices(t.filter, Split(text));
            && |t.Apply(text)| == |idx|
            && (forall k :: 0 <= k < |idx| ==>
                  idx[k] < |words| && t.filter(words[idx[k]]) && t.Apply(text)[k] == t.sanitizer(words[idx[k]]))
            && (forall k, l :: 0 <= k < l < |idx| ==> idx[k] < idx[l])
            && (forall j :: 0 <= j < |words| && t.filter(words[j]) ==> j in idx)
  {
    KeepAtIndices(t.filter, t.sanitizer, Split(text));
  }

  /** Every token is the sanitized form of some word the filter accepts. */
  lemma ApplySource(t: Tokenizer, text: string, k: nat)
    requires k < |t.Apply(text)|
    ensures exists j :: 0 <= j < |Split(text)| && t.filter(Split(text)[j]) && t.sanitizer(Split(text)[j]) == t.Apply(text)[k]
  {
    var words, idx := Split(text), KeptIndices(t.filter, Split(text));
    ApplyExactly(t, text);
    assert idx[k] < |words| && t.filter(words[idx[k]]) && t.Apply(text)[k] == t.sanitizer(words[idx[k]]);
  }

  /** Every word the filter accepts yields its sanitized form as a token. */
  lemma ApplyTarget(t: Tokenizer, text: string, j: nat)
    requires j < |Split(text)| && t.filter(Split(text)[j])
    ensures t.sanitizer(Split(text)[j]) in t.Apply(text)
  {
    var words, idx := Split(text), KeptIndices(t.filter, Split(text));
    ApplyExactly(t, text);
    assert j in idx;
    var k :| 0 <= k < |idx| && idx[k] == j;
    assert t.Apply(text)[k] == t.sanitizer(words[j]);
  }

  /** A token comes from some accepted word, and every accepted word yields
      its token. */
  lemma ApplyMembership(t: Tokenizer, text: string, x: string)
    ensures x in t.Apply(text) <==> exists j :: 0 <= j < |Split(text)| && t.filter(Split(text)[j]) && t.sanitizer(Split(text)[j]) == x
  {
    if x in t.Apply(text) {
      var k :| 0 <= k < |t.Apply(text)| && t.Apply(text)[k] == x;
      ApplySource(t, text, k);
    }
    if j :| 0 <= j < |Split(text)| && t.filter(Split(text)[j]) && t.sanitizer(Split(text)[j]) == x {
      ApplyTarget(t, text, j);
    }
  }

  /** Tokenizing two texts joined by whitespace gives the tokens of the first
      followed by those of the second. */
  lemma ApplyConcat(t: Tokenizer, a: string, sp: char, b: string)
    requires IsSpace(sp)
    ensures t.Apply(a + [sp] + b) == t.Apply(a) + t.Apply(b)
  {
    SplitConcat(a, sp, b);
    KeepAppend(t.filter, t.sanitizer, Split(a), Split(b));
  }

  /** `identity(word)` */
  function Identity(word: string): string
  {
    word
  }

  /** `identity_filter(word)` */
  function IdentityFilter(word: string): bool
  {
    true
  }

  lemma {:induction false} KeepIdentity(words: seq<string>)
    ensures Keep(IdentityFilter, Identity, words) == words
  {
    if words != [] {
      KeepIdentity(words[..|words| - 1]);
      assert words == words[..|words| - 1] + [words[|words| - 1]];
    }
  }

  /** `Tokenizer(identity_filter, identity).apply(text) == text.split()` */
  lemma ApplyIdentity(text: string)
    ensures Tokenizer(IdentityFilter, Identity).Apply(text) == Split(text)
  {
    KeepIdentity(Split(text));
  }

  /** The character classification Python takes from the Unicode tables:
      `str.isalpha` on one character and `str.lower` on one character. */
  datatype CharModel = CharModel(isAlpha: char -> bool, lower: char -> char)

  /** The facts about the Unicode tables the lemmas below rely on:
      letters are neither whitespace nor ASCII punctuation, the lower case
      of a letter is a letter, and
      lower-casing twice is lower-casing once. */
  ghost predicate Sound(m: CharModel)
  {
    && (forall c :: m.isAlpha(c) ==> !IsPunctuation(c) && !IsSpace(c))
    && (forall c :: m.isAlpha(c) ==> m.isAlpha(m.lower(c)))
    && (forall c :: m.lower(m.lower(c)) == m.lower(c))
  }

  /** ASCII letters and ASCII lower-casing, a model the lemmas apply to. */
  function AsciiLower(c: char): char
  {
    if 'A' <= c <= 'Z' then (c as int + 32) as char else c
  }

  function AsciiAlpha(c: char): bool
  {
    'a' <= c <= 'z' || 'A' <= c <= 'Z'
  }

  const Ascii := CharModel(AsciiAlpha, AsciiLower)

  lemma AsciiSound()
    ensures Sound(Ascii)
  {
  }

  /** `string.punctuation`: the 32 ASCII characters
      !"#$%&'()*+,-./:;<=>?@[\]^_`{|}~ */
  predicate IsPunctuation(c: char)
  {
    ('!' <= c <= '/') || (':' <= c <= '@') || ('[' <= c <= '`') || ('{' <= c <= '~')
  }

  /** `remove_short_words(word, n=3)` */
  function RemoveShortWords(word: string, n: nat := 3): bool
  {
    |word| > n
  }

  /** `remove_non_alpha(word)`: `str.isalpha` is false on the empty string. */
  function RemoveNonAlpha(m: CharModel, word: string): bool
  {
    word != [] && forall i :: 0 <= i < |word| ==> m.isAlpha(word[i])
  }

  /** `complex_filter(word)` */
  function ComplexFilter(m: CharModel, word: string): bool
  {
    RemoveShortWords(word) && RemoveNonAlpha(m, word)
  }

  /** `to_lower(word)`, character by character. */
  function ToLower(m: CharModel, word: string): string
  {
    seq(|word|, i requires 0 <= i < |word| => m.lower(word[i]))
  }

  /** `remove_punctuation(word)`: `word.translate` deleting `string.punctuation`. */
  function RemovePunctuation(word: string): string
  {
    if word == [] then []
    else (if IsPunctuation(word[0]) then [] else [word[0]]) + RemovePunctuation(word[1..])
  }

  predicate NoPunctuation(word: string)
  {
    forall i :: 0 <= i < |word| ==> !IsPunctuation(word[i])
  }

  /** Deleting punctuation leaves none. */
  lemma {:induction false} RemovePunctuationClean(word: string)
    ensures NoPunctuation(RemovePunctuation(word))
  {
    if word != [] {
      RemovePunctuationClean(word[1..]);
      var head := if IsPunctuation(word[0]) then [] else [word[0]];
      assert RemovePunctuation(word) == head + RemovePunctuation(word[1..]);
    }
  }

  /** Deleting punctuation keeps every other character as many times as it
      occurs, and no punctuation character at all. */
  lemma {:induction false} RemovePunctuationCounts(word: string)
    ensures forall c :: !IsPunctuation(c) ==> multiset(RemovePunctuation(word))[c] == multiset(word)[c]
    ensures forall c :: IsPunctuation(c) ==> multiset(RemovePunctuation(word))[c] == 0
  {
    if word != [] {
      RemovePunctuationCounts(word[1..]);
      var head := if IsPunctuation(word[0]) then [] else [word[0]];
      assert RemovePunctuation(word) == head + RemovePunctuation(word[1..]);
      assert word == [word[0]] + word[1..];
      assert multiset(word) == multiset([word[0]]) + multiset(word[1..]);
      assert multiset(RemovePunctuation(word)) == multiset(head) + multiset(RemovePunctuation(word[1..]));
    }
  }

  /** A word without punctuation is left as it is. */
  lemma {:induction false} RemovePunctuationKeeps(word: string)
    requires NoPunctuation(word)
    ensures RemovePunctuation(word) == word
  {
    if word != [] {
      forall i | 0 <= i < |word| - 1
        ensures !IsPunctuation(word[1..][i])
      {
        assert word[1..][i] == word[i + 1];
      }
      RemovePunctuationKeeps(word[1..]);
      assert word == [word[0]] + word[1..];
    }
  }

  /** `complex_sanitize(word)` */
  function ComplexSanitize(m: CharModel, word: string): string
  {
    ToLower(m, RemovePunctuation(word))
  }

  /** `custom_sanitizer(word)`; the Snowball stemmer is a parameter. */
  function CustomSanitize(m: CharModel, stem: string -> string, word: string): string
  {
    stem(ToLower(m, RemovePunctuation(word)))
  }

  /** `custom_filter(word)`: it accepts every word. */
  function CustomFilter(word: string): bool
  {
    true
  }

  function ComplexTokenizer(m: CharModel): Tokenizer
  {
    Tokenizer(w => ComplexFilter(m, w), w => ComplexSanitize(m, w))
  }

  function CustomTokenizer(m: CharModel, stem: string -> string): Tokenizer
  {
    Tokenizer(CustomFilter, w => CustomSanitize(m, stem, w))
  }

  /** Sanitizing a word `complex_filter` accepts only lower-cases it: the
      token has the word's length, no punctuation, and is already lower case. */
  lemma ComplexSanitizeAccepted(m: CharModel, w: string)
    requires Sound(m) && ComplexFilter(m, w)
    ensures ComplexSanitize(m, w) == ToLower(m, w)
    ensures |ComplexSanitize(m, w)| == |w| > 3
    ensures NoPunctuation(ComplexSanitize(m, w))
    ensures ToLower(m, ComplexSanitize(m, w)) == ComplexSanitize(m, w)
  {
    assert NoPunctuation(w);
    RemovePunctuationKeeps(w);
  }

  /** Every token of `Tokenizer(complex_filter, complex_sanitize)` is longer
      than three characters, holds no punctuation and no whitespace, and is
      its own lower case. */
  lemma ComplexTokens(m: CharModel, text: string)
    requires Sound(m)
    ensures forall x :: x in ComplexTokenizer(m).Apply(text) ==>
              |x| > 3 && NoPunctuation(x) && NoSpace(x) && ToLower(m, x) == x
  {
    var t := ComplexTokenizer(m);
    forall x | x in t.Apply(text)
      ensures |x| > 3 && NoPunctuation(x) && NoSpace(x) && ToLower(m, x) == x
    {
      ApplyMembership(t, text, x);
      var j :| 0 <= j < |Split(text)| && t.filter(Split(text)[j]) && t.sanitizer(Split(text)[j]) == x;
      var w := Split(text)[j];
      ComplexSanitizeAccepted(m, w);
      assert x == ToLower(m, w);
      forall i | 0 <= i < |x| ensures !IsSpace(x[i]) {
        assert x[i] == m.lower(w[i]) && m.isAlpha(w[i]);
      }
    }
  }

  /** `custom_filter` accepts everything, so the custom tokenizer yields
      one stemmed, sanitized token per word. */
  lemma CustomTokens(m: CharModel, stem: string -> string, text: string)
    ensures |CustomTokenizer(m, stem).Apply(text)| == |Split(text)|
    ensures forall k :: 0 <= k < |Split(text)| ==>
              CustomTokenizer(m, stem).Apply(text)[k] == stem(ComplexSanitize(m, Split(text)[k]))
  {
    var t := CustomTokenizer(m, stem);
    var words := Split(text);
    ApplyExactly(t, text);
    var idx := KeptIndices(t.filter, words);
    AllIndices(idx, |words|);
  }

  /** A strictly increasing list of positions that holds every position
      below `n` and none above is `0, 1, .., n - 1`. */
  lemma {:induction false} AllIndices(idx: seq<nat>, n: nat)
    requires forall k :: 0 <= k < |idx| ==> idx[k] < n
    requires forall k, l :: 0 <= k < l < |idx| ==> idx[k] < idx[l]
    requires forall j :: 0 <= j < n ==> j in idx
    ensures |idx| == n && forall k :: 0 <= k < n ==> idx[k] == k
    decreases n
  {
    if n > 0 {
      assert n - 1 in idx;
      var last :| 0 <= last < |idx| && idx[last] == n - 1;
      assert last == |idx| - 1 by {
        assert idx[|idx| - 1] < n;
      }
      var front := idx[..|idx| - 1];
      forall j | 0 <= j < n - 1 ensures j in front {
        assert j in idx;
        var k :| 0 <= k < |idx| && idx[k] == j;
        assert k != |idx| - 1;
      }
      AllIndices(front, n - 1);
      assert idx == front + [n - 1];
    } else {
      assert (idx + [0])[0] < n || idx == [];
    }
  }
}
