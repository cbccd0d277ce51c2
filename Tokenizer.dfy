/**
 * `_tokenize`: lower-case the text, split it into tokens, and keep only
 * the tokens that are made of letters and are not stopwords.
 *
 * NLTK's `word_tokenize` and its English stopword list are foreign code:
 * the tokenizer is a parameter (`Unavailable` selects the whitespace
 * fallback), and so is the stopword set (`None` when the lookup failed).
 */
module Tokenizer {
  import opened Wrappers
  import opened Text

  /** `word_tokenize` when its data can be loaded; otherwise `str.split()` is used. */
  datatype WordTokenizer = Available(wordTokenize: string -> seq<string>) | Unavailable

  /** `(text or "").lower()`: a missing text reads as the empty string. */
  function Lowered(text: Option<string>): (s: string)
    ensures IsLowercase(s)
    ensures text.None? ==> s == []
    ensures text.Some? ==> |s| == |text.value|
  {
    match text
    case None => ""
    case Some(t) => Lower(t)
  }

  /** The tokens of the lower-cased text, before filtering. */
  function RawTokens(text: Option<string>, tokenizer: WordTokenizer): (raw: seq<string>)
    ensures tokenizer.Unavailable? ==> forall t :: t in raw ==> IsWord(t)
  {
    match tokenizer
    case Available(wordTokenize) => wordTokenize(Lowered(text))
    case Unavailable => Split(Lowered(text))
  }

  /** `stopwords.words("english")` as a set, or the empty set when it cannot be loaded. */
  function StopwordSet(stopwords: Option<set<string>>): set<string> {
    match stopwords
    case None => {}
    case Some(sw) => sw
  }

  /** `[t for t in tokens if t.isalpha() and t not in sw]`. */
  function Filter(tokens: seq<string>, sw: set<string>): (kept: seq<string>)
    ensures |kept| <= |tokens|
    ensures forall t :: t in kept <==> t in tokens && IsAlpha(t) && t !in sw
  {
    if tokens == [] then []
    else (if IsAlpha(tokens[0]) && tokens[0] !in sw then [tokens[0]] else []) + Filter(tokens[1..], sw)
  }

  /** Filtering twice keeps what filtering once keeps, in the same order. */
  lemma {:induction false} FilterIdempotent(tokens: seq<string>, sw: set<string>)
    ensures Filter(Filter(tokens, sw), sw) == Filter(tokens, sw)
  {
    if tokens != [] {
      var head := if IsAlpha(tokens[0]) && tokens[0] !in sw then [tokens[0]] else [];
      FilterIdempotent(tokens[1..], sw);
      FilterAppend(head, Filter(tokens[1..], sw), sw);
      if head != [] {
        assert Filter(head, sw) == head by {
          assert head[1..] == [];
        }
      }
    }
  }

  /** Filtering distributes over concatenation. */
  lemma {:induction false} FilterAppend(a: seq<string>, b: seq<string>, sw: set<string>)
    ensures Filter(a + b, sw) == Filter(a, sw) + Filter(b, sw)
  {
    if a != [] {
      assert (a + b)[1..] == a[1..] + b;
      FilterAppend(a[1..], b, sw);
    } else {
      assert a + b == b;
    }
  }

  /** `_tokenize(text)`. */
  function Tokenize(text: Option<string>, tokenizer: WordTokenizer, stopwords: Option<set<string>>): (tokens: seq<string>)
    ensures forall t :: t in tokens <==> t in RawTokens(text, tokenizer) && IsAlpha(t) && t !in StopwordSet(stopwords)
  {
    Filter(RawTokens(text, tokenizer), StopwordSet(stopwords))
  }

  /** `set(_tokenize(text))`, the set both entry points match against. */
  function TokenSet(text: Option<string>, tokenizer: WordTokenizer, stopwords: Option<set<string>>): (tokens: set<string>)
    ensures forall t :: t in tokens <==> t in Tokenize(text, tokenizer, stopwords)
  {
    set t | t in Tokenize(text, tokenizer, stopwords)
  }

  /**
   * The foreign tokenizer introduces no upper-case letter: every upper-case
   * letter of a token comes from `s`. It may still rewrite other characters,
   * as `word_tokenize` turns `"` into two backticks or two apostrophes.
   */
  ghost predicate AddsNoUpperCase(wordTokenize: string -> seq<string>, s: string) {
    forall t, c :: t in wordTokenize(s) && c in t && IsUpper(c) ==> c in s
  }

  /**
   * Every token is lower-case: the text is lower-cased before it is split
   * (for `word_tokenize`, provided it introduces no upper-case letter).
   */
  lemma TokensAreLowercase(text: Option<string>, tokenizer: WordTokenizer, stopwords: Option<set<string>>)
    requires tokenizer.Available? ==> AddsNoUpperCase(tokenizer.wordTokenize, Lowered(text))
    ensures forall t :: t in Tokenize(text, tokenizer, stopwords) ==> IsLowercase(t)
  {
    var s := Lowered(text);
    forall t | t in Tokenize(text, tokenizer, stopwords)
      ensures IsLowercase(t)
    {
      assert t in RawTokens(text, tokenizer);
      forall i | 0 <= i < |t|
        ensures !IsUpper(t[i])
      {
        if tokenizer.Unavailable? {
          var k :| 0 <= k < |Split(s)| && Split(s)[k] == t;
          SplitKeepsCharacters(s);
          assert Split(s)[k][i] in s;
        } else {
          assert t[i] in t;
        }
      }
    }
  }

  /**
   * An absent, empty or whitespace-only text has no tokens (for
   * `word_tokenize`, provided it yields none for such a text).
   */
  lemma BlankTextHasNoTokens(text: Option<string>, tokenizer: WordTokenizer, stopwords: Option<set<string>>)
    requires text.Some? ==> forall i :: 0 <= i < |text.value| ==> IsSpace(text.value[i])
    requires tokenizer.Available? ==> tokenizer.wordTokenize(Lowered(text)) == []
    ensures Tokenize(text, tokenizer, stopwords) == []
  {
    if tokenizer.Unavailable? {
      var s := Lowered(text);
      assert forall i :: 0 <= i < |s| ==> IsSpace(s[i]) by {
        if text.Some? {
          forall i | 0 <= i < |s| ensures IsSpace(s[i]) {
            assert s[i] == LowerChar(text.value[i]);
          }
        }
      }
      SplitBlank(s);
    }
  }

  /** Filtering keeps a list of alphabetic non-stopwords whole. */
  lemma {:induction false} FilterKeepsAll(tokens: seq<string>, sw: set<string>)
    requires forall k :: 0 <= k < |tokens| ==> IsAlpha(tokens[k]) && tokens[k] !in sw
    ensures Filter(tokens, sw) == tokens
  {
    if tokens != [] {
      FilterKeepsAll(tokens[1..], sw);
    }
  }

  /**
   * Under the whitespace fallback, a phrase of lower-case words separated
   * by single spaces tokenizes into exactly those words.
   */
  lemma TokensOfPhrase(words: seq<string>, stopwords: Option<set<string>>)
    requires forall k :: 0 <= k < |words| ==> words[k] != [] && IsLowerLetters(words[k])
    ensures Tokenize(Some(Join(words)), Unavailable, stopwords) == Filter(words, StopwordSet(stopwords))
    ensures stopwords.None? ==> Tokenize(Some(Join(words)), Unavailable, stopwords) == words
  {
    forall k | 0 <= k < |words|
      ensures IsWord(words[k]) && IsAlpha(words[k]) && Lower(words[k]) == words[k]
    {
      LowerLettersWord(words[k]);
    }
    var s := Join(words);
    LowerJoin(words);
    assert LowerAll(words) == words;
    assert Lowered(Some(s)) == s;
    SplitJoin(words);
    assert RawTokens(Some(s), Unavailable) == words;
    if stopwords.None? {
      FilterKeepsAll(words, {});
    }
  }

  /** Tokenizing ignores case: texts that agree once lower-cased give the same tokens. */
  lemma TokenizeIgnoresCase(a: string, b: string, tokenizer: WordTokenizer, stopwords: Option<set<string>>)
    requires Lower(a) == Lower(b)
    ensures Tokenize(Some(a), tokenizer, stopwords) == Tokenize(Some(b), tokenizer, stopwords)
  {
  }

}
