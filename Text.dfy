/**
 * The parts of Python's `str` that the analyzer relies on, restricted to
 * ASCII: `isspace` (the separators of `split()` with no argument),
 * `isalpha`, `lower` and `split`. `Join` is the inverse of `Split` on
 * well-formed phrases such as the multi-word keywords.
 */
module Text {

  /** The ASCII characters for which `str.isspace` holds. */
  predicate IsSpace(c: char) {
    var n := c as int;
    n == 32 || 9 <= n <= 13 || 28 <= n <= 31
  }

  predicate IsUpper(c: char) {
    'A' <= c <= 'Z'
  }

  /** `str.isalpha` on one ASCII character. */
  predicate IsLetter(c: char) {
    'a' <= c <= 'z' || IsUpper(c)
  }

  /** `str.lower` on one ASCII character: only `A`..`Z` change. */
  function LowerChar(c: char): (d: char)
    ensures !IsUpper(d)
    ensures IsLetter(d) <==> IsLetter(c)
    ensures IsSpace(d) <==> IsSpace(c)
    ensures !IsUpper(c) ==> d == c
    ensures IsUpper(c) ==> d as int == c as int + 32
  {
    if IsUpper(c) then (c as int + 32) as char else c
  }

  /** `s.lower()`. */
  function Lower(s: string): (r: string)
    ensures |r| == |s|
    ensures forall i :: 0 <= i < |r| ==> !IsUpper(r[i])
  {
    seq(|s|, i requires 0 <= i < |s| => LowerChar(s[i]))
  }

  /** Lower-casing keeps every letter a letter and every whitespace character whitespace, position by position. */
  lemma LowerKeepsClasses(s: string)
    ensures forall i :: 0 <= i < |s| ==> (IsLetter(Lower(s)[i]) <==> IsLetter(s[i])) && (IsSpace(Lower(s)[i]) <==> IsSpace(s[i]))
  {
  }

  predicate IsLowercase(s: string) {
    forall i :: 0 <= i < |s| ==> !IsUpper(s[i])
  }

  /** `s.isalpha()`: non-empty and made of letters only. */
  predicate IsAlpha(s: string) {
    |s| > 0 && forall i :: 0 <= i < |s| ==> IsLetter(s[i])
  }

  /** A non-empty run of non-whitespace characters: what `split()` yields. */
  predicate IsWord(w: string) {
    |w| > 0 && forall i :: 0 <= i < |w| ==> !IsSpace(w[i])
  }

  lemma LowerAppend(a: string, b: string)
    ensures Lower(a + b) == Lower(a) + Lower(b)
  {
  }

  /** Lower-case ASCII letters only: a check that unfolds on literal keywords. */
  predicate IsLowerLetters(s: string) {
    s == [] || ('a' <= s[0] <= 'z' && IsLowerLetters(s[1..]))
  }

  lemma {:induction false} LowerLettersFacts(s: string)
    requires IsLowerLetters(s)
    ensures forall i :: 0 <= i < |s| ==> 'a' <= s[i] <= 'z'
    ensures Lower(s) == s
  {
    if s != [] {
      LowerLettersFacts(s[1..]);
      assert forall i :: 1 <= i < |s| ==> s[i] == s[1..][i - 1];
    }
  }

  lemma LowerLettersWord(w: string)
    requires w != [] && IsLowerLetters(w)
    ensures IsWord(w) && IsAlpha(w) && Lower(w) == w
  {
    LowerLettersFacts(w);
  }

  /** The longest prefix of `s` that holds no whitespace. */
  function Word(s: string): (w: string)
    ensures |w| <= |s| && w == s[..|w|]
    ensures forall i :: 0 <= i < |w| ==> !IsSpace(w[i])
    ensures |w| < |s| ==> IsSpace(s[|w|])
  {
    if s == [] || IsSpace(s[0]) then [] else [s[0]] + Word(s[1..])
  }

  /**
   * `s.split()`: the maximal runs of non-whitespace characters, in order;
   * leading, trailing and repeated whitespace produce no empty strings.
   */
  function Split(s: string): (parts: seq<string>)
    ensures forall k :: 0 <= k < |parts| ==> IsWord(parts[k])
    decreases |s|
  {
    if s == [] then []
    else if IsSpace(s[0]) then Split(s[1..])
    else
      var w := Word(s);
      [w] + Split(s[|w|..])
  }

  /** Every character of every part of `split()` is a character of the string. */
  lemma {:induction false} SplitKeepsCharacters(s: string)
    ensures forall k, i :: 0 <= k < |Split(s)| && 0 <= i < |Split(s)[k]| ==> Split(s)[k][i] in s
    decreases |s|
  {
    if s != [] {
      if IsSpace(s[0]) {
        SplitKeepsCharacters(s[1..]);
      } else {
        var w := Word(s);
        SplitKeepsCharacters(s[|w|..]);
      }
    }
  }

  /** Every non-whitespace character of `s` lands in some part of `Split(s)`. */
  lemma {:induction false} SplitCovers(s: string, i: nat)
    requires i < |s| && !IsSpace(s[i])
    ensures exists k :: 0 <= k < |Split(s)| && s[i] in Split(s)[k]
    decreases |s|
  {
    if IsSpace(s[0]) {
      SplitCovers(s[1..], i - 1);
      var k :| 0 <= k < |Split(s[1..])| && s[1..][i - 1] in Split(s[1..])[k];
      assert Split(s)[k] == Split(s[1..])[k];
    } else {
      var w := Word(s);
      if i < |w| {
        assert s[i] == w[i];
        assert Split(s)[0] == w;
      } else {
        SplitCovers(s[|w|..], i - |w|);
        var k :| 0 <= k < |Split(s[|w|..])| && s[|w|..][i - |w|] in Split(s[|w|..])[k];
        assert Split(s)[k + 1] == Split(s[|w|..])[k];
      }
    }
  }

  /** A string made of whitespace only splits into nothing. */
  lemma {:induction false} SplitBlank(s: string)
    requires forall i :: 0 <= i < |s| ==> IsSpace(s[i])
    ensures Split(s) == []
    decreases |s|
  {
    if s != [] {
      SplitBlank(s[1..]);
    }
  }

  /** The phrase whose words are `words`, separated by single spaces. */
  function Join(words: seq<string>): string
    decreases |words|
  {
    if |words| == 0 then ""
    else if |words| == 1 then words[0]
    else words[0] + " " + Join(words[1..])
  }

  lemma {:induction false} WordOfPrefix(w: string, rest: string)
    requires IsWord(w)
    requires rest == [] || IsSpace(rest[0])
    ensures Word(w + rest) == w
    decreases |w|
  {
    assert (w + rest)[1..] == w[1..] + rest;
    if |w| > 1 {
      WordOfPrefix(w[1..], rest);
    } else {
      assert w[1..] + rest == rest;
    }
  }

  /** `Split` undoes `Join` on well-formed phrases. */
  lemma {:induction false} SplitJoin(words: seq<string>)
    requires forall k :: 0 <= k < |words| ==> IsWord(words[k])
    ensures Split(Join(words)) == words
    decreases |words|
  {
    if |words| == 1 {
      var w := words[0];
      WordOfPrefix(w, []);
      assert w + [] == w;
      assert w[|w|..] == [];
    } else if |words| > 1 {
      var w, rest := words[0], Join(words[1..]);
      var s := w + " " + rest;
      WordOfPrefix(w, " " + rest);
      assert s == w + (" " + rest);
      assert s[|w|..] == " " + rest;
      assert (" " + rest)[1..] == rest;
      SplitJoin(words[1..]);
      assert [w] + words[1..] == words;
    }
  }

  /** Each word lower-cased. */
  function LowerAll(words: seq<string>): (lowered: seq<string>)
    ensures |lowered| == |words|
    ensures forall k :: 0 <= k < |words| ==> lowered[k] == Lower(words[k])
  {
    seq(|words|, k requires 0 <= k < |words| => Lower(words[k]))
  }

  lemma LowerAllWords(words: seq<string>)
    requires forall k :: 0 <= k < |words| ==> IsWord(words[k])
    ensures forall k :: 0 <= k < |words| ==> IsWord(LowerAll(words)[k])
  {
    forall k | 0 <= k < |words| ensures IsWord(LowerAll(words)[k]) {
      var w := words[k];
      forall i | 0 <= i < |w| ensures !IsSpace(Lower(w)[i]) {
        assert Lower(w)[i] == LowerChar(w[i]);
      }
    }
  }

  lemma {:induction false} LowerJoin(words: seq<string>)
    ensures Lower(Join(words)) == Join(LowerAll(words))
    decreases |words|
  {
    if |words| > 1 {
      LowerJoin(words[1..]);
      assert LowerAll(words)[1..] == LowerAll(words[1..]);
      LowerAppend(words[0] + " ", Join(words[1..]));
      LowerAppend(words[0], " ");
    }
  }

}
