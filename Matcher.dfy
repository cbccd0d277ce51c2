/**
 * The keyword matcher behind `extract_skills` and `detect_job_field`, over
 * any taxonomy and any token set: the match predicate, the specification
 * functions, and the two scans with the loops the source runs.
 */
module Matcher {
  import opened Text
  import opened Taxonomy

  /**
   * The presence test of both entry points: a keyword of several words
   * needs each of its words among the tokens (in any order, anywhere);
   * a keyword of one word needs its lower-cased self among the tokens.
   */
  predicate KeywordMatches(kw: string, tokens: set<string>) {
    var parts := Split(Lower(kw));
    if |parts| > 1 then forall p :: p in parts ==> p in tokens
    else Lower(kw) in tokens
  }

  /**
   * For a phrase of words separated by single spaces, the presence test
   * holds exactly when every word, lower-cased, is a token.
   */
  lemma KeywordMatchesWords(words: seq<string>, tokens: set<string>)
    requires |words| > 0
    requires forall k :: 0 <= k < |words| ==> IsWord(words[k])
    ensures KeywordMatches(Join(words), tokens) <==> forall k :: 0 <= k < |words| ==> Lower(words[k]) in tokens
  {
    var lowered := LowerAll(words);
    assert Lower(Join(words)) == Join(lowered) by {
      LowerJoin(words);
    }
    assert Split(Join(lowered)) == lowered by {
      LowerAllWords(words);
      SplitJoin(lowered);
    }
    KeywordMatchesParts(Join(words), lowered, tokens);
    if |words| == 1 {
      assert Join(lowered) == lowered[0];
    } else {
      assert forall p :: p in lowered ==> exists k :: 0 <= k < |words| && p == Lower(words[k]);
    }
  }

  /** A keyword of lower-case letters matches exactly when it is itself a token. */
  lemma SingleWordMatches(kw: string, tokens: set<string>)
    requires kw != [] && IsLowerLetters(kw)
    ensures KeywordMatches(kw, tokens) <==> kw in tokens
  {
    LowerLettersFacts(kw);
    assert IsWord(kw);
    SplitJoin([kw]);
    KeywordMatchesParts(kw, [kw], tokens);
  }

  /** A phrase of lower-case words matches exactly when each of its words is a token. */
  lemma PhraseOfLowerWordsMatches(words: seq<string>, tokens: set<string>)
    requires |words| > 0
    requires forall k :: 0 <= k < |words| ==> words[k] != [] && IsLowerLetters(words[k])
    ensures KeywordMatches(Join(words), tokens) <==> forall k :: 0 <= k < |words| ==> words[k] in tokens
  {
    forall k | 0 <= k < |words| ensures IsWord(words[k]) && Lower(words[k]) == words[k] {
      LowerLettersWord(words[k]);
    }
    KeywordMatchesWords(words, tokens);
  }

  lemma KeywordMatchesParts(kw: string, parts: seq<string>, tokens: set<string>)
    requires Split(Lower(kw)) == parts
    ensures KeywordMatches(kw, tokens) <==> if |parts| > 1 then forall p :: p in parts ==> p in tokens else Lower(kw) in tokens
  {
  }

  /**
   * A keyword holding a character that is neither a letter nor whitespace
   * (`scikit-learn`, `b2b`) never matches tokens that are all alphabetic.
   */
  lemma NonLetterKeywordNeverMatches(kw: string, i: nat, tokens: set<string>)
    requires i < |kw| && !IsLetter(kw[i]) && !IsSpace(kw[i])
    requires forall t :: t in tokens ==> IsAlpha(t)
    ensures !KeywordMatches(kw, tokens)
  {
    var lowered := Lower(kw);
    var c := lowered[i];
    assert !IsLetter(c) && !IsSpace(c);
    var parts := Split(lowered);
    if |parts| > 1 {
      SplitCovers(lowered, i);
      var k :| 0 <= k < |parts| && c in parts[k];
      assert !IsAlpha(parts[k]);
    } else {
      assert !IsAlpha(lowered);
    }
  }

  /** The keywords of `kws` that match, in list order: one field's share of `detected`. */
  function Matched(kws: seq<string>, tokens: set<string>): (m: seq<string>)
    ensures |m| <= |kws|
    ensures forall k :: k in m ==> k in kws
  {
    if kws == [] then []
    else
      var kw := kws[|kws| - 1];
      Matched(kws[..|kws| - 1], tokens) + (if KeywordMatches(kw, tokens) then [kw] else [])
  }

  /** `Matched` keeps exactly the keywords that match. */
  lemma {:induction false} MatchedMembers(kws: seq<string>, tokens: set<string>)
    ensures forall k :: k in Matched(kws, tokens) <==> k in kws && KeywordMatches(k, tokens)
  {
    if kws != [] {
      var init, kw := kws[..|kws| - 1], kws[|kws| - 1];
      assert kws == init + [kw];
      MatchedMembers(init, tokens);
    }
  }

  /** A field's score: how many of its keywords match. */
  function Score(kws: seq<string>, tokens: set<string>): (n: nat)
    ensures n <= |kws|
  {
    if kws == [] then 0
    else Score(kws[..|kws| - 1], tokens) + (if KeywordMatches(kws[|kws| - 1], tokens) then 1 else 0)
  }

  /** The score counts exactly the keywords the skills scan appends for that field. */
  lemma {:induction false} ScoreIsMatchedCount(kws: seq<string>, tokens: set<string>)
    ensures Score(kws, tokens) == |Matched(kws, tokens)|
  {
    if kws != [] {
      ScoreIsMatchedCount(kws[..|kws| - 1], tokens);
    }
  }

  /** A field scores exactly when one of its keywords matches. */
  lemma ScorePositiveIff(kws: seq<string>, tokens: set<string>)
    ensures Score(kws, tokens) > 0 <==> exists k :: k in kws && KeywordMatches(k, tokens)
  {
    ScoreIsMatchedCount(kws, tokens);
    MatchedMembers(kws, tokens);
    var m := Matched(kws, tokens);
    if m != [] {
      assert m[0] in m;
    }
  }

  /** A field in which exactly one keyword position matches scores 1. */
  lemma {:induction false} ScoreOfOneMatch(kws: seq<string>, j: nat, tokens: set<string>)
    requires j < |kws| && KeywordMatches(kws[j], tokens)
    requires forall m :: 0 <= m < |kws| && m != j ==> !KeywordMatches(kws[m], tokens)
    ensures Score(kws, tokens) == 1
  {
    var init := kws[..|kws| - 1];
    if j == |kws| - 1 {
      ScorePositiveIff(init, tokens);
    } else {
      ScoreOfOneMatch(init, j, tokens);
    }
  }

  /** `detected` after the nested scan: every matched keyword, field by field, duplicates kept. */
  function Detected(taxonomy: Taxonomy, tokens: set<string>): (detected: seq<string>)
    ensures forall k :: k in detected ==> exists i :: 0 <= i < |taxonomy| && k in taxonomy[i].1
  {
    if taxonomy == [] then []
    else
      var init := taxonomy[..|taxonomy| - 1];
      Detected(init, tokens) + Matched(taxonomy[|taxonomy| - 1].1, tokens)
  }

  /** `Detected` holds exactly the matching keywords of the taxonomy's fields. */
  lemma {:induction false} DetectedMembers(taxonomy: Taxonomy, tokens: set<string>)
    ensures forall k :: k in Detected(taxonomy, tokens) <==> exists i :: 0 <= i < |taxonomy| && k in taxonomy[i].1 && KeywordMatches(k, tokens)
  {
    if taxonomy != [] {
      var init, last := taxonomy[..|taxonomy| - 1], taxonomy[|taxonomy| - 1];
      DetectedMembers(init, tokens);
      MatchedMembers(last.1, tokens);
      assert forall i :: 0 <= i < |init| ==> taxonomy[i] == init[i];
    }
  }

  /** The first position of `x` in `s`. */
  function FirstIndex(s: seq<string>, x: string): (i: nat)
    requires x in s
    ensures i < |s| && s[i] == x
    ensures forall j :: 0 <= j < i ==> s[j] != x
  {
    if s[0] == x then 0 else 1 + FirstIndex(s[1..], x)
  }

  /** The elements of `r` come in the order of their first occurrence in `s`. */
  ghost predicate InFirstOccurrenceOrder(r: seq<string>, s: seq<string>) {
    forall a, b :: 0 <= a < b < |r| ==> r[a] in s && r[b] in s && FirstIndex(s, r[a]) < FirstIndex(s, r[b])
  }

  /** The de-duplication loop of `extract_skills`: keep each element's first occurrence. */
  function Dedup(s: seq<string>): (r: seq<string>)
    ensures NoDuplicates(r)
    ensures forall x :: x in r <==> x in s
  {
    if s == [] then []
    else
      var d := Dedup(s[..|s| - 1]);
      var x := s[|s| - 1];
      assert forall y :: y in s <==> y in s[..|s| - 1] || y == x by {
        assert s == s[..|s| - 1] + [x];
      }
      if x in d then d else d + [x]
  }

  lemma FirstIndexOfPrefix(s: seq<string>, x: string, y: string)
    requires y in s
    ensures y in s + [x] && FirstIndex(s + [x], y) == FirstIndex(s, y)
  {
    var i := FirstIndex(s, y);
    assert (s + [x])[i] == y;
    assert forall j :: 0 <= j < i ==> (s + [x])[j] == s[j];
  }

  /** One more element of `s` adds at most that element, at the end. */
  lemma MatchedStep(kws: seq<string>, j: nat, tokens: set<string>)
    requires j < |kws|
    ensures Matched(kws[..j + 1], tokens) == Matched(kws[..j], tokens) + (if KeywordMatches(kws[j], tokens) then [kws[j]] else [])
  {
    assert kws[..j + 1][..j] == kws[..j];
  }

  lemma ScoreStep(kws: seq<string>, j: nat, tokens: set<string>)
    requires j < |kws|
    ensures Score(kws[..j + 1], tokens) == Score(kws[..j], tokens) + (if KeywordMatches(kws[j], tokens) then 1 else 0)
  {
    assert kws[..j + 1][..j] == kws[..j];
  }

  lemma DetectedStep(taxonomy: Taxonomy, i: nat, tokens: set<string>)
    requires i < |taxonomy|
    ensures Detected(taxonomy[..i + 1], tokens) == Detected(taxonomy[..i], tokens) + Matched(taxonomy[i].1, tokens)
  {
    assert taxonomy[..i + 1][..i] == taxonomy[..i];
  }

  /** De-duplication keeps first-occurrence order. */
  lemma {:induction false} DedupOrder(s: seq<string>)
    ensures InFirstOccurrenceOrder(Dedup(s), s)
  {
    if s != [] {
      var init, x := s[..|s| - 1], s[|s| - 1];
      assert s == init + [x];
      var d := Dedup(init);
      DedupOrder(init);
      forall y | y in d
        ensures y in s && FirstIndex(s, y) == FirstIndex(init, y)
      {
        FirstIndexOfPrefix(init, x, y);
      }
      if x !in d {
        assert x !in init;
        assert FirstIndex(s, x) == |init| by {
          assert s[|init|] == x;
        }
        var r := d + [x];
        forall a, b | 0 <= a < b < |r|
          ensures r[a] in s && r[b] in s && FirstIndex(s, r[a]) < FirstIndex(s, r[b])
        {
          assert r[a] == d[a];
          if b < |d| {
            assert r[b] == d[b];
          }
        }
      }
    }
  }

  /** What `extract_skills` returns for a token set. */
  function Skills(taxonomy: Taxonomy, tokens: set<string>): (skills: seq<string>)
    ensures NoDuplicates(skills)
  {
    Dedup(Detected(taxonomy, tokens))
  }

  /** The skills are exactly the keywords, of any field, that match. */
  lemma SkillsMembers(taxonomy: Taxonomy, tokens: set<string>)
    ensures forall k :: k in Skills(taxonomy, tokens) <==> exists i :: 0 <= i < |taxonomy| && k in taxonomy[i].1 && KeywordMatches(k, tokens)
  {
    DetectedMembers(taxonomy, tokens);
  }

  /** A matching keyword of any field is a skill. */
  lemma MatchingKeywordIsSkill(taxonomy: Taxonomy, tokens: set<string>, i: nat, kw: string)
    requires i < |taxonomy| && kw in taxonomy[i].1 && KeywordMatches(kw, tokens)
    ensures kw in Skills(taxonomy, tokens)
  {
    SkillsMembers(taxonomy, tokens);
  }

  /**
   * Field `i` is the one `detect_job_field` picks: it scores above zero,
   * no field scores more, and every earlier field scores strictly less.
   */
  ghost predicate IsFirstBest(taxonomy: Taxonomy, tokens: set<string>, i: int) {
    && 0 <= i < |taxonomy|
    && Score(taxonomy[i].1, tokens) > 0
    && (forall j :: 0 <= j < |taxonomy| ==> Score(taxonomy[j].1, tokens) <= Score(taxonomy[i].1, tokens))
    && (forall j :: 0 <= j < i ==> Score(taxonomy[j].1, tokens) < Score(taxonomy[i].1, tokens))
  }

  /** At most one field is the pick, so the result of the scan is determined. */
  lemma FirstBestUnique(taxonomy: Taxonomy, tokens: set<string>, i: int, j: int)
    requires IsFirstBest(taxonomy, tokens, i) && IsFirstBest(taxonomy, tokens, j)
    ensures i == j
  {
  }

  /** No field scores exactly when no skill is found: the two entry points agree. */
  lemma NoScoreIffNoSkills(taxonomy: Taxonomy, tokens: set<string>)
    ensures (forall i :: 0 <= i < |taxonomy| ==> Score(taxonomy[i].1, tokens) == 0) <==> Skills(taxonomy, tokens) == []
  {
    var skills := Skills(taxonomy, tokens);
    SkillsMembers(taxonomy, tokens);
    if skills != [] {
      assert skills[0] in skills;
      var i :| 0 <= i < |taxonomy| && skills[0] in taxonomy[i].1 && KeywordMatches(skills[0], tokens);
      ScorePositiveIff(taxonomy[i].1, tokens);
    } else {
      forall i | 0 <= i < |taxonomy|
        ensures Score(taxonomy[i].1, tokens) == 0
      {
        ScorePositiveIff(taxonomy[i].1, tokens);
      }
    }
  }

  /** Without tokens no keyword matches, so nothing is found and no field scores. */
  lemma NoTokensFindNothing(taxonomy: Taxonomy)
    ensures Skills(taxonomy, {}) == []
    ensures forall i :: 0 <= i < |taxonomy| ==> Score(taxonomy[i].1, {}) == 0
  {
    forall k ensures !KeywordMatches(k, {}) {
      var parts := Split(Lower(k));
      if |parts| > 1 {
        assert parts[0] in parts;
      }
    }
    forall i | 0 <= i < |taxonomy|
      ensures Score(taxonomy[i].1, {}) == 0
    {
      ScorePositiveIff(taxonomy[i].1, {});
    }
    NoScoreIffNoSkills(taxonomy, {});
  }

  /** The inner loop of the `extract_skills` scan: one field's matching keywords appended to `detected`, in list order. */
  method AppendMatches(detected: seq<string>, kws: seq<string>, tokens: set<string>) returns (out: seq<string>)
    ensures out == detected + Matched(kws, tokens)
  {
    out := detected;
    for j := 0 to |kws|
      invariant out == detected + Matched(kws[..j], tokens)
    {
      var kw := kws[j];
      MatchedStep(kws, j, tokens);
      if KeywordMatches(kw, tokens) {
        out := out + [kw];
      }
    }
    assert kws[..|kws|] == kws;
  }

  /** The nested scan of `extract_skills`: every matching keyword, field by field, into `detected`. */
  method DetectScan(taxonomy: Taxonomy, tokens: set<string>) returns (detected: seq<string>)
    ensures detected == Detected(taxonomy, tokens)
  {
    detected := [];
    for i := 0 to |taxonomy|
      invariant detected == Detected(taxonomy[..i], tokens)
    {
      detected := AppendMatches(detected, taxonomy[i].1, tokens);
      DetectedStep(taxonomy, i, tokens);
    }
    assert taxonomy[..|taxonomy|] == taxonomy;
  }

  /** The `seen`/`uniq` loop of `extract_skills`: each entry of `detected` once, at its first position. */
  method SeenScan(detected: seq<string>) returns (uniq: seq<string>)
    ensures uniq == Dedup(detected)
  {
    var seen: set<string> := {};
    uniq := [];
    for k := 0 to |detected|
      invariant uniq == Dedup(detected[..k])
      invariant forall x :: x in seen <==> x in uniq
    {
      if detected[k] !in seen {
        seen := seen + {detected[k]};
        uniq := uniq + [detected[k]];
      }
      assert detected[..k + 1][..k] == detected[..k];
    }
    assert detected[..|detected|] == detected;
  }

  /** The skills scan of `extract_skills`, on a token set. */
  method ExtractSkillsFromTokens(taxonomy: Taxonomy, tokens: set<string>) returns (uniq: seq<string>)
    ensures uniq == Skills(taxonomy, tokens)
    ensures NoDuplicates(uniq)
    ensures forall k :: k in uniq <==> exists i :: 0 <= i < |taxonomy| && k in taxonomy[i].1 && KeywordMatches(k, tokens)
    ensures InFirstOccurrenceOrder(uniq, Detected(taxonomy, tokens))
  {
    var detected := DetectScan(taxonomy, tokens);
    uniq := SeenScan(detected);
    DedupOrder(detected);
    SkillsMembers(taxonomy, tokens);
  }

  /**
   * The state of the scoring scan after the first `n` fields: `best` is the
   * first of them with the highest positive score, or -1 when all score 0.
   */
  ghost predicate Leading(taxonomy: Taxonomy, tokens: set<string>, n: int, best: int) {
    && 0 <= n <= |taxonomy| && -1 <= best < n
    && (best == -1 ==> forall j :: 0 <= j < n ==> Score(taxonomy[j].1, tokens) == 0)
    && (best != -1 ==>
         && Score(taxonomy[best].1, tokens) > 0
         && (forall j :: 0 <= j < n ==> Score(taxonomy[j].1, tokens) <= Score(taxonomy[best].1, tokens))
         && (forall j :: 0 <= j < best ==> Score(taxonomy[j].1, tokens) < Score(taxonomy[best].1, tokens)))
  }

  /** One step of the scoring scan: a strictly higher score takes the lead, a tie does not. */
  lemma LeadingStep(taxonomy: Taxonomy, tokens: set<string>, i: int, best: int)
    requires i < |taxonomy| && Leading(taxonomy, tokens, i, best)
    ensures var lead := if best == -1 then 0 else Score(taxonomy[best].1, tokens);
            Leading(taxonomy, tokens, i + 1, if Score(taxonomy[i].1, tokens) > lead then i else best)
  {
  }

  /** The inner loop of the `detect_job_field` scan: the number of the field's keywords that match. */
  method FieldScore(kws: seq<string>, tokens: set<string>) returns (score: nat)
    ensures score == Score(kws, tokens)
  {
    score := 0;
    for j := 0 to |kws|
      invariant score == Score(kws[..j], tokens)
    {
      ScoreStep(kws, j, tokens);
      if KeywordMatches(kws[j], tokens) {
        score := score + 1;
      }
    }
    assert kws[..|kws|] == kws;
  }

  /**
   * The scoring scan of `detect_job_field`, on a token set: the first
   * field of highest positive score, or `General` when every score is 0.
   */
  method DetectJobFieldFromTokens(taxonomy: Taxonomy, tokens: set<string>) returns (bestField: string)
    ensures (forall i :: 0 <= i < |taxonomy| ==> Score(taxonomy[i].1, tokens) == 0) ==> bestField == General
    ensures (bestField == General && forall i :: 0 <= i < |taxonomy| ==> Score(taxonomy[i].1, tokens) == 0)
         || (exists i :: IsFirstBest(taxonomy, tokens, i) && bestField == taxonomy[i].0)
  {
    bestField := General;
    var bestScore := 0;
    ghost var best := -1;
    for i := 0 to |taxonomy|
      invariant Leading(taxonomy, tokens, i, best)
      invariant best == -1 ==> bestField == General && bestScore == 0
      invariant best != -1 ==> bestField == taxonomy[best].0 && bestScore == Score(taxonomy[best].1, tokens)
    {
      var (field, kws) := taxonomy[i];
      var score := FieldScore(kws, tokens);
      LeadingStep(taxonomy, tokens, i, best);
      if score > bestScore {
        bestScore := score;
        bestField := field;
        best := i;
      }
    }
    if best != -1 {
      assert IsFirstBest(taxonomy, tokens, best);
    }
  }


}
