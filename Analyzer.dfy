/**
 * The two entry points, `extract_skills(text)` and `detect_job_field(text)`:
 * each tokenizes the text on its own, turns the tokens into a set, and
 * scans the fixed `SkillKeywords` table.
 */
module Analyzer {
  import opened Wrappers
  import opened Text
  import opened Tokenizer
  import opened Taxonomy
  import opened Matcher

  /**
   * A keyword with a character that is neither a letter nor whitespace is
   * never among the skills found in any text: every token passed `isalpha`.
   */
  lemma NonLetterKeywordNeverDetected(taxonomy: Taxonomy, kw: string, i: nat,
                                      text: Option<string>, tokenizer: WordTokenizer, stopwords: Option<set<string>>)
    requires i < |kw| && !IsLetter(kw[i]) && !IsSpace(kw[i])
    ensures kw !in Skills(taxonomy, TokenSet(text, tokenizer, stopwords))
  {
    var tokens := TokenSet(text, tokenizer, stopwords);
    NonLetterKeywordNeverMatches(kw, i, tokens);
    SkillsMembers(taxonomy, tokens);
  }

  /** `scikit-learn`, `b2b` and `b2c` are keywords of the table (`data science` and `sales`). */
  lemma UndetectableKeywordsListed()
    ensures SkillKeywords[0].1[3] == "scikit-learn" && SkillKeywords[3].1[4] == "b2b" && SkillKeywords[3].1[5] == "b2c"
  {
  }

  /** ... and none of them is ever detected, whatever the text. */
  lemma UndetectableKeywords(text: Option<string>, tokenizer: WordTokenizer, stopwords: Option<set<string>>)
    ensures "scikit-learn" !in Skills(SkillKeywords, TokenSet(text, tokenizer, stopwords))
    ensures "b2b" !in Skills(SkillKeywords, TokenSet(text, tokenizer, stopwords))
    ensures "b2c" !in Skills(SkillKeywords, TokenSet(text, tokenizer, stopwords))
  {
    NonLetterKeywordNeverDetected(SkillKeywords, "scikit-learn", 6, text, tokenizer, stopwords);
    NonLetterKeywordNeverDetected(SkillKeywords, "b2b", 1, text, tokenizer, stopwords);
    NonLetterKeywordNeverDetected(SkillKeywords, "b2c", 1, text, tokenizer, stopwords);
  }

  /** `extract_skills(text)`. */
  method ExtractSkills(text: Option<string>, tokenizer: WordTokenizer, stopwords: Option<set<string>>) returns (skills: seq<string>)
    ensures skills == Skills(SkillKeywords, TokenSet(text, tokenizer, stopwords))
    ensures NoDuplicates(skills)
    ensures forall k :: k in skills <==>
      exists i :: 0 <= i < |SkillKeywords| && k in SkillKeywords[i].1 && KeywordMatches(k, TokenSet(text, tokenizer, stopwords))
    ensures InFirstOccurrenceOrder(skills, Detected(SkillKeywords, TokenSet(text, tokenizer, stopwords)))
    ensures "scikit-learn" !in skills && "b2b" !in skills && "b2c" !in skills
  {
    var tokens := TokenSet(text, tokenizer, stopwords);
    skills := ExtractSkillsFromTokens(SkillKeywords, tokens);
    SkillsMembers(SkillKeywords, tokens);
    UndetectableKeywords(text, tokenizer, stopwords);
  }

  /** `detect_job_field(text)`. */
  method DetectJobField(text: Option<string>, tokenizer: WordTokenizer, stopwords: Option<set<string>>) returns (field: string)
    ensures field == General || field in FieldNames(SkillKeywords)
    ensures field == General <==> Skills(SkillKeywords, TokenSet(text, tokenizer, stopwords)) == []
    ensures field != General ==>
      exists i :: IsFirstBest(SkillKeywords, TokenSet(text, tokenizer, stopwords), i) && field == SkillKeywords[i].0
  {
    var tokens := TokenSet(text, tokenizer, stopwords);
    field := DetectJobFieldFromTokens(SkillKeywords, tokens);
    SkillKeywordsFields();
    NoScoreIffNoSkills(SkillKeywords, tokens);
  }

  /**
   * An absent, empty or whitespace-only text yields no skills and the
   * field `General` (for `word_tokenize`, provided it yields no tokens).
   */
  lemma BlankTextFindsNothing(text: Option<string>, tokenizer: WordTokenizer, stopwords: Option<set<string>>)
    requires text.Some? ==> forall i :: 0 <= i < |text.value| ==> IsSpace(text.value[i])
    requires tokenizer.Available? ==> tokenizer.wordTokenize(Lowered(text)) == []
    ensures Skills(SkillKeywords, TokenSet(text, tokenizer, stopwords)) == []
    ensures forall i :: 0 <= i < |SkillKeywords| ==> Score(SkillKeywords[i].1, TokenSet(text, tokenizer, stopwords)) == 0
  {
    BlankTextHasNoTokens(text, tokenizer, stopwords);
    assert TokenSet(text, tokenizer, stopwords) == {};
    NoTokensFindNothing(SkillKeywords);
  }

  /** Texts that are equal once lower-cased yield the same skills: `Python`, `PYTHON` and `python` alike. */
  lemma SkillsIgnoreCase(text1: string, text2: string, tokenizer: WordTokenizer, stopwords: Option<set<string>>)
    requires Lower(text1) == Lower(text2)
    ensures Skills(SkillKeywords, TokenSet(Some(text1), tokenizer, stopwords))
         == Skills(SkillKeywords, TokenSet(Some(text2), tokenizer, stopwords))
  {
    TokenizeIgnoresCase(text1, text2, tokenizer, stopwords);
  }

  /** The single-word keyword `python` is a skill of every text that has the token `python`. */
  lemma PythonDetected(text: Option<string>, tokenizer: WordTokenizer, stopwords: Option<set<string>>)
    requires "python" in Tokenize(text, tokenizer, stopwords)
    ensures "python" in Skills(SkillKeywords, TokenSet(text, tokenizer, stopwords))
  {
    var tokens := TokenSet(text, tokenizer, stopwords);
    var kw := Join(["python"]);
    assert kw == "python" == SkillKeywords[0].1[0];
    SingleWordMatches(kw, tokens);
    MatchingKeywordIsSkill(SkillKeywords, tokens, 0, kw);
  }

  /** `Python`, `PYTHON` and `python` all yield the skill `python` under the whitespace fallback. */
  lemma PythonInAnyCase(text: string, stopwords: Option<set<string>>)
    requires text == "Python" || text == "PYTHON" || text == "python"
    requires "python" !in StopwordSet(stopwords)
    ensures "python" in Skills(SkillKeywords, TokenSet(Some(text), Unavailable, stopwords))
  {
    var words := ["python"];
    PythonLowered(text, words);
    TokenizeIgnoresCase(text, Join(words), Unavailable, stopwords);
    PythonToken(words, stopwords);
    PythonDetected(Some(text), Unavailable, stopwords);
  }

  /**
   * Each spelling lower-cases to `python`. Here, in `PythonToken` and in
   * `LeadGenerationMatches`, the phrase comes in through a parameter: with
   * a literal the solver evaluates `Split` and `Lower` on it and runs out of
   * resource.
   */
  lemma PythonLowered(text: string, words: seq<string>)
    requires text == "Python" || text == "PYTHON" || text == "python"
    requires words == ["python"]
    ensures Lower(text) == Join(words) == "python"
  {
  }

  /** The text `python` has the token `python` under the whitespace fallback, unless it is a stopword. */
  lemma PythonToken(words: seq<string>, stopwords: Option<set<string>>)
    requires words == ["python"]
    requires "python" !in StopwordSet(stopwords)
    ensures "python" in Tokenize(Some(Join(words)), Unavailable, stopwords)
  {
    assert IsLowerLetters(words[0]);
    TokensOfPhrase(words, stopwords);
    LowerLettersWord(words[0]);
  }

  /** The phrase `lead generation`, spelled as its words joined by a space, is the fourth `sales` keyword. */
  lemma LeadGenerationPhrase()
    ensures Join(["lead", "generation"]) == "lead generation" == SkillKeywords[3].1[3]
  {
  }

  /**
   * `lead generation` matches whenever both of its words are tokens. The
   * phrase comes in through `kw` rather than as a literal in the ensures:
   * with a literal there, the solver evaluates `Split(Lower(..))` on it and
   * runs out of resource.
   */
  lemma LeadGenerationMatches(kw: string, tokens: set<string>)
    requires kw == Join(["lead", "generation"])
    requires "lead" in tokens && "generation" in tokens
    ensures KeywordMatches(kw, tokens)
  {
    var words := ["lead", "generation"];
    LeadGenerationWords(words);
    PhraseOfLowerWordsMatches(words, tokens);
    assert forall k :: 0 <= k < |words| ==> words[k] in tokens;
  }

  /**
   * Both words of `lead generation` are non-empty and made of lower-case
   * letters. The words come in through a parameter for the same reason as
   * in `LeadGenerationMatches`.
   */
  lemma LeadGenerationWords(words: seq<string>)
    requires words == ["lead", "generation"]
    ensures forall k :: 0 <= k < |words| ==> words[k] != [] && IsLowerLetters(words[k])
  {
    assert IsLowerLetters(words[0]);
    assert IsLowerLetters(words[1]);
  }

  /**
   * `lead generation` is a skill of every text that has both tokens,
   * wherever they stand, for any table that lists it (`SkillKeywords`
   * does, as `LeadGenerationPhrase` shows).
   */
  lemma LeadGenerationDetected(taxonomy: Taxonomy, i: nat, j: nat,
                               text: Option<string>, tokenizer: WordTokenizer, stopwords: Option<set<string>>)
    requires i < |taxonomy| && j < |taxonomy[i].1| && taxonomy[i].1[j] == "lead generation"
    requires "lead" in Tokenize(text, tokenizer, stopwords) && "generation" in Tokenize(text, tokenizer, stopwords)
    ensures "lead generation" in Skills(taxonomy, TokenSet(text, tokenizer, stopwords))
  {
    var tokens := TokenSet(text, tokenizer, stopwords);
    var kw := Join(["lead", "generation"]);
    LeadGenerationMatches(kw, tokens);
    LeadGenerationPhrase();
    MatchingKeywordIsSkill(taxonomy, tokens, i, kw);
  }

  /**
   * A text made of lower-case words separated by spaces, with `lead` and
   * `generation` among them in either order and neither a stopword, yields
   * the skill `lead generation` under the whitespace fallback.
   */
  lemma LeadGenerationInPhrase(taxonomy: Taxonomy, i: nat, j: nat, words: seq<string>, stopwords: Option<set<string>>)
    requires i < |taxonomy| && j < |taxonomy[i].1| && taxonomy[i].1[j] == "lead generation"
    requires forall k :: 0 <= k < |words| ==> words[k] != [] && IsLowerLetters(words[k])
    requires "lead" in words && "generation" in words
    requires "lead" !in StopwordSet(stopwords) && "generation" !in StopwordSet(stopwords)
    ensures "lead generation" in Skills(taxonomy, TokenSet(Some(Join(words)), Unavailable, stopwords))
  {
    var text := Some(Join(words));
    assert "lead" in Tokenize(text, Unavailable, stopwords) && "generation" in Tokenize(text, Unavailable, stopwords) by {
      TokensOfPhrase(words, stopwords);
      LowerLettersWord("lead");
      LowerLettersWord("generation");
    }
    LeadGenerationDetected(taxonomy, i, j, text, Unavailable, stopwords);
  }

  /**
   * A token set in which `lead generation` is the only keyword of the table
   * that matches classifies as `sales`: that field scores 1 and every other
   * field scores 0.
   */
  lemma LeadGenerationAloneIsSales(tokens: set<string>)
    requires KeywordMatches(SkillKeywords[3].1[3], tokens)
    requires forall i, j :: 0 <= i < |SkillKeywords| && 0 <= j < |SkillKeywords[i].1| && (i != 3 || j != 3) ==>
      !KeywordMatches(SkillKeywords[i].1[j], tokens)
    ensures IsFirstBest(SkillKeywords, tokens, 3) && SkillKeywords[3].0 == "sales"
  {
    var sales := SkillKeywords[3].1;
    ScoreOfOneMatch(sales, 3, tokens);
    forall i | 0 <= i < |SkillKeywords| && i != 3
      ensures Score(SkillKeywords[i].1, tokens) == 0
    {
      var kws := SkillKeywords[i].1;
      ScorePositiveIff(kws, tokens);
    }
  }
}
