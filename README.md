# Resume keyword classifier, modelled in Dafny

This project models the keyword classifier of the resume analyzer
(`analyzer.py`). The analyzer lower-cases a resume's text, splits it into
tokens, and keeps the tokens made only of letters that are not stopwords.
It then scores the text against a fixed table of ten job fields, each
with a list of keywords. It has two entry points:

- `extract_skills` returns every matched keyword once, in the order it is
  first met when walking the table field by field.
- `detect_job_field` returns the field that matches the most keywords.
  When fields tie, the earlier field in the table wins. When nothing
  matches, it returns `General`.

A keyword of several words matches when each of its words is a token,
wherever the words stand in the text. A keyword of one word matches when
it is itself a token.

Modules, one file each:

- `Wrappers`: `Option`, for a text that may be `None`.
- `Text`: the parts of Python's `str` the analyzer uses, on ASCII:
  `isspace`, `isalpha`, `lower` and `split()`. `Join` is the inverse of
  `Split` on phrases.
- `Tokenizer`: `_tokenize`. NLTK's `word_tokenize` is a parameter
  (`Available(f)`). `Unavailable` selects the whitespace fallback. The
  stopword set is a parameter too, where `None` means the lookup failed and
  no stopword is removed.
- `Taxonomy`: the `skill_keywords` table as an ordered sequence of
  (field, keywords) pairs. Python dicts keep insertion order, and the
  tie-break depends on that order.
- `Matcher`: the match test, specification functions (`Matched`, `Score`,
  `Detected`, `Dedup`, `Skills`, `IsFirstBest`) and the two scans. The
  scans are methods over any table and token set, with the source's loops
  and accumulators (`detected`, `seen`, `uniq`, `score`, `best_score`,
  `best_field`).
- `Analyzer`: the two entry points on text over the fixed table, and facts
  about particular keywords and texts.

As written, `scikit-learn`, `b2b` and `b2c` are in the table but can never
be detected. Every token must pass `isalpha`, and each of these keywords
holds a character that is neither a letter nor whitespace
(`Analyzer.UndetectableKeywords`).

## Model

| member | source | states |
|---|---|---|
| Text.IsSpace | analyzer.py:80 | the whitespace characters on which `split()` cuts, on ASCII (a definition; no contract) |
| Text.IsAlpha | analyzer.py:88 | `str.isalpha()` on ASCII: non-empty and made only of letters (a definition; no contract) |
| Text.Lower | analyzer.py:73 | `str.lower()` keeps the length and leaves no upper-case letter; each character goes through `LowerChar` |
| Text.LowerKeepsClasses | analyzer.py:73 | lower-casing keeps every letter a letter and every whitespace character whitespace, position by position |
| Text.LowerChar | analyzer.py:73 | lower-casing turns each of `A`..`Z` into its own lower-case letter (32 code points on), changes nothing else, leaves no upper-case letter, and keeps letters letters and whitespace whitespace |
| Text.Word | analyzer.py:80 | the result is the longest prefix of the string that holds no whitespace |
| Text.Split | analyzer.py:80 | `split()` yields only non-empty, whitespace-free parts |
| Text.SplitKeepsCharacters | analyzer.py:80 | every character of every part of `split()` is a character of the string |
| Text.SplitCovers | analyzer.py:98 | every non-whitespace character of a string lands in one of its parts |
| Text.SplitBlank | analyzer.py:80 | a whitespace-only string splits into no parts |
| Text.SplitJoin | analyzer.py:98 | splitting the phrase made by joining words with single spaces gives back those words |
| Text.LowerJoin | analyzer.py:98 | lower-casing a phrase is joining its lower-cased words |
| Tokenizer.Lowered | analyzer.py:73 | `(text or "").lower()` is lower-case, empty for `None`, and as long as the text |
| Tokenizer.RawTokens | analyzer.py:74-80 | the tokens of the lower-cased text before filtering: `word_tokenize` when it is available, otherwise `split()`, whose tokens are non-empty and hold no whitespace |
| Tokenizer.StopwordSet | analyzer.py:82-86 | the English stopwords when they can be loaded, otherwise the empty set (a definition; no contract) |
| Tokenizer.Filter | analyzer.py:88 | a token is kept exactly when it is alphabetic and not a stopword; nothing is added |
| Tokenizer.FilterIdempotent | analyzer.py:88 | filtering a second time changes nothing |
| Tokenizer.FilterAppend | analyzer.py:88 | filtering a concatenation filters each part |
| Tokenizer.FilterKeepsAll | analyzer.py:88 | a list of alphabetic non-stopwords passes the filter whole |
| Tokenizer.Tokenize | analyzer.py:71-88 | a string is a token exactly when it is a raw token that is alphabetic and not a stopword: nothing is added, and every such raw token is kept |
| Tokenizer.TokenSet | analyzer.py:93 | the token set holds exactly the tokens `_tokenize` returns |
| Tokenizer.TokensAreLowercase | analyzer.py:73-88 | every token is lower-case; proved for the whitespace fallback, and for `word_tokenize` assumed: it returns lower-case tokens for lower-case text (it may still rewrite `"` as two backticks or two apostrophes) |
| Tokenizer.BlankTextHasNoTokens | analyzer.py:73-80 | `None`, empty or whitespace-only text gives no tokens; for `word_tokenize`, provided it yields none |
| Tokenizer.TokensOfPhrase | analyzer.py:73-88 | with the whitespace fallback, lower-case words joined by spaces tokenize into those words minus the stopwords; with no stopword list, into exactly those words |
| Tokenizer.TokenizeIgnoresCase | analyzer.py:73 | texts that are equal once lower-cased give the same tokens |
| Taxonomy.SkillKeywords | analyzer.py:51-68 | the ten fields and their keywords, in insertion order (a definition; no contract) |
| Taxonomy.FieldNames | analyzer.py:51-68 | the field names of a table, one per field, in order |
| Taxonomy.SkillKeywordsFields | analyzer.py:51-68 | the table has ten fields, in this order, with distinct names, none of them `General` |
| Matcher.KeywordMatches | analyzer.py:98-104 | the match test: a keyword of several words needs each lower-cased word among the tokens, one of a single word needs its lower-cased self (a definition; its meaning is proved by `KeywordMatchesWords` and `SingleWordMatches`) |
| Matcher.KeywordMatchesWords | analyzer.py:98-104 | a phrase of words matches exactly when every lower-cased word is a token, in any order |
| Matcher.SingleWordMatches | analyzer.py:102-104 | a keyword of lower-case letters matches exactly when it is a token |
| Matcher.NonLetterKeywordNeverMatches | analyzer.py:98-104 | a keyword with a character that is neither a letter nor whitespace never matches alphabetic tokens |
| Matcher.Matched | analyzer.py:96-104 | one field's share of `detected`: no longer than the field's keyword list and drawn from it |
| Matcher.MatchedMembers | analyzer.py:96-104 | one field's share of `detected` holds exactly that field's matching keywords |
| Matcher.Score | analyzer.py:121-129 | a field's score is at most its number of keywords |
| Matcher.ScoreIsMatchedCount | analyzer.py:121-129 | a field's score equals the number of keywords the skills scan appends for that field |
| Matcher.ScorePositiveIff | analyzer.py:121-129 | a field scores above zero exactly when one of its keywords matches |
| Matcher.ScoreOfOneMatch | analyzer.py:121-129 | a field with exactly one matching keyword position scores 1 |
| Matcher.Detected | analyzer.py:95-104 | every entry of `detected` is a keyword of some field |
| Matcher.DetectedMembers | analyzer.py:95-104 | `detected` holds exactly the keywords of any field that match |
| Matcher.FirstIndex | analyzer.py:108-111 | the first position of an element in a list |
| Matcher.Dedup | analyzer.py:106-111 | de-duplication returns no duplicates and loses no element |
| Matcher.DedupOrder | analyzer.py:106-111 | de-duplication keeps the elements in order of first occurrence |
| Matcher.Skills | analyzer.py:91-112 | the skills list has no duplicates |
| Matcher.SkillsMembers | analyzer.py:95-111 | the skills are exactly the keywords, of any field, that match |
| Matcher.FirstBestUnique | analyzer.py:130-132 | at most one field is the first one of highest positive score |
| Matcher.NoScoreIffNoSkills | analyzer.py:95-133 | no field scores exactly when the skills list is empty |
| Matcher.NoTokensFindNothing | analyzer.py:95-133 | with no tokens, no skill is found and every field scores 0 |
| Matcher.AppendMatches | analyzer.py:96-104 | the inner loop appends to `detected` exactly the field's matching keywords, in list order |
| Matcher.DetectScan | analyzer.py:94-104 | the nested loops leave in `detected` the matching keywords field by field (`Detected`) |
| Matcher.SeenScan | analyzer.py:106-111 | the `seen`/`uniq` loop computes `Dedup` of `detected` |
| Matcher.ExtractSkillsFromTokens | analyzer.py:93-112 | the nested scan and the `seen`/`uniq` loop return the matching keywords, no duplicates, in order of first appearance |
| Matcher.FieldScore | analyzer.py:121-129 | the inner loop's `score` is the field's `Score` |
| Matcher.LeadingStep | analyzer.py:130-132 | one step of the scan keeps the leader the first field of highest positive score: a strictly higher score takes the lead, a tie does not |
| Matcher.DetectJobFieldFromTokens | analyzer.py:117-133 | the scoring scan returns `General` when every score is 0; otherwise the field that scores above 0, that no field outscores, and that every earlier field scores strictly below |
| Analyzer.ExtractSkills | analyzer.py:91-112 | `extract_skills(text)`: matching keywords of the table, no duplicates, first-appearance order, never `scikit-learn`, `b2b` or `b2c` |
| Analyzer.DetectJobField | analyzer.py:115-133 | `detect_job_field(text)`: `General` or a field name; `General` exactly when `extract_skills` finds nothing; otherwise the first field of highest score |
| Analyzer.NonLetterKeywordNeverDetected | analyzer.py:88-112 | a keyword holding a non-letter, non-space character is never a skill of any text |
| Analyzer.UndetectableKeywordsListed | analyzer.py:51-61 | `scikit-learn` is a `data science` keyword; `b2b` and `b2c` are `sales` keywords |
| Analyzer.UndetectableKeywords | analyzer.py:88-112 | `scikit-learn`, `b2b` and `b2c` are never among the skills of any text |
| Analyzer.BlankTextFindsNothing | analyzer.py:118-119 | `None`, empty or whitespace-only text finds no skill, and every field scores 0, so the field is `General` |
| Analyzer.SkillsIgnoreCase | analyzer.py:73-112 | texts equal once lower-cased yield the same skills |
| Analyzer.PythonInAnyCase | analyzer.py:73-111 | under the whitespace fallback, the texts `Python`, `PYTHON` and `python` each yield the skill `python`, unless `python` is a stopword |
| Analyzer.PythonLowered | analyzer.py:73 | `Python`, `PYTHON` and `python` all lower-case to `python` |
| Analyzer.PythonToken | analyzer.py:73-88 | the text `python` has the token `python` under the whitespace fallback, unless it is a stopword |
| Analyzer.PythonDetected | analyzer.py:102-111 | `python` is a skill of every text that has the token `python` |
| Analyzer.LeadGenerationPhrase | analyzer.py:61 | the `sales` keyword `lead generation` is the words `lead` and `generation` joined by a space |
| Analyzer.LeadGenerationMatches | analyzer.py:98-101 | `lead generation` matches whenever both of its words are tokens |
| Analyzer.LeadGenerationDetected | analyzer.py:95-111 | `lead generation` is a skill of any table that lists it, `sales` included, whenever both of its words are tokens, wherever they stand in the text |
| Analyzer.LeadGenerationInPhrase | analyzer.py:71-111 | under the whitespace fallback, a text of lower-case words holding `lead` and `generation` in either order, neither of them a stopword, yields the skill `lead generation` of any table that lists it |
| Analyzer.LeadGenerationAloneIsSales | analyzer.py:115-133 | when `lead generation` is the only keyword of the table that matches, `sales` scores 1, every other field 0, and `sales` is the first field of highest score |
| Matcher.PhraseOfLowerWordsMatches | analyzer.py:98-101 | a phrase of lower-case words matches exactly when each of its words is a token |
| Matcher.MatchingKeywordIsSkill | analyzer.py:95-111 | a keyword of a field that matches is a skill |

## Left out

- `extract_text_from_pdf` (analyzer.py:39-48): file I/O through PyMuPDF, with every exception turned into `""`. The model starts from the text.
- `_ensure_nltk_resources` (analyzer.py:13-36): resource lookup and downloads with side effects on NLTK's local cache. Its outcome is the `WordTokenizer` and stopword parameters.
- NLTK's `word_tokenize` and the English stopword list are foreign code. Both are parameters. Facts that depend on `word_tokenize` state what they assume of it in a `requires`.
- Unicode: `isalpha`, `lower` and `split()` are modelled on ASCII only. A non-ASCII letter such as `é` is not a letter in the model, so a token holding one is dropped, where Python would keep it. Non-ASCII whitespace does not separate words in the model.
- Concrete classification of sample texts against the whole table is not proved, for example that `python pandas numpy` gives `data science`. The argmax contract of `Analyzer.DetectJobField` covers every text; computing all ten scores for a literal text is left out. The facts about single keywords (`python`, `lead generation`) are stated for every text or token set that has the needed tokens, and `Analyzer.LeadGenerationAloneIsSales` gives the field for a token set in which only `lead generation` matches.
