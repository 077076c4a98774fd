# Post-conversation analysis engine, modelled in Dafny

This project models the scoring engine of a post-conversation analysis
service. The engine takes a transcript of customer-support chat messages,
each tagged with the sender `"user"` or `"ai"`. It returns a ten-field
report, or the error `"empty conversation"` when neither sender appears.
The report holds:

- five scores: clarity, relevance, accuracy, completeness and empathy;
- the user's sentiment;
- whether the conversation was resolved and whether it needs escalation;
- the number of fallback replies;
- an overall score.

The modules follow the structure of the engine:

- `Text` (`text.dfy`): `normalize_text`. It lower-cases ASCII, then expands the
  sixteen contractions by literal substring replacement, in dictionary order.
  Then it collapses whitespace runs to single blanks and strips both ends.
  `NormalizeText` is the replacement loop, proved equal to the
  specification function `NormalizeStr`. A non-string input gives `""`
  (`NormalizeValue`).
- `Numeric` (`numeric.dfy`): absolute value, maximum, mean, and
  `round(x, 2)`. Rounding uses exact reals and breaks ties to even.
- `Lexicon` (`lexicon.dfy`): the foreign capabilities as an `Oracles` value,
  plus `regex_any_match`, `lemmatized_tokens` and `contains_lemma_any`.
  Escaped phrases become `Literal` patterns, which match as substrings.
- `Patterns` (`patterns.dfy`): the pattern and phrase lists, verbatim and in
  source order.
- `Conversation` (`conversation.dfy`): the message list, the split by
  sender, and the relevance pairing. Each user message is paired with the
  first later AI message, and only when that message is non-empty.
- `Metrics` (`metrics.dfy`): the tests applied to each reply, the counting
  loops, the score formulas, clarity, resolution and user sentiment.
- `Analysis` (`analysis.dfy`): `analyze_conversation`.
  `AnalyzeConversation` calls the method for each section, so it runs the
  same loops as the source. It is proved equal to the specification
  function `Analyze`, which is what the report-level lemmas are about.

Accuracy, completeness and empathy are whole hundredths: `50 + 10c` capped
at 100, `60 + 10c - 8q` clamped to [0, 100], and `40 + 12h` capped at 100.
The report holds them as reals.

## Model

| member | source | states |
|---|---|---|
| Text.NormalizeText | post_conversation_analysis/analysis/utils.py:33-43 | the loop that lower-cases, rebinds the text once per contraction in table order, collapses whitespace and strips computes the normalised text `NormalizeStr` |
| Text.NormalizeValue | post_conversation_analysis/analysis/utils.py:33-35 | a non-string input normalises to the empty string; a string input to its normalised text |
| Text.NormalizedShape | post_conversation_analysis/analysis/utils.py:36-43 | normalised text has no upper-case letter, no whitespace other than single blanks, and none at either end; it holds the same non-space characters as the lower-cased, expanded text |
| Text.NormalizeFixesCanonical | post_conversation_analysis/analysis/utils.py:33-43 | text that is lower-case, has no apostrophe, is trimmed and is singly spaced with blanks is left unchanged |
| Text.RenormalizeWithoutApostrophe | post_conversation_analysis/analysis/utils.py:86-87 | normalising already-normalised text a second time changes nothing when the first pass left no apostrophe |
| Text.StripNormalized | post_conversation_analysis/analysis/utils.py:174 | stripping normalised text again changes nothing |
| Text.ContractionsWellFormed | post_conversation_analysis/analysis/utils.py:24-29 | every contraction key holds an apostrophe and every expansion is lower-case |
| Text.ExpandWithoutApostrophe | post_conversation_analysis/analysis/utils.py:38-39 | text without an apostrophe is unchanged by the contraction replacements |
| Text.ExpandKeepsLowercase | post_conversation_analysis/analysis/utils.py:36-39 | the replacements keep lower-case text lower-case |
| Text.ReplaceAllAbsent | post_conversation_analysis/analysis/utils.py:39 | replacing a key that does not occur changes nothing |
| Text.ReplaceAllLowercase | post_conversation_analysis/analysis/utils.py:39 | replacing with a lower-case value keeps lower-case text lower-case |
| Text.LowerFacts | post_conversation_analysis/analysis/utils.py:36 | lower-casing keeps the length, maps each character to its lower-case form, leaves no upper-case letter, and is the identity on lower-case text |
| Text.ContainsIff | post_conversation_analysis/analysis/utils.py:154 | the substring test holds exactly when the phrase occurs at some position |
| Text.TrimStart | post_conversation_analysis/analysis/utils.py:41 | left-stripping never lengthens the text, and it shortens text that starts with whitespace |
| Text.TrimStartFacts | post_conversation_analysis/analysis/utils.py:41 | left-stripping keeps a suffix that starts with a non-space and drops only whitespace |
| Text.TrimEnd | post_conversation_analysis/analysis/utils.py:41 | right-stripping never lengthens the text |
| Text.TrimEndFacts | post_conversation_analysis/analysis/utils.py:41 | right-stripping keeps a prefix that ends with a non-space and drops only whitespace |
| Text.StripFacts | post_conversation_analysis/analysis/utils.py:41 | stripping leaves a trimmed slice of the text with the same non-space characters |
| Text.CollapseFacts | post_conversation_analysis/analysis/utils.py:41 | after whitespace runs are replaced, the only whitespace left is single blanks, and the non-space characters are unchanged |
| Text.CollapseRun | post_conversation_analysis/analysis/utils.py:41 | one whitespace run between a text ending in a non-space and a text starting with one becomes exactly one blank, with each side collapsed on its own |
| Text.TrimStartRun | post_conversation_analysis/analysis/utils.py:41 | left-stripping a whitespace run in front of a text that starts with a non-space yields exactly that text |
| Text.TrimStartAppend | post_conversation_analysis/analysis/utils.py:41 | left-stripping a text that ends in a non-space keeps that character and is unaffected by any text that follows |
| Text.CollapseFixesSpaced | post_conversation_analysis/analysis/utils.py:41 | text that is already singly spaced with blanks is unchanged by the whitespace substitution |
| Numeric.Abs | post_conversation_analysis/analysis/utils.py:114 | the absolute value is non-negative and equals the value or its negation |
| Numeric.Max | post_conversation_analysis/analysis/utils.py:120 | the maximum bounds both arguments and is one of them |
| Numeric.MeanBounds | post_conversation_analysis/analysis/utils.py:122 | the mean of values in a range lies in that range |
| Numeric.Round2 | post_conversation_analysis/analysis/utils.py:122 | two-decimal rounding gives a whole number of hundredths within half a hundredth of its input |
| Numeric.Round2Exact | post_conversation_analysis/analysis/utils.py:162 | a whole number of hundredths rounds to itself |
| Numeric.Round2Monotone | post_conversation_analysis/analysis/utils.py:122 | rounding preserves order |
| Numeric.Round2Within | post_conversation_analysis/analysis/utils.py:122 | rounding keeps a value inside a range whose ends are whole hundredths |
| Numeric.RoundedMeanWithin | post_conversation_analysis/analysis/utils.py:122 | the rounded mean of values in a range around zero stays in it, and is 0.0 for an empty list |
| Lexicon.RegexAnyMatch | post_conversation_analysis/analysis/utils.py:86-91 | the scan returns true exactly when some pattern matches the re-normalised text |
| Lexicon.AnyContainsIff | post_conversation_analysis/analysis/utils.py:154 | the phrase scan is true exactly when some phrase is a substring of the text |
| Lexicon.EscapedMatchIsSubstring | post_conversation_analysis/analysis/utils.py:185 | escaped phrases match exactly where the phrase occurs literally in the normalised text |
| Lexicon.ContainsLemmaAnyIff | post_conversation_analysis/analysis/utils.py:46-54 | a target lemma is found exactly when it equals the lemma of some token of the normalised text |
| Lexicon.ContainsLemmaAnyAppend | post_conversation_analysis/analysis/utils.py:52-54 | searching for the union of two lemma lists is the disjunction of searching for each |
| Patterns.DuplicateResolutionHarmless | post_conversation_analysis/analysis/utils.py:76-80 | "cancelled" is listed twice, and dropping the second copy leaves every match unchanged |
| Conversation.TextsAppend | post_conversation_analysis/analysis/utils.py:102-103 | splitting by sender distributes over concatenation, so it keeps message order |
| Conversation.TextsLength | post_conversation_analysis/analysis/utils.py:102-103 | the split keeps one text per message from that sender |
| Conversation.TextsEmptyIff | post_conversation_analysis/analysis/utils.py:102-105 | the split is empty exactly when no message is from that sender |
| Conversation.NextAiFrom | post_conversation_analysis/analysis/utils.py:132-136 | the forward scan finds the first AI message at or after the start, or reports that none exists |
| Conversation.RelevanceSamples | post_conversation_analysis/analysis/utils.py:126-141 | the nested loop collects one similarity for each user message that has a non-empty next AI reply, in transcript order |
| Conversation.RelevanceScore | post_conversation_analysis/analysis/utils.py:142 | relevance is the rounded mean of the samples, or 0.0 without any |
| Conversation.SamplesAtMostUsers | post_conversation_analysis/analysis/utils.py:128-141 | there are at most as many samples as user messages |
| Conversation.NoAiNoSamples | post_conversation_analysis/analysis/utils.py:132-137 | without an AI message no sample is taken |
| Conversation.RelevanceWithin | post_conversation_analysis/analysis/utils.py:138-142 | with similarities in [-1, 1], relevance lies in [-1, 1] |
| Conversation.RelevanceCanBeNegative | post_conversation_analysis/analysis/utils.py:140-142 | relevance is not clamped: a similarity of -0.5 gives relevance -0.5 |
| Conversation.PairsWithFollowingReply | post_conversation_analysis/analysis/utils.py:128-141 | a user message is paired with the AI reply after it, never with the one before |
| Metrics.Tally | post_conversation_analysis/analysis/utils.py:146-160 | a signal's count is at most the number of replies |
| Metrics.TallyZeroIff | post_conversation_analysis/analysis/utils.py:146-160 | the count is zero exactly when no reply passes the test |
| Metrics.TallyFullIff | post_conversation_analysis/analysis/utils.py:146-160 | the count equals the number of replies exactly when every reply passes |
| Metrics.TallyAppend | post_conversation_analysis/analysis/utils.py:146-160 | counts add up over consecutive stretches of replies |
| Metrics.TallySwap | post_conversation_analysis/analysis/utils.py:146-160 | the count does not depend on which of two stretches comes first |
| Metrics.QuestionMarkIsClarification | post_conversation_analysis/analysis/utils.py:174 | a question mark anywhere in the raw reply makes it a clarification |
| Metrics.KeywordIsFactual | post_conversation_analysis/analysis/utils.py:154 | a factual keyword anywhere in the normalised reply, even inside a word, makes it factual |
| Metrics.EmpathyIsPhraseOrLemma | post_conversation_analysis/analysis/utils.py:185-190 | a reply is empathetic exactly when an empathy phrase occurs in its twice-normalised text or an empathy lemma occurs among its tokens; no regular expression is involved |
| Metrics.AccuracyHundredths | post_conversation_analysis/analysis/utils.py:162 | accuracy lies in [0.5, 1] and is full from five factual replies on |
| Metrics.EmpathyHundredths | post_conversation_analysis/analysis/utils.py:191 | empathy lies in [0.4, 1] and is full from five empathetic replies on |
| Metrics.CompletenessHundredths | post_conversation_analysis/analysis/utils.py:177-178 | completeness is clamped to [0, 1] |
| Metrics.AccuracyMonotone | post_conversation_analysis/analysis/utils.py:162 | more factual replies never lower accuracy; below the cap each one adds 0.1 |
| Metrics.EmpathyMonotone | post_conversation_analysis/analysis/utils.py:191 | more empathetic replies never lower empathy |
| Metrics.CompletenessMonotone | post_conversation_analysis/analysis/utils.py:177-178 | closing phrases never lower completeness, clarifications never raise it, and the baseline is 0.6 |
| Metrics.CompletenessZeroIff | post_conversation_analysis/analysis/utils.py:177-178 | completeness is 0 exactly when 8 times the clarifications reach 60 plus 10 times the closing phrases |
| Metrics.ClarityOf | post_conversation_analysis/analysis/utils.py:112-120 | a reply's clarity lies in [0, 1] |
| Metrics.ClarityExtremes | post_conversation_analysis/analysis/utils.py:114-120 | an objective reply of more than three tokens scores 1; a reply of at most three tokens scores at most 0.85 |
| Metrics.ClarityWithin | post_conversation_analysis/analysis/utils.py:122 | the clarity score lies in [0, 1] and is 0.0 without AI replies |
| Metrics.ClarityScore | post_conversation_analysis/analysis/utils.py:110-122 | the clarity loop computes the rounded mean of the per-reply clarities |
| Metrics.AccuracyScore | post_conversation_analysis/analysis/utils.py:146-162 | the loop counts each reply that passes any factual test once, whichever test passes first, and applies the accuracy formula |
| Metrics.CompletenessScore | post_conversation_analysis/analysis/utils.py:166-178 | the loop counts closing phrases and clarifications independently and applies the completeness formula |
| Metrics.EmpathyScore | post_conversation_analysis/analysis/utils.py:182-191 | the loop counts replies with an empathy phrase or, failing that, an empathy lemma, and applies the empathy formula |
| Metrics.CountFallbacks | post_conversation_analysis/analysis/utils.py:207-221 | the loop counts each reply, once, that passes any of the three fallback tests |
| Metrics.IsResolved | post_conversation_analysis/analysis/utils.py:224-233 | the scan is true exactly when some reply matches a resolution pattern or reports an order on its way |
| Metrics.ResolvedAppend | post_conversation_analysis/analysis/utils.py:224-233 | a conversation is resolved exactly when one of two stretches of it is |
| Metrics.Classify | post_conversation_analysis/analysis/utils.py:199-204 | positive exactly above 0.2, negative exactly below -0.2, neutral otherwise |
| Metrics.UserSentiment | post_conversation_analysis/analysis/utils.py:194-204 | the loop classifies the mean polarity of the normalised user messages, taking 0.0 when there are none |
| Metrics.MildIsNeutral | post_conversation_analysis/analysis/utils.py:198-204 | when every user polarity is within 0.2 of zero, or there are no user messages, the sentiment is neutral |
| Metrics.UniformlyNegative | post_conversation_analysis/analysis/utils.py:198-202 | when every user polarity is below a threshold under -0.2, the sentiment is negative |
| Analysis.AnalyzeConversation | post_conversation_analysis/analysis/utils.py:95-256 | the section-by-section computation returns the report `Analyze` defines |
| Analysis.ErrorIff | post_conversation_analysis/analysis/utils.py:102-106 | the result is the "empty conversation" error exactly when no message is from the user or the AI |
| Analysis.ReportRanges | post_conversation_analysis/analysis/utils.py:245-256 | a transcript with a user or AI message yields a report in which clarity lies in [0, 1], accuracy in [0.5, 1], completeness in [0, 1] and empathy in [0.4, 1], and the fallback count is at most the number of AI replies |
| Analysis.EscalationRules | post_conversation_analysis/analysis/utils.py:236-239 | in every report, two or more fallbacks always escalate; a resolved conversation escalates only on fallbacks; otherwise escalation follows a negative user |
| Analysis.OverallBounds | post_conversation_analysis/analysis/utils.py:242-243 | the rounded mean of five scores in the report's ranges lies in [-0.02, 1] |
| Analysis.OverallWithin | post_conversation_analysis/analysis/utils.py:242-243 | with similarities in [-1, 1], a transcript with a user or AI message yields a report whose overall score lies in [-0.02, 1] |
| Analysis.NoReplyBaseline | post_conversation_analysis/analysis/utils.py:108-243 | user messages without any AI reply give clarity 0, relevance 0, accuracy 0.5, completeness 0.6, empathy 0.4, no resolution, no fallbacks and overall 0.3; escalation happens exactly when the user is negative |
| Analysis.NoUserNeutral | post_conversation_analysis/analysis/utils.py:126-204 | AI messages without any user message yield a report with neutral sentiment and relevance 0.0 |

## Left out

- Downloading the tokenizer and lexicon data (`utils.py:12-18`) and loading the
  lemmatizer and embedding model (`utils.py:20-21`) are I/O, so they are not
  modelled.
- Several foreign operations enter as uninterpreted total functions of
  `Oracles`:
  - the regular-expression engine (`re.search` on a pattern's source text);
  - `word_tokenize`;
  - WordNet lemmatisation;
  - TextBlob polarity and subjectivity;
  - embedding cosine similarity.

  Only bounds stated as lemma preconditions constrain them.
- Floating point is modelled as exact reals. The hundredth-valued scores are
  exact here. In Python, `0.1 * c` and `0.08 * q` carry binary rounding
  error, but `round(·, 2)` removes it, because every value involved is
  far from a rounding tie.
- Numeric.Round2: rounds the exact real half to even. Python's `round` does
  the same on the binary value of the float, and that value can fall on the
  other side of a decimal tie.
- Only ASCII is handled. `str.lower` and `\s` on characters outside ASCII
  are not modelled.
- The `string.punctuation` translation table (`utils.py:30`) is built but
  never used.
- A message dictionary lacking `sender` or `message` raises a `KeyError`. The
  model's `Message` always has both fields.
- The Django views, models and URL routing are not part of this model, and
  neither is the periodic job that persists reports.
- The report's scores read as values in [0, 1], but the code does not clamp
  relevance, so a negative cosine similarity gives a negative relevance and
  an overall score down to -0.02. The model follows the code
  (`Conversation.RelevanceCanBeNegative`, `Analysis.OverallWithin`).
- Several fallback patterns contain `can't`, `i'm` or `don't`, and the empathy
  phrases include `i'm sorry`. Normalisation expands these contractions
  before the search, so those patterns see expanded text. The model keeps
  them verbatim and does not prove that they can never match.
