/** The per-reply signals and the score formulas of the analysis: each AI
    reply is normalised and tested for factual content, closure phrases,
    clarifying questions, empathy, fallback wording and resolution; the
    counts feed capped linear formulas kept in whole hundredths. */
module Metrics {
  import opened Text
  import opened Lexicon
  import opened Patterns
  import opened Numeric

  // ---------------------------------------------------------------------
  // Per-reply tests. Each starts from `txt := normalize_text(msg)`.
  // ---------------------------------------------------------------------

  /** The accuracy test: a run of three or more digits, a factual keyword as
      a substring, or a month abbreviation as a word. */
  predicate IsFactual(o: Oracles, msg: string) {
    var txt := NormalizeStr(msg);
    o.search(DigitRunRegex, txt) || AnyContains(txt, FactualKeywords) || o.search(MonthRegex, txt)
  }

  /** The completeness test for a closing phrase. */
  predicate IsClosure(msg: string) {
    AnyContains(NormalizeStr(msg), ClosurePhrases)
  }

  /** The completeness test for a clarifying follow-up: a question mark in the
      raw reply, or a stripped normalised reply that opens with a request. */
  predicate IsClarification(msg: string) {
    var t := Strip(NormalizeStr(msg));
    Contains(msg, "?") || StartsWith(t, "can you") || StartsWith(t, "could you") || StartsWith(t, "please")
  }

  /** The empathy test: an escaped empathy phrase, or else an empathy lemma. */
  predicate IsEmpathetic(o: Oracles, msg: string) {
    var txt := NormalizeStr(msg);
    AnyMatch(o, txt, EmpathyPatterns) || ContainsLemmaAny(o, txt, EmpathyLemmas)
  }

  /** The fallback test: a fallback pattern; or a negation lemma together with
      a capability lemma; or an inability verb followed later by a service
      verb. */
  predicate IsFallback(o: Oracles, msg: string) {
    var txt := NormalizeStr(msg);
    AnyMatch(o, txt, FallbackPatterns)
    || (ContainsLemmaAny(o, txt, NegationLemmas) && ContainsLemmaAny(o, txt, CapabilityLemmas))
    || o.search(InabilityRegex, txt)
  }

  /** The resolution test: a resolution pattern, or an order followed later by
      a shipping phrase. */
  predicate Resolves(o: Oracles, msg: string) {
    var txt := NormalizeStr(msg);
    AnyMatch(o, txt, ResolutionPatterns) || o.search(OrderShippedRegex, txt)
  }

  /** The counted per-reply signals. */
  datatype Signal = Factual | Closure | Clarification | Empathetic | Fallback

  predicate Fires(o: Oracles, s: Signal, msg: string) {
    match s
    case Factual => IsFactual(o, msg)
    case Closure => IsClosure(msg)
    case Clarification => IsClarification(msg)
    case Empathetic => IsEmpathetic(o, msg)
    case Fallback => IsFallback(o, msg)
  }

  /** The number of replies on which the signal fires. */
  function Tally(o: Oracles, s: Signal, msgs: seq<string>): (n: nat)
    ensures n <= |msgs|
  {
    if msgs == [] then 0
    else Tally(o, s, msgs[..|msgs| - 1]) + (if Fires(o, s, msgs[|msgs| - 1]) then 1 else 0)
  }

  /** The tally is zero exactly when the signal fires on no reply. */
  lemma {:induction false} TallyZeroIff(o: Oracles, s: Signal, msgs: seq<string>)
    ensures Tally(o, s, msgs) == 0 <==> forall i :: 0 <= i < |msgs| ==> !Fires(o, s, msgs[i])
  {
    if msgs != [] {
      var n := |msgs| - 1;
      TallyZeroIff(o, s, msgs[..n]);
      assert forall i :: 0 <= i < n ==> msgs[..n][i] == msgs[i];
    }
  }

  /** The tally equals the number of replies when the signal fires on all. */
  lemma {:induction false} TallyFullIff(o: Oracles, s: Signal, msgs: seq<string>)
    ensures Tally(o, s, msgs) == |msgs| <==> forall i :: 0 <= i < |msgs| ==> Fires(o, s, msgs[i])
  {
    if msgs != [] {
      var n := |msgs| - 1;
      TallyFullIff(o, s, msgs[..n]);
      assert forall i :: 0 <= i < n ==> msgs[..n][i] == msgs[i];
    }
  }

  /** Tallies add up over consecutive stretches of the conversation. */
  lemma {:induction false} TallyAppend(o: Oracles, s: Signal, a: seq<string>, b: seq<string>)
    ensures Tally(o, s, a + b) == Tally(o, s, a) + Tally(o, s, b)
    decreases |b|
  {
    if b == [] {
      assert a + b == a;
    } else {
      var n := |b| - 1;
      assert (a + b)[..|a + b| - 1] == a + b[..n];
      TallyAppend(o, s, a, b[..n]);
    }
  }

  /** Hence the tally does not depend on which of two stretches comes first. */
  lemma TallySwap(o: Oracles, s: Signal, a: seq<string>, b: seq<string>)
    ensures Tally(o, s, a + b) == Tally(o, s, b + a)
  {
    TallyAppend(o, s, a, b);
    TallyAppend(o, s, b, a);
  }

  /** A reply with a question mark anywhere counts as a clarification. */
  lemma QuestionMarkIsClarification(msg: string, i: nat)
    requires i < |msg| && msg[i] == '?'
    ensures IsClarification(msg)
  {
    assert msg[i..i + 1] == "?";
    assert OccursAt(msg, "?", i);
    ContainsIff(msg, "?");
  }

  /** A factual keyword anywhere in the normalised reply, even inside another
      word, makes the reply factual whatever the regular expressions say. */
  lemma KeywordIsFactual(o: Oracles, msg: string, k: nat)
    requires k < |FactualKeywords| && Contains(NormalizeStr(msg), FactualKeywords[k])
    ensures IsFactual(o, msg)
  {
    AnyContainsIff(NormalizeStr(msg), FactualKeywords);
  }

  /** The escaped empathy phrases are substring tests: the empathy signal
      does not depend on the regular-expression engine. */
  lemma EmpathyIsPhraseOrLemma(o: Oracles, msg: string)
    ensures IsEmpathetic(o, msg) <==>
      AnyContains(NormalizeStr(NormalizeStr(msg)), EmpathyPhrases)
      || ContainsLemmaAny(o, NormalizeStr(msg), EmpathyLemmas)
  {
    EscapedMatchIsSubstring(o, NormalizeStr(msg), EmpathyPhrases);
  }

  // ---------------------------------------------------------------------
  // Score formulas, in whole hundredths.
  // ---------------------------------------------------------------------

  /** `round(min(1.0, 0.5 + 0.1 * factual_count), 2)`: at least one half, and
      full marks from five factual replies on. */
  function AccuracyHundredths(factual: nat): (h: int)
    ensures 50 <= h <= 100
    ensures h == 100 <==> factual >= 5
  {
    if 50 + 10 * factual < 100 then 50 + 10 * factual else 100
  }

  /** `round(min(1.0, 0.4 + 0.12 * empathy_hits), 2)`: at least 0.4, and full
      marks from five empathetic replies on. */
  function EmpathyHundredths(hits: nat): (h: int)
    ensures 40 <= h <= 100
    ensures h == 100 <==> hits >= 5
  {
    if 40 + 12 * hits < 100 then 40 + 12 * hits else 100
  }

  /** `round(max(0.0, min(1.0, 0.6 + 0.1 * complete - 0.08 * clarify)), 2)`. */
  function CompletenessHundredths(complete: nat, clarify: nat): (h: int)
    ensures 0 <= h <= 100
  {
    var raw := 60 + 10 * complete - 8 * clarify;
    if raw < 0 then 0 else if raw > 100 then 100 else raw
  }

  /** More factual replies never lower accuracy, and below the cap each one
      adds a tenth. */
  lemma AccuracyMonotone(a: nat, b: nat)
    requires a <= b
    ensures AccuracyHundredths(a) <= AccuracyHundredths(b)
    ensures b < 5 ==> AccuracyHundredths(b) - AccuracyHundredths(a) == 10 * (b - a)
  {
  }

  lemma EmpathyMonotone(a: nat, b: nat)
    requires a <= b
    ensures EmpathyHundredths(a) <= EmpathyHundredths(b)
  {
  }

  /** Closing phrases raise completeness and clarifying questions lower it;
      with neither it is 0.6. */
  lemma CompletenessMonotone(c1: nat, q1: nat, c2: nat, q2: nat)
    requires c1 <= c2 && q2 <= q1
    ensures CompletenessHundredths(c1, q1) <= CompletenessHundredths(c2, q2)
    ensures CompletenessHundredths(0, 0) == 60
  {
  }

  /** Completeness reaches zero exactly when clarifications outweigh closing
      phrases by the margin the weights give. */
  lemma CompletenessZeroIff(c: nat, q: nat)
    ensures CompletenessHundredths(c, q) == 0 <==> 8 * q >= 60 + 10 * c
  {
  }

  // ---------------------------------------------------------------------
  // Clarity.
  // ---------------------------------------------------------------------

  /** One reply's clarity: one less its absolute subjectivity, less 0.15 for a
      reply of at most three tokens, floored at zero. */
  function ClarityOf(o: Oracles, msg: string): (c: real)
    ensures 0.0 <= c <= 1.0
  {
    var txt := NormalizeStr(msg);
    var penalty := if |o.tokenize(txt)| <= 3 then 0.15 else 0.0;
    Max(0.0, 1.0 - Abs(o.subjectivity(txt)) - penalty)
  }

  /** An objective reply of more than three tokens is perfectly clear; a
      reply of at most three tokens never scores above 0.85. */
  lemma ClarityExtremes(o: Oracles, msg: string)
    ensures var txt := NormalizeStr(msg);
      o.subjectivity(txt) == 0.0 && |o.tokenize(txt)| > 3 ==> ClarityOf(o, msg) == 1.0
    ensures |o.tokenize(NormalizeStr(msg))| <= 3 ==> ClarityOf(o, msg) <= 0.85
  {
  }

  function ClarityValues(o: Oracles, msgs: seq<string>): seq<real> {
    if msgs == [] then [] else ClarityValues(o, msgs[..|msgs| - 1]) + [ClarityOf(o, msgs[|msgs| - 1])]
  }

  /** `clarity_score`: the rounded mean clarity of the AI replies, 0 without
      any. */
  function Clarity(o: Oracles, msgs: seq<string>): real {
    RoundedMean(ClarityValues(o, msgs))
  }

  lemma {:induction false} ClarityValuesWithin(o: Oracles, msgs: seq<string>)
    ensures |ClarityValues(o, msgs)| == |msgs|
    ensures Between(ClarityValues(o, msgs), 0.0, 1.0)
  {
    if msgs != [] {
      ClarityValuesWithin(o, msgs[..|msgs| - 1]);
    }
  }

  /** The clarity score lies in [0, 1], and is 0 without AI replies. */
  lemma ClarityWithin(o: Oracles, msgs: seq<string>)
    ensures 0.0 <= Clarity(o, msgs) <= 1.0
    ensures msgs == [] ==> Clarity(o, msgs) == 0.0
  {
    ClarityValuesWithin(o, msgs);
    RoundedMeanWithin(ClarityValues(o, msgs), 0, 100);
  }

  /** The clarity loop over the AI replies. */
  method ClarityScore(o: Oracles, msgs: seq<string>) returns (score: real)
    ensures score == Clarity(o, msgs)
  {
    var vals: seq<real> := [];
    for i := 0 to |msgs|
      invariant vals == ClarityValues(o, msgs[..i])
    {
      assert msgs[..i + 1][..i] == msgs[..i];
      var txt := NormalizeText(msgs[i]);
      var subjectivity := Abs(o.subjectivity(txt));
      var tokenCount := |o.tokenize(txt)|;
      var lengthPenalty := 0.0;
      if tokenCount <= 3 {
        lengthPenalty := 0.15;
      }
      vals := vals + [Max(0.0, 1.0 - subjectivity - lengthPenalty)];
    }
    assert msgs[..|msgs|] == msgs;
    score := RoundedMean(vals);
  }

  // ---------------------------------------------------------------------
  // The counting loops.
  // ---------------------------------------------------------------------

  /** The accuracy loop: each reply counts once, by the first test it passes. */
  method AccuracyScore(o: Oracles, msgs: seq<string>) returns (h: int)
    ensures h == AccuracyHundredths(Tally(o, Factual, msgs))
  {
    var factualCount := 0;
    for i := 0 to |msgs|
      invariant factualCount == Tally(o, Factual, msgs[..i])
    {
      assert msgs[..i + 1][..i] == msgs[..i];
      var txt := NormalizeText(msgs[i]);
      if o.search(DigitRunRegex, txt) {
        factualCount := factualCount + 1;
        continue;
      }
      if AnyContains(txt, FactualKeywords) {
        factualCount := factualCount + 1;
        continue;
      }
      if o.search(MonthRegex, txt) {
        factualCount := factualCount + 1;
        continue;
      }
    }
    assert msgs[..|msgs|] == msgs;
    h := AccuracyHundredths(factualCount);
  }

  /** The completeness loop: closing phrases and clarifications are counted
      independently, so one reply may count for both. */
  method CompletenessScore(o: Oracles, msgs: seq<string>) returns (h: int)
    ensures h == CompletenessHundredths(Tally(o, Closure, msgs), Tally(o, Clarification, msgs))
  {
    var completeCount := 0;
    var clarificationCount := 0;
    for i := 0 to |msgs|
      invariant completeCount == Tally(o, Closure, msgs[..i])
      invariant clarificationCount == Tally(o, Clarification, msgs[..i])
    {
      assert msgs[..i + 1][..i] == msgs[..i];
      var msg := msgs[i];
      var txt := NormalizeText(msg);
      if AnyContains(txt, ClosurePhrases) {
        completeCount := completeCount + 1;
      }
      var t := Strip(txt);
      if Contains(msg, "?") || StartsWith(t, "can you") || StartsWith(t, "could you") || StartsWith(t, "please") {
        clarificationCount := clarificationCount + 1;
      }
    }
    assert msgs[..|msgs|] == msgs;
    h := CompletenessHundredths(completeCount, clarificationCount);
  }

  /** The empathy loop: the lemma test runs only when no phrase matched. */
  method EmpathyScore(o: Oracles, msgs: seq<string>) returns (h: int)
    ensures h == EmpathyHundredths(Tally(o, Empathetic, msgs))
  {
    var empathyHits := 0;
    for i := 0 to |msgs|
      invariant empathyHits == Tally(o, Empathetic, msgs[..i])
    {
      assert msgs[..i + 1][..i] == msgs[..i];
      var txt := NormalizeText(msgs[i]);
      var phrase := RegexAnyMatch(o, txt, EmpathyPatterns);
      if phrase {
        empathyHits := empathyHits + 1;
      } else if ContainsLemmaAny(o, txt, EmpathyLemmas) {
        empathyHits := empathyHits + 1;
      }
    }
    assert msgs[..|msgs|] == msgs;
    h := EmpathyHundredths(empathyHits);
  }

  /** The fallback loop: each reply counts once, by the first test it passes. */
  method CountFallbacks(o: Oracles, msgs: seq<string>) returns (count: nat)
    ensures count == Tally(o, Fallback, msgs)
  {
    count := 0;
    for i := 0 to |msgs|
      invariant count == Tally(o, Fallback, msgs[..i])
    {
      assert msgs[..i + 1][..i] == msgs[..i];
      var txt := NormalizeText(msgs[i]);
      var direct := RegexAnyMatch(o, txt, FallbackPatterns);
      if direct {
        count := count + 1;
        continue;
      }
      if ContainsLemmaAny(o, txt, NegationLemmas) && ContainsLemmaAny(o, txt, CapabilityLemmas) {
        count := count + 1;
        continue;
      }
      if o.search(InabilityRegex, txt) {
        count := count + 1;
        continue;
      }
    }
    assert msgs[..|msgs|] == msgs;
  }

  // ---------------------------------------------------------------------
  // Resolution.
  // ---------------------------------------------------------------------

  /** Some AI reply reads as a resolution. */
  predicate Resolved(o: Oracles, msgs: seq<string>) {
    exists i :: 0 <= i < |msgs| && Resolves(o, msgs[i])
  }

  /** The resolution loop: the scan stops at the first resolving reply. */
  method IsResolved(o: Oracles, msgs: seq<string>) returns (resolved: bool)
    ensures resolved == Resolved(o, msgs)
  {
    for i := 0 to |msgs|
      invariant forall k :: 0 <= k < i ==> !Resolves(o, msgs[k])
    {
      var txt := NormalizeText(msgs[i]);
      var hit := RegexAnyMatch(o, txt, ResolutionPatterns);
      if hit {
        return true;
      }
      if o.search(OrderShippedRegex, txt) {
        return true;
      }
    }
    return false;
  }

  /** A conversation is resolved when either of two stretches of it is. */
  lemma ResolvedAppend(o: Oracles, a: seq<string>, b: seq<string>)
    ensures Resolved(o, a + b) <==> Resolved(o, a) || Resolved(o, b)
  {
    if Resolved(o, a + b) {
      var i :| 0 <= i < |a + b| && Resolves(o, (a + b)[i]);
      if i >= |a| {
        assert b[i - |a|] == (a + b)[i];
      }
    }
    if Resolved(o, a) {
      var i :| 0 <= i < |a| && Resolves(o, a[i]);
      assert (a + b)[i] == a[i];
    }
    if Resolved(o, b) {
      var i :| 0 <= i < |b| && Resolves(o, b[i]);
      assert (a + b)[|a| + i] == b[i];
    }
  }

  // ---------------------------------------------------------------------
  // User sentiment.
  // ---------------------------------------------------------------------

  datatype Sentiment = Positive | Negative | Neutral

  /** The polarity of each normalised user message, in order. */
  function Polarities(o: Oracles, msgs: seq<string>): seq<real> {
    if msgs == [] then [] else Polarities(o, msgs[..|msgs| - 1]) + [o.polarity(NormalizeStr(msgs[|msgs| - 1]))]
  }

  /** `avg_pol`: the mean polarity, 0 without user messages. */
  function AveragePolarity(o: Oracles, msgs: seq<string>): real {
    var pols := Polarities(o, msgs);
    if pols == [] then 0.0 else Mean(pols)
  }

  /** The thresholds at 0.2 either side of neutral; both are strict. */
  function Classify(avg: real): (s: Sentiment)
    ensures s == Positive <==> avg > 0.2
    ensures s == Negative <==> avg < -0.2
    ensures s == Neutral <==> -0.2 <= avg <= 0.2
  {
    if avg > 0.2 then Positive else if avg < -0.2 then Negative else Neutral
  }

  function UserSentimentOf(o: Oracles, msgs: seq<string>): Sentiment {
    Classify(AveragePolarity(o, msgs))
  }

  /** The sentiment loop over the user messages. */
  method UserSentiment(o: Oracles, msgs: seq<string>) returns (s: Sentiment)
    ensures s == UserSentimentOf(o, msgs)
  {
    var pols: seq<real> := [];
    for i := 0 to |msgs|
      invariant pols == Polarities(o, msgs[..i])
    {
      assert msgs[..i + 1][..i] == msgs[..i];
      var txt := NormalizeText(msgs[i]);
      pols := pols + [o.polarity(txt)];
    }
    assert msgs[..|msgs|] == msgs;
    var avg := if pols == [] then 0.0 else Mean(pols);
    if avg > 0.2 {
      s := Positive;
    } else if avg < -0.2 {
      s := Negative;
    } else {
      s := Neutral;
    }
  }

  lemma {:induction false} PolaritiesWithin(o: Oracles, msgs: seq<string>, lo: real, hi: real)
    requires forall i :: 0 <= i < |msgs| ==> lo <= o.polarity(NormalizeStr(msgs[i])) <= hi
    ensures |Polarities(o, msgs)| == |msgs|
    ensures Between(Polarities(o, msgs), lo, hi)
  {
    if msgs != [] {
      var n := |msgs| - 1;
      assert forall i :: 0 <= i < n ==> msgs[..n][i] == msgs[i];
      PolaritiesWithin(o, msgs[..n], lo, hi);
    }
  }

  /** Mild user messages, each of polarity within 0.2 of zero, or none at
      all, read as neutral. */
  lemma MildIsNeutral(o: Oracles, msgs: seq<string>)
    requires forall i :: 0 <= i < |msgs| ==> -0.2 <= o.polarity(NormalizeStr(msgs[i])) <= 0.2
    ensures UserSentimentOf(o, msgs) == Neutral
  {
    PolaritiesWithin(o, msgs, -0.2, 0.2);
    if msgs != [] {
      MeanBounds(Polarities(o, msgs), -0.2, 0.2);
    }
  }

  /** When every user message is more negative than the threshold, the user
      sentiment is negative. */
  lemma UniformlyNegative(o: Oracles, msgs: seq<string>, p: real)
    requires msgs != [] && p < -0.2
    requires forall i :: 0 <= i < |msgs| ==> -1.0 <= o.polarity(NormalizeStr(msgs[i])) <= p
    ensures UserSentimentOf(o, msgs) == Negative
  {
    PolaritiesWithin(o, msgs, -1.0, p);
    MeanBounds(Polarities(o, msgs), -1.0, p);
  }
}
