/** `analyze_conversation`: the ten-field report over a sender-tagged
    message list, composed from the per-section loops, with the properties
    the report as a whole keeps. */
module Analysis {
  import opened Lexicon
  import opened Numeric
  import opened Conversation
  import opened Metrics

  /** The report; the five scores are reals in units, the way the report
      carries them. */
  datatype Report = Report(
    clarity: real,
    relevance: real,
    accuracy: real,
    completeness: real,
    empathy: real,
    sentiment: Sentiment,
    resolution: bool,
    escalationNeeded: bool,
    fallbackCount: nat,
    overall: real)

  datatype Outcome = Ok(report: Report) | Error(message: string)

  const EmptyConversation: string := "empty conversation"

  /** A score kept in whole hundredths, as the report's real. */
  function Units(h: int): real {
    h as real / 100.0
  }

  /** Escalate when unresolved with a negative user, or after two fallbacks. */
  function NeedsEscalation(resolved: bool, sentiment: Sentiment, fallbacks: nat): bool {
    (!resolved && sentiment == Negative) || fallbacks >= 2
  }

  /** `overall_score`: the rounded mean of the five scores. */
  function Overall(clarity: real, relevance: real, accuracy: real, completeness: real, empathy: real): real {
    Round2(Mean([clarity, relevance, accuracy, completeness, empathy]))
  }

  /** The report `analyze_conversation` returns for a message list. */
  function Analyze(o: Oracles, ms: seq<Message>): Outcome {
    var users := Texts(ms, UserSender);
    var ais := Texts(ms, AiSender);
    if users == [] && ais == [] then Error(EmptyConversation)
    else
      var clarity := Clarity(o, ais);
      var relevance := Relevance(o, ms);
      var accuracy := Units(AccuracyHundredths(Tally(o, Factual, ais)));
      var completeness := Units(CompletenessHundredths(Tally(o, Closure, ais), Tally(o, Clarification, ais)));
      var empathy := Units(EmpathyHundredths(Tally(o, Empathetic, ais)));
      var sentiment := UserSentimentOf(o, users);
      var fallbacks := Tally(o, Fallback, ais);
      var resolved := Resolved(o, ais);
      Ok(Report(clarity, relevance, accuracy, completeness, empathy, sentiment, resolved,
                NeedsEscalation(resolved, sentiment, fallbacks), fallbacks,
                Overall(clarity, relevance, accuracy, completeness, empathy)))
  }

  /** The analysis, section by section. */
  method AnalyzeConversation(o: Oracles, ms: seq<Message>) returns (r: Outcome)
    ensures r == Analyze(o, ms)
  {
    var userMsgs := Texts(ms, UserSender);
    var aiMsgs := Texts(ms, AiSender);
    if userMsgs == [] && aiMsgs == [] {
      return Error(EmptyConversation);
    }
    var clarity := ClarityScore(o, aiMsgs);
    var relevance := RelevanceScore(o, ms);
    var accuracy := AccuracyScore(o, aiMsgs);
    var completeness := CompletenessScore(o, aiMsgs);
    var empathy := EmpathyScore(o, aiMsgs);
    var sentiment := UserSentiment(o, userMsgs);
    var fallbackCount := CountFallbacks(o, aiMsgs);
    var resolved := IsResolved(o, aiMsgs);
    var escalationNeeded := false;
    if (!resolved && sentiment == Negative) || fallbackCount >= 2 {
      escalationNeeded := true;
    }
    var overall := Round2(Mean([clarity, relevance, Units(accuracy), Units(completeness), Units(empathy)]));
    r := Ok(Report(clarity, relevance, Units(accuracy), Units(completeness), Units(empathy), sentiment,
                   resolved, escalationNeeded, fallbackCount, overall));
  }

  /** The error report comes back exactly when no message is from the user
      or the AI; messages from any other sender are ignored. */
  lemma ErrorIff(o: Oracles, ms: seq<Message>)
    ensures Analyze(o, ms).Error? <==>
      forall i :: 0 <= i < |ms| ==> ms[i].sender != UserSender && ms[i].sender != AiSender
    ensures Analyze(o, ms).Error? ==> Analyze(o, ms).message == EmptyConversation
  {
    TextsEmptyIff(ms, UserSender);
    TextsEmptyIff(ms, AiSender);
  }

  /** Every score but relevance is a whole number of hundredths in a fixed
      range, and the fallback count is at most the number of AI replies. */
  lemma ReportRanges(o: Oracles, ms: seq<Message>)
    requires exists i :: 0 <= i < |ms| && (ms[i].sender == UserSender || ms[i].sender == AiSender)
    ensures Analyze(o, ms).Ok?
    ensures var rep := Analyze(o, ms).report;
      && 0.0 <= rep.clarity <= 1.0
      && 0.5 <= rep.accuracy <= 1.0
      && 0.0 <= rep.completeness <= 1.0
      && 0.4 <= rep.empathy <= 1.0
      && rep.fallbackCount <= |Texts(ms, AiSender)|
  {
    ErrorIff(o, ms);
    ClarityWithin(o, Texts(ms, AiSender));
  }

  /** Two or more fallback replies always escalate; a resolved conversation
      escalates only on fallbacks. */
  lemma EscalationRules(o: Oracles, ms: seq<Message>)
    requires exists i :: 0 <= i < |ms| && (ms[i].sender == UserSender || ms[i].sender == AiSender)
    ensures Analyze(o, ms).Ok?
    ensures var rep := Analyze(o, ms).report;
      && (rep.fallbackCount >= 2 ==> rep.escalationNeeded)
      && (rep.resolution ==> (rep.escalationNeeded <==> rep.fallbackCount >= 2))
      && (rep.escalationNeeded <==> (!rep.resolution && rep.sentiment == Negative) || rep.fallbackCount >= 2)
  {
    ErrorIff(o, ms);
  }

  /** The overall score of five scores in the report's ranges, relevance
      in [-1, 1], lies in [-0.02, 1]. */
  lemma OverallBounds(clarity: real, relevance: real, accuracy: real, completeness: real, empathy: real)
    requires 0.0 <= clarity <= 1.0 && -1.0 <= relevance <= 1.0 && 0.5 <= accuracy <= 1.0
    requires 0.0 <= completeness <= 1.0 && 0.4 <= empathy <= 1.0
    ensures -0.02 <= Overall(clarity, relevance, accuracy, completeness, empathy) <= 1.0
  {
    SumOfFive(clarity, relevance, accuracy, completeness, empathy);
    var m := Mean([clarity, relevance, accuracy, completeness, empathy]);
    assert m * 5.0 == clarity + relevance + accuracy + completeness + empathy;
    Round2Within(m, -2, 100);
  }

  /** With cosine similarities in [-1, 1] the overall score lies in
      [-0.02, 1]: relevance is the only score that can be negative, and the
      accuracy and empathy floors offset most of it. */
  lemma OverallWithin(o: Oracles, ms: seq<Message>)
    requires forall a: string, b: string :: -1.0 <= o.similarity(a, b) <= 1.0
    requires exists i :: 0 <= i < |ms| && (ms[i].sender == UserSender || ms[i].sender == AiSender)
    ensures Analyze(o, ms).Ok?
    ensures -0.02 <= Analyze(o, ms).report.overall <= 1.0
  {
    ReportRanges(o, ms);
    RelevanceWithin(o, ms);
    var rep := Analyze(o, ms).report;
    assert rep.overall == Overall(rep.clarity, rep.relevance, rep.accuracy, rep.completeness, rep.empathy);
    OverallBounds(rep.clarity, rep.relevance, rep.accuracy, rep.completeness, rep.empathy);
  }

  /** A conversation with user messages but no AI reply gets the baseline
      report: no clarity, relevance or fallbacks, accuracy 0.5, completeness
      0.6, empathy 0.4, unresolved, overall 0.3, and escalation exactly when
      the user is negative. */
  lemma NoReplyBaseline(o: Oracles, ms: seq<Message>)
    requires exists i :: 0 <= i < |ms| && ms[i].sender == UserSender
    requires forall i :: 0 <= i < |ms| ==> ms[i].sender != AiSender
    ensures Analyze(o, ms).Ok?
    ensures var rep := Analyze(o, ms).report;
      && rep.clarity == 0.0 && rep.relevance == 0.0
      && rep.accuracy == 0.5 && rep.completeness == 0.6 && rep.empathy == 0.4
      && !rep.resolution && rep.fallbackCount == 0
      && (rep.escalationNeeded <==> rep.sentiment == Negative)
      && rep.overall == 0.3
  {
    ErrorIff(o, ms);
    TextsEmptyIff(ms, AiSender);
    NoAiNoSamples(o, ms, |ms|);
    Round2Exact(0);
    SumOfFive(0.0, 0.0, 0.5, 0.6, 0.4);
    assert Mean([0.0, 0.0, 0.5, 0.6, 0.4]) == 30 as real / 100.0;
    Round2Exact(30);
  }

  /** Without user messages the sentiment is neutral and nothing is paired
      for relevance. */
  lemma NoUserNeutral(o: Oracles, ms: seq<Message>)
    requires forall i :: 0 <= i < |ms| ==> ms[i].sender != UserSender
    requires exists i :: 0 <= i < |ms| && ms[i].sender == AiSender
    ensures Analyze(o, ms).Ok?
    ensures Analyze(o, ms).report.sentiment == Neutral
    ensures Analyze(o, ms).report.relevance == 0.0
  {
    ErrorIff(o, ms);
    TextsEmptyIff(ms, UserSender);
    SamplesAtMostUsers(o, ms);
    Round2Exact(0);
  }
}
