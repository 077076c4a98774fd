/** The transcript: sender-tagged messages in order, their partition by
    sender, and the pairing of each user message with the next AI reply that
    relevance scoring uses. */
module Conversation {
  import opened Lexicon
  import opened Numeric

  datatype Option<T> = None | Some(value: T)

  /** One entry of the message list, `{"sender": ..., "message": ...}`. The
      sender is compared as a string; only "user" and "ai" are used. */
  datatype Message = Message(sender: string, text: string)

  const UserSender: string := "user"
  const AiSender: string := "ai"

  /** `[m['message'] for m in messages if m['sender'] == sender]`. */
  function Texts(ms: seq<Message>, sender: string): seq<string> {
    if ms == [] then []
    else Texts(ms[..|ms| - 1], sender) + (if ms[|ms| - 1].sender == sender then [ms[|ms| - 1].text] else [])
  }

  /** The filter distributes over concatenation, so it keeps the order of
      the messages it selects. */
  lemma {:induction false} TextsAppend(a: seq<Message>, b: seq<Message>, sender: string)
    ensures Texts(a + b, sender) == Texts(a, sender) + Texts(b, sender)
    decreases |b|
  {
    if b == [] {
      assert a + b == a;
    } else {
      var n := |b| - 1;
      assert (a + b)[..|a + b| - 1] == a + b[..n];
      TextsAppend(a, b[..n], sender);
    }
  }

  /** The filter keeps one text per message from the sender, and no other. */
  lemma {:induction false} TextsLength(ms: seq<Message>, sender: string)
    ensures |Texts(ms, sender)| == |set i | 0 <= i < |ms| && ms[i].sender == sender|
  {
    if ms != [] {
      var n := |ms| - 1;
      TextsLength(ms[..n], sender);
      var before := set i | 0 <= i < n && ms[..n][i].sender == sender;
      var all := set i | 0 <= i < |ms| && ms[i].sender == sender;
      if ms[n].sender == sender {
        assert all == before + {n};
      } else {
        assert all == before;
      }
    }
  }

  /** The filter is empty exactly when no message comes from the sender. */
  lemma {:induction false} TextsEmptyIff(ms: seq<Message>, sender: string)
    ensures Texts(ms, sender) == [] <==> forall i :: 0 <= i < |ms| ==> ms[i].sender != sender
  {
    if ms != [] {
      var n := |ms| - 1;
      TextsEmptyIff(ms[..n], sender);
      assert forall i :: 0 <= i < n ==> ms[..n][i] == ms[i];
    }
  }

  /** The inner scan of the relevance loop: the first message at or after
      index `from` whose sender is "ai". */
  function NextAiFrom(ms: seq<Message>, from: nat): (r: Option<nat>)
    ensures r.Some? ==> from <= r.value < |ms| && ms[r.value].sender == AiSender &&
                        (forall k :: from <= k < r.value ==> ms[k].sender != AiSender)
    ensures r.None? ==> forall k :: from <= k < |ms| ==> ms[k].sender != AiSender
    decreases |ms| - from
  {
    if from >= |ms| then None
    else if ms[from].sender == AiSender then Some(from)
    else NextAiFrom(ms, from + 1)
  }

  /** The similarity sample the user message at index `i` contributes: none
      unless it is a user message whose next AI reply exists and is
      non-empty (the truthiness test on `next_ai`). */
  function SampleAt(o: Oracles, ms: seq<Message>, i: nat): seq<real>
    requires i < |ms|
  {
    if ms[i].sender != UserSender then []
    else match NextAiFrom(ms, i + 1)
      case None => []
      case Some(j) => if ms[j].text == "" then [] else [o.similarity(ms[i].text, ms[j].text)]
  }

  /** The similarity samples of the first `n` messages, in order. */
  function Samples(o: Oracles, ms: seq<Message>, n: nat): seq<real>
    requires n <= |ms|
  {
    if n == 0 then [] else Samples(o, ms, n - 1) + SampleAt(o, ms, n - 1)
  }

  /** The relevance loop: every user message is paired with the first later
      AI message, found by a forward scan that stops at the first hit. */
  method RelevanceSamples(o: Oracles, ms: seq<Message>) returns (scores: seq<real>)
    ensures scores == Samples(o, ms, |ms|)
  {
    scores := [];
    for idx := 0 to |ms|
      invariant scores == Samples(o, ms, idx)
    {
      if ms[idx].sender != UserSender {
        continue;
      }
      var nextAi: Option<string> := None;
      var j := idx + 1;
      while j < |ms|
        invariant idx + 1 <= j <= |ms|
        invariant NextAiFrom(ms, idx + 1) == NextAiFrom(ms, j)
        decreases |ms| - j
      {
        if ms[j].sender == AiSender {
          nextAi := Some(ms[j].text);
          break;
        }
        j := j + 1;
      }
      if nextAi.Some? && nextAi.value != "" {
        scores := scores + [o.similarity(ms[idx].text, nextAi.value)];
      }
    }
  }

  /** `relevance_score`: the rounded mean of the samples, 0 without any. */
  function Relevance(o: Oracles, ms: seq<Message>): real {
    RoundedMean(Samples(o, ms, |ms|))
  }

  method RelevanceScore(o: Oracles, ms: seq<Message>) returns (score: real)
    ensures score == Relevance(o, ms)
  {
    var scores := RelevanceSamples(o, ms);
    score := RoundedMean(scores);
  }

  /** There are at most as many samples as user messages. */
  lemma SamplesAtMostUsers(o: Oracles, ms: seq<Message>)
    ensures |Samples(o, ms, |ms|)| <= |Texts(ms, UserSender)|
  {
    SamplesBound(o, ms, |ms|);
    assert ms[..|ms|] == ms;
  }

  lemma {:induction false} SamplesBound(o: Oracles, ms: seq<Message>, n: nat)
    requires n <= |ms|
    ensures |Samples(o, ms, n)| <= |Texts(ms[..n], UserSender)|
  {
    if n > 0 {
      SamplesBound(o, ms, n - 1);
      assert ms[..n][..n - 1] == ms[..n - 1];
    }
  }

  /** Without any AI message there is no sample. */
  lemma {:induction false} NoAiNoSamples(o: Oracles, ms: seq<Message>, n: nat)
    requires n <= |ms|
    requires forall i :: 0 <= i < |ms| ==> ms[i].sender != AiSender
    ensures Samples(o, ms, n) == []
  {
    if n > 0 {
      NoAiNoSamples(o, ms, n - 1);
    }
  }

  /** With similarities in [-1, 1], relevance lies in [-1, 1]; it is not
      clamped, so a negative cosine similarity gives a negative score. */
  lemma RelevanceWithin(o: Oracles, ms: seq<Message>)
    requires forall a: string, b: string :: -1.0 <= o.similarity(a, b) <= 1.0
    ensures -1.0 <= Relevance(o, ms) <= 1.0
  {
    var xs := Samples(o, ms, |ms|);
    SamplesWithin(o, ms, |ms|);
    RoundedMeanWithin(xs, -100, 100);
  }

  lemma {:induction false} SamplesWithin(o: Oracles, ms: seq<Message>, n: nat)
    requires n <= |ms|
    requires forall a: string, b: string :: -1.0 <= o.similarity(a, b) <= 1.0
    ensures Between(Samples(o, ms, n), -1.0, 1.0)
  {
    if n > 0 {
      SamplesWithin(o, ms, n - 1);
    }
  }

  /** In `[ai, user, ai]` the user message is paired with the reply after it,
      never with the one before. */
  lemma PairsWithFollowingReply(o: Oracles, before: string, question: string, reply: string)
    requires reply != ""
    ensures Samples(o, [Message(AiSender, before), Message(UserSender, question), Message(AiSender, reply)], 3)
      == [o.similarity(question, reply)]
  {
    var ms := [Message(AiSender, before), Message(UserSender, question), Message(AiSender, reply)];
    assert UserSender != AiSender;
    assert NextAiFrom(ms, 2) == Some(2);
    assert SampleAt(o, ms, 0) == [];
    assert SampleAt(o, ms, 1) == [o.similarity(question, reply)];
    assert SampleAt(o, ms, 2) == [];
    assert Samples(o, ms, 1) == [];
    assert Samples(o, ms, 2) == [o.similarity(question, reply)];
  }

  /** Relevance is not clamped: a negative similarity between a question and
      its reply gives a negative relevance score. */
  lemma RelevanceCanBeNegative(o: Oracles, question: string, reply: string)
    requires reply != "" && o.similarity(question, reply) == -0.5
    ensures Relevance(o, [Message(UserSender, question), Message(AiSender, reply)]) == -0.5
  {
    var ms := [Message(UserSender, question), Message(AiSender, reply)];
    assert UserSender != AiSender;
    assert NextAiFrom(ms, 1) == Some(1);
    assert SampleAt(o, ms, 0) == [-0.5];
    assert SampleAt(o, ms, 1) == [];
    assert Samples(o, ms, 1) == [-0.5];
    assert Samples(o, ms, 2) == [-0.5];
    assert Sum([-0.5]) == -0.5 by { assert [-0.5][..0] == []; }
    Round2Exact(-50);
  }
}
