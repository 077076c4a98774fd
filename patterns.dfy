/** The curated pattern and phrase sets of the scoring engine, verbatim and in
    the source's order, as immutable configuration. */
module Patterns {
  import opened Text
  import opened Lexicon

  const FallbackPatterns: seq<Pattern> := [
    Regex(@"\bdo not know\b"), Regex(@"\bdoesn't know\b"), Regex(@"\bdo n't know\b"), Regex(@"\bnot sure\b"),
    Regex(@"\bunable\b"), Regex(@"\bcan not\b"), Regex(@"\bcannot\b"), Regex(@"\bcan't\b"), Regex(@"\bno idea\b"),
    Regex(@"\bi have no\b"), Regex(@"\bi'm not able\b"), Regex(@"\bi am not able\b"), Regex(@"\bnot available\b"),
    Regex(@"\bunknown\b"), Regex(@"\bno information\b"), Regex(@"\bi don't have that\b"), Regex(@"\bcan't help\b")
  ]

  const EmpathyPhrases: seq<string> := [
    "sorry to hear", "i'm sorry", "i am sorry", "i understand", "i can imagine", "that must be",
    "i'm here to help", "i am here to help", "happy to help", "glad to help", "appreciate",
    "sorry about", "apologize", "i apologize", "thanks for sharing"
  ]

  const ClosurePhrases: seq<string> := [
    "anything else", "is there anything", "let me know", "glad i could help", "happy to help",
    "thank you", "thanks", "if you need", "feel free to", "have a great", "goodbye"
  ]

  const ResolutionPatterns: seq<Pattern> := [
    Regex(@"\bresolved\b"), Regex(@"\bfixed\b"), Regex(@"\bcompleted\b"), Regex(@"\bclosed\b"), Regex(@"\bshipped\b"),
    Regex(@"\bdelivered\b"), Regex(@"\brefund\b"), Regex(@"\breturned\b"), Regex(@"\bcancelled\b"), Regex(@"\bcancelled\b"),
    Regex(@"\brefunded\b"), Regex(@"\bissue solved\b"), Regex(@"\bticket closed\b")
  ]

  const FactualKeywords: seq<string> := [
    "order", "id", "tracking", "date", "number", "price", "invoice", "amount", "ref", "reference"
  ]

  /** Numbers of three or more digits. */
  const DigitRunRegex: string := @"\b\d{3,}\b"
  /** Three-letter month abbreviations. */
  const MonthRegex: string := @"\b(?:jan|feb|mar|apr|may|jun|jul|aug|sep|oct|nov|dec)\b"
  /** Inability followed later by a verb of help or retrieval. */
  const InabilityRegex: string := @"(unable|cannot|can not|cannot) .* (help|find|access|provide|retrieve)"
  /** An order reported on its way. */
  const OrderShippedRegex: string := @"order .* (shipped|delivered|dispatched|on the way|will arrive|arrive tomorrow|out for delivery)"

  const EmpathyLemmas: seq<string> := ["sorry", "understand", "help", "apologize", "appreciate", "regret"]
  const NegationLemmas: seq<string> := ["not", "no"]
  const CapabilityLemmas: seq<string> := ["know", "have", "information", "access"]

  /** `[re.escape(p) for p in EMPATHY_PHRASES]`. */
  const EmpathyPatterns: seq<Pattern> := EscapedPhrases(EmpathyPhrases)

  /** "cancelled" is listed twice among the resolution patterns; dropping the
      second copy finds the same matches. */
  lemma DuplicateResolutionHarmless(o: Oracles, text: string)
    ensures ResolutionPatterns[8] == ResolutionPatterns[9]
    ensures AnyMatch(o, text, ResolutionPatterns) <==> AnyMatch(o, text, ResolutionPatterns[..9] + ResolutionPatterns[10..])
  {
    var ps := ResolutionPatterns;
    var qs := ps[..9] + ps[10..];
    var t := NormalizeStr(text);
    if AnyMatch(o, text, ps) {
      var i :| 0 <= i < |ps| && Matches(o, ps[i], t);
      if i < 9 {
        assert qs[i] == ps[i];
      } else if i == 9 {
        assert qs[8] == ps[9];
      } else {
        assert qs[i - 1] == ps[i];
      }
    }
    if AnyMatch(o, text, qs) {
      var i :| 0 <= i < |qs| && Matches(o, qs[i], t);
      if i < 9 {
        assert qs[i] == ps[i];
      } else {
        assert qs[i] == ps[i + 1];
      }
    }
  }
}
