/** The lexical matcher: the curated pattern and phrase lists, pattern search
    over normalised text, and lemma membership. The regular-expression engine,
    the word tokenizer, the lemmatizer, the sentiment lexicon and the sentence
    embedding are foreign libraries; they enter as the fields of `Oracles`. */
module Lexicon {
  import opened Text

  /** The foreign capabilities the engine calls, as total functions.
      `search(p, t)`: `re.search(p, t)` found a match of the regular expression
      whose source text is `p` somewhere in `t`.
      `tokenize`: `word_tokenize`.  `lemmatize`: `WordNetLemmatizer.lemmatize`.
      `subjectivity`, `polarity`: TextBlob's sentiment of a text.
      `similarity`: cosine similarity of the two texts' sentence embeddings. */
  datatype Oracles = Oracles(
    search: (string, string) -> bool,
    tokenize: string -> seq<string>,
    lemmatize: string -> string,
    subjectivity: string -> real,
    polarity: string -> real,
    similarity: (string, string) -> real)

  /** A search pattern: a regular expression handed to the engine, or a phrase
      passed through `re.escape`, which matches exactly where the phrase
      occurs literally. */
  datatype Pattern = Regex(source: string) | Literal(phrase: string)

  /** `re.search(p, text)` is truthy. */
  predicate Matches(o: Oracles, p: Pattern, text: string) {
    match p
    case Regex(src) => o.search(src, text)
    case Literal(phrase) => Contains(text, phrase)
  }

  /** `regex_any_match(text, patterns)`: the text is normalised (again) and
      some pattern is found in it. */
  predicate AnyMatch(o: Oracles, text: string, patterns: seq<Pattern>) {
    var t := NormalizeStr(text);
    exists i :: 0 <= i < |patterns| && Matches(o, patterns[i], t)
  }

  /** The loop of `regex_any_match`: patterns are tried in order and the first
      hit returns. */
  method RegexAnyMatch(o: Oracles, text: string, patterns: seq<Pattern>) returns (found: bool)
    ensures found == AnyMatch(o, text, patterns)
    ensures found <==> exists i :: 0 <= i < |patterns| && Matches(o, patterns[i], NormalizeStr(text))
  {
    var t := NormalizeText(text);
    for i := 0 to |patterns|
      invariant forall k :: 0 <= k < i ==> !Matches(o, patterns[k], t)
    {
      if Matches(o, patterns[i], t) {
        return true;
      }
    }
    return false;
  }

  /** `any(k in text for k in phrases)`. */
  function AnyContains(text: string, phrases: seq<string>): bool {
    if phrases == [] then false
    else Contains(text, phrases[0]) || AnyContains(text, phrases[1..])
  }

  /** The scan over the phrases finds a phrase exactly when one occurs. */
  lemma {:induction false} AnyContainsIff(text: string, phrases: seq<string>)
    ensures AnyContains(text, phrases) <==> exists i :: 0 <= i < |phrases| && Contains(text, phrases[i])
  {
    if phrases != [] {
      AnyContainsIff(text, phrases[1..]);
      if Contains(text, phrases[0]) {
        assert Contains(text, phrases[0]);
      } else {
        forall i | 1 <= i < |phrases| ensures phrases[i] == phrases[1..][i - 1] { }
      }
    }
  }

  /** `lemmatized_tokens`: the words of the normalised text, each lemmatized. */
  function LemmatizedTokens(o: Oracles, s: string): seq<string> {
    var words := o.tokenize(NormalizeStr(s));
    seq(|words|, i requires 0 <= i < |words| => o.lemmatize(words[i]))
  }

  /** `contains_lemma_any`: some target lemma is among the text's lemmas. */
  predicate ContainsLemmaAny(o: Oracles, s: string, lemmas: seq<string>) {
    var toks := LemmatizedTokens(o, s);
    exists l :: l in lemmas && l in toks
  }

  /** A target lemma is found exactly when one of the lemmatized words of
      the normalised text equals it. */
  lemma ContainsLemmaAnyIff(o: Oracles, s: string, lemmas: seq<string>)
    ensures var words := o.tokenize(NormalizeStr(s));
      ContainsLemmaAny(o, s, lemmas) <==>
        exists i, j :: 0 <= i < |lemmas| && 0 <= j < |words| && lemmas[i] == o.lemmatize(words[j])
  {
    var words := o.tokenize(NormalizeStr(s));
    var toks := LemmatizedTokens(o, s);
    if ContainsLemmaAny(o, s, lemmas) {
      var l :| l in lemmas && l in toks;
      var i :| 0 <= i < |lemmas| && lemmas[i] == l;
      var j :| 0 <= j < |toks| && toks[j] == l;
      assert lemmas[i] == o.lemmatize(words[j]);
    }
    if exists i, j :: 0 <= i < |lemmas| && 0 <= j < |words| && lemmas[i] == o.lemmatize(words[j]) {
      var i, j :| 0 <= i < |lemmas| && 0 <= j < |words| && lemmas[i] == o.lemmatize(words[j]);
      assert toks[j] == lemmas[i];
      assert lemmas[i] in lemmas && lemmas[i] in toks;
    }
  }

  /** Looking for either of two lemma lists is looking for both at once. */
  lemma ContainsLemmaAnyAppend(o: Oracles, s: string, a: seq<string>, b: seq<string>)
    ensures ContainsLemmaAny(o, s, a + b) <==> ContainsLemmaAny(o, s, a) || ContainsLemmaAny(o, s, b)
  {
    var toks := LemmatizedTokens(o, s);
    if ContainsLemmaAny(o, s, a + b) {
      var l :| l in a + b && l in toks;
      assert l in a || l in b;
    }
    if ContainsLemmaAny(o, s, a) {
      var l :| l in a && l in toks;
      assert l in a + b;
    }
    if ContainsLemmaAny(o, s, b) {
      var l :| l in b && l in toks;
      assert l in a + b;
    }
  }

  /** `[re.escape(p) for p in EMPATHY_PHRASES]`. */
  function EscapedPhrases(phrases: seq<string>): seq<Pattern> {
    seq(|phrases|, i requires 0 <= i < |phrases| => Literal(phrases[i]))
  }

  /** Escaped phrases are matched as plain substrings of the normalised text. */
  lemma EscapedMatchIsSubstring(o: Oracles, text: string, phrases: seq<string>)
    ensures AnyMatch(o, text, EscapedPhrases(phrases)) <==> AnyContains(NormalizeStr(text), phrases)
  {
    var ps := EscapedPhrases(phrases);
    var t := NormalizeStr(text);
    AnyContainsIff(t, phrases);
    if AnyContains(t, phrases) {
      var i :| 0 <= i < |phrases| && Contains(t, phrases[i]);
      assert Matches(o, ps[i], t);
    }
  }
}
