/** Text normalisation shared by every matcher of the scoring engine:
    ASCII lower-casing, contraction expansion by literal substring
    replacement in table order, collapsing of whitespace runs and trimming. */
module Text {

  /** A value handed to the normaliser: a string, or anything else. */
  datatype PyValue = PyStr(s: string) | PyOther

  predicate IsUpper(c: char) { 'A' <= c <= 'Z' }

  /** Whitespace as `str.isspace` and the `\s` class see it, restricted to ASCII:
      tab, line feed, vertical tab, form feed, carriage return, the four
      separator controls 0x1C-0x1F and the blank. */
  predicate IsSpace(c: char) {
    var n := c as int;
    n == 32 || 9 <= n <= 13 || 28 <= n <= 31
  }

  predicate NoUpper(s: string) {
    forall i :: 0 <= i < |s| ==> !IsUpper(s[i])
  }

  /** The only whitespace character left is the blank. */
  predicate OnlyBlanks(s: string) {
    forall i :: 0 <= i < |s| && IsSpace(s[i]) ==> s[i] == ' '
  }

  /** No two neighbouring characters are both whitespace. */
  predicate NoSpaceRuns(s: string) {
    forall i :: 0 <= i < |s| - 1 ==> !(IsSpace(s[i]) && IsSpace(s[i + 1]))
  }

  /** Neither end is whitespace. */
  predicate Trimmed(s: string) {
    s != [] ==> !IsSpace(s[0]) && !IsSpace(s[|s| - 1])
  }

  /** The text with every whitespace character removed. */
  function NonSpace(s: string): string {
    if s == [] then [] else (if IsSpace(s[0]) then [] else [s[0]]) + NonSpace(s[1..])
  }

  lemma {:induction false} NonSpaceAppend(a: string, b: string)
    ensures NonSpace(a + b) == NonSpace(a) + NonSpace(b)
  {
    if a != [] {
      assert (a + b)[1..] == a[1..] + b;
      NonSpaceAppend(a[1..], b);
    } else {
      assert a + b == b;
    }
  }

  /** `sub` occurs in `s` starting at position `i`. */
  predicate OccursAt(s: string, sub: string, i: int) {
    0 <= i <= |s| - |sub| && s[i..i + |sub|] == sub
  }

  /** Substring test, Python's `sub in s`. */
  function Contains(s: string, sub: string): bool
    decreases |s|
  {
    if |sub| > |s| then false
    else s[..|sub|] == sub || Contains(s[1..], sub)
  }

  /** `Contains` finds exactly the positions where `sub` occurs. */
  lemma {:induction false} ContainsIff(s: string, sub: string)
    ensures Contains(s, sub) <==> exists i :: OccursAt(s, sub, i)
    decreases |s|
  {
    if |sub| <= |s| {
      if s[..|sub|] == sub {
        assert OccursAt(s, sub, 0);
      } else {
        ContainsIff(s[1..], sub);
        if j :| OccursAt(s[1..], sub, j) {
          assert s[j + 1..j + 1 + |sub|] == s[1..][j..j + |sub|];
          assert OccursAt(s, sub, j + 1);
        }
        forall i | OccursAt(s, sub, i) ensures OccursAt(s[1..], sub, i - 1) {
          assert s[i..i + |sub|] == s[1..][i - 1..i - 1 + |sub|];
        }
      }
    }
  }

  /** Python's `s.startswith(p)`. */
  predicate StartsWith(s: string, p: string) {
    |p| <= |s| && s[..|p|] == p
  }

  /** A character's ASCII lower-case form. */
  function LowerChar(c: char): char {
    if IsUpper(c) then (c as int + 32) as char else c
  }

  /** `str.lower` on ASCII text. */
  function Lower(s: string): string {
    seq(|s|, i requires 0 <= i < |s| => LowerChar(s[i]))
  }

  /** Lower-casing keeps the length, leaves no upper-case letter, moves each
      upper-case letter by 32 code points and fixes every other character. */
  lemma LowerFacts(s: string)
    ensures |Lower(s)| == |s| && NoUpper(Lower(s))
    ensures forall i :: 0 <= i < |s| ==>
      (IsUpper(s[i]) ==> Lower(s)[i] as int == s[i] as int + 32) &&
      (!IsUpper(s[i]) ==> Lower(s)[i] == s[i])
    ensures NoUpper(s) ==> Lower(s) == s
  {
  }

  /** Python's `s.replace(k, v)`: every non-overlapping occurrence of `k`,
      scanned left to right, is replaced by `v`; occurrences inside longer
      words are replaced too. */
  function ReplaceAll(s: string, k: string, v: string): string
    requires k != []
    decreases |s|
  {
    if |s| < |k| then s
    else if s[..|k|] == k then v + ReplaceAll(s[|k|..], k, v)
    else [s[0]] + ReplaceAll(s[1..], k, v)
  }

  /** Without an occurrence of the key, replacement changes nothing. */
  lemma {:induction false} ReplaceAllAbsent(s: string, k: string, v: string)
    requires k != [] && !Contains(s, k)
    ensures ReplaceAll(s, k, v) == s
    decreases |s|
  {
    if |s| >= |k| {
      ReplaceAllAbsent(s[1..], k, v);
      assert s == [s[0]] + s[1..];
    }
  }

  /** Replacing with lower-case text keeps a lower-case text lower-case. */
  lemma {:induction false} ReplaceAllLowercase(s: string, k: string, v: string)
    requires k != [] && NoUpper(s) && NoUpper(v)
    ensures NoUpper(ReplaceAll(s, k, v))
    decreases |s|
  {
    if |s| >= |k| {
      if s[..|k|] == k {
        ReplaceAllLowercase(s[|k|..], k, v);
      } else {
        ReplaceAllLowercase(s[1..], k, v);
      }
    }
  }

  /** The contraction table, in the dictionary's insertion order. */
  const Contractions: seq<(string, string)> := [
    ("can't", "cannot"), ("won't", "will not"), ("don't", "do not"), ("didn't", "did not"),
    ("i'm", "i am"), ("i've", "i have"), ("i'd", "i would"), ("it's", "it is"), ("they're", "they are"),
    ("we're", "we are"), ("you're", "you are"), ("isn't", "is not"), ("aren't", "are not"),
    ("couldn't", "could not"), ("shouldn't", "should not"), ("wouldn't", "would not")
  ]

  /** Every key holds an apostrophe; no value holds an upper-case letter. */
  predicate WellFormedTable(cs: seq<(string, string)>) {
    forall i :: 0 <= i < |cs| ==> '\'' in cs[i].0 && NoUpper(cs[i].1)
  }

  lemma ContractionsWellFormed()
    ensures WellFormedTable(Contractions)
  {
    forall i | 0 <= i < |Contractions|
      ensures '\'' in Contractions[i].0 && NoUpper(Contractions[i].1)
    {
      assert Contractions[i].0[|Contractions[i].0| - 3] == '\'' || Contractions[i].0[|Contractions[i].0| - 2] == '\'' || Contractions[i].0[1] == '\'';
    }
  }

  /** The replacements of `cs` applied one after another, first entry first. */
  function Expand(s: string, cs: seq<(string, string)>): string
    requires WellFormedTable(cs)
  {
    if cs == [] then s
    else
      var last := cs[|cs| - 1];
      assert '\'' in last.0;
      ReplaceAll(Expand(s, cs[..|cs| - 1]), last.0, last.1)
  }

  /** The contraction table applied to `s`. */
  function ExpandContractions(s: string): string {
    ContractionsWellFormed();
    Expand(s, Contractions)
  }

  lemma {:induction false} ExpandKeepsLowercase(s: string, cs: seq<(string, string)>)
    requires WellFormedTable(cs) && NoUpper(s)
    ensures NoUpper(Expand(s, cs))
  {
    if cs != [] {
      ExpandKeepsLowercase(s, cs[..|cs| - 1]);
      ReplaceAllLowercase(Expand(s, cs[..|cs| - 1]), cs[|cs| - 1].0, cs[|cs| - 1].1);
    }
  }

  /** A text that lacks a character does not contain any key holding it. */
  lemma MissingCharNotContained(s: string, k: string, c: char)
    requires c in k && c !in s
    ensures !Contains(s, k)
  {
    ContainsIff(s, k);
  }

  lemma {:induction false} ExpandWithoutApostrophe(s: string, cs: seq<(string, string)>)
    requires WellFormedTable(cs) && '\'' !in s
    ensures Expand(s, cs) == s
  {
    if cs != [] {
      ExpandWithoutApostrophe(s, cs[..|cs| - 1]);
      MissingCharNotContained(s, cs[|cs| - 1].0, '\'');
      ReplaceAllAbsent(s, cs[|cs| - 1].0, cs[|cs| - 1].1);
    }
  }

  /** `s.lstrip()`: drops leading whitespace. */
  function TrimStart(s: string): (r: string)
    ensures |r| <= |s|
    ensures s != [] && IsSpace(s[0]) ==> |r| < |s|
    decreases |s|
  {
    if s != [] && IsSpace(s[0]) then TrimStart(s[1..]) else s
  }

  /** `lstrip` keeps a suffix that starts with a non-space, dropping only
      whitespace. */
  lemma {:induction false} TrimStartFacts(s: string)
    ensures var r := TrimStart(s);
      r == s[|s| - |r|..] && (r != [] ==> !IsSpace(r[0])) && NonSpace(r) == NonSpace(s)
    decreases |s|
  {
    if s != [] && IsSpace(s[0]) {
      TrimStartFacts(s[1..]);
    }
  }

  /** `s.rstrip()`: drops trailing whitespace. */
  function TrimEnd(s: string): (r: string)
    ensures |r| <= |s|
    decreases |s|
  {
    if s != [] && IsSpace(s[|s| - 1]) then TrimEnd(s[..|s| - 1]) else s
  }

  /** `rstrip` keeps a prefix that ends with a non-space, dropping only
      whitespace. */
  lemma {:induction false} TrimEndFacts(s: string)
    ensures var r := TrimEnd(s);
      r == s[..|r|] && (r != [] ==> !IsSpace(r[|r| - 1])) && NonSpace(r) == NonSpace(s)
    decreases |s|
  {
    if s != [] && IsSpace(s[|s| - 1]) {
      TrimEndFacts(s[..|s| - 1]);
      assert s == s[..|s| - 1] + [s[|s| - 1]];
      NonSpaceAppend(s[..|s| - 1], [s[|s| - 1]]);
    }
  }

  /** `s.strip()`. */
  function Strip(s: string): string {
    TrimEnd(TrimStart(s))
  }

  /** `strip` leaves a trimmed slice of the text with the same non-space
      characters. */
  lemma StripFacts(s: string)
    ensures var r := Strip(s); var a := |s| - |TrimStart(s)|;
      Trimmed(r) && NonSpace(r) == NonSpace(s) && a + |r| <= |s| && r == s[a..a + |r|]
  {
    TrimStartFacts(s);
    TrimEndFacts(TrimStart(s));
  }

  /** `re.sub(r'\s+', ' ', s)`: every maximal run of whitespace becomes one blank. */
  function CollapseSpaces(s: string): string
    decreases |s|
  {
    if s == [] then []
    else if IsSpace(s[0]) then " " + CollapseSpaces(TrimStart(s))
    else [s[0]] + CollapseSpaces(s[1..])
  }

  /** After collapsing, the only whitespace is single blanks, nothing but
      whitespace has changed, and the text is empty or starts with whitespace
      exactly when the input is or does. */
  lemma {:induction false} CollapseFacts(s: string)
    ensures var r := CollapseSpaces(s);
      (r == [] <==> s == []) && (r != [] ==> IsSpace(r[0]) == IsSpace(s[0])) &&
      OnlyBlanks(r) && NoSpaceRuns(r) && NonSpace(r) == NonSpace(s)
    decreases |s|
  {
    if s != [] {
      var r := CollapseSpaces(s);
      if IsSpace(s[0]) {
        var t := TrimStart(s);
        TrimStartFacts(s);
        CollapseFacts(t);
        assert r[1..] == CollapseSpaces(t);
      } else {
        CollapseFacts(s[1..]);
        assert r[1..] == CollapseSpaces(s[1..]);
      }
    }
  }

  /** Every character is whitespace. */
  predicate AllSpace(w: string) {
    forall i :: 0 <= i < |w| ==> IsSpace(w[i])
  }

  /** Left-stripping a run of whitespace followed by a text that does not
      start with whitespace leaves exactly that text. */
  lemma {:induction false} TrimStartRun(w: string, b: string)
    requires AllSpace(w)
    requires b == [] || !IsSpace(b[0])
    ensures TrimStart(w + b) == b
    decreases |w|
  {
    if w == [] {
      assert w + b == b;
    } else {
      assert (w + b)[1..] == w[1..] + b;
      TrimStartRun(w[1..], b);
    }
  }

  /** Left-stripping a text that ends in a non-space keeps that last
      character and is unaffected by what follows. */
  lemma {:induction false} TrimStartAppend(a: string, t: string)
    requires a != [] && !IsSpace(a[|a| - 1])
    ensures TrimStart(a + t) == TrimStart(a) + t
    ensures TrimStart(a) != [] && !IsSpace(TrimStart(a)[|TrimStart(a)| - 1])
    decreases |a|
  {
    if IsSpace(a[0]) {
      assert (a + t)[1..] == a[1..] + t;
      TrimStartAppend(a[1..], t);
    }
  }

  /** One whitespace run between two texts becomes exactly one blank, and
      the texts on either side are collapsed on their own. */
  lemma {:induction false} CollapseRun(a: string, w: string, b: string)
    requires w != [] && AllSpace(w)
    requires a == [] || !IsSpace(a[|a| - 1])
    requires b == [] || !IsSpace(b[0])
    ensures CollapseSpaces(a + w + b) == CollapseSpaces(a) + " " + CollapseSpaces(b)
    decreases |a|
  {
    var s := a + w + b;
    if a == [] {
      assert s == w + b;
      TrimStartRun(w, b);
      assert CollapseSpaces(s) == " " + CollapseSpaces(b);
    } else if IsSpace(a[0]) {
      CollapseRunAfterSpace(a, w, b);
    } else {
      assert s[0] == a[0] && s[1..] == a[1..] + w + b;
      CollapseRun(a[1..], w, b);
      assert CollapseSpaces(s) == [a[0]] + CollapseSpaces(a[1..] + w + b);
      assert CollapseSpaces(a) == [a[0]] + CollapseSpaces(a[1..]);
    }
  }

  /** The case of `CollapseRun` where the left text opens with whitespace. */
  lemma {:induction false} CollapseRunAfterSpace(a: string, w: string, b: string)
    requires w != [] && AllSpace(w)
    requires a != [] && IsSpace(a[0]) && !IsSpace(a[|a| - 1])
    requires b == [] || !IsSpace(b[0])
    ensures CollapseSpaces(a + w + b) == CollapseSpaces(a) + " " + CollapseSpaces(b)
    decreases |a|, 0
  {
    var s := a + w + b;
    var ta := TrimStart(a);
    TrimStartAppend(a, w + b);
    assert s == a + (w + b);
    assert ta + (w + b) == ta + w + b;
    assert TrimStart(s) == ta + w + b;
    assert |ta| < |a|;
    CollapseRun(ta, w, b);
    assert CollapseSpaces(s) == " " + CollapseSpaces(ta + w + b);
    assert CollapseSpaces(a) == " " + CollapseSpaces(ta);
  }

  /** A slice of a string with only single blanks as whitespace keeps that shape. */
  lemma SliceKeepsSpacing(s: string, a: nat, b: nat)
    requires a <= b <= |s| && OnlyBlanks(s) && NoSpaceRuns(s)
    ensures OnlyBlanks(s[a..b]) && NoSpaceRuns(s[a..b])
  {
    forall i | 0 <= i < b - a - 1
      ensures !(IsSpace(s[a..b][i]) && IsSpace(s[a..b][i + 1]))
    {
      assert s[a..b][i] == s[a + i] && s[a..b][i + 1] == s[a + i + 1];
    }
  }

  /** `normalize_text` on a string: lower-case, expand contractions in table
      order, collapse whitespace runs to one blank, strip. */
  function NormalizeStr(s: string): string {
    Strip(CollapseSpaces(ExpandContractions(Lower(s))))
  }

  /** The normalised text is lower-case, trimmed, uses only blanks as
      whitespace and has no whitespace runs; apart from whitespace it is the
      lower-cased text after contraction expansion. */
  lemma NormalizedShape(s: string)
    ensures var r := NormalizeStr(s);
      NoUpper(r) && Trimmed(r) && OnlyBlanks(r) && NoSpaceRuns(r)
    ensures NonSpace(NormalizeStr(s)) == NonSpace(ExpandContractions(Lower(s)))
  {
    ContractionsWellFormed();
    LowerFacts(s);
    var e := ExpandContractions(Lower(s));
    ExpandKeepsLowercase(Lower(s), Contractions);
    var c := CollapseSpaces(e);
    CollapseFacts(e);
    CollapseKeepsLowercase(e);
    StripKeepsShape(c);
    StripFacts(c);
  }

  lemma CollapseKeepsLowercase(e: string)
    requires NoUpper(e)
    ensures NoUpper(CollapseSpaces(e))
  {
    var c := CollapseSpaces(e);
    CollapseFacts(e);
    forall i | 0 <= i < |c| ensures !IsUpper(c[i]) {
      if !IsSpace(c[i]) {
        NonSpaceMember(c, i);
        NonSpaceNoUpper(e);
      }
    }
  }

  lemma StripKeepsShape(c: string)
    requires NoUpper(c) && OnlyBlanks(c) && NoSpaceRuns(c)
    ensures NoUpper(Strip(c)) && OnlyBlanks(Strip(c)) && NoSpaceRuns(Strip(c)) && Trimmed(Strip(c))
  {
    var r := Strip(c);
    StripFacts(c);
    var a := |c| - |TrimStart(c)|;
    SliceKeepsSpacing(c, a, a + |r|);
    assert forall i :: 0 <= i < |r| ==> r[i] == c[a + i];
  }

  lemma {:induction false} NonSpaceMember(s: string, i: nat)
    requires i < |s| && !IsSpace(s[i])
    ensures s[i] in NonSpace(s)
  {
    if i > 0 {
      NonSpaceMember(s[1..], i - 1);
    }
  }

  lemma {:induction false} NonSpaceNoUpper(s: string)
    requires NoUpper(s)
    ensures NoUpper(NonSpace(s))
  {
    if s != [] {
      NonSpaceNoUpper(s[1..]);
    }
  }

  /** The loop of `normalize_text` on a string: the text is rebound once per
      table entry, in table order. */
  method NormalizeText(text: string) returns (r: string)
    ensures r == NormalizeStr(text)
  {
    ContractionsWellFormed();
    var s := Lower(text);
    for i := 0 to |Contractions|
      invariant s == Expand(Lower(text), Contractions[..i])
    {
      assert Contractions[..i + 1][..i] == Contractions[..i];
      s := ReplaceAll(s, Contractions[i].0, Contractions[i].1);
    }
    assert Contractions[..|Contractions|] == Contractions;
    assert s == ExpandContractions(Lower(text));
    r := Strip(CollapseSpaces(s));
  }

  /** `normalize_text` on any value: a non-string yields the empty string. */
  method NormalizeValue(v: PyValue) returns (r: string)
    ensures v.PyOther? ==> r == ""
    ensures v.PyStr? ==> r == NormalizeStr(v.s)
  {
    if !v.PyStr? {
      return "";
    }
    r := NormalizeText(v.s);
  }

  /** Text that is already lower-case, apostrophe-free, trimmed and singly
      spaced with blanks is left unchanged by normalisation. */
  lemma NormalizeFixesCanonical(s: string)
    requires NoUpper(s) && '\'' !in s && Trimmed(s) && OnlyBlanks(s) && NoSpaceRuns(s)
    ensures NormalizeStr(s) == s
  {
    ContractionsWellFormed();
    LowerFacts(s);
    ExpandWithoutApostrophe(s, Contractions);
    assert ExpandContractions(s) == s;
    CollapseFixesSpaced(s);
    assert TrimStart(s) == s;
    assert TrimEnd(s) == s;
  }

  lemma {:induction false} CollapseFixesSpaced(s: string)
    requires OnlyBlanks(s) && NoSpaceRuns(s)
    ensures CollapseSpaces(s) == s
  {
    if s != [] {
      SliceKeepsSpacing(s, 1, |s|);
      CollapseFixesSpaced(s[1..]);
      if IsSpace(s[0]) {
        assert TrimStart(s) == s[1..] by {
          assert |s| > 1 ==> !IsSpace(s[1]);
          if |s| > 1 {
            assert TrimStart(s[1..]) == s[1..];
          }
        }
        assert s == " " + s[1..];
      } else {
        assert s == [s[0]] + s[1..];
      }
    }
  }

  /** Normalising a second time, as the pattern and lemma matchers do,
      changes nothing unless the first pass left an apostrophe behind. */
  lemma RenormalizeWithoutApostrophe(s: string)
    requires '\'' !in NormalizeStr(s)
    ensures NormalizeStr(NormalizeStr(s)) == NormalizeStr(s)
  {
    NormalizedShape(s);
    NormalizeFixesCanonical(NormalizeStr(s));
  }

  /** Stripping a normalised text, as the clarification test does, changes
      nothing. */
  lemma StripNormalized(s: string)
    ensures Strip(NormalizeStr(s)) == NormalizeStr(s)
  {
    var r := NormalizeStr(s);
    NormalizedShape(s);
    assert TrimStart(r) == r;
    assert TrimEnd(r) == r;
  }
}
