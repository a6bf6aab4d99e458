/** From characters to words: where words and tokens begin and end, what contractions stand for, which words count. */
module Wording {
  import opened Wrappers
  import opened Tokeniser
  import Details
  import Transcripts
  import Vocabulary

  // ---- words ----

  /** A text splits into its words at every blank; without blanks it is one word, and nothing is no word. */
  lemma {:induction false} WordsSplit(a: string, c: char, b: string)
    requires Details.IsBlank(c)
    ensures Words(a + [c] + b) == Words(a) + Words(b)
    decreases |a|
  {
    hide Details.IsBlank, IsSpace, WordEnd;
    Details.BlankIsSpace(c);
    var s := a + [c] + b;
    if a == "" {
      assert s[1..] == b && s[0] == c;
      assert Words(a) + Words(b) == Words(b);
    } else if IsSpace(a[0]) {
      assert s[1..] == a[1..] + [c] + b;
      WordsSplit(a[1..], c, b);
    } else {
      WordEndsBefore(a, c, b);
      WordGoesOn(a);
      var n := WordEnd(a);
      assert s[n..] == a[n..] + [c] + b && s[..n] == a[..n];
      WordsSplit(a[n..], c, b);
      assert [a[..n]] + (Words(a[n..]) + Words(b)) == [a[..n]] + Words(a[n..]) + Words(b);
    }
  }

  lemma WordGoesOn(s: string)
    requires s != "" && !IsSpace(s[0])
    ensures WordEnd(s) > 0
  {
  }

  lemma {:induction false} WordEndsBefore(a: string, c: char, b: string)
    requires IsSpace(c)
    ensures WordEnd(a + [c] + b) == WordEnd(a)
    decreases |a|
  {
    var s := a + [c] + b;
    if a != "" && !IsSpace(a[0]) {
      assert s[1..] == a[1..] + [c] + b;
      WordEndsBefore(a[1..], c, b);
    }
  }

  lemma OneWord(w: string)
    requires forall i :: 0 <= i < |w| ==> !Details.IsBlank(w[i])
    ensures Words(w) == if w == "" then [] else [w]
  {
    forall i | 0 <= i < |w| ensures !IsSpace(w[i]) { Details.BlankIsSpace(w[i]); }
    if w != "" {
      assert WordEnd(w) == |w|;
      assert w[|w|..] == "" && w[..|w|] == w;
    }
  }

  // ---- contractions ----

  function OfPersons(w: string): Option<seq<string>> {
    if w == "i'd" then Some(["i", "would"]) else if w == "i'll" then Some(["i", "will"])
    else if w == "i'm" then Some(["i", "am"]) else if w == "i've" then Some(["i", "have"])
    else if w == "we'd" then Some(["we", "would"]) else if w == "we'll" then Some(["we", "will"])
    else if w == "we're" then Some(["we", "are"]) else if w == "we've" then Some(["we", "have"])
    else None
  }

  function OfThings(w: string): Option<seq<string>> {
    if w == "what's" then Some(["what", "is"]) else if w == "where's" then Some(["where", "is"])
    else if w == "who's" then Some(["who", "is"]) else if w == "that's" then Some(["that", "is"])
    else if w == "it's" then Some(["it", "is"]) else if w == "let's" then Some(["let", "us"])
    else None
  }

  function OfDenials(w: string): Option<seq<string>> {
    if w == "don't" then Some(["do", "not"]) else if w == "doesn't" then Some(["does", "not"])
    else if w == "can't" then Some(["cannot"]) else if w == "won't" then Some(["will", "not"])
    else if w == "couldn't" then Some(["could", "not"]) else if w == "wouldn't" then Some(["would", "not"])
    else if w == "shouldn't" then Some(["should", "not"]) else if w == "isn't" then Some(["is", "not"])
    else if w == "aren't" then Some(["are", "not"])
    else None
  }

  /** What a contraction stands for; any other word stands for itself. */
  function Spoken(w: string): seq<string> {
    if OfPersons(w).Some? then OfPersons(w).value
    else if OfThings(w).Some? then OfThings(w).value
    else if OfDenials(w).Some? then OfDenials(w).value
    else [w]
  }

  lemma WhatAWordStandsFor(w: string)
    ensures Expand(w) == Spoken(w)
  {
    hide OfPersons, OfThings, OfDenials, Vocabulary.CONTRACTIONS;
    if OfPersons(w).Some? { PersonsAreKnown(w); }
    if OfThings(w).Some? { ThingsAreKnown(w); }
    if OfDenials(w).Some? { DenialsAreKnown(w); }
    if w in Vocabulary.CONTRACTIONS { NoOthersAreKnown(w); }
  }

  lemma PersonsAreKnown(w: string)
    requires OfPersons(w).Some?
    ensures w in Vocabulary.CONTRACTIONS && Vocabulary.CONTRACTIONS[w] == OfPersons(w).value
  {
  }

  lemma ThingsAreKnown(w: string)
    requires OfThings(w).Some?
    ensures w in Vocabulary.CONTRACTIONS && Vocabulary.CONTRACTIONS[w] == OfThings(w).value
  {
  }

  lemma DenialsAreKnown(w: string)
    requires OfDenials(w).Some?
    ensures w in Vocabulary.CONTRACTIONS && Vocabulary.CONTRACTIONS[w] == OfDenials(w).value
  {
  }

  lemma NoOthersAreKnown(w: string)
    requires w in Vocabulary.CONTRACTIONS
    ensures OfPersons(w).Some? || OfThings(w).Some? || OfDenials(w).Some?
  {
  }

  // ---- the normalised text ----

  /** The words apart by single spaces. */
  function Spaced(words: seq<string>): string {
    if words == [] then "" else words[0] + Tail(words[1..])
  }

  function Tail(words: seq<string>): string {
    if words == [] then "" else " " + words[0] + Tail(words[1..])
  }

  lemma {:induction false} JoinIsSpaced(words: seq<string>)
    ensures Join(words) == Spaced(words)
  {
    if |words| > 1 {
      JoinIsSpaced(words[1..]);
      assert words[0] + " " + (words[1] + Tail(words[1..][1..])) == words[0] + (" " + words[1] + Tail(words[1..][1..]));
    }
  }

  /** The words of a text, in lower case and with the contractions spelled out. */
  function SpokenWords(text: string): seq<string> { ExpandAll(Words(Lower(text))) }

  lemma NormalisedIsSpoken(text: string)
    ensures Normalise(text) == Spaced(SpokenWords(text))
  {
    hide Words, ExpandAll;
    JoinIsSpaced(SpokenWords(text));
  }

  lemma {:induction false} ExpandConcat(a: seq<string>, b: seq<string>)
    ensures ExpandAll(a + b) == ExpandAll(a) + ExpandAll(b)
  {
    hide Expand;
    if a == [] {
      assert a + b == b;
    } else {
      assert (a + b)[1..] == a[1..] + b;
      ExpandConcat(a[1..], b);
    }
  }

  lemma BlankIsNoCapital(c: char)
    requires Details.IsBlank(c)
    ensures LowerChar(c) == c
  {
  }

  /** Blanks part the words. */
  lemma SpokenSplit(a: string, c: char, b: string)
    requires Details.IsBlank(c)
    ensures SpokenWords(a + [c] + b) == SpokenWords(a) + SpokenWords(b)
  {
    hide Words, ExpandAll, Details.IsBlank, LowerChar;
    BlankIsNoCapital(c);
    assert Lower(a + [c] + b) == Lower(a) + [c] + Lower(b);
    WordsSplit(Lower(a), c, Lower(b));
    ExpandConcat(Words(Lower(a)), Words(Lower(b)));
  }

  /** A text without blanks is one word, whatever its letter case. */
  lemma SpokenOnce(w: string, lower: string)
    requires forall i :: 0 <= i < |w| ==> !Details.IsBlank(w[i])
    requires Transcripts.IsLowered(w, lower)
    ensures SpokenWords(w) == if w == "" then [] else Spoken(lower)
  {
    hide Spoken, Words, Expand, Details.IsBlank;
    Transcripts.LowerIsLowered(w, lower);
    forall i | 0 <= i < |lower| ensures !Details.IsBlank(lower[i]) { CapitalIsNoBlank(w[i], lower[i]); }
    OneWord(lower);
    WhatAWordStandsFor(lower);
    if w != "" {
      assert [lower][1..] == [] && ExpandAll([]) == [] && Expand(lower) + [] == Expand(lower);
      assert ExpandAll([lower]) == Expand(lower);
    }
  }

  lemma CapitalIsNoBlank(c: char, d: char)
    requires !Details.IsBlank(c) && d == if 'A' <= c <= 'Z' then (c as int + 32) as char else c
    ensures !Details.IsBlank(d)
  {
  }

  // ---- tokens ----

  predicate IsLetterOrDigit(c: char) { '0' <= c <= '9' || 'a' <= c <= 'z' || 'A' <= c <= 'Z' }

  /** The letters and digits of a text, in order. */
  function Letters(s: string): string {
    if s == "" then "" else (if IsLetterOrDigit(s[0]) then [s[0]] else "") + Letters(s[1..])
  }

  function AllLetters(tokens: seq<string>): string {
    if tokens == [] then "" else Letters(tokens[0]) + AllLetters(tokens[1..])
  }

  lemma {:induction false} LettersConcat(a: string, b: string)
    ensures Letters(a + b) == Letters(a) + Letters(b)
  {
    hide IsLetterOrDigit;
    if a == "" {
      assert a + b == b;
    } else {
      var first := if IsLetterOrDigit(a[0]) then [a[0]] else "";
      assert (a + b)[1..] == a[1..] + b && (a + b)[0] == a[0];
      LettersConcat(a[1..], b);
      assert first + (Letters(a[1..]) + Letters(b)) == first + Letters(a[1..]) + Letters(b);
    }
  }

  /** Every letter and every digit of a text is in exactly one of its tokens, and they come in the order of the text. */
  lemma {:induction false} NoLetterIsLost(s: string)
    ensures AllLetters(FindAll(s)) == Letters(s)
    decreases |s|
  {
    hide TokenLength;
    if s == "" {
    } else if TokenLength(s) == 0 {
      NoTokenNoLetter(s);
      NoLetterIsLost(s[1..]);
    } else {
      var n := TokenLength(s);
      assert s == s[..n] + s[n..];
      LettersConcat(s[..n], s[n..]);
      NoLetterIsLost(s[n..]);
    }
  }

  lemma NoTokenNoLetter(s: string)
    requires s != "" && TokenLength(s) == 0
    ensures !IsLetterOrDigit(s[0])
  {
  }

  predicate IsDigitOrComma(c: char) { '0' <= c <= '9' || c == ',' }

  /** At least two characters, digits at both ends, digits and commas between. */
  predicate IsGroup(t: string) {
    && |t| >= 2 && '0' <= t[0] <= '9' && '0' <= t[|t| - 1] <= '9'
    && forall i :: 0 <= i < |t| ==> IsDigitOrComma(t[i])
  }

  /** Letters and digits at both ends, and between them single hyphens and apostrophes as well. */
  predicate IsJoined(t: string) {
    && t != "" && IsLetterOrDigit(t[0]) && IsLetterOrDigit(t[|t| - 1])
    && (forall i :: 0 <= i < |t| ==> IsLetterOrDigit(t[i]) || t[i] == '-' || t[i] == '\'')
    && forall i :: 0 <= i < |t| - 1 ==> IsLetterOrDigit(t[i]) || IsLetterOrDigit(t[i + 1])
  }

  lemma GroupIsGroup(s: string)
    ensures DigitGroup(s) <= |s|
    ensures DigitGroup(s) >= 2 ==> IsGroup(s[..DigitGroup(s)])
    ensures forall n :: 2 <= n <= |s| && IsGroup(s[..n]) ==> n <= DigitGroup(s)
  {
    forall n | 2 <= n <= |s| && IsGroup(s[..n]) ensures n <= DigitGroup(s) {
      assert forall i :: 0 <= i < n ==> s[i] == s[..n][i];
      DigitGroupIsLongest(s, n);
    }
  }

  lemma {:induction false} WordIsJoined(s: string)
    ensures WordLength(s) > 0 ==> IsJoined(s[..WordLength(s)])
    decreases |s|
  {
    hide WordLength;
    var n := AlnumRun(s);
    WordLengthStep(s, n);
    var w := WordLength(s);
    if w > n {
      var rest := s[n + 1..];
      WordIsJoined(rest);
      JoinedJoined(s, n, w);
    }
  }

  lemma JoinedJoined(s: string, n: nat, w: nat)
    requires 0 < n && n + 1 < w <= |s| && IsJoined(s[n + 1..][..w - n - 1])
    requires (forall i :: 0 <= i < n ==> IsLetterOrDigit(s[i])) && (s[n] == '-' || s[n] == '\'')
    ensures IsJoined(s[..w])
  {
    var part := s[n + 1..][..w - n - 1];
    assert forall i :: 0 <= i < |part| ==> part[i] == s[n + 1 + i];
    forall i | 0 <= i < w ensures IsLetterOrDigit(s[i]) || s[i] == '-' || s[i] == '\'' {
      if i > n { assert s[i] == part[i - n - 1]; }
    }
    forall i | 0 <= i < w - 1 ensures IsLetterOrDigit(s[i]) || IsLetterOrDigit(s[i + 1]) {
      if i > n { assert s[i] == part[i - n - 1] && s[i + 1] == part[i - n]; }
      if i == n { assert s[i + 1] == part[0]; }
    }
    assert s[w - 1] == part[|part| - 1];
  }

  lemma {:induction false} JoinedIsWithin(s: string, m: nat)
    requires m <= |s| && IsJoined(s[..m])
    ensures m <= WordLength(s)
    decreases |s|
  {
    hide WordLength;
    var t, n := s[..m], AlnumRun(s);
    WordLengthStep(s, n);
    assert forall i :: 0 <= i < m ==> t[i] == s[i];
    if n < m {
      assert n + 1 < m && !IsLetterOrDigit(t[n]) && IsLetterOrDigit(t[n + 1]);
      var rest := s[n + 1..];
      assert rest[..m - n - 1] == t[n + 1..];
      assert IsJoined(t[n + 1..]);
      JoinedIsWithin(rest, m - n - 1);
    }
  }

  /**
   * The token that a text starts with: the longest group of digits and commas if there is one, otherwise the longest
   * joined run of letters and digits; no token where neither starts.
   */
  lemma WhatTokenStarts(s: string)
    ensures var n := TokenLength(s);
            if exists m :: 2 <= m <= |s| && IsGroup(s[..m]) then
              n <= |s| && IsGroup(s[..n]) && forall m :: 2 <= m <= |s| && IsGroup(s[..m]) ==> m <= n
            else
              && n <= |s| && (n > 0 ==> IsJoined(s[..n]))
              && forall m :: 0 <= m <= |s| && IsJoined(s[..m]) ==> m <= n
  {
    hide WordLength, DigitGroup, IsGroup, IsJoined;
    GroupIsGroup(s);
    WordIsJoined(s);
    forall m | 0 <= m <= |s| && IsJoined(s[..m]) ensures m <= WordLength(s) { JoinedIsWithin(s, m); }
  }
}
