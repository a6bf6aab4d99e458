/** From text to tokens, over ASCII letters: lower-casing, contractions, and the token pattern. */
module Tokeniser {
  import opened Vocabulary
  import opened Decimal

  // ---- text to words ----

  predicate IsSpace(c: char) { c == ' ' || '\t' <= c <= '\r' || 0x1c as char <= c <= 0x1f as char }

  /** `s.strip()`. */
  function Strip(s: string): (r: string)
    ensures |r| <= |s|
    ensures r != "" ==> !IsSpace(r[0]) && !IsSpace(r[|r| - 1])
  {
    if s != "" && IsSpace(s[0]) then Strip(s[1..])
    else if s != "" && IsSpace(s[|s| - 1]) then Strip(s[..|s| - 1])
    else s
  }

  function LowerChar(c: char): char { if 'A' <= c <= 'Z' then c - 'A' + 'a' else c }

  function Lower(s: string): (r: string)
    ensures |r| == |s| && forall i :: 0 <= i < |s| ==> r[i] == LowerChar(s[i])
  {
    if s == "" then "" else [LowerChar(s[0])] + Lower(s[1..])
  }

  predicate IsLower(s: string) { forall i :: 0 <= i < |s| ==> !('A' <= s[i] <= 'Z') }

  function WordEnd(s: string): (n: nat)
    ensures n <= |s| && (forall i :: 0 <= i < n ==> !IsSpace(s[i])) && (n < |s| ==> IsSpace(s[n]))
  {
    if s == "" || IsSpace(s[0]) then 0 else 1 + WordEnd(s[1..])
  }

  /** `s.split()`. */
  function Words(s: string): seq<string> {
    if s == "" then []
    else if IsSpace(s[0]) then Words(s[1..])
    else [s[..WordEnd(s)]] + Words(s[WordEnd(s)..])
  }

  /** `" ".join(words)`. */
  function Join(words: seq<string>): string {
    if words == [] then "" else if |words| == 1 then words[0] else words[0] + " " + Join(words[1..])
  }

  /** A word, or the words its contraction stands for. */
  function Expand(word: string): seq<string> {
    if word in CONTRACTIONS then CONTRACTIONS[word] else [word]
  }

  function ExpandAll(words: seq<string>): seq<string> {
    if words == [] then [] else Expand(words[0]) + ExpandAll(words[1..])
  }

  function Normalise(text: string): string { Join(ExpandAll(Words(Lower(text)))) }

  // ---- the token pattern ----

  predicate IsAlnum(c: char) { IsDigit(c) || 'a' <= c <= 'z' || 'A' <= c <= 'Z' }

  predicate IsJoiner(c: char) { c == '-' || c == '\'' }

  predicate InDigitGroup(c: char) { IsDigit(c) || c == ',' }

  function GroupRun(s: string): (n: nat)
    ensures n <= |s| && (forall i :: 0 <= i < n ==> InDigitGroup(s[i])) && (n < |s| ==> !InDigitGroup(s[n]))
  {
    if s == "" || !InDigitGroup(s[0]) then 0 else 1 + GroupRun(s[1..])
  }

  function LastDigit(s: string, n: nat): (k: nat)
    requires n <= |s|
    ensures k <= n && (k > 0 ==> IsDigit(s[k - 1])) && forall i :: k <= i < n ==> !IsDigit(s[i])
  {
    if n == 0 || IsDigit(s[n - 1]) then n else LastDigit(s, n - 1)
  }

  /** The longest prefix that starts and ends with a digit, with digits and commas between. */
  function DigitGroup(s: string): nat {
    if s == "" || !IsDigit(s[0]) then 0 else LastDigit(s, GroupRun(s))
  }

  function AlnumRun(s: string): (n: nat)
    ensures n <= |s| && (forall i :: 0 <= i < n ==> IsAlnum(s[i])) && (n < |s| ==> !IsAlnum(s[n]))
  {
    if s == "" || !IsAlnum(s[0]) then 0 else 1 + AlnumRun(s[1..])
  }

  /** The longest prefix of alphanumeric runs joined by single hyphens or apostrophes. */
  function WordLength(s: string): (n: nat)
    ensures n <= |s|
    ensures n > 0 <==> s != "" && IsAlnum(s[0])
    ensures forall i :: 0 <= i < n ==> IsAlnum(s[i]) || IsJoiner(s[i])
  {
    var n := AlnumRun(s);
    if n > 0 && n + 1 < |s| && IsJoiner(s[n]) && IsAlnum(s[n + 1]) then n + 1 + WordLength(s[n + 1..]) else n
  }

  /** The length of the token the text starts with; zero when no token starts here. */
  function TokenLength(s: string): (n: nat)
    ensures n <= |s|
  {
    if DigitGroup(s) >= 2 then DigitGroup(s) else WordLength(s)
  }

  /** Every token of the text, left to right. */
  function FindAll(s: string): seq<string> {
    if s == "" then []
    else if TokenLength(s) == 0 then FindAll(s[1..])
    else [s[..TokenLength(s)]] + FindAll(s[TokenLength(s)..])
  }

  function Tokenise(text: string): seq<string> { FindAll(Normalise(text)) }

  // ---- tokens are stable: read alone, or before a space or comma, they are found again ----

  predicate IsToken(t: string) { t != "" && TokenLength(t) == |t| && IsLower(t) }

  ghost predicate AreTokens(ts: seq<string>) { forall t <- ts :: IsToken(t) }

  ghost predicate SameToken(s: string, u: string, n: nat) {
    n <= |s| && n <= |u| && u[..n] == s[..n] && (n < |u| ==> u[n] == ' ' || u[n] == ',')
  }

  lemma {:induction false} DigitGroupIsLongest(s: string, n: nat)
    requires 0 < n <= |s| && IsDigit(s[0]) && IsDigit(s[n - 1])
    requires forall i :: 0 <= i < n ==> InDigitGroup(s[i])
    ensures DigitGroup(s) >= n
  {
    assert GroupRun(s) >= n;
  }

  lemma WordLengthStep(s: string, n: nat)
    requires n <= |s| && (forall i :: 0 <= i < n ==> IsAlnum(s[i])) && (n < |s| ==> !IsAlnum(s[n]))
    ensures WordLength(s)
         == if n > 0 && n + 1 < |s| && IsJoiner(s[n]) && IsAlnum(s[n + 1]) then n + 1 + WordLength(s[n + 1..]) else n
  {
    hide IsAlnum, IsJoiner;
    AlnumRunIs(s, n);
  }

  lemma AlnumRunIs(s: string, n: nat)
    requires n <= |s| && (forall i :: 0 <= i < n ==> IsAlnum(s[i])) && (n < |s| ==> !IsAlnum(s[n]))
    ensures AlnumRun(s) == n
  {
    hide IsAlnum;
  }

  lemma {:induction false} WordLengthIsLocal(s: string, u: string)
    requires WordLength(s) > 0 && SameToken(s, u, WordLength(s))
    ensures WordLength(u) == WordLength(s)
  {
    hide WordLength, IsAlnum, IsJoiner;
    var n, w := AlnumRun(s), WordLength(s);
    WordLengthStep(s, n);
    assert forall i :: 0 <= i < w ==> s[i] == s[..w][i] && u[i] == u[..w][i];
    if w > n {
      WordLengthStep(u, n);
      SameTokenDrops(s, u, w, n + 1);
      WordLengthIsLocal(s[n + 1..], u[n + 1..]);
    } else {
      SpaceAndCommaEndWords();
      WordLengthStep(u, n);
    }
  }

  lemma SpaceAndCommaEndWords()
    ensures !IsAlnum(' ') && !IsAlnum(',') && !IsJoiner(' ') && !IsJoiner(',')
  {
  }

  lemma SameTokenDrops(s: string, u: string, n: nat, k: nat)
    requires SameToken(s, u, n) && k <= n
    ensures SameToken(s[k..], u[k..], n - k)
  {
    assert s[k..][..n - k] == s[..n][k..] && u[k..][..n - k] == u[..n][k..];
  }

  lemma {:induction false} TokenLengthIsLocal(s: string, u: string)
    requires TokenLength(s) > 0 && SameToken(s, u, TokenLength(s))
    requires IsDigit(s[0]) && TokenLength(s) < |u| ==> u[TokenLength(s)] == ' '
    ensures TokenLength(u) == TokenLength(s)
  {
    var n := TokenLength(s);
    assert forall i :: 0 <= i < n ==> s[i] == s[..n][i] && u[i] == u[..n][i];
    if DigitGroup(s) >= 2 {
      DigitGroupIsLongest(u, n);
      assert GroupRun(u) == n;
    } else {
      WordLengthIsLocal(s, u);
      if DigitGroup(u) >= 2 {
        DigitGroupIsLongest(s, DigitGroup(u));
        assert false;
      }
    }
  }

  lemma {:induction false} FoundTokensAreTokens(s: string)
    requires IsLower(s)
    ensures AreTokens(FindAll(s))
  {
    if s != "" {
      var n := TokenLength(s);
      if n == 0 {
        FoundTokensAreTokens(s[1..]);
      } else {
        TokenLengthIsLocal(s, s[..n]);
        FoundTokensAreTokens(s[n..]);
        assert s[..n] != "" && TokenLength(s[..n]) == n && IsLower(s[..n]);
      }
    }
  }

  lemma TokenHasNoSpace(t: string)
    requires IsToken(t)
    ensures forall i :: 0 <= i < |t| ==> !IsSpace(t[i])
  {
  }

  lemma JoinNothing()
    ensures Join([]) == ""
  {
  }

  lemma SpaceStartsNoToken(s: string)
    requires s != "" && s[0] == ' '
    ensures TokenLength(s) == 0
  {
  }

  lemma JoinSplits(ts: seq<string>)
    requires ts != []
    ensures |ts[0]| <= |Join(ts)| && Join(ts)[..|ts[0]|] == ts[0]
    ensures var tail := Join(ts)[|ts[0]|..];
            if |ts| == 1 then tail == "" && ts == [ts[0]]
            else tail != "" && tail[0] == ' ' && tail[1..] == Join(ts[1..])
  {
  }

  /** Tokens joined by spaces are found one by one, up to what follows them. */
  lemma {:induction false} FindAllPrefix(ts: seq<string>, rest: string)
    requires ts != [] && AreTokens(ts) && (rest == "" || rest[0] == ' ')
    ensures FindAll(Join(ts) + rest) == ts + FindAll(rest)
  {
    hide TokenLength, Join;
    var s, t := Join(ts) + rest, ts[0];
    JoinSplits(ts);
    assert t in ts;
    assert s[..|t|] == t && s[|t|..] == Join(ts)[|t|..] + rest;
    assert TokenLength(s) == |t| by {
      assert |s| > |t| ==> s[|t|] == s[|t|..][0];
      TokenLengthIsLocal(t, s);
    }
    if |ts| > 1 {
      SpaceStartsNoToken(s[|t|..]);
      assert s[|t|..][1..] == Join(ts[1..]) + rest;
      FindAllPrefix(ts[1..], rest);
      assert ts == [t] + ts[1..];
    } else {
      assert s[|t|..] == rest;
    }
  }

  lemma FindAllJoin(ts: seq<string>)
    requires AreTokens(ts)
    ensures FindAll(Join(ts)) == ts
  {
    if ts != [] {
      FindAllPrefix(ts, "");
      assert Join(ts) + "" == Join(ts);
    }
  }

  ghost predicate AreWords(ws: seq<string>) {
    forall w <- ws :: w != "" && forall i :: 0 <= i < |w| ==> !IsSpace(w[i])
  }

  lemma {:induction false} WordsOfJoin(ws: seq<string>)
    requires AreWords(ws)
    ensures Words(Join(ws)) == ws
  {
    hide Join;
    if ws == [] {
      JoinNothing();
    } else {
      var s, w := Join(ws), ws[0];
      JoinSplits(ws);
      assert w in ws;
      assert forall i :: 0 <= i < |w| ==> s[i] == w[i];
      assert |ws| > 1 ==> s[|w|] == s[|w|..][0];
      assert WordEnd(s) == |w|;
      if |ws| > 1 {
        WordsOfJoin(ws[1..]);
        assert ws == [w] + ws[1..];
      }
    }
  }

  lemma WordsJoin(ts: seq<string>)
    requires AreTokens(ts)
    ensures Words(Join(ts)) == ts
  {
    forall t <- ts ensures t != "" && forall i :: 0 <= i < |t| ==> !IsSpace(t[i]) {
      TokenHasNoSpace(t);
    }
    WordsOfJoin(ts);
  }

  lemma JoinIsInjective(a: seq<string>, b: seq<string>)
    requires AreTokens(a) && AreTokens(b) && Join(a) == Join(b)
    ensures a == b
  {
    WordsJoin(a);
    WordsJoin(b);
  }
}
