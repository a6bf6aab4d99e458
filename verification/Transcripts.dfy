/** Which utterances accept and decline in the realtime engine, and what each of them does to the tables. */
module Transcripts {
  import opened Wrappers
  import opened Enquiries
  import opened Realtime
  import Details
  import Effects
  import Tokeniser

  // ---- the two patterns ----

  predicate IsPhraseOfAcceptance(phrase: string) {
    phrase == "confirm" || phrase == "confirmed" || phrase == "go ahead" || phrase == "create it" || phrase == "proceed"
  }

  predicate IsPhraseOfRefusal(phrase: string) {
    phrase == "cancel" || phrase == "cancel it" || phrase == "do not create it" || phrase == "stop"
  }

  /** Blanks, commas, full stops and hyphens. */
  predicate AreSeparators(s: string) {
    forall i :: 0 <= i < |s| ==> Details.IsBlank(s[i]) || s[i] == ',' || s[i] == '.' || s[i] == '-'
  }

  /** The text in lower case, letter by letter. */
  predicate IsLowered(text: string, lower: string) {
    && |lower| == |text|
    && forall i :: 0 <= i < |text| ==>
         lower[i] == if 'A' <= text[i] <= 'Z' then (text[i] as int + 32) as char else text[i]
  }

  /** The word with separators behind it, or nothing; then the phrase; then at most one mark. */
  predicate IsParsed(
      lower: string, word: string, opening: string, separators: string, phrase: string, mark: string) {
    && lower == opening + separators + phrase + mark
    && AreSeparators(separators) && (mark == "" || mark == "." || mark == "!")
    && (opening == word || (opening == "" && separators == ""))
  }

  ghost predicate AcceptsText(lower: string) {
    exists opening, separators, phrase, mark ::
      IsParsed(lower, "yes", opening, separators, phrase, mark) && IsPhraseOfAcceptance(phrase)
  }

  ghost predicate DeclinesText(lower: string) {
    exists opening, separators, phrase, mark ::
      IsParsed(lower, "no", opening, separators, phrase, mark) && IsPhraseOfRefusal(phrase)
  }

  ghost predicate IsAcceptance(utterance: string) {
    exists text, lower :: Details.IsTrimmed(utterance, text) && IsLowered(text, lower) && AcceptsText(lower)
  }

  ghost predicate IsRefusal(utterance: string) {
    exists text, lower :: Details.IsTrimmed(utterance, text) && IsLowered(text, lower) && DeclinesText(lower)
  }

  lemma LowerIsLowered(text: string, lower: string)
    ensures IsLowered(text, lower) <==> lower == Tokeniser.Lower(text)
  {
  }

  lemma SeparatorIsSkipped(c: char)
    ensures (Tokeniser.IsSpace(c) || c in {',', '.', '-'}) <==>
            (Details.IsBlank(c) || c == ',' || c == '.' || c == '-')
  {
    Details.BlankIsSpace(c);
  }

  lemma {:induction false} SkippedAreSeparators(s: string)
    ensures var n := |s| - |SkipSeparators(s)|;
            0 <= n && s[n..] == SkipSeparators(s) && AreSeparators(s[..n])
  {
    hide Details.IsBlank, Tokeniser.IsSpace;
    if s != "" && (Tokeniser.IsSpace(s[0]) || s[0] in {',', '.', '-'}) {
      SeparatorIsSkipped(s[0]);
      SkippedAreSeparators(s[1..]);
      OneMoreSeparator(s, |s[1..]| - |SkipSeparators(s[1..])|);
    }
  }

  lemma OneMoreSeparator(s: string, n: nat)
    requires s != "" && n <= |s[1..]| && AreSeparators(s[1..][..n])
    requires Details.IsBlank(s[0]) || s[0] == ',' || s[0] == '.' || s[0] == '-'
    ensures AreSeparators(s[..n + 1]) && s[1..][n..] == s[n + 1..]
  {
    hide Details.IsBlank;
    forall i | 0 <= i < n + 1
      ensures Details.IsBlank(s[i]) || s[i] == ',' || s[i] == '.' || s[i] == '-'
    {
      if i > 0 { assert s[1..][..n][i - 1] == s[i]; }
    }
  }

  lemma {:induction false} SeparatorsAreSkipped(separators: string, rest: string)
    requires AreSeparators(separators)
    requires rest != "" && 'a' <= rest[0] <= 'z'
    ensures SkipSeparators(separators + rest) == rest
  {
    hide Details.IsBlank, Tokeniser.IsSpace;
    if separators == "" {
      assert separators + rest == rest;
      LetterIsNoSeparator(rest[0]);
    } else {
      SeparatorIsSkipped(separators[0]);
      assert (separators + rest)[1..] == separators[1..] + rest;
      assert forall i :: 0 <= i < |separators[1..]| ==> separators[1..][i] == separators[i + 1];
      SeparatorsAreSkipped(separators[1..], rest);
    }
  }

  lemma LetterIsNoSeparator(c: char)
    requires 'a' <= c <= 'z'
    ensures !Tokeniser.IsSpace(c) && c !in {',', '.', '-'}
  {
  }

  /** A phrase, with at most one mark behind it. */
  lemma MarkedPhrase(text: string, phrases: set<string>)
    ensures IsOneOf(text, phrases) <==>
            exists phrase, mark ::
              text == phrase + mark && (mark == "" || mark == "." || mark == "!") && phrase in phrases
  {
    if text in phrases { assert text == text + ""; }
    if text != "" && text[|text| - 1] in {'.', '!'} && text[..|text| - 1] in phrases {
      var mark := [text[|text| - 1]];
      assert text == text[..|text| - 1] + mark && (mark == "." || mark == "!");
    }
    forall phrase, mark | text == phrase + mark && (mark == "" || mark == "." || mark == "!") && phrase in phrases
      ensures IsOneOf(text, phrases)
    {
      if mark == "" { assert text == phrase; }
      else { assert text[..|text| - 1] == phrase; }
    }
  }

  /** The text parsed with this opening word or none, for one of these phrases. */
  ghost predicate Parses(lower: string, word: string, phrases: set<string>) {
    exists opening, separators, phrase, mark ::
      IsParsed(lower, word, opening, separators, phrase, mark) && phrase in phrases
  }

  /** Phrases that begin with a letter, and not with that of the opening word. */
  predicate AreApart(word: string, phrases: set<string>) {
    word != "" && forall p <- phrases :: p != "" && 'a' <= p[0] <= 'z' && p[0] != word[0]
  }

  lemma ParsedIsHeard(
      lower: string, word: string, phrases: set<string>, opening: string, separators: string, phrase: string,
      mark: string)
    requires AreApart(word, phrases) && IsParsed(lower, word, opening, separators, phrase, mark) && phrase in phrases
    ensures IsOneOf(AfterOpening(lower, word), phrases)
  {
    hide SkipSeparators, IsOneOf, AreSeparators;
    MarkedPhrase(phrase + mark, phrases);
    if opening == word {
      assert lower == word + (separators + (phrase + mark));
      assert lower[|word|..] == separators + (phrase + mark);
      SeparatorsAreSkipped(separators, phrase + mark);
    } else {
      assert lower == phrase + mark && lower[0] == phrase[0];
    }
  }

  lemma HeardIsParsed(lower: string, word: string, phrases: set<string>)
    requires IsOneOf(AfterOpening(lower, word), phrases)
    ensures Parses(lower, word, phrases)
  {
    hide SkipSeparators, IsOneOf, AreSeparators, IsParsed;
    MarkedPhrase(AfterOpening(lower, word), phrases);
    var phrase, mark :| AfterOpening(lower, word) == phrase + mark
      && (mark == "" || mark == "." || mark == "!") && phrase in phrases;
    if word <= lower {
      OpenedIsParsed(lower, word, phrase, mark);
    } else {
      UnopenedIsParsed(lower, word, phrase, mark);
    }
  }

  lemma OpenedIsParsed(lower: string, word: string, phrase: string, mark: string)
    requires word <= lower && SkipSeparators(lower[|word|..]) == phrase + mark
    requires mark == "" || mark == "." || mark == "!"
    ensures exists separators :: IsParsed(lower, word, word, separators, phrase, mark)
  {
    hide SkipSeparators, AreSeparators;
    var rest := lower[|word|..];
    SkippedAreSeparators(rest);
    var n := |rest| - |SkipSeparators(rest)|;
    assert lower == word + rest && rest == rest[..n] + rest[n..];
    assert lower == word + rest[..n] + phrase + mark;
    assert IsParsed(lower, word, word, rest[..n], phrase, mark);
  }

  lemma UnopenedIsParsed(lower: string, word: string, phrase: string, mark: string)
    requires lower == phrase + mark && (mark == "" || mark == "." || mark == "!")
    ensures IsParsed(lower, word, "", "", phrase, mark)
  {
    assert lower == "" + "" + phrase + mark;
  }

  lemma HeardIffParsed(lower: string, word: string, phrases: set<string>)
    requires AreApart(word, phrases)
    ensures IsOneOf(AfterOpening(lower, word), phrases) <==> Parses(lower, word, phrases)
  {
    hide IsOneOf, AfterOpening, IsParsed, AreApart;
    if IsOneOf(AfterOpening(lower, word), phrases) { HeardIsParsed(lower, word, phrases); }
    if Parses(lower, word, phrases) {
      var opening, separators, phrase, mark :|
        IsParsed(lower, word, opening, separators, phrase, mark) && phrase in phrases;
      ParsedIsHeard(lower, word, phrases, opening, separators, phrase, mark);
    }
  }

  lemma PhrasesOfAcceptance()
    ensures forall p :: p in Confirmations() <==> IsPhraseOfAcceptance(p)
    ensures AreApart("yes", Confirmations())
  {
  }

  lemma PhrasesOfRefusal()
    ensures forall p :: p in Cancellations() <==> IsPhraseOfRefusal(p)
    ensures AreApart("no", Cancellations())
  {
  }

  lemma TrimmedAndLowered(utterance: string, text: string, lower: string)
    ensures Details.IsTrimmed(utterance, text) && IsLowered(text, lower) <==>
              text == Tokeniser.Strip(utterance) && lower == Tokeniser.Lower(text)
  {
    hide Details.IsTrimmed, IsLowered, Tokeniser.Strip, Tokeniser.Lower;
    Details.WhatIsStripped(utterance, text);
    LowerIsLowered(text, lower);
  }

  /** Exactly which utterances accept: the blanks around them and their letter case do not matter. */
  lemma WhatAccepts(utterance: string)
    ensures Accepts(utterance) <==> IsAcceptance(utterance)
  {
    hide IsOneOf, AfterOpening, IsParsed, Confirmations, IsPhraseOfAcceptance, Details.IsTrimmed, IsLowered,
         Tokeniser.Strip, Tokeniser.Lower, AreApart;
    var lower := Tokeniser.Lower(Tokeniser.Strip(utterance));
    PhrasesOfAcceptance();
    HeardIffParsed(lower, "yes", Confirmations());
    assert AcceptsText(lower) <==> Parses(lower, "yes", Confirmations());
    TrimmedAndLowered(utterance, Tokeniser.Strip(utterance), lower);
    if text, low :| Details.IsTrimmed(utterance, text) && IsLowered(text, low) && AcceptsText(low) {
      TrimmedAndLowered(utterance, text, low);
    }
  }

  /** Exactly which utterances decline. */
  lemma WhatDeclines(utterance: string)
    ensures Declines(utterance) <==> IsRefusal(utterance)
  {
    hide IsOneOf, AfterOpening, IsParsed, Cancellations, IsPhraseOfRefusal, Details.IsTrimmed, IsLowered,
         Tokeniser.Strip, Tokeniser.Lower, AreApart;
    var lower := Tokeniser.Lower(Tokeniser.Strip(utterance));
    PhrasesOfRefusal();
    HeardIffParsed(lower, "no", Cancellations());
    assert DeclinesText(lower) <==> Parses(lower, "no", Cancellations());
    TrimmedAndLowered(utterance, Tokeniser.Strip(utterance), lower);
    if text, low :| Details.IsTrimmed(utterance, text) && IsLowered(text, low) && DeclinesText(low) {
      TrimmedAndLowered(utterance, text, low);
    }
  }

  // ---- what they do ----

  /** The row after a confirmation at this time, as its owner asked for it. */
  predicate IsConfirmedRow(before: Confirmation, after: Confirmation, own: bool, now: real) {
    after == if own && before.status == Pending then
               if now < before.expiresAt then before.(status := Confirmed, confirmedAt := Some(now))
               else before.(status := Expired)
             else before
  }

  /** The row after a cancellation. */
  predicate IsCancelledRow(before: Confirmation, after: Confirmation, own: bool) {
    after == if own && (before.status == Pending || before.status == Confirmed) then before.(status := Cancelled)
             else before
  }

  /**
   * One transcript and the staged action. An acceptance confirms the staged row in time and flags the action, or else
   * drops it; a refusal cancels the staged row and drops the action; anything else, and everything when nothing is
   * staged, changes nothing. No other row is touched.
   */
  lemma WhatATranscriptDoes(db: Db, s: Session, utterance: string, now: real)
    ensures var (after, t, seen) := Observe(db, s, utterance, now);
            if s.pending.None? || (!IsAcceptance(utterance) && !IsRefusal(utterance)) then
              after == db && t == s && seen == Observed
            else
              var p := s.pending.value;
              var own := Effects.IsOwn(db, s.owner, p.confirmation);
              && Effects.OnlyRow(db, after, p.confirmation)
              && t == s.(pending := t.pending)
              && if IsAcceptance(utterance) then
                   && (p.confirmation < |db.confirmations| ==>
                         IsConfirmedRow(
                           db.confirmations[p.confirmation], after.confirmations[p.confirmation], own, now))
                   && if own && db.confirmations[p.confirmation].status == Pending
                         && now < db.confirmations[p.confirmation].expiresAt
                      then t.pending == Some(p.(confirmed := true)) && seen == ConfirmationRecorded
                      else t.pending == None && seen == ConfirmationLost
                 else
                   && (p.confirmation < |db.confirmations| ==>
                         IsCancelledRow(db.confirmations[p.confirmation], after.confirmations[p.confirmation], own))
                   && t.pending == None && seen == CancellationRecorded
  {
    hide Accepts, Declines, IsAcceptance, IsRefusal, Confirm, Cancel;
    WhatAccepts(utterance);
    WhatDeclines(utterance);
    NeverBoth(utterance);
    if s.pending.Some? {
      Effects.WhatConfirmDoes(db, s.owner, s.pending.value.confirmation, now);
      Effects.WhatCancelDoes(db, s.owner, s.pending.value.confirmation);
    }
  }
}
