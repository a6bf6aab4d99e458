/** Which terse messages the local engine hears as an acceptance or a refusal, word by word. */
module Refusals {
  import opened Dialogue
  import opened DialogueLaws
  import opened Tokeniser
  import ReadBack
  import Vocabulary

  // ---- a phrase in a text of words ----

  /** A word in one piece. */
  predicate IsSolid(word: string) { word != "" && forall i :: 0 <= i < |word| ==> word[i] != ' ' }

  predicate AreSolid(words: seq<string>) { forall w <- words :: IsSolid(w) }

  predicate EndsWith(word: string, part: string) {
    |part| <= |word| && word[|word| - |part|..] == part
  }

  /** The words start with the phrase; what follows its last word in the same word is left open. */
  predicate StartsWith(words: seq<string>, phrase: seq<string>)
    requires phrase != []
  {
    words != []
    && if |phrase| == 1 then phrase[0] <= words[0]
       else words[0] == phrase[0] && StartsWith(words[1..], phrase[1..])
  }

  /**
   * The phrase is found in the words as the code looks for it, without regard to where words begin and end: some word
   * ends with its first word, the next ones are its middle ones, and the one after starts with its last.
   */
  predicate IsSaid(words: seq<string>, phrase: seq<string>)
    requires |phrase| >= 2
  {
    words != []
    && ((EndsWith(words[0], phrase[0]) && StartsWith(words[1..], phrase[1..])) || IsSaid(words[1..], phrase))
  }

  lemma TailIsSolid(words: seq<string>)
    requires AreSolid(words) && words != []
    ensures AreSolid(words[1..]) && IsSolid(words[0])
  {
    assert words[0] in words && forall w <- words[1..] :: w in words;
  }

  /** The text from some point inside the first word on. */
  function TextFrom(part: string, rest: seq<string>): string {
    if rest == [] then part else part + " " + Join(rest)
  }

  lemma JoinIsText(words: seq<string>)
    requires words != []
    ensures Join(words) == TextFrom(words[0], words[1..])
  {
  }

  lemma TextAt(part: string, rest: seq<string>, k: nat)
    requires k < |TextFrom(part, rest)|
    ensures k < |part| ==> TextFrom(part, rest)[k] == part[k]
    ensures k == |part| ==> TextFrom(part, rest)[k] == ' '
  {
  }

  /** A plain word is a prefix of a text exactly if it is one of its first word. */
  lemma WordIsPrefix(word: string, part: string, rest: seq<string>)
    requires IsSolid(word)
    ensures word <= TextFrom(part, rest) <==> word <= part
  {
    var text := TextFrom(part, rest);
    assert text[..|part|] == part;
    if |part| < |text| { TextAt(part, rest, |part|); }
    assert word <= text ==> forall k :: 0 <= k < |word| ==> text[k] == word[k];
  }

  /** A word with a space after it is a prefix exactly if it is the whole first word and the rest goes on. */
  lemma PhraseIsPrefix(word: string, tail: string, part: string, rest: seq<string>)
    requires IsSolid(word) && (part == "" || IsSolid(part))
    ensures word + " " + tail <= TextFrom(part, rest) <==> rest != [] && part == word && tail <= Join(rest)
  {
    var text, phrase := TextFrom(part, rest), word + " " + tail;
    assert phrase[|word|] == ' ' && phrase[..|word|] == word && phrase[|word| + 1..] == tail;
    assert text[..|part|] == part;
    WordIsPrefix(word, part, rest);
    if |word| < |text| { TextAt(part, rest, |word|); }
    assert phrase <= text ==> word <= text && text[|word|] == ' ';
    if rest != [] {
      assert text[|part| + 1..] == Join(rest);
      assert part == word ==> (phrase <= text <==> tail <= Join(rest)) by {
        if part == word { SamePrefix(part + " ", tail, Join(rest)); }
      }
    }
  }

  lemma SamePrefix(head: string, a: string, b: string)
    ensures head + a <= head + b <==> a <= b
  {
    if head + a <= head + b {
      assert (head + a)[|head|..] == a && (head + b)[|head|..] == b;
    }
    if a <= b { assert (head + b)[..|head + a|] == head + a; }
  }

  lemma {:induction false} PrefixIsStart(part: string, rest: seq<string>, phrase: seq<string>)
    requires (part == "" || IsSolid(part)) && AreSolid(rest) && AreSolid(phrase) && phrase != []
    ensures Join(phrase) <= TextFrom(part, rest) <==> StartsWith([part] + rest, phrase)
    decreases |phrase|
  {
    hide TextFrom, IsSolid;
    TailIsSolid(phrase);
    assert ([part] + rest)[1..] == rest;
    if |phrase| == 1 {
      WordIsPrefix(phrase[0], part, rest);
    } else {
      PhraseIsPrefix(phrase[0], Join(phrase[1..]), part, rest);
      if rest != [] {
        TailIsSolid(rest);
        JoinIsText(rest);
        assert [rest[0]] + rest[1..] == rest;
        PrefixIsStart(rest[0], rest[1..], phrase[1..]);
      }
    }
  }

  lemma JoinStarts(phrase: seq<string>)
    requires AreSolid(phrase) && phrase != []
    ensures Join(phrase) != "" && Join(phrase)[0] != ' '
  {
    assert phrase[0] in phrase;
  }

  /** The text after one character: inside the first word, or at the start of the next. */
  lemma TextAfterOne(part: string, rest: seq<string>)
    requires TextFrom(part, rest) != ""
    ensures part != "" ==> TextFrom(part, rest)[1..] == TextFrom(part[1..], rest)
    ensures part == "" ==> rest != [] && TextFrom(part, rest)[0] == ' '
                           && TextFrom(part, rest)[1..] == TextFrom(rest[0], rest[1..])
  {
    if part != "" && rest != [] {
      assert (part + " " + Join(rest))[1..] == part[1..] + " " + Join(rest);
    }
    if part == "" && rest != [] {
      JoinIsText(rest);
      assert ("" + " " + Join(rest))[1..] == Join(rest);
    }
  }

  /** Looking for a phrase character by character is looking for it word by word. */
  lemma {:induction false} FoundIsSaid(part: string, rest: seq<string>, phrase: seq<string>)
    requires (part == "" || IsSolid(part)) && AreSolid(rest) && AreSolid(phrase) && |phrase| >= 2
    ensures Contains(TextFrom(part, rest), Join(phrase))
       <==> (EndsWith(part, phrase[0]) && StartsWith(rest, phrase[1..])) || IsSaid(rest, phrase)
    decreases |rest|, |part|
  {
    hide TextFrom, Join;
    var text := TextFrom(part, rest);
    JoinStarts(phrase);
    TailIsSolid(phrase);
    PrefixIsStart(part, rest, phrase);
    assert ([part] + rest)[1..] == rest;
    if text == "" {
      NoTextNoWords(part, rest);
    } else {
      TextAfterOne(part, rest);
      if part != "" {
        FoundIsSaid(part[1..], rest, phrase);
        EndsOrEndsLater(part, phrase[0]);
      } else {
        TailIsSolid(rest);
        FoundIsSaid(rest[0], rest[1..], phrase);
      }
    }
  }

  lemma NoTextNoWords(part: string, rest: seq<string>)
    requires TextFrom(part, rest) == ""
    ensures part == "" && rest == []
  {
  }

  lemma EndsOrEndsLater(word: string, part: string)
    requires word != ""
    ensures EndsWith(word, part) <==> word == part || EndsWith(word[1..], part)
  {
    if |part| < |word| { assert word[1..][|word| - 1 - |part|..] == word[|word| - |part|..]; }
  }

  /** A single word is found exactly inside one of the words. */
  lemma {:induction false} FoundIsInside(part: string, rest: seq<string>, word: string)
    requires (part == "" || IsSolid(part)) && AreSolid(rest) && IsSolid(word)
    ensures Contains(TextFrom(part, rest), word)
       <==> Contains(part, word) || exists w <- rest :: Contains(w, word)
    decreases |rest|, |part|
  {
    hide TextFrom, Join;
    WordIsPrefix(word, part, rest);
    if TextFrom(part, rest) == "" {
      NoTextNoWords(part, rest);
    } else {
      TextAfterOne(part, rest);
      if part != "" {
        FoundIsInside(part[1..], rest, word);
      } else {
        TailIsSolid(rest);
        FoundIsInside(rest[0], rest[1..], word);
        assert forall w <- rest :: w == rest[0] || w in rest[1..];
      }
    }
  }

  lemma PhraseInWords(words: seq<string>, phrase: seq<string>)
    requires AreSolid(words) && AreSolid(phrase) && |phrase| >= 2
    ensures Contains(Join(words), Join(phrase)) <==> IsSaid(words, phrase)
  {
    hide TextFrom;
    if words == [] {
      JoinStarts(phrase);
    } else {
      TailIsSolid(words);
      JoinIsText(words);
      FoundIsSaid(words[0], words[1..], phrase);
    }
  }

  lemma WordInWords(words: seq<string>, word: string)
    requires AreSolid(words) && IsSolid(word) && words != []
    ensures Contains(Join(words), word) <==> exists w <- words :: Contains(w, word)
  {
    hide Contains, Join, TextFrom;
    TailIsSolid(words);
    JoinIsText(words);
    FoundIsInside(words[0], words[1..], word);
    assert forall w <- words :: w == words[0] || w in words[1..];
  }

  // ---- acceptance and refusal, word by word ----

  predicate IsWordOfAcceptance(t: string) {
    || t == "confirm" || t == "confirmed" || t == "yes" || t == "yep" || t == "yeah" || t == "yup" || t == "correct"
    || t == "proceed" || t == "sure"
  }

  predicate IsWordOfRefusal(t: string) {
    t == "cancel" || t == "no" || t == "nope" || t == "stop" || t == "abort" || t == "scrap"
  }

  /** A word of acceptance, or a phrase of one. */
  predicate HoldsAcceptance(words: seq<string>) {
    || (exists t <- words :: IsWordOfAcceptance(t))
    || IsSaid(words, ["go", "ahead"]) || IsSaid(words, ["do", "it"]) || IsSaid(words, ["that", "is", "right"])
    || IsSaid(words, ["sounds", "good"]) || IsSaid(words, ["place", "it"]) || IsSaid(words, ["yes", "please"])
  }

  predicate HoldsRefusal(words: seq<string>) {
    || (exists t <- words :: IsWordOfRefusal(t))
    || IsSaid(words, ["forget", "it"]) || IsSaid(words, ["never", "mind"]) || IsSaid(words, ["do", "not"])
    || IsSaid(words, ["leave", "it"]) || IsSaid(words, ["no", "thanks"])
    || (exists w <- words :: Contains(w, "nevermind"))
  }

  lemma WordsOfAcceptance(words: seq<string>)
    ensures (exists t <- ConfirmTokens() :: t in words) <==> exists t <- words :: IsWordOfAcceptance(t)
  {
    assert forall t :: t in ConfirmTokens() <==> IsWordOfAcceptance(t);
    hide ConfirmTokens, IsWordOfAcceptance;
  }

  lemma WordsOfRefusal(words: seq<string>)
    ensures (exists t <- CancelTokens() :: t in words) <==> exists t <- words :: IsWordOfRefusal(t)
  {
    assert forall t :: t in CancelTokens() <==> IsWordOfRefusal(t);
    hide CancelTokens, IsWordOfRefusal;
  }

  lemma JoinTwo(a: string, b: string)
    ensures Join([a, b]) == a + " " + b
  {
    assert [a, b][1..] == [b];
  }

  lemma TwoInWords(words: seq<string>, a: string, b: string)
    requires AreSolid(words) && IsSolid(a) && IsSolid(b)
    ensures Contains(Join(words), a + " " + b) <==> IsSaid(words, [a, b])
  {
    JoinTwo(a, b);
    PhraseInWords(words, [a, b]);
  }

  lemma ThatIsRight(words: seq<string>)
    requires AreSolid(words)
    ensures Contains(Join(words), "that is right") <==> IsSaid(words, ["that", "is", "right"])
  {
    hide Contains, IsSaid, Join;
    ReadBack.JoinThree("that", "is", "right");
    assert "that" + " " + "is" + " " + "right" == "that is right";
    PhraseInWords(words, ["that", "is", "right"]);
  }

  lemma AcceptingPhrases(words: seq<string>)
    requires AreSolid(words)
    ensures Contains(Join(words), "go ahead") <==> IsSaid(words, ["go", "ahead"])
    ensures Contains(Join(words), "do it") <==> IsSaid(words, ["do", "it"])
    ensures Contains(Join(words), "sounds good") <==> IsSaid(words, ["sounds", "good"])
    ensures Contains(Join(words), "place it") <==> IsSaid(words, ["place", "it"])
    ensures Contains(Join(words), "yes please") <==> IsSaid(words, ["yes", "please"])
  {
    hide Contains, IsSaid, Join;
    TwoInWords(words, "go", "ahead");
    TwoInWords(words, "do", "it");
    TwoInWords(words, "sounds", "good");
    TwoInWords(words, "place", "it");
    TwoInWords(words, "yes", "please");
    assert "go" + " " + "ahead" == "go ahead" && "do" + " " + "it" == "do it";
    assert "sounds" + " " + "good" == "sounds good" && "place" + " " + "it" == "place it";
    assert "yes" + " " + "please" == "yes please";
  }

  lemma RefusingPhrases(words: seq<string>)
    requires AreSolid(words)
    ensures Contains(Join(words), "forget it") <==> IsSaid(words, ["forget", "it"])
    ensures Contains(Join(words), "never mind") <==> IsSaid(words, ["never", "mind"])
    ensures Contains(Join(words), "do not") <==> IsSaid(words, ["do", "not"])
    ensures Contains(Join(words), "leave it") <==> IsSaid(words, ["leave", "it"])
    ensures Contains(Join(words), "no thanks") <==> IsSaid(words, ["no", "thanks"])
  {
    hide Contains, IsSaid, Join;
    TwoInWords(words, "forget", "it");
    TwoInWords(words, "never", "mind");
    TwoInWords(words, "do", "not");
    TwoInWords(words, "leave", "it");
    TwoInWords(words, "no", "thanks");
    assert "forget" + " " + "it" == "forget it" && "never" + " " + "mind" == "never mind";
    assert "do" + " " + "not" == "do not" && "leave" + " " + "it" == "leave it";
    assert "no" + " " + "thanks" == "no thanks";
  }

  lemma AcceptanceIsMentioned(words: seq<string>)
    requires AreSolid(words)
    ensures Mentions(words, Join(words), ConfirmTokens(), ConfirmPhrases()) <==> HoldsAcceptance(words)
  {
    hide Contains, Join, IsSaid, ConfirmTokens, IsWordOfAcceptance, IsSolid;
    WordsOfAcceptance(words);
    AcceptingPhrases(words);
    ThatIsRight(words);
  }

  lemma RefusalIsMentioned(words: seq<string>)
    requires AreSolid(words) && words != []
    ensures Mentions(words, Join(words), CancelTokens(), CancelPhrases()) <==> HoldsRefusal(words)
  {
    hide Contains, Join, IsSaid, CancelTokens, IsWordOfRefusal, IsSolid;
    WordsOfRefusal(words);
    RefusingPhrases(words);
    NevermindIsSolid();
    WordInWords(words, "nevermind");
  }

  lemma NevermindIsSolid()
    ensures IsSolid("nevermind")
  {
  }

  lemma TokensAreSolid(words: seq<string>)
    requires AreTokens(words)
    ensures AreSolid(words)
  {
    forall w <- words ensures IsSolid(w) { TokenHasNoSpace(w); }
  }

  /**
   * What any one to four words are heard as. They are heard as an acceptance against their refusal exactly if they hold
   * both: a word of acceptance anywhere outweighs every "no" and "do not", and phrases are found across the ends of
   * words.
   */
  lemma WhatFewWordsAreHeardAs(words: seq<string>, guess: Guess)
    requires AreTokens(words) && 1 <= |words| <= 4 && forall w <- words :: w !in Vocabulary.CONTRACTIONS
    ensures Classify(Join(words), guess)
         == if HoldsAcceptance(words) then Accept else if HoldsRefusal(words) then Refuse else Scored(guess)
  {
    hide Mentions, Join, HoldsAcceptance, HoldsRefusal, Normalise, Tokenise, IsToken, IsSolid;
    TokensOfJoin(words);
    TokensAreSolid(words);
    AcceptanceIsMentioned(words);
    RefusalIsMentioned(words);
  }

  // ---- any text ----

  /** The phrase stands somewhere in the text. */
  predicate Occurs(text: string, phrase: string) {
    exists i {:trigger text[i..]} :: 0 <= i <= |text| && phrase <= text[i..]
  }

  lemma {:induction false} ContainedOccurs(text: string, phrase: string)
    ensures Contains(text, phrase) <==> Occurs(text, phrase)
  {
    assert text[0..] == text;
    if text != "" {
      ContainedOccurs(text[1..], phrase);
      if Occurs(text[1..], phrase) {
        var i :| 0 <= i <= |text[1..]| && phrase <= text[1..][i..];
        assert text[1..][i..] == text[i + 1..];
      }
      if Occurs(text, phrase) {
        var i :| 0 <= i <= |text| && phrase <= text[i..];
        if i > 0 { assert text[1..][i - 1..] == text[i..]; }
      }
    }
  }

  /** A word of acceptance among the tokens, or a phrase of one in the text. */
  predicate SoundsAccepting(tokens: seq<string>, text: string) {
    || (exists t <- tokens :: IsWordOfAcceptance(t))
    || Occurs(text, "go ahead") || Occurs(text, "do it") || Occurs(text, "that is right")
    || Occurs(text, "sounds good") || Occurs(text, "place it") || Occurs(text, "yes please")
  }

  predicate SoundsRefusing(tokens: seq<string>, text: string) {
    || (exists t <- tokens :: IsWordOfRefusal(t))
    || Occurs(text, "forget it") || Occurs(text, "never mind") || Occurs(text, "nevermind")
    || Occurs(text, "do not") || Occurs(text, "leave it") || Occurs(text, "no thanks")
  }

  lemma WhenAcceptanceIsMentioned(tokens: seq<string>, text: string)
    ensures Mentions(tokens, text, ConfirmTokens(), ConfirmPhrases()) <==> SoundsAccepting(tokens, text)
  {
    hide Contains, Occurs, ConfirmTokens, IsWordOfAcceptance;
    WordsOfAcceptance(tokens);
    forall p ensures Contains(text, p) <==> Occurs(text, p) { ContainedOccurs(text, p); }
  }

  lemma WhenRefusalIsMentioned(tokens: seq<string>, text: string)
    ensures Mentions(tokens, text, CancelTokens(), CancelPhrases()) <==> SoundsRefusing(tokens, text)
  {
    hide Contains, Occurs, CancelTokens, IsWordOfRefusal;
    WordsOfRefusal(tokens);
    forall p ensures Contains(text, p) <==> Occurs(text, p) { ContainedOccurs(text, p); }
  }

  /**
   * What any text is heard as: without a token nothing is understood; up to four tokens accept or refuse by their words
   * and by the phrases of the text, acceptance first; everything else is what the scores say.
   */
  lemma WhatIsHeard(text: string, guess: Guess)
    ensures var tokens, normalised := Tokenise(text), Normalise(text);
            Classify(text, guess)
            == if tokens == [] then Scored(Unclear)
               else if |tokens| <= 4 && SoundsAccepting(tokens, normalised) then Accept
               else if |tokens| <= 4 && SoundsRefusing(tokens, normalised) then Refuse
               else Scored(guess)
  {
    hide Mentions, SoundsAccepting, SoundsRefusing, Tokenise, Normalise;
    WhenAcceptanceIsMentioned(Tokenise(text), Normalise(text));
    WhenRefusalIsMentioned(Tokenise(text), Normalise(text));
  }

  /** "undo it" is an acceptance: the word before "it" ends with "do". */
  lemma UndoIsAcceptance(guess: Guess)
    ensures Classify("undo it", guess) == Accept
  {
    hide Join, Classify, IsToken;
    var words := ["undo", "it"];
    forall w <- words ensures IsToken(w) && w !in Vocabulary.CONTRACTIONS { ReadBack.PlainWordIsToken(w); }
    JoinTwo("undo", "it");
    assert "undo" + " " + "it" == "undo it";
    assert EndsWith("undo", "do") && words[1..] == ["it"] && ["do", "it"][1..] == ["it"];
    assert IsSaid(words, ["do", "it"]);
    WhatFewWordsAreHeardAs(words, guess);
  }
}
