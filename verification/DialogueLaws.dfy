/** What the local engine promises within one conversation. */
module DialogueLaws {
  import opened Wrappers
  import opened Enquiries
  import opened Extraction
  import opened Dialogue
  import opened Tokeniser
  import Numbers
  import ReadBack
  import Vocabulary

  // ---- parked requests ----

  /** A parked request lacks only its destination. */
  predicate IsParked(slots: Slots) { "destination" in slots.missing && Completed(slots, []).Some? }

  predicate SlotsOk(s: Conversation) { s.slots.Some? ==> IsParked(s.slots.value) }

  lemma CompletedIgnoresPlace(slots: Slots, place: seq<string>)
    ensures Completed(slots, place).Some? <==> Completed(slots, []).Some?
  {
    hide Titlecase;
  }

  /** An extraction that has a product but no destination knows everything else. */
  lemma {:induction false} MissingDestinationOnly(tokens: seq<string>, index: nat)
    ensures var found := ExtractFrom(tokens, index);
            "destination" in found.missing && "product" !in found.missing ==>
              found.partial.product.Some? && found.partial.quantity.Some? && found.partial.unit.Some?
    decreases |tokens| - index
  {
    hide Numbers.NumberAt, Numbers.ResolveUnit, Numbers.RejectedUnit, Fields, Titlecase;
    if index < |tokens| { MissingDestinationOnly(tokens, index + 1); }
  }

  // ---- what a message proposes ----

  /** The draft a message makes of an open conversation: from a filled slot, or from a request of its own. */
  function DraftOf(s: Conversation, m: Message): Option<EnquiryDraft> {
    var text := Strip(m.text);
    var intent := Classify(text, m.guess);
    if text == "" || |text| > MAX_TEXT_LENGTH then None
    else if s.pending.Some? && intent in {Accept, Refuse} then None
    else if Aside(s, intent).Some? then None
    else
      var filling := if s.slots.Some? then Fill(s.slots.value, Tokenise(text), intent) else Nothing;
      if filling.Draft? then Some(filling.draft)
      else if intent == Scored(Create) then Extract(Tokenise(text)).draft
      else None
  }

  /** The details a message proposes: those of its draft, if they are valid. */
  function DetailsOf(s: Conversation, m: Message): Option<Payload> {
    var draft := DraftOf(s, m);
    if draft.None? then None else Validated(DraftArguments(draft.value))
  }

  /** A response that neither proposes nor ends the conversation. */
  predicate IsQuiet(response: Response) { response != Died && response != Unusable && !response.PleaseConfirm? }

  lemma ResolveIsQuiet(db: Db, hash: Payload -> Digest, s: Conversation, accepted: bool, now: real, later: real)
    requires s.pending.Some?
    ensures var (_, t, response) := Resolve(db, hash, s, accepted, now, later);
            t.slots == s.slots && IsQuiet(response)
  {
    hide Validated, Dumped, Consume, Confirm;
  }

  lemma RequestProposes(
      db: Db, hash: Payload -> Digest, s: Conversation, tokens: seq<string>, hint: nat, now: real)
    requires SlotsOk(s)
    ensures var found := Extract(tokens).draft;
            var (after, t, response) := Request(db, hash, s, tokens, hint, now);
            if found.Some? then (after, t, response) == Propose(db, hash, s, found.value, hint, now)
            else IsQuiet(response) && SlotsOk(t)
  {
    hide Propose, ExtractFrom;
    MissingDestinationOnly(tokens, 0);
  }

  lemma HandleProposes(db: Db, hash: Payload -> Digest, s: Conversation, text: string, intent: Intent, m: Message)
    requires SlotsOk(s)
    ensures var found := if intent == Scored(Create) then Extract(Tokenise(text)).draft else None;
            var (after, t, response) := Handle(db, hash, s, text, intent, m);
            if found.Some? then (after, t, response) == Propose(db, hash, s, found.value, m.hint, m.now)
            else IsQuiet(response) && SlotsOk(t)
  {
    hide Request, RequestSupport, IsParked, Extract, Propose;
    if intent == Scored(Create) { RequestProposes(db, hash, s, Tokenise(text), m.hint, m.now); }
  }

  /** A parked request always has what a place completes. */
  lemma ParkedIsFilled(slots: Slots, tokens: seq<string>, intent: Intent)
    requires IsParked(slots)
    ensures Fill(slots, tokens, intent) != SlotMissing
  {
    hide Extract, Completed;
    CompletedIgnoresPlace(slots, FirstFour(tokens));
  }

  /** A message either stages its draft, with nothing parked any more, or it stays quiet. */
  lemma SayProposes(db: Db, hash: Payload -> Digest, s: Conversation, m: Message)
    requires SlotsOk(s)
    ensures var (after, t, response) := Say(db, hash, s, m);
            match DraftOf(s, m)
            case Some(draft) => (after, t, response) == Propose(db, hash, s.(slots := None), draft, m.hint, m.now)
            case None => IsQuiet(response) && SlotsOk(t)
  {
    hide Resolve, Classify, Handle, Propose, Fill, Strip, IsParked, Extract;
    var text := Strip(m.text);
    var intent, t := Classify(text, m.guess), s.(slots := None);
    if s.pending.Some? {
      ResolveIsQuiet(db, hash, s, true, m.now, m.later);
      ResolveIsQuiet(db, hash, s, false, m.now, m.later);
    }
    if s.slots.Some? {
      ParkedIsFilled(s.slots.value, Tokenise(text), intent);
    } else {
      assert t == s;
    }
    HandleProposes(db, hash, t, text, intent, m);
  }

  // ---- when a conversation dies ----

  /** The proposal finds no open row to reuse, and the key of a new one is taken. */
  predicate CannotBePrepared(
      db: Db, hash: Payload -> Digest, s: Conversation, details: Payload, hint: nat, now: real) {
    var existing := Existing(db.confirmations, s.owner, s.id, hash(details), hint);
    && (existing.Some? ==> db.confirmations[existing.value].expiresAt <= now)
    && KeyTaken(db.confirmations, s.owner.workspace, Key(s.id, hash(details), now))
  }

  lemma WhenAProposalDies(db: Db, hash: Payload -> Digest, s: Conversation, draft: EnquiryDraft, hint: nat, now: real)
    ensures var (_, t, response) := Propose(db, hash, s, draft, hint, now);
            var details := Validated(DraftArguments(draft));
            && t.slots == s.slots
            && (response == Died <==> details.Some? && CannotBePrepared(db, hash, s, details.value, hint, now))
  {
    hide Validated, DraftArguments, ReadBack.Describe, KeyTaken, Existing;
  }

  /** The message ends the conversation: its details cannot be prepared. */
  predicate Kills(db: Db, hash: Payload -> Digest, s: Conversation, m: Message) {
    DetailsOf(s, m).Some? && CannotBePrepared(db, hash, s, DetailsOf(s, m).value, m.hint, m.now)
  }

  /**
   * A message ends its conversation with an exception exactly if the details it proposes have no open row and their key
   * is taken. In particular no slot is ever missing: a parked request knows its product, quantity and unit.
   */
  lemma WhenAConversationDies(db: Db, hash: Payload -> Digest, s: Conversation, m: Message)
    requires SlotsOk(s)
    ensures var (_, t, response) := Say(db, hash, s, m);
            SlotsOk(t) && (response == Died <==> Kills(db, hash, s, m))
  {
    hide Say, Propose, DraftOf, Validated, DraftArguments, CannotBePrepared, IsParked;
    SayProposes(db, hash, s, m);
    var draft := DraftOf(s, m);
    if draft.Some? {
      WhenAProposalDies(db, hash, s.(slots := None), draft.value, m.hint, m.now);
      SamePreparation(db, hash, s, Validated(DraftArguments(draft.value)), m);
    }
  }

  lemma SamePreparation(db: Db, hash: Payload -> Digest, s: Conversation, details: Option<Payload>, m: Message)
    ensures details.Some? ==>
              CannotBePrepared(db, hash, s.(slots := None), details.value, m.hint, m.now)
              == CannotBePrepared(db, hash, s, details.value, m.hint, m.now)
  {
  }

  /** The conversation after the first messages, none of which has ended it. */
  ghost predicate ReachesBy(
      db: Db, hash: Payload -> Digest, s: Conversation, messages: seq<Message>, d: Db, t: Conversation) {
    var (after, end, responses) := SayAll(db, hash, s, messages);
    after == d && end == t && |responses| == |messages| && Died !in responses
  }

  /** Message `i` is reached and ends the conversation. */
  ghost predicate KillsAt(db: Db, hash: Payload -> Digest, s: Conversation, messages: seq<Message>, i: nat)
    requires i < |messages|
  {
    var (d, t, _) := SayAll(db, hash, s, messages[..i]);
    ReachesBy(db, hash, s, messages[..i], d, t) && Kills(d, hash, t, messages[i])
  }

  lemma SayAllStep(db: Db, hash: Payload -> Digest, s: Conversation, messages: seq<Message>)
    requires messages != []
    ensures var (after, t, response) := Say(db, hash, s, messages[0]);
            var (last, end, responses) := SayAll(after, hash, t, messages[1..]);
            SayAll(db, hash, s, messages)
            == (if response == Died then (after, t, [Died]) else (last, end, [response] + responses))
  {
    hide Say;
  }

  /**
   * Over every list of messages: what is parked always lacks only its destination, and the session ends with an
   * exception exactly if some message that is reached proposes details that cannot be prepared.
   */
  lemma {:induction false} WhenASessionDies(db: Db, hash: Payload -> Digest, s: Conversation, messages: seq<Message>)
    requires SlotsOk(s)
    ensures var (_, end, responses) := SayAll(db, hash, s, messages);
            && SlotsOk(end)
            && (Died in responses <==> exists i :: 0 <= i < |messages| && KillsAt(db, hash, s, messages, i))
    decreases |messages|
  {
    hide Say, SayAll, Kills, IsParked, SlotsOk;
    if messages == [] {
      NothingSaid(db, hash, s);
    } else {
      var (after, t, response) := Say(db, hash, s, messages[0]);
      WhenAConversationDies(db, hash, s, messages[0]);
      SayAllStep(db, hash, s, messages);
      NothingSaid(db, hash, s);
      assert messages[..0] == [];
      assert KillsAt(db, hash, s, messages, 0) <==> response == Died;
      if response == Died {
        assert Died in [Died];
      } else {
        WhenASessionDies(after, hash, t, messages[1..]);
        forall i | 0 < i < |messages|
          ensures KillsAt(db, hash, s, messages, i) <==> KillsAt(after, hash, t, messages[1..], i - 1)
        {
          KillsLater(db, hash, s, messages, i);
        }
        if i :| 0 <= i < |messages[1..]| && KillsAt(after, hash, t, messages[1..], i) {
          assert KillsAt(db, hash, s, messages, i + 1);
        }
      }
    }
  }

  lemma NothingSaid(db: Db, hash: Payload -> Digest, s: Conversation)
    ensures SayAll(db, hash, s, []) == (db, s, [])
  {
  }

  lemma {:induction false} ResponsesAreFew(db: Db, hash: Payload -> Digest, s: Conversation, messages: seq<Message>)
    ensures |SayAll(db, hash, s, messages).2| <= |messages|
    decreases |messages|
  {
    hide Say;
    if messages != [] {
      var (after, t, _) := Say(db, hash, s, messages[0]);
      ResponsesAreFew(after, hash, t, messages[1..]);
    }
  }

  lemma KillsLater(db: Db, hash: Payload -> Digest, s: Conversation, messages: seq<Message>, i: nat)
    requires 0 < i < |messages| && Say(db, hash, s, messages[0]).2 != Died
    ensures var (after, t, _) := Say(db, hash, s, messages[0]);
            KillsAt(db, hash, s, messages, i) <==> KillsAt(after, hash, t, messages[1..], i - 1)
  {
    hide Say, SayAll, Kills;
    SayAllStep(db, hash, s, messages[..i]);
    assert messages[..i][1..] == messages[1..][..i - 1] && messages[..i][0] == messages[0];
    assert messages[1..][i - 1] == messages[i];
  }

  // ---- refusals ----

  /** Tokens with single spaces between them are their own tokens, as long as none is a contraction. */
  lemma TokensOfJoin(words: seq<string>)
    requires words != [] && AreTokens(words) && forall w <- words :: w !in Vocabulary.CONTRACTIONS
    ensures Normalise(Join(words)) == Join(words) && Tokenise(Join(words)) == words
  {
    hide Vocabulary.CONTRACTIONS, Join, Words, Lower, IsToken, FindAll;
    forall w <- words ensures IsLower(w) && w != "" && forall i :: 0 <= i < |w| ==> !IsSpace(w[i]) {
      TokenHasNoSpace(w);
      ReadBack.TokenIsLower(w);
    }
    ReadBack.JoinIsLower(words);
    ReadBack.LowerKeeps(Join(words));
    WordsOfJoin(words);
    ReadBack.NothingExpands(words);
    FindAllJoin(words);
  }

  /** Plain words are such tokens. */
  lemma PlainText(words: seq<string>)
    requires words != [] && forall w <- words :: ReadBack.IsPlainWord(w)
    ensures Normalise(Join(words)) == Join(words) && Tokenise(Join(words)) == words
  {
    hide Vocabulary.CONTRACTIONS, IsToken, Normalise, Tokenise, Join;
    forall w <- words ensures IsToken(w) && w !in Vocabulary.CONTRACTIONS { ReadBack.PlainWordIsToken(w); }
    TokensOfJoin(words);
  }

  /** The words and phrases of a refusal count only when there is no word or phrase of an acceptance beside them. */
  lemma NegatedAcceptanceIsAcceptance(guess: Guess)
    ensures Classify("do not confirm", guess) == Accept
  {
    hide Join, Normalise, Tokenise, Contains, CancelTokens, CancelPhrases, ConfirmPhrases;
    var words := ["do", "not", "confirm"];
    assert Join(words) == "do not confirm" by {
      ReadBack.JoinThree("do", "not", "confirm");
      assert "do" + " " + "not" + " " + "confirm" == "do not confirm";
    }
    PlainText(words);
    assert words[2] in ConfirmTokens() && words[2] in words;
  }

  /** A terse message is refused exactly if it mentions a refusal and no acceptance. */
  lemma WhenATerseMessageRefuses(text: string, guess: Guess)
    requires 0 < |Tokenise(text)| <= 4
    ensures Classify(text, guess) == Refuse
       <==> Mentions(Tokenise(text), Normalise(text), CancelTokens(), CancelPhrases())
            && !Mentions(Tokenise(text), Normalise(text), ConfirmTokens(), ConfirmPhrases())
  {
    hide Mentions, Tokenise, Normalise;
  }
}
