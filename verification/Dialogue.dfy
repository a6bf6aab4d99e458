/** The local engine: terse replies, the read-back, slot filling, and the state of one conversation. */
module Dialogue {
  import opened Wrappers
  import opened Enquiries
  import opened Extraction
  import opened Realtime
  import Tokeniser
  import ReadBack

  // ---- what an utterance means ----

  function ConfirmTokens(): set<string> {
    {"confirm", "confirmed", "yes", "yep", "yeah", "yup", "correct", "proceed", "sure"}
  }

  function ConfirmPhrases(): set<string> {
    {"go ahead", "do it", "that is right", "sounds good", "place it", "yes please"}
  }

  function CancelTokens(): set<string> { {"cancel", "no", "nope", "stop", "abort", "scrap"} }

  function CancelPhrases(): set<string> { {"forget it", "never mind", "nevermind", "do not", "leave it", "no thanks"} }

  /**
   * The intent that scores best; scoring never yields a confirmation or a cancellation. `Weak` is a request for help or
   * a search below the confidence floor; `Settled` is any other intent, which leaves the conversation as it is.
   */
  datatype Guess = Create | Human | Unclear | Weak | Settled

  datatype Intent = Accept | Refuse | Scored(guess: Guess)

  predicate Contains(text: string, phrase: string) {
    phrase <= text || (text != "" && Contains(text[1..], phrase))
  }

  predicate Mentions(tokens: seq<string>, text: string, words: set<string>, phrases: set<string>) {
    (exists t <- words :: t in tokens) || (exists p <- phrases :: Contains(text, p))
  }

  function Classify(text: string, guess: Guess): Intent {
    var normalised, tokens := Tokeniser.Normalise(text), Tokeniser.Tokenise(text);
    if tokens == [] then Scored(Unclear)
    else if |tokens| <= 4 && Mentions(tokens, normalised, ConfirmTokens(), ConfirmPhrases()) then Accept
    else if |tokens| <= 4 && Mentions(tokens, normalised, CancelTokens(), CancelPhrases()) then Refuse
    else Scored(guess)
  }

  // ---- the conversation ----

  /** A request that still lacks its destination. */
  datatype Slots = Slots(partial: Partial, missing: seq<string>)

  datatype Conversation = Conversation(
    id: nat, owner: Principal, pending: Option<Payload>, confirmation: Option<nat>, search: bool, slots: Option<Slots>)

  /**
   * One text message. `recognised` says whether a product or a place of the workspace is found in it. The clock is read
   * when the message is handled and again for the write.
   */
  datatype Message = Message(text: string, guess: Guess, recognised: bool, hint: nat, now: real, later: real)

  datatype Response =
    | Ignored
    | Died
    | TooOld
    | ToolFailed
    | Answered(reply: Reply)
    | NothingCreated
    | Searched
    | SearchDropped
    | NothingPending
    | RequestDropped
    | Unusable
    | PleaseConfirm(text: string)
    | UnitRefused(unit: string)
    | AskDestination
    | AskQuantity
    | AskProduct
    | Unsure
    | Chat

  function DraftArguments(d: EnquiryDraft): map<string, Json> {
    map["product" := Text(d.product), "quantity" := Number(d.quantity), "unit" := Text(d.unit),
        "destination" := Text(d.destination), "distributor_id" := Null]
  }

  /** Stages a draft and reads it out; an unusable draft clears what was staged. */
  function Propose(db: Db, hash: Payload -> Digest, s: Conversation, draft: EnquiryDraft, hint: nat, now: real)
    : (Db, Conversation, Response)
  {
    match Validated(DraftArguments(draft))
    case None => (db, s.(pending := None, confirmation := None), Unusable)
    case Some(details) =>
      var (after, id) := Prepare(db, hash, s.owner, s.id, details, hint, now);
      if id.None? then (after, s, Died)
      else (after, s.(pending := Some(details), confirmation := id), PleaseConfirm(ReadBack.Describe(draft)))
  }

  /** The draft that a bare place completes; None would be a missing slot. */
  function Completed(slots: Slots, place: seq<string>): Option<EnquiryDraft> {
    var p := slots.partial;
    if p.product.Some? && p.quantity.Some? && p.unit.Some? then
      Some(EnquiryDraft(p.product.value, p.quantity.value, p.unit.value, Titlecase(place)))
    else None
  }

  function FirstFour(tokens: seq<string>): seq<string> { if |tokens| <= 4 then tokens else tokens[..4] }

  datatype Filling = Draft(draft: EnquiryDraft) | Nothing | SlotMissing

  /** What a message adds to a request that waits for its destination: a full restatement wins over a bare place. */
  function Fill(slots: Slots, tokens: seq<string>, intent: Intent): Filling {
    var restated := Extract(tokens);
    if restated.draft.Some? then Draft(restated.draft.value)
    else if "destination" in slots.missing && intent in {Scored(Unclear), Scored(Create)} && tokens != [] then
      match Completed(slots, FirstFour(tokens))
      case Some(draft) => Draft(draft)
      case None => SlotMissing
    else Nothing
  }

  /** A new request: staged, refused for its unit, or asked about. */
  function Request(db: Db, hash: Payload -> Digest, s: Conversation, tokens: seq<string>, hint: nat, now: real)
    : (Db, Conversation, Response)
  {
    var found := Extract(tokens);
    if found.draft.Some? then Propose(db, hash, s, found.draft.value, hint, now)
    else if found.unsupportedUnit.Some? then (db, s, UnitRefused(found.unsupportedUnit.value))
    else if "destination" in found.missing && "product" !in found.missing then
      var slots := Slots(found.partial, found.missing);
      if Completed(slots, []).None? then (db, s.(slots := Some(slots)), Died)
      else (db, s.(slots := Some(slots)), AskDestination)
    else if "quantity" in found.missing || "unit" in found.missing then (db, s, AskQuantity)
    else (db, s, AskProduct)
  }

  /** The tool runs with its exceptions turned into a failure; a rolled-back or refused write leaves its own marks. */
  function Write(db: Db, hash: Payload -> Digest, s: Conversation, later: real): (Db, Response)
    requires s.pending.Some?
  {
    var (after, reply) := CreateEnquiry(db, hash, s.owner, s.confirmation, Dumped(s.pending.value), later);
    (after, if reply.Some? then Answered(reply.value) else ToolFailed)
  }

  /** The confirmation lifecycle: what a terse reply does to the staged enquiry. */
  function Resolve(db: Db, hash: Payload -> Digest, s: Conversation, accepted: bool, now: real, later: real)
    : (Db, Conversation, Response)
    requires s.pending.Some?
  {
    var cleared := s.(pending := None, confirmation := None);
    if accepted then
      if s.confirmation.None? then (db, cleared, TooOld)
      else
        var (after, confirmed) := Confirm(db, s.owner, s.confirmation.value, now);
        if !confirmed then (after, cleared, TooOld)
        else
          var (written, response) := Write(after, hash, s, later);
          (written, cleared, response)
    else
      (if s.confirmation.Some? then Cancel(db, s.owner, s.confirmation.value).0 else db, cleared, NothingCreated)
  }

  /** What a terse reply does when nothing is staged; None when the message is not dealt with here. */
  function Aside(s: Conversation, intent: Intent): Option<(Conversation, Response)> {
    if s.search && intent == Accept then Some((s.(search := false), Searched))
    else if s.search && intent == Refuse then Some((s.(search := false), SearchDropped))
    else if intent == Accept then Some((s, NothingPending))
    else if intent == Refuse && s.slots.Some? then Some((s.(slots := None), RequestDropped))
    else None
  }

  /** A message that neither answers nor fills anything. */
  function Handle(db: Db, hash: Payload -> Digest, s: Conversation, text: string, intent: Intent, m: Message)
    : (Db, Conversation, Response)
  {
    if intent == Scored(Create) then Request(db, hash, s, Tokeniser.Tokenise(text), m.hint, m.now)
    else if intent == Scored(Human) then
      var (after, outcome) := RequestSupport(db, s.owner, text);
      (after, s, if outcome.RaisedSupport? then ToolFailed else Answered(Support(outcome)))
    else if intent == Scored(Settled) then (db, s, Chat)
    else if m.recognised then (db, s.(search := true), Unsure)
    else (db, s, Chat)
  }

  const MAX_TEXT_LENGTH := 4_096

  /** One message in its conversation. */
  function Say(db: Db, hash: Payload -> Digest, s: Conversation, m: Message): (Db, Conversation, Response) {
    var text := Tokeniser.Strip(m.text);
    if text == "" || |text| > MAX_TEXT_LENGTH then (db, s, Ignored)
    else
      var intent := Classify(text, m.guess);
      if s.pending.Some? && intent in {Accept, Refuse} then Resolve(db, hash, s, intent == Accept, m.now, m.later)
      else if Aside(s, intent).Some? then
        var (t, response) := Aside(s, intent).value;
        (db, t, response)
      else if s.slots.Some? then
        var t := s.(slots := None);
        match Fill(s.slots.value, Tokeniser.Tokenise(text), intent)
        case Draft(draft) => Propose(db, hash, t, draft, m.hint, m.now)
        case SlotMissing => (db, s, Died)
        case Nothing => Handle(db, hash, t, text, intent, m)
      else Handle(db, hash, s, text, intent, m)
  }

  /** The messages up to the one that ends the conversation with an exception. */
  function SayAll(db: Db, hash: Payload -> Digest, s: Conversation, messages: seq<Message>)
    : (Db, Conversation, seq<Response>)
    decreases |messages|
  {
    if messages == [] then (db, s, [])
    else
      var (after, t, response) := Say(db, hash, s, messages[0]);
      if response == Died then (after, t, [Died])
      else
        var (last, end, responses) := SayAll(after, hash, t, messages[1..]);
        (last, end, [response] + responses)
  }

  // ---- the conversation as it runs ----

  class LocalSession {
    const id: nat
    const owner: Principal
    var pending: Option<Payload>
    var confirmation: Option<nat>
    var search: bool
    var slots: Option<Slots>

    ghost function View(): Conversation
      reads this
    {
      Conversation(id, owner, pending, confirmation, search, slots)
    }

    constructor (id: nat, owner: Principal)
      ensures View() == Conversation(id, owner, None, None, false, None)
    {
      this.id, this.owner, pending, confirmation, search, slots := id, owner, None, None, false, None;
    }

    method ProposeEnquiry(service: Service, draft: EnquiryDraft, hint: nat, now: real) returns (response: Response)
      modifies this`pending, this`confirmation, service
      ensures (service.Tables(), View(), response)
           == Propose(old(service.Tables()), service.hash, old(View()), draft, hint, now)
    {
      hide Prepare, Validated, DraftArguments, ReadBack.Describe;
      var details := Validated(DraftArguments(draft));
      if details.None? {
        pending, confirmation := None, None;
        return Unusable;
      }
      var issued := service.PrepareConfirmation(owner, id, details.value, hint, now);
      if issued.None? {
        return Died;
      }
      pending, confirmation := details, issued;
      return PleaseConfirm(ReadBack.Describe(draft));
    }

    method ExecuteCreate(service: Service, later: real) returns (response: Response)
      requires pending.Some?
      modifies service
      ensures (service.Tables(), response) == Write(old(service.Tables()), service.hash, old(View()), later)
    {
      hide Consume, Validated, Dumped;
      var payload := Validated(Dumped(pending.value));
      if confirmation.None? {
        return Answered(ConfirmationMissing);
      }
      if payload.None? {
        return Answered(InvalidDetails);
      }
      var outcome := service.ConsumeConfirmation(owner, confirmation.value, payload.value, later);
      match outcome {
        case Created(e) => response := Answered(Success(e, false));
        case Replayed(e) => response := Answered(Success(e, true));
        case Refused(why) => response := Answered(Failure(why));
        case Raised => response := ToolFailed;
      }
    }

    method AnswerPending(service: Service, accepted: bool, now: real, later: real) returns (response: Response)
      requires pending.Some?
      modifies this`pending, this`confirmation, service
      ensures (service.Tables(), View(), response)
           == Resolve(old(service.Tables()), service.hash, old(View()), accepted, now, later)
    {
      hide Write, Confirm, Cancel;
      if accepted {
        var confirmed := false;
        if confirmation.Some? {
          confirmed := service.ConfirmConfirmation(owner, confirmation.value, now);
        }
        if !confirmed {
          pending, confirmation := None, None;
          return TooOld;
        }
        response := ExecuteCreate(service, later);
        pending, confirmation := None, None;
        return;
      }
      if confirmation.Some? {
        var done := service.CancelConfirmation(owner, confirmation.value);
      }
      pending, confirmation := None, None;
      return NothingCreated;
    }

    method HandleRequest(service: Service, tokens: seq<string>, hint: nat, now: real) returns (response: Response)
      modifies this, service
      ensures (service.Tables(), View(), response)
           == Request(old(service.Tables()), service.hash, old(View()), tokens, hint, now)
    {
      hide Propose, Extract;
      var found := ExtractEnquiry(tokens);
      if found.draft.Some? {
        response := ProposeEnquiry(service, found.draft.value, hint, now);
        return;
      }
      if found.unsupportedUnit.Some? {
        return UnitRefused(found.unsupportedUnit.value);
      }
      if "destination" in found.missing && "product" !in found.missing {
        var parked := Slots(found.partial, found.missing);
        slots := Some(parked);
        return if Completed(parked, []).None? then Died else AskDestination;
      }
      if "quantity" in found.missing || "unit" in found.missing {
        return AskQuantity;
      }
      return AskProduct;
    }

    method HandleIntent(service: Service, text: string, intent: Intent, m: Message) returns (response: Response)
      modifies this, service
      ensures (service.Tables(), View(), response)
           == Handle(old(service.Tables()), service.hash, old(View()), text, intent, m)
    {
      hide Request, RequestSupport;
      if intent == Scored(Create) {
        response := HandleRequest(service, Tokeniser.Tokenise(text), m.hint, m.now);
        return;
      }
      if intent == Scored(Human) {
        var outcome := service.RequestHumanSupport(owner, text);
        return if outcome.RaisedSupport? then ToolFailed else Answered(Support(outcome));
      }
      if intent == Scored(Settled) {
        return Chat;
      }
      if m.recognised {
        search := true;
        return Unsure;
      }
      return Chat;
    }

    method AnswerAside(intent: Intent) returns (response: Option<Response>)
      modifies this`search, this`slots
      ensures response.Some? <==> Aside(old(View()), intent).Some?
      ensures if response.Some? then (View(), response.value) == Aside(old(View()), intent).value
              else View() == old(View())
    {
      if search && (intent == Accept || intent == Refuse) {
        search := false;
        return Some(if intent == Accept then Searched else SearchDropped);
      }
      if intent == Accept {
        return Some(NothingPending);
      }
      if intent == Refuse && slots.Some? {
        slots := None;
        return Some(RequestDropped);
      }
      return None;
    }

    method FillSlots(tokens: seq<string>, intent: Intent) returns (filling: Filling)
      requires slots.Some?
      modifies this`slots
      ensures filling == Fill(old(slots.value), tokens, intent)
      ensures slots == if filling == SlotMissing then old(slots) else None
    {
      hide Extract, Completed;
      var restated := ExtractEnquiry(tokens);
      filling := Nothing;
      if restated.draft.Some? {
        filling := Draft(restated.draft.value);
      } else if "destination" in slots.value.missing && (intent == Scored(Unclear) || intent == Scored(Create)) {
        var place := FirstFour(tokens);
        if place != [] {
          var draft := Completed(slots.value, place);
          if draft.None? {
            return SlotMissing;
          }
          filling := Draft(draft.value);
        }
      }
      slots := None;
    }

    method Hear(service: Service, m: Message) returns (response: Response)
      modifies this, service
      ensures (service.Tables(), View(), response) == Say(old(service.Tables()), service.hash, old(View()), m)
    {
      hide Resolve, Handle, Propose, Classify, Aside, Fill;
      var text := Tokeniser.Strip(m.text);
      if text == "" || |text| > MAX_TEXT_LENGTH {
        return Ignored;
      }
      var intent := Classify(text, m.guess);
      if pending.Some? && (intent == Accept || intent == Refuse) {
        response := AnswerPending(service, intent == Accept, m.now, m.later);
        return;
      }
      var aside := AnswerAside(intent);
      if aside.Some? {
        return aside.value;
      }
      if slots.Some? {
        var filling := FillSlots(Tokeniser.Tokenise(text), intent);
        match filling {
          case Draft(draft) =>
            response := ProposeEnquiry(service, draft, m.hint, m.now);
            return;
          case SlotMissing => return Died;
          case Nothing =>
        }
      }
      response := HandleIntent(service, text, intent, m);
    }
  }

  // ---- the socket ----

  const MAX_DISTRIBUTOR_ID := 32

  /**
   * What arrives on the socket. `selected` is the text of the distributor on the page, empty if there is none; only the
   * scoring of intents looks at it. JSON that is not an object raises.
   */
  datatype Frame =
    | Disconnected
    | Media
    | NoText
    | TooLong
    | NotJson
    | NotAnObject
    | BadContext
    | NewContext(selected: string)
    | OtherType
    | Said(message: Message)

  /** What is sent back: what the conversation answers, and what the other frames are answered with. */
  datatype Sent =
    | Reply(response: Response)
    | MediaIgnored
    | EventTooLong
    | InvalidJson
    | ContextNotObject
    | ContextUpdated(selected: Option<string>)

  /** The answer to a frame that is no message and does not end the session. */
  function Notice(frame: Frame): seq<Sent> {
    match frame
    case Media => [MediaIgnored]
    case TooLong => [EventTooLong]
    case NotJson => [InvalidJson]
    case BadContext => [ContextNotObject]
    case NewContext(selected) =>
      [ContextUpdated(if selected == "" then None
                      else if |selected| <= MAX_DISTRIBUTOR_ID then Some(selected)
                      else Some(selected[..MAX_DISTRIBUTOR_ID]))]
    case _ => []
  }

  predicate Ends(frame: Frame) { frame.Disconnected? || frame.NotAnObject? }

  /** One session: the frames up to a disconnect, JSON that is no object, or a message that raises. */
  function Exchange(db: Db, hash: Payload -> Digest, s: Conversation, frames: seq<Frame>): (Db, Conversation, seq<Sent>)
    decreases |frames|
  {
    if frames == [] || Ends(frames[0]) then (db, s, [])
    else if frames[0].Said? then
      var (after, t, response) := Say(db, hash, s, frames[0].message);
      if response == Died then (after, t, [Reply(Died)])
      else
        var (last, end, sent) := Exchange(after, hash, t, frames[1..]);
        (last, end, [Reply(response)] + sent)
    else
      var (last, end, sent) := Exchange(db, hash, s, frames[1..]);
      (last, end, Notice(frames[0]) + sent)
  }

  /** The messages the conversation gets to see. */
  function MessagesOf(frames: seq<Frame>): seq<Message> {
    if frames == [] || Ends(frames[0]) then []
    else (if frames[0].Said? then [frames[0].message] else []) + MessagesOf(frames[1..])
  }

  function RepliesOf(sent: seq<Sent>): seq<Response> {
    if sent == [] then []
    else (if sent[0].Reply? then [sent[0].response] else []) + RepliesOf(sent[1..])
  }

  lemma RepliesGrow(first: Sent, sent: seq<Sent>)
    ensures RepliesOf([first] + sent) == (if first.Reply? then [first.response] else []) + RepliesOf(sent)
  {
    assert ([first] + sent)[1..] == sent;
  }

  lemma SayAllGrows(db: Db, hash: Payload -> Digest, s: Conversation, m: Message, rest: seq<Message>)
    ensures var (after, t, response) := Say(db, hash, s, m);
            SayAll(db, hash, s, [m] + rest)
            == if response == Died then (after, t, [Died])
               else
                 var (last, end, said) := SayAll(after, hash, t, rest);
                 (last, end, [response] + said)
  {
    hide Say;
    assert ([m] + rest)[1..] == rest;
  }

  lemma NoticesAreNoReplies(frame: Frame, sent: seq<Sent>)
    ensures RepliesOf(Notice(frame) + sent) == RepliesOf(sent)
  {
    if Notice(frame) == [] {
      assert Notice(frame) + sent == sent;
    } else {
      RepliesGrow(Notice(frame)[0], sent);
      assert Notice(frame) == [Notice(frame)[0]];
    }
  }

  /**
   * Frames that are no messages leave the conversation alone: it is the one of its messages, and answers as that one.
   */
  lemma {:induction false} ExchangeIsConversation(
      db: Db, hash: Payload -> Digest, s: Conversation, frames: seq<Frame>)
    ensures var (tables, end, sent) := Exchange(db, hash, s, frames);
            SayAll(db, hash, s, MessagesOf(frames)) == (tables, end, RepliesOf(sent))
    decreases |frames|
  {
    hide Say, Notice;
    if frames == [] || Ends(frames[0]) {
    } else if frames[0].Said? {
      var (after, t, response) := Say(db, hash, s, frames[0].message);
      SayAllGrows(db, hash, s, frames[0].message, MessagesOf(frames[1..]));
      if response == Died {
        RepliesGrow(Reply(Died), []);
        assert [Reply(Died)] + [] == [Reply(Died)] && [Died] + RepliesOf([]) == [Died];
      } else {
        ExchangeIsConversation(after, hash, t, frames[1..]);
        RepliesGrow(Reply(response), Exchange(after, hash, t, frames[1..]).2);
      }
    } else {
      ExchangeIsConversation(db, hash, s, frames[1..]);
      NoticesAreNoReplies(frames[0], Exchange(db, hash, s, frames[1..]).2);
      assert [] + MessagesOf(frames[1..]) == MessagesOf(frames[1..]);
    }
  }

  /** The session from some frame on, after something has been sent. */
  function Continue(
      db: Db, hash: Payload -> Digest, s: Conversation, frames: seq<Frame>, i: nat, given: seq<Sent>)
    : (Db, Conversation, seq<Sent>)
    requires i <= |frames|
  {
    var (last, end, sent) := Exchange(db, hash, s, frames[i..]);
    (last, end, given + sent)
  }

  lemma Unroll(db: Db, hash: Payload -> Digest, s: Conversation, frames: seq<Frame>, i: nat, given: seq<Sent>)
    requires i < |frames|
    ensures Continue(db, hash, s, frames, i, given)
         == (if Ends(frames[i]) then (db, s, given)
             else if frames[i].Said? then
               var (after, t, response) := Say(db, hash, s, frames[i].message);
               if response == Died then (after, t, given + [Reply(Died)])
               else Continue(after, hash, t, frames, i + 1, given + [Reply(response)])
             else Continue(db, hash, s, frames, i + 1, given + Notice(frames[i])))
  {
    hide Say, Notice;
    assert frames[i..][1..] == frames[i + 1..];
    if Ends(frames[i]) {
      assert given + [] == given;
    } else if frames[i].Said? {
      var (after, t, response) := Say(db, hash, s, frames[i].message);
      var rest := Exchange(after, hash, t, frames[i + 1..]).2;
      assert given + ([Reply(response)] + rest) == (given + [Reply(response)]) + rest;
    } else {
      var rest := Exchange(db, hash, s, frames[i + 1..]).2;
      assert given + (Notice(frames[i]) + rest) == (given + Notice(frames[i])) + rest;
    }
  }

  lemma NothingLeft(db: Db, hash: Payload -> Digest, s: Conversation, frames: seq<Frame>, given: seq<Sent>)
    ensures Continue(db, hash, s, frames, |frames|, given) == (db, s, given)
    ensures Continue(db, hash, s, frames, 0, []) == Exchange(db, hash, s, frames)
  {
    assert frames[|frames|..] == [] && given + [] == given && frames[0..] == frames;
    assert [] + Exchange(db, hash, s, frames).2 == Exchange(db, hash, s, frames).2;
  }

  /** The message loop. */
  method RunSession(service: Service, id: nat, owner: Principal, frames: seq<Frame>) returns (sent: seq<Sent>)
    modifies service
    ensures var (tables, _, answers) :=
              Exchange(old(service.Tables()), service.hash, Conversation(id, owner, None, None, false, None), frames);
            service.Tables() == tables && sent == answers
  {
    hide Say, Exchange, Continue;
    var session := new LocalSession(id, owner);
    sent := [];
    ghost var all := Exchange(service.Tables(), service.hash, session.View(), frames);
    NothingLeft(service.Tables(), service.hash, session.View(), frames, sent);
    for i := 0 to |frames|
      invariant Continue(service.Tables(), service.hash, session.View(), frames, i, sent) == all
    {
      Unroll(service.Tables(), service.hash, session.View(), frames, i, sent);
      match frames[i] {
        case Disconnected => return;
        case NotAnObject => return;
        case Media => sent := sent + [MediaIgnored];
        case NoText =>
          assert sent + Notice(NoText) == sent;
        case TooLong => sent := sent + [EventTooLong];
        case NotJson => sent := sent + [InvalidJson];
        case BadContext => sent := sent + [ContextNotObject];
        case NewContext(selected) =>
          var known := if |selected| <= MAX_DISTRIBUTOR_ID then selected else selected[..MAX_DISTRIBUTOR_ID];
          sent := sent + [ContextUpdated(if selected == "" then None else Some(known))];
        case OtherType =>
          assert sent + Notice(OtherType) == sent;
        case Said(message) =>
          var response := session.Hear(service, message);
          sent := sent + [Reply(response)];
          if response == Died {
            return;
          }
      }
    }
    NothingLeft(service.Tables(), service.hash, session.View(), frames, sent);
  }
}
