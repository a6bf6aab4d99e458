/** What each message to the local engine is answered with, and what it leaves in the conversation and in the tables. */
module Replies {
  import opened Wrappers
  import opened Enquiries
  import opened Extraction
  import opened Dialogue
  import opened Tokeniser
  import Decimal
  import Details
  import DialogueLaws
  import Effects
  import Realtime
  import Transcripts

  // ---- the text of a message ----

  /** The message without the blanks around it. */
  ghost predicate IsTextOf(m: Message, text: string) { Details.IsTrimmed(m.text, text) }

  /** A text of at least one and at most 4096 characters. */
  predicate IsHeard(text: string) { 1 <= |text| <= 4096 }

  function Meaning(text: string, m: Message): Intent { Classify(text, m.guess) }

  lemma TextIsStripped(m: Message, text: string)
    requires IsTextOf(m, text)
    ensures text == Strip(m.text)
  {
    hide Details.IsTrimmed;
    Details.WhatIsStripped(m.text, text);
  }

  /** An empty message and one that is too long are not heard. */
  lemma WhatIsIgnored(db: Db, hash: Payload -> Digest, s: Conversation, m: Message, text: string)
    requires IsTextOf(m, text) && !IsHeard(text)
    ensures Say(db, hash, s, m) == (db, s, Ignored)
  {
    hide IsTextOf, Strip;
    TextIsStripped(m, text);
  }

  // ---- terse replies ----

  /** Nothing is staged any more; all else in the conversation stays. */
  predicate IsCleared(s: Conversation, t: Conversation) {
    && t.id == s.id && t.owner == s.owner && t.pending.None? && t.confirmation.None? && t.search == s.search
    && t.slots == s.slots
  }

  /** A refusal of what is staged cancels its row, if there is one, and touches no other. */
  lemma WhatARefusalDoes(db: Db, hash: Payload -> Digest, s: Conversation, m: Message, text: string)
    requires IsTextOf(m, text) && IsHeard(text) && Meaning(text, m) == Refuse && s.pending.Some?
    ensures var (after, t, response) := Say(db, hash, s, m);
            && response == NothingCreated && IsCleared(s, t)
            && match s.confirmation
               case None => after == db
               case Some(id) =>
                 && Effects.OnlyRow(db, after, id)
                 && (id < |db.confirmations| ==>
                       Transcripts.IsCancelledRow(
                         db.confirmations[id], after.confirmations[id], Effects.IsOwn(db, s.owner, id)))
  {
    hide IsTextOf, Strip, Classify, Cancel, Confirm, Write;
    TextIsStripped(m, text);
    if s.confirmation.Some? { Effects.WhatCancelDoes(db, s.owner, s.confirmation.value); }
  }

  /** The row can still be accepted by this user at this time. */
  predicate IsAcceptable(db: Db, who: Principal, id: nat, now: real) {
    && Effects.IsOwn(db, who, id) && db.confirmations[id].status == Pending && now < db.confirmations[id].expiresAt
  }

  /** What a write answers. */
  predicate IsTold(outcome: Outcome, response: Response) {
    match outcome
    case Created(e) => response == Answered(Realtime.Success(e, false))
    case Replayed(e) => response == Answered(Realtime.Success(e, true))
    case Refused(why) => response == Answered(Realtime.Failure(why))
    case Raised => response == ToolFailed
  }

  /** Details as validation leaves them. */
  ghost predicate AreDetails(p: Payload) {
    exists args :: Details.IsAccepted(args) && Details.CarriesArguments(args, p)
  }

  lemma DetailsAreStable(p: Payload)
    requires AreDetails(p)
    ensures Validated(Dumped(p)) == Some(p)
  {
    hide Validated, Dumped, Details.IsAccepted, Details.IsTrimmed;
    var args :| Details.IsAccepted(args) && Details.CarriesArguments(args, p);
    Details.WhatIsValidated(args);
    SameDetails(args, p, Validated(args).value);
    ValidatedIsStable(args);
  }

  lemma SameDetails(args: map<string, Json>, p: Payload, q: Payload)
    requires Details.IsAccepted(args) && Details.CarriesArguments(args, p) && Details.CarriesArguments(args, q)
    ensures p == q
  {
    hide Details.IsShortText, Details.IsTrimmed;
    Details.ShortTextsAreThere(args, "product");
    Details.ShortTextsAreThere(args, "destination");
    Details.TrimmedIsUnique(args["product"].s, p.product, q.product);
    Details.TrimmedIsUnique(args["destination"].s, p.destination, q.destination);
  }

  /**
   * An acceptance of what is staged clears it, whatever comes of it. A row that cannot be accepted any more is too old.
   * Any other is dated, and consumed for exactly the staged details at the later reading of the clock.
   */
  lemma WhatAnAcceptanceDoes(db: Db, hash: Payload -> Digest, s: Conversation, m: Message, text: string, middle: Db)
    requires IsTextOf(m, text) && IsHeard(text) && Meaning(text, m) == Accept && s.pending.Some?
    requires AreDetails(s.pending.value)
    requires s.confirmation.Some? ==> Effects.OnlyRow(db, middle, s.confirmation.value)
    requires s.confirmation.Some? && s.confirmation.value < |db.confirmations| ==>
               Transcripts.IsConfirmedRow(
                 db.confirmations[s.confirmation.value], middle.confirmations[s.confirmation.value],
                 Effects.IsOwn(db, s.owner, s.confirmation.value), m.now)
    ensures var (after, t, response) := Say(db, hash, s, m);
            && IsCleared(s, t)
            && match s.confirmation
               case None => after == db && response == TooOld
               case Some(id) =>
                 if !IsAcceptable(db, s.owner, id, m.now) then after == middle && response == TooOld
                 else
                   var (written, outcome) := Consume(middle, hash, s.owner, id, s.pending.value, m.later);
                   after == written && IsTold(outcome, response)
  {
    hide IsTextOf, Strip, Classify, Confirm, Cancel, Consume, Validated, Dumped, AreDetails;
    TextIsStripped(m, text);
    DetailsAreStable(s.pending.value);
    if s.confirmation.Some? {
      Effects.WhatConfirmDoes(db, s.owner, s.confirmation.value, m.now);
      SameTables(Confirm(db, s.owner, s.confirmation.value, m.now).0, middle);
    }
  }

  lemma SameTables(a: Db, b: Db)
    requires a.(confirmations := []) == b.(confirmations := []) && |a.confirmations| == |b.confirmations|
    requires forall i :: 0 <= i < |a.confirmations| ==> a.confirmations[i] == b.confirmations[i]
    ensures a == b
  {
    assert a.confirmations == b.confirmations;
  }

  /** A terse reply when nothing is staged answers the offered search, or drops the parked request. */
  lemma WhatATerseReplyDoes(db: Db, hash: Payload -> Digest, s: Conversation, m: Message, text: string)
    requires IsTextOf(m, text) && IsHeard(text) && s.pending.None?
    requires Meaning(text, m) == Accept || (Meaning(text, m) == Refuse && (s.search || s.slots.Some?))
    ensures Say(db, hash, s, m)
         == if s.search then (db, s.(search := false), if Meaning(text, m) == Accept then Searched else SearchDropped)
            else if Meaning(text, m) == Accept then (db, s, NothingPending)
            else (db, s.(slots := None), RequestDropped)
  {
    hide IsTextOf, Strip, Classify;
    TextIsStripped(m, text);
  }

  // ---- drafts ----

  /** A message that neither accepts nor refuses anything. */
  predicate IsPlain(s: Conversation, intent: Intent) {
    intent.Scored? || (intent == Refuse && s.pending.None? && !s.search && s.slots.None?)
  }

  /** Everything but the place is known. */
  predicate IsWhole(p: Partial) { p.product.Some? && p.quantity.Some? && p.unit.Some? }

  /** A bare place for a request that waits for one: the message says nothing that scores, or sounds like a request. */
  predicate IsBarePlace(s: Conversation, tokens: seq<string>, intent: Intent) {
    && s.slots.Some? && "destination" in s.slots.value.missing && tokens != []
    && (intent == Scored(Unclear) || intent == Scored(Create))
  }

  /** The first tokens, four of them at most. */
  predicate IsHead(tokens: seq<string>, head: seq<string>) {
    head <= tokens && |head| <= 4 && (|head| == 4 || head == tokens)
  }

  /**
   * The draft a message makes: a full request, if it sounds like one or one is parked; or the parked request with the
   * first four tokens as its place.
   */
  ghost predicate Makes(s: Conversation, text: string, intent: Intent, draft: EnquiryDraft) {
    var found := Extract(Tokenise(text)).draft;
    if found.Some? then draft == found.value && (s.slots.Some? || intent == Scored(Create))
    else
      && IsBarePlace(s, Tokenise(text), intent) && IsWhole(s.slots.value.partial)
      && exists head :: IsHead(Tokenise(text), head)
           && draft == EnquiryDraft(
                s.slots.value.partial.product.value, s.slots.value.partial.quantity.value,
                s.slots.value.partial.unit.value, Titlecase(head))
  }

  /** What a draft is proposed as; no distributor is named. */
  ghost predicate AreDetailsOf(draft: EnquiryDraft, p: Payload) {
    && Details.IsTrimmed(draft.product, p.product) && p.quantity == draft.quantity && p.unit == draft.unit
    && Details.IsTrimmed(draft.destination, p.destination) && p.distributor == None
  }

  predicate IsUsable(draft: EnquiryDraft) {
    && IsName(draft.product) && IsName(draft.destination) && 1 <= draft.quantity <= 1_000_000
    && (draft.unit == "kg" || draft.unit == "tonnes" || draft.unit == "units")
  }

  predicate IsName(text: string) {
    1 <= |text| <= 160 && exists k :: 0 <= k < |text| && !Details.IsBlank(text[k])
  }

  lemma ArgumentsOfDraft(draft: EnquiryDraft)
    ensures var a := DraftArguments(draft);
            && a.Keys == {"product", "quantity", "unit", "destination", "distributor_id"}
            && a["product"] == Text(draft.product) && a["quantity"] == Number(draft.quantity)
            && a["unit"] == Text(draft.unit) && a["destination"] == Text(draft.destination)
            && a["distributor_id"] == Null
  {
    assert "product" != "quantity" && "product" != "unit" && "quantity" != "unit";
    assert |"destination"| == 11 && |"distributor_id"| == 14;
  }

  lemma WhenADraftIsUsable(draft: EnquiryDraft)
    ensures Validated(DraftArguments(draft)).Some? <==> IsUsable(draft)
    ensures Validated(DraftArguments(draft)).Some? ==> AreDetailsOf(draft, Validated(DraftArguments(draft)).value)
  {
    hide Validated, DraftArguments, Details.IsTrimmed, Details.IsBlank;
    ArgumentsOfDraft(draft);
    Details.WhatIsValidated(DraftArguments(draft));
  }

  lemma SameProposal(draft: EnquiryDraft, p: Payload, q: Payload)
    requires AreDetailsOf(draft, p) && AreDetailsOf(draft, q)
    ensures p == q
  {
    hide Details.IsTrimmed;
    Details.TrimmedIsUnique(draft.product, p.product, q.product);
    Details.TrimmedIsUnique(draft.destination, p.destination, q.destination);
  }

  /** What a proposal answers: the sentence that asks for confirmation, unless the draft or its row will not do. */
  predicate IsProposal(
      db: Db, hash: Payload -> Digest, s: Conversation, draft: EnquiryDraft, p: Payload, m: Message, after: Db,
      t: Conversation, response: Response) {
    if !IsUsable(draft) then
      after == db && response == Unusable && t == s.(slots := None, pending := None, confirmation := None)
    else
      var (prepared, id) := Prepare(db, hash, s.owner, s.id, p, m.hint, m.now);
      && after == prepared
      && if id.None? then t == s.(slots := None) && response == Died
         else
           && t == s.(slots := None, pending := Some(p), confirmation := id)
           && response == PleaseConfirm(
                Decimal.Print(draft.quantity) + " " + draft.unit + " of " + draft.product + " for delivery to "
                + draft.destination)
  }

  lemma WhatIsProposed(
      db: Db, hash: Payload -> Digest, s: Conversation, draft: EnquiryDraft, p: Payload, m: Message)
    requires AreDetailsOf(draft, p) && s.slots.None?
    ensures var (after, t, response) := Propose(db, hash, s, draft, m.hint, m.now);
            IsProposal(db, hash, s, draft, p, m, after, t, response)
  {
    hide Validated, DraftArguments, Prepare, IsUsable, AreDetailsOf, Decimal.Print;
    WhenADraftIsUsable(draft);
    if IsUsable(draft) { SameProposal(draft, p, Validated(DraftArguments(draft)).value); }
  }

  /** A message that makes a draft proposes it, and nothing is parked any more. */
  lemma WhatADraftDoes(
      db: Db, hash: Payload -> Digest, s: Conversation, m: Message, text: string, draft: EnquiryDraft, p: Payload)
    requires IsTextOf(m, text) && IsHeard(text) && IsPlain(s, Meaning(text, m))
    requires Makes(s, text, Meaning(text, m), draft) && AreDetailsOf(draft, p)
    ensures var (after, t, response) := Say(db, hash, s, m);
            IsProposal(db, hash, s, draft, p, m, after, t, response)
  {
    hide IsTextOf, Strip, Classify, Propose, AreDetailsOf, IsProposal, Extract, Tokenise, Titlecase, Resolve;
    TextIsStripped(m, text);
    var t := s.(slots := None);
    assert s.slots.None? ==> t == s;
    WhatIsProposed(db, hash, t, draft, p, m);
    SameOwner(db, hash, s, draft, p, m, Propose(db, hash, t, draft, m.hint, m.now));
    if s.slots.Some? && Extract(Tokenise(text)).draft.None? {
      var head :| IsHead(Tokenise(text), head)
        && draft == EnquiryDraft(
             s.slots.value.partial.product.value, s.slots.value.partial.quantity.value,
             s.slots.value.partial.unit.value, Titlecase(head));
      HeadIsFirstFour(Tokenise(text), head);
    }
  }

  lemma HeadIsFirstFour(tokens: seq<string>, head: seq<string>)
    requires IsHead(tokens, head)
    ensures head == FirstFour(tokens)
  {
  }

  lemma SameOwner(
      db: Db, hash: Payload -> Digest, s: Conversation, draft: EnquiryDraft, p: Payload, m: Message,
      said: (Db, Conversation, Response))
    requires IsProposal(db, hash, s.(slots := None), draft, p, m, said.0, said.1, said.2)
    ensures IsProposal(db, hash, s, draft, p, m, said.0, said.1, said.2)
  {
    hide Prepare, IsUsable, Decimal.Print;
  }

  // ---- what is left to the intents ----

  /**
   * A message that gets to the intents: it is plain, makes no draft, and is no place for a parked request that cannot
   * take one. A request that was parked is given up.
   */
  ghost predicate ReachesIntents(s: Conversation, m: Message, text: string) {
    && IsTextOf(m, text) && IsHeard(text) && IsPlain(s, Meaning(text, m))
    && (s.slots.Some? ==> Extract(Tokenise(text)).draft.None? && !IsBarePlace(s, Tokenise(text), Meaning(text, m)))
  }

  lemma ReachingIsHandled(db: Db, hash: Payload -> Digest, s: Conversation, m: Message, text: string)
    requires ReachesIntents(s, m, text)
    ensures Say(db, hash, s, m) == Handle(db, hash, s.(slots := None), text, Meaning(text, m), m)
  {
    hide IsTextOf, Strip, Classify, Handle, Extract, Tokenise;
    TextIsStripped(m, text);
    assert s.slots.None? ==> s.(slots := None) == s;
  }

  /**
   * A request for a person is recorded under the workspace's next number with the words of the message, and the answer
   * names it. It is not recorded if the text is longer than 1000 characters, if the workspace has no counter, or if the
   * number is taken.
   */
  lemma WhatAPersonIsAskedFor(db: Db, hash: Payload -> Digest, s: Conversation, m: Message, text: string)
    requires ReachesIntents(s, m, text) && Meaning(text, m) == Scored(Human)
    ensures var (after, t, response) := Say(db, hash, s, m);
            t == s.(slots := None)
            && if |text| > 1000 then after == db && response == Answered(Realtime.Support(BadReason))
               else if s.owner.workspace !in db.counters then
                 after == db && response == Answered(Realtime.Support(NoCounter))
               else
                 var n := db.counters[s.owner.workspace].supportNext;
                 if exists i :: 0 <= i < |db.supports| && db.supports[i].requester.workspace == s.owner.workspace
                                && db.supports[i].displayId == "SUP-" + Decimal.Print(n)
                 then after == db && response == ToolFailed
                 else
                   && response == Answered(Realtime.Support(Recorded("SUP-" + Decimal.Print(n))))
                   && after.supports
                      == db.supports + [SupportRequest(s.owner, "SUP-" + Decimal.Print(n), text)]
                   && after.counters
                      == db.counters[s.owner.workspace := db.counters[s.owner.workspace].(supportNext := n + 1)]
                   && after.confirmations == db.confirmations && after.enquiries == db.enquiries
                   && after.distributors == db.distributors
  {
    hide IsTextOf, Strip, Classify, Say, Details.IsTrimmed, RequestSupport, Decimal.Print, ReachesIntents;
    ReachingIsHandled(db, hash, s, m, text);
    TextIsItsOwn(s, m, text);
    Effects.WhatSupportDoes(db, s.owner, text, text);
  }

  lemma TextIsItsOwn(s: Conversation, m: Message, text: string)
    requires ReachesIntents(s, m, text)
    ensures Details.IsTrimmed(text, text) && 1 <= |text| <= 4096
  {
    hide Details.IsTrimmed, Strip;
    TextIsStripped(m, text);
    TrimmedStays(m.text);
    Details.WhatIsStripped(text, text);
  }

  /**
   * A request without a draft: a unit that is not dealt in is named; a request that only lacks its place is parked with
   * what is known of it, and the place is asked for; otherwise the quantity is asked for, or the product.
   */
  lemma WhatAnIncompleteRequestDoes(db: Db, hash: Payload -> Digest, s: Conversation, m: Message, text: string)
    requires ReachesIntents(s, m, text) && Meaning(text, m) == Scored(Create)
    requires Extract(Tokenise(text)).draft.None?
    ensures var found := Extract(Tokenise(text));
            Say(db, hash, s, m)
            == if found.unsupportedUnit.Some? then
                 (db, s.(slots := None), UnitRefused(found.unsupportedUnit.value))
               else if "destination" in found.missing && "product" !in found.missing then
                 (db, s.(slots := Some(Slots(found.partial, found.missing))), AskDestination)
               else if "quantity" in found.missing || "unit" in found.missing then (db, s.(slots := None), AskQuantity)
               else (db, s.(slots := None), AskProduct)
  {
    hide Say, Classify, Tokenise, ExtractFrom, ReachesIntents;
    ReachingIsHandled(db, hash, s, m, text);
    DialogueLaws.MissingDestinationOnly(Tokenise(text), 0);
  }

  /** Anything else changes no table: it is small talk, or offers a search for what was recognised. */
  lemma WhatOtherMessagesDo(db: Db, hash: Payload -> Digest, s: Conversation, m: Message, text: string)
    requires ReachesIntents(s, m, text) && Meaning(text, m) != Scored(Create) && Meaning(text, m) != Scored(Human)
    ensures Say(db, hash, s, m)
         == if m.recognised && Meaning(text, m) != Scored(Settled) then (db, s.(slots := None, search := true), Unsure)
            else (db, s.(slots := None), Chat)
  {
    hide Say, Classify, Tokenise, ReachesIntents;
    ReachingIsHandled(db, hash, s, m, text);
  }

  /** A place for a parked request that does not know the rest ends the conversation. */
  lemma WhenAPlaceCompletesNothing(db: Db, hash: Payload -> Digest, s: Conversation, m: Message, text: string)
    requires IsTextOf(m, text) && IsHeard(text) && IsPlain(s, Meaning(text, m))
    requires IsBarePlace(s, Tokenise(text), Meaning(text, m)) && Extract(Tokenise(text)).draft.None?
    requires !IsWhole(s.slots.value.partial)
    ensures Say(db, hash, s, m) == (db, s, Died)
  {
    hide IsTextOf, Strip, Classify, Extract, Tokenise, Titlecase;
    TextIsStripped(m, text);
  }

  /** Nothing else is heard: every text is one of the cases above. */
  lemma EveryTextIsOneOfThese(s: Conversation, m: Message, text: string)
    requires IsTextOf(m, text) && IsHeard(text)
    ensures var intent := Meaning(text, m);
            || (s.pending.Some? && (intent == Accept || intent == Refuse))
            || (s.pending.None? && (intent == Accept || (intent == Refuse && (s.search || s.slots.Some?))))
            || (IsPlain(s, intent)
                && ((exists draft :: Makes(s, text, intent, draft))
                    || (IsBarePlace(s, Tokenise(text), intent) && Extract(Tokenise(text)).draft.None?
                        && !IsWhole(s.slots.value.partial))
                    || (ReachesIntents(s, m, text)
                        && (intent == Scored(Create) ==> Extract(Tokenise(text)).draft.None?))))
  {
    hide IsTextOf, Classify, Extract, Tokenise, Titlecase;
    var intent, found := Meaning(text, m), Extract(Tokenise(text)).draft;
    if IsPlain(s, intent) && found.Some? && (s.slots.Some? || intent == Scored(Create)) {
      assert Makes(s, text, intent, found.value);
    } else if IsPlain(s, intent) && found.None? && IsBarePlace(s, Tokenise(text), intent)
      && IsWhole(s.slots.value.partial)
    {
      var head, p := FirstFour(Tokenise(text)), s.slots.value.partial;
      assert IsHead(Tokenise(text), head);
      assert Makes(s, text, intent, EnquiryDraft(p.product.value, p.quantity.value, p.unit.value, Titlecase(head)));
    }
  }

  // ---- frames that are no messages ----

  /** The distributor of a context update: none without a name, and at most 32 characters of one. */
  predicate IsNoted(selected: string, known: Option<string>) {
    if selected == "" then known == None
    else known.Some? && known.value <= selected && |known.value| <= 32
         && (|known.value| == 32 || known.value == selected)
  }

  /** A frame that is no message leaves tables and conversation alone, and is answered before the rest. */
  lemma WhatOtherFramesDo(
      db: Db, hash: Payload -> Digest, s: Conversation, frame: Frame, rest: seq<Frame>, known: Option<string>)
    requires !frame.Said? && (frame.NewContext? ==> IsNoted(frame.selected, known))
    ensures var (tables, end, sent) := Exchange(db, hash, s, [frame] + rest);
            if frame.Disconnected? || frame.NotAnObject? then (tables, end, sent) == (db, s, [])
            else
              var later := Exchange(db, hash, s, rest);
              && tables == later.0 && end == later.1
              && sent == (match frame
                          case Media => [MediaIgnored]
                          case TooLong => [EventTooLong]
                          case NotJson => [InvalidJson]
                          case BadContext => [ContextNotObject]
                          case NewContext(_) => [ContextUpdated(known)]
                          case _ => []) + later.2
  {
    hide Say, Notice;
    assert ([frame] + rest)[1..] == rest;
    if frame.NewContext? { NotedIsNotice(frame.selected, known); } else { OtherNotices(frame); }
  }

  lemma NotedIsNotice(selected: string, known: Option<string>)
    requires IsNoted(selected, known)
    ensures Notice(NewContext(selected)) == [ContextUpdated(known)]
  {
    if selected != "" { assert known.value == selected[..|known.value|]; }
  }

  lemma OtherNotices(frame: Frame)
    requires !frame.NewContext?
    ensures Notice(frame) == match frame
                             case Media => [MediaIgnored]
                             case TooLong => [EventTooLong]
                             case NotJson => [InvalidJson]
                             case BadContext => [ContextNotObject]
                             case _ => []
  {
  }

  /** A message is answered, and ends the session if it raises. */
  lemma WhatAMessageFrameDoes(db: Db, hash: Payload -> Digest, s: Conversation, m: Message, rest: seq<Frame>)
    ensures var (after, t, response) := Say(db, hash, s, m);
            var (tables, end, sent) := Exchange(db, hash, s, [Said(m)] + rest);
            if response == Died then (tables, end, sent) == (after, t, [Reply(Died)])
            else
              var later := Exchange(after, hash, t, rest);
              tables == later.0 && end == later.1 && sent == [Reply(response)] + later.2
  {
    hide Say;
    assert ([Said(m)] + rest)[1..] == rest;
  }
}
