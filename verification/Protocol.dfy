/** Both engines at work on one database: whole runs, and what stands behind every enquiry that is written. */
module Protocol {
  import opened Wrappers
  import opened Enquiries
  import Realtime
  import Dialogue
  import Extraction
  import Tokeniser

  // ---- the world ----

  datatype Client = Phone(session: Realtime.Session) | Chat(conversation: Dialogue.Conversation) {
    function Owner(): Principal { if Phone? then session.owner else conversation.owner }

    function Id(): nat { if Phone? then session.id else conversation.id }

    /** The staged action, if there is one. */
    function Staged(): Option<Realtime.PendingEnquiry> {
      if Phone? then session.pending
      else if conversation.pending.Some? && conversation.confirmation.Some? then
        Some(Realtime.PendingEnquiry(conversation.pending.value, conversation.confirmation.value, false))
      else None
    }
  }

  /** `next` is the identifier the next session gets. */
  datatype World = World(db: Db, clients: map<nat, Client>, next: nat)

  /**
   * One atomic step. `Close` covers every way a session ends: deletion, expiry, eviction and disconnection. Each event
   * carries its own reading of the clock.
   */
  datatype Event =
    | OpenPhone(who: Principal)
    | OpenChat(who: Principal)
    | Close(session: nat)
    | Tool(session: nat, who: Principal, call: Realtime.ToolCall)
    | Transcript(session: nat, who: Principal, utterance: string, now: real)
    | Typed(session: nat, message: Dialogue.Message)

  /** The owned session an event is let through to. */
  function Target(w: World, e: Event): Option<Client> {
    match e
    case Tool(id, who, _) =>
      if id in w.clients && w.clients[id].Phone? && w.clients[id].Owner() == who then Some(w.clients[id]) else None
    case Transcript(id, who, _, _) =>
      if id in w.clients && w.clients[id].Phone? && w.clients[id].Owner() == who then Some(w.clients[id]) else None
    case Typed(id, _) => if id in w.clients && w.clients[id].Chat? then Some(w.clients[id]) else None
    case _ => None
  }

  /** What an event let through to a session makes of it and of the database; None ends the session. */
  function React(db: Db, hash: Payload -> Digest, c: Client, e: Event): (Db, Option<Client>) {
    match e
    case Tool(_, _, call) =>
      if c.Phone? then
        var (after, s, _) := Realtime.Execute(db, hash, c.session, call);
        (after, Some(Phone(s)))
      else (db, Some(c))
    case Transcript(_, _, utterance, now) =>
      if c.Phone? then
        var (after, s, _) := Realtime.Observe(db, c.session, utterance, now);
        (after, Some(Phone(s)))
      else (db, Some(c))
    case Typed(_, message) =>
      if c.Chat? then
        var (after, s, response) := Dialogue.Say(db, hash, c.conversation, message);
        (after, if response == Dialogue.Died then None else Some(Chat(s)))
      else (db, Some(c))
    case _ => (db, Some(c))
  }

  function Step(w: World, hash: Payload -> Digest, e: Event): World {
    match e
    case OpenPhone(who) =>
      World(w.db, w.clients[w.next := Phone(Realtime.Session(w.next, who, None, []))], w.next + 1)
    case OpenChat(who) =>
      World(w.db, w.clients[w.next := Chat(Dialogue.Conversation(w.next, who, None, None, false, None))], w.next + 1)
    case Close(id) => w.(clients := w.clients - {id})
    case _ =>
      match Target(w, e)
      case None => w
      case Some(c) =>
        var (after, d) := React(w.db, hash, c, e);
        World(after, if d.Some? then w.clients[e.session := d.value] else w.clients - {e.session}, w.next)
  }

  /** A run: where it starts, the hash it uses, and its events. */
  datatype Run = Run(start: World, hash: Payload -> Digest, events: seq<Event>)

  function At(r: Run, n: nat): World
    requires n <= |r.events|
  {
    if n == 0 then r.start else Step(At(r, n - 1), r.hash, r.events[n - 1])
  }

  /** A run starts without sessions, and no old row belongs to a session that is yet to come. */
  predicate IsFresh(start: World) {
    start.clients == map[] && forall i :: 0 <= i < |start.db.confirmations| ==>
      start.db.confirmations[i].session < start.next
  }

  // ---- what an event does to the staged action of a session ----

  datatype Act = Idle | Proposes(details: Payload) | Accepts | Declines

  /** The act a session's user or agent performs: a proposal that runs and answers, or words that accept or decline. */
  function ActOf(hash: Payload -> Digest, db: Db, c: Client, e: Event): Act {
    match e
    case Tool(_, _, call) =>
      if c.Phone? && Realtime.GetsThrough(c.session, call) && call.name == "create_enquiry"
        && Validated(call.args).Some?
         && Realtime.Execute(db, hash, c.session, call).2.Some? then
        Proposes(Validated(call.args).value)
      else Idle
    case Transcript(_, _, utterance, _) =>
      if Realtime.Accepts(utterance) then Accepts else if Realtime.Declines(utterance) then Declines else Idle
    case Typed(_, m) =>
      if c.Phone? then Idle
      else
        var text, said := Tokeniser.Strip(m.text), Dialogue.Say(db, hash, c.conversation, m);
        if text == "" || |text| > Dialogue.MAX_TEXT_LENGTH then Idle
        else if Dialogue.Classify(text, m.guess) == Dialogue.Accept then Accepts
        else if Dialogue.Classify(text, m.guess) == Dialogue.Refuse then Declines
        else if said.2.PleaseConfirm? && said.1.pending.Some? then Proposes(said.1.pending.value)
        else Idle
    case _ => Idle
  }

  /** The event reads details back and stages them. */
  predicate Stages(hash: Payload -> Digest, db: Db, c: Client, e: Event, details: Payload) {
    && ActOf(hash, db, c, e) == Proposes(details)
    && match e
       case Tool(_, _, call) =>
         c.Phone? && Realtime.Execute(db, hash, c.session, call).2 == Some(Realtime.ReadBack(details))
       case Typed(_, _) => true
       case _ => false
  }

  /** The event drops a staged action because the new details cannot be used. */
  predicate Spoils(hash: Payload -> Digest, db: Db, c: Client, e: Event) {
    e.Typed? && c.Chat? && Dialogue.Say(db, hash, c.conversation, e.message).2 == Dialogue.Unusable
  }

  predicate Writes(hash: Payload -> Digest, db: Db, c: Client, e: Event) {
    React(db, hash, c, e).0.enquiries != db.enquiries
  }

  /** The event interferes with staged details: it accepts, declines, proposes others, stages anew, spoils or writes. */
  predicate Interferes(hash: Payload -> Digest, db: Db, c: Client, e: Event, details: Payload) {
    var act := ActOf(hash, db, c, e);
    || act == Accepts || act == Declines
    || (act.Proposes? && (act.details != details || Stages(hash, db, c, e, act.details)))
    || Spoils(hash, db, c, e)
    || Writes(hash, db, c, e)
  }

  // ---- one event in its session ----

  /** The local engine sets and clears its two pending variables together, and stages only validated details. */
  predicate Paired(c: Client) { c.Chat? ==> PairedChat(c.conversation) }

  predicate PairedChat(s: Dialogue.Conversation) {
    && (s.pending.Some? <==> s.confirmation.Some?)
    && (s.pending.Some? ==> Validated(Dumped(s.pending.value)) == s.pending)
  }

  predicate Fits(c: Client, e: Event) { if c.Phone? then e.Tool? || e.Transcript? else e.Typed? }

  predicate IsStaging(hash: Payload -> Digest, db: Db, c: Client, e: Event) {
    var act := ActOf(hash, db, c, e);
    act.Proposes? && Stages(hash, db, c, e, act.details)
  }

  /** A staged action survives an event that does not interfere with it, or that accepts it for the first time. */
  predicate Survives(before: Realtime.PendingEnquiry, after: Realtime.PendingEnquiry, act: Act) {
    && after.arguments == before.arguments && after.confirmation == before.confirmation
    && (act == Accepts ==> !before.confirmed && after.confirmed)
    && (act != Accepts ==> after.confirmed == before.confirmed)
    && act != Declines && (act.Proposes? ==> act.details == before.arguments)
  }

  /** The row belongs to the session and its owner. */
  predicate IsRowOf(db: Db, c: Client, id: nat) {
    id < |db.confirmations| && db.confirmations[id].session == c.Id() && db.confirmations[id].owner == c.Owner()
  }

  /** When the event would write. */
  function WriteClock(e: Event): real {
    match e
    case Tool(_, _, call) => call.now
    case Typed(_, m) => m.later
    case _ => 0.0
  }

  /** A write takes exactly what is staged, and only an accepted action is written. */
  predicate WritesStaged(hash: Payload -> Digest, db: Db, c: Client, e: Event) {
    var after, act := React(db, hash, c, e).0, ActOf(hash, db, c, e);
    && c.Staged().Some? && c.Staged().value.confirmation < |db.confirmations|
    && var p := c.Staged().value;
       && |after.enquiries| == |db.enquiries| + 1 && db.enquiries <= after.enquiries
       && after.enquiries[|db.enquiries|].buyer == c.Owner()
       && after.enquiries[|db.enquiries|].payload == p.arguments
       && after.enquiries[|db.enquiries|].confirmation == p.confirmation
       && WriteClock(e) < db.confirmations[p.confirmation].expiresAt
       && (c.Phone? ==> p.confirmed && act == Proposes(p.arguments))
       && (c.Chat? ==> act == Accepts)
  }

  predicate Effect(hash: Payload -> Digest, db: Db, c: Client, e: Event) {
    var (after, d) := React(db, hash, c, e);
    var act := ActOf(hash, db, c, e);
    && (d.Some? ==>
          d.value.Owner() == c.Owner() && d.value.Id() == c.Id() && d.value.Phone? == c.Phone? && Paired(d.value))
    && (IsStaging(hash, db, c, e) ==>
          && d.Some? && d.value.Staged().Some? && after.enquiries == db.enquiries
          && d.value.Staged().value.arguments == act.details && !d.value.Staged().value.confirmed
          && IsRowOf(after, c, d.value.Staged().value.confirmation))
    && (!IsStaging(hash, db, c, e) && d.Some? && d.value.Staged().Some? ==>
          && c.Staged().Some? && Survives(c.Staged().value, d.value.Staged().value, act)
          && !Spoils(hash, db, c, e) && !Writes(hash, db, c, e))
    && (Writes(hash, db, c, e) ==> WritesStaged(hash, db, c, e))
  }

  /** The staged row of a session is its own, and once accepted it is no longer pending. */
  predicate StagedRow(db: Db, c: Client) {
    c.Staged().Some? ==>
      && IsRowOf(db, c, c.Staged().value.confirmation)
      && (c.Staged().value.confirmed ==> db.confirmations[c.Staged().value.confirmation].status != Pending)
  }

  lemma PreparedRow(
      db: Db, hash: Payload -> Digest, who: Principal, session: nat, payload: Payload, hint: nat, now: real)
    ensures var (after, id) := Prepare(db, hash, who, session, payload, hint, now);
            && after.enquiries == db.enquiries
            && (id.Some? ==> id.value < |after.confirmations| && after.confirmations[id.value].session == session
                             && after.confirmations[id.value].owner == who)
  {
    hide KeyTaken;
  }

  lemma ConsumedRow(db: Db, hash: Payload -> Digest, who: Principal, id: nat, payload: Payload, now: real)
    ensures var (after, outcome) := Consume(db, hash, who, id, payload, now);
            if outcome.Created? then
              && id < |db.confirmations| && now < db.confirmations[id].expiresAt
              && |after.enquiries| == |db.enquiries| + 1 && db.enquiries <= after.enquiries
              && after.enquiries[|db.enquiries|].buyer == who && after.enquiries[|db.enquiries|].payload == payload
              && after.enquiries[|db.enquiries|].confirmation == id
            else after.enquiries == db.enquiries
  {
    hide EnquiryFor, Violates, EnquiryId;
  }

  /** The gate in front of create_enquiry, where it writes nothing. */
  lemma GateStages(hash: Payload -> Digest, db: Db, s: Realtime.Session, call: Realtime.ToolCall)
    requires Validated(call.args).Some?
    ensures var (after, t, reply) := Realtime.Gate(db, hash, s, call);
            var details := Validated(call.args).value;
            && t.id == s.id && t.owner == s.owner && t.completed == s.completed
            && (reply == Some(Realtime.ReadBack(details)) ==>
                  && t.pending.Some? && t.pending.value.arguments == details && !t.pending.value.confirmed
                  && after.enquiries == db.enquiries && IsRowOf(after, Phone(s), t.pending.value.confirmation))
            && (reply != Some(Realtime.ReadBack(details)) && t.pending.Some? ==>
                  t.pending == s.pending && (reply.Some? ==> s.pending.value.arguments == details))
  {
    hide Prepare, Consume, Validated, Dumped;
    PreparedRow(db, hash, s.owner, s.id, Validated(call.args).value, call.hint, call.now);
    var (after, t, reply) := Realtime.Gate(db, hash, s, call);
    if reply == Some(Realtime.ReadBack(Validated(call.args).value)) {
      var (d, id) := Prepare(db, hash, s.owner, s.id, Validated(call.args).value, call.hint, call.now);
      assert after == d && t.pending.value.confirmation == id.value;
      assert IsRowOf(after, Phone(s), id.value);
    }
  }

  /** The gate in front of create_enquiry, where it writes. */
  lemma GateWrites(hash: Payload -> Digest, db: Db, s: Realtime.Session, call: Realtime.ToolCall)
    requires Validated(call.args).Some?
    ensures var (after, t, reply) := Realtime.Gate(db, hash, s, call);
            var details := Validated(call.args).value;
            after.enquiries == db.enquiries
            || (&& reply.Some? && reply.value.Success? && t.pending.None?
                && s.pending.Some? && s.pending.value.confirmed && s.pending.value.arguments == details
                && var id := s.pending.value.confirmation;
                   && id < |db.confirmations| && call.now < db.confirmations[id].expiresAt
                   && |after.enquiries| == |db.enquiries| + 1 && db.enquiries <= after.enquiries
                   && after.enquiries[|db.enquiries|].buyer == s.owner
                   && after.enquiries[|db.enquiries|].payload == details
                   && after.enquiries[|db.enquiries|].confirmation == id)
  {
    hide Prepare, Consume, Validated, Dumped;
    var details := Validated(call.args).value;
    ValidatedIsStable(call.args);
    PreparedRow(db, hash, s.owner, s.id, details, call.hint, call.now);
    if s.pending.Some? {
      ConsumedRow(db, hash, s.owner, s.pending.value.confirmation, details, call.now);
    }
  }

  lemma ToolEffect(hash: Payload -> Digest, db: Db, c: Client, e: Event)
    requires c.Phone? && e.Tool?
    ensures Effect(hash, db, c, e)
  {
    hide Realtime.Gate, Realtime.OtherTool, Realtime.Lookup, Realtime.Remember, Validated, Realtime.Observe;
    hide Dialogue.Say, Dialogue.Classify, Realtime.Accepts, Realtime.Declines, Tokeniser.Strip, IsRowOf;
    var s, call := c.session, e.call;
    if Validated(call.args).Some? {
      GateStages(hash, db, s, call);
      GateWrites(hash, db, s, call);
    } else {
      InvalidGate(hash, db, s, call);
    }
    OtherToolWritesNothing(db, s.owner, call);
  }

  lemma InvalidGate(hash: Payload -> Digest, db: Db, s: Realtime.Session, call: Realtime.ToolCall)
    requires Validated(call.args).None?
    ensures Realtime.Gate(db, hash, s, call) == (db, s, Some(Realtime.InvalidDetails))
  {
    hide Validated;
  }

  lemma OtherToolWritesNothing(db: Db, who: Principal, call: Realtime.ToolCall)
    ensures Realtime.OtherTool(db, who, call.name, call.args, call.answer).0.enquiries == db.enquiries
  {
  }

  lemma SupportWritesNothing(db: Db, who: Principal, text: string)
    ensures RequestSupport(db, who, text).0.enquiries == db.enquiries
  {
  }

  lemma TranscriptEffect(hash: Payload -> Digest, db: Db, c: Client, e: Event)
    requires c.Phone? && e.Transcript? && StagedRow(db, c)
    ensures Effect(hash, db, c, e)
  {
    hide Realtime.Accepts, Realtime.Declines, Realtime.Execute, Realtime.GetsThrough, Validated, Dialogue.Say;
    hide Dialogue.Classify, Tokeniser.Strip;
  }

  /** What a proposal, or a message that may turn into one, makes of the conversation. */
  predicate MayStage(db: Db, s: Dialogue.Conversation, after: Db, t: Dialogue.Conversation,
      response: Dialogue.Response) {
    && t.id == s.id && t.owner == s.owner && after.enquiries == db.enquiries
    && (if response.PleaseConfirm? then
          && t.confirmation.Some? && t.pending.Some? && Validated(Dumped(t.pending.value)) == t.pending
          && t.confirmation.value < |after.confirmations|
          && after.confirmations[t.confirmation.value].session == s.id
          && after.confirmations[t.confirmation.value].owner == s.owner
        else if response == Dialogue.Unusable then t.pending.None? && t.confirmation.None?
        else t.pending == s.pending && t.confirmation == s.confirmation)
  }

  lemma ProposeMayStage(
      db: Db, hash: Payload -> Digest, s: Dialogue.Conversation, draft: Extraction.EnquiryDraft, hint: nat, now: real)
    ensures var (after, t, response) := Dialogue.Propose(db, hash, s, draft, hint, now);
            MayStage(db, s, after, t, response)
  {
    hide Prepare, Validated, Dumped, Dialogue.DraftArguments;
    var details := Validated(Dialogue.DraftArguments(draft));
    if details.Some? {
      ValidatedIsStable(Dialogue.DraftArguments(draft));
      PreparedRow(db, hash, s.owner, s.id, details.value, hint, now);
    }
  }

  lemma RequestMayStage(
      db: Db, hash: Payload -> Digest, s: Dialogue.Conversation, tokens: seq<string>, hint: nat, now: real)
    ensures var (after, t, response) := Dialogue.Request(db, hash, s, tokens, hint, now);
            MayStage(db, s, after, t, response)
  {
    hide Dialogue.Propose, Extraction.Extract, Dialogue.Completed, MayStage;
    var found := Extraction.Extract(tokens);
    if found.draft.Some? { ProposeMayStage(db, hash, s, found.draft.value, hint, now); }
    else {
      var (after, t, response) := Dialogue.Request(db, hash, s, tokens, hint, now);
      QuietStages(db, s, after, t, response);
    }
  }

  lemma QuietStages(db: Db, s: Dialogue.Conversation, after: Db, t: Dialogue.Conversation, response: Dialogue.Response)
    requires after.enquiries == db.enquiries && t.id == s.id && t.owner == s.owner
    requires t.pending == s.pending && t.confirmation == s.confirmation
    requires !response.PleaseConfirm? && response != Dialogue.Unusable
    ensures MayStage(db, s, after, t, response)
  {
  }

  lemma HandleMayStage(
      db: Db, hash: Payload -> Digest, s: Dialogue.Conversation, text: string, intent: Dialogue.Intent,
        m: Dialogue.Message)
    ensures var (after, t, response) := Dialogue.Handle(db, hash, s, text, intent, m);
            MayStage(db, s, after, t, response) && (response.PleaseConfirm? ==> intent.Scored?)
  {
    hide Dialogue.Request, RequestSupport, MayStage;
    if intent == Dialogue.Scored(Dialogue.Create) {
      RequestMayStage(db, hash, s, Tokeniser.Tokenise(text), m.hint, m.now);
    } else {
      SupportWritesNothing(db, s.owner, text);
      var (after, t, response) := Dialogue.Handle(db, hash, s, text, intent, m);
      QuietStages(db, s, after, t, response);
    }
  }

  /** A terse reply to a staged enquiry clears it; only an acceptance can write, and it writes what was staged. */
  lemma ResolveClears(db: Db, hash: Payload -> Digest, s: Dialogue.Conversation, accepted: bool, now: real, later: real)
    requires s.pending.Some?
    ensures var (after, t, response) := Dialogue.Resolve(db, hash, s, accepted, now, later);
            && t == s.(pending := None, confirmation := None) && !response.PleaseConfirm? && response != Dialogue.Died
            && (after.enquiries != db.enquiries ==>
                  && accepted && s.confirmation.Some? && s.confirmation.value < |db.confirmations|
                  && Validated(Dumped(s.pending.value)).Some?
                  && later < db.confirmations[s.confirmation.value].expiresAt
                  && |after.enquiries| == |db.enquiries| + 1 && db.enquiries <= after.enquiries
                  && after.enquiries[|db.enquiries|].buyer == s.owner
                  && after.enquiries[|db.enquiries|].payload == Validated(Dumped(s.pending.value)).value
                  && after.enquiries[|db.enquiries|].confirmation == s.confirmation.value)
  {
    hide Validated, Dumped, Consume;
    if accepted && s.confirmation.Some? {
      var mid := Confirm(db, s.owner, s.confirmation.value, now).0;
      var details := Validated(Dumped(s.pending.value));
      if details.Some? { ConsumedRow(mid, hash, s.owner, s.confirmation.value, details.value, later); }
    }
  }

  lemma SayEffect(db: Db, hash: Payload -> Digest, s: Dialogue.Conversation, m: Dialogue.Message)
    ensures var (after, t, response) := Dialogue.Say(db, hash, s, m);
            var text := Tokeniser.Strip(m.text);
            var intent := Dialogue.Classify(text, m.guess);
            if text == "" || |text| > Dialogue.MAX_TEXT_LENGTH then after == db && t == s
              && response == Dialogue.Ignored
            else if s.pending.Some? && intent in {Dialogue.Accept, Dialogue.Refuse} then
              (after, t, response) == Dialogue.Resolve(db, hash, s, intent == Dialogue.Accept, m.now, m.later)
            else MayStage(db, s, after, t, response)
                 && (response.PleaseConfirm? ==> intent.Scored?)
  {
    hide Dialogue.Resolve, Dialogue.Classify, Dialogue.Handle, Dialogue.Propose, Dialogue.Fill, Tokeniser.Strip;
    var text := Tokeniser.Strip(m.text);
    var intent := Dialogue.Classify(text, m.guess);
    var t := s.(slots := None);
    HandleMayStage(db, hash, s, text, intent, m);
    HandleMayStage(db, hash, t, text, intent, m);
    if s.slots.Some? {
      var filling := Dialogue.Fill(s.slots.value, Tokeniser.Tokenise(text), intent);
      if filling.Draft? { ProposeMayStage(db, hash, t, filling.draft, m.hint, m.now); }
    }
  }

  lemma TypedEffect(hash: Payload -> Digest, db: Db, c: Client, e: Event)
    requires c.Chat? && e.Typed? && Paired(c)
    ensures Effect(hash, db, c, e)
  {
    hide Realtime.Accepts, Realtime.Declines, Realtime.Execute, Realtime.Observe, Realtime.GetsThrough, Validated,
         Dumped;
    hide Dialogue.Say, Dialogue.Classify, Dialogue.Resolve, Tokeniser.Strip;
    var s, m := c.conversation, e.message;
    SayEffect(db, hash, s, m);
    if s.pending.Some? {
      ResolveClears(db, hash, s, true, m.now, m.later);
      ResolveClears(db, hash, s, false, m.now, m.later);
    }
  }

  lemma EventEffect(hash: Payload -> Digest, db: Db, c: Client, e: Event)
    requires Fits(c, e) && Paired(c) && StagedRow(db, c)
    ensures Effect(hash, db, c, e)
  {
    hide Effect;
    if e.Tool? { ToolEffect(hash, db, c, e); }
    else if e.Transcript? { TranscriptEffect(hash, db, c, e); }
    else { TypedEffect(hash, db, c, e); }
  }
}
