/** When an accepted action is written: the converse of what stands behind every enquiry, over all runs. */
module Progress {
  import opened Wrappers
  import opened Enquiries
  import opened Ledger
  import opened Protocol
  import opened Runs
  import Realtime
  import Details
  import Dialogue
  import DialogueLaws
  import Endings
  import Extraction
  import Outcomes
  import ReadOuts
  import ReadBack
  import Tokeniser

  // ---- rows of other sessions ----

  /** A call changes no old row but the one it names. */
  lemma CallTouches(db: Db, hash: Payload -> Digest, call: ServiceCall, i: nat)
    requires i < |db.confirmations|
    requires call.PrepareCall? || call.SupportCall? || call.id != i
    ensures var after := Apply(db, hash, call);
            i < |after.confirmations| && after.confirmations[i] == db.confirmations[i]
  {
    hide KeyTaken, Violates, Existing, EnquiryFor, SupportIdTaken, EnquiryId, SupportId;
  }

  /** A session changes no old row but the one it has staged. */
  lemma EventTouches(hash: Payload -> Digest, db: Db, c: Client, e: Event, i: nat)
    requires Fits(c, e) && i < |db.confirmations| && StagedId(c) != Some(i)
    ensures var after := React(db, hash, c, e).0;
            i < |after.confirmations| && after.confirmations[i] == db.confirmations[i]
  {
    hide React, Apply, Fits, StagedId;
    var calls := EventCalls(hash, db, c, e);
    if |calls| == 0 {
      ApplyNone(db, hash);
      assert calls == [];
    } else if |calls| == 1 {
      assert calls == [calls[0]];
      ApplyOne(db, hash, calls[0]);
      CallTouches(db, hash, calls[0], i);
    } else {
      assert calls == [calls[0], calls[1]];
      ApplyTwo(db, hash, calls[0], calls[1]);
      CallTouches(db, hash, calls[0], i);
      CallTouches(Apply(db, hash, calls[0]), hash, calls[1], i);
    }
  }

  // ---- the staged row is ready ----

  /** The status of a staged row: pending until it is accepted, then confirmed unless a call has come too late. */
  predicate IsReady(db: Db, c: Client) {
    c.Staged().Some? ==>
      && IsRowOf(db, c, c.Staged().value.confirmation)
      && var status := db.confirmations[c.Staged().value.confirmation].status;
         if c.Staged().value.confirmed then status == Confirmed || status == Expired else status == Pending
  }

  lemma PreparedIsPending(
      db: Db, hash: Payload -> Digest, who: Principal, session: nat, payload: Payload, hint: nat, now: real)
    ensures var (after, id) := Prepare(db, hash, who, session, payload, hint, now);
            if id.None? then after == db
            else
              && id.value < |after.confirmations| && after.confirmations[id.value].status == Pending
              && after.confirmations[id.value].session == session && after.confirmations[id.value].owner == who
  {
    hide KeyTaken;
  }

  /** A consumption that does not write leaves its row alone, or marks it as expired when its time is up. */
  lemma ConsumeKeepsRow(db: Db, hash: Payload -> Digest, who: Principal, id: nat, payload: Payload, now: real)
    requires Owns(db, who, id)
    ensures var (after, outcome) := Consume(db, hash, who, id, payload, now);
            && |after.confirmations| == |db.confirmations|
            && (!outcome.Created? ==>
                  after == db
                  || (after.confirmations[id] == db.confirmations[id].(status := Expired)
                      && db.confirmations[id].expiresAt <= now))
  {
    hide EnquiryFor, Violates, EnquiryId;
  }

  lemma GateIsReady(hash: Payload -> Digest, db: Db, s: Realtime.Session, call: Realtime.ToolCall)
    requires IsReady(db, Phone(s))
    ensures var (after, t, _) := Realtime.Gate(db, hash, s, call);
            IsReady(after, Phone(t))
  {
    hide Prepare, Consume, Validated, Dumped;
    var details := Validated(call.args);
    if details.Some? {
      PreparedIsPending(db, hash, s.owner, s.id, details.value, call.hint, call.now);
      ValidatedIsStable(call.args);
      if s.pending.Some? {
        ConsumeKeepsRow(db, hash, s.owner, s.pending.value.confirmation, details.value, call.now);
      }
    }
  }

  lemma ToolIsReady(hash: Payload -> Digest, db: Db, c: Client, e: Event)
    requires c.Phone? && e.Tool? && IsReady(db, c)
    ensures var (after, d) := React(db, hash, c, e);
            d.Some? && IsReady(after, d.value)
  {
    hide Realtime.Gate, Realtime.OtherTool, Realtime.Lookup, Realtime.Remember, IsReady, Realtime.Observe;
    hide Dialogue.Say, Dialogue.Classify, Tokeniser.Strip;
    var s, call := c.session, e.call;
    var (after, t, _) := Realtime.Execute(db, hash, s, call);
    if Realtime.GetsThrough(s, call) && Realtime.IsRegistered(call.name) && call.name == "create_enquiry" {
      GateIsReady(hash, db, s, call);
      OnlyTheCacheDiffers(after, Realtime.Gate(db, hash, s, call).1, t);
    } else {
      OtherToolKeepsRows(db, s.owner, call);
      SameRows(db, after, c);
      OnlyTheCacheDiffers(after, s, t);
    }
  }

  lemma OtherToolKeepsRows(db: Db, who: Principal, call: Realtime.ToolCall)
    ensures Realtime.OtherTool(db, who, call.name, call.args, call.answer).0.confirmations == db.confirmations
  {
    hide SupportIdTaken, SupportId;
  }

  lemma SameRows(db: Db, after: Db, c: Client)
    requires after.confirmations == db.confirmations
    ensures IsReady(after, c) == IsReady(db, c)
  {
  }

  lemma OnlyTheCacheDiffers(db: Db, s: Realtime.Session, t: Realtime.Session)
    requires s.id == t.id && s.owner == t.owner && s.pending == t.pending
    ensures IsReady(db, Phone(s)) == IsReady(db, Phone(t))
  {
  }

  lemma TranscriptIsReady(hash: Payload -> Digest, db: Db, c: Client, e: Event)
    requires c.Phone? && e.Transcript? && IsReady(db, c)
    ensures var (after, d) := React(db, hash, c, e);
            d.Some? && IsReady(after, d.value)
  {
    hide Realtime.Accepts, Realtime.Declines, Realtime.Execute, Dialogue.Say, Tokeniser.Strip;
  }

  lemma ProposeIsReady(
      db: Db, hash: Payload -> Digest, s: Dialogue.Conversation, draft: Extraction.EnquiryDraft, hint: nat, now: real)
    requires IsReady(db, Chat(s))
    ensures var (after, t, response) := Dialogue.Propose(db, hash, s, draft, hint, now);
            IsReady(after, Chat(t))
  {
    hide Prepare, Validated, Dialogue.DraftArguments;
    var details := Validated(Dialogue.DraftArguments(draft));
    if details.Some? { PreparedIsPending(db, hash, s.owner, s.id, details.value, hint, now); }
  }

  lemma OnlyTheSlotsDiffer(db: Db, s: Dialogue.Conversation, t: Dialogue.Conversation)
    requires s.id == t.id && s.owner == t.owner && s.pending == t.pending && s.confirmation == t.confirmation
    ensures IsReady(db, Chat(s)) == IsReady(db, Chat(t))
  {
  }

  lemma RequestIsReady(
      db: Db, hash: Payload -> Digest, s: Dialogue.Conversation, tokens: seq<string>, hint: nat, now: real)
    requires IsReady(db, Chat(s))
    ensures var (after, t, _) := Dialogue.Request(db, hash, s, tokens, hint, now);
            IsReady(after, Chat(t))
  {
    hide Dialogue.Propose, Extraction.Extract, Dialogue.Completed, IsReady;
    var found := Extraction.Extract(tokens);
    if found.draft.Some? {
      ProposeIsReady(db, hash, s, found.draft.value, hint, now);
    } else {
      OnlyTheSlotsDiffer(db, s, Dialogue.Request(db, hash, s, tokens, hint, now).1);
    }
  }

  lemma HandleIsReady(
      db: Db, hash: Payload -> Digest, s: Dialogue.Conversation, text: string, intent: Dialogue.Intent,
      m: Dialogue.Message)
    requires IsReady(db, Chat(s))
    ensures var (after, t, _) := Dialogue.Handle(db, hash, s, text, intent, m);
            IsReady(after, Chat(t))
  {
    hide Dialogue.Request, RequestSupport, IsReady;
    if intent == Dialogue.Scored(Dialogue.Create) {
      RequestIsReady(db, hash, s, Tokeniser.Tokenise(text), m.hint, m.now);
    } else {
      var (after, t, _) := Dialogue.Handle(db, hash, s, text, intent, m);
      SupportKeepsRows(db, s.owner, text);
      SameRows(db, after, Chat(s));
      OnlyTheSlotsDiffer(after, s, t);
    }
  }

  lemma SupportKeepsRows(db: Db, who: Principal, text: string)
    ensures RequestSupport(db, who, text).0.confirmations == db.confirmations
  {
    hide SupportIdTaken, SupportId;
  }

  lemma TypedIsReady(hash: Payload -> Digest, db: Db, c: Client, e: Event)
    requires c.Chat? && e.Typed? && IsReady(db, c)
    ensures var (after, d) := React(db, hash, c, e);
            d.Some? ==> IsReady(after, d.value)
  {
    hide Dialogue.Resolve, Dialogue.Classify, Dialogue.Handle, Dialogue.Propose, Dialogue.Fill, Tokeniser.Strip;
    hide Realtime.Execute, Realtime.Observe, IsReady;
    var s, m := c.conversation, e.message;
    var text, t := Tokeniser.Strip(m.text), s.(slots := None);
    var intent := Dialogue.Classify(text, m.guess);
    OnlyTheSlotsDiffer(db, s, t);
    HandleIsReady(db, hash, s, text, intent, m);
    HandleIsReady(db, hash, t, text, intent, m);
    if s.slots.Some? {
      var filling := Dialogue.Fill(s.slots.value, Tokeniser.Tokenise(text), intent);
      if filling.Draft? { ProposeIsReady(db, hash, t, filling.draft, m.hint, m.now); }
    }
    if s.pending.Some? {
      ResolveClears(db, hash, s, true, m.now, m.later);
      ResolveClears(db, hash, s, false, m.now, m.later);
    }
    var (after, u, _) := Dialogue.Say(db, hash, s, m);
    ClearedIsReady(after, u);
    AsideIsReady(db, s, intent);
  }

  lemma ClearedIsReady(db: Db, s: Dialogue.Conversation)
    ensures s.pending.None? ==> IsReady(db, Chat(s))
  {
  }

  lemma AsideIsReady(db: Db, s: Dialogue.Conversation, intent: Dialogue.Intent)
    requires IsReady(db, Chat(s))
    ensures Dialogue.Aside(s, intent).Some? ==> IsReady(db, Chat(Dialogue.Aside(s, intent).value.0))
  {
  }

  /** A session that reacts keeps its staged row ready. */
  lemma EventIsReady(hash: Payload -> Digest, db: Db, c: Client, e: Event)
    requires Fits(c, e) && IsReady(db, c)
    ensures var (after, d) := React(db, hash, c, e);
            d.Some? ==> IsReady(after, d.value)
  {
    hide React, IsReady;
    if e.Tool? { ToolIsReady(hash, db, c, e); }
    else if e.Transcript? { TranscriptIsReady(hash, db, c, e); }
    else { TypedIsReady(hash, db, c, e); }
  }

  // ---- every staged row is ready, in every run ----

  ghost predicate AllReady(w: World) { forall id <- w.clients :: IsReady(w.db, w.clients[id]) }

  /** The rows of other sessions are not touched. */
  lemma OthersStayReady(hash: Payload -> Digest, db: Db, c: Client, e: Event, d: Client)
    requires Fits(c, e) && IsReady(db, c) && IsReady(db, d) && c.Id() != d.Id()
    ensures IsReady(React(db, hash, c, e).0, d)
  {
    hide React, Fits;
    if d.Staged().Some? { EventTouches(hash, db, c, e, d.Staged().value.confirmation); }
  }

  lemma StepIsReady(w: World, hash: Payload -> Digest, e: Event)
    requires Ok(w) && AllReady(w)
    ensures AllReady(Step(w, hash, e))
  {
    hide React, Step, Target, Fits, Paired, StagedRow, IsReady;
    StepChanges(w, hash, e);
    var after := Step(w, hash, e);
    if Target(w, e).Some? {
      TargetFits(w, e);
      EventIsReady(hash, w.db, w.clients[e.session], e);
    }
    forall id <- after.clients ensures IsReady(after.db, after.clients[id]) {
      if id in w.clients && after.clients[id] == w.clients[id] {
        assert ClientOk(w, id) && IsReady(w.db, w.clients[id]);
        if Target(w, e).Some? && id != e.session {
          assert ClientOk(w, e.session);
          OthersStayReady(hash, w.db, w.clients[e.session], e, w.clients[id]);
        }
      } else {
        UnstagedIsReady(after.db, after.clients[id]);
      }
    }
  }

  lemma UnstagedIsReady(db: Db, c: Client)
    ensures c.Staged().None? ==> IsReady(db, c)
  {
  }

  lemma {:induction false} RunIsReady(r: Run, n: nat)
    requires IsFresh(r.start) && n <= |r.events|
    ensures AllReady(At(r, n))
  {
    hide At, Step, Ok, IsReady;
    AtStart(r);
    if n > 0 {
      AtStep(r, n - 1);
      RunIsOk(r, n - 1);
      RunIsReady(r, n - 1);
      StepIsReady(At(r, n - 1), r.hash, r.events[n - 1]);
    }
  }

  // ---- every row carries its own digest, in every run ----

  lemma EventIsDigested(hash: Payload -> Digest, db: Db, c: Client, e: Event)
    requires Fits(c, e) && Digested(db, hash)
    ensures Digested(React(db, hash, c, e).0, hash)
  {
    hide React, Fits, Digested, FromSession;
    var calls := EventCalls(hash, db, c, e);
    RunsAreDigested(db, hash, calls);
  }

  lemma {:induction false} RunIsDigested(r: Run, n: nat)
    requires n <= |r.events| && Digested(r.start.db, r.hash)
    ensures Digested(At(r, n).db, r.hash)
  {
    hide At, Step, React, Digested, Target, Fits;
    AtStart(r);
    if n > 0 {
      AtStep(r, n - 1);
      RunIsDigested(r, n - 1);
      var w, e := At(r, n - 1), r.events[n - 1];
      StepChanges(w, r.hash, e);
      if Target(w, e).Some? {
        TargetFits(w, e);
        EventIsDigested(r.hash, w.db, w.clients[e.session], e);
      }
    }
  }

  // ---- the realtime engine ----

  /** A call of create_enquiry, in earnest, for the details its session has staged and its user has accepted. */
  predicate IsAcceptedCall(s: Realtime.Session, call: Realtime.ToolCall) {
    && s.pending.Some? && s.pending.value.confirmed && Realtime.GetsThrough(s, call) && call.name == "create_enquiry"
    && Validated(call.args) == Some(s.pending.value.arguments)
  }

  /** What the row and the workspace must provide for details to be written now. */
  predicate CanWrite(db: Db, id: nat, details: Payload, now: real)
    requires id < |db.confirmations|
  {
    var row := db.confirmations[id];
    && now < row.expiresAt && row.payload == details && CanStore(db, row.owner.workspace, details)
  }

  lemma AcceptedCallInSession(db: Db, hash: Payload -> Digest, s: Realtime.Session, call: Realtime.ToolCall)
    requires Sound(db) && Digested(db, hash) && IsAcceptedCall(s, call) && IsReady(db, Phone(s))
    ensures var id := s.pending.value.confirmation;
            id < |db.confirmations|
            && (Realtime.Execute(db, hash, s, call).0.enquiries != db.enquiries
                <==> db.confirmations[id].status == Confirmed
                     && CanWrite(db, id, s.pending.value.arguments, call.now))
  {
    hide Realtime.Execute, Realtime.GetsThrough, Consume, Sound, Digested, CanStore, Validated;
    var p := s.pending.value;
    Outcomes.AcceptedIsConsumed(db, hash, s, call, 0);
    WhenConsumeWrites(db, hash, s.owner, p.confirmation, p.arguments, call.now);
  }

  /** The session that event `k` reaches. */
  function SessionAt(r: Run, k: nat): Client
    requires k < |r.events| && Target(At(r, k), r.events[k]).Some?
  {
    Target(At(r, k), r.events[k]).value
  }

  /** Event `k` is a call for what its session has had accepted. */
  predicate CallsForAccepted(r: Run, k: nat)
    requires k < |r.events|
  {
    && r.events[k].Tool? && Target(At(r, k), r.events[k]).Some?
    && SessionAt(r, k).Phone? && IsAcceptedCall(SessionAt(r, k).session, r.events[k].call)
  }

  lemma TargetIsClient(r: Run, k: nat)
    requires IsFresh(r.start) && k < |r.events| && Target(At(r, k), r.events[k]).Some?
    ensures var w, e := At(r, k), r.events[k];
            && (e.Tool? || e.Transcript? || e.Typed?)
            && e.session in w.clients && SessionAt(r, k) == w.clients[e.session] && Fits(w.clients[e.session], e)
            && IsReady(w.db, SessionAt(r, k)) && Paired(SessionAt(r, k)) && SessionAt(r, k).Id() == e.session
  {
    hide At, IsReady, Target, Fits, Paired;
    TargetFits(At(r, k), r.events[k]);
    RunIsReady(r, k);
    RunIsOk(r, k);
    OkClient(At(r, k), r.events[k].session);
  }

  lemma WritesIsReaction(r: Run, k: nat)
    requires IsFresh(r.start) && k < |r.events| && Target(At(r, k), r.events[k]).Some?
    ensures WritesAt(r, k)
       <==> React(At(r, k).db, r.hash, SessionAt(r, k), r.events[k]).0.enquiries != At(r, k).db.enquiries
  {
    hide At, Step, React, Target;
    AtStep(r, k);
    StepChanges(At(r, k), r.hash, r.events[k]);
  }

  lemma ToolReaction(db: Db, hash: Payload -> Digest, c: Client, e: Event)
    requires c.Phone? && e.Tool?
    ensures React(db, hash, c, e).0 == Realtime.Execute(db, hash, c.session, e.call).0
  {
    hide Realtime.Execute, Realtime.Observe, Dialogue.Say;
  }

  /**
   * In every run, a call for what has been accepted writes exactly if the row is still confirmed, the call comes before
   * its deadline, the row carries these details, and the workspace can store them.
   */
  lemma WhenAnAcceptedCallWrites(r: Run, k: nat)
    requires IsFresh(r.start) && Sound(r.start.db) && Digested(r.start.db, r.hash)
    requires k < |r.events| && CallsForAccepted(r, k)
    ensures var db, p := At(r, k).db, SessionAt(r, k).session.pending.value;
            && p.confirmation < |db.confirmations|
            && (WritesAt(r, k) <==> db.confirmations[p.confirmation].status == Confirmed
                                    && CanWrite(db, p.confirmation, p.arguments, r.events[k].call.now))
  {
    hide At, Step, React, Target, IsReady, IsAcceptedCall, Sound, Digested, CanWrite, WritesAt, Realtime.Execute, Fits;
    TargetIsClient(r, k);
    RunIsOk(r, k);
    RunIsDigested(r, k);
    WritesIsReaction(r, k);
    var c := SessionAt(r, k);
    ToolReaction(At(r, k).db, r.hash, c, r.events[k]);
    PhoneIsPhone(c);
    AcceptedHasPending(c.session, r.events[k].call);
    AcceptedCallInSession(At(r, k).db, r.hash, c.session, r.events[k].call);
  }

  lemma PhoneIsPhone(c: Client)
    requires c.Phone?
    ensures Phone(c.session) == c
  {
  }

  lemma AcceptedHasPending(s: Realtime.Session, call: Realtime.ToolCall)
    requires IsAcceptedCall(s, call)
    ensures s.pending.Some?
  {
    hide Realtime.GetsThrough, Validated;
  }

  // ---- why an accepted row may have expired ----

  /** A tool call of the session that comes at or after the deadline. */
  predicate IsLateCall(e: Event, session: nat, deadline: real) {
    e.Tool? && e.session == session && deadline <= e.call.now
  }

  ghost predicate LateCallBefore(r: Run, n: nat, session: nat, deadline: real)
    requires n <= |r.events|
  {
    exists t :: 0 <= t < n && IsLateCall(r.events[t], session, deadline)
  }

  lemma GateExpiresLate(hash: Payload -> Digest, db: Db, s: Realtime.Session, call: Realtime.ToolCall)
    requires IsReady(db, Phone(s)) && s.pending.Some?
    ensures var after := Realtime.Gate(db, hash, s, call).0;
            var id := s.pending.value.confirmation;
            id < |after.confirmations|
            && (after.confirmations[id].status == Expired ==>
                  db.confirmations[id].status == Expired || db.confirmations[id].expiresAt <= call.now)
  {
    hide Prepare, Consume, Validated, Dumped, EnquiryFor;
    var details, id := Validated(call.args), s.pending.value.confirmation;
    if details.Some? {
      PrepareKeepsRow(db, hash, s.owner, s.id, details.value, call.hint, call.now, id);
      ValidatedIsStable(call.args);
      ConsumeKeepsRow(db, hash, s.owner, id, details.value, call.now);
      CreatedIsNotExpired(db, hash, s.owner, id, details.value, call.now);
    }
  }

  lemma PrepareKeepsRow(
      db: Db, hash: Payload -> Digest, who: Principal, session: nat, payload: Payload, hint: nat, now: real, id: nat)
    requires id < |db.confirmations|
    ensures var after := Prepare(db, hash, who, session, payload, hint, now).0;
            id < |after.confirmations| && after.confirmations[id] == db.confirmations[id]
  {
    hide KeyTaken, Existing;
  }

  lemma CreatedIsNotExpired(db: Db, hash: Payload -> Digest, who: Principal, id: nat, payload: Payload, now: real)
    ensures Consume(db, hash, who, id, payload, now).1.Created? ==>
              id < |db.confirmations| && Consume(db, hash, who, id, payload, now).0.confirmations[id].status == Consumed
  {
    hide EnquiryFor, Violates, EnquiryId;
  }

  /** A session's own confirmed row expires only by a call that comes too late. */
  lemma EventExpiresLate(hash: Payload -> Digest, db: Db, c: Client, e: Event)
    requires Fits(c, e) && IsReady(db, c)
    requires var (after, d) := React(db, hash, c, e);
             && d.Some? && d.value.Staged().Some? && d.value.Staged().value.confirmed && IsReady(after, d.value)
             && after.confirmations[d.value.Staged().value.confirmation].status == Expired
    ensures var id := React(db, hash, c, e).1.value.Staged().value.confirmation;
            && c.Phone? && c.Staged().Some? && c.Staged().value.confirmed && c.Staged().value.confirmation == id
            && (db.confirmations[id].status == Expired || IsLateCall(e, e.session, db.confirmations[id].expiresAt))
  {
    hide Realtime.Gate, Realtime.OtherTool, Realtime.Lookup, Realtime.Remember, Realtime.Accepts, Realtime.Declines;
    hide Dialogue.Say, Dialogue.Classify, Tokeniser.Strip, Validated;
    if e.Tool? {
      var s, call := c.session, e.call;
      OtherToolKeepsRows(db, s.owner, call);
      if s.pending.Some? { GateExpiresLate(hash, db, s, call); }
      GateKeepsAccepted(hash, db, s, call);
    }
  }

  /** What is accepted after the gate was accepted before it. */
  lemma GateKeepsAccepted(hash: Payload -> Digest, db: Db, s: Realtime.Session, call: Realtime.ToolCall)
    ensures var t := Realtime.Gate(db, hash, s, call).1;
            t.pending.Some? && t.pending.value.confirmed ==> t.pending == s.pending
  {
    hide Prepare, Validated, Dumped, Realtime.CreateEnquiry;
  }

  /** The accepted row of a session has not expired, unless a call of the session came too late. */
  ghost predicate ExpiredOnlyLate(r: Run, n: nat, session: nat)
    requires n <= |r.events|
  {
    session in At(r, n).clients && At(r, n).clients[session].Staged().Some?
    && At(r, n).clients[session].Staged().value.confirmed
    && At(r, n).clients[session].Staged().value.confirmation < |At(r, n).db.confirmations| ==>
      var row := At(r, n).db.confirmations[At(r, n).clients[session].Staged().value.confirmation];
      row.status == Expired ==> LateCallBefore(r, n, session, row.expiresAt)
  }

  lemma LateCallStays(r: Run, n: nat, session: nat, deadline: real)
    requires n < |r.events|
    ensures LateCallBefore(r, n, session, deadline) ==> LateCallBefore(r, n + 1, session, deadline)
    ensures IsLateCall(r.events[n], session, deadline) ==> LateCallBefore(r, n + 1, session, deadline)
  {
  }

  lemma {:induction false} AcceptedExpiresLate(r: Run, n: nat, session: nat)
    requires IsFresh(r.start) && n <= |r.events|
    ensures ExpiredOnlyLate(r, n, session)
  {
    hide At, Step, React, Target, IsReady, Fits, LateCallBefore, Ok, Paired, StagedRow;
    AtStart(r);
    if n > 0 && session in At(r, n).clients && At(r, n).clients[session].Staged().Some?
       && At(r, n).clients[session].Staged().value.confirmed {
      var w, e := At(r, n - 1), r.events[n - 1];
      AtStep(r, n - 1);
      AcceptedExpiresLate(r, n - 1, session);
      RunIsReady(r, n);
      RunIsReady(r, n - 1);
      RunIsOk(r, n - 1);
      StepChanges(w, r.hash, e);
      var d := At(r, n).clients[session];
      var id := d.Staged().value.confirmation;
      ReadyRow(At(r, n).db, d);
      if Reaches(r, n - 1, session) {
        TargetFits(w, e);
        var c := w.clients[session];
        if At(r, n).db.confirmations[id].status == Expired {
          EventExpiresLate(r.hash, w.db, c, e);
          ReadyRow(w.db, c);
          EventKeepsRows(r.hash, w.db, c, e);
          assert Outlives(w.db.confirmations[id], At(r, n).db.confirmations[id]);
          LateCallStays(r, n - 1, session, w.db.confirmations[id].expiresAt);
        }
      } else {
        assert session in w.clients && w.clients[session] == d;
        ReadyRow(w.db, d);
        OtherRowIsKept(w, r.hash, e, session);
        LateCallStays(r, n - 1, session, w.db.confirmations[id].expiresAt);
      }
    }
  }

  lemma ReadyRow(db: Db, c: Client)
    requires IsReady(db, c)
    ensures c.Staged().Some? ==> IsRowOf(db, c, c.Staged().value.confirmation)
  {
  }

  lemma OtherRowIsKept(w: World, hash: Payload -> Digest, e: Event, session: nat)
    requires Ok(w) && AllReady(w) && session in w.clients && w.clients[session].Staged().Some?
    requires Target(w, e).Some? ==> e.session != session
    ensures var id := w.clients[session].Staged().value.confirmation;
            var after := Step(w, hash, e).db;
            && id < |w.db.confirmations| && id < |after.confirmations|
            && after.confirmations[id] == w.db.confirmations[id]
  {
    hide React, Step, Target, Fits, Paired, StagedRow;
    StepChanges(w, hash, e);
    assert IsReady(w.db, w.clients[session]) && ClientOk(w, session);
    if Target(w, e).Some? {
      TargetFits(w, e);
      assert IsReady(w.db, w.clients[e.session]) && ClientOk(w, e.session);
      EventTouches(hash, w.db, w.clients[e.session], e, w.clients[session].Staged().value.confirmation);
    }
  }

  /** No call of the session up to `k` is dated after the one at `k`. */
  ghost predicate CallsAreInOrder(r: Run, k: nat)
    requires k < |r.events| && r.events[k].Tool?
  {
    forall t :: 0 <= t < k && r.events[t].Tool? && r.events[t].session == r.events[k].session ==>
      r.events[t].call.now <= r.events[k].call.now
  }

  /**
   * The converse of the promise behind every enquiry. In every run in which the calls of a session are made in the
   * order of the clock, whatever else happens in between: a call for what was read back and accepted writes it for the
   * buyer, if and only if the call comes before the deadline of the row, the row carries these details, and the
   * workspace can store them.
   */
  lemma AcceptedCallsAreWritten(r: Run, k: nat)
    requires IsFresh(r.start) && Sound(r.start.db) && Digested(r.start.db, r.hash)
    requires k < |r.events| && CallsForAccepted(r, k) && CallsAreInOrder(r, k)
    ensures var p := SessionAt(r, k).session.pending.value;
            p.confirmation < |At(r, k).db.confirmations|
            && (WritesAt(r, k) <==> CanWrite(At(r, k).db, p.confirmation, p.arguments, r.events[k].call.now))
    ensures var before, after := At(r, k).db.enquiries, At(r, k + 1).db.enquiries;
            WritesAt(r, k) ==>
              && |after| == |before| + 1 && before <= after
              && after[|before|].buyer == SessionAt(r, k).Owner()
              && after[|before|].payload == SessionAt(r, k).session.pending.value.arguments
  {
    hide At, Step, React, Target, IsReady, IsAcceptedCall, Sound, Digested, WritesAt, Fits, CanStore;
    WhenAnAcceptedCallWrites(r, k);
    TargetIsClient(r, k);
    AcceptedExpiresLate(r, k, r.events[k].session);
    AcceptedIsConfirmed(At(r, k).db, SessionAt(r, k), r.events[k].call);
    if WritesAt(r, k) { WriteTakesStaged(r, k); }
  }

  lemma AcceptedIsConfirmed(db: Db, c: Client, call: Realtime.ToolCall)
    requires c.Phone? && IsReady(db, c) && IsAcceptedCall(c.session, call)
    ensures c.Staged() == c.session.pending && c.Staged().Some? && c.Staged().value.confirmed
    ensures var id := c.Staged().value.confirmation;
            id < |db.confirmations| && db.confirmations[id].status in {Confirmed, Expired}
  {
    hide Realtime.GetsThrough, Validated;
  }

  // ---- the local engine ----

  /** A terse acceptance of the details that a conversation has staged. */
  predicate IsAcceptance(s: Dialogue.Conversation, m: Dialogue.Message) {
    var text := Tokeniser.Strip(m.text);
    && s.pending.Some? && s.confirmation.Some? && text != "" && |text| <= Dialogue.MAX_TEXT_LENGTH
    && Dialogue.Classify(text, m.guess) == Dialogue.Accept
  }

  lemma AcceptanceInConversation(db: Db, hash: Payload -> Digest, s: Dialogue.Conversation, m: Dialogue.Message)
    requires Sound(db) && Digested(db, hash) && IsAcceptance(s, m) && IsReady(db, Chat(s)) && PairedChat(s)
    ensures var id := s.confirmation.value;
            id < |db.confirmations|
            && (Dialogue.Say(db, hash, s, m).0.enquiries != db.enquiries
                <==> m.now < db.confirmations[id].expiresAt && CanWrite(db, id, s.pending.value, m.later))
  {
    hide Tokeniser.Strip, Dialogue.Classify, Dialogue.Handle, Dialogue.Fill, Dialogue.Propose;
    hide Sound, Digested, CanStore;
    hide Consume, Confirm, Validated, Dumped;
    var id, details := s.confirmation.value, s.pending.value;
    Outcomes.ConfirmThenConsume(db, hash, s.owner, id, details, m.now, m.later);
    var (confirmed, ok) := Confirm(db, s.owner, id, m.now);
    ConfirmAddsNothing(db, s.owner, id, m.now);
    if ok { ConsumedRow(confirmed, hash, s.owner, id, details, m.later); }
  }

  lemma ConfirmAddsNothing(db: Db, who: Principal, id: nat, now: real)
    ensures Confirm(db, who, id, now).0.enquiries == db.enquiries
  {
  }

  predicate AcceptsStaged(r: Run, k: nat)
    requires k < |r.events|
  {
    && r.events[k].Typed? && Target(At(r, k), r.events[k]).Some?
    && SessionAt(r, k).Chat? && IsAcceptance(SessionAt(r, k).conversation, r.events[k].message)
  }

  lemma TypedReaction(db: Db, hash: Payload -> Digest, c: Client, e: Event)
    requires c.Chat? && e.Typed?
    ensures React(db, hash, c, e).0 == Dialogue.Say(db, hash, c.conversation, e.message).0
    ensures Chat(c.conversation) == c && (Paired(c) ==> PairedChat(c.conversation))
  {
    hide Realtime.Execute, Realtime.Observe, Dialogue.Say;
  }

  /**
   * In every run, a terse acceptance of what the local engine has staged writes exactly if both readings of the clock
   * come before the deadline of the row, the row carries these details, and the workspace can store them.
   */
  lemma WhenAnAcceptanceWrites(r: Run, k: nat)
    requires IsFresh(r.start) && Sound(r.start.db) && Digested(r.start.db, r.hash)
    requires k < |r.events| && AcceptsStaged(r, k)
    ensures var db, s, m := At(r, k).db, SessionAt(r, k).conversation, r.events[k].message;
            var id := s.confirmation.value;
            && id < |db.confirmations|
            && (WritesAt(r, k) <==>
                  m.now < db.confirmations[id].expiresAt && CanWrite(db, id, s.pending.value, m.later))
  {
    hide At, Step, React, Target, IsReady, Sound, Digested, CanWrite, WritesAt, Dialogue.Say, Fits, Paired;
    hide Dialogue.Classify, Tokeniser.Strip;
    TargetIsClient(r, k);
    RunIsOk(r, k);
    RunIsDigested(r, k);
    WritesIsReaction(r, k);
    var c := SessionAt(r, k);
    TypedReaction(At(r, k).db, r.hash, c, r.events[k]);
    AcceptanceInConversation(At(r, k).db, r.hash, c.conversation, r.events[k].message);
  }

  /** "confirm" is an acceptance, whatever the scores say. */
  lemma ConfirmAccepts(guess: Dialogue.Guess)
    ensures Tokeniser.Strip("confirm") == "confirm" && Dialogue.Classify("confirm", guess) == Dialogue.Accept
  {
    hide Tokeniser.Tokenise, Tokeniser.Normalise, Dialogue.Contains, Tokeniser.Join, Dialogue.CancelTokens,
         Dialogue.CancelPhrases, Dialogue.ConfirmPhrases, Tokeniser.Strip;
    Endings.EndsAreKept("confirm");
    DialogueLaws.PlainText(["confirm"]);
    ReadBack.JoinOne("confirm");
    assert ["confirm"][0] == "confirm" && "confirm" in Dialogue.ConfirmTokens();
  }

  lemma ChatStep(w: World, hash: Payload -> Digest, s: Dialogue.Conversation, session: nat, m: Dialogue.Message)
    requires session in w.clients && w.clients[session] == Chat(s) && Dialogue.Say(w.db, hash, s, m).2 != Dialogue.Died
    ensures var (after, t, _) := Dialogue.Say(w.db, hash, s, m);
            Step(w, hash, Typed(session, m)) == World(after, w.clients[session := Chat(t)], w.next)
  {
    hide Dialogue.Say, Realtime.Execute, Realtime.Observe;
  }

  /** A new conversation proposes 5 kg of rice, and nothing but a row is added. */
  lemma ChatStages(start: World, hash: Payload -> Digest, who: Principal, m: Dialogue.Message)
    requires IsFresh(start) && m.text == Endings.REQUEST && m.guess == Dialogue.Create
    requires forall i :: 0 <= i < |start.db.confirmations| ==> start.db.confirmations[i].key.session != start.next
    ensures var s := Dialogue.Conversation(start.next, who, None, None, false, None);
            var details := DialogueLaws.DetailsOf(s, m);
            && details.Some?
            && Dialogue.Say(start.db, hash, s, m).2 != Dialogue.Died
            && Dialogue.Say(start.db, hash, s, m).1
               == s.(pending := details, confirmation := Some(|start.db.confirmations|))
            && Dialogue.Say(start.db, hash, s, m).0
               == start.db.(confirmations := start.db.confirmations
                    + [NewConfirmation(who, start.next, hash(details.value), details.value, m.now)])
  {
    hide Dialogue.Say, DialogueLaws.DetailsOf, DialogueLaws.DraftOf;
    var s := Dialogue.Conversation(start.next, who, None, None, false, None);
    Endings.RequestProposesRice(s, m);
    Endings.FirstProposal(start.db, hash, s, m);
  }

  /** What the request of a new conversation proposes. */
  function RiceDetails(id: nat, who: Principal, m: Dialogue.Message): Option<Payload> {
    DialogueLaws.DetailsOf(Dialogue.Conversation(id, who, None, None, false, None), m)
  }

  /**
   * A run of the local engine that writes: a new conversation asks for 5 kg of rice for Goa, hears it read out and says
   * "confirm" in time.
   */
  lemma AChatThatWrites(
      start: World, hash: Payload -> Digest, who: Principal, m: Dialogue.Message, c: Dialogue.Message)
    requires IsFresh(start) && Sound(start.db) && Digested(start.db, hash)
    requires m.text == Endings.REQUEST && m.guess == Dialogue.Create && c.text == "confirm"
    requires c.now < m.now + 300.0 && c.later < m.now + TTL
    requires forall i :: 0 <= i < |start.db.confirmations| ==> start.db.confirmations[i].key.session != start.next
    requires CanStore(start.db, who.workspace, Payload("Rice", 5, "kg", "Goa", None))
    ensures var r := Run(start, hash, [OpenChat(who), Typed(start.next, m), Typed(start.next, c)]);
            var before, after := start.db.enquiries, At(r, 3).db.enquiries;
            && WritesAt(r, 2) && |after| == |before| + 1 && before <= after
            && after[|before|].buyer == who && after[|before|].payload == Payload("Rice", 5, "kg", "Goa", None)
  {
    hide At, Step, React, Sound, Digested, WritesAt, Dialogue.Say, Fits, Paired, CanStore, IsRowOf, AcceptsAt, Reaches;
    hide Dialogue.Classify, Tokeniser.Strip, DialogueLaws.DetailsOf;
    var id := start.next;
    var r := Run(start, hash, [OpenChat(who), Typed(id, m), Typed(id, c)]);
    var s := Dialogue.Conversation(id, who, None, None, false, None);
    AtStart(r);
    AtStep(r, 0);
    AtStep(r, 1);
    OpenStep(start, hash, who);
    ChatStages(start, hash, who, m);
    ChatStep(At(r, 1), hash, s, id, m);
    ConfirmAccepts(c.guess);
    WhenAnAcceptanceWrites(r, 2);
    Outcomes.SameStore(start.db, At(r, 2).db, who.workspace, RiceDetails(id, who, m).value);
    RiceIsRice(id, who, m);
    WriteTakesStaged(r, 2);
  }

  /** The words of the request are the details that are staged. */
  lemma RiceIsRice(id: nat, who: Principal, m: Dialogue.Message)
    requires m.text == Endings.REQUEST && m.guess == Dialogue.Create
    ensures RiceDetails(id, who, m) == Some(Payload("Rice", 5, "kg", "Goa", None))
  {
    hide DialogueLaws.DraftOf, Validated, ReadOuts.IsOfTokens;
    var s := Dialogue.Conversation(id, who, None, None, false, None);
    Endings.RequestProposesRice(s, m);
    ReadOuts.DraftIsOfTokens(s, m);
    ReadOuts.StagedIsDraft(DialogueLaws.DraftOf(s, m).value);
  }

  lemma OpenStep(w: World, hash: Payload -> Digest, who: Principal)
    ensures Step(w, hash, OpenChat(who))
         == World(
              w.db, w.clients[w.next := Chat(Dialogue.Conversation(w.next, who, None, None, false, None))], w.next + 1)
  {
    hide React, Target;
  }

  /**
   * In every run, what a tool call writes are the values of that call's own arguments, within the bounds for them.
   */
  lemma WrittenAsAsked(r: Run, k: nat)
    requires IsFresh(r.start) && k < |r.events| && WritesAt(r, k) && r.events[k].Tool?
    ensures |At(r, k + 1).db.enquiries| == |At(r, k).db.enquiries| + 1
    ensures var args := r.events[k].call.args;
            Details.IsAccepted(args)
            && Details.CarriesArguments(args, At(r, k + 1).db.enquiries[|At(r, k).db.enquiries|].payload)
  {
    hide At, Step, React, Target, IsFresh, Sound, Persist, Ok, IsStaging, Spoils, Details.CarriesArguments;
    hide Details.IsAccepted, Validated, Realtime.Execute, Realtime.GetsThrough;
    AtStep(r, k);
    RunIsOk(r, k);
    var w, e := At(r, k), r.events[k];
    StepChanges(w, r.hash, e);
    TargetFits(w, e);
    OkClient(w, e.session);
    EventEffect(r.hash, w.db, w.clients[e.session], e);
    Details.WhatIsValidated(e.call.args);
  }
}
