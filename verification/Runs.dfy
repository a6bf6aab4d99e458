/** Whole runs of both engines: every enquiry that is written was proposed, accepted and left alone. */
module Runs {
  import opened Wrappers
  import opened Enquiries
  import opened Ledger
  import opened Protocol
  import Realtime
  import Dialogue
  import Extraction
  import Tokeniser

  // ---- an event as calls of the service ----

  lemma ApplyNone(db: Db, hash: Payload -> Digest)
    ensures ApplyAll(db, hash, []) == db
  {
  }

  lemma ApplyOne(db: Db, hash: Payload -> Digest, call: ServiceCall)
    ensures ApplyAll(db, hash, [call]) == Apply(db, hash, call)
  {
    hide Apply;
    assert [call][..0] == [];
  }

  lemma ApplyTwo(db: Db, hash: Payload -> Digest, first: ServiceCall, second: ServiceCall)
    ensures ApplyAll(db, hash, [first, second]) == Apply(Apply(db, hash, first), hash, second)
  {
    hide Apply;
    assert [first, second][..1] == [first];
    ApplyOne(db, hash, first);
  }

  /** The clock a new confirmation row is dated by. */
  function Clock(e: Event): real {
    match e
    case Tool(_, _, call) => call.now
    case Transcript(_, _, _, now) => now
    case Typed(_, m) => m.now
    case _ => 0.0
  }

  /** A call on behalf of a session: a proposal of its own, or a call on the row it has staged. */
  predicate Suits(call: ServiceCall, who: Principal, session: nat, staged: Option<nat>, now: real) {
    match call
    case PrepareCall(w, i, _, _, at) => w == who && i == session && at == now
    case ConfirmCall(w, id, _) => w == who && staged == Some(id)
    case CancelCall(w, id) => w == who && staged == Some(id)
    case ConsumeCall(w, id, _, _) => w == who && staged == Some(id)
    case SupportCall(_, _) => true
  }

  function StagedId(c: Client): Option<nat> {
    if c.Staged().Some? then Some(c.Staged().value.confirmation) else None
  }

  /** At most two calls, all on behalf of the session, and a proposal only by itself. */
  predicate FromSession(calls: seq<ServiceCall>, c: Client, e: Event) {
    && |calls| <= 2
    && (forall k :: 0 <= k < |calls| ==> Suits(calls[k], c.Owner(), c.Id(), StagedId(c), Clock(e)))
    && (|calls| == 2 ==> !calls[0].PrepareCall? && !calls[1].PrepareCall?)
  }

  lemma GateCalls(hash: Payload -> Digest, db: Db, s: Realtime.Session, call: Realtime.ToolCall)
    returns (calls: seq<ServiceCall>)
    ensures Realtime.Gate(db, hash, s, call).0 == ApplyAll(db, hash, calls)
    ensures |calls| <= 1
    ensures forall k :: 0 <= k < |calls| ==> Suits(calls[k], s.owner, s.id, StagedId(Phone(s)), call.now)
  {
    hide Prepare, Consume, Validated, Dumped, ApplyAll;
    calls := [];
    ApplyNone(db, hash);
    var details := Validated(call.args);
    if details.Some? {
      if s.pending.None? || s.pending.value.arguments != details.value {
        calls := [PrepareCall(s.owner, s.id, details.value, call.hint, call.now)];
        ApplyOne(db, hash, calls[0]);
      } else if s.pending.value.confirmed && Validated(Dumped(details.value)).Some? {
        calls := [ConsumeCall(s.owner, s.pending.value.confirmation, Validated(Dumped(details.value)).value, call.now)];
        ApplyOne(db, hash, calls[0]);
      }
    }
  }

  lemma ToolCalls(hash: Payload -> Digest, db: Db, c: Client, e: Event) returns (calls: seq<ServiceCall>)
    requires c.Phone? && e.Tool?
    ensures React(db, hash, c, e).0 == ApplyAll(db, hash, calls) && FromSession(calls, c, e)
  {
    hide Realtime.Gate, Realtime.Lookup, Realtime.Remember, RequestSupport, ApplyAll, Realtime.Observe, Dialogue.Say;
    hide Tokeniser.Strip;
    var s, call := c.session, e.call;
    calls := [];
    ApplyNone(db, hash);
    if Realtime.GetsThrough(s, call) && Realtime.IsRegistered(call.name) {
      if call.name == "create_enquiry" {
        calls := GateCalls(hash, db, s, call);
      } else if call.name == "request_human_support" {
        calls := [SupportCall(s.owner, if "reason" in call.args then Realtime.TextOf(call.args["reason"]) else "")];
        ApplyOne(db, hash, calls[0]);
      }
    }
  }

  lemma TranscriptCalls(hash: Payload -> Digest, db: Db, c: Client, e: Event) returns (calls: seq<ServiceCall>)
    requires c.Phone? && e.Transcript?
    ensures React(db, hash, c, e).0 == ApplyAll(db, hash, calls) && FromSession(calls, c, e)
  {
    hide Realtime.Accepts, Realtime.Declines, Realtime.Execute, Dialogue.Say, Tokeniser.Strip, ApplyAll, Confirm;
    hide Cancel;
    var s := c.session;
    calls := [];
    ApplyNone(db, hash);
    if s.pending.Some? {
      if Realtime.Accepts(e.utterance) {
        calls := [ConfirmCall(s.owner, s.pending.value.confirmation, e.now)];
        ApplyOne(db, hash, calls[0]);
      } else if Realtime.Declines(e.utterance) {
        calls := [CancelCall(s.owner, s.pending.value.confirmation)];
        ApplyOne(db, hash, calls[0]);
      }
    }
  }

  lemma ResolveCalls(db: Db, hash: Payload -> Digest, s: Dialogue.Conversation, accepted: bool, now: real, later: real)
    returns (calls: seq<ServiceCall>)
    requires s.pending.Some?
    ensures Dialogue.Resolve(db, hash, s, accepted, now, later).0 == ApplyAll(db, hash, calls)
    ensures |calls| <= 2
    ensures forall k :: 0 <= k < |calls| ==>
              !calls[k].PrepareCall? && Suits(calls[k], s.owner, s.id, s.confirmation, now)
  {
    hide Validated, Dumped, Consume, Confirm, Cancel, ApplyAll;
    calls := [];
    ApplyNone(db, hash);
    if s.confirmation.Some? {
      var id, details := s.confirmation.value, Validated(Dumped(s.pending.value));
      if !accepted {
        calls := [CancelCall(s.owner, id)];
        ApplyOne(db, hash, calls[0]);
      } else if Confirm(db, s.owner, id, now).1 && details.Some? {
        calls := [ConfirmCall(s.owner, id, now), ConsumeCall(s.owner, id, details.value, later)];
        ApplyTwo(db, hash, calls[0], calls[1]);
      } else {
        calls := [ConfirmCall(s.owner, id, now)];
        ApplyOne(db, hash, calls[0]);
      }
    }
  }

  lemma ProposeCalls(
      db: Db, hash: Payload -> Digest, s: Dialogue.Conversation, draft: Extraction.EnquiryDraft, hint: nat, now: real)
    returns (calls: seq<ServiceCall>)
    ensures Dialogue.Propose(db, hash, s, draft, hint, now).0 == ApplyAll(db, hash, calls)
    ensures |calls| <= 1
    ensures forall k :: 0 <= k < |calls| ==> Suits(calls[k], s.owner, s.id, None, now)
  {
    hide Prepare, Validated, Dialogue.DraftArguments, ApplyAll;
    calls := [];
    ApplyNone(db, hash);
    var details := Validated(Dialogue.DraftArguments(draft));
    if details.Some? {
      calls := [PrepareCall(s.owner, s.id, details.value, hint, now)];
      ApplyOne(db, hash, calls[0]);
    }
  }

  lemma HandleCalls(
      db: Db, hash: Payload -> Digest, s: Dialogue.Conversation, text: string, intent: Dialogue.Intent,
        m: Dialogue.Message)
    returns (calls: seq<ServiceCall>)
    ensures Dialogue.Handle(db, hash, s, text, intent, m).0 == ApplyAll(db, hash, calls)
    ensures |calls| <= 1
    ensures forall k :: 0 <= k < |calls| ==> Suits(calls[k], s.owner, s.id, None, m.now)
  {
    hide Dialogue.Propose, RequestSupport, Extraction.Extract, Dialogue.Completed, ApplyAll;
    calls := [];
    ApplyNone(db, hash);
    var found := Extraction.Extract(Tokeniser.Tokenise(text));
    if intent == Dialogue.Scored(Dialogue.Create) {
      if found.draft.Some? { calls := ProposeCalls(db, hash, s, found.draft.value, m.hint, m.now); }
    } else if intent == Dialogue.Scored(Dialogue.Human) {
      calls := [SupportCall(s.owner, text)];
      ApplyOne(db, hash, calls[0]);
    }
  }

  lemma TypedCalls(hash: Payload -> Digest, db: Db, c: Client, e: Event) returns (calls: seq<ServiceCall>)
    requires c.Chat? && e.Typed?
    ensures React(db, hash, c, e).0 == ApplyAll(db, hash, calls) && FromSession(calls, c, e)
  {
    hide Dialogue.Resolve, Dialogue.Classify, Dialogue.Handle, Dialogue.Propose, Dialogue.Fill, Tokeniser.Strip;
    hide ApplyAll, Realtime.Execute, Realtime.Observe;
    var s, m := c.conversation, e.message;
    var text := Tokeniser.Strip(m.text);
    calls := [];
    ApplyNone(db, hash);
    if text != "" && |text| <= Dialogue.MAX_TEXT_LENGTH {
      var intent, t := Dialogue.Classify(text, m.guess), s.(slots := None);
      if s.pending.Some? && intent in {Dialogue.Accept, Dialogue.Refuse} {
        calls := ResolveCalls(db, hash, s, intent == Dialogue.Accept, m.now, m.later);
      } else if Dialogue.Aside(s, intent).None? {
        if s.slots.None? {
          calls := HandleCalls(db, hash, s, text, intent, m);
        } else {
          var filling := Dialogue.Fill(s.slots.value, Tokeniser.Tokenise(text), intent);
          if filling.Draft? { calls := ProposeCalls(db, hash, t, filling.draft, m.hint, m.now); }
          else if filling.Nothing? { calls := HandleCalls(db, hash, t, text, intent, m); }
        }
      }
    }
  }

  /** Whatever a session makes of an event, the database changes only by calls of the service. */
  lemma EventCalls(hash: Payload -> Digest, db: Db, c: Client, e: Event) returns (calls: seq<ServiceCall>)
    requires Fits(c, e)
    ensures React(db, hash, c, e).0 == ApplyAll(db, hash, calls) && FromSession(calls, c, e)
  {
    hide React, ApplyAll, FromSession;
    if e.Tool? { calls := ToolCalls(hash, db, c, e); }
    else if e.Transcript? { calls := TranscriptCalls(hash, db, c, e); }
    else { calls := TypedCalls(hash, db, c, e); }
  }

  // ---- rows outlive events ----

  /** A row keeps its terms, and once it has left Pending it never comes back. */
  predicate Outlives(c: Confirmation, d: Confirmation) {
    SameTerms(c, d) && (c.status != Pending ==> d.status != Pending)
  }

  ghost predicate Persist(before: Db, after: Db) {
    && |before.confirmations| <= |after.confirmations|
    && before.enquiries <= after.enquiries
    && forall i :: 0 <= i < |before.confirmations| ==> Outlives(before.confirmations[i], after.confirmations[i])
  }

  lemma PersistChain(a: Db, b: Db, c: Db)
    requires Persist(a, b) && Persist(b, c)
    ensures Persist(a, c)
  {
    forall i | 0 <= i < |a.confirmations| ensures Outlives(a.confirmations[i], c.confirmations[i]) {
      assert Outlives(a.confirmations[i], b.confirmations[i]) && Outlives(b.confirmations[i], c.confirmations[i]);
    }
  }

  lemma ApplyPersists(db: Db, hash: Payload -> Digest, call: ServiceCall)
    ensures Persist(db, Apply(db, hash, call))
  {
    hide Apply;
    ApplyAdvances(db, hash, call);
    var after := Apply(db, hash, call);
    forall i | 0 <= i < |db.confirmations| ensures Outlives(db.confirmations[i], after.confirmations[i]) {
      assert MovesTo(db.confirmations[i], after.confirmations[i]);
    }
  }

  lemma PersistSelf(db: Db)
    ensures Persist(db, db)
  {
  }

  lemma {:induction false} CallsPersist(db: Db, hash: Payload -> Digest, calls: seq<ServiceCall>)
    ensures Persist(db, ApplyAll(db, hash, calls))
  {
    hide Apply, Persist;
    PersistSelf(db);
    if calls != [] {
      var before, call := calls[..|calls| - 1], calls[|calls| - 1];
      CallsPersist(db, hash, before);
      ApplyPersists(ApplyAll(db, hash, before), hash, call);
      PersistChain(db, ApplyAll(db, hash, before), ApplyAll(db, hash, calls));
    }
  }

  /** A row the event inserts. */
  predicate IsNewRow(row: Confirmation, c: Client, e: Event) {
    row.session == c.Id() && row.owner == c.Owner() && row.expiresAt == Clock(e) + 300.0
  }

  lemma OneCallInserts(hash: Payload -> Digest, db: Db, call: ServiceCall)
    ensures var after := Apply(db, hash, call);
            |after.confirmations| == |db.confirmations|
            || (&& call.PrepareCall? && |after.confirmations| == |db.confirmations| + 1
                && after.confirmations[|db.confirmations|].session == call.session
                && after.confirmations[|db.confirmations|].owner == call.who
                && after.confirmations[|db.confirmations|].expiresAt == call.now + 300.0)
  {
    hide KeyTaken, Violates, Existing, EnquiryFor, SupportIdTaken, EnquiryId, SupportId;
  }

  lemma EventKeepsRows(hash: Payload -> Digest, db: Db, c: Client, e: Event)
    requires Fits(c, e)
    ensures var after := React(db, hash, c, e).0;
            && Persist(db, after)
            && (|after.confirmations| == |db.confirmations|
                || (&& |after.confirmations| == |db.confirmations| + 1
                    && IsNewRow(after.confirmations[|db.confirmations|], c, e)))
            && (Sound(db) ==> Sound(after))
  {
    hide React, Apply, Persist, Fits, Sound;
    var calls := EventCalls(hash, db, c, e);
    CallsPersist(db, hash, calls);
    if Sound(db) { RunsAreSound(db, hash, calls); }
    if |calls| == 0 {
    } else if |calls| == 1 {
      assert calls == [calls[0]];
      ApplyOne(db, hash, calls[0]);
      OneCallInserts(hash, db, calls[0]);
    } else {
      assert calls == [calls[0], calls[1]];
      ApplyTwo(db, hash, calls[0], calls[1]);
      OneCallInserts(hash, db, calls[0]);
      OneCallInserts(hash, Apply(db, hash, calls[0]), calls[1]);
    }
  }

  // ---- what holds of the world at every point of a run ----

  predicate ClientOk(w: World, id: nat)
    requires id in w.clients
  {
    id < w.next && w.clients[id].Id() == id && Paired(w.clients[id]) && StagedRow(w.db, w.clients[id])
  }

  ghost predicate Ok(w: World) {
    && (forall id <- w.clients :: ClientOk(w, id))
    && forall i :: 0 <= i < |w.db.confirmations| ==> w.db.confirmations[i].session < w.next
  }

  /** A confirmation row that is newly accepted is no longer pending. */
  lemma AcceptedRow(hash: Payload -> Digest, db: Db, c: Client, e: Event)
    requires Fits(c, e) && Effect(hash, db, c, e) && !IsStaging(hash, db, c, e)
    requires var d := React(db, hash, c, e).1;
             d.Some? && d.value.Staged().Some? && d.value.Staged().value.confirmed && !c.Staged().value.confirmed
             && c.Staged().Some?
    ensures e.Transcript? && c.Staged().value.confirmation < |db.confirmations|
            && React(db, hash, c, e).0.confirmations[c.Staged().value.confirmation].status == Confirmed
  {
    hide Realtime.Execute, Realtime.Accepts, Realtime.Declines, Dialogue.Say, Dialogue.Classify, Realtime.GetsThrough;
    hide Tokeniser.Strip, Validated, WritesStaged, IsStaging, Spoils;
  }

  lemma ReactionIsOk(hash: Payload -> Digest, db: Db, c: Client, e: Event)
    requires Fits(c, e) && Paired(c) && StagedRow(db, c)
    ensures var (after, d) := React(db, hash, c, e);
            d.Some? ==>
              d.value.Id() == c.Id() && d.value.Owner() == c.Owner() && Paired(d.value) && StagedRow(after, d.value)
  {
    hide React, Fits, Paired, IsStaging, WritesStaged, Spoils, Writes;
    EventEffect(hash, db, c, e);
    EventKeepsRows(hash, db, c, e);
    var (after, d) := React(db, hash, c, e);
    if d.Some? && d.value.Staged().Some? && !IsStaging(hash, db, c, e) {
      var p := c.Staged().value;
      assert Outlives(db.confirmations[p.confirmation], after.confirmations[p.confirmation]);
      if d.value.Staged().value.confirmed && !p.confirmed { AcceptedRow(hash, db, c, e); }
    }
  }

  lemma TargetFits(w: World, e: Event)
    requires Target(w, e).Some?
    ensures (e.Tool? || e.Transcript? || e.Typed?) && e.session in w.clients
      && Target(w, e).value == w.clients[e.session]
    ensures Fits(w.clients[e.session], e)
  {
  }

  /** What a step does to the world: the event's own session reacts, every other one stays. */
  lemma StepChanges(w: World, hash: Payload -> Digest, e: Event)
    ensures var after := Step(w, hash, e);
            && w.next <= after.next
            && (if Target(w, e).Some? then
                  var (db, d) := React(w.db, hash, Target(w, e).value, e);
                  && after.db == db && after.next == w.next
                  && after.clients == if d.Some? then w.clients[e.session := d.value] else w.clients - {e.session}
                else after.db == w.db)
            && forall id <- after.clients ::
                 || (id in w.clients && after.clients[id] == w.clients[id])
                 || (Target(w, e).Some? && id == e.session)
                 || (Target(w, e).None? && id == w.next < after.next && after.clients[id].Id() == id
                     && after.clients[id].Staged().None? && Paired(after.clients[id]))
  {
    hide React;
  }

  lemma AtStart(r: Run)
    ensures At(r, 0) == r.start
  {
  }

  /** Sessions open under the next identifier, with nothing staged or remembered, and close for good. */
  lemma WhatOpensAndCloses(w: World, hash: Payload -> Digest, e: Event)
    ensures var after := Step(w, hash, e);
            match e
            case OpenPhone(who) =>
              && after.db == w.db && after.next == w.next + 1
              && after.clients == w.clients[w.next := Phone(Realtime.Session(w.next, who, None, []))]
            case OpenChat(who) =>
              && after.db == w.db && after.next == w.next + 1
              && after.clients
                 == w.clients[w.next := Chat(Dialogue.Conversation(w.next, who, None, None, false, None))]
            case Close(id) => after.db == w.db && after.next == w.next && after.clients == w.clients - {id}
            case _ => after.next == w.next && after.clients - {e.session} == w.clients - {e.session}
  {
    hide React, Target;
  }

  lemma AtStep(r: Run, n: nat)
    requires n < |r.events|
    ensures At(r, n + 1) == Step(At(r, n), r.hash, r.events[n])
  {
    hide Step;
  }

  lemma StepIsOk(w: World, hash: Payload -> Digest, e: Event)
    requires Ok(w)
    ensures Ok(Step(w, hash, e)) && Persist(w.db, Step(w, hash, e).db) && (Sound(w.db) ==> Sound(Step(w, hash, e).db))
  {
    hide React, Step, Target, Fits, Paired, Sound;
    StepChanges(w, hash, e);
    var after := Step(w, hash, e);
    if Target(w, e).Some? {
      TargetFits(w, e);
      var c := w.clients[e.session];
      assert ClientOk(w, e.session);
      ReactionIsOk(hash, w.db, c, e);
      EventKeepsRows(hash, w.db, c, e);
    } else {
      assert Persist(w.db, after.db);
    }
    forall id <- after.clients ensures ClientOk(after, id) {
      if id in w.clients && after.clients[id] == w.clients[id] {
        assert ClientOk(w, id);
        RowStays(w.db, after.db, w.clients[id]);
      }
    }
  }

  lemma RowStays(before: Db, after: Db, c: Client)
    requires Persist(before, after) && StagedRow(before, c)
    ensures StagedRow(after, c)
  {
    if c.Staged().Some? {
      var id := c.Staged().value.confirmation;
      assert Outlives(before.confirmations[id], after.confirmations[id]);
    }
  }

  lemma StartIsOk(start: World)
    requires IsFresh(start)
    ensures Ok(start) && Persist(start.db, start.db)
  {
  }

  lemma {:induction false} RunIsOk(r: Run, n: nat)
    requires IsFresh(r.start) && n <= |r.events|
    ensures Ok(At(r, n)) && Persist(r.start.db, At(r, n).db)
    ensures Sound(r.start.db) ==> Sound(At(r, n).db)
  {
    hide At, Ok, Step, Persist, IsFresh, Sound, React, Target;
    AtStart(r);
    StartIsOk(r.start);
    if n > 0 {
      AtStep(r, n - 1);
      RunIsOk(r, n - 1);
      StepIsOk(At(r, n - 1), r.hash, r.events[n - 1]);
      PersistChain(r.start.db, At(r, n - 1).db, At(r, n).db);
    }
  }

  // ---- what stands behind a staged action ----

  /** The event is let through to the session. */
  predicate Reaches(r: Run, t: nat, session: nat)
    requires t < |r.events|
  {
    Target(At(r, t), r.events[t]).Some? && r.events[t].session == session
  }

  predicate StagesAt(r: Run, t: nat, session: nat, details: Payload)
    requires t < |r.events|
  {
    Reaches(r, t, session) && Stages(r.hash, At(r, t).db, Target(At(r, t), r.events[t]).value, r.events[t], details)
  }

  predicate AcceptsAt(r: Run, t: nat, session: nat)
    requires t < |r.events|
  {
    Reaches(r, t, session)
    && ActOf(r.hash, At(r, t).db, Target(At(r, t), r.events[t]).value, r.events[t]) == Accepts
  }

  /** Nothing interferes with the staged details at this point. */
  predicate CalmAt(r: Run, t: nat, session: nat, details: Payload)
    requires t < |r.events|
  {
    Reaches(r, t, session) ==>
      !Interferes(r.hash, At(r, t).db, Target(At(r, t), r.events[t]).value, r.events[t], details)
  }

  /** The session is open and belongs to this user. */
  predicate OpenFor(r: Run, t: nat, session: nat, who: Principal)
    requires t <= |r.events|
  {
    session in At(r, t).clients && At(r, t).clients[session].Owner() == who
  }

  /** From `i` up to `n`, with `j` left out, the session stays open and nothing interferes. */
  ghost predicate Undisturbed(r: Run, i: nat, n: nat, j: nat, session: nat, who: Principal, details: Payload)
    requires n <= |r.events|
  {
    && (forall t :: i <= t < n ==> OpenFor(r, t, session, who))
    && forall t :: i < t < n && t != j ==> CalmAt(r, t, session, details)
  }

  /** Staged at `i`; accepted, if it is accepted, at `j`; and otherwise left alone up to `n`. */
  ghost predicate Backing(r: Run, n: nat, session: nat, who: Principal, p: Realtime.PendingEnquiry, i: nat, j: nat)
    requires n <= |r.events|
  {
    && i < n && StagesAt(r, i, session, p.arguments) && p.confirmation < |At(r, i + 1).db.confirmations|
    && (if p.confirmed then i < j < n && AcceptsAt(r, j, session) else j == i)
    && Undisturbed(r, i, n, j, session, who, p.arguments)
  }

  lemma NoStagingNoInterference(hash: Payload -> Digest, db: Db, c: Client, e: Event)
    requires Effect(hash, db, c, e) && !IsStaging(hash, db, c, e) && ActOf(hash, db, c, e) != Accepts
    requires React(db, hash, c, e).1.Some? && React(db, hash, c, e).1.value.Staged().Some?
    ensures c.Staged().Some? && !Interferes(hash, db, c, e, c.Staged().value.arguments)
  {
    hide ActOf, Stages, Spoils, Writes, React, WritesStaged;
  }

  lemma BackingGrows(
      r: Run, n: nat, session: nat, who: Principal, p: Realtime.PendingEnquiry, i: nat, j: nat)
    requires n < |r.events| && Backing(r, n, session, who, p, i, j)
    requires OpenFor(r, n, session, who) && CalmAt(r, n, session, p.arguments)
    ensures Backing(r, n + 1, session, who, p, i, j)
  {
    hide StagesAt, AcceptsAt, OpenFor, CalmAt, At;
  }

  lemma BackingAccepted(
      r: Run, n: nat, session: nat, who: Principal, p: Realtime.PendingEnquiry, q: Realtime.PendingEnquiry, i: nat,
        j: nat)
    requires n < |r.events| && Backing(r, n, session, who, p, i, j) && OpenFor(r, n, session, who)
    requires !p.confirmed && q == p.(confirmed := true) && AcceptsAt(r, n, session)
    ensures Backing(r, n + 1, session, who, q, i, n)
  {
    hide StagesAt, AcceptsAt, OpenFor, CalmAt, At;
  }

  lemma BackingStarts(r: Run, n: nat, session: nat, who: Principal, p: Realtime.PendingEnquiry)
    requires n < |r.events| && OpenFor(r, n, session, who) && StagesAt(r, n, session, p.arguments) && !p.confirmed
    requires p.confirmation < |At(r, n + 1).db.confirmations|
    ensures Backing(r, n + 1, session, who, p, n, n)
  {
    hide StagesAt, AcceptsAt, OpenFor, CalmAt, At;
  }

  /** Whatever a session has staged was read back to it once, and nothing has interfered since. */
  lemma {:induction false} StagedIsBacked(r: Run, n: nat, session: nat) returns (i: nat, j: nat)
    requires IsFresh(r.start) && n <= |r.events|
    requires session in At(r, n).clients && At(r, n).clients[session].Staged().Some?
    ensures Backing(r, n, session, At(r, n).clients[session].Owner(), At(r, n).clients[session].Staged().value, i, j)
  {
    hide At, Step, Backing, React, Target, StagesAt, AcceptsAt, Interferes, IsStaging;
    AtStart(r);
    if n == 0 {
      assert false;
    } else {
      AtStep(r, n - 1);
      var w, e, c := At(r, n - 1), r.events[n - 1], At(r, n).clients[session];
      var p := c.Staged().value;
      StepChanges(w, r.hash, e);
      if Reaches(r, n - 1, session) {
        ReactionIsBacked(r, n - 1, session);
        if IsStaging(r.hash, w.db, w.clients[session], e) {
          i, j := n - 1, n - 1;
        } else {
          i, j := StagedIsBacked(r, n - 1, session);
          var before := w.clients[session].Staged().value;
          if p.confirmed && !before.confirmed {
            BackingAccepted(r, n - 1, session, c.Owner(), before, p, i, j);
            j := n - 1;
          } else {
            BackingGrows(r, n - 1, session, c.Owner(), p, i, j);
          }
        }
      } else {
        i, j := StagedIsBacked(r, n - 1, session);
        BackingGrows(r, n - 1, session, c.Owner(), p, i, j);
      }
    }
  }

  /** What one reaction of a session adds to the story of its staged action. */
  lemma {:induction false} ReactionIsBacked(r: Run, n: nat, session: nat)
    requires IsFresh(r.start) && n < |r.events| && Reaches(r, n, session)
    requires session in At(r, n + 1).clients && At(r, n + 1).clients[session].Staged().Some?
    ensures session in At(r, n).clients
    ensures var w, e, d := At(r, n), r.events[n], At(r, n + 1).clients[session];
            var c, q := w.clients[session], d.Staged().value;
            && d.Owner() == c.Owner()
            && if IsStaging(r.hash, w.db, c, e) then Backing(r, n + 1, session, c.Owner(), q, n, n)
               else c.Staged().Some?
                    && var p := c.Staged().value;
                       if q.confirmed && !p.confirmed then q == p.(confirmed := true) && AcceptsAt(r, n, session)
                       else q == p && CalmAt(r, n, session, p.arguments)
  {
    hide At, Step, Persist, Sound, Target, IsFresh, Ok, React, ActOf, Stages, Spoils, Writes, WritesStaged;
    hide Interferes, Backing, Fits, Paired, StagedRow;
    AtStep(r, n);
    var w, e, d := At(r, n), r.events[n], At(r, n + 1).clients[session];
    RunIsOk(r, n);
    StepChanges(w, r.hash, e);
    TargetFits(w, e);
    assert ClientOk(w, session) by { OkClient(w, session); }
    var c := w.clients[session];
    EventEffect(r.hash, w.db, c, e);
    if IsStaging(r.hash, w.db, c, e) {
      BackingStarts(r, n, session, c.Owner(), d.Staged().value);
    } else if ActOf(r.hash, w.db, c, e) != Accepts {
      NoStagingNoInterference(r.hash, w.db, c, e);
    }
  }

  lemma OkClient(w: World, session: nat)
    requires Ok(w) && session in w.clients
    ensures ClientOk(w, session)
  {
  }

  // ---- the main theorem ----

  /** The event of this session that inserted a confirmation row. */
  predicate InsertsAt(r: Run, m: nat, session: nat, who: Principal, id: nat)
    requires m < |r.events|
  {
    && Reaches(r, m, session) && OpenFor(r, m, session, who)
    && |At(r, m).db.confirmations| == id < |At(r, m + 1).db.confirmations|
  }

  /** Every row of a run was inserted by an event of its session, and still carries that event's deadline. */
  lemma {:induction false} RowWasInserted(r: Run, n: nat, id: nat) returns (m: nat)
    requires IsFresh(r.start) && n <= |r.events|
    requires |r.start.db.confirmations| <= id < |At(r, n).db.confirmations|
    ensures m < n
    ensures var row := At(r, n).db.confirmations[id];
            InsertsAt(r, m, row.session, row.owner, id) && row.expiresAt == Clock(r.events[m]) + 300.0
  {
    hide At, Step, React, Target, IsFresh, Sound, InsertsAt, Ok;
    AtStart(r);
    AtStep(r, n - 1);
    var w, e := At(r, n - 1), r.events[n - 1];
    RunIsOk(r, n - 1);
    StepIsOk(w, r.hash, e);
    if id < |w.db.confirmations| {
      assert Outlives(w.db.confirmations[id], At(r, n).db.confirmations[id]);
      m := RowWasInserted(r, n - 1, id);
    } else {
      InsertedHere(r, n - 1, id);
      m := n - 1;
    }
  }

  lemma InsertedHere(r: Run, n: nat, id: nat)
    requires IsFresh(r.start) && n < |r.events|
    requires |At(r, n).db.confirmations| <= id < |At(r, n + 1).db.confirmations|
    ensures var row := At(r, n + 1).db.confirmations[id];
            InsertsAt(r, n, row.session, row.owner, id) && row.expiresAt == Clock(r.events[n]) + 300.0
  {
    hide At, Step, React, Target, IsFresh, Sound, Persist;
    AtStep(r, n);
    var w, e := At(r, n), r.events[n];
    RunIsOk(r, n);
    StepChanges(w, r.hash, e);
    TargetFits(w, e);
    OkClient(w, e.session);
    EventKeepsRows(r.hash, w.db, w.clients[e.session], e);
  }

  /** The enquiry that event `k` writes. */
  predicate WritesAt(r: Run, k: nat)
    requires k < |r.events|
  {
    At(r, k + 1).db.enquiries != At(r, k).db.enquiries
  }

  /**
   * The promise behind an enquiry: its row was inserted at `m`, its details were read back at `i` and accepted at `j`,
   * all by its buyer in the session that writes it; between the read-back and the write nothing else accepted,
   * declined, replaced, spoiled or wrote; and the write comes within the deadline of the row.
   */
  ghost predicate Authorised(r: Run, k: nat, enquiry: Enquiry, m: nat, i: nat, j: nat)
    requires k < |r.events|
  {
    && (r.events[k].Tool? || r.events[k].Typed?)
    && var session := r.events[k].session;
       && m <= i < j <= k
       && InsertsAt(r, m, session, enquiry.buyer, enquiry.confirmation)
       && StagesAt(r, i, session, enquiry.payload)
       && AcceptsAt(r, j, session)
       && Undisturbed(r, i, k, j, session, enquiry.buyer, enquiry.payload)
       && Reaches(r, k, session) && OpenFor(r, k, session, enquiry.buyer)
       && (r.events[k].Typed? ==> j == k)
       && WriteClock(r.events[k]) - Clock(r.events[m]) < 300.0
  }

  lemma TranscriptWritesNothing(hash: Payload -> Digest, db: Db, c: Client, e: Event)
    requires e.Transcript?
    ensures React(db, hash, c, e).0.enquiries == db.enquiries
  {
    hide Realtime.Execute, Realtime.Accepts, Realtime.Declines, Dialogue.Say;
  }

  /** The write itself takes what is staged. */
  lemma WriteTakesStaged(r: Run, k: nat)
    requires IsFresh(r.start) && k < |r.events| && WritesAt(r, k)
    ensures r.events[k].Tool? || r.events[k].Typed?
    ensures var w, e := At(r, k), r.events[k];
            && Reaches(r, k, e.session) && e.session in w.clients && w.clients[e.session].Id() == e.session
            && var c, after := w.clients[e.session], At(r, k + 1).db;
               && c.Staged().Some?
               && var p := c.Staged().value;
                  && |after.enquiries| == |w.db.enquiries| + 1 && w.db.enquiries <= after.enquiries
                  && var enquiry := after.enquiries[|w.db.enquiries|];
                     && enquiry.buyer == c.Owner() && enquiry.payload == p.arguments
                     && enquiry.confirmation == p.confirmation && IsRowOf(w.db, c, p.confirmation)
                     && WriteClock(e) < w.db.confirmations[p.confirmation].expiresAt
                     && (e.Tool? ==> p.confirmed)
                     && (e.Typed? ==> !p.confirmed && AcceptsAt(r, k, e.session))
  {
    hide At, Step, React, Target, IsFresh, Sound, ActOf, Persist, Ok, IsStaging, Spoils;
    AtStep(r, k);
    RunIsOk(r, k);
    var w, e := At(r, k), r.events[k];
    StepChanges(w, r.hash, e);
    TargetFits(w, e);
    OkClient(w, e.session);
    EventEffect(r.hash, w.db, w.clients[e.session], e);
    if e.Transcript? { TranscriptWritesNothing(r.hash, w.db, w.clients[e.session], e); }
  }

  /**
   * Over every run of both engines, every enquiry that is written is authorised, whatever the hash. An `m` no later
   * than the read-back, because the read-back may reuse a row that is still open.
   */
  lemma EveryWriteIsAuthorised(r: Run, k: nat) returns (m: nat, i: nat, j: nat)
    requires IsFresh(r.start) && k < |r.events| && WritesAt(r, k)
    ensures |At(r, k + 1).db.enquiries| == |At(r, k).db.enquiries| + 1
    ensures Authorised(r, k, At(r, k + 1).db.enquiries[|At(r, k).db.enquiries|], m, i, j)
  {
    hide At, Step, React, Target, IsFresh, StagesAt, AcceptsAt, Undisturbed, Reaches, WritesAt;
    WriteTakesStaged(r, k);
    var w, e := At(r, k), r.events[k];
    var c := w.clients[e.session];
    var p := c.Staged().value;
    i, j := StagedIsBacked(r, k, e.session);
    OldRowsAreForeign(r, k, e.session, p.confirmation);
    m := RowWasInserted(r, k, p.confirmation);
    RowsGrow(r, i + 1, m);
    if e.Typed? {
      LeavesOutNothing(r, i, k, e.session, c.Owner(), p.arguments);
      j := k;
    }
  }

  lemma LeavesOutNothing(r: Run, i: nat, k: nat, session: nat, who: Principal, details: Payload)
    requires k < |r.events| && Undisturbed(r, i, k, i, session, who, details)
    ensures Undisturbed(r, i, k, k, session, who, details)
  {
  }

  /** A row of a session that was opened in the run is not older than the run. */
  lemma OldRowsAreForeign(r: Run, n: nat, session: nat, id: nat)
    requires IsFresh(r.start) && n <= |r.events| && session in At(r, n).clients
    requires id < |At(r, n).db.confirmations| && At(r, n).db.confirmations[id].session == session
    ensures |r.start.db.confirmations| <= id
  {
    hide At, Ok, Sound;
    RunIsOk(r, n);
    SessionsAreNew(r, n, session);
    assert id < |r.start.db.confirmations| ==> Outlives(r.start.db.confirmations[id], At(r, n).db.confirmations[id]);
  }

  lemma {:induction false} SessionsAreNew(r: Run, n: nat, session: nat)
    requires IsFresh(r.start) && n <= |r.events| && session in At(r, n).clients
    ensures r.start.next <= session
  {
    hide At, Step, React, Target;
    AtStart(r);
    if n > 0 {
      AtStep(r, n - 1);
      var w, e := At(r, n - 1), r.events[n - 1];
      NextGrows(r, n - 1);
      StepChanges(w, r.hash, e);
      if Target(w, e).Some? { TargetFits(w, e); }
      if session in w.clients { SessionsAreNew(r, n - 1, session); }
    }
  }

  lemma {:induction false} NextGrows(r: Run, n: nat)
    requires n <= |r.events|
    ensures r.start.next <= At(r, n).next
  {
    hide At, Step;
    AtStart(r);
    if n > 0 {
      AtStep(r, n - 1);
      NextGrows(r, n - 1);
      StepNext(At(r, n - 1), r.hash, r.events[n - 1]);
    }
  }

  lemma StepNext(w: World, hash: Payload -> Digest, e: Event)
    ensures w.next <= Step(w, hash, e).next
  {
    hide React, Target;
  }

  /** A row that is there at `n` was not inserted at or after `n`. */
  lemma {:induction false} RowsGrow(r: Run, n: nat, m: nat)
    requires IsFresh(r.start) && n <= |r.events| && m < |r.events|
    ensures n <= m ==> |At(r, n).db.confirmations| <= |At(r, m).db.confirmations|
  {
    hide At, Step, Ok, Sound, IsFresh;
    if n < m {
      AtStep(r, m - 1);
      RowsGrow(r, n, m - 1);
      RunIsOk(r, m - 1);
      StepIsOk(At(r, m - 1), r.hash, r.events[m - 1]);
    }
  }

  // ---- one write for each read-back ----

  /** A session that is open and is not the newest was open before; it is the same one, or it reacted. */
  lemma SessionStays(r: Run, n: nat, session: nat)
    requires IsFresh(r.start) && n < |r.events| && session in At(r, n + 1).clients && session < At(r, n).next
    ensures session in At(r, n).clients
    ensures var c, d, e := At(r, n).clients[session], At(r, n + 1).clients[session], r.events[n];
            && d.Phone? == c.Phone? && d.Owner() == c.Owner()
            && if Reaches(r, n, session) then
                 Fits(c, e) && Target(At(r, n), e) == Some(c) && React(At(r, n).db, r.hash, c, e).1 == Some(d)
               else d == c
  {
    hide At, Step, React, Target, Effect, Ok, Sound, IsFresh;
    AtStep(r, n);
    RunIsOk(r, n);
    var w, e := At(r, n), r.events[n];
    StepChanges(w, r.hash, e);
    if Reaches(r, n, session) {
      TargetFits(w, e);
      OkClient(w, session);
      EventEffect(r.hash, w.db, w.clients[session], e);
      SameKind(r.hash, w.db, w.clients[session], e);
    }
  }

  lemma SameKind(hash: Payload -> Digest, db: Db, c: Client, e: Event)
    requires Effect(hash, db, c, e)
    ensures var d := React(db, hash, c, e).1;
            d.Some? ==> d.value.Phone? == c.Phone? && d.value.Owner() == c.Owner() && d.value.Id() == c.Id()
  {
    hide React, ActOf, IsStaging, WritesStaged, Spoils;
  }

  lemma {:induction false} KindStays(r: Run, n1: nat, n2: nat, session: nat)
    requires IsFresh(r.start) && n1 <= n2 <= |r.events|
    requires session in At(r, n1).clients && session in At(r, n2).clients
    ensures At(r, n1).clients[session].Phone? == At(r, n2).clients[session].Phone?
  {
    hide At, Step, React, Target, Sound, IsFresh;
    if n1 < n2 {
      RunIsOk(r, n1);
      assert ClientOk(At(r, n1), session);
      NextMonotone(r, n1, n2 - 1);
      SessionStays(r, n2 - 1, session);
      KindStays(r, n1, n2 - 1, session);
    }
  }

  lemma {:induction false} NextMonotone(r: Run, n1: nat, n2: nat)
    requires n1 <= n2 <= |r.events|
    ensures At(r, n1).next <= At(r, n2).next
  {
    hide At, Step;
    if n1 < n2 {
      AtStep(r, n2 - 1);
      NextMonotone(r, n1, n2 - 1);
      StepNext(At(r, n2 - 1), r.hash, r.events[n2 - 1]);
    }
  }

  lemma ToolsNeverAccept(hash: Payload -> Digest, db: Db, c: Client, e: Event)
    requires e.Tool?
    ensures ActOf(hash, db, c, e) != Accepts
  {
    hide Realtime.Execute, Realtime.GetsThrough, Validated;
  }

  /** Two writes of one session never rest on the same read-back: the second is read back after the first. */
  lemma EveryWriteNeedsItsOwnReadBack(
      r: Run, k1: nat, k2: nat, first: Enquiry, second: Enquiry, m1: nat, i1: nat, j1: nat, m2: nat, i2: nat, j2: nat)
    requires IsFresh(r.start) && k1 < k2 < |r.events|
    requires WritesAt(r, k1) && Authorised(r, k1, first, m1, i1, j1) && Authorised(r, k2, second, m2, i2, j2)
    requires r.events[k1].session == r.events[k2].session
    ensures i1 < k1 <= i2 < k2
  {
    hide At, Step, React, ActOf, Stages, Spoils, InsertsAt, IsFresh, Target;
    AtStep(r, k1);
    var w, e, session := At(r, k1), r.events[k1], r.events[k1].session;
    StepChanges(w, r.hash, e);
    assert i2 < k1 && k1 != j2 ==> CalmAt(r, k1, session, second.payload);
    if i2 < k1 && k1 == j2 {
      if e.Tool? { ToolsNeverAccept(r.hash, w.db, Target(w, e).value, e); }
      else {
        TargetFits(w, e);
        TargetFits(At(r, k2), r.events[k2]);
        KindStays(r, k1, k2, session);
      }
    }
  }

  /** The local engine writes only on a message of at most four tokens. */
  lemma LocalWritesAreTerse(r: Run, k: nat)
    requires IsFresh(r.start) && k < |r.events| && WritesAt(r, k) && r.events[k].Typed?
    ensures 0 < |Tokeniser.Tokenise(Tokeniser.Strip(r.events[k].message.text))| <= 4
  {
    hide At, Step, React, IsFresh, Target, Tokeniser.Tokenise, Tokeniser.Strip, Tokeniser.Normalise, Dialogue.Say;
    hide Dialogue.Mentions;
    WriteTakesStaged(r, k);
  }
}
