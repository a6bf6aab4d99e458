/** When a caller who keeps to the protocol gets the enquiry. */
module Outcomes {
  import opened Wrappers
  import opened Enquiries
  import opened Ledger
  import opened Realtime
  import Details
  import Dialogue
  import Protocol
  import Runs

  lemma OtherIdsAreNotRemembered(completed: Cache, callId: string, reply: Reply, other: string)
    requires other != callId && Lookup(completed, other).None?
    ensures Lookup(Remember(completed, callId, reply), other).None?
  {
    hide Lookup;
    var after := Remember(completed, callId, reply);
    assert forall i :: 0 <= i < |after| - 1 ==>
             after[i] == completed[if |completed| >= MAX_COMPLETED_CALLS then i + 1 else i];
  }

  /** The row a proposal is given: pending, and open unless the clock has run out. */
  lemma ProposalRow(db: Db, hash: Payload -> Digest, who: Principal, session: nat, details: Payload, hint: nat,
      now: real)
    ensures var (after, id) := Prepare(db, hash, who, session, details, hint, now);
            && after.enquiries == db.enquiries && after.counters == db.counters && after.distributors == db.distributors
            && (id.Some? ==>
                  && Owns(after, who, id.value) && after.confirmations[id.value].status == Pending
                  && after.confirmations[id.value].expiresAt > now)
  {
    hide KeyTaken, Existing, FirstMatch;
  }

  /** A row that is confirmed in time, and then consumed in time, for its own details. */
  lemma ConfirmThenConsume(
      db: Db, hash: Payload -> Digest, who: Principal, id: nat, details: Payload, now: real, later: real)
    requires Sound(db) && Digested(db, hash) && Owns(db, who, id) && db.confirmations[id].status == Pending
    ensures var (confirmed, ok) := Confirm(db, who, id, now);
            && ok == (now < db.confirmations[id].expiresAt)
            && (ok ==>
                  && Sound(confirmed) && Digested(confirmed, hash)
                  && (Consume(confirmed, hash, who, id, details, later).1 == Created(|db.enquiries|) <==>
                        later < db.confirmations[id].expiresAt && db.confirmations[id].payload == details
                        && CanStore(db, who.workspace, details))
                  && (Consume(confirmed, hash, who, id, details, later).1.Created? ==>
                        Consume(confirmed, hash, who, id, details, later).1 == Created(|db.enquiries|)))
  {
    hide Consume, Sound, DisplayIdTaken, Apply;
    var (confirmed, ok) := Confirm(db, who, id, now);
    ApplyIsConfirm(db, hash, who, id, now);
    ApplyIsSound(db, hash, ConfirmCall(who, id, now));
    if ok {
      assert confirmed.enquiries == db.enquiries;
      SameIds(confirmed, db, who.workspace);
      WhenConsumeWrites(confirmed, hash, who, id, details, later);
    }
  }

  lemma ApplyIsConfirm(db: Db, hash: Payload -> Digest, who: Principal, id: nat, now: real)
    ensures Apply(db, hash, ConfirmCall(who, id, now)) == Confirm(db, who, id, now).0
  {
    hide Confirm;
  }

  lemma SameIds(a: Db, b: Db, workspace: string)
    requires a.enquiries == b.enquiries
    ensures forall displayId :: DisplayIdTaken(a, workspace, displayId) == DisplayIdTaken(b, workspace, displayId)
  {
  }

  /** A proposal on a session with nothing staged. */
  lemma ProposalStages(db: Db, hash: Payload -> Digest, s: Session, call: ToolCall)
    requires s.pending.None? && GetsThrough(s, call) && call.name == "create_enquiry" && Validated(call.args).Some?
    requires Execute(db, hash, s, call).2.Some?
    ensures var (after, t, reply) := Execute(db, hash, s, call);
            var details := Validated(call.args).value;
            var (prepared, id) := Prepare(db, hash, s.owner, s.id, details, call.hint, call.now);
            && id.Some? && after == prepared && reply == Some(ReadBack(details))
            && t == s.(pending := Some(PendingEnquiry(details, id.value, false)),
                       completed := Remember(s.completed, call.callId, ReadBack(details)))
  {
    hide Prepare, Validated, Lookup, Remember, CreateEnquiry;
    var details := Validated(call.args).value;
    var (prepared, id) := Prepare(db, hash, s.owner, s.id, details, call.hint, call.now);
    assert Gate(db, hash, s, call)
        == (prepared,
            if id.Some? then s.(pending := Some(PendingEnquiry(details, id.value, false))) else s,
            if id.Some? then Some(ReadBack(details)) else None);
  }

  /** A second call for details that have been accepted. */
  lemma AcceptedIsConsumed(db: Db, hash: Payload -> Digest, s: Session, call: ToolCall, n: nat)
    requires s.pending.Some? && s.pending.value.confirmed && GetsThrough(s, call) && call.name == "create_enquiry"
    requires Validated(call.args) == Some(s.pending.value.arguments)
    ensures Execute(db, hash, s, call).2 == Some(Success(n, false))
       <==> Consume(db, hash, s.owner, s.pending.value.confirmation, s.pending.value.arguments, call.now).1
            == Created(n)
    ensures Execute(db, hash, s, call).0
         == Consume(db, hash, s.owner, s.pending.value.confirmation, s.pending.value.arguments, call.now).0
  {
    hide Consume, Validated, Lookup, Remember, Dumped;
    ValidatedIsStable(call.args);
  }

  /**
   * Propose, accept, call again: the enquiry is written exactly if both the acceptance and the second call come before
   * the deadline, the row that was handed out carries these details, and the workspace can store them.
   */
  lemma ProposeAcceptWrite(
      db: Db, hash: Payload -> Digest, s: Session, first: ToolCall, utterance: string, now: real, second: ToolCall)
    requires Sound(db) && Digested(db, hash)
    requires s.pending.None? && GetsThrough(s, first) && GetsThrough(s, second) && first.callId != second.callId
    requires first.name == "create_enquiry" == second.name
    requires Validated(first.args).Some? && Validated(second.args) == Validated(first.args)
    requires Accepts(utterance) && Execute(db, hash, s, first).2.Some?
    ensures var (db1, s1, _) := Execute(db, hash, s, first);
            var (db2, s2, _) := Observe(db1, s1, utterance, now);
            var details := Validated(first.args).value;
            && s1.pending.Some? && s1.pending.value.confirmation < |db1.confirmations|
            && var row := db1.confirmations[s1.pending.value.confirmation];
               Execute(db2, hash, s2, second).2 == Some(Success(|db.enquiries|, false))
               <==> now < row.expiresAt && second.now < row.expiresAt && row.payload == details
                    && CanStore(db, s.owner.workspace, details)
    ensures var (db1, s1, _) := Execute(db, hash, s, first);
            var (db2, s2, _) := Observe(db1, s1, utterance, now);
            var (db3, _, reply) := Execute(db2, hash, s2, second);
            reply == Some(Success(|db.enquiries|, false)) ==>
              |db3.enquiries| == |db.enquiries| + 1 && db.enquiries <= db3.enquiries
              && db3.enquiries[|db.enquiries|].buyer == s.owner
              && db3.enquiries[|db.enquiries|].payload == Validated(first.args).value
  {
    hide Execute, Prepare, Confirm, Consume, Validated, Lookup, Remember, Accepts, Declines, Sound, Digested,
         CanStore, Apply;
    var details := Validated(first.args).value;
    ProposalStages(db, hash, s, first);
    ProposalRow(db, hash, s.owner, s.id, details, first.hint, first.now);
    var (db1, id) := Prepare(db, hash, s.owner, s.id, details, first.hint, first.now);
    PreparedIsSound(db, hash, s.owner, s.id, details, first.hint, first.now);
    ConfirmThenConsume(db1, hash, s.owner, id.value, details, now, second.now);
    SameStore(db, db1, s.owner.workspace, details);
    OtherIdsAreNotRemembered(s.completed, first.callId, ReadBack(details), second.callId);
    var (db2, s2, _) := Observe(db1, Execute(db, hash, s, first).1, utterance, now);
    if Confirm(db1, s.owner, id.value, now).1 {
      AcceptedIsConsumed(db2, hash, s2, second, |db.enquiries|);
      ConfirmAddsNothing(db1, Execute(db, hash, s, first).1, utterance, now);
      Protocol.ConsumedRow(db2, hash, s.owner, id.value, details, second.now);
    } else {
      NothingStagedNothingWritten(db2, hash, s2, second, |db.enquiries|);
    }
  }

  lemma NothingStagedNothingWritten(db: Db, hash: Payload -> Digest, s: Session, call: ToolCall, n: nat)
    requires s.pending.None? && GetsThrough(s, call) && call.name == "create_enquiry"
    ensures Execute(db, hash, s, call).2 != Some(Success(n, false))
  {
    hide Prepare, Validated, Lookup, Remember, CreateEnquiry;
  }

  lemma PreparedIsSound(db: Db, hash: Payload -> Digest, who: Principal, session: nat, details: Payload, hint: nat,
      now: real)
    requires Sound(db) && Digested(db, hash)
    ensures Sound(Prepare(db, hash, who, session, details, hint, now).0)
    ensures Digested(Prepare(db, hash, who, session, details, hint, now).0, hash)
  {
    hide Sound, Existing, KeyTaken;
    ApplyIsSound(db, hash, PrepareCall(who, session, details, hint, now));
  }

  lemma SameStore(a: Db, b: Db, workspace: string, details: Payload)
    requires a.enquiries == b.enquiries && a.counters == b.counters && a.distributors == b.distributors
    ensures CanStore(a, workspace, details) == CanStore(b, workspace, details)
  {
    hide EnquiryId;
  }

  // ---- a run that keeps to the protocol ----

  /** A session that has just been opened has no row yet, so its first proposal gets a row of its own. */
  lemma FirstProposalInserts(
      db: Db, hash: Payload -> Digest, who: Principal, session: nat, details: Payload, hint: nat, now: real)
    requires forall i :: 0 <= i < |db.confirmations| ==> db.confirmations[i].session != session
    requires !KeyTaken(db.confirmations, who.workspace, Key(session, hash(details), now))
    ensures Prepare(db, hash, who, session, details, hint, now)
         == (db.(confirmations := db.confirmations + [NewConfirmation(who, session, hash(details), details, now)]),
             Some(|db.confirmations|))
  {
    hide KeyTaken;
  }

  lemma FirstCallAnswers(db: Db, hash: Payload -> Digest, s: Session, call: ToolCall)
    requires s.pending.None? && GetsThrough(s, call) && call.name == "create_enquiry" && Validated(call.args).Some?
    requires Prepare(db, hash, s.owner, s.id, Validated(call.args).value, call.hint, call.now).1.Some?
    ensures Execute(db, hash, s, call).2.Some?
  {
    hide Prepare, Validated, Lookup, Remember, CreateEnquiry;
  }

  lemma PhoneSteps(w: Protocol.World, hash: Payload -> Digest, s: Session, e: Protocol.Event)
    requires (e.Tool? || e.Transcript?) && e.session in w.clients && w.clients[e.session] == Protocol.Phone(s)
      && e.who == s.owner
    ensures Protocol.Step(w, hash, e)
         == if e.Tool? then
              Protocol.World(Execute(w.db, hash, s, e.call).0,
                             w.clients[e.session := Protocol.Phone(Execute(w.db, hash, s, e.call).1)], w.next)
            else
              Protocol.World(Observe(w.db, s, e.utterance, e.now).0,
                             w.clients[e.session := Protocol.Phone(Observe(w.db, s, e.utterance, e.now).1)], w.next)
  {
    hide Execute, Observe, Dialogue.Say;
  }

  /** Sessions keep their identity. */
  lemma SessionIsKept(db: Db, hash: Payload -> Digest, s: Session, call: ToolCall, utterance: string, now: real)
    ensures Execute(db, hash, s, call).1.owner == s.owner && Observe(db, s, utterance, now).1.owner == s.owner
  {
    hide Prepare, Consume, Validated, Dumped, Lookup, Remember, OtherTool, Accepts, Declines, Confirm, CreateEnquiry;
  }

  /**
   * A run that keeps to the protocol does write: a new session proposes, accepts and calls again within the deadline of
   * its proposal, and the buyer gets an enquiry with exactly these details.
   */
  lemma KeepingToTheProtocolWrites(
      start: Protocol.World, hash: Payload -> Digest, who: Principal, first: ToolCall, utterance: string, now: real,
      second: ToolCall)
    requires Protocol.IsFresh(start) && Sound(start.db) && Digested(start.db, hash)
    requires !first.oversize && !second.oversize && first.callId != second.callId
    requires first.name == "create_enquiry" == second.name
    requires Validated(first.args).Some? && Validated(second.args) == Validated(first.args)
    requires Accepts(utterance) && now < first.now + 300.0 && second.now < first.now + TTL
    requires var key := Key(start.next, hash(Validated(first.args).value), first.now);
             !KeyTaken(start.db.confirmations, who.workspace, key)
    requires CanStore(start.db, who.workspace, Validated(first.args).value)
    ensures var id := start.next;
            var r := Protocol.Run(start, hash, [
              Protocol.OpenPhone(who), Protocol.Tool(id, who, first), Protocol.Transcript(id, who, utterance, now),
              Protocol.Tool(id, who, second)]);
            var before, after := start.db.enquiries, Protocol.At(r, 4).db.enquiries;
            && Runs.WritesAt(r, 3)
            && |after| == |before| + 1 && before <= after
            && after[|before|].buyer == who && after[|before|].payload == Validated(first.args).value
            && Details.IsAccepted(first.args) && Details.CarriesArguments(first.args, after[|before|].payload)
  {
    hide Execute, Observe, Protocol.At, Protocol.React, Protocol.Target, Validated, Sound, Digested, CanStore, KeyTaken,
         Accepts, Prepare, Details.IsAccepted, Details.CarriesArguments;
    var id, details := start.next, Validated(first.args).value;
    var r := Protocol.Run(start, hash, [
      Protocol.OpenPhone(who), Protocol.Tool(id, who, first), Protocol.Transcript(id, who, utterance, now),
      Protocol.Tool(id, who, second)]);
    var s := Session(id, who, None, []);
    Runs.AtStart(r);
    Runs.AtStep(r, 0);
    Runs.AtStep(r, 1);
    Runs.AtStep(r, 2);
    Runs.AtStep(r, 3);
    FirstProposalInserts(start.db, hash, who, id, details, first.hint, first.now);
    FirstCallAnswers(start.db, hash, s, first);
    ProposeAcceptWrite(start.db, hash, s, first, utterance, now, second);
    ProposalStages(start.db, hash, s, first);
    var (db1, s1, _) := Execute(start.db, hash, s, first);
    var (db2, s2, _) := Observe(db1, s1, utterance, now);
    SessionIsKept(start.db, hash, s, first, utterance, now);
    SessionIsKept(db1, hash, s1, first, utterance, now);
    PhoneSteps(Protocol.At(r, 1), hash, s, r.events[1]);
    PhoneSteps(Protocol.At(r, 2), hash, s1, r.events[2]);
    PhoneSteps(Protocol.At(r, 3), hash, s2, r.events[3]);
    ConfirmAddsNothing(db1, s1, utterance, now);
    Details.WhatIsValidated(first.args);
  }

  lemma ConfirmAddsNothing(db: Db, s: Session, utterance: string, now: real)
    ensures Observe(db, s, utterance, now).0.enquiries == db.enquiries
  {
    hide Accepts, Declines;
  }
}
