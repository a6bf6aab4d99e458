/**
 * The realtime engine while it is interrupted: a transcript takes no session lock, so its steps fall between the steps
 * of a tool call, and both read the staged action again at every step.
 */
module Races {
  import opened Wrappers
  import opened Enquiries
  import opened Ledger
  import Realtime

  type Pending = Option<Realtime.PendingEnquiry>

  /** Where a create_enquiry call stands; it holds the session lock until it is back at `NoCall`. */
  datatype Tool =
    | NoCall
    | Called(details: Payload)
    | SomethingStaged(details: Payload)
    | Proposing(details: Payload)
    | Staging(details: Payload, id: nat)
    | SameDetails(details: Payload)
    | FlagSeen(details: Payload)
    | Writing(details: Payload, id: nat)
    | Clearing

  /** Where a transcript stands; `Over` also stands for the exception that a staged action has gone in between. */
  datatype Hearing =
    | Heard
    | Accepting
    | Confirming(id: nat)
    | Answered(confirmed: bool)
    | Declining
    | Cancelling(id: nat)
    | Dropping
    | Over

  datatype Transcript = Transcript(utterance: string, hearing: Hearing)

  datatype Racer = Racer(owner: Principal, pending: Pending, tool: Tool, transcripts: seq<Transcript>)

  /** A session's id is its position. */
  datatype World = World(db: Db, sessions: seq<Racer>)

  datatype Event =
    | Call(s: nat, args: map<string, Json>)
    | ToolMoves(s: nat, hint: nat, now: real)
    | Hear(s: nat, utterance: string)
    | HearingMoves(s: nat, t: nat, now: real)
    | Elsewhere(call: ServiceCall)

  // ---- steps ----

  function ToolStep(db: Db, hash: Payload -> Digest, s: nat, r: Racer, hint: nat, now: real): (Db, Pending, Tool) {
    match r.tool
    case Called(d) => (db, r.pending, if r.pending.None? then Proposing(d) else SomethingStaged(d))
    case SomethingStaged(d) =>
      (db, r.pending,
       if r.pending.None? then NoCall else if r.pending.value.arguments != d then Proposing(d) else SameDetails(d))
    case Proposing(d) =>
      var (after, id) := Prepare(db, hash, r.owner, s, d, hint, now);
      (after, r.pending, if id.None? then NoCall else Staging(d, id.value))
    case Staging(d, id) => (db, Some(Realtime.PendingEnquiry(d, id, false)), NoCall)
    case SameDetails(d) =>
      (db, r.pending, if r.pending.None? || !r.pending.value.confirmed then NoCall else FlagSeen(d))
    case FlagSeen(d) =>
      (db, r.pending, if r.pending.None? then NoCall else Writing(d, r.pending.value.confirmation))
    case Writing(d, id) =>
      var (after, reply) := Realtime.CreateEnquiry(db, hash, r.owner, Some(id), Dumped(d), now);
      (after, r.pending, if reply.Some? && reply.value.Success? then Clearing else NoCall)
    case Clearing => (db, None, NoCall)
    case NoCall => (db, r.pending, NoCall)
  }

  function HearingStep(db: Db, r: Racer, t: Transcript, now: real): (Db, Pending, Hearing) {
    match t.hearing
    case Heard =>
      (db, r.pending,
       if r.pending.Some? && Realtime.Accepts(t.utterance) then Accepting
       else if r.pending.Some? && Realtime.Declines(t.utterance) then Declining
       else Over)
    case Accepting => (db, r.pending, if r.pending.None? then Over else Confirming(r.pending.value.confirmation))
    case Confirming(id) =>
      var (after, confirmed) := Confirm(db, r.owner, id, now);
      (after, r.pending, Answered(confirmed))
    case Answered(confirmed) =>
      (db,
       if r.pending.Some? && confirmed then Some(r.pending.value.(confirmed := true)) else None,
       Over)
    case Declining => (db, r.pending, if r.pending.None? then Over else Cancelling(r.pending.value.confirmation))
    case Cancelling(id) => (Cancel(db, r.owner, id).0, r.pending, Dropping)
    case Dropping => (db, None, Over)
    case Over => (db, r.pending, Over)
  }

  /** A call of another session, on its own rows. */
  predicate IsForeign(w: World, call: ServiceCall) {
    match call
    case PrepareCall(_, session, _, _, _) => session >= |w.sessions|
    case ConfirmCall(_, id, _) => IsForeignRow(w, id)
    case CancelCall(_, id) => IsForeignRow(w, id)
    case ConsumeCall(_, id, _, _) => IsForeignRow(w, id)
    case SupportCall(_, _) => true
  }

  predicate IsForeignRow(w: World, id: nat) {
    id < |w.db.confirmations| ==> w.db.confirmations[id].session >= |w.sessions|
  }

  function Next(w: World, hash: Payload -> Digest, e: Event): World {
    match e
    case Call(s, args) =>
      if s < |w.sessions| && w.sessions[s].tool.NoCall? && Validated(args).Some? then
        w.(sessions := w.sessions[s := w.sessions[s].(tool := Called(Validated(args).value))])
      else w
    case ToolMoves(s, hint, now) =>
      if s < |w.sessions| then
        var (db, pending, tool) := ToolStep(w.db, hash, s, w.sessions[s], hint, now);
        World(db, w.sessions[s := w.sessions[s].(pending := pending, tool := tool)])
      else w
    case Hear(s, utterance) =>
      if s < |w.sessions| then
        var transcripts := w.sessions[s].transcripts + [Transcript(utterance, Heard)];
        w.(sessions := w.sessions[s := w.sessions[s].(transcripts := transcripts)])
      else w
    case HearingMoves(s, t, now) =>
      if s < |w.sessions| && t < |w.sessions[s].transcripts| then
        var r := w.sessions[s];
        var (db, pending, hearing) := HearingStep(w.db, r, r.transcripts[t], now);
        var transcripts := r.transcripts[t := r.transcripts[t].(hearing := hearing)];
        World(db, w.sessions[s := r.(pending := pending, transcripts := transcripts)])
      else w
    case Elsewhere(call) => if IsForeign(w, call) then w.(db := Apply(w.db, hash, call)) else w
  }

  function Run(start: World, hash: Payload -> Digest, events: seq<Event>): World {
    if events == [] then start else Next(Run(start, hash, events[..|events| - 1]), hash, events[|events| - 1])
  }

  // ---- what an event does to a row ----

  /** The events that count: a row is staged, its owner's acceptance goes through, an enquiry is written from it. */
  datatype Fact =
    | Stages(s: nat, id: nat, details: Payload)
    | Accepts(s: nat, id: nat)
    | Writes(s: nat, enquiry: Enquiry)
    | Nothing

  function FactOf(w: World, hash: Payload -> Digest, e: Event): Fact {
    if e.ToolMoves? && e.s < |w.sessions| then
      var r := w.sessions[e.s];
      match r.tool
      case Staging(d, id) => Stages(e.s, id, d)
      case Writing(d, id) =>
        var after := Next(w, hash, e).db.enquiries;
        if |after| > |w.db.enquiries| then Writes(e.s, after[|w.db.enquiries|]) else Nothing
      case _ => Nothing
    else if e.HearingMoves? && e.s < |w.sessions| && e.t < |w.sessions[e.s].transcripts| then
      var r := w.sessions[e.s];
      var t := r.transcripts[e.t];
      if t.hearing.Confirming? && Realtime.Accepts(t.utterance) && Confirm(w.db, r.owner, t.hearing.id, e.now).1 then
        Accepts(e.s, t.hearing.id)
      else Nothing
    else Nothing
  }

  function Trace(start: World, hash: Payload -> Digest, events: seq<Event>): (facts: seq<Fact>)
    ensures |facts| == |events|
  {
    if events == [] then []
    else
      var before := events[..|events| - 1];
      Trace(start, hash, before) + [FactOf(Run(start, hash, before), hash, events[|events| - 1])]
  }

  // ---- what every step keeps ----

  /**
   * The session stages the row, with details of the row's digest; for a row from the `first`-th on, which the session
   * has inserted itself, with the very details of the row.
   */
  predicate IsStagingOf(f: Fact, hash: Payload -> Digest, first: nat, s: nat, id: nat, c: Confirmation) {
    && f.Stages? && f.s == s && f.id == id
    && hash(f.details) == c.digest && (id >= first ==> f.details == c.payload)
  }

  predicate WasStaged(facts: seq<Fact>, hash: Payload -> Digest, first: nat, s: nat, id: nat, c: Confirmation) {
    exists b :: 0 <= b < |facts| && IsStagingOf(facts[b], hash, first, s, id, c)
  }

  /** The row was staged by the session, and after that an acceptance of it went through there. */
  predicate WasAccepted(facts: seq<Fact>, hash: Payload -> Digest, first: nat, s: nat, id: nat, c: Confirmation) {
    exists b, a :: 0 <= b < a < |facts| && IsStagingOf(facts[b], hash, first, s, id, c) && facts[a] == Accepts(s, id)
  }

  lemma MoreFacts(
      facts: seq<Fact>, f: Fact, hash: Payload -> Digest, first: nat, s: nat, id: nat, c: Confirmation, d: Confirmation)
    requires SameTerms(c, d)
    ensures WasStaged(facts, hash, first, s, id, c) ==> WasStaged(facts + [f], hash, first, s, id, d)
    ensures WasAccepted(facts, hash, first, s, id, c) ==> WasAccepted(facts + [f], hash, first, s, id, d)
    ensures WasStaged(facts, hash, first, s, id, c) && f == Accepts(s, id) ==>
              WasAccepted(facts + [f], hash, first, s, id, d)
    ensures IsStagingOf(f, hash, first, s, id, c) ==> WasStaged(facts + [f], hash, first, s, id, d)
  {
    hide SameTerms;
    var more := facts + [f];
    assert more[|facts|] == f;
    TermsDecide(hash, first, s, id, c, d);
    if WasStaged(facts, hash, first, s, id, c) {
      var b :| 0 <= b < |facts| && IsStagingOf(facts[b], hash, first, s, id, c);
      assert more[b] == facts[b];
    }
    if WasAccepted(facts, hash, first, s, id, c) {
      var b, a :| 0 <= b < a < |facts| && IsStagingOf(facts[b], hash, first, s, id, c) && facts[a] == Accepts(s, id);
      assert more[b] == facts[b] && more[a] == Accepts(s, id);
    }
  }

  lemma TermsDecide(hash: Payload -> Digest, first: nat, s: nat, id: nat, c: Confirmation, d: Confirmation)
    requires SameTerms(c, d)
    ensures forall f :: IsStagingOf(f, hash, first, s, id, c) ==> IsStagingOf(f, hash, first, s, id, d)
  {
  }

  /** A row of this session, which was open when the session got hold of it. */
  predicate IsRowOf(start: Db, db: Db, s: nat, who: Principal, id: nat) {
    && id < |db.confirmations|
    && db.confirmations[id].session == s && db.confirmations[id].owner == who
    && (id < |start.confirmations| ==> start.confirmations[id].status == Pending)
  }

  /** A row that is open, or accepted by its session. */
  predicate RowIsBacked(start: Db, db: Db, hash: Payload -> Digest, facts: seq<Fact>, id: nat)
    requires id < |db.confirmations|
  {
    var c := db.confirmations[id];
    c.status == Confirmed ==>
      || (id < |start.confirmations| && start.confirmations[id].status == Confirmed)
      || WasAccepted(facts, hash, |start.confirmations|, c.session, id, c)
  }

  /** What a transcript holds on to: a row its session has staged before. */
  predicate TranscriptOk(
      start: Db, db: Db, hash: Payload -> Digest, facts: seq<Fact>, s: nat, who: Principal, t: Transcript) {
    match t.hearing
    case Accepting => Realtime.Accepts(t.utterance)
    case Confirming(id) =>
      && Realtime.Accepts(t.utterance) && IsRowOf(start, db, s, who, id)
      && WasStaged(facts, hash, |start.confirmations|, s, id, db.confirmations[id])
    case Cancelling(id) => IsRowOf(start, db, s, who, id)
    case _ => true
  }

  predicate PendingOk(
      start: Db, db: Db, hash: Payload -> Digest, facts: seq<Fact>, s: nat, who: Principal, pending: Pending) {
    pending.Some? ==>
      var id := pending.value.confirmation;
      IsRowOf(start, db, s, who, id) && WasStaged(facts, hash, |start.confirmations|, s, id, db.confirmations[id])
  }

  predicate ToolOk(
      start: Db, db: Db, hash: Payload -> Digest, facts: seq<Fact>, s: nat, who: Principal, tool: Tool) {
    match tool
    case Staging(d, id) =>
      var first := |start.confirmations|;
      && IsRowOf(start, db, s, who, id)
      && (IsStagingOf(Stages(s, id, d), hash, first, s, id, db.confirmations[id])
          || WasStaged(facts, hash, first, s, id, db.confirmations[id]))
    case Writing(d, id) => IsRowOf(start, db, s, who, id)
    case _ => true
  }

  ghost predicate RacerOk(start: Db, db: Db, hash: Payload -> Digest, facts: seq<Fact>, s: nat, r: Racer) {
    && PendingOk(start, db, hash, facts, s, r.owner, r.pending)
    && ToolOk(start, db, hash, facts, s, r.owner, r.tool)
    && forall t <- r.transcripts :: TranscriptOk(start, db, hash, facts, s, r.owner, t)
  }

  /** Rows never become open again. */
  ghost predicate StaysClosed(before: Db, after: Db) {
    && |before.confirmations| <= |after.confirmations|
    && forall id :: 0 <= id < |before.confirmations| && before.confirmations[id].status != Pending ==>
         after.confirmations[id].status != Pending
  }

  /** Every confirmed row of the racing sessions is backed by an acceptance in its own session. */
  ghost predicate RowsOk(start: Db, db: Db, hash: Payload -> Digest, facts: seq<Fact>, sessions: nat) {
    forall id :: 0 <= id < |db.confirmations| && db.confirmations[id].session < sessions ==>
      RowIsBacked(start, db, hash, facts, id)
  }

  /** A row that a racing session has inserted has been staged with its own details, or is about to be. */
  predicate IsAnnounced(first: nat, w: World, hash: Payload -> Digest, facts: seq<Fact>, id: nat)
    requires id < |w.db.confirmations| && w.db.confirmations[id].session < |w.sessions|
  {
    var c := w.db.confirmations[id];
    WasStaged(facts, hash, first, c.session, id, c)
    || (w.sessions[c.session].tool == Staging(c.payload, id) && c.digest == hash(c.payload))
  }

  ghost predicate NewRowsOk(first: nat, w: World, hash: Payload -> Digest, facts: seq<Fact>) {
    forall id :: first <= id < |w.db.confirmations| && w.db.confirmations[id].session < |w.sessions| ==>
      IsAnnounced(first, w, hash, facts, id)
  }

  ghost predicate RacersOk(start: Db, w: World, hash: Payload -> Digest, facts: seq<Fact>) {
    forall s :: 0 <= s < |w.sessions| ==> RacerOk(start, w.db, hash, facts, s, w.sessions[s])
  }

  ghost predicate Ok(start: Db, w: World, hash: Payload -> Digest, facts: seq<Fact>) {
    && StaysClosed(start, w.db) && RowsOk(start, w.db, hash, facts, |w.sessions|) && RacersOk(start, w, hash, facts)
    && NewRowsOk(|start.confirmations|, w, hash, facts)
  }

  /** Rows keep their terms and never become open again. */
  ghost predicate Keeps(db: Db, after: Db) {
    && |db.confirmations| <= |after.confirmations|
    && forall id :: 0 <= id < |db.confirmations| ==> MovesTo(db.confirmations[id], after.confirmations[id])
  }

  /** What a session holds on to survives the steps of all the others. */
  lemma RacerStaysOk(
      start: Db, db: Db, after: Db, hash: Payload -> Digest, facts: seq<Fact>, f: Fact, s: nat, r: Racer)
    requires RacerOk(start, db, hash, facts, s, r) && Keeps(db, after)
    ensures RacerOk(start, after, hash, facts + [f], s, r)
  {
    hide WasStaged, WasAccepted, Realtime.Accepts;
    var first := |start.confirmations|;
    forall id | 0 <= id < |db.confirmations| && WasStaged(facts, hash, first, s, id, db.confirmations[id])
      ensures WasStaged(facts + [f], hash, first, s, id, after.confirmations[id])
    {
      assert MovesTo(db.confirmations[id], after.confirmations[id]);
      MoreFacts(facts, f, hash, first, s, id, db.confirmations[id], after.confirmations[id]);
    }
    forall id: nat, who | IsRowOf(start, db, s, who, id) ensures IsRowOf(start, after, s, who, id) {
      assert MovesTo(db.confirmations[id], after.confirmations[id]);
    }
    if r.tool.Staging? { assert MovesTo(db.confirmations[r.tool.id], after.confirmations[r.tool.id]); }
  }

  /** A row of a racing session becomes confirmed only by its acceptance there, after it was staged. */
  ghost predicate ConfirmsAccepted(
      start: Db, db: Db, after: Db, hash: Payload -> Digest, facts: seq<Fact>, f: Fact, sessions: nat) {
    forall id :: 0 <= id < |after.confirmations| && after.confirmations[id].status == Confirmed
                 && after.confirmations[id].session < sessions ==>
      && id < |db.confirmations|
      && var c := db.confirmations[id];
         c.status == Confirmed
         || (f == Accepts(c.session, id) && WasStaged(facts, hash, |start.confirmations|, c.session, id, c))
  }

  /** Such a step leaves every confirmed row backed. */
  lemma RowsStayOk(
      start: Db, db: Db, after: Db, hash: Payload -> Digest, facts: seq<Fact>, f: Fact, sessions: nat)
    requires RowsOk(start, db, hash, facts, sessions) && Keeps(db, after)
    requires ConfirmsAccepted(start, db, after, hash, facts, f, sessions)
    ensures RowsOk(start, after, hash, facts + [f], sessions)
  {
    hide WasStaged, WasAccepted;
    forall id | 0 <= id < |after.confirmations| && after.confirmations[id].session < sessions
      ensures RowIsBacked(start, after, hash, facts + [f], id)
    {
      if after.confirmations[id].status == Confirmed {
        var c := db.confirmations[id];
        assert MovesTo(c, after.confirmations[id]);
        assert RowIsBacked(start, db, hash, facts, id);
        MoreFacts(facts, f, hash, |start.confirmations|, c.session, id, c, after.confirmations[id]);
      }
    }
  }

  lemma ClosedStaysClosed(start: Db, db: Db, after: Db)
    requires StaysClosed(start, db) && Keeps(db, after)
    ensures StaysClosed(start, after)
  {
    forall id | 0 <= id < |start.confirmations| && start.confirmations[id].status != Pending
      ensures after.confirmations[id].status != Pending
    {
      assert MovesTo(db.confirmations[id], after.confirmations[id]);
    }
  }

  /** A step of one session, and what is left to show about it: the session itself and newly confirmed rows. */
  lemma StepIsOk(start: Db, w: World, after: World, hash: Payload -> Digest, facts: seq<Fact>, f: Fact, s: nat)
    requires Ok(start, w, hash, facts) && Keeps(w.db, after.db) && s < |w.sessions|
    requires exists r :: after.sessions == w.sessions[s := r] && RacerOk(start, after.db, hash, facts + [f], s, r)
    requires ConfirmsAccepted(start, w.db, after.db, hash, facts, f, |w.sessions|)
    requires NewRowsOk(|start.confirmations|, after, hash, facts + [f])
    ensures Ok(start, after, hash, facts + [f])
  {
    hide RowsOk, RacerOk, Keeps, StaysClosed, WasStaged, NewRowsOk;
    ClosedStaysClosed(start, w.db, after.db);
    RowsStayOk(start, w.db, after.db, hash, facts, f, |w.sessions|);
    forall i | 0 <= i < |after.sessions| ensures RacerOk(start, after.db, hash, facts + [f], i, after.sessions[i]) {
      if i != s { RacerStaysOk(start, w.db, after.db, hash, facts, f, i, w.sessions[i]); }
    }
  }

  /** An event that inserts no row of a racing session and moves no tool that is staging. */
  lemma NewRowsStay(first: nat, w: World, after: World, hash: Payload -> Digest, facts: seq<Fact>, f: Fact)
    requires NewRowsOk(first, w, hash, facts) && Keeps(w.db, after.db) && |after.sessions| == |w.sessions|
    requires forall id :: |w.db.confirmations| <= id < |after.db.confirmations| ==>
               after.db.confirmations[id].session >= |w.sessions|
    requires forall s :: 0 <= s < |w.sessions| && w.sessions[s].tool.Staging? ==>
               after.sessions[s].tool == w.sessions[s].tool
    ensures NewRowsOk(first, after, hash, facts + [f])
  {
    hide WasStaged;
    forall id | first <= id < |after.db.confirmations| && after.db.confirmations[id].session < |after.sessions|
      ensures IsAnnounced(first, after, hash, facts + [f], id)
    {
      var c := w.db.confirmations[id];
      assert MovesTo(c, after.db.confirmations[id]);
      assert IsAnnounced(first, w, hash, facts, id);
      MoreFacts(facts, f, hash, first, c.session, id, c, after.db.confirmations[id]);
    }
  }

  lemma KeepsItself(db: Db)
    ensures Keeps(db, db)
  {
  }

  /** A row is confirmed only by the confirmation call for it. */
  lemma OnlyConfirmConfirms(db: Db, hash: Payload -> Digest, call: ServiceCall)
    ensures var after := Apply(db, hash, call);
            && Keeps(db, after)
            && forall id :: 0 <= id < |after.confirmations| && after.confirmations[id].status == Confirmed ==>
                 && id < |db.confirmations|
                 && (db.confirmations[id].status == Confirmed
                     || (call.ConfirmCall? && call.id == id && Confirm(db, call.who, id, call.now).1))
  {
    hide KeyTaken, Violates, Existing, EnquiryFor, SupportIdTaken, EnquiryId, SupportId, NewEnquiry;
    ApplyAdvances(db, hash, call);
    assert forall id :: 0 <= id < |db.confirmations| ==>
      MovesTo(db.confirmations[id], Apply(db, hash, call).confirmations[id]);
  }

  lemma QuietStepIsOk(start: Db, w: World, hash: Payload -> Digest, facts: seq<Fact>, s: nat, r: Racer)
    requires Ok(start, w, hash, facts) && s < |w.sessions| && r.owner == w.sessions[s].owner
    requires r.pending == w.sessions[s].pending
    requires r.tool == w.sessions[s].tool || (w.sessions[s].tool.NoCall? && r.tool.Called?)
    requires forall t <- r.transcripts :: t in w.sessions[s].transcripts || t.hearing.Heard?
    ensures Ok(start, w.(sessions := w.sessions[s := r]), hash, facts + [Nothing])
  {
    hide WasStaged, RowsOk, StaysClosed, Keeps, NewRowsOk;
    KeepsItself(w.db);
    assert RacerOk(start, w.db, hash, facts, s, w.sessions[s]);
    RacerStaysOk(start, w.db, w.db, hash, facts, Nothing, s, w.sessions[s]);
    assert RacerOk(start, w.db, hash, facts + [Nothing], s, r);
    NewRowsStay(|start.confirmations|, w, w.(sessions := w.sessions[s := r]), hash, facts, Nothing);
    StepIsOk(start, w, w.(sessions := w.sessions[s := r]), hash, facts, Nothing, s);
  }

  lemma ElsewhereIsOk(start: Db, w: World, hash: Payload -> Digest, facts: seq<Fact>, call: ServiceCall)
    requires Ok(start, w, hash, facts)
    ensures Ok(start, Next(w, hash, Elsewhere(call)), hash, facts + [Nothing])
  {
    hide Apply, RacerOk, StaysClosed, Confirm, NewRowsOk;
    KeepsItself(w.db);
    OnlyConfirmConfirms(w.db, hash, call);
    var after := Next(w, hash, Elsewhere(call));
    assert Keeps(w.db, after.db);
    ClosedStaysClosed(start, w.db, after.db);
    assert forall id :: 0 <= id < |w.db.confirmations| ==> MovesTo(w.db.confirmations[id], after.db.confirmations[id]);
    RowsStayOk(start, w.db, after.db, hash, facts, Nothing, |w.sessions|);
    if IsForeign(w, call) { ForeignRowsAreForeign(w, hash, call); }
    NewRowsStay(|start.confirmations|, w, after, hash, facts, Nothing);
    forall s | 0 <= s < |w.sessions| ensures RacerOk(start, after.db, hash, facts + [Nothing], s, w.sessions[s]) {
      RacerStaysOk(start, w.db, after.db, hash, facts, Nothing, s, w.sessions[s]);
    }
  }

  lemma ForeignRowsAreForeign(w: World, hash: Payload -> Digest, call: ServiceCall)
    requires IsForeign(w, call)
    ensures var after := Apply(w.db, hash, call);
            forall id :: |w.db.confirmations| <= id < |after.confirmations| ==>
              after.confirmations[id].session >= |w.sessions|
  {
    hide KeyTaken, Violates, Existing, EnquiryFor, SupportIdTaken, EnquiryId, SupportId, NewEnquiry;
  }

  /** What a step of a transcript is as a call of the service, and what it leaves behind. */
  lemma HearingStepIsOk(
      start: Db, w: World, hash: Payload -> Digest, facts: seq<Fact>, s: nat, t: nat, now: real)
    requires Ok(start, w, hash, facts) && s < |w.sessions| && t < |w.sessions[s].transcripts|
    ensures var r := w.sessions[s];
            var (after, pending, hearing) := HearingStep(w.db, r, r.transcripts[t], now);
            var f := FactOf(w, hash, HearingMoves(s, t, now));
            && Keeps(w.db, after)
            && |after.confirmations| == |w.db.confirmations|
            && PendingOk(start, after, hash, facts + [f], s, r.owner, pending)
            && TranscriptOk(start, after, hash, facts + [f], s, r.owner, r.transcripts[t].(hearing := hearing))
            && ConfirmsAccepted(start, w.db, after, hash, facts, f, |w.sessions|)
  {
    hide WasStaged, WasAccepted, RowsOk, NewRowsOk, StaysClosed, Realtime.Accepts, Realtime.Declines, Keeps;
    var r := w.sessions[s];
    var f := FactOf(w, hash, HearingMoves(s, t, now));
    assert RacerOk(start, w.db, hash, facts, s, r) && r.transcripts[t] in r.transcripts;
    KeepsItself(w.db);
    var hearing := r.transcripts[t].hearing;
    if hearing.Confirming? { OnlyConfirmConfirms(w.db, hash, ConfirmCall(r.owner, hearing.id, now)); }
    if hearing.Cancelling? { OnlyConfirmConfirms(w.db, hash, CancelCall(r.owner, hearing.id)); }
    RacerStaysOk(start, w.db, HearingStep(w.db, r, r.transcripts[t], now).0, hash, facts, f, s, r);
  }

  lemma HearingMovesIsOk(
      start: Db, w: World, hash: Payload -> Digest, facts: seq<Fact>, s: nat, t: nat, now: real)
    requires Ok(start, w, hash, facts) && s < |w.sessions| && t < |w.sessions[s].transcripts|
    ensures var e := HearingMoves(s, t, now);
            Ok(start, Next(w, hash, e), hash, facts + [FactOf(w, hash, e)])
  {
    hide WasStaged, RowsOk, NewRowsOk, StaysClosed, Keeps, HearingStep, FactOf, PendingOk, TranscriptOk, ToolOk;
    hide ConfirmsAccepted;
    var r, e := w.sessions[s], HearingMoves(s, t, now);
    var after, f := Next(w, hash, e), FactOf(w, hash, e);
    HearingStepIsOk(start, w, hash, facts, s, t, now);
    assert RacerOk(start, w.db, hash, facts, s, r);
    RacerStaysOk(start, w.db, after.db, hash, facts, f, s, r);
    assert RacerOk(start, after.db, hash, facts + [f], s, after.sessions[s]);
    NewRowsStay(|start.confirmations|, w, after, hash, facts, f);
    StepIsOk(start, w, after, hash, facts, f, s);
  }

  /** A proposal stages the row it has inserted, with its details, or an open one that was staged before. */
  lemma ProposedIsAnnounced(
      start: Db, w: World, hash: Payload -> Digest, facts: seq<Fact>, s: nat, hint: nat, now: real)
    requires Ok(start, w, hash, facts) && s < |w.sessions| && w.sessions[s].tool.Proposing?
    ensures var r, d := w.sessions[s], w.sessions[s].tool.details;
            var (after, id) := Prepare(w.db, hash, r.owner, s, d, hint, now);
            id.Some? ==>
              ToolOk(start, after, hash, facts + [Nothing], s, r.owner, Staging(d, id.value))
  {
    hide WasStaged, WasAccepted, RowsOk, RacersOk, KeyTaken, Existing;
    var r, d := w.sessions[s], w.sessions[s].tool.details;
    var (after, id) := Prepare(w.db, hash, r.owner, s, d, hint, now);
    if id.Some? && id.value < |w.db.confirmations| {
      var c := w.db.confirmations[id.value];
      MoreFacts(facts, Nothing, hash, |start.confirmations|, s, id.value, c, c);
      if id.value >= |start.confirmations| { assert IsAnnounced(|start.confirmations|, w, hash, facts, id.value); }
    }
  }

  lemma ToolKeepsNewRows(
      start: Db, w: World, hash: Payload -> Digest, facts: seq<Fact>, s: nat, hint: nat, now: real)
    requires Ok(start, w, hash, facts) && s < |w.sessions|
    requires Keeps(w.db, Next(w, hash, ToolMoves(s, hint, now)).db)
    ensures var e := ToolMoves(s, hint, now);
            NewRowsOk(|start.confirmations|, Next(w, hash, e), hash, facts + [FactOf(w, hash, e)])
  {
    hide WasStaged, WasAccepted, RowsOk, RacersOk, StaysClosed, KeyTaken, Existing, Consume, Validated, Dumped;
    var e, first, r := ToolMoves(s, hint, now), |start.confirmations|, w.sessions[s];
    var after, f := Next(w, hash, e), FactOf(w, hash, e);
    forall id | first <= id < |after.db.confirmations| && after.db.confirmations[id].session < |w.sessions|
      ensures IsAnnounced(first, after, hash, facts + [f], id)
    {
      if id < |w.db.confirmations| {
        var c := w.db.confirmations[id];
        assert MovesTo(c, after.db.confirmations[id]) && IsAnnounced(first, w, hash, facts, id);
        MoreFacts(facts, f, hash, first, c.session, id, c, after.db.confirmations[id]);
      } else {
        ConsumeInsertsNothing(w.db, hash, r, now);
      }
    }
  }

  lemma ConsumeInsertsNothing(db: Db, hash: Payload -> Digest, r: Racer, now: real)
    ensures r.tool.Writing? ==>
              |Realtime.CreateEnquiry(db, hash, r.owner, Some(r.tool.id), Dumped(r.tool.details), now).0.confirmations|
              == |db.confirmations|
  {
    hide Validated, Dumped, EnquiryFor, Violates, EnquiryId;
  }

  lemma ToolStepIsOk(
      start: Db, w: World, hash: Payload -> Digest, facts: seq<Fact>, s: nat, hint: nat, now: real)
    requires Ok(start, w, hash, facts) && s < |w.sessions|
    ensures var r := w.sessions[s];
            var (after, pending, tool) := ToolStep(w.db, hash, s, r, hint, now);
            var f := FactOf(w, hash, ToolMoves(s, hint, now));
            && Keeps(w.db, after)
            && PendingOk(start, after, hash, facts + [f], s, r.owner, pending)
            && ToolOk(start, after, hash, facts + [f], s, r.owner, tool)
            && ConfirmsAccepted(start, w.db, after, hash, facts, f, |w.sessions|)
  {
    hide WasStaged, WasAccepted, RowsOk, Consume, Keeps, KeyTaken, Existing, Validated, Dumped;
    var r, first := w.sessions[s], |start.confirmations|;
    assert RacerOk(start, w.db, hash, facts, s, r);
    KeepsItself(w.db);
    match r.tool {
      case Proposing(d) =>
        OnlyConfirmConfirms(w.db, hash, PrepareCall(r.owner, s, d, hint, now));
        ProposedIsAnnounced(start, w, hash, facts, s, hint, now);
      case Writing(d, id) =>
        if Validated(Dumped(d)).Some? {
          OnlyConfirmConfirms(w.db, hash, ConsumeCall(r.owner, id, Validated(Dumped(d)).value, now));
        }
      case Staging(d, id) =>
        MoreFacts(facts, Stages(s, id, d), hash, first, s, id, w.db.confirmations[id], w.db.confirmations[id]);
      case _ =>
    }
    RacerStaysOk(start, w.db, ToolStep(w.db, hash, s, r, hint, now).0, hash, facts,
      FactOf(w, hash, ToolMoves(s, hint, now)), s, r);
  }

  lemma ToolMovesIsOk(start: Db, w: World, hash: Payload -> Digest, facts: seq<Fact>, s: nat, hint: nat, now: real)
    requires Ok(start, w, hash, facts) && s < |w.sessions|
    ensures var e := ToolMoves(s, hint, now);
            Ok(start, Next(w, hash, e), hash, facts + [FactOf(w, hash, e)])
  {
    hide WasStaged, RowsOk, NewRowsOk, StaysClosed, Keeps, ToolStep, FactOf, PendingOk, TranscriptOk, ToolOk;
    hide ConfirmsAccepted;
    var r, e := w.sessions[s], ToolMoves(s, hint, now);
    var after, f := Next(w, hash, e), FactOf(w, hash, e);
    ToolStepIsOk(start, w, hash, facts, s, hint, now);
    assert RacerOk(start, w.db, hash, facts, s, r);
    RacerStaysOk(start, w.db, after.db, hash, facts, f, s, r);
    assert RacerOk(start, after.db, hash, facts + [f], s, after.sessions[s]);
    ToolKeepsNewRows(start, w, hash, facts, s, hint, now);
    StepIsOk(start, w, after, hash, facts, f, s);
  }

  lemma NextIsOk(start: Db, w: World, hash: Payload -> Digest, facts: seq<Fact>, e: Event)
    requires Ok(start, w, hash, facts)
    ensures Ok(start, Next(w, hash, e), hash, facts + [FactOf(w, hash, e)])
  {
    hide Ok, ToolStep, HearingStep, Validated, IsForeign, Apply, Confirm, Realtime.Accepts;
    match e {
      case ToolMoves(s, hint, now) =>
        if s < |w.sessions| { ToolMovesIsOk(start, w, hash, facts, s, hint, now); }
        else { IdleIsOk(start, w, hash, facts); }
      case HearingMoves(s, t, now) =>
        if s < |w.sessions| && t < |w.sessions[s].transcripts| { HearingMovesIsOk(start, w, hash, facts, s, t, now); }
        else { IdleIsOk(start, w, hash, facts); }
      case Elsewhere(call) => ElsewhereIsOk(start, w, hash, facts, call);
      case _ =>
        if e.s < |w.sessions| && Next(w, hash, e) != w {
          QuietStepIsOk(start, w, hash, facts, e.s, Next(w, hash, e).sessions[e.s]);
        } else { IdleIsOk(start, w, hash, facts); }
    }
  }

  lemma IdleIsOk(start: Db, w: World, hash: Payload -> Digest, facts: seq<Fact>)
    requires Ok(start, w, hash, facts)
    ensures Ok(start, w, hash, facts + [Nothing])
  {
    hide RacerOk, Keeps, RowsOk, StaysClosed, NewRowsOk;
    KeepsItself(w.db);
    NewRowsStay(|start.confirmations|, w, w, hash, facts, Nothing);
    RowsStayQuiet(start, w.db, hash, facts, |w.sessions|);
    forall s | 0 <= s < |w.sessions| ensures RacerOk(start, w.db, hash, facts + [Nothing], s, w.sessions[s]) {
      RacerStaysOk(start, w.db, w.db, hash, facts, Nothing, s, w.sessions[s]);
    }
  }

  lemma RowsStayQuiet(start: Db, db: Db, hash: Payload -> Digest, facts: seq<Fact>, sessions: nat)
    requires RowsOk(start, db, hash, facts, sessions)
    ensures RowsOk(start, db, hash, facts + [Nothing], sessions)
  {
    KeepsItself(db);
    RowsStayOk(start, db, db, hash, facts, Nothing, sessions);
  }

  /** Sessions that have staged nothing, in front of any tables. */
  ghost predicate AllIdle(w: World) {
    forall r <- w.sessions :: r.pending.None? && r.tool.NoCall? && r.transcripts == []
  }

  lemma {:induction false} RunIsOk(start: World, hash: Payload -> Digest, events: seq<Event>)
    requires AllIdle(start)
    ensures Ok(start.db, Run(start, hash, events), hash, Trace(start, hash, events))
  {
    hide Next, FactOf, Ok;
    if events == [] {
      IdleStartIsOk(start, hash);
    } else {
      var before := events[..|events| - 1];
      RunIsOk(start, hash, before);
      NextIsOk(start.db, Run(start, hash, before), hash, Trace(start, hash, before), events[|events| - 1]);
    }
  }

  lemma IdleStartIsOk(start: World, hash: Payload -> Digest)
    requires AllIdle(start)
    ensures Ok(start.db, start, hash, [])
  {
    hide WasStaged, WasAccepted;
    forall s | 0 <= s < |start.sessions| ensures RacerOk(start.db, start.db, hash, [], s, start.sessions[s]) {
      assert start.sessions[s] in start.sessions;
    }
  }

  /** Only a tool call that has come to its write adds an enquiry, of a row that is then confirmed. */
  lemma OnlyWritesAdd(w: World, hash: Payload -> Digest, e: Event)
    requires !e.Elsewhere? && |Next(w, hash, e).db.enquiries| > |w.db.enquiries|
    ensures e.ToolMoves? && e.s < |w.sessions| && w.sessions[e.s].tool.Writing?
    ensures var added := Next(w, hash, e).db.enquiries[|w.db.enquiries|];
            var id := w.sessions[e.s].tool.id;
            && FactOf(w, hash, e) == Writes(e.s, added)
            && added.confirmation == id && added.buyer == w.sessions[e.s].owner
            && id < |w.db.confirmations|
            && w.db.confirmations[id].status == Confirmed && w.db.confirmations[id].digest == hash(added.payload)
            && w.db.confirmations[id].payload == added.payload && e.now < w.db.confirmations[id].expiresAt
  {
    hide EnquiryFor, Violates, EnquiryId, KeyTaken, Existing, Validated, Dumped, Realtime.Accepts, Realtime.Declines;
  }

  lemma {:induction false} TraceOfPrefix(start: World, hash: Payload -> Digest, events: seq<Event>, n: nat)
    requires n <= |events|
    ensures Trace(start, hash, events)[..n] == Trace(start, hash, events[..n])
  {
    hide Run, FactOf;
    if n == |events| {
      assert events[..n] == events;
    } else {
      var before := events[..|events| - 1];
      TraceOfPrefix(start, hash, before, n);
      assert before[..n] == events[..n];
      assert Trace(start, hash, events)[..n] == Trace(start, hash, before)[..n];
    }
  }

  /**
   * However the steps of transcripts fall between the steps of tool calls, and whatever they find staged each time they
   * look: an enquiry that a racing session writes is written before the deadline, from a row that the session had
   * staged and whose own acceptance, heard in the session after that, had gone through. It was staged with these very
   * details, or, if the row was there at the start, with details of their digest.
   */
  lemma EveryRacedWriteIsAccepted(start: World, hash: Payload -> Digest, events: seq<Event>, n: nat)
    requires AllIdle(start) && n < |events| && !events[n].Elsewhere?
    requires |Run(start, hash, events[..n + 1]).db.enquiries| > |Run(start, hash, events[..n]).db.enquiries|
    ensures var w := Run(start, hash, events[..n]);
            var added := Run(start, hash, events[..n + 1]).db.enquiries[|w.db.enquiries|];
            var facts := Trace(start, hash, events);
            && events[n].ToolMoves? && events[n].s < |w.sessions| && added.buyer == w.sessions[events[n].s].owner
            && added.confirmation < |w.db.confirmations|
            && events[n].now < w.db.confirmations[added.confirmation].expiresAt
            && exists b, a :: 0 <= b < a < n
                 && facts[b].Stages? && facts[b].s == events[n].s && facts[b].id == added.confirmation
                 && hash(facts[b].details) == hash(added.payload)
                 && (added.confirmation >= |start.db.confirmations| ==> facts[b].details == added.payload)
                 && facts[a] == Accepts(events[n].s, added.confirmation)
  {
    hide Next, FactOf, Trace, RowsOk, RacerOk, StaysClosed, NewRowsOk;
    var w, e := Run(start, hash, events[..n]), events[n];
    var facts := Trace(start, hash, events[..n]);
    assert events[..n + 1][..n] == events[..n] && events[..n + 1][n] == e;
    OnlyWritesAdd(w, hash, e);
    RunIsOk(start, hash, events[..n]);
    WritingIsAccepted(start.db, w, hash, facts, e.s);
    TraceOfPrefix(start, hash, events, n);
    var added := Next(w, hash, e).db.enquiries[|w.db.enquiries|];
    var id, first := added.confirmation, |start.db.confirmations|;
    var b, a :| 0 <= b < a < |facts| && IsStagingOf(facts[b], hash, first, e.s, id, w.db.confirmations[id])
      && facts[a] == Accepts(e.s, id);
    assert Trace(start, hash, events)[b] == facts[b] && Trace(start, hash, events)[a] == facts[a];
  }

  lemma WritingIsAccepted(start: Db, w: World, hash: Payload -> Digest, facts: seq<Fact>, s: nat)
    requires Ok(start, w, hash, facts) && s < |w.sessions| && w.sessions[s].tool.Writing?
    requires var id := w.sessions[s].tool.id;
             id < |w.db.confirmations| && w.db.confirmations[id].status == Confirmed
    ensures var id := w.sessions[s].tool.id;
            WasAccepted(facts, hash, |start.confirmations|, s, id, w.db.confirmations[id])
  {
    hide WasAccepted;
    assert RacerOk(start, w.db, hash, facts, s, w.sessions[s]);
    assert RowIsBacked(start, w.db, hash, facts, w.sessions[s].tool.id);
  }

  // ---- the flag alone would not be enough ----

  lemma RunLast(start: World, hash: Payload -> Digest, events: seq<Event>, e: Event)
    ensures Run(start, hash, events + [e]) == Next(Run(start, hash, events), hash, e)
  {
    hide Next;
    assert (events + [e])[..|events|] == events;
  }

  lemma {:induction false} RunConcat(start: World, hash: Payload -> Digest, a: seq<Event>, b: seq<Event>)
    ensures Run(start, hash, a + b) == Run(Run(start, hash, a), hash, b)
    decreases |b|
  {
    hide Next;
    if b == [] {
      assert a + b == a;
    } else {
      var n := |b| - 1;
      RunConcat(start, hash, a, b[..n]);
      assert a + b == (a + b[..n]) + [b[n]];
      RunLast(start, hash, a + b[..n], b[n]);
    }
  }

  lemma RunFive(w: World, hash: Payload -> Digest, a: Event, b: Event, c: Event, d: Event, e: Event)
    ensures Run(w, hash, [a, b]) == Next(Next(w, hash, a), hash, b)
    ensures Run(w, hash, [a, b, c]) == Next(Next(Next(w, hash, a), hash, b), hash, c)
    ensures Run(w, hash, [a, b, c, d, e])
         == Next(Next(Next(Next(Next(w, hash, a), hash, b), hash, c), hash, d), hash, e)
  {
    hide Next;
    assert [a] == [] + [a] && [a, b] == [a] + [b] && [a, b, c] == [a, b] + [c];
    assert [a, b, c, d] == [a, b, c] + [d] && [a, b, c, d, e] == [a, b, c, d] + [e];
    RunLast(w, hash, [], a);
    RunLast(w, hash, [a], b);
    RunLast(w, hash, [a, b], c);
    RunLast(w, hash, [a, b, c], d);
    RunLast(w, hash, [a, b, c, d], e);
  }

  /** A call of create_enquiry, with as many steps as it may need. */
  function Asks(args: map<string, Json>, now: real): seq<Event> {
    [Call(0, args), ToolMoves(0, 0, now), ToolMoves(0, 0, now), ToolMoves(0, 0, now), ToolMoves(0, 0, now)]
  }

  /** A transcript is heard and finds the staged row. */
  function Listens(utterance: string, now: real): seq<Event> {
    [Hear(0, utterance), HearingMoves(0, 0, now), HearingMoves(0, 0, now)]
  }

  /** It confirms the row and says so in the session. */
  function Accepted(now: real): seq<Event> { [HearingMoves(0, 0, now), HearingMoves(0, 0, now)] }

  function One(db: Db, who: Principal, pending: Pending, transcripts: seq<Transcript>): World {
    World(db, [Racer(who, pending, NoCall, transcripts)])
  }

  lemma AskedIsStaged(
      db: Db, hash: Payload -> Digest, who: Principal, pending: Pending, heard: seq<Transcript>,
      args: map<string, Json>, now: real)
    requires Validated(args).Some?
    requires pending.Some? ==> pending.value.arguments != Validated(args).value
    requires Prepare(db, hash, who, 0, Validated(args).value, 0, now).1.Some?
    ensures var d := Validated(args).value;
            var (after, id) := Prepare(db, hash, who, 0, d, 0, now);
            Run(One(db, who, pending, heard), hash, Asks(args, now))
            == One(after, who, Some(Realtime.PendingEnquiry(d, id.value, false)), heard)
  {
    hide Prepare, Validated, Realtime.CreateEnquiry, Run;
    var w, m := One(db, who, pending, heard), ToolMoves(0, 0, now);
    RunFive(w, hash, Call(0, args), m, m, m, m);
  }

  lemma TranscriptMoves(db: Db, hash: Payload -> Digest, who: Principal, pending: Pending, t: Transcript, now: real)
    ensures var (after, staged, hearing) := HearingStep(db, Racer(who, pending, NoCall, [t]), t, now);
            Next(One(db, who, pending, [t]), hash, HearingMoves(0, 0, now))
            == One(after, who, staged, [t.(hearing := hearing)])
  {
    hide HearingStep;
    assert [t][0 := t.(hearing := HearingStep(db, Racer(who, pending, NoCall, [t]), t, now).2)]
        == [t.(hearing := HearingStep(db, Racer(who, pending, NoCall, [t]), t, now).2)];
  }

  lemma HeardIsConfirming(
      db: Db, hash: Payload -> Digest, who: Principal, pending: Pending, utterance: string, now: real)
    requires pending.Some? && Realtime.Accepts(utterance)
    ensures Run(One(db, who, pending, []), hash, Listens(utterance, now))
         == One(db, who, pending, [Transcript(utterance, Confirming(pending.value.confirmation))])
  {
    hide Realtime.Accepts, Realtime.Declines, Run;
    var w, m := One(db, who, pending, []), HearingMoves(0, 0, now);
    RunFive(w, hash, Hear(0, utterance), m, m, m, m);
    assert [] + [Transcript(utterance, Heard)] == [Transcript(utterance, Heard)];
    TranscriptMoves(db, hash, who, pending, Transcript(utterance, Heard), now);
    TranscriptMoves(db, hash, who, pending, Transcript(utterance, Accepting), now);
  }

  lemma AcceptanceSetsTheFlag(
      db: Db, hash: Payload -> Digest, who: Principal, pending: Pending, utterance: string, id: nat, now: real)
    requires pending.Some? && Confirm(db, who, id, now).1
    ensures Run(One(db, who, pending, [Transcript(utterance, Confirming(id))]), hash, Accepted(now))
         == One(
              Confirm(db, who, id, now).0, who, Some(pending.value.(confirmed := true)), [Transcript(utterance, Over)])
  {
    hide Realtime.Accepts, Realtime.Declines, Run, Confirm;
    var w, m := One(db, who, pending, [Transcript(utterance, Confirming(id))]), HearingMoves(0, 0, now);
    RunFive(w, hash, m, m, m, m, m);
    TranscriptMoves(db, hash, who, pending, Transcript(utterance, Confirming(id)), now);
    TranscriptMoves(Confirm(db, who, id, now).0, hash, who, pending, Transcript(utterance, Answered(true)), now);
  }

  /** A flagged call whose row is still pending: the service refuses. */
  lemma FlaggedCallIsRefused(
      db: Db, hash: Payload -> Digest, who: Principal, pending: Pending, heard: seq<Transcript>,
      args: map<string, Json>, now: real)
    requires Validated(args).Some? && pending.Some? && pending.value.confirmed
    requires pending.value.arguments == Validated(args).value && db.enquiries == []
    requires Owns(db, who, pending.value.confirmation) && db.confirmations[pending.value.confirmation].status == Pending
    ensures Run(One(db, who, pending, heard), hash, Asks(args, now) + [ToolMoves(0, 0, now)])
         == One(db, who, pending, heard)
  {
    hide Validated, Run, Dumped;
    var w, m := One(db, who, pending, heard), ToolMoves(0, 0, now);
    RunFive(w, hash, Call(0, args), m, m, m, m);
    RunLast(w, hash, Asks(args, now), m);
    ValidatedIsStable(args);
  }

  /** The whole story: two proposals, with the acceptance of the first one answered after the second is staged. */
  function Misheard(args: map<string, Json>, others: map<string, Json>, utterance: string): seq<Event> {
    Asks(args, 1.0) + Listens(utterance, 2.0) + Asks(others, 3.0) + Accepted(4.0)
  }

  /** The tables with the two rows, the first one confirmed. */
  function TwoRows(hash: Payload -> Digest, who: Principal, d: Payload, e: Payload): Db {
    var first := NewConfirmation(who, 0, hash(d), d, 1.0).(status := Confirmed, confirmedAt := Some(4.0));
    Db([first, NewConfirmation(who, 0, hash(e), e, 3.0)], [], [], map[], {})
  }

  /**
   * A transcript that accepts the first proposal and is answered after the second is staged flags the second: then the
   * staged action counts as confirmed while its row is still pending. Its call reaches the service, which refuses.
   */
  lemma FlagIsNotEnough(
      hash: Payload -> Digest, who: Principal, args: map<string, Json>, others: map<string, Json>, utterance: string)
    requires Validated(args).Some? && Validated(others).Some? && Realtime.Accepts(utterance)
    requires hash(Validated(args).value) != hash(Validated(others).value)
    ensures var start := One(Db([], [], [], map[], {}), who, None, []);
            var w := Run(start, hash, Misheard(args, others, utterance));
            && AllIdle(start)
            && w == One(TwoRows(hash, who, Validated(args).value, Validated(others).value), who,
                 Some(Realtime.PendingEnquiry(Validated(others).value, 1, true)), [Transcript(utterance, Over)])
            && w.db.confirmations[1].status == Pending
            && Run(w, hash, Asks(others, 5.0) + [ToolMoves(0, 0, 5.0)]) == w
  {
    hide Run, Validated, Realtime.Accepts, Asks, Listens, Accepted, Prepare, Confirm;
    var d, e := Validated(args).value, Validated(others).value;
    var empty := Db([], [], [], map[], {});
    var start := One(empty, who, None, []);
    var one := empty.(confirmations := [NewConfirmation(who, 0, hash(d), d, 1.0)]);
    var two := one.(confirmations := one.confirmations + [NewConfirmation(who, 0, hash(e), e, 3.0)]);
    FirstTwo(hash, who, d, e);
    var first := Some(Realtime.PendingEnquiry(d, 0, false));
    var second := Some(Realtime.PendingEnquiry(e, 1, false));
    var heard := [Transcript(utterance, Confirming(0))];
    AskedIsStaged(empty, hash, who, None, [], args, 1.0);
    HeardIsConfirming(one, hash, who, first, utterance, 2.0);
    AskedIsStaged(one, hash, who, first, heard, others, 3.0);
    AcceptanceSetsTheFlag(two, hash, who, second, utterance, 0, 4.0);
    RunConcat(start, hash, Asks(args, 1.0), Listens(utterance, 2.0));
    RunConcat(start, hash, Asks(args, 1.0) + Listens(utterance, 2.0), Asks(others, 3.0));
    RunConcat(start, hash, Asks(args, 1.0) + Listens(utterance, 2.0) + Asks(others, 3.0), Accepted(4.0));
    FlaggedCallIsRefused(TwoRows(hash, who, d, e), hash, who, Some(Realtime.PendingEnquiry(e, 1, true)),
      [Transcript(utterance, Over)], others, 5.0);
  }

  lemma FirstTwo(hash: Payload -> Digest, who: Principal, d: Payload, e: Payload)
    requires hash(d) != hash(e)
    ensures var empty := Db([], [], [], map[], {});
            var one := empty.(confirmations := [NewConfirmation(who, 0, hash(d), d, 1.0)]);
            var two := one.(confirmations := one.confirmations + [NewConfirmation(who, 0, hash(e), e, 3.0)]);
            && Prepare(empty, hash, who, 0, d, 0, 1.0) == (one, Some(0))
            && Prepare(one, hash, who, 0, e, 0, 3.0) == (two, Some(1))
            && Confirm(two, who, 0, 4.0) == (TwoRows(hash, who, d, e), true)
  {
    var none: seq<Confirmation> := [];
    var first, second := NewConfirmation(who, 0, hash(d), d, 1.0), NewConfirmation(who, 0, hash(e), e, 3.0);
    var accepted := first.(status := Confirmed, confirmedAt := Some(4.0));
    assert none + [first] == [first] && ([first] + [second])[0 := accepted] == [accepted, second];
    assert !Matches(first, who, 0, hash(e)) && first.key != Key(0, hash(e), 3.0);
  }
}
