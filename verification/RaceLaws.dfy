/** The interrupted realtime engine against the uninterrupted one: without an interruption both do the same. */
module RaceLaws {
  import opened Enquiries
  import opened Races
  import Realtime

  /** The same event so many times in a row. */
  function Repeated(w: World, hash: Payload -> Digest, e: Event, n: nat): World {
    if n == 0 then w else Next(Repeated(w, hash, e, n - 1), hash, e)
  }

  function AsSession(r: Racer, s: nat): Realtime.Session { Realtime.Session(s, r.owner, r.pending, []) }

  // ---- tool calls ----

  /** The world with the call of one session at this point. */
  function WithTool(w: World, s: nat, db: Db, pending: Pending, tool: Tool): World
    requires s < |w.sessions|
  {
    World(db, w.sessions[s := w.sessions[s].(pending := pending, tool := tool)])
  }

  lemma ToolMove(
      w: World, hash: Payload -> Digest, s: nat, db: Db, pending: Pending, tool: Tool, hint: nat, now: real)
    requires s < |w.sessions|
    ensures var (after, p, t) := ToolStep(db, hash, s, w.sessions[s].(pending := pending, tool := tool), hint, now);
            Next(WithTool(w, s, db, pending, tool), hash, ToolMoves(s, hint, now)) == WithTool(w, s, after, p, t)
  {
    hide ToolStep;
  }

  /** Where a call is after so many steps without an interruption. */
  function CallAfter(db: Db, hash: Payload -> Digest, s: nat, r: Racer, hint: nat, now: real, n: nat): (Db, Racer) {
    if n == 0 then (db, r)
    else
      var (before, q) := CallAfter(db, hash, s, r, hint, now, n - 1);
      var (after, pending, tool) := ToolStep(before, hash, s, q, hint, now);
      (after, q.(pending := pending, tool := tool))
  }

  lemma {:induction false} RepeatedIsCallAfter(
      w: World, hash: Payload -> Digest, s: nat, hint: nat, now: real, n: nat)
    requires s < |w.sessions|
    ensures var (db, r) := CallAfter(w.db, hash, s, w.sessions[s], hint, now, n);
            && r == w.sessions[s].(pending := r.pending, tool := r.tool)
            && Repeated(w, hash, ToolMoves(s, hint, now), n) == WithTool(w, s, db, r.pending, r.tool)
  {
    hide ToolStep;
    if n > 0 {
      RepeatedIsCallAfter(w, hash, s, hint, now, n - 1);
      var (db, r) := CallAfter(w.db, hash, s, w.sessions[s], hint, now, n - 1);
      ToolMove(w, hash, s, db, r.pending, r.tool, hint, now);
    } else {
      assert w.sessions[s := w.sessions[s]] == w.sessions;
    }
  }

  lemma SixSteps(db: Db, hash: Payload -> Digest, s: nat, r: Racer, hint: nat, now: real)
    ensures var (d1, r1) := NextCall(db, hash, s, r, hint, now);
            var (d2, r2) := NextCall(d1, hash, s, r1, hint, now);
            var (d3, r3) := NextCall(d2, hash, s, r2, hint, now);
            var (d4, r4) := NextCall(d3, hash, s, r3, hint, now);
            var (d5, r5) := NextCall(d4, hash, s, r4, hint, now);
            CallAfter(db, hash, s, r, hint, now, 6) == NextCall(d5, hash, s, r5, hint, now)
  {
    hide ToolStep;
    assert CallAfter(db, hash, s, r, hint, now, 0) == (db, r);
    assert CallAfter(db, hash, s, r, hint, now, 1) == NextCall(db, hash, s, r, hint, now);
    var (d2, r2) := CallAfter(db, hash, s, r, hint, now, 2);
    var (d3, r3) := CallAfter(db, hash, s, r, hint, now, 3);
    var (d4, r4) := CallAfter(db, hash, s, r, hint, now, 4);
    assert (d4, r4) == NextCall(d3, hash, s, r3, hint, now);
  }

  function NextCall(db: Db, hash: Payload -> Digest, s: nat, r: Racer, hint: nat, now: real): (Db, Racer) {
    var (after, pending, tool) := ToolStep(db, hash, s, r, hint, now);
    (after, r.(pending := pending, tool := tool))
  }

  lemma GatePassed(
      db: Db, hash: Payload -> Digest, s: nat, r: Racer, args: map<string, Json>, call: Realtime.ToolCall)
    requires Validated(args).Some? && call.args == args && r.tool == Called(Validated(args).value)
    ensures var (after, t, _) := Realtime.Gate(db, hash, AsSession(r, s), call);
            CallAfter(db, hash, s, r, call.hint, call.now, 6) == (after, r.(pending := t.pending, tool := NoCall))
  {
    hide Prepare, Realtime.CreateEnquiry, Validated, Dumped, CallAfter;
    SixSteps(db, hash, s, r, call.hint, call.now);
  }

  /**
   * A call of create_enquiry that nothing interrupts ends after at most six steps with the tables and the staged action
   * that the gate leaves, and everything else is as it was.
   */
  lemma UninterruptedCallIsGate(w: World, hash: Payload -> Digest, s: nat, call: Realtime.ToolCall)
    requires s < |w.sessions| && w.sessions[s].tool == NoCall && Validated(call.args).Some?
    ensures var (after, t, _) := Realtime.Gate(w.db, hash, AsSession(w.sessions[s], s), call);
            Repeated(Next(w, hash, Call(s, call.args)), hash, ToolMoves(s, call.hint, call.now), 6)
            == WithTool(w, s, after, t.pending, NoCall)
  {
    hide Realtime.Gate, Validated, CallAfter, Repeated;
    var called := Next(w, hash, Call(s, call.args));
    RepeatedIsCallAfter(called, hash, s, call.hint, call.now, 6);
    GatePassed(w.db, hash, s, called.sessions[s], call.args, call);
    SameGate(w.db, hash, w.sessions[s], called.sessions[s], s, call);
  }

  lemma SameGate(db: Db, hash: Payload -> Digest, r: Racer, q: Racer, s: nat, call: Realtime.ToolCall)
    requires q.owner == r.owner && q.pending == r.pending
    ensures Realtime.Gate(db, hash, AsSession(q, s), call) == Realtime.Gate(db, hash, AsSession(r, s), call)
  {
    hide Realtime.Gate;
  }

  // ---- transcripts ----

  /** Where a transcript is after so many steps without an interruption. */
  function HeardAfter(db: Db, r: Racer, t: Transcript, now: real, n: nat): (Db, Pending, Transcript) {
    if n == 0 then (db, r.pending, t)
    else
      var (before, p, u) := HeardAfter(db, r, t, now, n - 1);
      var (after, pending, hearing) := HearingStep(before, r.(pending := p), u, now);
      (after, pending, u.(hearing := hearing))
  }

  /** The world with the last transcript of one session at this point. */
  function WithLast(w: World, s: nat, db: Db, pending: Pending, t: Transcript): World
    requires s < |w.sessions|
  {
    World(db, w.sessions[s := w.sessions[s].(pending := pending, transcripts := w.sessions[s].transcripts + [t])])
  }

  lemma HearingMove(w: World, hash: Payload -> Digest, s: nat, db: Db, pending: Pending, t: Transcript, now: real)
    requires s < |w.sessions|
    ensures var (after, p, hearing) := HearingStep(db, w.sessions[s].(pending := pending), t, now);
            Next(WithLast(w, s, db, pending, t), hash, HearingMoves(s, |w.sessions[s].transcripts|, now))
            == WithLast(w, s, after, p, t.(hearing := hearing))
  {
    hide HearingStep;
    var r, n := w.sessions[s], |w.sessions[s].transcripts|;
    SameStep(db, r.(pending := pending), r.(pending := pending, transcripts := r.transcripts + [t]), t, now);
    var u := t.(hearing := HearingStep(db, r.(pending := pending), t, now).2);
    assert (r.transcripts + [t])[n := u] == r.transcripts + [u];
  }

  lemma SameStep(db: Db, r: Racer, q: Racer, t: Transcript, now: real)
    requires q.owner == r.owner && q.pending == r.pending
    ensures HearingStep(db, r, t, now) == HearingStep(db, q, t, now)
  {
    hide Confirm, Cancel, Realtime.Accepts, Realtime.Declines;
  }

  lemma {:induction false} RepeatedIsHeardAfter(
      w: World, hash: Payload -> Digest, s: nat, t: Transcript, now: real, n: nat)
    requires s < |w.sessions|
    ensures var (db, pending, u) := HeardAfter(w.db, w.sessions[s], t, now, n);
            Repeated(WithLast(w, s, w.db, w.sessions[s].pending, t), hash,
              HearingMoves(s, |w.sessions[s].transcripts|, now), n)
            == WithLast(w, s, db, pending, u)
  {
    hide HearingStep, Next, WithLast;
    if n > 0 {
      RepeatedIsHeardAfter(w, hash, s, t, now, n - 1);
      var (db, pending, u) := HeardAfter(w.db, w.sessions[s], t, now, n - 1);
      HearingMove(w, hash, s, db, pending, u, now);
    }
  }

  lemma FourSteps(db: Db, r: Racer, t: Transcript, now: real)
    ensures var (d1, p1, t1) := NextHeard(db, r, r.pending, t, now);
            var (d2, p2, t2) := NextHeard(d1, r, p1, t1, now);
            var (d3, p3, t3) := NextHeard(d2, r, p2, t2, now);
            HeardAfter(db, r, t, now, 4) == NextHeard(d3, r, p3, t3, now)
  {
    hide HearingStep;
    assert r.(pending := r.pending) == r;
    assert HeardAfter(db, r, t, now, 0) == (db, r.pending, t);
    assert HeardAfter(db, r, t, now, 1) == NextHeard(db, r, r.pending, t, now);
    var (d2, p2, t2) := HeardAfter(db, r, t, now, 2);
    var (d3, p3, t3) := HeardAfter(db, r, t, now, 3);
    assert (d3, p3, t3) == NextHeard(d2, r, p2, t2, now);
  }

  function NextHeard(db: Db, r: Racer, p: Pending, t: Transcript, now: real): (Db, Pending, Transcript) {
    var (after, pending, hearing) := HearingStep(db, r.(pending := p), t, now);
    (after, pending, t.(hearing := hearing))
  }

  lemma Observed(db: Db, r: Racer, s: nat, utterance: string, now: real)
    ensures var (after, t, _) := Realtime.Observe(db, AsSession(r, s), utterance, now);
            HeardAfter(db, r, Transcript(utterance, Heard), now, 4) == (after, t.pending, Transcript(utterance, Over))
  {
    hide Confirm, Cancel, Realtime.Accepts, Realtime.Declines, HeardAfter;
    FourSteps(db, r, Transcript(utterance, Heard), now);
  }

  /**
   * A transcript that nothing interrupts is over after at most four steps, with the tables and the staged action that
   * observing it leaves: a refusal cancels the staged row, an acceptance confirms it.
   */
  lemma UninterruptedTranscriptIsObserved(w: World, hash: Payload -> Digest, s: nat, utterance: string, now: real)
    requires s < |w.sessions|
    ensures var (after, t, _) := Realtime.Observe(w.db, AsSession(w.sessions[s], s), utterance, now);
            Repeated(Next(w, hash, Hear(s, utterance)), hash,
              HearingMoves(s, |w.sessions[s].transcripts|, now), 4)
            == WithLast(w, s, after, t.pending, Transcript(utterance, Over))
  {
    hide Realtime.Observe, HeardAfter, Repeated;
    Observed(w.db, w.sessions[s], s, utterance, now);
    RepeatedIsHeardAfter(w, hash, s, Transcript(utterance, Heard), now, 4);
    assert Next(w, hash, Hear(s, utterance))
        == WithLast(w, s, w.db, w.sessions[s].pending, Transcript(utterance, Heard));
  }
}
