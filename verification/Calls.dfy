/** The call lifecycle: carrier events, inferred states, the audit trail and the post-call summary. */
module Calls {
  import opened Wrappers
  import Routes
  import Tokeniser

  datatype CallStatus = Queued | Ringing | Active | Transferred | Completed | Failed

  predicate IsTerminal(s: CallStatus) { s == Completed || s == Failed }

  const ALLOWED_TRANSITIONS: map<CallStatus, set<CallStatus>> := map[
    Queued := {Ringing, Failed},
    Ringing := {Active, Failed},
    Active := {Transferred, Completed, Failed},
    Transferred := {Completed, Failed},
    Completed := {},
    Failed := {}]

  const STATUS_ORDER: seq<CallStatus> := [Queued, Ringing, Active, Transferred, Completed, Failed]

  ghost predicate IsRoute(from: CallStatus, path: seq<CallStatus>, to: CallStatus) {
    Routes.IsRoute(ALLOWED_TRANSITIONS, from, path, to)
  }

  // ---- the table has one shortest route at most, and it only goes up ----

  /** How far a call has come; the two terminal states are equally far. */
  function Progress(s: CallStatus): nat {
    match s
    case Queued => 0
    case Ringing => 1
    case Active => 2
    case Transferred => 3
    case Completed => 4
    case Failed => 4
  }

  /** A legal step in the table, spelled out. */
  predicate IsStep(from: CallStatus, to: CallStatus) {
    match from
    case Queued => to == Ringing || to == Failed
    case Ringing => to == Active || to == Failed
    case Active => to == Transferred || to == Completed || to == Failed
    case Transferred => to == Completed || to == Failed
    case _ => false
  }

  lemma StepsAreTabulated(from: CallStatus, to: CallStatus)
    ensures from in ALLOWED_TRANSITIONS && (to in ALLOWED_TRANSITIONS[from] <==> IsStep(from, to))
    ensures to in STATUS_ORDER
  {
  }

  /** The states a carrier report implies, ending in the reported one. */
  function Route(from: CallStatus, to: CallStatus): Option<seq<CallStatus>>
    decreases 4 - Progress(from)
  {
    if from == to then Some([])
    else if Progress(to) <= Progress(from) then None
    else if IsStep(from, to) then Some([to])
    else
      var next := if from == Queued then Ringing else Active;
      var rest := Route(next, to);
      if rest.None? then None else Some([next] + rest.value)
  }

  lemma {:induction false} RouteExists(from: CallStatus, to: CallStatus)
    ensures Route(from, to).Some? <==> from == to || Progress(from) < Progress(to)
  {
  }

  lemma {:induction false} RoutesGoUp(from: CallStatus, path: seq<CallStatus>, to: CallStatus)
    requires IsRoute(from, path, to)
    ensures Progress(from) + |path| <= Progress(to)
    decreases |path|
  {
    hide ALLOWED_TRANSITIONS;
    if path != [] {
      StepsAreTabulated(from, path[0]);
      RoutesGoUp(path[0], path[1..], to);
    }
  }

  lemma {:induction false} RouteIsLegal(from: CallStatus, to: CallStatus)
    requires Route(from, to).Some?
    ensures IsRoute(from, Route(from, to).value, to)
    decreases 4 - Progress(from)
  {
    hide ALLOWED_TRANSITIONS;
    var r := Route(from, to).value;
    if r != [] {
      StepsAreTabulated(from, r[0]);
      assert r[1..] == Route(r[0], to).value;
      RouteIsLegal(r[0], to);
    }
  }

  lemma {:induction false} ShortRouteIsTabulated(from: CallStatus, path: seq<CallStatus>, to: CallStatus)
    requires IsRoute(from, path, to) && Route(from, to).Some? && |path| <= |Route(from, to).value|
    ensures path == Route(from, to).value
    decreases |path|
  {
    hide ALLOWED_TRANSITIONS;
    if path != [] {
      StepsAreTabulated(from, path[0]);
      RoutesGoUp(path[0], path[1..], to);
      if path[0] == to {
        assert path[1..] == [];
      } else if Route(path[0], to).Some? {
        ShortRouteIsTabulated(path[0], path[1..], to);
      }
      assert path == [path[0]] + path[1..];
    }
  }

  /** The search of the general theorem, on this table, finds exactly the tabulated route. */
  lemma LeastRouteIsTabulated(from: CallStatus, to: CallStatus, path: seq<CallStatus>)
    requires Routes.IsLeast(ALLOWED_TRANSITIONS, STATUS_ORDER, from, path, to)
    ensures Route(from, to) == Some(path)
  {
    hide ALLOWED_TRANSITIONS;
    RoutesGoUp(from, path, to);
    RouteExists(from, to);
    RouteIsLegal(from, to);
    ShortRouteIsTabulated(from, path, to);
  }

  lemma ReachableIsTabulated(from: CallStatus, to: CallStatus)
    ensures Routes.Reachable(ALLOWED_TRANSITIONS, from, to) <==> Route(from, to).Some?
  {
    if Routes.Reachable(ALLOWED_TRANSITIONS, from, to) {
      var p :| Routes.IsRoute(ALLOWED_TRANSITIONS, from, p, to);
      RoutesGoUp(from, p, to);
      RouteExists(from, to);
    }
    if Route(from, to).Some? { RouteIsLegal(from, to); }
  }

  lemma TableIsTable()
    ensures Routes.IsTable(ALLOWED_TRANSITIONS, STATUS_ORDER)
  {
    forall n, m | n in ALLOWED_TRANSITIONS && m in ALLOWED_TRANSITIONS[n]
      ensures m in ALLOWED_TRANSITIONS && m in STATUS_ORDER
    {
      StepsAreTabulated(m, m);
    }
  }

  method TransitionPath(current: CallStatus, target: CallStatus) returns (route: Option<seq<CallStatus>>)
    ensures route == Route(current, target)
  {
    TableIsTable();
    route := Routes.TransitionPath(ALLOWED_TRANSITIONS, STATUS_ORDER, current, target);
    ReachableIsTabulated(current, target);
    if route.Some? { LeastRouteIsTabulated(current, target, route.value); }
  }

  // ---- the post-call summary ----

  predicate EndsSentence(c: char) { c == '.' || c == '?' || c == '!' }

  /** The text cut at every full stop, question mark and exclamation mark. */
  function Segments(s: string, current: string): seq<string> {
    if s == "" then [current]
    else if EndsSentence(s[0]) then [current] + Segments(s[1..], "")
    else Segments(s[1..], current + [s[0]])
  }

  function Sentences(segments: seq<string>): seq<string> {
    if segments == [] then []
    else if Tokeniser.Strip(segments[0]) == "" then Sentences(segments[1..])
    else [Tokeniser.Strip(segments[0])] + Sentences(segments[1..])
  }

  function Clip(s: string, n: nat): string { if |s| <= n then s else s[..n] }

  function BuildSummary(transcript: string, outcome: Option<string>): string {
    var clean := Tokeniser.Join(Tokeniser.Words(transcript));
    if clean == "" then "Call completed without a captured transcript."
    else
      var sentences := Sentences(Segments(clean, ""));
      var excerpt := if |sentences| == 0 then "" else if |sentences| == 1 then sentences[0]
                     else sentences[0] + ". " + sentences[1];
      var suffix := if outcome.Some? && outcome.value != "" then " Outcome: " + outcome.value + "." else "";
      Tokeniser.Strip(Clip(excerpt, 700) + "." + suffix)
  }

  // ---- the call row ----

  /** One audit row: what was reported, from which state, and the states inferred in between. */
  datatype AuditEvent = AuditEvent(reported: CallStatus, fromStatus: CallStatus, inferred: seq<CallStatus>)

  /** A call with the audit rows that name it. */
  datatype CallRow = CallRow(
    status: CallStatus, startedAt: Option<int>, endedAt: Option<int>,
    transcript: string, outcome: Option<string>, summary: Option<string>, audit: seq<AuditEvent>)

  function NewRow(transcript: string, outcome: Option<string>): CallRow {
    CallRow(Queued, None, None, transcript, outcome, None, [])
  }

  /** The row after a report has been applied; None when the reported state cannot be reached. */
  function Advanced(c: CallRow, target: CallStatus, transcript: Option<string>, outcome: Option<string>, now: int)
    : Option<CallRow>
  {
    match Route(c.status, target)
    case None => None
    case Some(route) =>
      if route == [] then Some(c)
      else Some(CallRow(
        target,
        if c.startedAt.None? && Active in route then Some(now) else c.startedAt,
        if IsTerminal(target) then Some(now) else c.endedAt,
        if transcript.Some? then Clip(transcript.value, 20_000) else c.transcript,
        if outcome.Some? then Some(Clip(outcome.value, 80)) else c.outcome,
        c.summary,
        c.audit + [AuditEvent(target, c.status, route[..|route| - 1])]))
  }

  function Summarised(c: CallRow): CallRow { c.(summary := Some(BuildSummary(c.transcript, c.outcome))) }

  /** Only the last state of a route can be terminal. */
  lemma {:induction false} RouteShape(from: CallStatus, to: CallStatus)
    ensures from == to ==> Route(from, to).Some?
    ensures Route(from, to).Some? ==>
            var r := Route(from, to).value;
            && (r == [] <==> from == to)
            && (r != [] ==> r[|r| - 1] == to && !IsTerminal(from))
            && forall i :: 0 <= i < |r| - 1 ==> !IsTerminal(r[i])
    decreases 4 - Progress(from)
  {
    if Route(from, to).Some? && |Route(from, to).value| > 1 {
      var r := Route(from, to).value;
      RouteShape(r[0], to);
      assert r[1..] == Route(r[0], to).value;
      assert forall i :: 1 <= i < |r| ==> r[i] == r[1..][i - 1];
    }
  }

  class Call {
    var status: CallStatus
    var startedAt: Option<int>
    var endedAt: Option<int>
    var transcript: string
    var outcome: Option<string>
    var summary: Option<string>
    var audit: seq<AuditEvent>

    ghost function Row(): CallRow
      reads this
    {
      CallRow(status, startedAt, endedAt, transcript, outcome, summary, audit)
    }

    constructor (transcript: string, outcome: Option<string>)
      ensures Row() == NewRow(transcript, outcome)
    {
      status, startedAt, endedAt := Queued, None, None;
      this.transcript, this.outcome, summary, audit := transcript, outcome, None, [];
    }

    /** Goes through the states of a route one by one; only its last state can be terminal. */
    method TakeRoute(route: seq<CallStatus>, now: int)
      requires route != [] && forall i :: 0 <= i < |route| - 1 ==> !IsTerminal(route[i])
      modifies this`status, this`startedAt, this`endedAt
      ensures status == route[|route| - 1]
      ensures startedAt == if old(startedAt).None? && Active in route then Some(now) else old(startedAt)
      ensures endedAt == if IsTerminal(status) then Some(now) else old(endedAt)
    {
      for i := 0 to |route|
        invariant i > 0 ==> status == route[i - 1]
        invariant startedAt
               == if old(startedAt).None? && Active in route[..i] then Some(now) else old(startedAt)
        invariant endedAt == if i == |route| && IsTerminal(route[i - 1]) then Some(now) else old(endedAt)
      {
        var step := route[i];
        assert route[..i + 1] == route[..i] + [step];
        status := step;
        if step == Active && startedAt.None? {
          startedAt := Some(now);
        }
        if IsTerminal(step) {
          endedAt := Some(now);
        }
      }
      assert route[..|route|] == route;
    }

    /** Applies a reported state; false is the transition error, and then nothing has changed. */
    method AdvanceCall(target: CallStatus, transcript: Option<string>, outcome: Option<string>, now: int)
      returns (applied: bool)
      modifies this
      ensures applied <==> Advanced(old(Row()), target, transcript, outcome, now).Some?
      ensures Row() == if applied then Advanced(old(Row()), target, transcript, outcome, now).value else old(Row())
    {
      hide Route, Clip, Progress, IsTerminal;
      RouteShape(status, target);
      if status == target {
        return true;
      }
      var found := TransitionPath(status, target);
      if found.None? {
        return false;
      }
      var route, origin := found.value, status;
      TakeRoute(route, now);
      if transcript.Some? {
        this.transcript := Clip(transcript.value, 20_000);
      }
      if outcome.Some? {
        this.outcome := Some(Clip(outcome.value, 80));
      }
      audit := audit + [AuditEvent(target, origin, route[..|route| - 1])];
      return true;
    }

    method Summarise()
      modifies this
      ensures Row() == Summarised(old(Row()))
    {
      summary := Some(BuildSummary(transcript, outcome));
    }
  }

  // ---- whole runs of one call ----

  /** What can happen to a stored call: a report, or a run of the summary job. */
  datatype CallEvent =
    | Reported(target: CallStatus, transcript: Option<string>, outcome: Option<string>, now: int)
    | SummaryJob

  /** Reports that cannot be reached are acknowledged and ignored. */
  function After(c: CallRow, e: CallEvent): CallRow {
    match e
    case SummaryJob => Summarised(c)
    case Reported(target, transcript, outcome, now) =>
      var next := Advanced(c, target, transcript, outcome, now);
      if next.Some? then next.value else c
  }

  function Run(c: CallRow, events: seq<CallEvent>): CallRow {
    if events == [] then c else After(Run(c, events[..|events| - 1]), events[|events| - 1])
  }

  function Reports(events: seq<CallEvent>): seq<CallStatus> {
    if events == [] then []
    else
      var e := events[|events| - 1];
      Reports(events[..|events| - 1]) + if e.Reported? then [e.target] else []
  }

  // ---- convergence ----

  /** The first terminal state reported, or else the furthest state reported. */
  function Settled(reports: seq<CallStatus>): (s: CallStatus)
  {
    if reports == [] then Queued
    else
      var before, last := Settled(reports[..|reports| - 1]), reports[|reports| - 1];
      if IsTerminal(before) then before
      else if Progress(before) < Progress(last) then last else before
  }

  /** What that means, without the recursion. */
  lemma {:induction false} SettledIsFirstTerminalOrFurthest(reports: seq<CallStatus>)
    ensures var s := Settled(reports);
            && (s == Queued || s in reports)
            && (forall r <- reports :: Progress(r) <= Progress(s))
            && (IsTerminal(s) ==> exists i :: 0 <= i < |reports| && reports[i] == s
                                    && forall j :: 0 <= j < i ==> !IsTerminal(reports[j]))
  {
    if reports != [] {
      var before, last := reports[..|reports| - 1], reports[|reports| - 1];
      assert reports == before + [last];
      SettledIsFirstTerminalOrFurthest(before);
      if IsTerminal(Settled(before)) {
        var i :| 0 <= i < |before| && before[i] == Settled(before) && forall j :: 0 <= j < i ==> !IsTerminal(before[j]);
        assert reports[i] == before[i];
      } else if IsTerminal(Settled(reports)) {
        assert forall j :: 0 <= j < |before| ==> before[j] in before;
        assert reports[|before|] == Settled(reports);
      }
    }
  }

  /** Whatever is reported, in whatever order, the call ends in the settled state. */
  lemma {:induction false} ReportsConverge(transcript: string, outcome: Option<string>, events: seq<CallEvent>)
    ensures Run(NewRow(transcript, outcome), events).status == Settled(Reports(events))
  {
    hide Route, Clip, BuildSummary;
    if events != [] {
      var before, e := events[..|events| - 1], events[|events| - 1];
      ReportsConverge(transcript, outcome, before);
      if e.Reported? {
        RouteShape(Run(NewRow(transcript, outcome), before).status, e.target);
        RouteExists(Run(NewRow(transcript, outcome), before).status, e.target);
        assert Reports(events)[..|Reports(events)| - 1] == Reports(before);
      } else {
        assert Reports(events) == Reports(before);
      }
    }
  }

  /** Reordered or repeated reports settle alike, as long as they name at most one terminal state. */
  lemma OrderDoesNotMatter(transcript: string, outcome: Option<string>, a: seq<CallEvent>, b: seq<CallEvent>)
    requires forall s :: s in Reports(a) <==> s in Reports(b)
    requires !(Completed in Reports(a) && Failed in Reports(a))
    ensures Run(NewRow(transcript, outcome), a).status == Run(NewRow(transcript, outcome), b).status
  {
    ReportsConverge(transcript, outcome, a);
    ReportsConverge(transcript, outcome, b);
    SettledIsFirstTerminalOrFurthest(Reports(a));
    SettledIsFirstTerminalOrFurthest(Reports(b));
  }

  // ---- history ----

  function Visited(audit: seq<AuditEvent>): set<CallStatus> {
    if audit == [] then {}
    else
      var e := audit[|audit| - 1];
      Visited(audit[..|audit| - 1]) + (set s <- e.inferred) + {e.reported}
  }

  /** The rows chain from `Queued`, each over a legal path, and the last one reports the current state. */
  ghost predicate Chained(audit: seq<AuditEvent>, status: CallStatus)
    decreases |audit|
  {
    if audit == [] then status == Queued
    else
      var e := audit[|audit| - 1];
      && e.reported == status && e.reported != e.fromStatus
      && IsRoute(e.fromStatus, e.inferred + [e.reported], e.reported)
      && Chained(audit[..|audit| - 1], e.fromStatus)
  }

  /** The audit trail of a call, and which of its times are set. */
  ghost predicate Audited(c: CallRow) {
    && Chained(c.audit, c.status)
    && (c.startedAt.Some? <==> Active in Visited(c.audit))
    && (c.endedAt.Some? <==> IsTerminal(c.status))
  }

  lemma ChainGrows(audit: seq<AuditEvent>, e: AuditEvent)
    requires Chained(audit, e.fromStatus) && e.reported != e.fromStatus
    requires IsRoute(e.fromStatus, e.inferred + [e.reported], e.reported)
    ensures Chained(audit + [e], e.reported)
    ensures Visited(audit + [e]) == Visited(audit) + (set s <- e.inferred) + {e.reported}
  {
    hide IsRoute;
    assert (audit + [e])[..|audit|] == audit;
  }

  /** An applied report: one more audit row, over the route that was taken. */
  lemma AppliedIsAudited(
      c: CallRow, target: CallStatus, transcript: Option<string>, outcome: Option<string>, now: int)
    requires Audited(c) && target != c.status && Route(c.status, target).Some?
    ensures var d := Advanced(c, target, transcript, outcome, now).value;
            && Audited(d) && !IsTerminal(c.status) && d.status == target
            && (c.startedAt.Some? ==> d.startedAt == c.startedAt)
            && |d.audit| == |c.audit| + 1 && d.audit[..|c.audit|] == c.audit
  {
    hide Route, Clip, IsRoute, Chained, Visited;
    RouteShape(c.status, target);
    RouteIsLegal(c.status, target);
    var route := Route(c.status, target).value;
    var e := AuditEvent(target, c.status, route[..|route| - 1]);
    assert route == e.inferred + [target];
    assert Active in route <==> Active in e.inferred || Active == target;
    ChainGrows(c.audit, e);
    assert Advanced(c, target, transcript, outcome, now).value.audit == c.audit + [e];
  }

  /** What one event may change, whatever the clock says. */
  lemma EventChanges(c: CallRow, e: CallEvent)
    requires Audited(c)
    ensures var d := After(c, e);
            && Audited(d)
            && (c.startedAt.Some? ==> d.startedAt == c.startedAt)
            && (d.status == c.status ==> d.audit == c.audit)
            && (d.status != c.status ==> |d.audit| == |c.audit| + 1 && d.audit[..|c.audit|] == c.audit)
            && (IsTerminal(c.status) ==> d == c || d == Summarised(c))
  {
    hide Route, Clip, BuildSummary, Chained, Visited, Progress;
    if e.Reported? {
      RouteShape(c.status, e.target);
      if Route(c.status, e.target).Some? && e.target != c.status {
        AppliedIsAudited(c, e.target, e.transcript, e.outcome, e.now);
      }
    }
  }

  /** The audit trail of every call, whatever was reported and whenever. */
  lemma {:induction false} HistoryHolds(transcript: string, outcome: Option<string>, events: seq<CallEvent>)
    ensures Audited(Run(NewRow(transcript, outcome), events))
  {
    hide After;
    if events != [] {
      HistoryHolds(transcript, outcome, events[..|events| - 1]);
      EventChanges(Run(NewRow(transcript, outcome), events[..|events| - 1]), events[|events| - 1]);
    }
  }

  /** Nothing is dated after the clock, and no call ends before it starts. */
  predicate Timely(c: CallRow, clock: int) {
    && (c.startedAt.Some? ==> c.startedAt.value <= clock)
    && (c.startedAt.Some? && c.endedAt.Some? ==> c.startedAt.value <= c.endedAt.value)
  }

  lemma EventIsTimely(c: CallRow, e: CallEvent, clock: int)
    requires Audited(c) && Timely(c, clock) && (e.Reported? ==> clock <= e.now)
    ensures Timely(After(c, e), if e.Reported? then e.now else clock)
  {
    hide Route, Clip, BuildSummary, IsRoute, Chained, Visited;
    if e.Reported? {
      RouteShape(c.status, e.target);
      RouteExists(c.status, e.target);
    }
  }

  ghost predicate Monotone(events: seq<CallEvent>) {
    forall i, j :: 0 <= i < j < |events| && events[i].Reported? && events[j].Reported? ==>
      events[i].now <= events[j].now
  }

  ghost function Clock(events: seq<CallEvent>, start: int): int {
    if events == [] then start
    else if events[|events| - 1].Reported? then events[|events| - 1].now
    else Clock(events[..|events| - 1], start)
  }

  lemma {:induction false} ClockIsLatest(events: seq<CallEvent>, start: int, now: int)
    requires Monotone(events) && start <= now
    requires forall e <- events :: e.Reported? ==> start <= e.now <= now
    ensures start <= Clock(events, start) <= now
  {
    if events != [] {
      var before := events[..|events| - 1];
      assert events[|events| - 1] in events && forall e <- before :: e in events;
      ClockIsLatest(before, start, now);
    }
  }

  /** As long as the clock does not go back, no call ends before it starts. */
  lemma {:induction false} TimesAreOrdered(
      transcript: string, outcome: Option<string>, events: seq<CallEvent>, start: int)
    requires Monotone(events) && forall e <- events :: e.Reported? ==> start <= e.now
    ensures Timely(Run(NewRow(transcript, outcome), events), Clock(events, start))
  {
    hide After, Audited;
    if events != [] {
      var before, e := events[..|events| - 1], events[|events| - 1];
      assert e in events && forall d <- before :: d in events;
      TimesAreOrdered(transcript, outcome, before, start);
      HistoryHolds(transcript, outcome, before);
      if e.Reported? {
        forall d | d in before && d.Reported? ensures d.now <= e.now {
          var i :| 0 <= i < |before| && before[i] == d;
          assert events[i] == d;
        }
        ClockIsLatest(before, start, e.now);
      }
      EventIsTimely(Run(NewRow(transcript, outcome), before), e, Clock(before, start));
    }
  }

  /**
   * Once a call has ended its text is frozen, so any later events with a summary job among them leave the same
   * summary.
   */
  lemma {:induction false} SummariesRepeat(c: CallRow, events: seq<CallEvent>)
    requires IsTerminal(c.status)
    ensures Run(c, events) == if SummaryJob in events then Summarised(c) else c
  {
    hide Route, Clip, BuildSummary;
    if events != [] {
      var before, e := events[..|events| - 1], events[|events| - 1];
      assert events == before + [e];
      SummariesRepeat(c, before);
      RouteShape(c.status, c.status);
      if e.Reported? { RouteExists(c.status, e.target); }
    }
  }

  // ---- the carrier webhook ----

  /** What the webhook answers. */
  datatype Answer = NotConfigured | Ignored | Accepted(status: CallStatus)

  /** The call rows by carrier call id, and the call ids queued for summary. */
  datatype Board = Board(rows: map<string, CallRow>, queued: seq<string>)

  /** A report on a call that is there: applied, or acknowledged and ignored. */
  function Recorded(b: Board, id: string, status: CallStatus, now: int): (Board, Answer)
    requires id in b.rows
  {
    match Advanced(b.rows[id], status, None, None, now)
    case None => (b, Ignored)
    case Some(next) =>
      (Board(b.rows[id := next], if IsTerminal(next.status) then b.queued + [id] else b.queued), Accepted(next.status))
  }

  function Handled(b: Board, id: string, status: CallStatus, configured: bool, now: int): (Board, Answer) {
    if id in b.rows then Recorded(b, id, status, now)
    else if !configured then (b, NotConfigured)
    else Recorded(b.(rows := b.rows[id := NewRow("", None)]), id, status, now)
  }

  /** What the simulation endpoint answers. */
  datatype Simulation = NoAgent | Replayed | Simulated

  /** A call that goes through two reports at once. */
  function Finished(transcript: string, outcome: Option<string>, start: int, end: int): Option<CallRow> {
    match Advanced(NewRow(transcript, outcome), Active, None, None, start)
    case None => None
    case Some(active) => Advanced(active, Completed, Some(transcript), outcome, end)
  }

  /** A simulated call under its idempotency key: made once, and then only replayed. */
  function Simulate(
      b: Board, key: string, agentKnown: bool, transcript: string, outcome: Option<string>, start: int, end: int)
    : (Board, Simulation)
  {
    if key in b.rows then (b, Replayed)
    else if !agentKnown then (b, NoAgent)
    else
      var row := Finished(transcript, outcome, start, end);
      if row.None? then (b, NoAgent) else (Board(b.rows[key := row.value], b.queued + [key]), Simulated)
  }

  /** The job of the summary worker: true if the call is there. */
  function Summary(b: Board, id: string): (Board, bool) {
    if id in b.rows then (b.(rows := b.rows[id := Summarised(b.rows[id])]), true) else (b, false)
  }

  /** A new call after its two reports. */
  method FinishedCall(transcript: string, outcome: Option<string>, start: int, end: int) returns (call: Call)
    ensures fresh(call) && Some(call.Row()) == Finished(transcript, outcome, start, end)
  {
    hide Advanced, NewRow;
    FinishedIsApplied(transcript, outcome, start, end);
    call := new Call(transcript, outcome);
    var active := call.AdvanceCall(Active, None, None, start);
    var completed := call.AdvanceCall(Completed, Some(transcript), outcome, end);
  }

  class Switchboard {
    var calls: map<string, Call>
    var queued: seq<string>

    /** No call object stands behind two ids. */
    ghost predicate Valid()
      reads this
    {
      forall a, b :: a in calls && b in calls && a != b ==> calls[a] != calls[b]
    }

    ghost function Rows(): map<string, CallRow>
      reads this, calls.Values
    {
      map id | id in calls :: calls[id].Row()
    }

    ghost function View(): Board
      reads this, calls.Values
    {
      Board(Rows(), queued)
    }

    constructor ()
      ensures Valid() && View() == Board(map[], [])
    {
      calls, queued := map[], [];
    }

    method FindOrCreate(id: string)
      requires Valid()
      modifies this`calls
      ensures Valid() && id in calls
      ensures forall c <- calls.Values :: c in old(calls).Values || fresh(c)
      ensures Rows() == if id in old(Rows()) then old(Rows()) else old(Rows())[id := NewRow("", None)]
    {
      if id !in calls {
        var created := new Call("", None);
        calls := calls[id := created];
      }
    }

    method Report(id: string, status: CallStatus, now: int) returns (applied: bool)
      requires Valid() && id in calls
      modifies calls[id]
      ensures applied <==> Advanced(old(Rows())[id], status, None, None, now).Some?
      ensures Rows() == if applied then old(Rows())[id := Advanced(old(Rows())[id], status, None, None, now).value]
                        else old(Rows())
    {
      hide Advanced;
      var call := calls[id];
      assert call in calls.Values && call.Row() == Rows()[id];
      applied := call.AdvanceCall(status, None, None, now);
      assert Rows() == old(Rows())[id := call.Row()];
    }

    method Record(id: string, status: CallStatus, now: int) returns (answer: Answer)
      requires Valid() && id in calls
      modifies this`queued, calls[id]
      ensures (View(), answer) == Recorded(old(View()), id, status, now)
    {
      hide Advanced, IsTerminal;
      assert calls[id] in calls.Values;
      var applied := Report(id, status, now);
      if !applied {
        return Ignored;
      }
      ghost var after := Rows();
      assert calls[id].Row() == after[id];
      var reached := calls[id].status;
      if IsTerminal(reached) {
        queued := queued + [id];
      }
      assert Rows() == after;
      return Accepted(reached);
    }

    /** A new call with its two reports and its queued summary, or the replay of an earlier one. */
    method SimulateCall(
        key: string, agentKnown: bool, transcript: string, outcome: Option<string>, start: int, end: int)
      returns (answer: Simulation)
      requires Valid()
      modifies this
      ensures Valid() && forall c <- calls.Values :: c in old(calls).Values || fresh(c)
      ensures (View(), answer) == Simulate(old(View()), key, agentKnown, transcript, outcome, start, end)
    {
      hide Finished;
      if key in calls {
        return Replayed;
      }
      if !agentKnown {
        return NoAgent;
      }
      ghost var before := Rows();
      var call := FinishedCall(transcript, outcome, start, end);
      calls := calls[key := call];
      assert Rows() == before[key := call.Row()];
      queued := queued + [key];
      assert Rows() == before[key := call.Row()];
      return Simulated;
    }

    method SummarizeCall(id: string) returns (found: bool)
      requires Valid()
      modifies calls.Values
      ensures Valid() && (View(), found) == Summary(old(View()), id)
    {
      if id !in calls {
        return false;
      }
      assert calls[id] in calls.Values;
      calls[id].Summarise();
      assert Rows() == old(Rows())[id := Summarised(old(Rows())[id])];
      return true;
    }

    /** Finds or creates the call, applies the reported status, and queues the summary of a finished call. */
    method TwilioEvent(id: string, status: CallStatus, configured: bool, now: int) returns (answer: Answer)
      requires Valid()
      modifies this, calls.Values
      ensures Valid() && forall c <- calls.Values :: c in old(calls).Values || fresh(c)
      ensures (View(), answer) == Handled(old(View()), id, status, configured, now)
    {
      hide Recorded, NewRow;
      if id !in calls && !configured {
        return NotConfigured;
      }
      FindOrCreate(id);
      assert calls[id] in calls.Values;
      answer := Record(id, status, now);
    }
  }

  /** Both reports of a simulated call are applied. */
  lemma FinishedIsApplied(transcript: string, outcome: Option<string>, start: int, end: int)
    ensures Advanced(NewRow(transcript, outcome), Active, None, None, start).Some?
    ensures Finished(transcript, outcome, start, end).Some?
  {
    hide Clip;
  }

  /** Once simulated, a key is only replayed: whatever the later request says, nothing changes and nothing is queued. */
  lemma SimulationIsMadeOnce(
      b: Board, key: string, transcript: string, outcome: Option<string>, start: int, end: int,
      agentKnown: bool, otherTranscript: string, otherOutcome: Option<string>, otherStart: int, otherEnd: int)
    requires QueueNamesEnded(b) && key !in b.rows
    ensures var (after, answer) := Simulate(b, key, true, transcript, outcome, start, end);
            && answer == Simulated && QueueNamesEnded(after)
            && after.queued == b.queued + [key] && after.rows[key].status == Completed
            && Simulate(after, key, agentKnown, otherTranscript, otherOutcome, otherStart, otherEnd)
               == (after, Replayed)
  {
    hide Advanced;
    FinishedIsApplied(transcript, outcome, start, end);
    FinishedIsCompleted(transcript, outcome, start, end);
    var after := Simulate(b, key, true, transcript, outcome, start, end).0;
    assert forall id <- b.queued :: id in after.queued;
    assert after.queued[|b.queued|] == key;
  }

  lemma FinishedIsCompleted(transcript: string, outcome: Option<string>, start: int, end: int)
    requires Finished(transcript, outcome, start, end).Some?
    ensures Finished(transcript, outcome, start, end).value.status == Completed
  {
    hide Clip;
  }

  datatype CarrierEvent = CarrierEvent(id: string, status: CallStatus, configured: bool, now: int)

  function HandleAll(events: seq<CarrierEvent>): Board {
    if events == [] then Board(map[], [])
    else
      var e := events[|events| - 1];
      Handled(HandleAll(events[..|events| - 1]), e.id, e.status, e.configured, e.now).0
  }

  /** The reports that concern one call: everything with its id from the first configured event on. */
  function Concerning(events: seq<CarrierEvent>, id: string): seq<CallEvent> {
    if events == [] then []
    else
      var before, e := Concerning(events[..|events| - 1], id), events[|events| - 1];
      if e.id == id && (before != [] || e.configured) then before + [Reported(e.status, None, None, e.now)] else before
  }

  /** Interleaved calls do not disturb each other: each row is what its own events alone would have made of it. */
  lemma {:induction false} CallsAreIndependent(events: seq<CarrierEvent>, id: string)
    ensures var rows := HandleAll(events).rows;
            && (id in rows <==> Concerning(events, id) != [])
            && (id in rows ==> rows[id] == Run(NewRow("", None), Concerning(events, id)))
  {
    hide Advanced;
    if events != [] {
      var before, e := events[..|events| - 1], events[|events| - 1];
      CallsAreIndependent(before, id);
      if e.id == id && Concerning(events, id) != Concerning(before, id) {
        assert Concerning(events, id)[..|Concerning(events, id)| - 1] == Concerning(before, id);
      }
    }
  }

  /** The queue names exactly the calls that have ended. */
  ghost predicate QueueNamesEnded(b: Board) {
    && (forall id <- b.queued :: id in b.rows && IsTerminal(b.rows[id].status))
    && (forall id <- b.rows :: IsTerminal(b.rows[id].status) ==> id in b.queued)
  }

  lemma EndedStaysEnded(row: CallRow, status: CallStatus, now: int)
    ensures var next := Advanced(row, status, None, None, now);
            IsTerminal(row.status) ==> next.None? || next == Some(row)
  {
    RouteExists(row.status, status);
    RouteShape(row.status, status);
  }

  lemma RecordedKeepsQueue(b: Board, id: string, status: CallStatus, now: int)
    requires QueueNamesEnded(b) && id in b.rows
    ensures QueueNamesEnded(Recorded(b, id, status, now).0)
  {
    hide Advanced, IsTerminal;
    EndedStaysEnded(b.rows[id], status, now);
    var after := Recorded(b, id, status, now).0;
    assert forall other <- b.rows :: other != id ==> after.rows[other] == b.rows[other];
    assert forall other <- b.queued :: other in after.queued;
  }

  lemma HandledKeepsQueue(b: Board, id: string, status: CallStatus, configured: bool, now: int)
    requires QueueNamesEnded(b)
    ensures QueueNamesEnded(Handled(b, id, status, configured, now).0)
  {
    hide Recorded;
    if id in b.rows {
      RecordedKeepsQueue(b, id, status, now);
    } else if configured {
      var created := b.(rows := b.rows[id := NewRow("", None)]);
      assert QueueNamesEnded(created);
      RecordedKeepsQueue(created, id, status, now);
    }
  }

  /** Over every run of events a summary is queued for exactly the calls that have reached a terminal state. */
  lemma {:induction false} QueuedCallsHaveEnded(events: seq<CarrierEvent>)
    ensures QueueNamesEnded(HandleAll(events))
  {
    if events != [] {
      var e := events[|events| - 1];
      QueuedCallsHaveEnded(events[..|events| - 1]);
      HandledKeepsQueue(HandleAll(events[..|events| - 1]), e.id, e.status, e.configured, e.now);
    }
  }

  /** The simulated call: two applied reports, and two audit rows for the four states it goes through. */
  lemma SimulatedCall(transcript: string, outcome: Option<string>, start: int, end: int)
    requires |transcript| <= 20_000 && (outcome.Some? ==> |outcome.value| <= 80)
    ensures var active := Advanced(NewRow(transcript, outcome), Active, None, None, start);
            && active.Some?
            && var done := Advanced(active.value, Completed, Some(transcript), outcome, end);
               done == Some(CallRow(
                 Completed, Some(start), Some(end), transcript, outcome, None,
                 [AuditEvent(Active, Queued, [Ringing]), AuditEvent(Completed, Active, [])]))
  {
    assert Route(Ringing, Active) == Some([Active]) && [Ringing] + [Active] == [Ringing, Active];
    assert Route(Queued, Active) == Some([Ringing, Active]);
    assert [Ringing, Active][..1] == [Ringing] && [Completed][..0] == [];
    var first, second := AuditEvent(Active, Queued, [Ringing]), AuditEvent(Completed, Active, []);
    assert [] + [first] == [first] && [first] + [second] == [first, second];
  }
}
