/** The sliding-window limiter, against one that keeps every admission for ever. */
module RateLimit {

  const SWEEP_INTERVAL_SECONDS := 60.0

  // ---- the swept store ----

  datatype Store = Store(events: map<string, seq<real>>, widestWindow: int, lastSweep: real)

  function EventsOf(s: Store, key: string): seq<real> { if key in s.events then s.events[key] else [] }

  /** A key with nothing young enough for the widest window ever asked for. */
  predicate IsStale(events: seq<real>, now: real, widest: int) {
    events == [] || now - events[|events| - 1] >= widest as real
  }

  function Swept(s: Store, now: real): Store {
    if now - s.lastSweep < SWEEP_INTERVAL_SECONDS then s
    else Store(
      map key | key in s.events && !IsStale(s.events[key], now, s.widestWindow) :: s.events[key],
      s.widestWindow, now)
  }

  function Drained(events: seq<real>, now: real, window: int): (r: seq<real>)
    ensures |r| <= |events|
  {
    if events == [] || now - events[0] < window as real then events else Drained(events[1..], now, window)
  }

  datatype Request = Request(key: string, limit: int, window: int, now: real)

  function Widened(s: Store, window: int): Store {
    s.(widestWindow := if s.widestWindow < window then window else s.widestWindow)
  }

  /** The store after a check, and whether the check let the request through. */
  function Checked(s: Store, r: Request): (Store, bool) {
    var swept := Swept(Widened(s, r.window), r.now);
    var events := Drained(EventsOf(swept, r.key), r.now, r.window);
    if |events| >= r.limit then (swept.(events := swept.events[r.key := events]), false)
    else (swept.(events := swept.events[r.key := events + [r.now]]), true)
  }

  class SlidingWindowLimiter {
    var events: map<string, seq<real>>
    var widestWindow: int
    var lastSweep: real

    ghost function View(): Store
      reads this
    {
      Store(events, widestWindow, lastSweep)
    }

    constructor (now: real)
      ensures View() == Store(map[], 0, now)
    {
      events, widestWindow, lastSweep := map[], 0, now;
    }

    method SweepLocked(now: real)
      modifies this
      ensures View() == Swept(old(View()), now)
    {
      if now - lastSweep < SWEEP_INTERVAL_SECONDS {
        return;
      }
      lastSweep := now;
      var stale := set key | key in events && IsStale(events[key], now, widestWindow);
      while stale != {}
        invariant widestWindow == old(widestWindow) && lastSweep == now
        invariant events.Keys <= old(events).Keys && forall key <- events :: events[key] == old(events)[key]
        invariant forall key <- old(events) ::
            if key in events then key in stale <==> IsStale(events[key], now, widestWindow)
            else key !in stale && IsStale(old(events)[key], now, widestWindow)
      {
        var key :| key in stale;
        events := events - {key};
        stale := stale - {key};
      }
    }

    /** False stands for the 429 answer. */
    method Check(key: string, limit: int, window: int, now: real) returns (admitted: bool)
      modifies this
      ensures (View(), admitted) == Checked(old(View()), Request(key, limit, window, now))
    {
      hide Swept;
      widestWindow := if widestWindow < window then window else widestWindow;
      assert View() == Widened(old(View()), window);
      SweepLocked(now);
      ghost var swept := View();
      var queue := if key in events then events[key] else [];
      while queue != [] && now - queue[0] >= window as real
        invariant Drained(queue, now, window) == Drained(EventsOf(swept, key), now, window)
      {
        queue := queue[1..];
      }
      assert Drained(queue, now, window) == queue;
      events := events[key := queue];
      if |queue| >= limit {
        return false;
      }
      assert events[key := queue + [now]] == swept.events[key := queue + [now]];
      events := events[key := queue + [now]];
      return true;
    }
  }

  // ---- what a check does ----

  /** At least a minute after the last sweep, exactly the keys whose youngest time is too old for any window go. */
  lemma WhatASweepDoes(s: Store, now: real)
    ensures var after := Swept(s, now);
            if now < s.lastSweep + 60.0 then after == s
            else
              && after.lastSweep == now && after.widestWindow == s.widestWindow
              && forall key ::
                   (key in after.events <==>
                      key in s.events && s.events[key] != []
                      && now < s.events[key][|s.events[key]| - 1] + s.widestWindow as real)
                   && (key in after.events ==> after.events[key] == s.events[key])
  {
  }

  /** The times up to the first one inside the window are gone. */
  predicate IsDrained(events: seq<real>, now: real, window: int, kept: seq<real>) {
    && |kept| <= |events| && kept == events[|events| - |kept|..]
    && (forall i :: 0 <= i < |events| - |kept| ==> events[i] + window as real <= now)
    && (kept != [] ==> now < kept[0] + window as real)
  }

  lemma {:induction false} DrainedIsDrained(events: seq<real>, now: real, window: int)
    ensures IsDrained(events, now, window, Drained(events, now, window))
  {
    if events != [] && events[0] + window as real <= now {
      DrainedIsDrained(events[1..], now, window);
      var kept := Drained(events[1..], now, window);
      assert events[1..][|events| - 1 - |kept|..] == events[|events| - |kept|..];
      forall i | 0 <= i < |events| - |kept| ensures events[i] + window as real <= now {
        if i > 0 { assert events[1..][i - 1] == events[i]; }
      }
    }
  }

  /**
   * A check widens the widest window, sweeps, drains its key, and lets the request through exactly if fewer than
   * `limit` times are left; then its time is added. No other key is touched but by the sweep.
   */
  lemma WhatACheckDoes(s: Store, r: Request)
    ensures var (after, admitted) := Checked(s, r);
            var widest := if r.window > s.widestWindow then r.window else s.widestWindow;
            var swept := Swept(Store(s.events, widest, s.lastSweep), r.now);
            && after.widestWindow == widest && after.lastSweep == swept.lastSweep
            && after.events.Keys == swept.events.Keys + {r.key}
            && (forall key <- swept.events :: key != r.key ==> after.events[key] == swept.events[key])
            && exists kept ::
                 && IsDrained(if r.key in swept.events then swept.events[r.key] else [], r.now, r.window, kept)
                 && (admitted <==> |kept| < r.limit)
                 && after.events[r.key] == if admitted then kept + [r.now] else kept
  {
    hide Swept, Drained, IsDrained;
    var swept := Swept(Widened(s, r.window), r.now);
    DrainedIsDrained(EventsOf(swept, r.key), r.now, r.window);
    SweepKeepsWidest(Widened(s, r.window), r.now);
  }

  lemma SweepKeepsWidest(s: Store, now: real)
    ensures Swept(s, now).widestWindow == s.widestWindow
  {
  }

  // ---- counting ----

  function Count(times: seq<real>, p: real -> bool): nat {
    if times == [] then 0
    else Count(times[..|times| - 1], p) + if p(times[|times| - 1]) then 1 else 0
  }

  lemma {:induction false} CountConcat(a: seq<real>, b: seq<real>, p: real -> bool)
    ensures Count(a + b, p) == Count(a, p) + Count(b, p)
  {
    if b == [] {
      assert a + b == a;
    } else {
      assert (a + b)[..|a + b| - 1] == a + b[..|b| - 1];
      CountConcat(a, b[..|b| - 1], p);
    }
  }

  lemma {:induction false} CountBounds(times: seq<real>, p: real -> bool)
    ensures Count(times, p) <= |times|
    ensures (forall i :: 0 <= i < |times| ==> p(times[i])) ==> Count(times, p) == |times|
    ensures (forall i :: 0 <= i < |times| ==> !p(times[i])) ==> Count(times, p) == 0
  {
    if times != [] { CountBounds(times[..|times| - 1], p); }
  }

  lemma {:induction false} CountMonotone(times: seq<real>, p: real -> bool, q: real -> bool)
    requires forall i :: 0 <= i < |times| && p(times[i]) ==> q(times[i])
    ensures Count(times, p) <= Count(times, q)
  {
    if times != [] { CountMonotone(times[..|times| - 1], p, q); }
  }

  function Young(now: real, window: int): real -> bool { t => now - t < window as real }

  function Within(from: real, window: int): real -> bool { t => from <= t < from + window as real }

  /** How many of the times are less than a window old. */
  function Recent(times: seq<real>, now: real, window: int): nat { Count(times, Young(now, window)) }

  /** How many of the times fall in the half-open interval that starts at `from`. */
  function InInterval(times: seq<real>, from: real, window: int): nat { Count(times, Within(from, window)) }

  // ---- the limiter that never forgets ----

  /** The admission times of one key, given the requests and what was decided. */
  function Admissions(requests: seq<Request>, decisions: seq<bool>, key: string): seq<real>
    requires |decisions| == |requests|
  {
    if requests == [] then []
    else
      var n := |requests| - 1;
      Admissions(requests[..n], decisions[..n], key)
      + if requests[n].key == key && decisions[n] then [requests[n].now] else []
  }

  /** Decides each request from the full record of admissions. */
  function Decisions(requests: seq<Request>): (d: seq<bool>)
    ensures |d| == |requests|
  {
    if requests == [] then []
    else
      var n := |requests| - 1;
      var before, r := Decisions(requests[..n]), requests[n];
      before + [Recent(Admissions(requests[..n], before, r.key), r.now, r.window) < r.limit]
  }

  function SweptRun(start: Store, requests: seq<Request>): (result: (Store, seq<bool>))
    ensures |result.1| == |requests|
  {
    if requests == [] then (start, [])
    else
      var n := |requests| - 1;
      var (store, before) := SweptRun(start, requests[..n]);
      var (after, admitted) := Checked(store, requests[n]);
      (after, before + [admitted])
  }

  ghost predicate MonotoneClock(requests: seq<Request>) {
    forall i, j :: 0 <= i < j < |requests| ==> requests[i].now <= requests[j].now
  }

  // ---- schedules ----

  /** The part of a request that its caller fixes in the code: the key and its window. */
  datatype Slot = Slot(key: string, window: int)

  /** The requests follow the schedule; their limits and times are free. */
  predicate Plays(requests: seq<Request>, schedule: seq<Slot>) {
    && |requests| == |schedule|
    && forall i :: 0 <= i < |requests| ==>
         requests[i].key == schedule[i].key && requests[i].window == schedule[i].window
  }

  /** The widest window the store has been asked for. */
  function Widest(first: int, schedule: seq<Slot>): (w: int)
    ensures first <= w && forall i :: 0 <= i < |schedule| ==> schedule[i].window <= w
  {
    if schedule == [] then first
    else
      var before, last := Widest(first, schedule[..|schedule| - 1]), schedule[|schedule| - 1].window;
      if before < last then last else before
  }

  /**
   * What is admitted at `m` may be forgotten at `i` and missed at `j`: by a narrower check of the same key, or by a
   * sweep at a time when no window as wide as the one at `j` has been asked for.
   */
  predicate Forgets(first: int, schedule: seq<Slot>, m: nat, i: nat, j: nat)
    requires m < i < j < |schedule|
  {
    && schedule[m].key == schedule[j].key && 0 < schedule[j].window
    && ((schedule[i].key == schedule[j].key && schedule[i].window < schedule[j].window)
        || Widest(first, schedule[..i + 1]) < schedule[j].window)
  }

  // ---- what a key keeps ----

  ghost predicate SortedUntil(times: seq<real>, clock: real) {
    && (forall i, j :: 0 <= i < j < |times| ==> times[i] <= times[j])
    && (forall i :: 0 <= i < |times| ==> times[i] <= clock)
  }

  /** What the store keeps of a key is the end of its full record; everything it dropped is out of the window. */
  ghost predicate Keeps(kept: seq<real>, all: seq<real>, window: int, clock: real) {
    && |kept| <= |all| && kept == all[|all| - |kept|..]
    && forall i :: 0 <= i < |all| - |kept| ==> clock - all[i] >= window as real
  }

  lemma DrainedIsRecent(times: seq<real>, now: real, window: int)
    requires SortedUntil(times, now)
    ensures Recent(times, now, window) == |Drained(times, now, window)|
  {
    hide Drained;
    var d := Drained(times, now, window);
    var gone := times[..|times| - |d|];
    DrainedSplits(times, now, window);
    CountSplits(gone, d, times, now, window);
  }

  /** Old times count nothing, young ones all count. */
  lemma CountSplits(gone: seq<real>, d: seq<real>, all: seq<real>, now: real, window: int)
    requires all == gone + d
    requires forall i :: 0 <= i < |gone| ==> now - all[i] >= window as real
    requires forall i :: |gone| <= i < |all| ==> now - all[i] < window as real
    ensures Recent(all, now, window) == |d|
  {
    hide Count;
    var p := Young(now, window);
    CountConcat(gone, d, p);
    assert forall i :: 0 <= i < |gone| ==> gone[i] == all[i];
    assert forall i :: 0 <= i < |d| ==> d[i] == all[|gone| + i];
    CountBounds(gone, p);
    CountBounds(d, p);
  }

  lemma {:induction false} DrainedSplits(times: seq<real>, now: real, window: int)
    requires SortedUntil(times, now)
    ensures var n := |times| - |Drained(times, now, window)|;
            && Drained(times, now, window) == times[n..]
            && (forall i :: n <= i < |times| ==> now - times[i] < window as real)
            && (forall i :: 0 <= i < n ==> now - times[i] >= window as real)
  {
    if times != [] && now - times[0] >= window as real {
      DrainedSplits(times[1..], now, window);
      assert forall i :: 1 <= i < |times| ==> times[i] == times[1..][i - 1];
    }
  }

  /** After draining, what is left of a key is exactly what counts. */
  lemma DrainedCounts(kept: seq<real>, all: seq<real>, now: real, window: int)
    requires SortedUntil(all, now) && Keeps(kept, all, window, now)
    ensures var d := Drained(kept, now, window);
            |d| == Recent(all, now, window) && Keeps(d, all, window, now)
  {
    hide Drained;
    var d := Drained(kept, now, window);
    var skipped, gone := |all| - |kept|, |kept| - |d|;
    KeptIsSorted(kept, all, now);
    DrainedSplits(kept, now, window);
    assert d == all[skipped + gone..];
    forall i | 0 <= i < |all|
      ensures if i < skipped + gone then now - all[i] >= window as real else now - all[i] < window as real
    {
      if skipped <= i { assert all[i] == kept[i - skipped]; }
    }
    CountSplits(all[..skipped + gone], d, all, now, window);
  }

  lemma KeptIsSorted(kept: seq<real>, all: seq<real>, now: real)
    requires SortedUntil(all, now) && |kept| <= |all| && kept == all[|all| - |kept|..]
    ensures SortedUntil(kept, now)
  {
  }

  /** Sweeping only forgets what is out of every window asked for so far. */
  lemma SweepKeeps(s: Store, now: real, key: string, all: seq<real>, window: int)
    requires Keeps(EventsOf(s, key), all, window, now) && SortedUntil(all, now)
    requires all != [] && 0 < window ==> window <= s.widestWindow
    ensures Keeps(EventsOf(Swept(s, now), key), all, window, now)
  {
    var kept := EventsOf(s, key);
    if EventsOf(Swept(s, now), key) != kept {
      assert IsStale(kept, now, s.widestWindow);
      assert kept != [] ==> all[|all| - 1] == kept[|kept| - 1];
    }
  }

  /** Draining for a window that is no narrower only forgets what is out of this one. */
  lemma DrainKeeps(kept: seq<real>, all: seq<real>, now: real, window: int, drain: int)
    requires Keeps(kept, all, window, now) && SortedUntil(all, now)
    requires all != [] && 0 < window ==> window <= drain
    ensures Keeps(Drained(kept, now, drain), all, window, now)
  {
    hide Drained;
    var d := Drained(kept, now, drain);
    var skipped, gone := |all| - |kept|, |kept| - |d|;
    KeptIsSorted(kept, all, now);
    DrainedSplits(kept, now, drain);
    assert d == all[skipped + gone..];
    forall i | 0 <= i < skipped + gone ensures now - all[i] >= window as real {
      if skipped <= i { assert all[i] == kept[i - skipped]; }
    }
  }

  lemma AppendKeeps(kept: seq<real>, all: seq<real>, window: int, now: real)
    requires Keeps(kept, all, window, now) && SortedUntil(all, now)
    ensures Keeps(kept + [now], all + [now], window, now) && SortedUntil(all + [now], now)
  {
    assert (all + [now])[|all| - |kept|..] == all[|all| - |kept|..] + [now];
  }

  /** What a check does to one key. */
  lemma CheckedEvents(s: Store, r: Request, key: string)
    ensures var (after, admitted) := Checked(s, r);
            var kept := EventsOf(Swept(Widened(s, r.window), r.now), key);
            var d := Drained(kept, r.now, r.window);
            && after.widestWindow >= s.widestWindow && after.widestWindow >= r.window
            && (key != r.key ==> EventsOf(after, key) == kept)
            && (key == r.key ==> (admitted <==> |d| < r.limit))
            && (key == r.key ==> EventsOf(after, key) == if admitted then d + [r.now] else d)
  {
    hide Drained, Swept;
    SweptWidth(Widened(s, r.window), r.now);
  }

  lemma SweptWidth(s: Store, now: real)
    ensures Swept(s, now).widestWindow == s.widestWindow
  {
  }

  lemma LaterKeeps(kept: seq<real>, all: seq<real>, window: int, clock: real, now: real)
    requires Keeps(kept, all, window, clock) && clock <= now
    ensures Keeps(kept, all, window, now) && (SortedUntil(all, clock) ==> SortedUntil(all, now))
  {
  }

  /** The record of a key with respect to one window, through one check of any key. */
  lemma CheckKeeps(s: Store, r: Request, key: string, all: seq<real>, window: int, clock: real)
    requires Keeps(EventsOf(s, key), all, window, clock) && SortedUntil(all, clock) && clock <= r.now
    requires all != [] && 0 < window ==>
               window <= Widened(s, r.window).widestWindow && (key == r.key ==> window <= r.window)
    ensures var (after, admitted) := Checked(s, r);
            var grown := if key == r.key && admitted then all + [r.now] else all;
            Keeps(EventsOf(after, key), grown, window, r.now) && SortedUntil(grown, r.now)
  {
    hide Keeps, Drained, Swept, Checked, SortedUntil;
    var kept := EventsOf(Swept(Widened(s, r.window), r.now), key);
    LaterKeeps(EventsOf(s, key), all, window, clock, r.now);
    SweepKeeps(Widened(s, r.window), r.now, key, all, window);
    CheckedEvents(s, r, key);
    if key == r.key {
      DrainKeeps(kept, all, r.now, window, r.window);
      AppendKeeps(Drained(kept, r.now, r.window), all, window, r.now);
    }
  }

  /** A check that has everything of its own window decides as if it had everything. */
  lemma CheckDecides(s: Store, r: Request, all: seq<real>, clock: real)
    requires Keeps(EventsOf(s, r.key), all, r.window, clock) && SortedUntil(all, clock) && clock <= r.now
    ensures Checked(s, r).1 <==> Recent(all, r.now, r.window) < r.limit
  {
    hide Keeps, Drained, Swept, Recent, Checked, SortedUntil;
    LaterKeeps(EventsOf(s, r.key), all, r.window, clock, r.now);
    SweepKeeps(Widened(s, r.window), r.now, r.key, all, r.window);
    CheckedEvents(s, r, r.key);
    DrainedCounts(EventsOf(Swept(Widened(s, r.window), r.now), r.key), all, r.now, r.window);
  }

  // ---- runs ----

  lemma RunsGrow(start: Store, before: seq<Request>, r: Request)
    ensures SweptRun(start, []).0 == start
    ensures var (store, decided) := SweptRun(start, before);
            var (after, admitted) := Checked(store, r);
            SweptRun(start, before + [r]) == (after, decided + [admitted])
    ensures Decisions(before + [r])
         == Decisions(before) + [Recent(Admissions(before, Decisions(before), r.key), r.now, r.window) < r.limit]
  {
    hide Checked, Recent, Admissions;
    assert (before + [r])[..|before|] == before;
  }

  lemma AdmissionsGrow(before: seq<Request>, decisions: seq<bool>, r: Request, admitted: bool, key: string)
    requires |decisions| == |before|
    ensures Admissions(before + [r], decisions + [admitted], key)
         == if r.key == key && admitted then Admissions(before, decisions, key) + [r.now]
            else Admissions(before, decisions, key)
  {
    assert (before + [r])[..|before|] == before && (decisions + [admitted])[..|before|] == decisions;
    assert Admissions(before, decisions, key) + [] == Admissions(before, decisions, key);
  }

  /** The run over one more request. */
  lemma PrefixGrows(start: Store, requests: seq<Request>, n: nat)
    requires n < |requests|
    ensures var (store, decided) := SweptRun(start, requests[..n]);
            var (after, admitted) := Checked(store, requests[n]);
            && SweptRun(start, requests[..n + 1]) == (after, decided + [admitted])
            && forall key :: Admissions(requests[..n + 1], decided + [admitted], key)
                          == if requests[n].key == key && admitted
                             then Admissions(requests[..n], decided, key) + [requests[n].now]
                             else Admissions(requests[..n], decided, key)
  {
    hide Checked, SweptRun, Admissions;
    var (store, decided) := SweptRun(start, requests[..n]);
    assert requests[..n + 1] == requests[..n] + [requests[n]];
    RunsGrow(start, requests[..n], requests[n]);
    forall key {
      AdmissionsGrow(requests[..n], decided, requests[n], Checked(store, requests[n]).1, key);
    }
  }

  lemma {:induction false} WidestIsKept(start: Store, requests: seq<Request>, schedule: seq<Slot>, n: nat)
    requires Plays(requests, schedule) && n <= |requests|
    ensures SweptRun(start, requests[..n]).0.widestWindow == Widest(start.widestWindow, schedule[..n])
  {
    hide Checked, Admissions, SweptRun;
    RunsGrow(start, [], Request("", 0, 0, 0.0));
    if n == 0 {
      assert requests[..n] == [] && schedule[..n] == [];
    } else {
      WidestIsKept(start, requests, schedule, n - 1);
      PrefixGrows(start, requests, n - 1);
      assert schedule[..n][..n - 1] == schedule[..n - 1];
      CheckWidens(SweptRun(start, requests[..n - 1]).0, requests[n - 1]);
    }
  }

  lemma CheckWidens(s: Store, r: Request)
    ensures Checked(s, r).0.widestWindow == Widened(s, r.window).widestWindow
  {
    hide Drained;
    SweptWidth(Widened(s, r.window), r.now);
  }

  /** What is admitted at `m` and not out of the window outlives the request at `i`. */
  predicate Outlives(first: int, schedule: seq<Slot>, m: nat, i: nat, key: string, window: int)
    requires m < i < |schedule|
  {
    schedule[m].key == key && 0 < window ==>
      (schedule[i].key == key ==> window <= schedule[i].window) && window <= Widest(first, schedule[..i + 1])
  }

  /** No request before `n` forgets what a check of this key and window would count. */
  ghost predicate Safe(first: int, schedule: seq<Slot>, n: nat, key: string, window: int)
    requires n <= |schedule|
  {
    forall m, i :: 0 <= m < i < n ==> Outlives(first, schedule, m, i, key, window)
  }

  /** What the store still has of a key, against the full record of what it admitted. */
  ghost predicate IsRecorded(
      start: Store, requests: seq<Request>, n: nat, key: string, window: int, clock: real)
    requires n <= |requests|
  {
    var (store, decided) := SweptRun(start, requests[..n]);
    var all := Admissions(requests[..n], decided, key);
    Keeps(EventsOf(store, key), all, window, clock) && SortedUntil(all, clock)
  }

  function ClockAt(requests: seq<Request>, n: nat, otherwise: real): real
    requires n <= |requests|
  {
    if n == 0 then otherwise else requests[n - 1].now
  }

  lemma NothingIsRecorded(start: Store, requests: seq<Request>, key: string, window: int, clock: real)
    requires start.events == map[]
    ensures IsRecorded(start, requests, 0, key, window, clock)
  {
  }

  lemma {:induction false} AdmittedMeansRequested(requests: seq<Request>, decisions: seq<bool>, key: string)
    requires |decisions| == |requests| && Admissions(requests, decisions, key) != []
    ensures exists m :: 0 <= m < |requests| && requests[m].key == key
  {
    var n := |requests| - 1;
    if requests[n].key != key {
      assert Admissions(requests[..n], decisions[..n], key) + [] == Admissions(requests[..n], decisions[..n], key);
      AdmittedMeansRequested(requests[..n], decisions[..n], key);
      var m :| 0 <= m < n && requests[..n][m].key == key;
      assert requests[m].key == key;
    }
  }

  /** As long as nothing forgets, the store has all that a check of this key and window would count. */
  lemma {:induction false} SafeIsRecorded(
      start: Store, schedule: seq<Slot>, requests: seq<Request>, n: nat, key: string, window: int, clock: real)
    requires start.events == map[] && Plays(requests, schedule) && MonotoneClock(requests) && n <= |requests|
    requires Safe(start.widestWindow, schedule, n, key, window) && ClockAt(requests, n, clock) == clock
    ensures IsRecorded(start, requests, n, key, window, clock)
  {
    hide Checked, Admissions, SweptRun, Keeps, SortedUntil, Widest;
    if n == 0 {
      NothingIsRecorded(start, requests, key, window, clock);
    } else {
      var before := ClockAt(requests, n - 1, clock);
      var r := requests[n - 1];
      SafeIsRecorded(start, schedule, requests, n - 1, key, window, before);
      PrefixGrows(start, requests, n - 1);
      var (store, decided) := SweptRun(start, requests[..n - 1]);
      var all := Admissions(requests[..n - 1], decided, key);
      WidestGrows(start, requests, schedule, n - 1);
      if all != [] && 0 < window {
        AdmittedMeansRequested(requests[..n - 1], decided, key);
        var m :| 0 <= m < n - 1 && requests[..n - 1][m].key == key;
        assert schedule[m].key == key;
        assert Outlives(start.widestWindow, schedule, m, n - 1, key, window);
      }
      CheckKeeps(store, r, key, all, window, before);
    }
  }

  lemma WidestGrows(start: Store, requests: seq<Request>, schedule: seq<Slot>, n: nat)
    requires Plays(requests, schedule) && n < |requests|
    ensures Widened(SweptRun(start, requests[..n]).0, requests[n].window).widestWindow
         == Widest(start.widestWindow, schedule[..n + 1])
  {
    hide SweptRun, Checked;
    WidestIsKept(start, requests, schedule, n);
    assert schedule[..n + 1][..n] == schedule[..n];
  }

  /** A request before which nothing forgets is decided from the full record of what was admitted. */
  lemma SafeIsDecided(start: Store, schedule: seq<Slot>, requests: seq<Request>, n: nat)
    requires start.events == map[] && Plays(requests, schedule) && MonotoneClock(requests) && n < |requests|
    requires Safe(start.widestWindow, schedule, n, requests[n].key, requests[n].window)
    ensures var (store, decided) := SweptRun(start, requests[..n]);
            var r := requests[n];
            Checked(store, r).1 <==> Recent(Admissions(requests[..n], decided, r.key), r.now, r.window) < r.limit
  {
    hide Checked, Admissions, SweptRun, Keeps, SortedUntil, Recent, Safe;
    var r := requests[n];
    var clock := ClockAt(requests, n, r.now);
    SafeIsRecorded(start, schedule, requests, n, r.key, r.window, clock);
    var (store, decided) := SweptRun(start, requests[..n]);
    CheckDecides(store, r, Admissions(requests[..n], decided, r.key), clock);
  }

  /** The two limiters agree on a key up to `n`: on its decisions and on the record of them. */
  ghost predicate AgreesUpTo(start: Store, requests: seq<Request>, key: string, n: nat)
    requires n <= |requests|
  {
    var swept, full := SweptRun(start, requests[..n]).1, Decisions(requests[..n]);
    && Admissions(requests[..n], swept, key) == Admissions(requests[..n], full, key)
    && forall j :: 0 <= j < n && requests[j].key == key ==> swept[j] == full[j]
  }

  /** A check that nothing forgets for is safe. */
  lemma UnforgottenIsSafe(first: int, schedule: seq<Slot>, j: nat)
    requires j < |schedule|
    requires forall m, i {:trigger Forgets(first, schedule, m, i, j)} ::
               0 <= m < i < j ==> !Forgets(first, schedule, m, i, j)
    ensures Safe(first, schedule, j, schedule[j].key, schedule[j].window)
  {
    hide Widest;
    forall m, i | 0 <= m < i < j ensures Outlives(first, schedule, m, i, schedule[j].key, schedule[j].window) {
      assert !Forgets(first, schedule, m, i, j);
    }
  }

  /** If nothing forgets before a request of this key, the swept limiter decides the key as one that never forgets. */
  lemma {:induction false} SafeKeyAgrees(
      start: Store, schedule: seq<Slot>, requests: seq<Request>, key: string, n: nat)
    requires start.events == map[] && Plays(requests, schedule) && MonotoneClock(requests) && n <= |requests|
    requires forall m, i, j {:trigger Forgets(start.widestWindow, schedule, m, i, j)} ::
               0 <= m < i < j < n && schedule[j].key == key ==> !Forgets(start.widestWindow, schedule, m, i, j)
    ensures AgreesUpTo(start, requests, key, n)
  {
    hide Checked, Recent, Admissions, SweptRun, Decisions, MonotoneClock, Forgets, Safe;
    if n == 0 {
      EmptyAgrees(start, requests, key);
    } else {
      var before, r := requests[..n - 1], requests[n - 1];
      SafeKeyAgrees(start, schedule, requests, key, n - 1);
      assert requests[..n] == before + [r];
      RunsGrow(start, before, r);
      var (store, swept) := SweptRun(start, before);
      AdmissionsGrow(before, swept, r, Checked(store, r).1, key);
      AdmissionsGrow(before, Decisions(before), r,
                     Recent(Admissions(before, Decisions(before), r.key), r.now, r.window) < r.limit, key);
      if r.key == key {
        UnforgottenIsSafe(start.widestWindow, schedule, n - 1);
        SafeIsDecided(start, schedule, requests, n - 1);
      }
    }
  }

  lemma EmptyAgrees(start: Store, requests: seq<Request>, key: string)
    ensures AgreesUpTo(start, requests, key, 0)
  {
  }

  /** The whole agreement: where nothing forgets, every decision is that of a limiter that never forgets. */
  lemma SweptLimiterForgetsNothingThatCounts(start: Store, schedule: seq<Slot>, requests: seq<Request>)
    requires start.events == map[] && Plays(requests, schedule) && MonotoneClock(requests)
    requires forall m, i, j {:trigger Forgets(start.widestWindow, schedule, m, i, j)} ::
               0 <= m < i < j < |schedule| ==> !Forgets(start.widestWindow, schedule, m, i, j)
    ensures SweptRun(start, requests).1 == Decisions(requests)
  {
    hide Forgets, SweptRun, Decisions, MonotoneClock;
    assert requests[..|requests|] == requests;
    forall j | 0 <= j < |requests| ensures SweptRun(start, requests).1[j] == Decisions(requests)[j] {
      SafeKeyAgrees(start, schedule, requests, requests[j].key, |requests|);
    }
  }

  // ---- one limit and window for a key ----

  /** This key is always checked with this window; what other keys do is left open. */
  predicate HasWindow(requests: seq<Request>, key: string, window: int) {
    forall i :: 0 <= i < |requests| && requests[i].key == key ==> requests[i].window == window
  }

  predicate HasLimit(requests: seq<Request>, key: string, limit: int) {
    forall i :: 0 <= i < |requests| && requests[i].key == key ==> requests[i].limit == limit
  }

  function ScheduleOf(requests: seq<Request>): (schedule: seq<Slot>)
    ensures Plays(requests, schedule)
  {
    if requests == [] then []
    else
      var n := |requests| - 1;
      assert forall i :: 0 <= i < n ==> requests[i] == requests[..n][i];
      ScheduleOf(requests[..n]) + [Slot(requests[n].key, requests[n].window)]
  }

  /**
   * A key with one window is safe whatever the other keys ask for: its first request has made the store wide enough.
   */
  lemma OneWindowIsSafe(first: int, schedule: seq<Slot>, n: nat, key: string, window: int)
    requires n <= |schedule| && forall i :: 0 <= i < n && schedule[i].key == key ==> schedule[i].window == window
    ensures Safe(first, schedule, n, key, window)
  {
    hide Widest;
    forall m, i | 0 <= m < i < n ensures Outlives(first, schedule, m, i, key, window) {
      assert schedule[..i + 1][m] == schedule[m];
    }
  }

  lemma OneWindowIsDecided(start: Store, requests: seq<Request>, n: nat, window: int)
    requires start.events == map[] && MonotoneClock(requests) && n < |requests|
    requires HasWindow(requests, requests[n].key, window)
    ensures var (store, decided) := SweptRun(start, requests[..n]);
            var r := requests[n];
            Checked(store, r).1 <==> Recent(Admissions(requests[..n], decided, r.key), r.now, r.window) < r.limit
  {
    hide Checked, Recent, Admissions, SweptRun, Safe, ScheduleOf, MonotoneClock;
    var schedule := ScheduleOf(requests);
    OneWindowIsSafe(start.widestWindow, schedule, n, requests[n].key, window);
    SafeIsDecided(start, schedule, requests, n);
  }

  /** A key with one window is decided as by a limiter that never forgets, for all interleavings with any other keys. */
  lemma OneWindowAgrees(start: Store, requests: seq<Request>, key: string, window: int)
    requires start.events == map[] && MonotoneClock(requests) && HasWindow(requests, key, window)
    ensures forall j :: 0 <= j < |requests| && requests[j].key == key ==>
              SweptRun(start, requests).1[j] == Decisions(requests)[j]
  {
    hide SweptRun, Decisions, MonotoneClock, ScheduleOf, Widest;
    var schedule, n := ScheduleOf(requests), |requests|;
    forall m, i, j | 0 <= m < i < j < n && schedule[j].key == key
      ensures !Forgets(start.widestWindow, schedule, m, i, j)
    {
      if schedule[m].key == key { assert schedule[..i + 1][m] == schedule[m]; }
    }
    assert requests[..n] == requests;
    SafeKeyAgrees(start, schedule, requests, key, n);
  }

  lemma {:induction false} AdmissionsAreSorted(requests: seq<Request>, decisions: seq<bool>, key: string, clock: real)
    requires |decisions| == |requests| && MonotoneClock(requests)
    requires requests != [] ==> requests[|requests| - 1].now <= clock
    ensures SortedUntil(Admissions(requests, decisions, key), clock)
  {
    if requests != [] {
      var n := |requests| - 1;
      AdmissionsAreSorted(requests[..n], decisions[..n], key, requests[n].now);
    }
  }

  /** Some interval of the window's length holds everything that is recent. */
  lemma RecentInInterval(times: seq<real>, now: real, window: int) returns (from: real)
    requires SortedUntil(times, now)
    ensures Recent(times, now, window) <= InInterval(times, from, window)
  {
    hide Drained, Count;
    var d := Drained(times, now, window);
    var n := |times| - |d|;
    DrainedIsRecent(times, now, window);
    DrainedSplits(times, now, window);
    from := if d == [] then now else d[0];
    var p := Within(from, window);
    assert times == times[..n] + d;
    CountConcat(times[..n], d, p);
    assert forall i :: 0 <= i < |d| ==> d[i] == times[n + i];
    CountBounds(d, p);
  }

  /** The admission times of a key in the run of the swept limiter. */
  function Admitted(start: Store, requests: seq<Request>, key: string): seq<real> {
    Admissions(requests, SweptRun(start, requests).1, key)
  }

  /**
   * A key that is always checked with one limit and one window never gets more admissions than the limit into any
   * half-open interval of the window, whatever the other keys ask for.
   */
  lemma {:induction false} AtMostLimitPerWindow(
      start: Store, requests: seq<Request>, key: string, limit: nat, window: int, from: real)
    requires start.events == map[] && MonotoneClock(requests)
    requires HasWindow(requests, key, window) && HasLimit(requests, key, limit)
    ensures InInterval(Admitted(start, requests, key), from, window) <= limit
  {
    hide Recent, InInterval, Checked, SweptRun, Admissions;
    if requests == [] {
      NothingIsAdmitted(start, key);
      NothingInInterval(from, window);
    } else {
      var n := |requests| - 1;
      var before, r := requests[..n], requests[n];
      AtMostLimitPerWindow(start, before, key, limit, window, from);
      assert requests[..n + 1] == requests;
      PrefixGrows(start, requests, n);
      if r.key == key {
        OneWindowIsDecided(start, requests, n, window);
        OneMoreAdmission(Admitted(start, before, key), r.now, limit, window, from);
      }
    }
  }

  lemma NothingIsAdmitted(start: Store, key: string)
    ensures Admitted(start, [], key) == []
  {
  }

  lemma NothingInInterval(from: real, window: int)
    ensures InInterval([], from, window) == 0
  {
  }

  lemma OneMoreAdmission(times: seq<real>, now: real, limit: nat, window: int, from: real)
    requires InInterval(times, from, window) <= limit
    ensures Recent(times, now, window) < limit ==> InInterval(times + [now], from, window) <= limit
    ensures InInterval(times + [], from, window) <= limit
  {
    assert times + [] == times;
    assert (times + [now])[..|times|] == times;
    if from <= now < from + window as real {
      CountMonotone(times, Within(from, window), Young(now, window));
    }
  }

  /** Such a key is refused exactly when the window before the request already holds the limit. */
  lemma RefusedIffWindowIsFull(
      start: Store, requests: seq<Request>, i: nat, key: string, limit: nat, window: int)
    requires start.events == map[] && MonotoneClock(requests) && i < |requests| && requests[i].key == key
    requires HasWindow(requests, key, window) && HasLimit(requests, key, limit)
    ensures !SweptRun(start, requests).1[i]
       <==> Recent(Admitted(start, requests[..i], key), requests[i].now, window) == limit
  {
    hide Recent, InInterval, Checked, SweptRun, Admissions;
    var before, r := requests[..i], requests[i];
    SweptRunIsPrefixed(start, requests, i + 1);
    PrefixGrows(start, requests, i);
    OneWindowIsDecided(start, requests, i, window);
    assert SweptRun(start, requests).1[i] == SweptRun(start, requests).1[..i + 1][i];
    AdmissionsAreSorted(before, SweptRun(start, before).1, key, r.now);
    var from := RecentInInterval(Admitted(start, before, key), r.now, window);
    AtMostLimitPerWindow(start, before, key, limit, window, from);
  }

  lemma {:induction false} SweptRunIsPrefixed(start: Store, requests: seq<Request>, n: nat)
    requires n <= |requests|
    ensures SweptRun(start, requests).1[..n] == SweptRun(start, requests[..n]).1
    decreases |requests| - n
  {
    hide Checked, SweptRun, Admissions;
    if n < |requests| {
      SweptRunIsPrefixed(start, requests, n + 1);
      PrefixGrows(start, requests, n);
      assert SweptRun(start, requests).1[..n] == SweptRun(start, requests).1[..n + 1][..n];
    } else {
      assert requests[..n] == requests;
    }
  }
}
