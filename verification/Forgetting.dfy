/** Exactly when the swept limiter can differ from one that never forgets. */
module Forgetting {
  import opened RateLimit

  // ---- a run that shows the difference ----

  /** The lapse between the admission that is forgotten and everything from the forgetting check on. */
  function Lapse(base: int, window: int): (d: real)
    requires base < window && 0 < window
    ensures 0.0 < d && base as real <= d < window as real
  {
    ((if base < 0 then 0 else base) as real + window as real) / 2.0
  }

  /** Early enough that nothing is swept before the lapse, and that something is swept after it. */
  function StartTime(lastSweep: real, lapse: real): (t: real)
    requires 0.0 < lapse
    ensures lastSweep <= t && t - lastSweep < 60.0 <= t + lapse - lastSweep
  {
    if lapse < 60.0 then lastSweep + 60.0 - lapse else lastSweep
  }

  /** How often the key has been asked for before `n`. */
  function Asked(schedule: seq<Slot>, n: nat, key: string): (count: nat)
    requires n <= |schedule|
    ensures count <= n
  {
    if n == 0 then 0 else Asked(schedule, n - 1, key) + if schedule[n - 1].key == key then 1 else 0
  }

  lemma {:induction false} AskedOnce(schedule: seq<Slot>, m: nat, n: nat, key: string)
    requires m < n <= |schedule| && schedule[m].key == key
    ensures Asked(schedule, n, key) >= 1
  {
    if m < n - 1 { AskedOnce(schedule, m, n - 1, key); }
  }

  lemma {:induction false} AskedGrows(schedule: seq<Slot>, i: nat, n: nat, key: string)
    requires i <= n <= |schedule|
    ensures Asked(schedule, i, key) <= Asked(schedule, n, key)
  {
    if i < n { AskedGrows(schedule, i, n - 1, key); }
  }

  /**
   * Every limit but that at `j` is out of reach, and that one is just what has been asked for by then; from `i` on the
   * clock is one lapse further.
   */
  function Played(schedule: seq<Slot>, i: nat, j: nat, t: real, lapse: real): (requests: seq<Request>)
    requires j < |schedule|
    ensures |requests| == |schedule|
    ensures forall k :: 0 <= k < |requests| ==> requests[k] == PlayedAt(schedule, k, i, j, t, lapse)
  {
    seq(|schedule|, k requires 0 <= k < |schedule| => PlayedAt(schedule, k, i, j, t, lapse))
  }

  function PlayedAt(schedule: seq<Slot>, k: nat, i: nat, j: nat, t: real, lapse: real): Request
    requires k < |schedule| && j < |schedule|
  {
    Request(
      schedule[k].key, if k == j then Asked(schedule, j, schedule[j].key) else |schedule| + 1, schedule[k].window,
      if k < i then t else t + lapse)
  }

  /** The limiter that never forgets admits everything before `j`. */
  lemma {:induction false} FullRemembers(
      schedule: seq<Slot>, i: nat, j: nat, t: real, lapse: real, key: string, n: nat)
    requires i < j < |schedule| && n <= j && 0.0 < lapse
    ensures var before := Played(schedule, i, j, t, lapse)[..n];
            var all := Admissions(before, Decisions(before), key);
            |all| == Asked(schedule, n, key) && forall x <- all :: t <= x
    decreases n
  {
    hide Recent, Admissions, Decisions;
    var requests := Played(schedule, i, j, t, lapse);
    if n == 0 {
      NothingDecided(requests, key);
    } else {
      var before, r := requests[..n - 1], requests[n - 1];
      FullRemembers(schedule, i, j, t, lapse, key, n - 1);
      FullRemembers(schedule, i, j, t, lapse, r.key, n - 1);
      assert requests[..n] == before + [r];
      var all := Admissions(before, Decisions(before), r.key);
      RunsGrow(Store(map[], 0, 0.0), before, r);
      AdmissionsGrow(before, Decisions(before), r, Recent(all, r.now, r.window) < r.limit, key);
      RecentIsBounded(all, r.now, r.window);
    }
  }

  lemma NothingDecided(requests: seq<Request>, key: string)
    ensures Admissions(requests[..0], Decisions(requests[..0]), key) == []
  {
  }

  lemma RecentIsBounded(times: seq<real>, now: real, window: int)
    ensures Recent(times, now, window) <= |times|
    ensures (forall x <- times :: now - x < window as real) ==> Recent(times, now, window) == |times|
  {
    CountBounds(times, Young(now, window));
    assert forall i :: 0 <= i < |times| ==> times[i] in times;
  }

  /** What the store has of the key before `j`: at most what was asked for, and from `i` on only what came after. */
  ghost predicate Lost(s: Store, schedule: seq<Slot>, key: string, i: nat, n: nat, t: real)
    requires i <= |schedule| && n <= |schedule|
  {
    var kept := EventsOf(s, key);
    if n <= i then |kept| <= Asked(schedule, n, key) && forall x <- kept :: x == t
    else |kept| + Asked(schedule, i, key) <= Asked(schedule, n, key)
  }

  lemma {:induction false} DrainedIsSuffix(times: seq<real>, now: real, window: int)
    ensures |Drained(times, now, window)| <= |times|
    ensures forall x <- Drained(times, now, window) :: x in times
    ensures (forall x <- times :: now - x >= window as real) ==> Drained(times, now, window) == []
  {
    assert times != [] ==> times[0] in times;
    if times != [] && now - times[0] >= window as real {
      assert forall x <- times[1..] :: x in times;
      DrainedIsSuffix(times[1..], now, window);
    }
  }

  lemma SweptEvents(s: Store, now: real, key: string)
    ensures EventsOf(Swept(s, now), key) == [] || EventsOf(Swept(s, now), key) == EventsOf(s, key)
  {
  }

  /** One check adds at most one time, its own. */
  lemma CheckAddsOne(s: Store, r: Request, key: string)
    ensures var before, after := EventsOf(s, key), EventsOf(Checked(s, r).0, key);
            && |after| <= |before| + (if r.key == key then 1 else 0)
            && forall x <- after :: x in before || x == r.now
  {
    hide Drained, Swept, Checked;
    var kept := EventsOf(Swept(Widened(s, r.window), r.now), key);
    CheckedEvents(s, r, key);
    SweptEvents(Widened(s, r.window), r.now, key);
    DrainedIsSuffix(kept, r.now, r.window);
  }

  /** A check whose drain or whose sweep is late enough for everything that is kept loses it. */
  lemma LateCheckLoses(s: Store, r: Request, key: string, t: real)
    requires forall x <- EventsOf(s, key) :: x == t
    requires || (r.key == key && r.now - t >= r.window as real)
             || (&& r.now - s.lastSweep >= 60.0
                 && r.now - t >= Widened(s, r.window).widestWindow as real)
    ensures |EventsOf(Checked(s, r).0, key)| <= if r.key == key then 1 else 0
  {
    hide Drained, Checked;
    var before := EventsOf(s, key);
    assert before != [] ==> before[|before| - 1] in before;
    var kept := EventsOf(Swept(Widened(s, r.window), r.now), key);
    CheckedEvents(s, r, key);
    SweptEvents(Widened(s, r.window), r.now, key);
    DrainedIsSuffix(kept, r.now, r.window);
  }

  lemma NoSweepYet(s: Store, r: Request)
    requires r.now - s.lastSweep < 60.0
    ensures Checked(s, r).0.lastSweep == s.lastSweep
  {
    hide Drained;
  }

  lemma NothingIsKept(s: Store, schedule: seq<Slot>, key: string, i: nat, t: real)
    requires s.events == map[] && i <= |schedule|
    ensures Lost(s, schedule, key, i, 0, t)
  {
  }

  /** One more check: before `i` all times are `t`, at `i` they are lost. */
  lemma LostGrows(s: Store, r: Request, schedule: seq<Slot>, key: string, i: nat, n: nat, t: real)
    requires i < |schedule| && n < |schedule| && r.key == schedule[n].key
    requires Lost(s, schedule, key, i, n, t) && (n < i ==> r.now == t)
    requires n == i ==>
               || (r.key == key && r.now - t >= r.window as real)
               || (&& r.now - s.lastSweep >= 60.0
                   && r.now - t >= Widened(s, r.window).widestWindow as real)
    ensures Lost(Checked(s, r).0, schedule, key, i, n + 1, t)
  {
    hide Checked, Widened, EventsOf;
    CheckAddsOne(s, r, key);
    if n == i { LateCheckLoses(s, r, key, t); }
  }

  /** The swept limiter loses at `i` what it has admitted before. */
  lemma {:induction false} SweptLoses(
      start: Store, schedule: seq<Slot>, key: string, i: nat, j: nat, t: real, lapse: real, n: nat)
    requires start.events == map[] && i < j < |schedule| && n <= j && 0.0 < lapse
    requires t - start.lastSweep < 60.0 <= t + lapse - start.lastSweep
    requires || (schedule[i].key == key && lapse >= schedule[i].window as real)
             || lapse >= Widest(start.widestWindow, schedule[..i + 1]) as real
    ensures var s := SweptRun(start, Played(schedule, i, j, t, lapse)[..n]).0;
            Lost(s, schedule, key, i, n, t) && (n <= i ==> s.lastSweep == start.lastSweep)
  {
    hide SweptRun, Checked, Admissions, Widest, Lost, Asked;
    var requests := Played(schedule, i, j, t, lapse);
    if n == 0 {
      NothingIsKept(start, schedule, key, i, t);
      RunsGrow(start, [], Request("", 0, 0, 0.0));
      assert requests[..0] == [];
    } else {
      SweptLoses(start, schedule, key, i, j, t, lapse, n - 1);
      PrefixGrows(start, requests, n - 1);
      var s, r := SweptRun(start, requests[..n - 1]).0, requests[n - 1];
      if n - 1 < i { NoSweepYet(s, r); }
      if n - 1 == i { WidestGrows(start, requests, schedule, i); }
      LostGrows(s, r, schedule, key, i, n - 1, t);
    }
  }

  lemma AdmitsWhenFew(s: Store, r: Request)
    requires |EventsOf(s, r.key)| < r.limit
    ensures Checked(s, r).1
  {
    hide Drained, Swept, Checked;
    CheckedEvents(s, r, r.key);
    SweptEvents(Widened(s, r.window), r.now, r.key);
  }

  /** Where a schedule forgets, some positive limits and some times make the two limiters differ. */
  lemma ForgettingShows(start: Store, schedule: seq<Slot>, m: nat, i: nat, j: nat) returns (requests: seq<Request>)
    requires start.events == map[] && m < i < j < |schedule| && Forgets(start.widestWindow, schedule, m, i, j)
    ensures TellsApart(start, schedule, requests)
  {
    hide SweptRun, Checked, Admissions, Decisions, Widest, Recent;
    var widest := Widest(start.widestWindow, schedule[..i + 1]);
    var base := if widest < schedule[j].window then widest else schedule[i].window;
    var lapse := Lapse(base, schedule[j].window);
    var t := StartTime(start.lastSweep, lapse);
    var key := schedule[m].key;
    requests := Played(schedule, i, j, t, lapse);
    var before, r := requests[..j], requests[j];
    AskedOnce(schedule, m, i, key);
    AskedGrows(schedule, i, j, key);
    SweptLoses(start, schedule, key, i, j, t, lapse, j);
    AdmitsWhenFew(SweptRun(start, before).0, r);
    PrefixGrows(start, requests, j);
    SweptRunIsPrefixed(start, requests, j + 1);
    FullRemembers(schedule, i, j, t, lapse, key, j);
    RecentIsBounded(Admissions(before, Decisions(before), key), r.now, r.window);
    assert requests[..j + 1] == before + [r];
    RunsGrow(start, before, r);
    DecisionsArePrefixed(requests, j + 1);
    assert SweptRun(start, requests).1[..j + 1][j] && !Decisions(requests)[..j + 1][j];
  }

  lemma {:induction false} DecisionsArePrefixed(requests: seq<Request>, n: nat)
    requires n <= |requests|
    ensures Decisions(requests)[..n] == Decisions(requests[..n])
    decreases |requests| - n
  {
    if n < |requests| {
      DecisionsArePrefixed(requests, n + 1);
      assert requests[..n + 1][..n] == requests[..n];
      assert Decisions(requests)[..n] == Decisions(requests)[..n + 1][..n];
    } else {
      assert requests[..n] == requests;
    }
  }

  /** Requests of this schedule with positive limits, in the order of the clock, on which the two limiters differ. */
  ghost predicate TellsApart(start: Store, schedule: seq<Slot>, requests: seq<Request>) {
    && Plays(requests, schedule) && MonotoneClock(requests) && (forall r <- requests :: r.limit > 0)
    && (requests != [] ==> start.lastSweep <= requests[0].now)
    && SweptRun(start, requests).1 != Decisions(requests)
  }

  /** Some check of the schedule forgets what a later one would count. */
  ghost predicate CanForget(first: int, schedule: seq<Slot>) {
    exists m, i, j {:trigger Forgets(first, schedule, m, i, j)} ::
      0 <= m < i < j < |schedule| && Forgets(first, schedule, m, i, j)
  }

  /**
   * For every schedule of keys and windows: some positive limits and some clock make the swept limiter differ from one
   * that never forgets, exactly if the schedule forgets somewhere.
   */
  lemma WhenTheLimitersDiffer(start: Store, schedule: seq<Slot>)
    requires start.events == map[]
    ensures (exists requests :: TellsApart(start, schedule, requests)) <==> CanForget(start.widestWindow, schedule)
  {
    hide Forgets, SweptRun, Decisions, MonotoneClock, Plays;
    if CanForget(start.widestWindow, schedule) {
      var m, i, j {:trigger Forgets(start.widestWindow, schedule, m, i, j)} :|
        0 <= m < i < j < |schedule| && Forgets(start.widestWindow, schedule, m, i, j);
      var requests := ForgettingShows(start, schedule, m, i, j);
    } else {
      forall requests ensures !TellsApart(start, schedule, requests) {
        if Plays(requests, schedule) && MonotoneClock(requests) {
          SweptLimiterForgetsNothingThatCounts(start, schedule, requests);
        }
      }
    }
  }

  // ---- the two ways to forget ----

  const FRESH := Store(map[], 0, 0.0)

  /** One more request, for both limiters. */
  lemma BothGrow(start: Store, before: seq<Request>, r: Request, key: string)
    ensures var (store, decided) := SweptRun(start, before);
            SweptRun(start, before + [r]) == (Checked(store, r).0, decided + [Checked(store, r).1])
    ensures var all := Admissions(before, Decisions(before), r.key);
            var admitted := Recent(all, r.now, r.window) < r.limit;
            && Decisions(before + [r]) == Decisions(before) + [admitted]
            && Admissions(before + [r], Decisions(before + [r]), key)
               == if r.key == key && admitted then Admissions(before, Decisions(before), key) + [r.now]
                  else Admissions(before, Decisions(before), key)
  {
    hide Checked, Recent, Admissions, SweptRun, Decisions;
    var all := Admissions(before, Decisions(before), r.key);
    RunsGrow(start, before, r);
    AdmissionsGrow(before, Decisions(before), r, Recent(all, r.now, r.window) < r.limit, key);
  }

  lemma NothingRun(start: Store, key: string)
    ensures SweptRun(start, []) == (start, []) && Decisions([]) == [] && Admissions([], Decisions([]), key) == []
  {
  }

  lemma ThreeSwept(start: Store, r0: Request, r1: Request, r2: Request)
    ensures SweptRun(start, [r0, r1, r2]).1[2] == Checked(Checked(Checked(start, r0).0, r1).0, r2).1
  {
    hide Checked, Recent, Admissions, SweptRun, Decisions;
    NothingRun(start, "");
    BothGrow(start, [], r0, "");
    BothGrow(start, [r0], r1, "");
    BothGrow(start, [r0, r1], r2, "");
    assert [] + [r0] == [r0] && [r0] + [r1] == [r0, r1] && [r0, r1] + [r2] == [r0, r1, r2];
  }

  /** The third of three requests, decided from the record of the first two. */
  lemma ThreeFull(r0: Request, r1: Request, r2: Request)
    requires r0.key == r2.key && 0 < r0.limit
    ensures var counted := if r1.key == r0.key then [r0.now] else [];
            var admitted := Recent(counted, r1.now, r1.window) < r1.limit;
            var times := if r1.key == r0.key && admitted then [r0.now, r1.now] else [r0.now];
            Decisions([r0, r1, r2])[2] == (Recent(times, r2.now, r2.window) < r2.limit)
  {
    hide Checked, Recent, Admissions, SweptRun, Decisions;
    NothingRun(FRESH, r0.key);
    NothingRun(FRESH, r1.key);
    RecentIsBounded([], r0.now, r0.window);
    BothGrow(FRESH, [], r0, r0.key);
    BothGrow(FRESH, [], r0, r1.key);
    BothGrow(FRESH, [r0], r1, r0.key);
    BothGrow(FRESH, [r0, r1], r2, r0.key);
    assert [] + [r0] == [r0] && [r0] + [r1] == [r0, r1] && [r0, r1] + [r2] == [r0, r1, r2];
    assert [] + [r0.now] == [r0.now] && [r0.now] + [r1.now] == [r0.now, r1.now];
  }

  /**
   * A sweep forgets: the check of "b" deletes the admission of "a" when no window wider than 10 s has been asked for,
   * and the check of "a" that then asks for 100 s misses it. Neither key is ever checked with a narrower window.
   */
  lemma SweepForgets()
    ensures var requests := [Request("a", 1, 10, 0.0), Request("b", 1, 10, 70.0), Request("a", 1, 100, 71.0)];
            && MonotoneClock(requests)
            && SweptRun(FRESH, requests).1[2] && !Decisions(requests)[2]
  {
    hide Checked, Recent, Admissions, SweptRun, Decisions;
    var r0, r1, r2 := Request("a", 1, 10, 0.0), Request("b", 1, 10, 70.0), Request("a", 1, 100, 71.0);
    ThreeSwept(FRESH, r0, r1, r2);
    ThreeFull(r0, r1, r2);
    CheckAddsOne(FRESH, r0, "a");
    NoSweepYet(FRESH, r0);
    CheckWidens(FRESH, r0);
    LateCheckLoses(Checked(FRESH, r0).0, r1, "a", 0.0);
    AdmitsWhenFew(Checked(Checked(FRESH, r0).0, r1).0, r2);
    RecentIsBounded([0.0], 71.0, 100);
  }

  /** A narrow check forgets: it drains what a later wide check of the same key would have to count. */
  lemma NarrowWindowForgets()
    ensures var requests := [Request("k", 2, 10, 0.0), Request("k", 2, 1, 5.0), Request("k", 2, 10, 6.0)];
            && MonotoneClock(requests)
            && SweptRun(FRESH, requests).1[2] && !Decisions(requests)[2]
  {
    hide Checked, Recent, Admissions, SweptRun, Decisions;
    var r0, r1, r2 := Request("k", 2, 10, 0.0), Request("k", 2, 1, 5.0), Request("k", 2, 10, 6.0);
    ThreeSwept(FRESH, r0, r1, r2);
    ThreeFull(r0, r1, r2);
    NarrowChecks(Store(map["k" := [0.0]], 10, 0.0), Store(map["k" := [5.0]], 10, 0.0));
    NarrowCounts();
  }

  lemma NarrowCounts()
    ensures Recent([0.0], 5.0, 1) == 0 && Recent([0.0, 5.0], 6.0, 10) == 2
  {
    hide Count;
    CountBounds([0.0], Young(5.0, 1));
    CountBounds([0.0, 5.0], Young(6.0, 10));
  }

  lemma NarrowChecks(s1: Store, s2: Store)
    requires s1 == Store(map["k" := [0.0]], 10, 0.0) && s2 == Store(map["k" := [5.0]], 10, 0.0)
    ensures Checked(FRESH, Request("k", 2, 10, 0.0)) == (s1, true)
    ensures Checked(s1, Request("k", 2, 1, 5.0)) == (s2, true)
    ensures Checked(s2, Request("k", 2, 10, 6.0)).1
  {
    assert [] + [0.0] == [0.0] && FRESH.events["k" := [0.0]] == s1.events;
    assert Drained([0.0], 5.0, 1) == [] && [] + [5.0] == [5.0];
    assert s1.events["k" := [5.0]] == s2.events;
  }
}
