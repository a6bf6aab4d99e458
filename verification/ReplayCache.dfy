/** The replay cache of a realtime session against a memory that never forgets. */
module ReplayCache {
  import opened Wrappers
  import opened Enquiries
  import opened Realtime
  import opened Protocol
  import opened Runs
  import Decimal
  import Dialogue

  // ---- one cache ----

  ghost predicate Distinct(cache: Cache) { forall i, j :: 0 <= i < j < |cache| ==> cache[i].0 != cache[j].0 }

  function Ids(cache: Cache): (ids: set<string>)
    ensures forall i :: 0 <= i < |cache| ==> cache[i].0 in ids
    ensures forall id <- ids :: exists i :: 0 <= i < |cache| && cache[i].0 == id
  {
    if cache == [] then {} else Ids(cache[..|cache| - 1]) + {cache[|cache| - 1].0}
  }

  lemma {:induction false} DistinctCount(cache: Cache)
    requires Distinct(cache)
    ensures |Ids(cache)| == |cache|
  {
    if cache != [] {
      var before := cache[..|cache| - 1];
      DistinctCount(before);
      assert cache[|cache| - 1].0 !in Ids(before);
    }
  }

  /** The call is in the cache at `p` with this reply, and the later entries are exactly the calls in `since`. */
  ghost predicate Holds(cache: Cache, p: nat, callId: string, reply: Reply, since: set<string>) {
    && Distinct(cache) && p < |cache| && cache[p] == (callId, reply)
    && Ids(cache[p + 1..]) == since
  }

  /** What one tool call does to the cache: nothing, or one entry for a call that is not in it. */
  ghost predicate Grows(before: Cache, after: Cache, callId: string) {
    || after == before
    || (&& Lookup(before, callId).None? && after != [] && after[|after| - 1].0 == callId
        && (after == before + [after[|after| - 1]]
            || (|before| >= MAX_COMPLETED_CALLS && after == before[1..] + [after[|after| - 1]])))
  }

  lemma GrowthIsDistinct(before: Cache, after: Cache, callId: string)
    requires Distinct(before) && Grows(before, after, callId)
    ensures Distinct(after)
  {
  }

  lemma FoundAtPlace(cache: Cache, p: nat)
    requires Distinct(cache) && p < |cache|
    ensures Lookup(cache, cache[p].0) == Some(cache[p].1)
  {
  }

  lemma IdsAppend(cache: Cache, entry: (string, Reply))
    ensures Ids(cache + [entry]) == Ids(cache) + {entry.0}
  {
    assert (cache + [entry])[..|cache|] == cache;
  }

  /** A new entry comes after the call, whether or not the oldest one has made room. */
  lemma HeldAt(before: Cache, after: Cache, p: nat, q: nat, callId: string, reply: Reply, since: set<string>)
    requires Holds(before, p, callId, reply, since) && Distinct(after)
    requires q + 1 < |after| && after[q] == before[p] && after[q + 1..] == before[p + 1..] + [after[|after| - 1]]
    ensures Holds(after, q, callId, reply, since + {after[|after| - 1].0})
  {
    hide Ids;
    IdsAppend(before[p + 1..], after[|after| - 1]);
  }

  /** The later calls of a full cache that is about to lose this one are too many. */
  lemma FullTail(before: Cache, newId: string, callId: string, reply: Reply, since: set<string>)
    requires Holds(before, 0, callId, reply, since) && |before| >= MAX_COMPLETED_CALLS && Lookup(before, newId).None?
    ensures |since + {newId}| >= MAX_COMPLETED_CALLS
  {
    DistinctCount(before[1..]);
    assert |since + {newId}| == |since| + 1;
  }

  /** Before 256 further calls are remembered, the call is still there. */
  lemma HeldStays(before: Cache, after: Cache, newId: string, p: nat, callId: string, reply: Reply, since: set<string>)
    returns (q: nat)
    requires Holds(before, p, callId, reply, since) && Grows(before, after, newId)
    requires after != before ==> |since + {newId}| < MAX_COMPLETED_CALLS
    ensures Holds(after, q, callId, reply, if after == before then since else since + {newId})
  {
    hide Ids, Lookup;
    GrowthIsDistinct(before, after, newId);
    q := p;
    if after != before {
      if after == before + [after[|after| - 1]] {
        HeldAt(before, after, p, q, callId, reply, since);
      } else {
        if p == 0 { FullTail(before, newId, callId, reply, since); }
        q := p - 1;
        HeldAt(before, after, p, q, callId, reply, since);
      }
    }
  }

  // ---- one tool call ----

  /** The call is remembered by the session: it runs and answers. */
  predicate Remembers(hash: Payload -> Digest, db: Db, s: Session, call: ToolCall) {
    GetsThrough(s, call) && Execute(db, hash, s, call).2.Some?
  }

  lemma GateKeepsCache(hash: Payload -> Digest, db: Db, s: Session, call: ToolCall)
    ensures Gate(db, hash, s, call).1.completed == s.completed
  {
    hide Prepare, Consume, Validated, Dumped, CreateEnquiry;
  }

  lemma ExecuteGrows(hash: Payload -> Digest, db: Db, s: Session, call: ToolCall)
    ensures var (_, t, reply) := Execute(db, hash, s, call);
            && Grows(s.completed, t.completed, call.callId)
            && (t.completed != s.completed <==> Remembers(hash, db, s, call))
            && (Remembers(hash, db, s, call) ==> t.completed[|t.completed| - 1] == (call.callId, reply.value))
            && |t.completed| == (if !Remembers(hash, db, s, call) then |s.completed|
                                 else if IsRegistered(call.name)
                                   && |s.completed| >= MAX_COMPLETED_CALLS then |s.completed|
                                 else |s.completed| + 1)
  {
    hide Gate, OtherTool, Lookup, IsRegistered;
    GateKeepsCache(hash, db, s, call);
    var t := Execute(db, hash, s, call).1;
    if Remembers(hash, db, s, call) { LookupMisses(s.completed, call.callId, t.completed); }
  }

  lemma LookupMisses(before: Cache, callId: string, after: Cache)
    requires Lookup(before, callId).None? && after != [] && after[|after| - 1].0 == callId
    ensures after != before
  {
  }

  // ---- whole runs ----

  /** The id that event `t` makes the session remember. */
  function RememberedAt(r: Run, t: nat, session: nat): (id: Option<string>)
    requires t < |r.events|
    ensures id.Some? ==> r.events[t].Tool?
  {
    if Reaches(r, t, session) && r.events[t].Tool?
       && Remembers(r.hash, At(r, t).db, Target(At(r, t), r.events[t]).value.session, r.events[t].call) then
      Some(r.events[t].call.callId)
    else None
  }

  /** The distinct ids the session is made to remember by the events from `k` up to `n`. */
  function RememberedIn(r: Run, k: nat, n: nat, session: nat): set<string>
    requires k <= n <= |r.events|
    decreases n
  {
    if n <= k then {}
    else
      var last := RememberedAt(r, n - 1, session);
      RememberedIn(r, k, n - 1, session) + if last.Some? then {last.value} else {}
  }

  function CacheAt(r: Run, n: nat, session: nat): Cache
    requires n <= |r.events|
  {
    if session in At(r, n).clients && At(r, n).clients[session].Phone? then At(r, n).clients[session].session.completed
    else []
  }

  /** How one event changes the cache of a session that stays open. */
  lemma CacheStep(r: Run, n: nat, session: nat)
    requires IsFresh(r.start) && n < |r.events| && session < At(r, n).next
    requires session in At(r, n + 1).clients && At(r, n + 1).clients[session].Phone?
    ensures session in At(r, n).clients && At(r, n).clients[session].Phone?
    ensures var added := RememberedAt(r, n, session);
            var before, after := CacheAt(r, n, session), CacheAt(r, n + 1, session);
            && (added.None? ==> after == before)
            && (added.Some? ==>
                  && Grows(before, after, added.value) && after != before
                  && Execute(At(r, n).db, r.hash, At(r, n).clients[session].session, r.events[n].call).2.Some?
                  && var reply := Execute(At(r, n).db, r.hash, At(r, n).clients[session].session,
                    r.events[n].call).2.value;
                     && after[|after| - 1] == (added.value, reply)
                     && |after| == if IsRegistered(r.events[n].call.name) && |before| >= MAX_COMPLETED_CALLS
                                   then |before| else |before| + 1)
  {
    hide At, Target, Execute, Observe, Grows, Dialogue.Say, GetsThrough, IsFresh, IsRegistered;
    SessionStays(r, n, session);
    var c, e := At(r, n).clients[session], r.events[n];
    if Reaches(r, n, session) && e.Tool? { ExecuteGrows(r.hash, At(r, n).db, c.session, e.call); }
    if Reaches(r, n, session) && e.Transcript? { ObserveKeepsCache(At(r, n).db, c.session, e.utterance, e.now); }
  }

  lemma ObserveKeepsCache(db: Db, s: Session, utterance: string, now: real)
    ensures Observe(db, s, utterance, now).1.completed == s.completed
  {
    hide Realtime.Accepts, Realtime.Declines, Confirm, Cancel;
  }

  lemma SessionIsOld(r: Run, n: nat, session: nat)
    requires IsFresh(r.start) && n <= |r.events| && session in At(r, n).clients
    ensures session < At(r, n).next
  {
    hide At;
    RunIsOk(r, n);
    OkClient(At(r, n), session);
  }

  /** A new session starts with an empty cache. */
  lemma NewSessionIsEmpty(r: Run, n: nat)
    requires IsFresh(r.start) && n < |r.events| && At(r, n).next in At(r, n + 1).clients
    ensures CacheAt(r, n + 1, At(r, n).next) == []
  {
    hide At, React, Ok, Target;
    AtStep(r, n);
    RunIsOk(r, n);
    var w, e := At(r, n), r.events[n];
    if Target(w, e).Some? {
      TargetFits(w, e);
      OkClient(w, e.session);
    }
    if w.next in w.clients { OkClient(w, w.next); }
  }

  lemma {:induction false} CachesAreDistinct(r: Run, n: nat, session: nat)
    requires IsFresh(r.start) && n <= |r.events|
    ensures Distinct(CacheAt(r, n, session))
  {
    hide At, Grows, RememberedAt, IsFresh;
    AtStart(r);
    if n > 0 && session in At(r, n).clients && At(r, n).clients[session].Phone? {
      SessionCases(r, n - 1, session);
      if session < At(r, n - 1).next {
        CachesAreDistinct(r, n - 1, session);
        CacheStep(r, n - 1, session);
        var added := RememberedAt(r, n - 1, session);
        if added.Some? { GrowthIsDistinct(CacheAt(r, n - 1, session), CacheAt(r, n, session), added.value); }
      } else {
        NewSessionIsEmpty(r, n - 1);
      }
    } else if n == 0 {
      NoSessionsYet(r, session);
    }
  }

  lemma NoSessionsYet(r: Run, session: nat)
    requires IsFresh(r.start)
    ensures CacheAt(r, 0, session) == []
  {
    hide Step;
  }

  lemma SessionCases(r: Run, n: nat, session: nat)
    requires IsFresh(r.start) && n < |r.events| && session in At(r, n + 1).clients
    ensures session <= At(r, n).next
  {
    hide At, React, Step, Target, IsFresh;
    AtStep(r, n);
    RunIsOk(r, n);
    var w, e := At(r, n), r.events[n];
    StepChanges(w, r.hash, e);
    if Target(w, e).Some? {
      TargetFits(w, e);
      OkClient(w, e.session);
    }
    if session in w.clients { OkClient(w, session); }
  }

  /** What the session answered to the call it was made to remember at `k`. */
  function ReplyAt(r: Run, k: nat, session: nat): Reply
    requires k < |r.events| && RememberedAt(r, k, session).Some?
  {
    Execute(At(r, k).db, r.hash, Target(At(r, k), r.events[k]).value.session, r.events[k].call).2.value
  }

  lemma {:induction false} HeldUntil(r: Run, k: nat, n: nat, session: nat) returns (p: nat)
    requires IsFresh(r.start) && k < n <= |r.events| && RememberedAt(r, k, session).Some?
    requires session in At(r, n).clients && At(r, n).clients[session].Phone?
    requires |RememberedIn(r, k + 1, n, session)| < MAX_COMPLETED_CALLS
    ensures Holds(CacheAt(r, n, session), p, RememberedAt(r, k, session).value, ReplyAt(r, k, session),
                  RememberedIn(r, k + 1, n, session))
    decreases n
  {
    hide At, Grows, RememberedAt, IsFresh, ReplyAt, Holds, CacheAt, Execute, Target, Step;
    RememberedWasOpen(r, k, session);
    NextMonotone(r, k, n - 1);
    CacheStep(r, n - 1, session);
    var before, after := CacheAt(r, n - 1, session), CacheAt(r, n, session);
    if n == k + 1 {
      CachesAreDistinct(r, n, session);
      p := |after| - 1;
      ReplyIsAnswer(r, k, session);
      NewestHolds(after);
    } else {
      var added := RememberedAt(r, n - 1, session);
      var since := RememberedIn(r, k + 1, n - 1, session);
      Subset(since, RememberedIn(r, k + 1, n, session));
      p := HeldUntil(r, k, n - 1, session);
      if added.Some? {
        p := HeldStays(before, after, added.value, p, RememberedAt(r, k, session).value, ReplyAt(r, k, session), since);
      }
    }
  }

  lemma Subset(a: set<string>, b: set<string>)
    requires a <= b
    ensures |a| <= |b|
  {
    assert b == a + (b - a);
  }

  lemma NewestHolds(cache: Cache)
    requires Distinct(cache) && cache != []
    ensures Holds(cache, |cache| - 1, cache[|cache| - 1].0, cache[|cache| - 1].1, {})
  {
  }

  lemma RememberedWasOpen(r: Run, k: nat, session: nat)
    requires IsFresh(r.start) && k < |r.events| && RememberedAt(r, k, session).Some?
    ensures session in At(r, k).clients && session < At(r, k).next
      && Target(At(r, k), r.events[k]) == Some(At(r, k).clients[session])
  {
    hide At, Execute, Target;
    TargetFits(At(r, k), r.events[k]);
    SessionIsOld(r, k, session);
  }

  lemma ReplyIsAnswer(r: Run, k: nat, session: nat)
    requires IsFresh(r.start) && k < |r.events| && RememberedAt(r, k, session).Some?
    requires session in At(r, k).clients && Target(At(r, k), r.events[k]) == Some(At(r, k).clients[session])
    ensures At(r, k).clients[session].Phone? && r.events[k].Tool?
    ensures Execute(At(r, k).db, r.hash, At(r, k).clients[session].session, r.events[k].call).2
         == Some(ReplyAt(r, k, session))
  {
    hide At, Execute, Target, Lookup;
    TargetFits(At(r, k), r.events[k]);
  }

  /**
   * A repeated call id, before 256 further distinct ids have been remembered, is answered as the first time, and
   * nothing at all changes.
   */
  lemma RepeatIsReplayed(r: Run, k: nat, n: nat, session: nat)
    requires IsFresh(r.start) && k < n < |r.events| && RememberedAt(r, k, session).Some?
    requires |RememberedIn(r, k + 1, n, session)| < MAX_COMPLETED_CALLS
    requires Reaches(r, n, session) && r.events[n].Tool? && !r.events[n].call.oversize
    requires r.events[n].call.callId == RememberedAt(r, k, session).value
    ensures At(r, n + 1) == At(r, n)
    ensures session in At(r, n).clients && At(r, n).clients[session].Phone?
    ensures Execute(At(r, n).db, r.hash, At(r, n).clients[session].session, r.events[n].call)
         == (At(r, n).db, At(r, n).clients[session].session, Some(ReplyAt(r, k, session)))
  {
    hide At, Grows, RememberedAt, IsFresh, ReplyAt, Target, Lookup, RememberedIn;
    AtStep(r, n);
    TargetFits(At(r, n), r.events[n]);
    var p := HeldUntil(r, k, n, session);
    FoundAtPlace(CacheAt(r, n, session), p);
    StepOnCached(At(r, n), r.hash, r.events[n], ReplyAt(r, k, session));
  }

  lemma StepOnCached(w: World, hash: Payload -> Digest, e: Event, reply: Reply)
    requires Target(w, e).Some? && e.Tool? && e.session in w.clients && w.clients[e.session].Phone? && !e.call.oversize
    requires Lookup(w.clients[e.session].session.completed, e.call.callId) == Some(reply)
    ensures Step(w, hash, e) == w
    ensures Execute(w.db, hash, w.clients[e.session].session, e.call)
         == (w.db, w.clients[e.session].session, Some(reply))
  {
    hide Lookup, Gate, OtherTool, IsRegistered, Dialogue.Say, Observe;
    assert w.clients[e.session := w.clients[e.session]] == w.clients;
  }

  // ---- the bound ----

  /** The event calls an unregistered tool, in earnest, while the cache is full. */
  predicate OverflowsAt(r: Run, t: nat, session: nat)
    requires t < |r.events|
  {
    RememberedAt(r, t, session).Some? && !IsRegistered(r.events[t].call.name)
    && |CacheAt(r, t, session)| >= MAX_COMPLETED_CALLS
  }

  /** A cache outgrows 256 entries exactly when an unregistered tool is called while it is full. */
  lemma {:induction false} WhenTheCacheOverflows(r: Run, n: nat, session: nat)
    requires IsFresh(r.start) && n <= |r.events| && session in At(r, n).clients && At(r, n).clients[session].Phone?
    ensures |CacheAt(r, n, session)| > MAX_COMPLETED_CALLS <==> exists t :: 0 <= t < n && OverflowsAt(r, t, session)
  {
    hide At, Grows, RememberedAt, IsFresh, IsRegistered;
    AtStart(r);
    if n == 0 {
      NoSessionsYet(r, session);
    } else {
      SessionCases(r, n - 1, session);
      if session < At(r, n - 1).next {
        CacheStep(r, n - 1, session);
        WhenTheCacheOverflows(r, n - 1, session);
        assert OverflowsAt(r, n - 1, session) <==>
                 RememberedAt(r, n - 1, session).Some? && !IsRegistered(r.events[n - 1].call.name)
                 && |CacheAt(r, n - 1, session)| >= MAX_COMPLETED_CALLS;
      } else {
        NewSessionIsEmpty(r, n - 1);
        forall t | 0 <= t < n ensures !OverflowsAt(r, t, session) {
          NextMonotone(r, t, n - 1);
          if RememberedAt(r, t, session).Some? { RememberedWasOpen(r, t, session); }
        }
      }
    }
  }

  /** The `n`th of a series of calls of a tool that is not registered. */
  function UnknownCall(n: nat): ToolCall {
    ToolCall(Decimal.Print(n), "refund", map[], false, None, 0, 0.0)
  }

  function AfterUnknownCalls(db: Db, hash: Payload -> Digest, s: Session, n: nat): Session {
    if n == 0 then s else Execute(db, hash, AfterUnknownCalls(db, hash, s, n - 1), UnknownCall(n - 1)).1
  }

  lemma UnknownIsAppended(db: Db, hash: Payload -> Digest, s: Session, n: nat)
    requires Lookup(s.completed, UnknownCall(n).callId).None?
    ensures Execute(db, hash, s, UnknownCall(n)).1.completed == s.completed + [(UnknownCall(n).callId, NotRegistered)]
  {
    hide Gate, OtherTool, Lookup, Decimal.Print;
  }

  lemma {:induction false} UnknownCallsPileUp(db: Db, hash: Payload -> Digest, s: Session, n: nat)
    requires s.completed == []
    ensures var cache := AfterUnknownCalls(db, hash, s, n).completed;
            |cache| == n && forall i :: 0 <= i < n ==> cache[i].0 == UnknownCall(i).callId
  {
    hide Execute, Lookup, UnknownCall;
    if n > 0 {
      UnknownCallsPileUp(db, hash, s, n - 1);
      forall i | 0 <= i < n - 1 ensures UnknownCall(i).callId != UnknownCall(n - 1).callId {
        UnknownIdsDiffer(i, n - 1);
      }
      UnknownIsAppended(db, hash, AfterUnknownCalls(db, hash, s, n - 1), n - 1);
    }
  }

  lemma UnknownIdsDiffer(i: nat, n: nat)
    requires i != n
    ensures UnknownCall(i).callId != UnknownCall(n).callId
  {
    if Decimal.Print(i) == Decimal.Print(n) { Decimal.PrintIsInjective(i, n); }
  }

  /** 257 calls of an unregistered tool do outgrow the cache. */
  lemma BoundIsNotUnconditional(db: Db, hash: Payload -> Digest, s: Session)
    requires s.completed == []
    ensures |AfterUnknownCalls(db, hash, s, 257).completed| > MAX_COMPLETED_CALLS
  {
    hide AfterUnknownCalls;
    UnknownCallsPileUp(db, hash, s, 257);
  }
}
