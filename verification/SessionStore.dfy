/** The bounded store of live sessions: least recently used first, pruned by age and by number. */
module SessionStore {
  /** A session as the store sees it, with the time it was last used. */
  datatype Entry = Entry(id: string, lastSeen: real)

  /** Entries in the order in which they were last used. */
  type Entries = seq<Entry>

  // ---- what pruning leaves ----

  predicate IsExpired(e: Entry, now: real, ttl: real) { now - e.lastSeen > ttl }

  function Unexpired(entries: Entries, now: real, ttl: real): (r: Entries)
    ensures |r| <= |entries|
    ensures forall e <- r :: e in entries && !IsExpired(e, now, ttl)
  {
    if entries == [] then []
    else
      var rest := Unexpired(entries[1..], now, ttl);
      if IsExpired(entries[0], now, ttl) then rest else [entries[0]] + rest
  }

  /** The newest entries, one fewer than the limit, so that there is room for one more. */
  function Newest(entries: Entries, max: nat): (r: Entries)
    requires max >= 1
    ensures |r| < max && |r| <= |entries| && (|entries| < max ==> r == entries)
  {
    if |entries| >= max then entries[|entries| - (max - 1)..] else entries
  }

  function Pruned(entries: Entries, now: real, ttl: real, max: nat): (r: Entries)
    requires max >= 1
    ensures |r| < max
  {
    Newest(Unexpired(entries, now, ttl), max)
  }

  function Without(entries: Entries, id: string): (r: Entries)
    ensures |r| <= |entries|
    ensures forall e <- r :: e in entries && e.id != id
  {
    if entries == [] then []
    else if entries[0].id == id then Without(entries[1..], id)
    else [entries[0]] + Without(entries[1..], id)
  }

  predicate Stores(entries: Entries, id: string) { exists i :: 0 <= i < |entries| && entries[i].id == id }

  function Created(entries: Entries, id: string, now: real, ttl: real, max: nat): Entries
    requires max >= 1
  {
    Pruned(entries, now, ttl, max) + [Entry(id, now)]
  }

  /** Looking a session up prunes first, then moves it to the end. */
  function Got(entries: Entries, id: string, now: real, ttl: real, max: nat): (Entries, bool)
    requires max >= 1
  {
    var kept := Pruned(entries, now, ttl, max);
    if Stores(kept, id) then (Without(kept, id) + [Entry(id, now)], true) else (kept, false)
  }

  // ---- the store ----

  class RealtimeSessionStore {
    const maxSessions: nat
    const ttlSeconds: real
    var sessions: Entries

    ghost predicate Valid()
      reads this
    {
      maxSessions >= 1 && IdsDiffer(sessions)
    }

    constructor (maxSessions: nat, ttlSeconds: real)
      requires maxSessions >= 1
      ensures Valid() && this.maxSessions == maxSessions && this.ttlSeconds == ttlSeconds && sessions == []
    {
      this.maxSessions, this.ttlSeconds, sessions := maxSessions, ttlSeconds, [];
    }

    method Pop(id: string)
      modifies this
      ensures sessions == Without(old(sessions), id)
    {
      hide Without;
      var kept := [];
      assert sessions[0..] == sessions && [] + Without(sessions, id) == Without(sessions, id);
      for i := 0 to |sessions|
        invariant sessions == old(sessions) && kept + Without(sessions[i..], id) == Without(sessions, id)
      {
        WithoutStep(sessions, i, id);
        Regroup(kept, [sessions[i]], Without(sessions[i + 1..], id));
        if sessions[i].id != id {
          kept := kept + [sessions[i]];
        }
      }
      WithoutNothing(id);
      assert sessions[|sessions|..] == [] && kept + [] == kept;
      sessions := kept;
    }

    method DropExpired(now: real)
      modifies this
      ensures sessions == Unexpired(old(sessions), now, ttlSeconds)
    {
      hide Unexpired;
      var kept := [];
      ghost var all := Unexpired(sessions, now, ttlSeconds);
      assert sessions[0..] == sessions && [] + all == all;
      for i := 0 to |sessions|
        invariant sessions == old(sessions)
        invariant kept + Unexpired(sessions[i..], now, ttlSeconds) == Unexpired(sessions, now, ttlSeconds)
      {
        UnexpiredStep(sessions, i, now, ttlSeconds);
        Regroup(kept, [sessions[i]], Unexpired(sessions[i + 1..], now, ttlSeconds));
        if !(now - sessions[i].lastSeen > ttlSeconds) {
          kept := kept + [sessions[i]];
        }
      }
      assert sessions[|sessions|..] == [] && kept + [] == kept;
      UnexpiredNothing(now, ttlSeconds);
      sessions := kept;
    }

    method PruneLocked(now: real)
      requires Valid()
      modifies this
      ensures sessions == Pruned(old(sessions), now, ttlSeconds, maxSessions)
    {
      hide Unexpired;
      DropExpired(now);
      ghost var kept, dropped := sessions, 0;
      while |sessions| >= maxSessions
        invariant dropped <= |kept| && sessions == kept[dropped..]
        invariant dropped > 0 ==> |sessions| >= maxSessions - 1
        decreases |sessions|
      {
        sessions := sessions[1..];
        dropped := dropped + 1;
      }
    }

    method Create(id: string, now: real)
      requires Valid() && !Stores(sessions, id)
      modifies this
      ensures Valid() && sessions == Created(old(sessions), id, now, ttlSeconds, maxSessions)
    {
      PruneLocked(now);
      PrunedDiffers(old(sessions), now, ttlSeconds, maxSessions);
      OnlyStoredIsFound(old(sessions), id, now, ttlSeconds, maxSessions);
      sessions := sessions + [Entry(id, now)];
    }

    method Get(id: string, now: real) returns (found: bool)
      requires Valid()
      modifies this
      ensures Valid() && (sessions, found) == Got(old(sessions), id, now, ttlSeconds, maxSessions)
    {
      hide IdsDiffer, Pruned, Without;
      PruneLocked(now);
      PrunedDiffers(old(sessions), now, ttlSeconds, maxSessions);
      found := exists i :: 0 <= i < |sessions| && sessions[i].id == id;
      if found {
        ghost var kept := sessions;
        Pop(id);
        WithoutDiffers(kept, id);
        AppendedDiffers(sessions, Entry(id, now));
        sessions := sessions + [Entry(id, now)];
      }
    }

    method Delete(id: string) returns (found: bool)
      requires Valid()
      modifies this
      ensures Valid() && sessions == Without(old(sessions), id) && (found <==> Stores(old(sessions), id))
    {
      found := exists i :: 0 <= i < |sessions| && sessions[i].id == id;
      Pop(id);
      WithoutDiffers(old(sessions), id);
    }
  }

  // ---- order ----

  ghost predicate IdsDiffer(entries: Entries) {
    forall i, j :: 0 <= i < j < |entries| ==> entries[i].id != entries[j].id
  }

  /** Least recently used first, nothing from the future. */
  ghost predicate SortedUntil(entries: Entries, clock: real) {
    && (forall i, j :: 0 <= i < j < |entries| ==> entries[i].lastSeen <= entries[j].lastSeen)
    && forall i :: 0 <= i < |entries| ==> entries[i].lastSeen <= clock
  }

  lemma AppendedDiffers(entries: Entries, e: Entry)
    requires IdsDiffer(entries) && forall d <- entries :: d.id != e.id
    ensures IdsDiffer(entries + [e])
  {
  }

  lemma HeadStaysApart(head: Entry, tail: Entries, part: Entries)
    requires IdsDiffer([head] + tail) && IdsDiffer(part) && forall e <- part :: e in tail
    ensures IdsDiffer([head] + part)
  {
    var whole := [head] + tail;
    forall j | 0 <= j < |part| ensures part[j].id != head.id {
      assert part[j] in tail;
      var k :| 0 <= k < |tail| && tail[k] == part[j];
      assert whole[k + 1] == tail[k] && whole[0] == head;
    }
  }

  lemma TailDiffers(entries: Entries)
    requires IdsDiffer(entries) && entries != []
    ensures IdsDiffer(entries[1..]) && entries == [entries[0]] + entries[1..]
  {
    assert forall i :: 1 <= i < |entries| ==> entries[i] == entries[1..][i - 1];
  }

  lemma {:induction false} UnexpiredDiffers(entries: Entries, now: real, ttl: real)
    requires IdsDiffer(entries)
    ensures IdsDiffer(Unexpired(entries, now, ttl))
  {
    if entries != [] {
      TailDiffers(entries);
      UnexpiredDiffers(entries[1..], now, ttl);
      HeadStaysApart(entries[0], entries[1..], Unexpired(entries[1..], now, ttl));
    }
  }

  lemma PrunedDiffers(entries: Entries, now: real, ttl: real, max: nat)
    requires max >= 1 && IdsDiffer(entries)
    ensures IdsDiffer(Pruned(entries, now, ttl, max))
    ensures forall e <- Pruned(entries, now, ttl, max) :: e in entries
  {
    UnexpiredDiffers(entries, now, ttl);
  }

  lemma {:induction false} WithoutDiffers(entries: Entries, id: string)
    requires IdsDiffer(entries)
    ensures IdsDiffer(Without(entries, id))
    ensures |Without(entries, id)| == if Stores(entries, id) then |entries| - 1 else |entries|
  {
    if entries != [] {
      TailDiffers(entries);
      WithoutDiffers(entries[1..], id);
      assert Stores(entries, id) <==> entries[0].id == id || Stores(entries[1..], id) by { StoresTail(entries, id); }
      if entries[0].id != id { HeadStaysApart(entries[0], entries[1..], Without(entries[1..], id)); }
    }
  }

  lemma StoresTail(entries: Entries, id: string)
    requires IdsDiffer(entries) && entries != []
    ensures Stores(entries, id) <==> entries[0].id == id || Stores(entries[1..], id)
    ensures entries[0].id == id ==> !Stores(entries[1..], id)
  {
    assert forall i :: 1 <= i < |entries| ==> entries[i] == entries[1..][i - 1];
    if Stores(entries[1..], id) {
      var i :| 0 <= i < |entries[1..]| && entries[1..][i].id == id;
      assert entries[i + 1].id == id;
    }
  }

  // ---- when a lookup succeeds ----

  lemma {:induction false} UnexpiredConcat(a: Entries, b: Entries, now: real, ttl: real)
    ensures Unexpired(a + b, now, ttl) == Unexpired(a, now, ttl) + Unexpired(b, now, ttl)
  {
    if a == [] {
      assert a + b == b;
    } else {
      assert (a + b)[1..] == a[1..] + b;
      UnexpiredConcat(a[1..], b, now, ttl);
    }
  }

  /** Nothing that is pruned away can be found. */
  lemma OnlyStoredIsFound(entries: Entries, id: string, now: real, ttl: real, max: nat)
    requires max >= 1 && !Stores(entries, id)
    ensures !Stores(Pruned(entries, now, ttl, max), id)
  {
    var kept := Pruned(entries, now, ttl, max);
    forall i | 0 <= i < |kept| ensures kept[i].id != id {
      assert kept[i] in Unexpired(entries, now, ttl);
      var k :| 0 <= k < |entries| && entries[k] == kept[i];
    }
  }

  lemma LaterDiffers(entries: Entries, i: nat, j: nat)
    requires IdsDiffer(entries) && i < j < |entries|
    ensures entries[i].id != entries[j].id
  {
  }

  lemma NewestStores(all: Entries, at: nat, max: nat)
    requires max >= 1 && IdsDiffer(all) && at < |all|
    ensures Stores(Newest(all, max), all[at].id) <==> |all| - at - 1 < max - 1
  {
    hide IdsDiffer;
    var kept := Newest(all, max);
    var dropped := |all| - |kept|;
    if |all| - at - 1 < max - 1 {
      assert kept[at - dropped] == all[at];
    } else {
      forall k | 0 <= k < |kept| ensures kept[k].id != all[at].id {
        assert kept[k] == all[dropped + k];
        LaterDiffers(all, at, dropped + k);
      }
    }
  }

  /** The sessions from `from` on that were used at most `ttl` before, counted by their positions. */
  lemma {:induction false} UnexpiredAreYoung(entries: Entries, from: nat, now: real, ttl: real)
    requires from <= |entries|
    ensures |Unexpired(entries[from..], now, ttl)|
         == |set j | from <= j < |entries| && now - entries[j].lastSeen <= ttl|
    decreases |entries| - from
  {
    var young := set j | from <= j < |entries| && now - entries[j].lastSeen <= ttl;
    if from == |entries| {
      assert entries[from..] == [] && young == {};
    } else {
      UnexpiredAreYoung(entries, from + 1, now, ttl);
      UnexpiredStep(entries, from, now, ttl);
      var later := set j | from + 1 <= j < |entries| && now - entries[j].lastSeen <= ttl;
      if now - entries[from].lastSeen <= ttl {
        assert young == later + {from};
      } else {
        assert young == later;
      }
    }
  }

  /**
   * A session is found exactly if it was last used at most `ttl` before and so were fewer than `max - 1` of those used
   * after it: the look-up prunes down to `max - 1` entries before it looks, so on a full store it may drop the very
   * session it is for.
   */
  lemma GetSucceedsIff(entries: Entries, i: nat, now: real, ttl: real, max: nat)
    requires max >= 1 && IdsDiffer(entries) && i < |entries|
    ensures Got(entries, entries[i].id, now, ttl, max).1
       <==> now - entries[i].lastSeen <= ttl
            && |set j | i < j < |entries| && now - entries[j].lastSeen <= ttl| < max - 1
  {
    GetSucceedsIffUnexpired(entries, i, now, ttl, max);
    UnexpiredAreYoung(entries, i + 1, now, ttl);
    assert (set j | i < j < |entries| && now - entries[j].lastSeen <= ttl)
        == set j | i + 1 <= j < |entries| && now - entries[j].lastSeen <= ttl;
  }

  lemma GetSucceedsIffUnexpired(entries: Entries, i: nat, now: real, ttl: real, max: nat)
    requires max >= 1 && IdsDiffer(entries) && i < |entries|
    ensures Got(entries, entries[i].id, now, ttl, max).1
       <==> !IsExpired(entries[i], now, ttl) && |Unexpired(entries[i + 1..], now, ttl)| < max - 1
  {
    hide Unexpired, Newest, Stores, Without;
    var e, before, after := entries[i], entries[..i], entries[i + 1..];
    var a, b := Unexpired(before, now, ttl), Unexpired(after, now, ttl);
    var all := Unexpired(entries, now, ttl);
    assert entries == before + ([e] + after);
    UnexpiredConcat(before, [e] + after, now, ttl);
    UnexpiredConcat([e], after, now, ttl);
    UnexpiredOne(e, now, ttl);
    UnexpiredDiffers(entries, now, ttl);
    if IsExpired(e, now, ttl) {
      assert all == a + b;
      OthersOnly(entries, i, a, b);
      NotInNewest(all, e.id, max);
    } else {
      assert all == a + [e] + b && all[|a|] == e;
      NewestStores(all, |a|, max);
    }
  }

  lemma NotInNewest(all: Entries, id: string, max: nat)
    requires max >= 1 && forall k :: 0 <= k < |all| ==> all[k].id != id
    ensures !Stores(Newest(all, max), id)
  {
    var kept := Newest(all, max);
    var dropped := |all| - |kept|;
    assert kept == all[dropped..];
    forall k | 0 <= k < |kept| ensures kept[k].id != id { assert kept[k] == all[dropped + k]; }
  }

  lemma WithoutNothing(id: string)
    ensures Without([], id) == []
  {
  }

  lemma WithoutStep(entries: Entries, i: nat, id: string)
    requires i < |entries|
    ensures Without(entries[i..], id)
         == if entries[i].id == id then Without(entries[i + 1..], id) else [entries[i]] + Without(entries[i + 1..], id)
  {
    assert entries[i..][1..] == entries[i + 1..];
  }

  lemma UnexpiredNothing(now: real, ttl: real)
    ensures Unexpired([], now, ttl) == []
  {
  }

  lemma UnexpiredStep(entries: Entries, i: nat, now: real, ttl: real)
    requires i < |entries|
    ensures var rest := Unexpired(entries[i + 1..], now, ttl);
            Unexpired(entries[i..], now, ttl) == if IsExpired(entries[i], now, ttl) then rest else [entries[i]] + rest
  {
    assert entries[i..][1..] == entries[i + 1..];
  }

  lemma Regroup(a: Entries, b: Entries, c: Entries)
    ensures a + (b + c) == a + b + c
  {
  }

  lemma UnexpiredOne(e: Entry, now: real, ttl: real)
    ensures Unexpired([e], now, ttl) == if IsExpired(e, now, ttl) then [] else [e]
  {
  }

  lemma OthersOnly(entries: Entries, i: nat, a: Entries, b: Entries)
    requires IdsDiffer(entries) && i < |entries|
    requires (forall x <- a :: x in entries[..i]) && forall x <- b :: x in entries[i + 1..]
    ensures forall k :: 0 <= k < |a + b| ==> (a + b)[k].id != entries[i].id
  {
    forall x <- a ensures x.id != entries[i].id {
      var k :| 0 <= k < i && entries[..i][k] == x;
      assert entries[k] == x;
    }
    forall x <- b ensures x.id != entries[i].id {
      var k :| 0 <= k < |entries[i + 1..]| && entries[i + 1..][k] == x;
      assert entries[i + 1 + k] == x;
    }
    forall k | 0 <= k < |a + b| ensures (a + b)[k].id != entries[i].id {
      assert (a + b)[k] in a || (a + b)[k] in b;
    }
  }

  // ---- whole runs ----

  datatype Operation = Create(id: string, now: real) | Get(id: string, now: real) | Delete(id: string)

  function Apply(entries: Entries, op: Operation, ttl: real, max: nat): Entries
    requires max >= 1
  {
    match op
    case Create(id, now) => Created(entries, id, now, ttl, max)
    case Get(id, now) => Got(entries, id, now, ttl, max).0
    case Delete(id) => Without(entries, id)
  }

  function Run(ops: seq<Operation>, ttl: real, max: nat): Entries
    requires max >= 1
  {
    if ops == [] then [] else Apply(Run(ops[..|ops| - 1], ttl, max), ops[|ops| - 1], ttl, max)
  }

  /** The clock never goes back. */
  predicate Monotone(ops: seq<Operation>, clock: real) {
    forall i :: 0 <= i < |ops| && !ops[i].Delete? ==>
      ops[i].now <= clock && forall j :: 0 <= j < i && !ops[j].Delete? ==> ops[j].now <= ops[i].now
  }

  /** Every new session gets an identifier that is not in use. */
  predicate FreshIds(ops: seq<Operation>, ttl: real, max: nat)
    requires max >= 1
  {
    ops == []
    || (FreshIds(ops[..|ops| - 1], ttl, max)
        && (ops[|ops| - 1].Create? ==> !Stores(Run(ops[..|ops| - 1], ttl, max), ops[|ops| - 1].id)))
  }

  lemma TailIsSorted(entries: Entries, clock: real)
    requires SortedUntil(entries, clock) && entries != []
    ensures SortedUntil(entries[1..], clock) && forall e <- entries[1..] :: entries[0].lastSeen <= e.lastSeen
  {
  }

  /** Entries picked from behind the first one stay behind it. */
  lemma HeadStaysFirst(entries: Entries, part: Entries, clock: real)
    requires SortedUntil(entries, clock) && entries != [] && SortedUntil(part, clock)
    requires forall e <- part :: e in entries[1..]
    ensures SortedUntil([entries[0]] + part, clock)
  {
    TailIsSorted(entries, clock);
    assert forall i :: 0 <= i < |part| ==> part[i] in entries[1..];
  }

  lemma {:induction false} UnexpiredIsSorted(entries: Entries, now: real, ttl: real, clock: real)
    requires SortedUntil(entries, clock)
    ensures SortedUntil(Unexpired(entries, now, ttl), clock)
  {
    hide SortedUntil;
    if entries == [] {
      NothingIsSorted(clock);
    } else {
      TailIsSorted(entries, clock);
      UnexpiredIsSorted(entries[1..], now, ttl, clock);
      HeadStaysFirst(entries, Unexpired(entries[1..], now, ttl), clock);
    }
  }

  lemma {:induction false} WithoutIsSorted(entries: Entries, id: string, clock: real)
    requires SortedUntil(entries, clock)
    ensures SortedUntil(Without(entries, id), clock)
  {
    hide SortedUntil;
    if entries == [] {
      NothingIsSorted(clock);
    } else {
      TailIsSorted(entries, clock);
      WithoutIsSorted(entries[1..], id, clock);
      HeadStaysFirst(entries, Without(entries[1..], id), clock);
    }
  }

  lemma PrunedIsSorted(entries: Entries, now: real, ttl: real, max: nat, clock: real)
    requires max >= 1 && SortedUntil(entries, clock)
    ensures SortedUntil(Pruned(entries, now, ttl, max), clock)
  {
    hide Unexpired;
    UnexpiredIsSorted(entries, now, ttl, clock);
  }

  lemma AppendIsSorted(entries: Entries, id: string, clock: real, now: real)
    requires SortedUntil(entries, clock) && clock <= now
    ensures SortedUntil(entries + [Entry(id, now)], now)
  {
  }

  lemma AppendDiffers(entries: Entries, id: string, now: real)
    requires IdsDiffer(entries) && !Stores(entries, id)
    ensures IdsDiffer(entries + [Entry(id, now)])
  {
  }

  /** One operation at a time that no earlier one has passed. */
  lemma ApplyKeepsOrder(entries: Entries, op: Operation, ttl: real, max: nat, clock: real, now: real)
    requires max >= 1 && SortedUntil(entries, clock) && IdsDiffer(entries) && |entries| <= max && clock <= now
    requires op.Create? ==> !Stores(entries, op.id)
    requires !op.Delete? ==> op.now == now
    ensures var after := Apply(entries, op, ttl, max);
            && SortedUntil(after, now) && IdsDiffer(after) && |after| <= max
            && (op.Get? ==> |after| <= max - 1)
  {
    hide Unexpired, Newest, Without, SortedUntil, IdsDiffer, Stores;
    match op {
      case Create(id, _) =>
        PrunedIsSorted(entries, now, ttl, max, clock);
        PrunedDiffers(entries, now, ttl, max);
        OnlyStoredIsFound(entries, id, now, ttl, max);
        AppendIsSorted(Pruned(entries, now, ttl, max), id, clock, now);
        AppendDiffers(Pruned(entries, now, ttl, max), id, now);
      case Get(id, _) =>
        var kept := Pruned(entries, now, ttl, max);
        PrunedIsSorted(entries, now, ttl, max, clock);
        PrunedDiffers(entries, now, ttl, max);
        WithoutIsSorted(kept, id, clock);
        WithoutDiffers(kept, id);
        WithoutLacks(kept, id);
        AppendIsSorted(Without(kept, id), id, clock, now);
        AppendDiffers(Without(kept, id), id, now);
        LaterIsSorted(kept, clock, now);
      case Delete(id) =>
        WithoutIsSorted(entries, id, clock);
        WithoutDiffers(entries, id);
        LaterIsSorted(Without(entries, id), clock, now);
    }
  }

  lemma WithoutLacks(entries: Entries, id: string)
    ensures !Stores(Without(entries, id), id)
  {
    hide Without;
    var kept := Without(entries, id);
    assert forall i :: 0 <= i < |kept| ==> kept[i] in kept;
  }

  lemma LaterIsSorted(entries: Entries, clock: real, now: real)
    requires SortedUntil(entries, clock) && clock <= now
    ensures SortedUntil(entries, now)
  {
  }

  /** Over every run the store stays in order of last use and within its limit. */
  lemma {:induction false} StoreStaysSorted(ops: seq<Operation>, ttl: real, max: nat, clock: real)
    requires max >= 1 && FreshIds(ops, ttl, max) && Monotone(ops, clock)
    ensures var entries := Run(ops, ttl, max);
            && SortedUntil(entries, clock) && IdsDiffer(entries) && |entries| <= max
            && (ops != [] && ops[|ops| - 1].Get? ==> |entries| <= max - 1)
  {
    hide Apply, SortedUntil, IdsDiffer;
    if ops == [] {
      NothingIsSorted(clock);
    } else {
      var before, op := ops[..|ops| - 1], ops[|ops| - 1];
      var now := if op.Delete? then clock else op.now;
      assert Monotone(before, now) by {
        forall i | 0 <= i < |before| && !before[i].Delete? ensures before[i].now <= now { assert before[i] == ops[i]; }
      }
      StoreStaysSorted(before, ttl, max, now);
      ApplyKeepsOrder(Run(before, ttl, max), op, ttl, max, now, now);
      LaterIsSorted(Run(ops, ttl, max), now, clock);
    }
  }

  lemma NothingIsSorted(clock: real)
    ensures SortedUntil([], clock) && IdsDiffer([])
  {
  }

  /** With room for two, two sessions that have just been opened: looking the first one up drops it. */
  lemma AFullStoreDropsWhatIsAskedFor(ttl: real)
    requires ttl >= 0.0
    ensures var entries := Run([Create("a", 0.0), Create("b", 0.0)], ttl, 2);
            && Stores(entries, "a") && Stores(entries, "b")
            && Got(entries, "a", 0.0, ttl, 2) == ([Entry("b", 0.0)], false)
  {
    hide Got;
    var a, b := Entry("a", 0.0), Entry("b", 0.0);
    var ops := [Create("a", 0.0), Create("b", 0.0)];
    assert ops[..1] == [Create("a", 0.0)] && ops[..1][..0] == [];
    assert Run(ops[..1][..0], ttl, 2) == [];
    assert [] + [a] == [a] && [a] + [b] == [a, b];
    TwoUnexpired(a, b, ttl);
    assert Run(ops[..1], ttl, 2) == [a];
    var entries := Run(ops, ttl, 2);
    assert entries == [a, b] && entries[0] == a && entries[1] == b;
    FirstIsDropped(a, b, ttl);
  }

  lemma TwoUnexpired(a: Entry, b: Entry, ttl: real)
    requires !IsExpired(a, 0.0, ttl) && !IsExpired(b, 0.0, ttl)
    ensures Unexpired([], 0.0, ttl) == [] && Unexpired([a], 0.0, ttl) == [a] && Unexpired([a, b], 0.0, ttl) == [a, b]
  {
    assert [a, b][1..] == [b] && [b][1..] == [] && [a][1..] == [];
    assert [a] + [b] == [a, b] && [a] + [] == [a] && [b] + [] == [b];
  }

  lemma FirstIsDropped(a: Entry, b: Entry, ttl: real)
    requires !IsExpired(a, 0.0, ttl) && !IsExpired(b, 0.0, ttl) && a.id != b.id
    ensures Got([a, b], a.id, 0.0, ttl, 2) == ([b], false)
  {
    hide Unexpired;
    TwoUnexpired(a, b, ttl);
    assert [a, b][1..] == [b];
  }

  // ---- when a session was last used ----

  datatype Use = Never | At(time: real)

  /** The last creation of the session, or the last look-up that found it, unless it was deleted since. */
  function LastUse(ops: seq<Operation>, ttl: real, max: nat, id: string): Use
    requires max >= 1
  {
    if ops == [] then Never
    else
      var before, op := ops[..|ops| - 1], ops[|ops| - 1];
      if op.id != id then LastUse(before, ttl, max, id)
      else match op
           case Create(_, now) => At(now)
           case Delete(_) => Never
           case Get(_, now) =>
             if Got(Run(before, ttl, max), id, now, ttl, max).1 then At(now) else LastUse(before, ttl, max, id)
  }

  lemma WhatIsKept(entries: Entries, now: real, ttl: real, max: nat)
    requires max >= 1
    ensures forall e <- Pruned(entries, now, ttl, max) :: e in entries
  {
    hide Unexpired;
    var young := Unexpired(entries, now, ttl);
    var kept := Pruned(entries, now, ttl, max);
    forall e <- kept ensures e in entries { assert e in young; }
  }

  lemma NotStored(entries: Entries, id: string)
    ensures Stores(entries, id) <==> exists e <- entries :: e.id == id
  {
    if Stores(entries, id) {
      var i :| 0 <= i < |entries| && entries[i].id == id;
      assert entries[i] in entries;
    }
    if e :| e in entries && e.id == id {
      var i :| 0 <= i < |entries| && entries[i] == e;
    }
  }

  /** Every stored session carries the time of its last use. */
  lemma {:induction false} StoredSinceLastUse(ops: seq<Operation>, ttl: real, max: nat)
    requires max >= 1 && FreshIds(ops, ttl, max)
    ensures forall e <- Run(ops, ttl, max) :: LastUse(ops, ttl, max, e.id) == At(e.lastSeen)
  {
    hide Unexpired, Newest, Pruned, Without, Stores;
    if ops != [] {
      var before, op := ops[..|ops| - 1], ops[|ops| - 1];
      var entries := Run(before, ttl, max);
      StoredSinceLastUse(before, ttl, max);
      if !op.Delete? {
        WhatIsKept(entries, op.now, ttl, max);
        NotStored(entries, op.id);
        NotStored(Pruned(entries, op.now, ttl, max), op.id);
      }
    }
  }

  /** With fresh ids no two stored sessions share one, whatever the clock does. */
  lemma {:induction false} IdsStayDifferent(ops: seq<Operation>, ttl: real, max: nat)
    requires max >= 1 && FreshIds(ops, ttl, max)
    ensures IdsDiffer(Run(ops, ttl, max))
  {
    hide Unexpired, Newest, Without, Pruned, Stores, IdsDiffer;
    if ops == [] {
      NothingIsSorted(0.0);
    } else {
      var before, op := ops[..|ops| - 1], ops[|ops| - 1];
      var entries := Run(before, ttl, max);
      IdsStayDifferent(before, ttl, max);
      match op {
        case Create(id, now) =>
          PrunedDiffers(entries, now, ttl, max);
          OnlyStoredIsFound(entries, id, now, ttl, max);
          AppendDiffers(Pruned(entries, now, ttl, max), id, now);
        case Get(id, now) =>
          var kept := Pruned(entries, now, ttl, max);
          PrunedDiffers(entries, now, ttl, max);
          WithoutDiffers(kept, id);
          WithoutLacks(kept, id);
          AppendDiffers(Without(kept, id), id, now);
        case Delete(id) => WithoutDiffers(entries, id);
      }
    }
  }

  /**
   * Over every run, a look-up finds a session exactly if it is still stored, its last creation or successful look-up
   * was at most `ttl` before, and fewer than `max - 1` of the sessions behind it are as young as that.
   */
  lemma FoundSinceLastUse(ops: seq<Operation>, id: string, now: real, ttl: real, max: nat)
    requires max >= 1 && FreshIds(ops, ttl, max)
    ensures var entries, last := Run(ops, ttl, max), LastUse(ops, ttl, max, id);
            Got(entries, id, now, ttl, max).1
            <==> exists i :: 0 <= i < |entries| && entries[i].id == id
                             && last.At? && last.time == entries[i].lastSeen && now - last.time <= ttl
                             && |set j | i < j < |entries| && now - entries[j].lastSeen <= ttl| < max - 1
  {
    hide Got, Run, LastUse, FreshIds;
    var entries := Run(ops, ttl, max);
    IdsStayDifferent(ops, ttl, max);
    StoredSinceLastUse(ops, ttl, max);
    forall i | 0 <= i < |entries| && entries[i].id == id
      ensures LastUse(ops, ttl, max, id) == At(entries[i].lastSeen)
      ensures Got(entries, id, now, ttl, max).1
         <==> now - entries[i].lastSeen <= ttl
              && |set j | i < j < |entries| && now - entries[j].lastSeen <= ttl| < max - 1
    {
      assert entries[i] in entries;
      GetSucceedsIff(entries, i, now, ttl, max);
    }
    if !Stores(entries, id) { NeverFound(entries, id, now, ttl, max); }
  }

  lemma NeverFound(entries: Entries, id: string, now: real, ttl: real, max: nat)
    requires max >= 1 && !Stores(entries, id)
    ensures !Got(entries, id, now, ttl, max).1
  {
    hide Pruned;
    OnlyStoredIsFound(entries, id, now, ttl, max);
  }

  // ---- which sessions an operation leaves ----

  /** The session was used at most `ttl` before, and so were fewer than `max - 1` of those used after it. */
  predicate Survives(entries: Entries, i: nat, now: real, ttl: real, max: nat)
    requires i < |entries|
  {
    now - entries[i].lastSeen <= ttl && |set j | i < j < |entries| && now - entries[j].lastSeen <= ttl| < max - 1
  }

  lemma PrunedSurvive(entries: Entries, now: real, ttl: real, max: nat, e: Entry)
    requires max >= 1 && IdsDiffer(entries)
    ensures e in Pruned(entries, now, ttl, max)
       <==> exists i :: 0 <= i < |entries| && entries[i] == e && Survives(entries, i, now, ttl, max)
  {
    hide Pruned, Unexpired;
    var kept := Pruned(entries, now, ttl, max);
    WhatIsKept(entries, now, ttl, max);
    PrunedDiffers(entries, now, ttl, max);
    forall i | 0 <= i < |entries| ensures Survives(entries, i, now, ttl, max) <==> Stores(kept, entries[i].id) {
      GetSucceedsIff(entries, i, now, ttl, max);
    }
    if i :| 0 <= i < |entries| && entries[i] == e {
      NotStored(kept, e.id);
      if d :| d in kept && d.id == e.id { SameIdSameEntry(entries, d, e); }
    }
  }

  lemma SameIdSameEntry(entries: Entries, d: Entry, e: Entry)
    requires IdsDiffer(entries) && d in entries && e in entries && d.id == e.id
    ensures d == e
  {
    var i, j :| 0 <= i < |entries| && 0 <= j < |entries| && entries[i] == d && entries[j] == e;
    assert entries[i].id == entries[j].id;
  }

  /**
   * What each operation leaves: a creation adds its session, used now, behind the survivors; a look-up that succeeds
   * moves its session behind them, used now; a deletion takes out its session alone.
   */
  lemma WhatIsLeft(entries: Entries, op: Operation, ttl: real, max: nat, e: Entry)
    requires max >= 1 && IdsDiffer(entries)
    ensures var after := Apply(entries, op, ttl, max);
            var survives := exists i ::
              0 <= i < |entries| && entries[i] == e && !op.Delete? && Survives(entries, i, op.now, ttl, max);
            match op
            case Create(id, now) =>
              after != [] && after[|after| - 1] == Entry(id, now) && (e in after <==> e == Entry(id, now) || survives)
            case Get(id, now) =>
              var found := exists i :: 0 <= i < |entries| && entries[i].id == id && Survives(entries, i, now, ttl, max);
              if found then
                && after != [] && after[|after| - 1] == Entry(id, now)
                && (e in after <==> e == Entry(id, now) || (survives && e.id != id))
              else e in after <==> survives
            case Delete(id) => e in after <==> e in entries && e.id != id
  {
    hide Pruned, Without;
    if op.Delete? {
      WithoutKeeps(entries, op.id, e);
    } else {
      var kept := Pruned(entries, op.now, ttl, max);
      PrunedSurvive(entries, op.now, ttl, max, e);
      if op.Get? {
        WithoutKeeps(kept, op.id, e);
        NotStored(kept, op.id);
        if Stores(kept, op.id) {
          var d :| d in kept && d.id == op.id;
          PrunedSurvive(entries, op.now, ttl, max, d);
        }
        if i :| 0 <= i < |entries| && entries[i].id == op.id && Survives(entries, i, op.now, ttl, max) {
          PrunedSurvive(entries, op.now, ttl, max, entries[i]);
        }
      }
    }
  }

  lemma {:induction false} WithoutKeeps(entries: Entries, id: string, e: Entry)
    ensures e in Without(entries, id) <==> e in entries && e.id != id
  {
    if entries != [] {
      WithoutKeeps(entries[1..], id, e);
      assert entries == [entries[0]] + entries[1..];
    }
  }
}
