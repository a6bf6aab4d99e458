/** What every interleaving of transactions promises: accepted rows, fresh numbers, and atomicity when left alone. */
module TransactionLaws {
  import opened Enquiries
  import opened Ledger
  import opened Counters
  import opened Transactions
  import Tokeniser

  // ---- an enquiry was confirmed first ----

  /** A confirmation of this row by this user that went through. */
  predicate IsMark(t: Transaction, who: Principal, id: nat) {
    t.request == ToConfirm(who, id) && t.progress == Done(Marked(Confirmed))
  }

  /** The row's owner has confirmed it, unless it was confirmed from the start. */
  predicate WasConfirmed(start: Db, s: System, id: nat)
    requires id < |s.db.confirmations|
  {
    || (id < |start.confirmations| && start.confirmations[id].status == Confirmed)
    || exists t <- s.transactions :: IsMark(t, s.db.confirmations[id].owner, id)
  }

  /** The check that the consumption rests on read the clock before the deadline. */
  predicate WasInTime(c: Confirmation) { c.consumedAt.Some? && c.consumedAt.value < c.expiresAt }

  /**
   * A row confirmed, a consumer about to write, and an enquiry added: each has the owner's confirmation behind it, and
   * the last a check in time.
   */
  ghost predicate MarksPrecede(start: Db, s: System) {
    && start.enquiries <= s.db.enquiries
    && (forall id :: 0 <= id < |s.db.confirmations| && s.db.confirmations[id].status == Confirmed ==>
          WasConfirmed(start, s, id))
    && (forall t <- s.transactions ::
          t.request.ToConsume? && IsWriting(t.progress) && t.request.id < |s.db.confirmations| ==>
            WasConfirmed(start, s, t.request.id))
    && forall i :: |start.enquiries| <= i < |s.db.enquiries|
                   && s.db.enquiries[i].confirmation < |s.db.confirmations| ==>
         WasConfirmed(start, s, s.db.enquiries[i].confirmation)
         && WasInTime(s.db.confirmations[s.db.enquiries[i].confirmation])
  }

  /** What one step does to confirmed rows, to consumers about to write and to marks. */
  lemma AdvanceConfirms(s: System, hash: Payload -> Digest, t: Transaction, now: real)
    requires Knows(s.db, t)
    ensures var (db, progress) := Advance(s, hash, t, now);
            && Moves(s.db, t, db)
            && (forall id :: 0 <= id < |s.db.confirmations| && db.confirmations[id].status == Confirmed ==>
                  s.db.confirmations[id].status == Confirmed
                  || IsMark(t.(progress := progress), s.db.confirmations[id].owner, id))
            && (t.request.ToConsume? && IsWriting(progress) ==>
                  IsWriting(t.progress)
                  || (t.request.id < |s.db.confirmations| && s.db.confirmations[t.request.id].status == Confirmed))
            && (t.progress.Done? ==> progress == t.progress)
            && (forall id :: 0 <= id < |s.db.confirmations| ==>
                  db.confirmations[id].consumedAt == s.db.confirmations[id].consumedAt
                  || WasInTime(db.confirmations[id]))
            && (|db.enquiries| > |s.db.enquiries| ==> WasInTime(db.confirmations[t.request.id]))
  {
    hide EnquiryFor, Violates, SupportIdTaken, RowFree, CounterFree, Tokeniser.Strip, EnquiryId, SupportId;
  }

  /** A confirmation once made stays made. */
  lemma ConfirmedStays(start: Db, s: System, after: System, id: nat)
    requires id < |s.db.confirmations| <= |after.db.confirmations| && WasConfirmed(start, s, id)
    requires after.db.confirmations[id].owner == s.db.confirmations[id].owner
    requires |s.transactions| <= |after.transactions|
    requires forall i :: 0 <= i < |s.transactions| && s.transactions[i].progress.Done? ==>
               after.transactions[i] == s.transactions[i]
    ensures WasConfirmed(start, after, id)
  {
    if t :| t in s.transactions && IsMark(t, s.db.confirmations[id].owner, id) {
      var i :| 0 <= i < |s.transactions| && s.transactions[i] == t;
      assert after.transactions[i] == t;
    }
  }

  lemma StepKeepsMarks(start: Db, s: System, hash: Payload -> Digest, t: nat, now: real)
    requires AllKnow(s) && MarksPrecede(start, s) && t < |s.transactions|
    ensures MarksPrecede(start, Next(s, hash, Step(t, now)))
  {
    hide Advance, Knows, WasConfirmed, IsMark;
    var me := s.transactions[t];
    assert me in s.transactions;
    var after := Next(s, hash, Step(t, now));
    AdvanceConfirms(s, hash, me, now);
    forall id | 0 <= id < |s.db.confirmations| && WasConfirmed(start, s, id) ensures WasConfirmed(start, after, id) {
      ConfirmedStays(start, s, after, id);
    }
    forall id | 0 <= id < |after.db.confirmations| && after.db.confirmations[id].status == Confirmed
      ensures WasConfirmed(start, after, id)
    {
      assert after.db.confirmations[id].owner == s.db.confirmations[id].owner;
      if s.db.confirmations[id].status != Confirmed { MarkConfirms(start, after, t, id); }
    }
    forall id | 0 <= id < |s.db.confirmations| && WasInTime(s.db.confirmations[id])
      ensures WasInTime(after.db.confirmations[id])
    {
      assert SameTerms(s.db.confirmations[id], after.db.confirmations[id]);
    }
    forall u <- after.transactions
      | u.request.ToConsume? && IsWriting(u.progress) && u.request.id < |after.db.confirmations|
      ensures WasConfirmed(start, after, u.request.id)
    {
      if u !in s.transactions { assert u == after.transactions[t]; }
    }
  }

  lemma MarkConfirms(start: Db, s: System, t: nat, id: nat)
    requires t < |s.transactions| && id < |s.db.confirmations|
    requires IsMark(s.transactions[t], s.db.confirmations[id].owner, id)
    ensures WasConfirmed(start, s, id)
  {
    assert s.transactions[t] in s.transactions;
  }

  /** An event that is no step: it confirms no row, writes no enquiry and brings no consumer further. */
  lemma QuietEventKeepsMarks(start: Db, s: System, hash: Payload -> Digest, e: Transactions.Event)
    requires AllKnow(s) && MarksPrecede(start, s) && !e.Step?
    requires forall i :: 0 <= i < |s.db.enquiries| ==> s.db.enquiries[i].confirmation < |s.db.confirmations|
    ensures MarksPrecede(start, Next(s, hash, e))
  {
    hide WasConfirmed, KeyTaken, Existing, EnquiryFor, NamesEnquiry;
    var after := Next(s, hash, e);
    assert s.db.confirmations <= after.db.confirmations && after.db.enquiries == s.db.enquiries;
    assert forall id :: |s.db.confirmations| <= id < |after.db.confirmations| ==>
      after.db.confirmations[id].status == Pending;
    forall id | 0 <= id < |s.db.confirmations| && WasConfirmed(start, s, id) ensures WasConfirmed(start, after, id) {
      ConfirmedStays(start, s, after, id);
    }
    forall u <- after.transactions
      | u.request.ToConsume? && IsWriting(u.progress) && u.request.id < |after.db.confirmations|
      ensures WasConfirmed(start, after, u.request.id)
    {
      assert u in s.transactions && Knows(s.db, u);
    }
  }

  /** Over every interleaving, the owner's confirmation comes before the consumer that writes and before the enquiry. */
  lemma {:induction false} ConfirmationsPrecede(start: Db, hash: Payload -> Digest, events: seq<Transactions.Event>)
    requires Owned(start) && OnePerConfirmation(start)
    ensures MarksPrecede(start, Transactions.Run(start, hash, events))
  {
    hide Next, OnePerConfirmation, Exclusive, AllKnow, CreatorsDiffer, MarksPrecede;
    if events == [] {
      NothingToPrecede(start);
    } else {
      var s, e := Transactions.Run(start, hash, events[..|events| - 1]), events[|events| - 1];
      ConfirmationsPrecede(start, hash, events[..|events| - 1]);
      RunsAreOk(start, hash, events[..|events| - 1]);
      assert forall i :: 0 <= i < |s.db.enquiries| ==> IsOfItsRow(s.db, s.db.enquiries[i]);
      if !e.Step? { QuietEventKeepsMarks(start, s, hash, e); }
      else if e.t < |s.transactions| { StepKeepsMarks(start, s, hash, e.t, e.now); }
      else { IdleStep(s, hash, e.t, e.now); }
    }
  }

  lemma NothingToPrecede(start: Db)
    ensures MarksPrecede(start, System(start, []))
  {
  }

  /**
   * Every enquiry that an interleaving adds has the buyer, the details and the key of its row, it rests on a check made
   * before the deadline, and the buyer confirmed that row: a confirmation of it by its owner went through, unless it
   * was confirmed at the start.
   */
  lemma EveryEnquiryWasConfirmed(start: Db, hash: Payload -> Digest, events: seq<Transactions.Event>, i: nat)
    requires Owned(start) && OnePerConfirmation(start)
    requires |start.enquiries| <= i < |Transactions.Run(start, hash, events).db.enquiries|
    ensures var s := Transactions.Run(start, hash, events);
            var e := s.db.enquiries[i];
            && IsOfItsRow(s.db, e) && WasInTime(s.db.confirmations[e.confirmation])
            && ((e.confirmation < |start.confirmations| && start.confirmations[e.confirmation].status == Confirmed)
                || exists t <- s.transactions :: IsMark(t, e.buyer, e.confirmation))
  {
    hide Transactions.Run, IsMark, Exclusive, AllKnow, CreatorsDiffer, OnePerConfirmation;
    RunsAreOk(start, hash, events);
    ConfirmationsPrecede(start, hash, events);
    var s := Transactions.Run(start, hash, events);
    assert IsOfItsRow(s.db, s.db.enquiries[i]);
    assert WasConfirmed(start, s, s.db.enquiries[i].confirmation);
  }

  // ---- the numbers are fresh ----

  /**
   * From the migrated counters on, over every interleaving, no display id is handed out twice and none that was in use
   * before, and the next one of each kind is free; so a locked counter's number never violates a unique constraint.
   */
  lemma InterleavedNumbersAreFresh(
      start: Db, hash: Payload -> Digest, events: seq<Transactions.Event>, workspace: string)
    requires Owned(start) && OnePerConfirmation(start)
    requires workspace in start.counters && GoesOn(start, workspace, start.counters[workspace])
    ensures var s := Transactions.Run(start, hash, events);
            && CountsFrom(start, s.db, workspace) && OnlyFreshIds(start, s.db, workspace)
            && !DisplayIdTaken(s.db, workspace, EnquiryId(s.db.counters[workspace].enquiryNext))
            && !SupportIdTaken(s.db, workspace, SupportId(s.db.counters[workspace].supportNext))
            && forall t <- s.transactions :: t.request.who.workspace == workspace ==>
                 && (t.progress.CounterLocked? ==> !DisplayIdTaken(s.db, workspace, EnquiryId(t.progress.n)))
                 && (t.progress.SupportLocked? ==> !SupportIdTaken(s.db, workspace, SupportId(t.progress.n)))
  {
    hide Transactions.Run, Exclusive, CreatorsDiffer, Owned, OnePerConfirmation, DisplayIdTaken, SupportIdTaken,
         EnquiryId, SupportId, GoesOn, CountsFrom, OnlyFreshIds, EnquiryFor, NamesEnquiry;
    InterleavedNumbersAreGapFree(start, hash, events, workspace);
    RunsAreOk(start, hash, events);
    CountedNumbersAreFresh(start, Transactions.Run(start, hash, events).db, workspace);
  }

  // ---- left alone, a transaction is one call ----

  /** The steps of one transaction with nothing in between, at these times. */
  function Alone(s: System, hash: Payload -> Digest, t: nat, times: seq<real>): System
    decreases |times|
  {
    if times == [] then s else Alone(Next(s, hash, Step(t, times[0])), hash, t, times[1..])
  }

  /** The call of the service that a request stands for; a consumer reads the clock in its third step. */
  function CallOf(r: Request, times: seq<real>): ServiceCall
    requires |times| == 5
  {
    match r
    case ToConsume(who, id, payload) => ConsumeCall(who, id, payload, times[2])
    case ToConfirm(who, id) => ConfirmCall(who, id, times[0])
    case ToCancel(who, id) => CancelCall(who, id)
    case ToSupport(who, text) => SupportCall(who, text)
  }

  /** The transaction's result says what the call answers. */
  predicate Answers(db: Db, hash: Payload -> Digest, call: ServiceCall, result: Transactions.Result) {
    match call
    case ConsumeCall(who, id, payload, now) => result == Ended(Consume(db, hash, who, id, payload, now).1)
    case ConfirmCall(who, id, now) => Confirm(db, who, id, now).1 <==> result == Marked(Confirmed)
    case CancelCall(who, id) => Cancel(db, who, id).1 <==> result == Marked(Cancelled)
    case SupportCall(who, text) => result == Supported(RequestSupport(db, who, text).1)
    case PrepareCall(_, _, _, _, _) => false
  }

  lemma AloneStops(s: System, hash: Payload -> Digest, t: nat)
    ensures Alone(s, hash, t, []) == s
  {
  }

  lemma AloneMoves(s: System, hash: Payload -> Digest, t: nat, now: real, later: seq<real>)
    ensures Alone(s, hash, t, [now] + later) == Alone(Next(s, hash, Step(t, now)), hash, t, later)
  {
    hide Next;
    assert ([now] + later)[1..] == later;
  }

  lemma AloneFive(s: System, hash: Payload -> Digest, t: nat, times: seq<real>)
    requires |times| == 5
    ensures var s1 := Next(s, hash, Step(t, times[0]));
            var s2 := Next(s1, hash, Step(t, times[1]));
            var s3 := Next(s2, hash, Step(t, times[2]));
            var s4 := Next(s3, hash, Step(t, times[3]));
            Alone(s, hash, t, times) == Next(s4, hash, Step(t, times[4]))
  {
    hide Next, Alone;
    var s1 := Next(s, hash, Step(t, times[0]));
    var s2 := Next(s1, hash, Step(t, times[1]));
    var s3 := Next(s2, hash, Step(t, times[2]));
    var s4 := Next(s3, hash, Step(t, times[3]));
    assert times == [times[0]] + times[1..] && times[1..] == [times[1]] + times[2..];
    assert times[2..] == [times[2]] + times[3..] && times[3..] == [times[3]] + times[4..];
    assert times[4..] == [times[4]] + [];
    AloneMoves(s, hash, t, times[0], times[1..]);
    AloneMoves(s1, hash, t, times[1], times[2..]);
    AloneMoves(s2, hash, t, times[2], times[3..]);
    AloneMoves(s3, hash, t, times[3], times[4..]);
    AloneMoves(s4, hash, t, times[4], []);
    AloneStops(Next(s4, hash, Step(t, times[4])), hash, t);
  }

  /** A system in which one transaction has come this far. */
  function At(s: System, t: nat, progress: Progress): System
    requires t < |s.transactions|
  {
    s.(transactions := s.transactions[t := s.transactions[t].(progress := progress)])
  }

  /** No other transaction holds what this one needs. */
  ghost predicate Undisturbed(s: System, t: nat)
    requires t < |s.transactions|
  {
    && (!s.transactions[t].request.ToSupport? ==> RowFree(s, s.transactions[t].request.id))
    && CounterFree(s, s.transactions[t].request.who.workspace)
  }

  lemma CounterStaysFree(s: System, t: nat, progress: Progress, workspace: string)
    requires t < |s.transactions| && CounterFree(s, workspace)
    requires !progress.CounterLocked? && !progress.SupportLocked?
    ensures CounterFree(At(s, t, progress), workspace)
  {
  }

  /** The transaction is over, with the effect and the answer of this one call, and nothing else has changed. */
  ghost predicate IsOneCall(s: System, hash: Payload -> Digest, t: nat, call: ServiceCall, after: System)
    requires t < |s.transactions|
  {
    && |after.transactions| == |s.transactions|
    && after.transactions[t].progress.Done?
    && after == At(s, t, after.transactions[t].progress).(db := Apply(s.db, hash, call))
    && Answers(s.db, hash, call, after.transactions[t].progress.result)
  }

  lemma MarkAlone(s: System, hash: Payload -> Digest, t: nat, times: seq<real>)
    requires t < |s.transactions| && s.transactions[t].progress.Begun? && |times| == 5 && Undisturbed(s, t)
    requires s.transactions[t].request.ToConfirm? || s.transactions[t].request.ToCancel?
    ensures IsOneCall(s, hash, t, CallOf(s.transactions[t].request, times), Alone(s, hash, t, times))
  {
    hide Alone, CounterFree;
    AloneFive(s, hash, t, times);
    var s1 := Next(s, hash, Step(t, times[0]));
    var s2 := Next(s1, hash, Step(t, times[1]));
    assert RowFree(s1, s.transactions[t].request.id);
    assert s2.transactions[t].progress.Done?;
    assert Next(s2, hash, Step(t, times[2])) == s2;
  }

  lemma SupportAlone(s: System, hash: Payload -> Digest, t: nat, times: seq<real>)
    requires t < |s.transactions| && s.transactions[t].progress.Begun? && |times| == 5 && Undisturbed(s, t)
    requires s.transactions[t].request.ToSupport?
    ensures IsOneCall(s, hash, t, CallOf(s.transactions[t].request, times), Alone(s, hash, t, times))
  {
    hide Alone, CounterFree, Tokeniser.Strip, SupportIdTaken, SupportId;
    AloneFive(s, hash, t, times);
    var s1 := Next(s, hash, Step(t, times[0]));
    var s2 := Next(s1, hash, Step(t, times[1]));
    assert s2.transactions[t].progress.Done?;
    assert Next(s2, hash, Step(t, times[2])) == s2;
  }

  /** Once it is over, a transaction takes no further step. */
  lemma DoneIsDone(s: System, hash: Payload -> Digest, t: nat, now: real)
    requires t < |s.transactions| && s.transactions[t].progress.Done?
    ensures Next(s, hash, Step(t, now)) == s
  {
    hide RowFree, CounterFree, EnquiryFor, Violates, EnquiryId, SupportId, SupportIdTaken, Tokeniser.Strip;
    assert s.transactions[t := s.transactions[t]] == s.transactions;
  }

  /** The consumer's first two steps: it finds its row, takes the lock and looks for an enquiry. */
  lemma ConsumerLooksUp(s: System, hash: Payload -> Digest, t: nat, now: real, later: real)
    requires t < |s.transactions| && s.transactions[t].progress.Begun? && s.transactions[t].request.ToConsume?
    requires Undisturbed(s, t)
    ensures var r := s.transactions[t].request;
            var existing := EnquiryFor(s.db.enquiries, r.who.workspace, r.id);
            Next(Next(s, hash, Step(t, now)), hash, Step(t, later))
            == At(s, t, if !Owns(s.db, r.who, r.id) then Done(Ended(Refused(NotFound)))
                        else if existing.Some? then Held(Replayed(existing.value)) else NoEnquiryYet)
  {
    hide CounterFree, EnquiryFor, RowFree;
  }

  /** The consumer's last three steps, once it has found no enquiry. */
  lemma ConsumerCommits(s: System, hash: Payload -> Digest, t: nat, times: seq<real>)
    requires t < |s.transactions| && s.transactions[t].progress.NoEnquiryYet? && |times| == 5
    requires var r := s.transactions[t].request;
             && r.ToConsume? && Owns(s.db, r.who, r.id) && CounterFree(s, r.who.workspace)
             && EnquiryFor(s.db.enquiries, r.who.workspace, r.id).None?
    ensures var s3 := Next(s, hash, Step(t, times[2]));
            var s4 := Next(s3, hash, Step(t, times[3]));
            IsOneCall(s, hash, t, CallOf(s.transactions[t].request, times), Next(s4, hash, Step(t, times[4])))
  {
    hide CounterFree, EnquiryFor, Violates, EnquiryId, RowFree;
    var s3 := Next(s, hash, Step(t, times[2]));
    var s4 := Next(s3, hash, Step(t, times[3]));
    var progress := s3.transactions[t].progress;
    if progress.Checked? {
      CounterStaysFree(s, t, progress, s.transactions[t].request.who.workspace);
      assert s3 == At(s, t, progress);
      assert s4.transactions[t].progress.CounterLocked?;
    } else {
      assert s4.transactions[t].progress.Done?;
      DoneIsDone(s4, hash, t, times[4]);
    }
  }

  lemma ConsumerAlone(s: System, hash: Payload -> Digest, t: nat, times: seq<real>)
    requires t < |s.transactions| && s.transactions[t].progress.Begun? && |times| == 5 && Undisturbed(s, t)
    requires s.transactions[t].request.ToConsume?
    ensures IsOneCall(s, hash, t, CallOf(s.transactions[t].request, times), Alone(s, hash, t, times))
  {
    hide Alone, Next, RowFree, CounterFree, EnquiryFor, Violates, EnquiryId;
    var r := s.transactions[t].request;
    AloneFive(s, hash, t, times);
    ConsumerLooksUp(s, hash, t, times[0], times[1]);
    var s2 := Next(Next(s, hash, Step(t, times[0])), hash, Step(t, times[1]));
    var s3 := Next(s2, hash, Step(t, times[2]));
    if s2.transactions[t].progress.NoEnquiryYet? {
      CounterStaysFree(s, t, NoEnquiryYet, r.who.workspace);
      ConsumerCommits(s2, hash, t, times);
    } else {
      if s2.transactions[t].progress.Held? { OutcomeIsReported(s2, hash, t, times[2]); }
      else { DoneIsDone(s2, hash, t, times[2]); }
      DoneIsDone(s3, hash, t, times[3]);
      DoneIsDone(s3, hash, t, times[4]);
    }
  }

  /** A consumer that is refused or replayed lets its lock go and reports. */
  lemma OutcomeIsReported(s: System, hash: Payload -> Digest, t: nat, now: real)
    requires t < |s.transactions| && s.transactions[t].progress.Held? && s.transactions[t].request.ToConsume?
    requires s.transactions[t].request.id < |s.db.confirmations|
    ensures Next(s, hash, Step(t, now)) == At(s, t, Done(Ended(s.transactions[t].progress.outcome)))
  {
    hide RowFree, CounterFree, EnquiryFor, Violates, EnquiryId;
  }

  /**
   * A transaction that finds its locks free and is left alone does, in five steps at any times, what the one call of
   * the service does, and answers what the call answers; the other transactions are as they were.
   */
  lemma AloneIsOneCall(s: System, hash: Payload -> Digest, t: nat, times: seq<real>)
    requires t < |s.transactions| && s.transactions[t].progress.Begun? && |times| == 5 && Undisturbed(s, t)
    ensures IsOneCall(s, hash, t, CallOf(s.transactions[t].request, times), Alone(s, hash, t, times))
  {
    hide *;
    match s.transactions[t].request {
      case ToConsume(_, _, _) => ConsumerAlone(s, hash, t, times);
      case ToSupport(_, _) => SupportAlone(s, hash, t, times);
      case _ => MarkAlone(s, hash, t, times);
    }
  }
}
