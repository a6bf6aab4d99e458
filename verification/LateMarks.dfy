/** What a confirmation does that is written after the row it has read was cancelled, consumed or expired. */
module LateMarks {
  import opened Wrappers
  import opened Enquiries
  import opened Ledger
  import opened Transactions
  import opened TransactionLaws

  /** A confirmation of the row that has read it while it was pending and has still to write. */
  predicate HasRead(s: System, t: nat, id: nat) {
    && t < |s.transactions|
    && s.transactions[t].request.ToConfirm? && s.transactions[t].request.id == id
    && s.transactions[t].progress.Decided? && s.transactions[t].progress.status == Confirmed
  }

  /** That confirmation is written now. */
  predicate IsWrittenLate(s: System, e: Transactions.Event, t: nat, id: nat) {
    e.Step? && e.t == t && HasRead(s, t, id) && RowFree(s, id)
  }

  /** An enquiry of the row has been added since. */
  ghost predicate Adds(before: Db, after: Db, id: nat) {
    exists i :: |before.enquiries| <= i < |after.enquiries| && after.enquiries[i].confirmation == id
  }

  // ---- what a settled row needs ----

  /** As long as no such confirmation is written, a settled row stays settled, for no new reader and no enquiry. */
  lemma SettledStays(s: System, hash: Payload -> Digest, e: Transactions.Event, id: nat)
    requires Ok(s) && id < |s.db.confirmations| && IsSettled(s.db.confirmations[id].status)
    requires forall t: nat :: !IsWrittenLate(s, e, t, id)
    ensures var after := Next(s, hash, e);
            && id < |after.db.confirmations| && IsSettled(after.db.confirmations[id].status)
            && (forall t: nat :: HasRead(after, t, id) ==>
                  HasRead(s, t, id) && after.transactions[t] == s.transactions[t])
            && s.db.enquiries <= after.db.enquiries && !Adds(s.db, after.db, id)
  {
    hide EnquiryFor, Violates, SupportIdTaken, RowFree, CounterFree, EnquiryId, SupportId, KeyTaken, Existing,
         NamesEnquiry, Exclusive, Owned, OnePerConfirmation, CreatorsDiffer;
    WhenSettledIsUndone(s, hash, e, id);
    if e.Step? && e.t < |s.transactions| {
      assert s.transactions[e.t] in s.transactions;
      assert Knows(s.db, s.transactions[e.t]);
      assert !IsWrittenLate(s, e, e.t, id);
      AdvanceMoves(s, hash, s.transactions[e.t], e.now);
    }
  }

  lemma {:induction false} EnquiriesStay(s: System, hash: Payload -> Digest, events: seq<Transactions.Event>)
    requires Ok(s)
    ensures s.db.enquiries <= After(s, hash, events).db.enquiries
    decreases |events|
  {
    hide Next, Ok;
    if events != [] {
      NextIsOk(s, hash, events[0]);
      EnquiriesStayOnce(s, hash, events[0]);
      EnquiriesStay(Next(s, hash, events[0]), hash, events[1..]);
    }
  }

  lemma EnquiriesStayOnce(s: System, hash: Payload -> Digest, e: Transactions.Event)
    requires Ok(s)
    ensures s.db.enquiries <= Next(s, hash, e).db.enquiries
  {
    hide Advance, Exclusive, Owned, OnePerConfirmation, CreatorsDiffer, Knows, KeyTaken, Existing;
    if e.Step? && e.t < |s.transactions| {
      assert s.transactions[e.t] in s.transactions;
      AdvanceMoves(s, hash, s.transactions[e.t], e.now);
    }
  }

  /**
   * From a settled row on, an enquiry of it is added only after a confirmation that had already read the row is
   * written.
   */
  lemma {:induction false} AddedOnlyAfterALateMark(
      s: System, hash: Payload -> Digest, events: seq<Transactions.Event>, id: nat)
    returns (k: nat, t: nat)
    requires Ok(s) && id < |s.db.confirmations| && IsSettled(s.db.confirmations[id].status)
    requires Adds(s.db, After(s, hash, events).db, id)
    ensures k < |events| && HasRead(s, t, id)
    ensures var mid := After(s, hash, events[..k]);
            IsWrittenLate(mid, events[k], t, id) && mid.transactions[t] == s.transactions[t]
    decreases |events|
  {
    hide Next, Ok, HasRead, IsSettled;
    assert events != [];
    var e, rest := events[0], events[1..];
    if u: nat :| IsWrittenLate(s, e, u, id) {
      k, t := 0, u;
      assert events[..0] == [];
      WrittenIsRead(s, e, u, id);
    } else {
      var after := Next(s, hash, e);
      SettledStays(s, hash, e, id);
      NextIsOk(s, hash, e);
      EnquiriesStay(after, hash, rest);
      AddsLater(s.db, after.db, After(after, hash, rest).db, id);
      var j: nat;
      j, t := AddedOnlyAfterALateMark(after, hash, rest, id);
      k := j + 1;
      assert events[..k] == [e] + rest[..j];
      AfterStep(s, hash, e, rest[..j]);
    }
  }

  lemma WrittenIsRead(s: System, e: Transactions.Event, t: nat, id: nat)
    requires IsWrittenLate(s, e, t, id)
    ensures HasRead(s, t, id)
  {
  }

  lemma AddsLater(before: Db, middle: Db, after: Db, id: nat)
    requires before.enquiries <= middle.enquiries && !Adds(before, middle, id) && Adds(before, after, id)
    requires middle.enquiries <= after.enquiries
    ensures Adds(middle, after, id)
  {
    var i :| |before.enquiries| <= i < |after.enquiries| && after.enquiries[i].confirmation == id;
    assert forall k :: 0 <= k < |middle.enquiries| ==> middle.enquiries[k] == after.enquiries[k];
  }

  // ---- over whole runs ----

  /** A cancellation of the row is written. */
  predicate IsCancelled(s: System, e: Transactions.Event, id: nat) {
    IsLateMark(s, e, id) && s.transactions[e.t].request.ToCancel?
  }

  lemma CancelledIsSettled(s: System, hash: Payload -> Digest, e: Transactions.Event, id: nat)
    requires Ok(s) && IsCancelled(s, e, id)
    ensures var after := Next(s, hash, e);
            && id < |after.db.confirmations| && after.db.confirmations[id].status == Cancelled
            && after.transactions[e.t].progress == Done(Marked(Cancelled))
            && after.db.enquiries == s.db.enquiries
            && forall t: nat :: HasRead(after, t, id) ==>
                 HasRead(s, t, id) && after.transactions[t] == s.transactions[t]
  {
    hide Exclusive, Owned, OnePerConfirmation, CreatorsDiffer, EnquiryFor, NamesEnquiry;
    assert s.transactions[e.t] in s.transactions;
    assert Knows(s.db, s.transactions[e.t]);
  }

  lemma RunContinues(start: Db, hash: Payload -> Digest, events: seq<Transactions.Event>, c: nat, n: nat)
    requires c <= n <= |events|
    ensures Transactions.Run(start, hash, events[..n])
         == After(Transactions.Run(start, hash, events[..c]), hash, events[c..n])
  {
    hide After, Transactions.Run;
    assert events[..n] == events[..c] + events[c..n];
    RunIsAfter(start, hash, events[..n]);
    RunIsAfter(start, hash, events[..c]);
    AfterConcat(System(start, []), hash, events[..c], events[c..n]);
  }

  /**
   * An enquiry follows a cancellation of its row that went through only if a confirmation which had read the row before
   * that cancellation is written after it.
   */
  lemma AnEnquiryAfterACancellation(
      start: Db, hash: Payload -> Digest, events: seq<Transactions.Event>, c: nat, n: nat, id: nat)
    returns (k: nat, t: nat)
    requires Owned(start) && OnePerConfirmation(start) && c < n <= |events|
    requires IsCancelled(Transactions.Run(start, hash, events[..c]), events[c], id)
    requires Adds(Transactions.Run(start, hash, events[..c]).db, Transactions.Run(start, hash, events[..n]).db, id)
    ensures c < k < n && HasRead(Transactions.Run(start, hash, events[..c]), t, id)
    ensures var mid := Transactions.Run(start, hash, events[..k]);
            && IsWrittenLate(mid, events[k], t, id)
            && mid.transactions[t] == Transactions.Run(start, hash, events[..c]).transactions[t]
  {
    hide Next, Ok, After, Transactions.Run, HasRead, IsWrittenLate, IsCancelled, Owned, OnePerConfirmation;
    var s := Transactions.Run(start, hash, events[..c]);
    RunsAreOk(start, hash, events[..c]);
    CancelledIsSettled(s, hash, events[c], id);
    NextIsOk(s, hash, events[c]);
    RunStep(start, hash, events, c);
    var rest := events[c + 1..n];
    RunContinues(start, hash, events, c + 1, n);
    var j: nat;
    j, t := AddedOnlyAfterALateMark(Next(s, hash, events[c]), hash, rest, id);
    k := c + 1 + j;
    assert rest[..j] == events[c + 1..k];
    RunContinues(start, hash, events, c + 1, k);
  }

  lemma RunStep(start: Db, hash: Payload -> Digest, events: seq<Transactions.Event>, c: nat)
    requires c < |events|
    ensures Transactions.Run(start, hash, events[..c + 1])
         == Next(Transactions.Run(start, hash, events[..c]), hash, events[c])
  {
    hide Next;
    assert events[..c + 1][..c] == events[..c];
  }

  // ---- when the row can still be written ----

  /** What else the write needs: details of its own digest, and no constraint in its way. */
  predicate CanBeStored(db: Db, hash: Payload -> Digest, id: nat)
    requires id < |db.confirmations|
  {
    var c := db.confirmations[id];
    && c.digest == hash(c.payload) && c.owner.workspace in db.counters
    && !Violates(db, NewEnquiry(db, c.owner, id, c.payload))
  }

  /** Everybody but `t` gives up, from the `n`-th transaction down. */
  function Aborts(n: nat, t: nat): seq<Transactions.Event> {
    if n == 0 then [] else (if n - 1 == t then [] else [Abort(n - 1)]) + Aborts(n - 1, t)
  }

  /** Nobody below `n` but `t` is at work any more. */
  predicate Quiet(s: System, n: nat, t: nat) {
    forall i :: n <= i < |s.transactions| && i != t ==> s.transactions[i].progress.Done?
  }

  lemma {:induction false} AbortsQuieten(s: System, hash: Payload -> Digest, n: nat, t: nat)
    requires n <= |s.transactions| && t < |s.transactions| && Quiet(s, n, t)
    ensures var after := After(s, hash, Aborts(n, t));
            && after.db == s.db && |after.transactions| == |s.transactions|
            && after.transactions[t] == s.transactions[t] && Quiet(after, 0, t)
    decreases n
  {
    hide After, Advance;
    if n == 0 {
      AfterNothing(s, hash);
    } else if n - 1 == t {
      AbortsQuieten(s, hash, n - 1, t);
      assert [] + Aborts(n - 1, t) == Aborts(n - 1, t);
    } else {
      var after := Next(s, hash, Abort(n - 1));
      AfterStep(s, hash, Abort(n - 1), Aborts(n - 1, t));
      AbortsQuieten(after, hash, n - 1, t);
    }
  }

  /** The late confirmation is written, and a consumer begins. */
  lemma ReopenedForAConsumer(s: System, hash: Payload -> Digest, t: nat, id: nat)
    requires id < |s.db.confirmations| && HasRead(s, t, id) && Quiet(s, 0, t)
    ensures var c := s.db.confirmations[id];
            var after := Next(Next(s, hash, Step(t, 0.0)), hash, Begin(ToConsume(c.owner, id, c.payload)));
            var n := |s.transactions|;
            && after.db == s.db.(confirmations := s.db.confirmations[id :=
                 c.(status := Confirmed, confirmedAt := Some(s.transactions[t].progress.at))])
            && |after.transactions| == n + 1
            && after.transactions[n] == Transaction(ToConsume(c.owner, id, c.payload), Begun)
            && Undisturbed(after, n)
  {
    assert RowFree(s, id) by {
      forall u <- s.transactions ensures !HoldsRow(u, id) {
        var i :| 0 <= i < |s.transactions| && s.transactions[i] == u;
      }
    }
    var c := s.db.confirmations[id];
    var mid := Next(s, hash, Step(t, 0.0));
    var after := Next(mid, hash, Begin(ToConsume(c.owner, id, c.payload)));
    forall u <- after.transactions ensures !HoldsRow(u, id) && !HoldsCounter(u, c.owner.workspace) {
      var i :| 0 <= i < |after.transactions| && after.transactions[i] == u;
      assert u.progress.Done? || u.progress.Begun?;
    }
  }

  lemma ConsumerCreates(db: Db, hash: Payload -> Digest, id: nat, confirmedAt: real)
    requires id < |db.confirmations| && CanBeStored(db, hash, id)
    ensures var c := db.confirmations[id];
            var open := db.(confirmations := db.confirmations[id :=
                          c.(status := Confirmed, confirmedAt := Some(confirmedAt))]);
            Adds(db, Apply(open, hash, ConsumeCall(c.owner, id, c.payload, c.expiresAt - 1.0)), id)
  {
    hide EnquiryId;
    var c := db.confirmations[id];
    var open := db.(confirmations := db.confirmations[id :=
                  c.(status := Confirmed, confirmedAt := Some(confirmedAt))]);
    var e := NewEnquiry(open, c.owner, id, c.payload);
    assert e == NewEnquiry(db, c.owner, id, c.payload) && !Violates(open, e);
    assert EnquiryFor(open.enquiries, c.owner.workspace, id).None? by {
      var found := EnquiryFor(open.enquiries, c.owner.workspace, id);
      assert found.Some? ==> Clashes(db.enquiries[found.value], e);
    }
    var after := Apply(open, hash, ConsumeCall(c.owner, id, c.payload, c.expiresAt - 1.0));
    assert after.enquiries == db.enquiries + [e];
    assert after.enquiries[|db.enquiries|].confirmation == id;
  }

  function StepsOf(t: nat, times: seq<real>): seq<Transactions.Event> {
    if times == [] then [] else [Step(t, times[0])] + StepsOf(t, times[1..])
  }

  lemma {:induction false} AloneIsAfter(s: System, hash: Payload -> Digest, t: nat, times: seq<real>)
    ensures Alone(s, hash, t, times) == After(s, hash, StepsOf(t, times))
    decreases |times|
  {
    hide Next;
    if times != [] {
      AfterStep(s, hash, Step(t, times[0]), StepsOf(t, times[1..]));
      AloneIsAfter(Next(s, hash, Step(t, times[0])), hash, t, times[1..]);
    }
  }

  /** What is left to happen: the others give up, the confirmation is written, and a consumer takes the row in time. */
  function Undoing(s: System, t: nat, id: nat): seq<Transactions.Event>
    requires id < |s.db.confirmations|
  {
    var c := s.db.confirmations[id];
    var now := c.expiresAt - 1.0;
    Aborts(|s.transactions|, t)
    + ([Step(t, 0.0)] + ([Begin(ToConsume(c.owner, id, c.payload))]
                         + StepsOf(|s.transactions|, [now, now, now, now, now])))
  }

  lemma UndoingAdds(s: System, hash: Payload -> Digest, t: nat, id: nat)
    requires id < |s.db.confirmations| && HasRead(s, t, id) && CanBeStored(s.db, hash, id)
    ensures Adds(s.db, After(s, hash, Undoing(s, t, id)).db, id)
  {
    hide Next, After, Alone, Adds, Apply, Aborts, StepsOf, CanBeStored, Quiet, Undisturbed;
    var c := s.db.confirmations[id];
    var now := c.expiresAt - 1.0;
    var times, begin := [now, now, now, now, now], Begin(ToConsume(c.owner, id, c.payload));
    var n := |s.transactions|;
    var last := StepsOf(n, times);
    EverybodyIsQuiet(s, t);
    AbortsQuieten(s, hash, n, t);
    var quiet := After(s, hash, Aborts(n, t));
    AfterConcat(s, hash, Aborts(n, t), [Step(t, 0.0)] + ([begin] + last));
    AfterStep(quiet, hash, Step(t, 0.0), [begin] + last);
    AfterStep(Next(quiet, hash, Step(t, 0.0)), hash, begin, last);
    ReopenedForAConsumer(quiet, hash, t, id);
    var open := Next(Next(quiet, hash, Step(t, 0.0)), hash, begin);
    AloneIsAfter(open, hash, n, times);
    AloneIsOneCall(open, hash, n, times);
    ConsumerCreates(s.db, hash, id, quiet.transactions[t].progress.at);
  }

  lemma EverybodyIsQuiet(s: System, t: nat)
    ensures Quiet(s, |s.transactions|, t)
  {
  }

  /**
   * A settled row that could be stored: some continuation, with any transactions and aborts, writes an enquiry of it
   * exactly if there is a confirmation that has read the row before and has still to write.
   */
  lemma WhenASettledRowIsWritten(s: System, hash: Payload -> Digest, id: nat)
    requires Ok(s) && id < |s.db.confirmations| && IsSettled(s.db.confirmations[id].status)
    requires CanBeStored(s.db, hash, id)
    ensures (exists events :: Adds(s.db, After(s, hash, events).db, id)) <==> exists t: nat :: HasRead(s, t, id)
  {
    hide After, Ok, CanBeStored, HasRead, Adds, IsSettled, IsWrittenLate;
    if t: nat :| HasRead(s, t, id) {
      UndoingAdds(s, hash, t, id);
    }
    if events :| Adds(s.db, After(s, hash, events).db, id) {
      var k, t := AddedOnlyAfterALateMark(s, hash, events, id);
    }
  }

  // ---- the schedule ----

  /** A confirmation and a cancellation read the pending row, and the cancellation is written. */
  function Cancellation(): seq<Transactions.Event> {
    [Begin(ToConfirm(BUYER, 0)), Begin(ToCancel(BUYER, 0)), Step(0, 1.0), Step(1, 1.0), Step(1, 1.0)]
  }

  function CancelledProposal(hash: Payload -> Digest): System {
    System(
      WithStatus(OneProposal(hash), 0, Cancelled),
      [Transaction(ToConfirm(BUYER, 0), Decided(Confirmed, 1.0)),
       Transaction(ToCancel(BUYER, 0), Done(Marked(Cancelled)))])
  }

  lemma BothReadOneCancels(hash: Payload -> Digest)
    ensures Transactions.Run(OneProposal(hash), hash, Cancellation()) == CancelledProposal(hash)
  {
    hide After, Transactions.Run;
    var db, c := OneProposal(hash), Cancellation();
    var confirm, cancel := ToConfirm(BUYER, 0), ToCancel(BUYER, 0);
    RunIsAfter(db, hash, c);
    assert c == [c[0], c[1], c[2]] + ([c[3]] + ([c[4]] + []));
    var s0 := System(db, []);
    var s1 := Next(Next(s0, hash, c[0]), hash, c[1]);
    assert s1 == System(db, [Transaction(confirm, Begun), Transaction(cancel, Begun)]);
    var read := Transaction(confirm, Decided(Confirmed, 1.0));
    var s2 := Next(s1, hash, c[2]);
    assert s2 == System(db, [read, Transaction(cancel, Begun)]);
    var s3 := Next(s2, hash, c[3]);
    assert s3 == System(db, [read, Transaction(cancel, Decided(Cancelled, 1.0))]);
    assert RowFree(s3, 0);
    AfterThree(s0, hash, c[0], c[1], c[2], [c[3]] + ([c[4]] + []));
    AfterStep(s2, hash, c[3], [c[4]] + []);
    AfterStep(s3, hash, c[4], []);
    AfterNothing(Next(s3, hash, c[4]), hash);
  }

  /**
   * A cancellation is not final: the buyer has been told that nothing was created, the confirmation that had read the
   * row is written, and the row is consumed after all.
   */
  lemma CancellationIsNotFinal(hash: Payload -> Digest)
    ensures Transactions.Run(OneProposal(hash), hash, Cancellation()) == CancelledProposal(hash)
    ensures var s := CancelledProposal(hash);
            && s.db.confirmations[0].status == Cancelled && s.db.enquiries == []
            && Adds(s.db, Transactions.Run(OneProposal(hash), hash, Cancellation() + Undoing(s, 0, 0)).db, 0)
  {
    hide After, Transactions.Run, Undoing, Adds;
    var s := CancelledProposal(hash);
    BothReadOneCancels(hash);
    UndoingAdds(s, hash, 0, 0);
    RunIsAfter(OneProposal(hash), hash, Cancellation());
    RunIsAfter(OneProposal(hash), hash, Cancellation() + Undoing(s, 0, 0));
    AfterConcat(System(OneProposal(hash), []), hash, Cancellation(), Undoing(s, 0, 0));
  }
}
