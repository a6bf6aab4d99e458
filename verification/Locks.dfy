/** What one step of a transaction finds, writes and waits for, whatever the others have done in between. */
module Locks {
  import opened Wrappers
  import opened Enquiries
  import opened Transactions
  import Decimal
  import Details
  import Effects

  /** A consumer has the row locked: from its first look to the end of its database session. */
  predicate IsRowLocked(s: System, id: nat) {
    exists t <- s.transactions ::
      t.request.ToConsume? && t.request.id == id
      && (t.progress.RowLocked? || t.progress.NoEnquiryYet? || t.progress.Checked? || t.progress.CounterLocked?
          || t.progress.Held?)
  }

  /** An enquiry or a support request is being numbered. */
  predicate IsCounterLocked(s: System, workspace: string) {
    exists t <- s.transactions ::
      t.request.who.workspace == workspace && (t.progress.CounterLocked? || t.progress.SupportLocked?)
  }

  lemma WhatIsLocked(s: System, id: nat, workspace: string)
    ensures IsRowLocked(s, id) <==> !RowFree(s, id)
    ensures IsCounterLocked(s, workspace) <==> !CounterFree(s, workspace)
  {
  }

  /**
   * A confirmation looks once, and then writes what it has decided as soon as the row is free, over whatever is there
   * by then.
   */
  lemma WhatAConfirmationDoes(s: System, hash: Payload -> Digest, t: Transaction, now: real)
    requires t.request.ToConfirm?
    ensures var id := t.request.id;
            var (after, p) := Advance(s, hash, t, now);
            if t.progress.Begun? then
              && after == s.db
              && p == if !Effects.IsOwn(s.db, t.request.who, id) || s.db.confirmations[id].status != Pending then
                        Done(NotMarked)
                      else if now < s.db.confirmations[id].expiresAt then Decided(Confirmed, now)
                      else Decided(Expired, now)
            else IsMarked(s, t, after, p)
  {
    hide RowFree;
    WhatIsLocked(s, t.request.id, "");
  }

  /** A cancellation does the same with pending and confirmed rows. */
  lemma WhatACancellationDoes(s: System, hash: Payload -> Digest, t: Transaction, now: real)
    requires t.request.ToCancel?
    ensures var id := t.request.id;
            var (after, p) := Advance(s, hash, t, now);
            if t.progress.Begun? then
              && after == s.db
              && p == if Effects.IsOwn(s.db, t.request.who, id)
                         && (s.db.confirmations[id].status == Pending || s.db.confirmations[id].status == Confirmed)
                      then Decided(Cancelled, now)
                      else Done(NotMarked)
            else IsMarked(s, t, after, p)
  {
    hide RowFree;
    WhatIsLocked(s, t.request.id, "");
  }

  /** The write of a mark: it waits while the row is locked, and touches no other row. */
  ghost predicate IsMarked(s: System, t: Transaction, after: Db, p: Progress)
    requires t.request.ToConfirm? || t.request.ToCancel?
  {
    var id := t.request.id;
    if !t.progress.Decided? || id >= |s.db.confirmations| || IsRowLocked(s, id) then after == s.db && p == t.progress
    else
      && p == Done(Marked(t.progress.status)) && Effects.OnlyRow(s.db, after, id)
      && after.confirmations[id]
         == if t.progress.status == Confirmed then
              s.db.confirmations[id].(status := Confirmed, confirmedAt := Some(t.progress.at))
            else s.db.confirmations[id].(status := t.progress.status)
  }

  /** A consumer up to its lock on the counter: it waits for its row, and checks what it finds there, in this order. */
  lemma WhatAConsumerChecks(s: System, hash: Payload -> Digest, t: Transaction, now: real)
    requires t.request.ToConsume? && t.request.id < |s.db.confirmations|
    requires t.progress.Begun? || t.progress.RowLocked? || t.progress.NoEnquiryYet?
    ensures var who, id := t.request.who, t.request.id;
            var c := s.db.confirmations[id];
            var (after, p) := Advance(s, hash, t, now);
            if t.progress.Begun? then
              after == s.db
              && p == if !Effects.IsOwn(s.db, who, id) then Done(Ended(Refused(NotFound)))
                      else if IsRowLocked(s, id) then Begun else RowLocked
            else if t.progress.RowLocked? then
              after == s.db
              && if exists e :: Effects.IsAnswer(s.db, who.workspace, id, e) then
                   p.Held? && p.outcome.Replayed? && Effects.IsAnswer(s.db, who.workspace, id, p.outcome.enquiry)
                 else p == NoEnquiryYet
            else
              if c.digest != hash(t.request.payload) || c.payload != t.request.payload then
                after == s.db && p == Held(Refused(PayloadMismatch))
              else if c.status != Confirmed then after == s.db && p == Held(Refused(NotConfirmed))
              else if c.expiresAt <= now then
                && p == Done(Ended(Refused(TooLate))) && Effects.OnlyRow(s.db, after, id)
                && after.confirmations[id] == c.(status := Expired)
              else after == s.db && p == if who.workspace in s.db.counters then Checked(now) else Held(Raised)
  {
    hide RowFree, CounterFree, EnquiryFor, Violates, EnquiryId, IsRowLocked;
    WhatIsLocked(s, t.request.id, "");
    Effects.FirstEnquiry(s.db.enquiries, t.request.who.workspace, t.request.id);
    var found := EnquiryFor(s.db.enquiries, t.request.who.workspace, t.request.id);
    if found.Some? { assert Effects.IsAnswer(s.db, t.request.who.workspace, t.request.id, found.value); }
  }

  /**
   * A consumer from then on: it waits for the counter and takes its number. It writes everything at once: the enquiry
   * under that number, the consumed row, and the next number. If a constraint fails it writes nothing, and answers with
   * the enquiry that is there by now.
   */
  lemma WhatAConsumerWrites(s: System, hash: Payload -> Digest, t: Transaction, now: real)
    requires t.request.ToConsume? && t.request.id < |s.db.confirmations|
    requires t.progress.Checked? || t.progress.CounterLocked?
    ensures var who, id := t.request.who, t.request.id;
            var (after, p) := Advance(s, hash, t, now);
            if t.progress.Checked? then
              after == s.db
              && p == if who.workspace !in s.db.counters || IsCounterLocked(s, who.workspace) then t.progress
                      else CounterLocked(s.db.counters[who.workspace].enquiryNext, t.progress.at)
            else
              var n, at, c := t.progress.n, t.progress.at, s.db.confirmations[id];
              var e := Enquiry(who, "ENQ-" + Decimal.Print(n), t.request.payload, id, c.key);
              if who.workspace !in s.db.counters || Effects.IsClash(s.db, e) then
                after == s.db && p.Done? && p.result.Ended?
                && if exists e :: Effects.IsAnswer(s.db, who.workspace, id, e) then
                     p.result.outcome.Replayed?
                     && Effects.IsAnswer(s.db, who.workspace, id, p.result.outcome.enquiry)
                   else p.result.outcome == Raised
              else
                && p == Done(Ended(Created(|s.db.enquiries|))) && after.enquiries == s.db.enquiries + [e]
                && after.confirmations
                   == s.db.confirmations[id := c.(status := Consumed, consumedAt := Some(at))]
                && after.counters
                   == s.db.counters[who.workspace := s.db.counters[who.workspace].(enquiryNext := n + 1)]
                && after.supports == s.db.supports && after.distributors == s.db.distributors
  {
    hide RowFree, CounterFree, EnquiryFor, Violates, IsCounterLocked, Effects.IsClash, Decimal.Print;
    var who, id := t.request.who, t.request.id;
    WhatIsLocked(s, 0, who.workspace);
    Effects.FirstEnquiry(s.db.enquiries, who.workspace, id);
    var found := EnquiryFor(s.db.enquiries, who.workspace, id);
    if found.Some? { assert Effects.IsAnswer(s.db, who.workspace, id, found.value); }
    if t.progress.CounterLocked? {
      Effects.ClashIsViolation(s.db,
        Enquiry(who, EnquiryId(t.progress.n), t.request.payload, id, s.db.confirmations[id].key));
    }
  }

  /** A consumer with an outcome lets its lock go and reports it. */
  lemma WhatAnEndedConsumerDoes(s: System, hash: Payload -> Digest, t: Transaction, now: real)
    requires t.request.ToConsume? && t.request.id < |s.db.confirmations| && t.progress.Held?
    ensures Advance(s, hash, t, now) == (s.db, Done(Ended(t.progress.outcome)))
  {
    hide RowFree, CounterFree, EnquiryFor, Violates, EnquiryId;
  }

  /** A support request waits for the counter, takes its number, and writes itself and the next number at once. */
  lemma WhatASupportRequestDoes(s: System, hash: Payload -> Digest, t: Transaction, now: real, reason: string)
    requires t.request.ToSupport? && Details.IsTrimmed(t.request.text, reason)
    requires t.progress.Begun? || t.progress.SupportLocked?
    ensures var w := t.request.who.workspace;
            var (after, p) := Advance(s, hash, t, now);
            if t.progress.Begun? then
              && after == s.db
              && p == if !(1 <= |reason| <= 1000) then Done(Supported(BadReason))
                      else if w !in s.db.counters then Done(Supported(NoCounter))
                      else if IsCounterLocked(s, w) then Begun
                      else SupportLocked(s.db.counters[w].supportNext)
            else
              var n := t.progress.n;
              var displayId := "SUP-" + Decimal.Print(n);
              if w !in s.db.counters
                 || exists i :: 0 <= i < |s.db.supports| && s.db.supports[i].requester.workspace == w
                                && s.db.supports[i].displayId == displayId
              then after == s.db && p == Done(Supported(RaisedSupport))
              else
                && p == Done(Supported(Recorded(displayId)))
                && after.supports == s.db.supports + [SupportRequest(t.request.who, displayId, reason)]
                && after.counters == s.db.counters[w := s.db.counters[w].(supportNext := n + 1)]
                && after.confirmations == s.db.confirmations && after.enquiries == s.db.enquiries
                && after.distributors == s.db.distributors
  {
    hide RowFree, CounterFree, IsCounterLocked, Decimal.Print, Details.IsTrimmed;
    WhatIsLocked(s, 0, t.request.who.workspace);
    Details.WhatIsStripped(t.request.text, reason);
  }

  /** Events touch one transaction: one begins, takes a step, or is dropped with its locks before it is over. */
  lemma WhatAnEventDoes(s: System, hash: Payload -> Digest, e: Event)
    ensures var after := Next(s, hash, e);
            match e
            case Begin(request) =>
              after == System(s.db, s.transactions + [Transaction(request, Begun)])
            case Abort(t) =>
              after.db == s.db
              && after.transactions
                 == if t < |s.transactions| && !s.transactions[t].progress.Done? then
                      s.transactions[t := Transaction(s.transactions[t].request, Done(Aborted))]
                    else s.transactions
            case Step(t, now) =>
              if t >= |s.transactions| then after == s
              else
                var (db, p) := Advance(s, hash, s.transactions[t], now);
                after == System(db, s.transactions[t := Transaction(s.transactions[t].request, p)])
            case Propose(who, session, payload, hint, now) =>
              after == System(Prepare(s.db, hash, who, session, payload, hint, now).0, s.transactions)
  {
    hide Advance, Prepare;
  }
}
