/**
 * The service under interleaving: consumers that lock, confirmations and cancellations that do not, one shared
 * counter.
 */
module Transactions {
  import opened Wrappers
  import opened Enquiries
  import opened Ledger
  import opened Counters
  import Tokeniser

  // ---- transactions ----

  datatype Request =
    | ToConsume(who: Principal, id: nat, payload: Payload)
    | ToConfirm(who: Principal, id: nat)
    | ToCancel(who: Principal, id: nat)
    | ToSupport(who: Principal, text: string)

  datatype Result =
    | Ended(outcome: Outcome)
    | Marked(status: Status)
    | NotMarked
    | Supported(support: SupportOutcome)
    | Aborted

  /**
   * How far a transaction has come. A consumer that is refused or replayed keeps its row lock (`Held`) until its
   * database session ends; an unlocked confirmation or cancellation has read the row and `Decided` what to write.
   */
  datatype Progress =
    | Begun
    | RowLocked
    | NoEnquiryYet
    | Checked(at: real)
    | CounterLocked(n: nat, at: real)
    | SupportLocked(n: nat)
    | Decided(status: Status, at: real)
    | Held(outcome: Outcome)
    | Done(result: Result)

  datatype Transaction = Transaction(request: Request, progress: Progress)

  predicate HoldsRow(t: Transaction, id: nat) {
    t.request.ToConsume? && t.request.id == id
    && (t.progress.RowLocked? || PastLookUp(t.progress) || t.progress.Held?)
  }

  predicate HoldsCounter(t: Transaction, workspace: string) {
    t.request.who.workspace == workspace && (t.progress.CounterLocked? || t.progress.SupportLocked?)
  }

  datatype System = System(db: Db, transactions: seq<Transaction>)

  predicate RowFree(s: System, id: nat) { forall t <- s.transactions :: !HoldsRow(t, id) }

  predicate CounterFree(s: System, workspace: string) { forall t <- s.transactions :: !HoldsCounter(t, workspace) }

  // ---- steps ----

  /** What one transaction does next: the tables and its progress; a lock that is taken leaves it where it is. */
  function Advance(s: System, hash: Payload -> Digest, t: Transaction, now: real): (Db, Progress) {
    match t.request
    case ToConsume(who, id, payload) => AdvanceConsumer(s, hash, who, id, payload, t.progress, now)
    case ToConfirm(who, id) =>
      if t.progress.Begun? then
        (s.db,
         if !Owns(s.db, who, id) || s.db.confirmations[id].status != Pending then Done(NotMarked)
         else if s.db.confirmations[id].expiresAt <= now then Decided(Expired, now)
         else Decided(Confirmed, now))
      else AdvanceMark(s, id, t.progress)
    case ToCancel(who, id) =>
      if t.progress.Begun? then
        (s.db,
         if Owns(s.db, who, id) && s.db.confirmations[id].status in {Pending, Confirmed} then Decided(Cancelled, now)
         else Done(NotMarked))
      else AdvanceMark(s, id, t.progress)
    case ToSupport(who, text) => AdvanceSupport(s, who, text, t.progress)
  }

  /** The write of an unlocked confirmation or cancellation: it waits for the row lock, but does not look again. */
  function AdvanceMark(s: System, id: nat, p: Progress): (Db, Progress) {
    if p.Decided? && id < |s.db.confirmations| && RowFree(s, id) then
      var c := s.db.confirmations[id];
      var d := c.(status := p.status, confirmedAt := if p.status == Confirmed then Some(p.at) else c.confirmedAt);
      (s.db.(confirmations := s.db.confirmations[id := d]), Done(Marked(p.status)))
    else (s.db, p)
  }

  function AdvanceConsumer(
      s: System, hash: Payload -> Digest, who: Principal, id: nat, payload: Payload, p: Progress, now: real)
    : (Db, Progress)
  {
    if p.Begun? then
      (s.db, if !Owns(s.db, who, id) then Done(Ended(Refused(NotFound))) else if RowFree(s, id) then RowLocked else p)
    else if id >= |s.db.confirmations| then (s.db, p)
    else
      var c := s.db.confirmations[id];
      match p
      case RowLocked =>
        var existing := EnquiryFor(s.db.enquiries, who.workspace, id);
        (s.db, if existing.Some? then Held(Replayed(existing.value)) else NoEnquiryYet)
      case NoEnquiryYet =>
        if c.digest != hash(payload) || c.payload != payload then (s.db, Held(Refused(PayloadMismatch)))
        else if c.status != Confirmed then (s.db, Held(Refused(NotConfirmed)))
        else if c.expiresAt <= now then (WithStatus(s.db, id, Expired), Done(Ended(Refused(TooLate))))
        else if who.workspace !in s.db.counters then (s.db, Held(Raised))
        else (s.db, Checked(now))
      case Checked(at) =>
        if who.workspace in s.db.counters && CounterFree(s, who.workspace) then
          (s.db, CounterLocked(s.db.counters[who.workspace].enquiryNext, at))
        else (s.db, p)
      case CounterLocked(n, at) => Commit(s.db, who, id, payload, n, at)
      case Held(outcome) => (s.db, Done(Ended(outcome)))
      case _ => (s.db, p)
  }

  /** The commit: everything at once, or, when a constraint fails, nothing and another look for an enquiry. */
  function Commit(db: Db, who: Principal, id: nat, payload: Payload, n: nat, at: real): (Db, Progress)
    requires id < |db.confirmations|
  {
    var c := db.confirmations[id];
    var e := Enquiry(who, EnquiryId(n), payload, id, c.key);
    if who.workspace !in db.counters || Violates(db, e) then
      var existing := EnquiryFor(db.enquiries, who.workspace, id);
      (db, Done(Ended(if existing.Some? then Replayed(existing.value) else Raised)))
    else
      (db.(confirmations := db.confirmations[id := c.(status := Consumed, consumedAt := Some(at))],
           enquiries := db.enquiries + [e],
           counters := db.counters[who.workspace := db.counters[who.workspace].(enquiryNext := n + 1)]),
       Done(Ended(Created(|db.enquiries|))))
  }

  function AdvanceSupport(s: System, who: Principal, text: string, p: Progress): (Db, Progress) {
    var reason := Tokeniser.Strip(text);
    match p
    case Begun =>
      (s.db,
       if reason == "" || |reason| > 1000 then Done(Supported(BadReason))
       else if who.workspace !in s.db.counters then Done(Supported(NoCounter))
       else if CounterFree(s, who.workspace) then SupportLocked(s.db.counters[who.workspace].supportNext)
       else p)
    case SupportLocked(n) =>
      var displayId := SupportId(n);
      if who.workspace !in s.db.counters || SupportIdTaken(s.db, who.workspace, displayId) then
        (s.db, Done(Supported(RaisedSupport)))
      else
        (s.db.(supports := s.db.supports + [SupportRequest(who, displayId, reason)],
               counters := s.db.counters[who.workspace := s.db.counters[who.workspace].(supportNext := n + 1)]),
         Done(Supported(Recorded(displayId))))
    case _ => (s.db, p)
  }

  datatype Event =
    | Begin(request: Request)
    | Step(t: nat, now: real)
    | Abort(t: nat)
    | Propose(who: Principal, session: nat, payload: Payload, hint: nat, now: real)

  function Next(s: System, hash: Payload -> Digest, e: Event): System {
    match e
    case Begin(request) => s.(transactions := s.transactions + [Transaction(request, Begun)])
    case Step(t, now) =>
      if t < |s.transactions| then
        var (db, progress) := Advance(s, hash, s.transactions[t], now);
        System(db, s.transactions[t := s.transactions[t].(progress := progress)])
      else s
    case Abort(t) =>
      if t < |s.transactions| && !s.transactions[t].progress.Done? then
        s.(transactions := s.transactions[t := s.transactions[t].(progress := Done(Aborted))])
      else s
    case Propose(who, session, payload, hint, now) => s.(db := Prepare(s.db, hash, who, session, payload, hint, now).0)
  }

  function Run(start: Db, hash: Payload -> Digest, events: seq<Event>): System {
    if events == [] then System(start, [])
    else Next(Run(start, hash, events[..|events| - 1]), hash, events[|events| - 1])
  }

  // ---- what every step keeps ----

  /** No row and no counter is locked twice. */
  ghost predicate Exclusive(s: System) {
    forall i, j :: 0 <= i < j < |s.transactions| ==> Apart(s.transactions[i], s.transactions[j])
  }

  ghost predicate Apart(t: Transaction, u: Transaction) {
    && (forall id :: !(HoldsRow(t, id) && HoldsRow(u, id)))
    && forall workspace :: !(HoldsCounter(t, workspace) && HoldsCounter(u, workspace))
  }

  /** The enquiry an outcome names is the one for this confirmation. */
  predicate NamesEnquiry(db: Db, who: Principal, id: nat, outcome: Outcome) {
    match outcome
    case Created(e) => e < |db.enquiries| && db.enquiries[e].confirmation == id && db.enquiries[e].buyer == who
    case Replayed(e) =>
      e < |db.enquiries| && db.enquiries[e].confirmation == id && db.enquiries[e].buyer.workspace == who.workspace
    case _ => true
  }

  predicate HasOutcome(t: Transaction) {
    t.request.ToConsume? && (t.progress.Held? || (t.progress.Done? && t.progress.result.Ended?))
  }

  function OutcomeOf(t: Transaction): Outcome
    requires HasOutcome(t)
  {
    if t.progress.Held? then t.progress.outcome else t.progress.result.outcome
  }

  /** The consumer has looked for an enquiry and found none. */
  predicate PastLookUp(p: Progress) { p.NoEnquiryYet? || IsWriting(p) }

  /** The consumer has found the row confirmed, for its own details and in time. */
  predicate IsWriting(p: Progress) { p.Checked? || p.CounterLocked? }

  /** What an unlocked confirmation or cancellation may have decided to write. */
  predicate MayDecide(r: Request, status: Status) {
    (r.ToConfirm? && status in {Confirmed, Expired}) || (r.ToCancel? && status == Cancelled)
  }

  /** What a transaction knows stays true while it holds its locks. */
  predicate Knows(db: Db, t: Transaction) {
    && (t.request.ToConsume? && (t.progress.RowLocked? || PastLookUp(t.progress)) ==>
          Owns(db, t.request.who, t.request.id))
    && (t.request.ToConsume? && PastLookUp(t.progress) ==>
          EnquiryFor(db.enquiries, t.request.who.workspace, t.request.id).None?)
    && (t.request.ToConsume? && IsWriting(t.progress) ==>
          && db.confirmations[t.request.id].payload == t.request.payload
          && db.confirmations[t.request.id].status == Confirmed
          && t.progress.at < db.confirmations[t.request.id].expiresAt)
    && (t.progress.Decided? ==>
          MayDecide(t.request, t.progress.status) && Owns(db, t.request.who, t.request.id))
    && (t.progress.CounterLocked? ==>
          t.request.ToConsume? && t.request.who.workspace in db.counters
          && t.progress.n == db.counters[t.request.who.workspace].enquiryNext)
    && (t.progress.SupportLocked? ==>
          t.request.ToSupport? && t.request.who.workspace in db.counters
          && t.progress.n == db.counters[t.request.who.workspace].supportNext)
    && (HasOutcome(t) ==> NamesEnquiry(db, t.request.who, t.request.id, OutcomeOf(t)))
  }

  ghost predicate AllKnow(s: System) { forall t <- s.transactions :: Knows(s.db, t) }

  /** An enquiry has the buyer, the details and the key of its row. */
  predicate IsOfItsRow(db: Db, e: Enquiry) {
    && e.confirmation < |db.confirmations|
    && var c := db.confirmations[e.confirmation];
       c.owner == e.buyer && c.payload == e.payload && c.key == e.key
  }

  ghost predicate Owned(db: Db) { forall i :: 0 <= i < |db.enquiries| ==> IsOfItsRow(db, db.enquiries[i]) }

  /** Different consumers never report the creation of the same enquiry. */
  ghost predicate CreatorsDiffer(s: System) {
    forall i, j :: 0 <= i < j < |s.transactions| && HasOutcome(s.transactions[i]) && HasOutcome(s.transactions[j])
                   && OutcomeOf(s.transactions[i]).Created? ==>
      OutcomeOf(s.transactions[i]) != OutcomeOf(s.transactions[j])
  }

  ghost predicate Ok(s: System) {
    Exclusive(s) && AllKnow(s) && Owned(s.db) && OnePerConfirmation(s.db) && CreatorsDiffer(s)
  }

  /** How a transaction may change the tables: rows keep their terms, and what it locks is its own to change. */
  predicate Moves(db: Db, t: Transaction, after: Db) {
    && |db.confirmations| == |after.confirmations|
    && (forall i :: 0 <= i < |db.confirmations| ==> SameTerms(db.confirmations[i], after.confirmations[i]))
    && (after.enquiries == db.enquiries
        || (&& t.progress.CounterLocked? && t.request.ToConsume?
            && |after.enquiries| == |db.enquiries| + 1 && db.enquiries <= after.enquiries
            && t.request.id < |db.confirmations|
            && var e := after.enquiries[|db.enquiries|];
               && e.confirmation == t.request.id && e.buyer == t.request.who && e.payload == t.request.payload
               && e.key == db.confirmations[t.request.id].key))
    && after.counters.Keys == db.counters.Keys
    && forall w <- db.counters :: after.counters[w] != db.counters[w] ==> HoldsCounter(t, w)
  }

  lemma AdvanceMoves(s: System, hash: Payload -> Digest, t: Transaction, now: real)
    requires Knows(s.db, t)
    ensures Moves(s.db, t, Advance(s, hash, t, now).0)
  {
    hide EnquiryFor, Violates, SupportIdTaken, RowFree, CounterFree, Tokeniser.Strip, EnquiryId, SupportId;
  }

  /** A row that another transaction has locked stays as it is. */
  predicate LeavesLocked(db: Db, u: Transaction, after: Db) {
    forall id :: 0 <= id < |db.confirmations| && id < |after.confirmations| && HoldsRow(u, id) ==>
      after.confirmations[id] == db.confirmations[id]
  }

  lemma LockedRowsStay(s: System, hash: Payload -> Digest, t: Transaction, u: Transaction, now: real)
    requires Apart(t, u) && u in s.transactions
    ensures LeavesLocked(s.db, u, Advance(s, hash, t, now).0)
  {
    hide EnquiryFor, Violates, SupportIdTaken, CounterFree, Tokeniser.Strip, EnquiryId, SupportId;
    assert forall id :: HoldsRow(u, id) ==> !RowFree(s, id);
  }

  lemma {:induction false} EnquiryForAppended(enquiries: seq<Enquiry>, after: seq<Enquiry>, workspace: string, id: nat)
    requires |after| == |enquiries| + 1 && enquiries <= after && after[|enquiries|].confirmation != id
    ensures EnquiryFor(after, workspace, id) == EnquiryFor(enquiries, workspace, id)
  {
    assert after == enquiries + [after[|enquiries|]];
    AppendedEnquiry(enquiries, after[|enquiries|], workspace, id);
  }

  /** What the others know survives a transaction that shares no lock with them. */
  lemma OthersKnow(db: Db, t: Transaction, after: Db, u: Transaction)
    requires Moves(db, t, after) && LeavesLocked(db, u, after) && Apart(t, u) && Knows(db, u)
    ensures Knows(after, u)
  {
    hide EnquiryFor;
    assert forall id :: 0 <= id < |db.confirmations| ==> SameTerms(db.confirmations[id], after.confirmations[id]);
    if u.request.ToConsume? && PastLookUp(u.progress) {
      assert HoldsRow(u, u.request.id);
      if after.enquiries != db.enquiries {
        assert HoldsRow(t, t.request.id);
        EnquiryForAppended(db.enquiries, after.enquiries, u.request.who.workspace, u.request.id);
      }
    }
    if u.progress.CounterLocked? || u.progress.SupportLocked? { assert HoldsCounter(u, u.request.who.workspace); }
  }

  /** A transaction knows what it has just found out. */
  lemma ConsumerKnows(s: System, hash: Payload -> Digest, t: Transaction, now: real)
    requires Knows(s.db, t) && t.request.ToConsume? && !t.progress.CounterLocked?
    ensures var (db, progress) := Advance(s, hash, t, now);
            Knows(db, t.(progress := progress))
  {
    hide RowFree, CounterFree, Violates, EnquiryId;
    var r := t.request;
    var (db, progress) := Advance(s, hash, t, now);
    assert db.enquiries == s.db.enquiries;
    var found := EnquiryFor(s.db.enquiries, r.who.workspace, r.id);
  }

  lemma CommitKnows(s: System, hash: Payload -> Digest, t: Transaction, now: real)
    requires Knows(s.db, t) && t.request.ToConsume? && t.progress.CounterLocked?
    ensures var (db, progress) := Advance(s, hash, t, now);
            Knows(db, t.(progress := progress))
  {
    hide Violates, EnquiryId;
  }

  lemma OthersThanConsumersKnow(s: System, hash: Payload -> Digest, t: Transaction, now: real)
    requires Knows(s.db, t) && !t.request.ToConsume?
    ensures var (db, progress) := Advance(s, hash, t, now);
            Knows(db, t.(progress := progress))
  {
    hide RowFree, CounterFree, EnquiryFor, SupportIdTaken, SupportId, Tokeniser.Strip;
  }

  lemma SelfKnows(s: System, hash: Payload -> Digest, t: Transaction, now: real)
    requires Knows(s.db, t)
    ensures var (db, progress) := Advance(s, hash, t, now);
            Knows(db, t.(progress := progress))
  {
    hide Advance, Knows;
    if !t.request.ToConsume? { OthersThanConsumersKnow(s, hash, t, now); }
    else if t.progress.CounterLocked? { CommitKnows(s, hash, t, now); }
    else { ConsumerKnows(s, hash, t, now); }
  }

  /** A lock is only taken when it is free. */
  lemma LocksAreTakenFree(s: System, hash: Payload -> Digest, t: Transaction, now: real)
    ensures var after := t.(progress := Advance(s, hash, t, now).1);
            && (forall id :: HoldsRow(after, id) ==> HoldsRow(t, id) || RowFree(s, id))
            && (forall w :: HoldsCounter(after, w) ==> HoldsCounter(t, w) || CounterFree(s, w))
  {
    hide EnquiryFor, Violates, SupportIdTaken, RowFree, CounterFree, Tokeniser.Strip, EnquiryId, SupportId;
  }

  lemma StepIsExclusive(s: System, t: nat, after: Transaction)
    requires Exclusive(s) && t < |s.transactions|
    requires forall id :: HoldsRow(after, id) ==> HoldsRow(s.transactions[t], id) || RowFree(s, id)
    requires forall w :: HoldsCounter(after, w) ==> HoldsCounter(s.transactions[t], w) || CounterFree(s, w)
    ensures Exclusive(s.(transactions := s.transactions[t := after]))
  {
    hide HoldsRow, HoldsCounter;
    var changed := s.transactions[t := after];
    forall i, j | 0 <= i < j < |changed| ensures Apart(changed[i], changed[j]) {
      assert Apart(s.transactions[i], s.transactions[j]);
      assert s.transactions[i] in s.transactions && s.transactions[j] in s.transactions;
    }
  }

  lemma StepKnows(s: System, hash: Payload -> Digest, t: nat, now: real)
    requires Exclusive(s) && AllKnow(s) && t < |s.transactions|
    ensures AllKnow(Next(s, hash, Step(t, now)))
  {
    hide Advance, Knows, Moves, Apart, LeavesLocked;
    var me := s.transactions[t];
    assert me in s.transactions;
    var (db, progress) := Advance(s, hash, me, now);
    AdvanceMoves(s, hash, me, now);
    SelfKnows(s, hash, me, now);
    var changed := s.transactions[t := me.(progress := progress)];
    forall i | 0 <= i < |changed| ensures Knows(db, changed[i]) {
      if i != t {
        assert s.transactions[i] in s.transactions;
        assert Apart(if i < t then s.transactions[i] else me, if i < t then me else s.transactions[i]);
        if i < t { ApartIsSymmetric(s.transactions[i], me); }
        LockedRowsStay(s, hash, me, s.transactions[i], now);
        OthersKnow(s.db, me, db, s.transactions[i]);
      }
    }
  }

  lemma ApartIsSymmetric(t: Transaction, u: Transaction)
    requires Apart(t, u)
    ensures Apart(u, t)
  {
  }

  /** A commit adds the first enquiry of its confirmation, with the terms of the row. */
  lemma WriteKeepsOne(db: Db, t: Transaction, after: Db)
    requires Moves(db, t, after) && Knows(db, t) && Owned(db) && OnePerConfirmation(db)
    ensures Owned(after) && OnePerConfirmation(after)
  {
    hide EnquiryFor;
    if after.enquiries != db.enquiries {
      forall i | 0 <= i < |db.enquiries| ensures db.enquiries[i].confirmation != t.request.id {
        var e := db.enquiries[i];
        assert IsOfItsRow(db, e);
        assert e.confirmation == t.request.id ==> e.buyer == t.request.who;
      }
    }
  }

  /** A transaction reports a creation only when it has just made it. */
  lemma CreationIsNew(s: System, hash: Payload -> Digest, t: Transaction, now: real)
    ensures var after := t.(progress := Advance(s, hash, t, now).1);
            HasOutcome(after) && OutcomeOf(after).Created? ==>
              (HasOutcome(t) && OutcomeOf(t) == OutcomeOf(after)) || OutcomeOf(after) == Created(|s.db.enquiries|)
  {
    hide EnquiryFor, Violates, SupportIdTaken, RowFree, CounterFree, Tokeniser.Strip, EnquiryId, SupportId;
  }

  lemma OldOutcomesAreOld(db: Db, t: Transaction)
    requires Knows(db, t) && HasOutcome(t)
    ensures OutcomeOf(t) != Created(|db.enquiries|)
  {
    hide EnquiryFor;
  }

  lemma StepKeepsCreators(s: System, hash: Payload -> Digest, t: nat, now: real)
    requires AllKnow(s) && CreatorsDiffer(s) && t < |s.transactions|
    ensures CreatorsDiffer(Next(s, hash, Step(t, now)))
  {
    hide Advance, Knows, OutcomeOf, HasOutcome;
    var me := s.transactions[t];
    var progress := Advance(s, hash, me, now).1;
    CreationIsNew(s, hash, me, now);
    forall i | 0 <= i < |s.transactions| && HasOutcome(s.transactions[i])
      ensures OutcomeOf(s.transactions[i]) != Created(|s.db.enquiries|)
    {
      assert s.transactions[i] in s.transactions;
      OldOutcomesAreOld(s.db, s.transactions[i]);
    }
  }

  lemma StepIsOk(s: System, hash: Payload -> Digest, t: nat, now: real)
    requires Ok(s) && t < |s.transactions|
    ensures Ok(Next(s, hash, Step(t, now)))
  {
    hide Advance, Exclusive, Knows, Owned, OnePerConfirmation, CreatorsDiffer, Moves, HoldsRow, HoldsCounter,
         RowFree, CounterFree;
    var me := s.transactions[t];
    assert me in s.transactions;
    StepKnows(s, hash, t, now);
    AdvanceMoves(s, hash, me, now);
    WriteKeepsOne(s.db, me, Advance(s, hash, me, now).0);
    LocksAreTakenFree(s, hash, me, now);
    StepIsExclusive(s, t, me.(progress := Advance(s, hash, me, now).1));
    StepKeepsCreators(s, hash, t, now);
    OnlyTransactionsCount(
      s.(transactions := s.transactions[t := me.(progress := Advance(s, hash, me, now).1)]), Next(s, hash, Step(t,
        now)));
  }

  lemma OnlyTransactionsCount(s: System, u: System)
    requires Exclusive(s) && u.transactions == s.transactions
    ensures Exclusive(u)
  {
    hide Apart;
  }

  lemma BeginIsOk(s: System, hash: Payload -> Digest, request: Request)
    requires Ok(s)
    ensures Ok(Next(s, hash, Begin(request)))
  {
    hide EnquiryFor, NamesEnquiry;
    var after := Next(s, hash, Begin(request));
    forall i, j | 0 <= i < j < |after.transactions| ensures Apart(after.transactions[i], after.transactions[j]) {
      if j < |s.transactions| { assert Apart(s.transactions[i], s.transactions[j]); }
    }
  }

  lemma AbortIsOk(s: System, hash: Payload -> Digest, t: nat)
    requires Ok(s)
    ensures Ok(Next(s, hash, Abort(t)))
  {
    hide EnquiryFor, NamesEnquiry;
    if t < |s.transactions| {
      var after := s.transactions[t].(progress := Done(Aborted));
      assert s.transactions[t] in s.transactions;
      assert forall id :: !HoldsRow(after, id);
      assert forall w :: !HoldsCounter(after, w);
      StepIsExclusive(s, t, after);
    }
  }

  /** New rows disturb nobody. */
  lemma GrownRowsKnow(db: Db, after: Db, t: Transaction)
    requires Knows(db, t) && db.confirmations <= after.confirmations
    requires after.enquiries == db.enquiries && after.counters == db.counters
    ensures Knows(after, t)
  {
    hide EnquiryFor;
  }

  lemma ProposeIsOk(s: System, hash: Payload -> Digest, e: Event)
    requires Ok(s) && e.Propose?
    ensures Ok(Next(s, hash, e))
  {
    hide Knows, KeyTaken, Existing, Apart;
    var after := Next(s, hash, e);
    assert s.db.confirmations <= after.db.confirmations;
    forall t <- after.transactions ensures Knows(after.db, t) { GrownRowsKnow(s.db, after.db, t); }
  }

  /**
   * Over every interleaving: no lock is held twice, a confirmation has at most one enquiry, with the buyer, the details
   * and the key of its row, everything a consumer reports is true of that enquiry, and no two consumers report the same
   * creation.
   */
  lemma {:induction false} RunsAreOk(start: Db, hash: Payload -> Digest, events: seq<Event>)
    requires Owned(start) && OnePerConfirmation(start)
    ensures Ok(Run(start, hash, events))
  {
    hide Next, Owned, OnePerConfirmation, Ok;
    if events == [] {
      EmptyIsOk(start);
    } else {
      var s, e := Run(start, hash, events[..|events| - 1]), events[|events| - 1];
      RunsAreOk(start, hash, events[..|events| - 1]);
      NextIsOk(s, hash, e);
    }
  }

  lemma NextIsOk(s: System, hash: Payload -> Digest, e: Event)
    requires Ok(s)
    ensures Ok(Next(s, hash, e))
  {
    hide Next, Ok;
    match e {
      case Begin(request) => BeginIsOk(s, hash, request);
      case Abort(t) => AbortIsOk(s, hash, t);
      case Propose(_, _, _, _, _) => ProposeIsOk(s, hash, e);
      case Step(t, now) => if t < |s.transactions| { StepIsOk(s, hash, t, now); } else { IdleStep(s, hash, t, now); }
    }
  }

  lemma IdleStep(s: System, hash: Payload -> Digest, t: nat, now: real)
    requires t >= |s.transactions|
    ensures Next(s, hash, Step(t, now)) == s
  {
  }

  lemma EmptyIsOk(start: Db)
    requires Owned(start) && OnePerConfirmation(start)
    ensures Ok(System(start, []))
  {
  }

  /**
   * Whichever consumers of one confirmation report an enquiry, in any interleaving, they all report the same one, and
   * at most one of them reports its creation.
   */
  lemma ConsumersAgree(start: Db, hash: Payload -> Digest, events: seq<Event>, i: nat, j: nat)
    requires Owned(start) && OnePerConfirmation(start)
    requires var s := Run(start, hash, events);
             && i < |s.transactions| && j < |s.transactions| && i != j
             && HasOutcome(s.transactions[i]) && HasOutcome(s.transactions[j])
             && s.transactions[i].request.id == s.transactions[j].request.id
             && (OutcomeOf(s.transactions[i]).Created? || OutcomeOf(s.transactions[i]).Replayed?)
             && (OutcomeOf(s.transactions[j]).Created? || OutcomeOf(s.transactions[j]).Replayed?)
    ensures var s := Run(start, hash, events);
            && OutcomeOf(s.transactions[i]).enquiry == OutcomeOf(s.transactions[j]).enquiry
            && !(OutcomeOf(s.transactions[i]).Created? && OutcomeOf(s.transactions[j]).Created?)
  {
    hide Run, Exclusive, Owned, EnquiryFor;
    RunsAreOk(start, hash, events);
    var s := Run(start, hash, events);
    assert s.transactions[i] in s.transactions && s.transactions[j] in s.transactions;
    assert Knows(s.db, s.transactions[i]) && Knows(s.db, s.transactions[j]);
    SameEnquiry(s.db, OutcomeOf(s.transactions[i]).enquiry, OutcomeOf(s.transactions[j]).enquiry);
  }

  lemma SameEnquiry(db: Db, a: nat, b: nat)
    requires OnePerConfirmation(db) && a < |db.enquiries| && b < |db.enquiries|
    requires db.enquiries[a].confirmation == db.enquiries[b].confirmation
    ensures a == b
  {
  }

  /** Once an enquiry is there, a consumer of its confirmation can only be on its way to replaying it. */
  lemma LaterConsumersReplay(s: System, hash: Payload -> Digest, t: nat, now: real)
    requires Ok(s) && t < |s.transactions| && s.transactions[t].request.ToConsume?
    requires EnquiryFor(s.db.enquiries, s.transactions[t].request.who.workspace, s.transactions[t].request.id).Some?
    ensures var me := s.transactions[t];
            var e := EnquiryFor(s.db.enquiries, me.request.who.workspace, me.request.id).value;
            && !PastLookUp(me.progress)
            && (me.progress.RowLocked? ==> Next(s, hash, Step(t, now)).transactions[t].progress == Held(Replayed(e)))
            && (me.progress.Begun? && Owns(s.db, me.request.who, me.request.id) && RowFree(s, me.request.id) ==>
                  Next(s, hash, Step(t, now)).transactions[t].progress == RowLocked)
  {
    hide EnquiryFor, RowFree, CounterFree;
    assert s.transactions[t] in s.transactions;
    assert Knows(s.db, s.transactions[t]);
  }

  // ---- the numbers ----

  lemma AdvanceCounts(start: Db, s: System, hash: Payload -> Digest, t: Transaction, now: real, workspace: string)
    requires workspace in start.counters && CountsFrom(start, s.db, workspace) && Knows(s.db, t)
    ensures CountsFrom(start, Advance(s, hash, t, now).0, workspace)
  {
    hide EnquiryIds, SupportIds, EnquiryFor, Violates, SupportIdTaken, RowFree, CounterFree, Tokeniser.Strip, EnquiryId,
         SupportId;
    var after := Advance(s, hash, t, now).0;
    if |after.enquiries| > |s.db.enquiries| {
      EnquiryIdsAppend(s.db.enquiries, after.enquiries[|s.db.enquiries|], workspace);
    }
    if |after.supports| > |s.db.supports| {
      SupportIdsAppend(s.db.supports, after.supports[|s.db.supports|], workspace);
    }
  }

  lemma EventCounts(start: Db, s: System, hash: Payload -> Digest, e: Event, workspace: string)
    requires workspace in start.counters && CountsFrom(start, s.db, workspace) && AllKnow(s)
    ensures CountsFrom(start, Next(s, hash, e).db, workspace)
  {
    hide Advance, EnquiryIds, SupportIds, Knows, EnquirySeries, SupportSeries, Existing, KeyTaken;
    if e.Step? && e.t < |s.transactions| {
      assert s.transactions[e.t] in s.transactions;
      AdvanceCounts(start, s, hash, s.transactions[e.t], e.now, workspace);
    }
  }

  /**
   * Over every interleaving, with commits, refusals and aborts at any point, the display ids a workspace adds are the
   * gap-free ranges from its counters' first values to just below their current ones.
   */
  lemma {:induction false} InterleavedNumbersAreGapFree(
      start: Db, hash: Payload -> Digest, events: seq<Event>, workspace: string)
    requires Owned(start) && OnePerConfirmation(start) && workspace in start.counters
    ensures CountsFrom(start, Run(start, hash, events).db, workspace)
  {
    hide Next, Owned, OnePerConfirmation, EnquiryIds, SupportIds, Exclusive, AllKnow, CreatorsDiffer;
    if events != [] {
      InterleavedNumbersAreGapFree(start, hash, events[..|events| - 1], workspace);
      RunsAreOk(start, hash, events[..|events| - 1]);
      EventCounts(start, Run(start, hash, events[..|events| - 1]), hash, events[|events| - 1], workspace);
    }
  }

  // ---- what interleaving does break ----

  /** The late write of a confirmation or cancellation that read the row before it was consumed. */
  predicate IsLateMark(s: System, e: Event, id: nat) {
    && e.Step? && e.t < |s.transactions|
    && var t := s.transactions[e.t];
       && (t.request.ToConfirm? || t.request.ToCancel?) && t.request.id == id
       && t.progress.Decided? && t.progress.status != Consumed && RowFree(s, id)
  }

  /** A consumed row leaves that status exactly when such a write comes late; with atomic calls it never does. */
  lemma WhenConsumedIsUndone(s: System, hash: Payload -> Digest, e: Event, id: nat)
    requires id < |s.db.confirmations| && s.db.confirmations[id].status == Consumed
    ensures var after := Next(s, hash, e).db;
            id < |after.confirmations| && (after.confirmations[id].status != Consumed <==> IsLateMark(s, e, id))
  {
    hide EnquiryFor, Violates, SupportIdTaken, RowFree, CounterFree, Tokeniser.Strip, EnquiryId, SupportId,
         KeyTaken, Existing;
  }

  /**
   * The same for every settled status: what is consumed, cancelled or expired changes its status exactly when such a
   * write brings another one.
   */
  lemma WhenSettledIsUndone(s: System, hash: Payload -> Digest, e: Event, id: nat)
    requires AllKnow(s) && id < |s.db.confirmations| && IsSettled(s.db.confirmations[id].status)
    ensures var before, after := s.db.confirmations[id].status, Next(s, hash, e).db;
            && id < |after.confirmations|
            && (after.confirmations[id].status != before
                <==> IsLateMark(s, e, id) && s.transactions[e.t].progress.status != before)
  {
    hide EnquiryFor, Violates, SupportIdTaken, RowFree, CounterFree, Tokeniser.Strip, EnquiryId, SupportId,
         KeyTaken, Existing, NamesEnquiry;
    if e.Step? && e.t < |s.transactions| {
      assert s.transactions[e.t] in s.transactions;
      assert Knows(s.db, s.transactions[e.t]);
    }
  }

  const BUYER := Principal("w", "u")

  const DETAILS := Payload("Rice", 50, "tonnes", "Dubai", None)

  /** One pending confirmation, opened at time 0. */
  function OneProposal(hash: Payload -> Digest): Db {
    Db([NewConfirmation(BUYER, 0, hash(DETAILS), DETAILS, 0.0)], [], [], map["w" := Counter(1001, 1001)], {})
  }

  /** A confirmation that has read the row, one that has also been written, and a consumer that begins. */
  function BothRead(hash: Payload -> Digest): System {
    var row := OneProposal(hash).confirmations[0].(status := Confirmed, confirmedAt := Some(1.0));
    System(
      OneProposal(hash).(confirmations := [row]),
      [Transaction(ToConfirm(BUYER, 0), Done(Marked(Confirmed))), Transaction(ToConfirm(BUYER, 0),
        Decided(Confirmed, 1.0)),
       Transaction(ToConsume(BUYER, 0, DETAILS), Begun)])
  }

  function Confirmations(): seq<Event> {
    [Begin(ToConfirm(BUYER, 0)), Begin(ToConfirm(BUYER, 0)), Begin(ToConsume(BUYER, 0, DETAILS)), Step(0, 1.0),
     Step(1, 1.0), Step(0, 1.0)]
  }

  function Consumption(): seq<Event> { [Step(2, 2.0), Step(2, 2.0), Step(2, 2.0), Step(2, 2.0), Step(2, 2.0)] }

  function After(s: System, hash: Payload -> Digest, events: seq<Event>): System
    decreases |events|
  {
    if events == [] then s else After(Next(s, hash, events[0]), hash, events[1..])
  }

  lemma {:induction false} RunIsAfter(start: Db, hash: Payload -> Digest, events: seq<Event>)
    ensures Run(start, hash, events) == After(System(start, []), hash, events)
  {
    hide Next;
    if events != [] {
      var before, e := events[..|events| - 1], events[|events| - 1];
      RunIsAfter(start, hash, before);
      assert events == before + [e];
      AfterConcat(System(start, []), hash, before, [e]);
      assert [e][1..] == [];
    }
  }

  lemma {:induction false} AfterConcat(s: System, hash: Payload -> Digest, a: seq<Event>, b: seq<Event>)
    ensures After(s, hash, a + b) == After(After(s, hash, a), hash, b)
    decreases |a|
  {
    hide Next;
    if a == [] {
      assert a + b == b;
    } else {
      assert (a + b)[1..] == a[1..] + b;
      AfterConcat(Next(s, hash, a[0]), hash, a[1..], b);
    }
  }

  lemma AfterStep(s: System, hash: Payload -> Digest, e: Event, rest: seq<Event>)
    ensures After(s, hash, [e] + rest) == After(Next(s, hash, e), hash, rest)
  {
    hide Next;
    assert ([e] + rest)[1..] == rest;
  }

  lemma AfterNothing(s: System, hash: Payload -> Digest)
    ensures After(s, hash, []) == s
  {
  }

  lemma AfterThree(s: System, hash: Payload -> Digest, a: Event, b: Event, c: Event, rest: seq<Event>)
    ensures After(s, hash, [a, b, c] + rest) == After(Next(Next(Next(s, hash, a), hash, b), hash, c), hash, rest)
  {
    hide Next, After;
    assert [a, b, c] + rest == [a] + ([b] + ([c] + rest));
    AfterStep(s, hash, a, [b] + ([c] + rest));
    AfterStep(Next(s, hash, a), hash, b, [c] + rest);
    AfterStep(Next(Next(s, hash, a), hash, b), hash, c, rest);
  }

  lemma ThreeBegin(hash: Payload -> Digest)
    ensures var s := System(OneProposal(hash), []);
            var begun := [Transaction(ToConfirm(BUYER, 0), Begun), Transaction(ToConfirm(BUYER, 0), Begun),
                          Transaction(ToConsume(BUYER, 0, DETAILS), Begun)];
            System(OneProposal(hash), begun)
            == Next(Next(Next(s, hash, Confirmations()[0]), hash, Confirmations()[1]), hash, Confirmations()[2])
  {
    hide Advance, OneProposal;
  }

  lemma TwoReadOneWrites(hash: Payload -> Digest)
    ensures var s := System(OneProposal(hash),
              [Transaction(ToConfirm(BUYER, 0), Begun), Transaction(ToConfirm(BUYER, 0), Begun),
               Transaction(ToConsume(BUYER, 0, DETAILS), Begun)]);
            Next(Next(Next(s, hash, Step(0, 1.0)), hash, Step(1, 1.0)), hash, Step(0, 1.0)) == BothRead(hash)
  {
    var me, you, consumer := Transaction(ToConfirm(BUYER, 0), Begun), Transaction(ToConfirm(BUYER, 0),
      Decided(Confirmed, 1.0)),
      Transaction(ToConsume(BUYER, 0, DETAILS), Begun);
    var s := System(OneProposal(hash), [me, me, consumer]);
    var one := Next(s, hash, Step(0, 1.0));
    assert one == System(OneProposal(hash), [you, me, consumer]);
    var two := Next(one, hash, Step(1, 1.0));
    assert two == System(OneProposal(hash), [you, you, consumer]);
    assert RowFree(two, 0);
  }

  /** The consumer's five steps. */
  lemma ConsumerWrites(hash: Payload -> Digest)
    ensures var s := After(BothRead(hash), hash, Consumption());
            && |s.db.enquiries| == 1 && |s.db.confirmations| == 1 && s.db.confirmations[0].status == Consumed
            && s.transactions == BothRead(hash).transactions[2 := Transaction(ToConsume(BUYER, 0, DETAILS),
              Done(Ended(Created(0))))]
  {
    var s := BothRead(hash);
    var consumer := s.transactions[2];
    assert RowFree(s, 0) && CounterFree(s, "w");
    var s1 := Next(s, hash, Step(2, 2.0));
    assert s1 == s.(transactions := s.transactions[2 := consumer.(progress := RowLocked)]);
    var s2 := Next(s1, hash, Step(2, 2.0));
    assert s2 == s.(transactions := s.transactions[2 := consumer.(progress := NoEnquiryYet)]);
    var s3 := Next(s2, hash, Step(2, 2.0));
    assert s3 == s.(transactions := s.transactions[2 := consumer.(progress := Checked(2.0))]);
    assert CounterFree(s3, "w");
    var s4 := Next(s3, hash, Step(2, 2.0));
    assert s4 == s.(transactions := s.transactions[2 := consumer.(progress := CounterLocked(1001, 2.0))]);
    AfterThree(s, hash, Step(2, 2.0), Step(2, 2.0), Step(2, 2.0), [Step(2, 2.0), Step(2, 2.0)]);
    AfterStep(s3, hash, Step(2, 2.0), [Step(2, 2.0)]);
    AfterStep(s4, hash, Step(2, 2.0), []);
    AfterNothing(Next(s4, hash, Step(2, 2.0)), hash);
    assert Consumption() == [Step(2, 2.0), Step(2, 2.0), Step(2, 2.0)] + [Step(2, 2.0), Step(2, 2.0)];
    assert [Step(2, 2.0)] + [Step(2, 2.0)] == [Step(2, 2.0), Step(2, 2.0)] && [Step(2, 2.0)] + [] == [Step(2, 2.0)];
  }

  /**
   * Two confirmations read the pending row; one is written, the enquiry is created, and only then the other is written:
   * the consumed row is confirmed again. There is still only the one enquiry.
   */
  lemma ConsumedIsNotTerminal(hash: Payload -> Digest)
    ensures var s := Run(OneProposal(hash), hash, Confirmations() + Consumption() + [Step(1, 3.0)]);
            |s.db.confirmations| == 1 && s.db.confirmations[0].status == Confirmed && |s.db.enquiries| == 1
    ensures var s := Run(OneProposal(hash), hash, Confirmations() + Consumption());
            |s.db.confirmations| == 1 && s.db.confirmations[0].status == Consumed
  {
    hide Run, After, Next, OneProposal;
    var start := System(OneProposal(hash), []);
    RunIsAfter(OneProposal(hash), hash, Confirmations() + Consumption());
    RunIsAfter(OneProposal(hash), hash, Confirmations() + Consumption() + [Step(1, 3.0)]);
    AfterConcat(start, hash, Confirmations(), Consumption());
    AfterConcat(start, hash, Confirmations() + Consumption(), [Step(1, 3.0)]);
    ThreeBegin(hash);
    TwoReadOneWrites(hash);
    var c := Confirmations();
    assert c == [c[0], c[1], c[2]] + ([c[3], c[4], c[5]] + []);
    AfterThree(start, hash, c[0], c[1], c[2], [c[3], c[4], c[5]] + []);
    AfterThree(Next(Next(Next(start, hash, c[0]), hash, c[1]), hash, c[2]), hash, c[3], c[4], c[5], []);
    AfterNothing(BothRead(hash), hash);
    ConsumerWrites(hash);
    var consumed := After(BothRead(hash), hash, Consumption());
    assert [Step(1, 3.0)] + [] == [Step(1, 3.0)];
    AfterStep(consumed, hash, Step(1, 3.0), []);
    AfterNothing(Next(consumed, hash, Step(1, 3.0)), hash);
    LateWrite(consumed, hash);
  }

  lemma LateWrite(s: System, hash: Payload -> Digest)
    requires |s.db.confirmations| == 1 && |s.transactions| == 3
    requires s.transactions[1] == Transaction(ToConfirm(BUYER, 0), Decided(Confirmed, 1.0))
    requires forall t <- s.transactions :: !HoldsRow(t, 0)
    ensures var after := Next(s, hash, Step(1, 3.0)).db;
            |after.confirmations| == 1 && after.confirmations[0].status == Confirmed
              && after.enquiries == s.db.enquiries
  {
    assert RowFree(s, 0);
  }
}
