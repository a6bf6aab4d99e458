/** What every call of the enquiry service keeps, one atomic call at a time. */
module Ledger {
  import opened Wrappers
  import opened Enquiries

  datatype ServiceCall =
    | PrepareCall(who: Principal, session: nat, payload: Payload, hint: nat, now: real)
    | ConfirmCall(who: Principal, id: nat, now: real)
    | CancelCall(who: Principal, id: nat)
    | ConsumeCall(who: Principal, id: nat, payload: Payload, now: real)
    | SupportCall(who: Principal, text: string)

  function Apply(db: Db, hash: Payload -> Digest, call: ServiceCall): Db {
    match call
    case PrepareCall(who, session, payload, hint, now) => Prepare(db, hash, who, session, payload, hint, now).0
    case ConfirmCall(who, id, now) => Confirm(db, who, id, now).0
    case CancelCall(who, id) => Cancel(db, who, id).0
    case ConsumeCall(who, id, payload, now) => Consume(db, hash, who, id, payload, now).0
    case SupportCall(who, text) => RequestSupport(db, who, text).0
  }

  function ApplyAll(db: Db, hash: Payload -> Digest, calls: seq<ServiceCall>): Db {
    if calls == [] then db else Apply(ApplyAll(db, hash, calls[..|calls| - 1]), hash, calls[|calls| - 1])
  }

  // ---- a confirmation only moves forward ----

  /** The life of a confirmation: one call moves it at most one step. */
  predicate MayMove(from: Status, to: Status) {
    || from == to
    || (from == Pending && to in {Confirmed, Cancelled, Expired})
    || (from == Confirmed && to in {Consumed, Cancelled, Expired})
  }

  predicate IsSettled(s: Status) { s in {Consumed, Cancelled, Expired} }

  /** The parts of a confirmation that no call ever changes. */
  predicate SameTerms(c: Confirmation, d: Confirmation) {
    && c.owner == d.owner && c.session == d.session && c.digest == d.digest && c.payload == d.payload
    && c.key == d.key && c.expiresAt == d.expiresAt
  }

  predicate MovesTo(c: Confirmation, d: Confirmation) {
    SameTerms(c, d) && MayMove(c.status, d.status) && (IsSettled(c.status) ==> d == c)
  }

  /** Tables only grow, and rows only move forward. */
  ghost predicate Advances(before: Db, after: Db) {
    && |before.confirmations| <= |after.confirmations| <= |before.confirmations| + 1
    && (forall i :: 0 <= i < |before.confirmations| ==> MovesTo(before.confirmations[i], after.confirmations[i]))
    && before.enquiries <= after.enquiries
    && before.supports <= after.supports
    && before.distributors == after.distributors
    && before.counters.Keys == after.counters.Keys
  }

  lemma ApplyAdvances(db: Db, hash: Payload -> Digest, call: ServiceCall)
    ensures Advances(db, Apply(db, hash, call))
  {
    hide KeyTaken, Violates, Existing, EnquiryFor, SupportIdTaken, EnquiryId, SupportId, Matches;
    if call.ConsumeCall? {
      ConsumeAdvances(db, hash, call.who, call.id, call.payload, call.now);
    }
  }

  lemma ConsumeAdvances(db: Db, hash: Payload -> Digest, who: Principal, id: nat, payload: Payload, now: real)
    ensures Advances(db, Consume(db, hash, who, id, payload, now).0)
  {
    hide Violates, EnquiryFor, EnquiryId;
  }

  /** Over any run a settled row never changes again, and no row changes its terms. */
  lemma {:induction false} SettledForever(db: Db, hash: Payload -> Digest, calls: seq<ServiceCall>, id: nat)
    requires id < |db.confirmations|
    ensures var after := ApplyAll(db, hash, calls);
            && db.enquiries <= after.enquiries
            && id < |after.confirmations|
            && SameTerms(db.confirmations[id], after.confirmations[id])
            && (IsSettled(db.confirmations[id].status) ==> after.confirmations[id] == db.confirmations[id])
  {
    hide Apply;
    if calls != [] {
      var before, call := calls[..|calls| - 1], calls[|calls| - 1];
      SettledForever(db, hash, before, id);
      var mid := ApplyAll(db, hash, before);
      ApplyAdvances(mid, hash, call);
      assert MovesTo(mid.confirmations[id], Apply(mid, hash, call).confirmations[id]);
    }
  }

  // ---- rows and enquiries correspond ----

  /** An enquiry is backed by its own consumed confirmation. */
  predicate Backed(db: Db, e: Enquiry) {
    && e.confirmation < |db.confirmations|
    && var c := db.confirmations[e.confirmation];
       && c.status == Consumed && c.owner == e.buyer && c.payload == e.payload && c.key == e.key
       && c.confirmedAt.Some? && c.consumedAt.Some? && c.consumedAt.value < c.expiresAt
  }

  ghost predicate AllBacked(db: Db) { forall i :: 0 <= i < |db.enquiries| ==> Backed(db, db.enquiries[i]) }

  ghost predicate OnePerConfirmation(db: Db) {
    forall i, j :: 0 <= i < j < |db.enquiries| ==> db.enquiries[i].confirmation != db.enquiries[j].confirmation
  }

  predicate Answered(db: Db, id: nat)
    requires id < |db.confirmations|
  {
    db.confirmations[id].status == Consumed ==> EnquiryFor(db.enquiries, db.confirmations[id].owner.workspace, id).Some?
  }

  ghost predicate AllAnswered(db: Db) { forall id :: 0 <= id < |db.confirmations| ==> Answered(db, id) }

  /** A row that has been confirmed says when. */
  ghost predicate Dated(db: Db) {
    forall id :: 0 <= id < |db.confirmations| && db.confirmations[id].status == Confirmed ==>
      db.confirmations[id].confirmedAt.Some?
  }

  predicate SameKey(c: Confirmation, d: Confirmation) { c.owner.workspace == d.owner.workspace && c.key == d.key }

  ghost predicate KeysDiffer(db: Db) {
    forall i, j :: 0 <= i < j < |db.confirmations| ==> !SameKey(db.confirmations[i], db.confirmations[j])
  }

  /** Consumed confirmations and enquiries are in one-to-one correspondence, with equal buyer, payload and key. */
  ghost predicate Sound(db: Db) {
    AllBacked(db) && OnePerConfirmation(db) && AllAnswered(db) && Dated(db) && KeysDiffer(db)
  }

  lemma {:induction false} AppendedEnquiry(enquiries: seq<Enquiry>, e: Enquiry, workspace: string, id: nat)
    ensures EnquiryFor(enquiries + [e], workspace, id)
         == var earlier := EnquiryFor(enquiries, workspace, id);
            if earlier.Some? then earlier
            else if e.buyer.workspace == workspace && e.confirmation == id then Some(|enquiries|) else None
  {
    assert (enquiries + [e])[..|enquiries|] == enquiries;
  }

  /** A call that writes no enquiry and consumes no row. */
  lemma QuietStepIsSound(db: Db, after: Db)
    requires Sound(db) && Advances(db, after) && after.enquiries == db.enquiries
    requires forall i :: 0 <= i < |db.confirmations| ==>
               (after.confirmations[i].status == Consumed ==> db.confirmations[i].status == Consumed)
    requires forall i :: |db.confirmations| <= i < |after.confirmations| ==>
               after.confirmations[i].status == Pending
                 && !KeyTaken(db.confirmations, after.confirmations[i].owner.workspace, after.confirmations[i].key)
    requires Dated(after)
    ensures Sound(after)
  {
    forall i | 0 <= i < |after.enquiries| ensures Backed(after, after.enquiries[i]) {
      assert Backed(db, db.enquiries[i]);
      assert MovesTo(db.confirmations[after.enquiries[i].confirmation],
        after.confirmations[after.enquiries[i].confirmation]);
    }
    forall id | 0 <= id < |after.confirmations| ensures Answered(after, id) {
      if id < |db.confirmations| {
        assert Answered(db, id) && MovesTo(db.confirmations[id], after.confirmations[id]);
      }
    }
    KeysStayDifferent(db, after);
  }

  lemma KeysStayDifferent(db: Db, after: Db)
    requires KeysDiffer(db) && Advances(db, after)
    requires forall i :: |db.confirmations| <= i < |after.confirmations| ==>
               !KeyTaken(db.confirmations, after.confirmations[i].owner.workspace, after.confirmations[i].key)
    ensures KeysDiffer(after)
  {
    forall i, j | 0 <= i < j < |after.confirmations| ensures !SameKey(after.confirmations[i], after.confirmations[j]) {
      assert MovesTo(db.confirmations[i], after.confirmations[i]);
      if j < |db.confirmations| {
        assert MovesTo(db.confirmations[j], after.confirmations[j])
          && !SameKey(db.confirmations[i], db.confirmations[j]);
      } else {
        assert !KeyTaken(db.confirmations, after.confirmations[j].owner.workspace, after.confirmations[j].key);
        assert !(db.confirmations[i].owner.workspace == after.confirmations[j].owner.workspace
                 && db.confirmations[i].key == after.confirmations[j].key);
      }
    }
  }

  lemma WriteIsSound(db: Db, who: Principal, id: nat, payload: Payload, now: real)
    requires Sound(db) && Owns(db, who, id) && who.workspace in db.counters
    requires db.confirmations[id].status == Confirmed && db.confirmations[id].payload == payload
    requires now < db.confirmations[id].expiresAt
    requires EnquiryFor(db.enquiries, who.workspace, id).None?
    ensures Sound(Written(db, who, id, payload, now))
  {
    hide EnquiryId, EnquiryFor;
    var after := Written(db, who, id, payload, now);
    var n := |db.enquiries|;
    forall i | 0 <= i < n ensures Backed(after, after.enquiries[i]) && after.enquiries[i].confirmation != id {
      assert Backed(db, db.enquiries[i]) && after.enquiries[i] == db.enquiries[i];
    }
    assert Backed(after, after.enquiries[n]);
    forall other | 0 <= other < |after.confirmations| ensures Answered(after, other) {
      assert Answered(db, other);
      AppendedEnquiry(db.enquiries, after.enquiries[n], after.confirmations[other].owner.workspace, other);
    }
    assert Advances(db, after);
    KeysStayDifferent(db, after);
  }

  lemma SoundIsDated(db: Db)
    requires Sound(db)
    ensures Dated(db)
  {
  }

  lemma ApplyIsSound(db: Db, hash: Payload -> Digest, call: ServiceCall)
    requires Sound(db)
    ensures Sound(Apply(db, hash, call))
  {
    hide EnquiryFor, EnquiryId, KeyTaken, Existing, Violates, Sound, Advances, SupportIdTaken, Written;
    ApplyAdvances(db, hash, call);
    if call.ConsumeCall? && Consume(db, hash, call.who, call.id, call.payload, call.now).1.Created? {
      WriteIsSound(db, call.who, call.id, call.payload, call.now);
    } else {
      SoundIsDated(db);
      QuietStepIsSound(db, Apply(db, hash, call));
    }
  }

  /** Over every run, consumed confirmations and enquiries stay in one-to-one correspondence. */
  lemma {:induction false} RunsAreSound(db: Db, hash: Payload -> Digest, calls: seq<ServiceCall>)
    requires Sound(db)
    ensures Sound(ApplyAll(db, hash, calls))
  {
    hide Sound, Apply;
    if calls != [] {
      RunsAreSound(db, hash, calls[..|calls| - 1]);
      ApplyIsSound(ApplyAll(db, hash, calls[..|calls| - 1]), hash, calls[|calls| - 1]);
    }
  }

  // ---- when the write happens ----

  /** Every row carries the digest of its own payload. */
  ghost predicate Digested(db: Db, hash: Payload -> Digest) {
    forall id :: 0 <= id < |db.confirmations| ==> db.confirmations[id].digest == hash(db.confirmations[id].payload)
  }

  lemma NewRowIsDigested(db: Db, hash: Payload -> Digest, call: ServiceCall)
    ensures var after := Apply(db, hash, call);
            forall id :: |db.confirmations| <= id < |after.confirmations| ==>
              after.confirmations[id].digest == hash(after.confirmations[id].payload)
  {
    hide KeyTaken, Violates, Existing, EnquiryFor, SupportIdTaken, EnquiryId, SupportId;
  }

  lemma {:induction false} RunsAreDigested(db: Db, hash: Payload -> Digest, calls: seq<ServiceCall>)
    requires Digested(db, hash)
    ensures Digested(ApplyAll(db, hash, calls), hash)
  {
    hide Apply;
    if calls != [] {
      var mid, call := ApplyAll(db, hash, calls[..|calls| - 1]), calls[|calls| - 1];
      RunsAreDigested(db, hash, calls[..|calls| - 1]);
      ApplyAdvances(mid, hash, call);
      NewRowIsDigested(mid, hash, call);
      assert forall id :: 0 <= id < |mid.confirmations| ==>
        MovesTo(mid.confirmations[id], Apply(mid, hash, call).confirmations[id]);
    }
  }

  predicate DisplayIdTaken(db: Db, workspace: string, displayId: string) {
    exists i :: 0 <= i < |db.enquiries| && db.enquiries[i].buyer.workspace == workspace
      && db.enquiries[i].displayId == displayId
  }

  predicate UnknownDistributor(db: Db, payload: Payload) {
    payload.distributor.Some? && payload.distributor.value !in db.distributors
  }

  /** The row is the caller's own, confirmed, for exactly these details, and has not run out. */
  predicate MayConsume(db: Db, who: Principal, id: nat, payload: Payload, now: real) {
    && Owns(db, who, id)
    && db.confirmations[id].status == Confirmed && db.confirmations[id].payload == payload
    && now < db.confirmations[id].expiresAt
  }

  /** What the workspace must provide for the write to go through. */
  predicate CanStore(db: Db, workspace: string, payload: Payload) {
    && workspace in db.counters && !UnknownDistributor(db, payload)
    && !DisplayIdTaken(db, workspace, EnquiryId(db.counters[workspace].enquiryNext))
  }

  /** A confirmed row has no enquiry yet, and no other row shares its key. */
  lemma OnlyTheDisplayIdCanClash(db: Db, who: Principal, id: nat, payload: Payload)
    requires Sound(db) && Owns(db, who, id) && db.confirmations[id].status == Confirmed && who.workspace in db.counters
    ensures EnquiryFor(db.enquiries, who.workspace, id).None?
    ensures Violates(db, NewEnquiry(db, who, id, payload)) <==> !CanStore(db, who.workspace, payload)
  {
    var e := NewEnquiry(db, who, id, payload);
    forall i | 0 <= i < |db.enquiries|
      ensures db.enquiries[i].confirmation != id
      ensures Clashes(db.enquiries[i], e) <==>
              db.enquiries[i].buyer.workspace == who.workspace && db.enquiries[i].displayId == e.displayId
    {
      var d := db.enquiries[i];
      assert Backed(db, d);
      if d.confirmation < id { assert !SameKey(db.confirmations[d.confirmation], db.confirmations[id]); }
      if id < d.confirmation { assert !SameKey(db.confirmations[id], db.confirmations[d.confirmation]); }
    }
  }

  lemma NoCounterNoStore(db: Db, workspace: string, payload: Payload)
    ensures workspace !in db.counters ==> !CanStore(db, workspace, payload)
  {
  }

  /**
   * The exact conditions of the one write and of its failures. Whatever the hash, it decides nothing: the comparison of
   * payloads does.
   */
  lemma WhenConsumeWrites(
      db: Db, hash: Payload -> Digest, who: Principal, id: nat, payload: Payload, now: real)
    requires Sound(db) && Digested(db, hash)
    ensures var (after, outcome) := Consume(db, hash, who, id, payload, now);
            && (outcome.Created? <==> MayConsume(db, who, id, payload, now) && CanStore(db, who.workspace, payload))
            && (outcome == Raised <==> MayConsume(db, who, id, payload, now) && !CanStore(db, who.workspace, payload))
            && (outcome.Replayed? <==> Owns(db, who, id) && db.confirmations[id].status == Consumed)
            && (outcome.Created? ==>
                  && after.enquiries == db.enquiries + [NewEnquiry(db, who, id, payload)]
                  && outcome.enquiry == |db.enquiries| && after.confirmations[id].status == Consumed)
            && (!outcome.Created? ==> after.enquiries == db.enquiries && after.counters == db.counters)
            && (!outcome.Created? && outcome != Refused(TooLate) ==> after == db)
  {
    hide EnquiryId, EnquiryFor, Sound, Violates, CanStore;
    NoCounterNoStore(db, who.workspace, payload);
    if Owns(db, who, id) {
      OwnedRow(db, who, id);
      if db.confirmations[id].status == Confirmed && who.workspace in db.counters {
        OnlyTheDisplayIdCanClash(db, who, id, payload);
      }
    }
  }

  lemma OwnedRow(db: Db, who: Principal, id: nat)
    requires Sound(db) && Owns(db, who, id)
    ensures EnquiryFor(db.enquiries, who.workspace, id).Some? <==> db.confirmations[id].status == Consumed
  {
    assert Answered(db, id);
    var found := EnquiryFor(db.enquiries, who.workspace, id);
    if found.Some? { assert Backed(db, db.enquiries[found.value]); }
  }

  /** Once written, every later attempt on the confirmation gets the same enquiry back, whatever happened in between. */
  lemma {:induction false} CreatedThenReplayed(
      db: Db, hash: Payload -> Digest, who: Principal, id: nat, payload: Payload, now: real,
      calls: seq<ServiceCall>, anyPayload: Payload, later: real)
    requires Consume(db, hash, who, id, payload, now).1.Created?
    ensures var (written, outcome) := Consume(db, hash, who, id, payload, now);
            var current := ApplyAll(written, hash, calls);
            Consume(current, hash, who, id, anyPayload, later) == (current, Replayed(outcome.enquiry))
  {
    hide EnquiryId, Violates, ApplyAll, EnquiryFor;
    var (written, outcome) := Consume(db, hash, who, id, payload, now);
    AppendedEnquiry(db.enquiries, NewEnquiry(db, who, id, payload), who.workspace, id);
    SettledForever(written, hash, calls, id);
    FirstIsKept(written.enquiries, ApplyAll(written, hash, calls).enquiries, who.workspace, id);
  }

  lemma {:induction false} FirstIsKept(before: seq<Enquiry>, after: seq<Enquiry>, workspace: string, id: nat)
    requires before <= after && EnquiryFor(before, workspace, id).Some?
    ensures EnquiryFor(after, workspace, id) == EnquiryFor(before, workspace, id)
  {
    if |before| < |after| {
      var n := |after| - 1;
      FirstIsKept(before, after[..n], workspace, id);
    } else {
      assert before == after;
    }
  }

  // ---- duplicate proposals ----

  predicate IsLive(c: Confirmation, who: Principal, session: nat, digest: Digest, now: real) {
    Matches(c, who, session, digest) && c.expiresAt > now
  }

  /** A pending row whose time is up; nothing marks it as such. */
  predicate IsStale(c: Confirmation, who: Principal, session: nat, digest: Digest, now: real) {
    Matches(c, who, session, digest) && c.expiresAt <= now
  }

  predicate Inserts(db: Db, hash: Payload -> Digest, who: Principal, session: nat, payload: Payload, hint: nat,
      now: real) {
    |Prepare(db, hash, who, session, payload, hint, now).0.confirmations| > |db.confirmations|
  }

  /**
   * A live row does not always prevent a second one: beside a live row, some order of the query's rows makes a proposal
   * insert another exactly when a stale pending row is there as well and the key is free.
   */
  lemma WhenAProposalIsDuplicated(db: Db, hash: Payload -> Digest, who: Principal, session: nat, payload: Payload,
      now: real)
    requires exists i :: 0 <= i < |db.confirmations| && IsLive(db.confirmations[i], who, session, hash(payload), now)
    ensures (exists hint: nat :: Inserts(db, hash, who, session, payload, hint, now))
       <==> (exists i :: 0 <= i < |db.confirmations| && IsStale(db.confirmations[i], who, session, hash(payload), now))
            && !KeyTaken(db.confirmations, who.workspace, Key(session, hash(payload), now))
  {
    hide KeyTaken, FirstMatch;
    var digest := hash(payload);
    if i :| 0 <= i < |db.confirmations| && IsStale(db.confirmations[i], who, session, digest, now) {
      assert Existing(db.confirmations, who, session, digest, i) == Some(i);
      if !KeyTaken(db.confirmations, who.workspace, Key(session, digest, now)) {
        assert Inserts(db, hash, who, session, payload, i, now);
      }
    }
    forall hint: nat | Inserts(db, hash, who, session, payload, hint, now)
      ensures !KeyTaken(db.confirmations, who.workspace, Key(session, digest, now))
      ensures exists i :: 0 <= i < |db.confirmations| && IsStale(db.confirmations[i], who, session, digest, now)
    {
      var existing := Existing(db.confirmations, who, session, digest, hint);
      assert existing.Some?;
      assert IsStale(db.confirmations[existing.value], who, session, digest, now);
    }
  }

  /** The one proposal of a session, made at this time, with the query yielding the first row first. */
  function ProposalAt(who: Principal, details: Payload, now: real): ServiceCall { PrepareCall(who, 0, details, 0, now) }

  /** A proposal for which there is no open row: a new one, unless its key is taken. */
  lemma NewProposal(db: Db, hash: Payload -> Digest, who: Principal, details: Payload, now: real)
    requires db.confirmations != [] ==>
               Matches(db.confirmations[0], who, 0, hash(details)) && db.confirmations[0].expiresAt <= now
    requires forall i :: 0 <= i < |db.confirmations| ==> db.confirmations[i].key.at != now
    ensures Apply(db, hash, ProposalAt(who, details, now))
         == db.(confirmations := db.confirmations + [NewConfirmation(who, 0, hash(details), details, now)])
  {
  }

  /**
   * Three proposals of the same details at 0 s, 301 s and 302 s: the first row is stale but still pending, the query
   * yields it first each time, and two live rows of one digest are left.
   */
  lemma ADuplicatedProposal(db: Db, hash: Payload -> Digest, who: Principal, details: Payload)
    requires db.confirmations == []
    ensures var a, b := ProposalAt(who, details, 0.0), ProposalAt(who, details, 301.0);
            var calls := [a, b, ProposalAt(who, details, 302.0)];
            var rows := ApplyAll(db, hash, calls).confirmations;
            && |rows| == 3 && rows[1] != rows[2]
            && IsLive(rows[1], who, 0, hash(details), 302.0) && IsLive(rows[2], who, 0, hash(details), 302.0)
  {
    hide Apply, ApplyAll;
    var a, b, c := ProposalAt(who, details, 0.0), ProposalAt(who, details, 301.0), ProposalAt(who, details, 302.0);
    ApplyThree(db, hash, a, b, c);
    NewProposal(db, hash, who, details, 0.0);
    var one := Apply(db, hash, a);
    NewProposal(one, hash, who, details, 301.0);
    NewProposal(Apply(one, hash, b), hash, who, details, 302.0);
  }

  lemma ApplyThree(db: Db, hash: Payload -> Digest, a: ServiceCall, b: ServiceCall, c: ServiceCall)
    ensures ApplyAll(db, hash, [a, b, c]) == Apply(Apply(Apply(db, hash, a), hash, b), hash, c)
  {
    hide Apply;
    assert [a, b, c][..2] == [a, b] && [a, b][..1] == [a] && [a][..0] == [];
    assert ApplyAll(db, hash, [a]) == Apply(db, hash, a);
    assert ApplyAll(db, hash, [a, b]) == Apply(Apply(db, hash, a), hash, b);
  }
}
