/** The enquiry service: proposals, their confirmation rows, and the one write they authorise. */
module Enquiries {
  import opened Wrappers
  import Decimal
  import Tokeniser

  // ---- the details of an enquiry ----

  /**
   * A JSON value as it arrives from outside; booleans, fractions, arrays and objects are carried only as their text.
   */
  datatype Json = Null | Number(n: int) | Text(s: string) | Nested(text: string)

  datatype Payload = Payload(
    product: string, quantity: int, unit: string, destination: string, distributor: Option<string>)

  /** A short text field, trimmed; None when it is missing, too long or blank. */
  function ShortText(args: map<string, Json>, field: string): Option<string> {
    if field in args && args[field].Text? && 1 <= |args[field].s| <= 160 && Tokeniser.Strip(args[field].s) != "" then
      Some(Tokeniser.Strip(args[field].s))
    else None
  }

  const MAX_QUANTITY := 1_000_000

  const UNITS := {"kg", "tonnes", "units"}

  /** The exact details the arguments stand for; None is a validation error. */
  function Validated(args: map<string, Json>): Option<Payload> {
    var product, destination := ShortText(args, "product"), ShortText(args, "destination");
    var distributor := if "distributor_id" in args then args["distributor_id"] else Null;
    if product.None? || destination.None? then None
    else if !("quantity" in args && args["quantity"].Number? && 0 < args["quantity"].n <= MAX_QUANTITY) then None
    else if !("unit" in args && args["unit"].Text? && args["unit"].s in UNITS) then None
    else if !(distributor.Null? || (distributor.Text? && |distributor.s| <= 32)) then None
    else Some(Payload(
      product.value, args["quantity"].n, args["unit"].s, destination.value,
      if distributor.Null? then None else Some(distributor.s)))
  }

  /** The arguments a payload is dumped to. */
  function Dumped(p: Payload): map<string, Json> {
    map["product" := Text(p.product), "quantity" := Number(p.quantity), "unit" := Text(p.unit),
        "destination" := Text(p.destination),
        "distributor_id" := if p.distributor.Some? then Text(p.distributor.value) else Null]
  }

  lemma {:induction false} TrimmedStays(s: string)
    ensures Tokeniser.Strip(Tokeniser.Strip(s)) == Tokeniser.Strip(s)
  {
  }

  lemma DumpedFields(p: Payload)
    ensures var d := Dumped(p);
            && "product" in d && "quantity" in d && "unit" in d && "destination" in d && "distributor_id" in d
            && d["product"] == Text(p.product) && d["quantity"] == Number(p.quantity) && d["unit"] == Text(p.unit)
            && d["destination"] == Text(p.destination)
            && d["distributor_id"] == if p.distributor.Some? then Text(p.distributor.value) else Null
  {
    assert "product" != "quantity" && "product" != "unit" && "quantity" != "unit";
    assert |"destination"| == 11 && |"distributor_id"| == 14;
  }

  /** Validation is a projection: what it accepts is dumped to arguments it accepts unchanged. */
  lemma {:induction false} ValidatedIsStable(args: map<string, Json>)
    requires Validated(args).Some?
    ensures Validated(Dumped(Validated(args).value)) == Validated(args)
  {
    hide Dumped, Tokeniser.Strip;
    var p := Validated(args).value;
    DumpedFields(p);
    TrimmedStays(args["product"].s);
    TrimmedStays(args["destination"].s);
  }

  // ---- the tables ----

  type Digest = string

  /** Who is asking. */
  datatype Principal = Principal(workspace: string, user: string)

  datatype Status = Pending | Confirmed | Consumed | Cancelled | Expired

  /** The parts an idempotency key is printed from. */
  datatype Key = Key(session: nat, digest: Digest, at: real)

  datatype Confirmation = Confirmation(
    owner: Principal, session: nat, digest: Digest, payload: Payload, status: Status,
    key: Key, expiresAt: real, confirmedAt: Option<real>, consumedAt: Option<real>)

  datatype Enquiry = Enquiry(buyer: Principal, displayId: string, payload: Payload, confirmation: nat, key: Key)

  datatype SupportRequest = SupportRequest(requester: Principal, displayId: string, reason: string)

  datatype Counter = Counter(enquiryNext: nat, supportNext: nat)

  /**
   * The database. A row's id is its position, which stands for the fresh identifier it is given.
   * `distributors` are the ids the foreign key of an enquiry accepts.
   */
  datatype Db = Db(
    confirmations: seq<Confirmation>, enquiries: seq<Enquiry>, supports: seq<SupportRequest>,
    counters: map<string, Counter>, distributors: set<string>)

  const TTL := 300.0

  function EnquiryId(n: nat): string { "ENQ-" + Decimal.Print(n) }

  function SupportId(n: nat): string { "SUP-" + Decimal.Print(n) }

  // ---- proposing ----

  predicate Matches(c: Confirmation, who: Principal, session: nat, digest: Digest) {
    c.owner == who && c.session == session && c.digest == digest && c.status == Pending
  }

  /** The least matching row from `at` on. */
  function FirstMatch(rows: seq<Confirmation>, at: nat, who: Principal, session: nat, digest: Digest): (r: Option<nat>)
    ensures r.Some? ==> at <= r.value < |rows| && Matches(rows[r.value], who, session, digest)
    ensures r.None? ==> forall i :: at <= i < |rows| ==> !Matches(rows[i], who, session, digest)
    decreases |rows| - at
  {
    if at >= |rows| then None
    else if Matches(rows[at], who, session, digest) then Some(at)
    else FirstMatch(rows, at + 1, who, session, digest)
  }

  /** The query has no order: any matching row may come first, and `hint` stands for the storage's choice. */
  function Existing(rows: seq<Confirmation>, who: Principal, session: nat, digest: Digest, hint: nat): (r: Option<nat>)
    ensures r.Some? ==> r.value < |rows| && Matches(rows[r.value], who, session, digest)
    ensures r.None? ==> forall i :: 0 <= i < |rows| ==> !Matches(rows[i], who, session, digest)
    ensures hint < |rows| && Matches(rows[hint], who, session, digest) ==> r == Some(hint)
  {
    if hint < |rows| && Matches(rows[hint], who, session, digest) then Some(hint)
    else FirstMatch(rows, 0, who, session, digest)
  }

  /** The unique constraint on a workspace's idempotency keys. */
  predicate KeyTaken(rows: seq<Confirmation>, workspace: string, key: Key) {
    exists i :: 0 <= i < |rows| && rows[i].owner.workspace == workspace && rows[i].key == key
  }

  function NewConfirmation(who: Principal, session: nat, digest: Digest, payload: Payload, now: real): Confirmation {
    Confirmation(who, session, digest, payload, Pending, Key(session, digest, now), now + TTL, None, None)
  }

  /** The confirmation row for a proposal; None is the integrity error of a clashing key. */
  function Prepare(
      db: Db, hash: Payload -> Digest, who: Principal, session: nat, payload: Payload, hint: nat, now: real)
    : (Db, Option<nat>)
  {
    var digest := hash(payload);
    var existing := Existing(db.confirmations, who, session, digest, hint);
    if existing.Some? && db.confirmations[existing.value].expiresAt > now then (db, existing)
    else if KeyTaken(db.confirmations, who.workspace, Key(session, digest, now)) then (db, None)
    else
      (db.(confirmations := db.confirmations + [NewConfirmation(who, session, digest, payload, now)]),
       Some(|db.confirmations|))
  }

  // ---- accepting and refusing ----

  predicate Owns(db: Db, who: Principal, id: nat) { id < |db.confirmations| && db.confirmations[id].owner == who }

  function WithStatus(db: Db, id: nat, status: Status): Db
    requires id < |db.confirmations|
  {
    db.(confirmations := db.confirmations[id := db.confirmations[id].(status := status)])
  }

  function Confirm(db: Db, who: Principal, id: nat, now: real): (Db, bool) {
    if !Owns(db, who, id) || db.confirmations[id].status != Pending then (db, false)
    else if db.confirmations[id].expiresAt <= now then (WithStatus(db, id, Expired), false)
    else
      var c := db.confirmations[id].(status := Confirmed, confirmedAt := Some(now));
      (db.(confirmations := db.confirmations[id := c]), true)
  }

  function Cancel(db: Db, who: Principal, id: nat): (Db, bool) {
    if Owns(db, who, id) && db.confirmations[id].status in {Pending, Confirmed} then
      (WithStatus(db, id, Cancelled), true)
    else (db, false)
  }

  // ---- the write ----

  datatype Refusal = NotFound | PayloadMismatch | NotConfirmed | TooLate

  /** `Raised` is an exception: no counter in the workspace, or an integrity error with nothing to replay. */
  datatype Outcome = Created(enquiry: nat) | Replayed(enquiry: nat) | Refused(why: Refusal) | Raised

  /** The first enquiry of a workspace that came from a confirmation. */
  function EnquiryFor(enquiries: seq<Enquiry>, workspace: string, id: nat): (r: Option<nat>)
    ensures r.Some? ==>
              r.value < |enquiries| && enquiries[r.value].buyer.workspace == workspace
                && enquiries[r.value].confirmation == id
    ensures r.None? ==>
              forall i :: 0 <= i < |enquiries| ==>
                !(enquiries[i].buyer.workspace == workspace && enquiries[i].confirmation == id)
  {
    if enquiries == [] then None
    else
      var n := |enquiries| - 1;
      var earlier := EnquiryFor(enquiries[..n], workspace, id);
      if earlier.Some? then earlier
      else if enquiries[n].buyer.workspace == workspace && enquiries[n].confirmation == id then Some(n)
      else None
  }

  /** The unique constraints on enquiries, and the foreign key of the distributor. */
  predicate Violates(db: Db, e: Enquiry) {
    || (e.payload.distributor.Some? && e.payload.distributor.value !in db.distributors)
    || (exists i :: 0 <= i < |db.enquiries| && Clashes(db.enquiries[i], e))
  }

  predicate Clashes(d: Enquiry, e: Enquiry) {
    || d.confirmation == e.confirmation
    || (d.buyer.workspace == e.buyer.workspace && (d.displayId == e.displayId || d.key == e.key))
  }

  function NewEnquiry(db: Db, who: Principal, id: nat, payload: Payload): Enquiry
    requires id < |db.confirmations| && who.workspace in db.counters
  {
    Enquiry(who, EnquiryId(db.counters[who.workspace].enquiryNext), payload, id, db.confirmations[id].key)
  }

  /** The tables after the one transaction that writes an enquiry. */
  function Written(db: Db, who: Principal, id: nat, payload: Payload, now: real): Db
    requires id < |db.confirmations| && who.workspace in db.counters
  {
    var counter := db.counters[who.workspace];
    db.(
      confirmations := db.confirmations[id := db.confirmations[id].(status := Consumed, consumedAt := Some(now))],
      enquiries := db.enquiries + [NewEnquiry(db, who, id, payload)],
      counters := db.counters[who.workspace := counter.(enquiryNext := counter.enquiryNext + 1)])
  }

  function Consume(db: Db, hash: Payload -> Digest, who: Principal, id: nat, payload: Payload, now: real)
    : (Db, Outcome)
  {
    if !Owns(db, who, id) then (db, Refused(NotFound))
    else
      var c := db.confirmations[id];
      var existing := EnquiryFor(db.enquiries, who.workspace, id);
      if existing.Some? then (db, Replayed(existing.value))
      else if c.digest != hash(payload) || c.payload != payload then (db, Refused(PayloadMismatch))
      else if c.status != Confirmed then (db, Refused(NotConfirmed))
      else if c.expiresAt <= now then (WithStatus(db, id, Expired), Refused(TooLate))
      else if who.workspace !in db.counters then (db, Raised)
      else if Violates(db, NewEnquiry(db, who, id, payload)) then (db, Raised)
      else (Written(db, who, id, payload, now), Created(|db.enquiries|))
  }

  // ---- human support, the other user of the counter ----

  /** `RaisedSupport` is the integrity error of a taken display id. */
  datatype SupportOutcome = Recorded(id: string) | BadReason | NoCounter | RaisedSupport

  predicate SupportIdTaken(db: Db, workspace: string, displayId: string) {
    exists i :: 0 <= i < |db.supports| && db.supports[i].requester.workspace == workspace
             && db.supports[i].displayId == displayId
  }

  function RequestSupport(db: Db, who: Principal, text: string): (Db, SupportOutcome) {
    var reason := Tokeniser.Strip(text);
    if reason == "" || |reason| > 1000 then (db, BadReason)
    else if who.workspace !in db.counters then (db, NoCounter)
    else
      var counter := db.counters[who.workspace];
      var displayId := SupportId(counter.supportNext);
      if SupportIdTaken(db, who.workspace, displayId) then (db, RaisedSupport)
      else
        (db.(supports := db.supports + [SupportRequest(who, displayId, reason)],
             counters := db.counters[who.workspace := counter.(supportNext := counter.supportNext + 1)]),
         Recorded(displayId))
  }

  // ---- the service, as it changes its tables ----

  class Service {
    var confirmations: seq<Confirmation>
    var enquiries: seq<Enquiry>
    var supports: seq<SupportRequest>
    var counters: map<string, Counter>
    const distributors: set<string>
    const hash: Payload -> Digest

    ghost function Tables(): Db
      reads this
    {
      Db(confirmations, enquiries, supports, counters, distributors)
    }

    constructor (hash: Payload -> Digest, counters: map<string, Counter>, distributors: set<string>)
      ensures this.hash == hash && Tables() == Db([], [], [], counters, distributors)
    {
      this.hash, this.counters, this.distributors := hash, counters, distributors;
      confirmations, enquiries, supports := [], [], [];
    }

    method FindExisting(who: Principal, session: nat, digest: Digest, hint: nat) returns (found: Option<nat>)
      ensures found == Existing(confirmations, who, session, digest, hint)
    {
      if hint < |confirmations| && Matches(confirmations[hint], who, session, digest) {
        return Some(hint);
      }
      for i := 0 to |confirmations|
        invariant FirstMatch(confirmations, 0, who, session, digest)
               == FirstMatch(confirmations, i, who, session, digest)
      {
        if Matches(confirmations[i], who, session, digest) {
          return Some(i);
        }
      }
      return None;
    }

    method PrepareConfirmation(who: Principal, session: nat, payload: Payload, hint: nat, now: real)
      returns (id: Option<nat>)
      modifies this
      ensures (Tables(), id) == Prepare(old(Tables()), hash, who, session, payload, hint, now)
    {
      var digest := hash(payload);
      var existing := FindExisting(who, session, digest, hint);
      if existing.Some? && confirmations[existing.value].expiresAt > now {
        return existing;
      }
      var key := Key(session, digest, now);
      var taken := exists i ::
          0 <= i < |confirmations| && confirmations[i].owner.workspace == who.workspace && confirmations[i].key == key;
      if taken {
        return None;
      }
      id := Some(|confirmations|);
      confirmations := confirmations
        + [Confirmation(who, session, digest, payload, Pending, key, now + TTL, None, None)];
    }

    method ConfirmConfirmation(who: Principal, id: nat, now: real) returns (confirmed: bool)
      modifies this
      ensures (Tables(), confirmed) == Confirm(old(Tables()), who, id, now)
    {
      if id >= |confirmations| || confirmations[id].owner != who || confirmations[id].status != Pending {
        return false;
      }
      if confirmations[id].expiresAt <= now {
        confirmations := confirmations[id := confirmations[id].(status := Expired)];
        return false;
      }
      var confirmation := confirmations[id];
      confirmation := confirmation.(status := Confirmed);
      confirmation := confirmation.(confirmedAt := Some(now));
      confirmations := confirmations[id := confirmation];
      return true;
    }

    method CancelConfirmation(who: Principal, id: nat) returns (cancelled: bool)
      modifies this
      ensures (Tables(), cancelled) == Cancel(old(Tables()), who, id)
    {
      if id >= |confirmations| || confirmations[id].owner != who
         || (confirmations[id].status != Pending && confirmations[id].status != Confirmed) {
        return false;
      }
      confirmations := confirmations[id := confirmations[id].(status := Cancelled)];
      return true;
    }

    method FindEnquiry(workspace: string, id: nat) returns (found: Option<nat>)
      ensures found == EnquiryFor(enquiries, workspace, id)
    {
      for i := 0 to |enquiries|
        invariant EnquiryFor(enquiries[..i], workspace, id) == None
      {
        assert enquiries[..i + 1][..i] == enquiries[..i];
        if enquiries[i].buyer.workspace == workspace && enquiries[i].confirmation == id {
          FirstStays(enquiries, workspace, id, i);
          return Some(i);
        }
      }
      assert enquiries[..|enquiries|] == enquiries;
      return None;
    }

    /** The locked transaction; a rollback puts everything back. */
    method ConsumeConfirmation(who: Principal, id: nat, payload: Payload, now: real) returns (outcome: Outcome)
      modifies this
      ensures (Tables(), outcome) == Consume(old(Tables()), hash, who, id, payload, now)
    {
      hide EnquiryFor;
      var digest := hash(payload);
      if id >= |confirmations| || confirmations[id].owner != who {
        return Refused(NotFound);
      }
      var existing := FindEnquiry(who.workspace, id);
      if existing.Some? {
        return Replayed(existing.value);
      }
      var confirmation := confirmations[id];
      if confirmation.digest != digest || confirmation.payload != payload {
        return Refused(PayloadMismatch);
      }
      if confirmation.status != Confirmed {
        return Refused(NotConfirmed);
      }
      if confirmation.expiresAt <= now {
        confirmations := confirmations[id := confirmation.(status := Expired)];
        return Refused(TooLate);
      }
      if who.workspace !in counters {
        return Raised;
      }
      var nextNumber, before := counters[who.workspace].enquiryNext, counters;
      counters := counters[who.workspace := counters[who.workspace].(enquiryNext := nextNumber + 1)];
      var enquiry := Enquiry(who, EnquiryId(nextNumber), payload, id, confirmation.key);
      confirmations := confirmations[id := confirmation.(status := Consumed, consumedAt := Some(now))];
      var refused := (payload.distributor.Some? && payload.distributor.value !in distributors)
                     || exists i :: 0 <= i < |enquiries| && Clashes(enquiries[i], enquiry);
      if refused {
        counters, confirmations := before, confirmations[id := confirmation];
        assert confirmations == old(confirmations);
        return Raised;
      }
      outcome := Created(|enquiries|);
      enquiries := enquiries + [enquiry];
    }

    method RequestHumanSupport(who: Principal, text: string) returns (outcome: SupportOutcome)
      modifies this
      ensures (Tables(), outcome) == RequestSupport(old(Tables()), who, text)
    {
      var reason := Tokeniser.Strip(text);
      if reason == "" || |reason| > 1000 {
        return BadReason;
      }
      if who.workspace !in counters {
        return NoCounter;
      }
      var next := counters[who.workspace].supportNext;
      var displayId := SupportId(next);
      var taken := exists i ::
          0 <= i < |supports| && supports[i].requester.workspace == who.workspace && supports[i].displayId == displayId;
      if taken {
        return RaisedSupport;
      }
      counters := counters[who.workspace := counters[who.workspace].(supportNext := next + 1)];
      supports := supports + [SupportRequest(who, displayId, reason)];
      return Recorded(displayId);
    }
  }

  lemma {:induction false} FirstStays(enquiries: seq<Enquiry>, workspace: string, id: nat, i: nat)
    requires i < |enquiries| && EnquiryFor(enquiries[..i], workspace, id) == None
    requires enquiries[i].buyer.workspace == workspace && enquiries[i].confirmation == id
    ensures EnquiryFor(enquiries, workspace, id) == Some(i)
  {
    var n := |enquiries| - 1;
    if i < n {
      assert enquiries[..n][..i] == enquiries[..i];
      FirstStays(enquiries[..n], workspace, id, i);
    }
  }
}
