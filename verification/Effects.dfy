/** What each call of the service answers and which rows it changes, field by field. */
module Effects {
  import opened Wrappers
  import opened Enquiries
  import Decimal
  import Details

  /** Nothing but the confirmation rows may differ, and of those that were there only this one. */
  ghost predicate OnlyRow(db: Db, after: Db, id: nat) {
    && after.enquiries == db.enquiries && after.supports == db.supports && after.counters == db.counters
    && after.distributors == db.distributors && |after.confirmations| == |db.confirmations|
    && forall i :: 0 <= i < |db.confirmations| && i != id ==> after.confirmations[i] == db.confirmations[i]
  }

  /** The row is there, and it is this user's in this workspace. */
  predicate IsOwn(db: Db, who: Principal, id: nat) {
    id < |db.confirmations| && db.confirmations[id].owner.workspace == who.workspace
    && db.confirmations[id].owner.user == who.user
  }

  /**
   * A confirmation goes through exactly for the owner's pending row before its deadline, which it dates; at or after
   * the deadline it marks that row as expired; nothing else happens.
   */
  lemma WhatConfirmDoes(db: Db, who: Principal, id: nat, now: real)
    ensures var (after, confirmed) := Confirm(db, who, id, now);
            var open := IsOwn(db, who, id) && db.confirmations[id].status == Pending;
            && (confirmed <==> open && now < db.confirmations[id].expiresAt)
            && OnlyRow(db, after, id)
            && (id < |db.confirmations| ==>
                  var c := db.confirmations[id];
                  after.confirmations[id]
                  == if confirmed then c.(status := Confirmed, confirmedAt := Some(now))
                     else if open then c.(status := Expired)
                     else c)
  {
  }

  /** A cancellation goes through exactly for the owner's row that is pending or confirmed; nothing else changes. */
  lemma WhatCancelDoes(db: Db, who: Principal, id: nat)
    ensures var (after, cancelled) := Cancel(db, who, id);
            && (cancelled <==> IsOwn(db, who, id)
                               && (db.confirmations[id].status == Pending || db.confirmations[id].status == Confirmed))
            && OnlyRow(db, after, id)
            && (id < |db.confirmations| ==>
                  after.confirmations[id]
                  == if cancelled then db.confirmations[id].(status := Cancelled) else db.confirmations[id])
  {
  }

  /** A pending row of this user, session and digest. */
  predicate IsOpen(c: Confirmation, who: Principal, session: nat, digest: Digest) {
    c.owner == who && c.session == session && c.digest == digest && c.status == Pending
  }

  /**
   * A proposal reuses an open row that has time left, adds a row that runs out 300 s from now, or fails for its key. It
   * reuses one for certain if there is one with time left and none without, and never if there is none.
   */
  lemma WhatPrepareDoes(
      db: Db, hash: Payload -> Digest, who: Principal, session: nat, payload: Payload, hint: nat, now: real)
    ensures var (after, id) := Prepare(db, hash, who, session, payload, hint, now);
            var digest, rows := hash(payload), db.confirmations;
            var taken := exists i :: 0 <= i < |rows| && rows[i].owner.workspace == who.workspace
                                     && rows[i].key == Key(session, digest, now);
            && (id.None? ==> after == db && taken)
            && (id.Some? && id.value < |rows| ==>
                  after == db && IsOpen(rows[id.value], who, session, digest) && now < rows[id.value].expiresAt)
            && (id.Some? && id.value >= |rows| ==>
                  && id.value == |rows| && !taken
                  && after == db.(confirmations := rows + [Confirmation(
                       who, session, digest, payload, Pending, Key(session, digest, now), now + 300.0, None, None)]))
            && ((forall i :: 0 <= i < |rows| && IsOpen(rows[i], who, session, digest) ==> rows[i].expiresAt <= now) ==>
                  id.None? || id.value == |rows|)
            && ((exists i :: 0 <= i < |rows| && IsOpen(rows[i], who, session, digest))
                && (forall i :: 0 <= i < |rows| && IsOpen(rows[i], who, session, digest) ==>
                      now < rows[i].expiresAt) ==>
                  id.Some? && id.value < |rows|)
  {
    hide FirstMatch;
    var found := Existing(db.confirmations, who, session, hash(payload), hint);
    if found.Some? { assert IsOpen(db.confirmations[found.value], who, session, hash(payload)); }
    assert forall i :: 0 <= i < |db.confirmations| ==>
      (IsOpen(db.confirmations[i], who, session, hash(payload))
       <==> Matches(db.confirmations[i], who, session, hash(payload)));
  }

  /** The first enquiry of the workspace that names the confirmation. */
  predicate IsAnswer(db: Db, workspace: string, id: nat, e: nat) {
    && e < |db.enquiries| && db.enquiries[e].buyer.workspace == workspace && db.enquiries[e].confirmation == id
    && forall i :: 0 <= i < e ==>
         !(db.enquiries[i].buyer.workspace == workspace && db.enquiries[i].confirmation == id)
  }

  lemma {:induction false} FirstEnquiry(enquiries: seq<Enquiry>, workspace: string, id: nat)
    ensures var e := EnquiryFor(enquiries, workspace, id);
            e.Some? ==> forall i :: 0 <= i < e.value ==>
              !(enquiries[i].buyer.workspace == workspace && enquiries[i].confirmation == id)
  {
    if enquiries != [] {
      var init := enquiries[..|enquiries| - 1];
      FirstEnquiry(init, workspace, id);
      assert forall i :: 0 <= i < |init| ==> init[i] == enquiries[i];
    }
  }

  /** Two enquiries that a unique constraint keeps apart. */
  predicate Collide(d: Enquiry, e: Enquiry) {
    || d.confirmation == e.confirmation
    || (d.buyer.workspace == e.buyer.workspace && d.displayId == e.displayId)
    || (d.buyer.workspace == e.buyer.workspace && d.key == e.key)
  }

  /** A unique constraint or the foreign key would fail for this enquiry. */
  predicate IsClash(db: Db, e: Enquiry) {
    || (e.payload.distributor.Some? && e.payload.distributor.value !in db.distributors)
    || exists i :: 0 <= i < |db.enquiries| && Collide(db.enquiries[i], e)
  }

  /**
   * The checks of the write in their order, and all that each outcome leaves in the tables. The new enquiry takes the
   * number of the workspace's counter, the caller's details, and the key of the row.
   */
  lemma WhatConsumeDoes(db: Db, hash: Payload -> Digest, who: Principal, id: nat, payload: Payload, now: real)
    ensures var (after, outcome) := Consume(db, hash, who, id, payload, now);
            if !IsOwn(db, who, id) then after == db && outcome == Refused(NotFound)
            else if exists e :: IsAnswer(db, who.workspace, id, e) then
              after == db && outcome.Replayed? && IsAnswer(db, who.workspace, id, outcome.enquiry)
            else
              var c := db.confirmations[id];
              if c.digest != hash(payload) || c.payload != payload then
                after == db && outcome == Refused(PayloadMismatch)
              else if c.status != Confirmed then after == db && outcome == Refused(NotConfirmed)
              else if c.expiresAt <= now then
                && outcome == Refused(TooLate) && OnlyRow(db, after, id)
                && after.confirmations[id] == c.(status := Expired)
              else if who.workspace !in db.counters then after == db && outcome == Raised
              else
                var n := db.counters[who.workspace].enquiryNext;
                var e := Enquiry(who, "ENQ-" + Decimal.Print(n), payload, id, c.key);
                if IsClash(db, e) then after == db && outcome == Raised
                else
                  && outcome == Created(|db.enquiries|) && after.enquiries == db.enquiries + [e]
                  && after.confirmations
                     == db.confirmations[id := c.(status := Consumed, consumedAt := Some(now))]
                  && after.counters == db.counters[who.workspace := db.counters[who.workspace].(enquiryNext := n + 1)]
                  && after.supports == db.supports && after.distributors == db.distributors
  {
    hide Decimal.Print, EnquiryFor;
    FirstEnquiry(db.enquiries, who.workspace, id);
    var found := EnquiryFor(db.enquiries, who.workspace, id);
    if found.Some? { assert IsAnswer(db, who.workspace, id, found.value); }
    if IsOwn(db, who, id) && who.workspace in db.counters {
      ClashIsViolation(db, NewEnquiry(db, who, id, payload));
    }
  }

  lemma ClashIsViolation(db: Db, e: Enquiry)
    ensures Violates(db, e) <==> IsClash(db, e)
  {
    assert forall i :: 0 <= i < |db.enquiries| ==> (Clashes(db.enquiries[i], e) <==> Collide(db.enquiries[i], e));
  }

  /**
   * A support request takes the workspace's next number. It needs a reason of at least one and at most 1000 characters
   * without the blanks around it, a counter in the workspace, and a free number; otherwise nothing changes.
   */
  lemma WhatSupportDoes(db: Db, who: Principal, text: string, reason: string)
    requires Details.IsTrimmed(text, reason)
    ensures var (after, outcome) := RequestSupport(db, who, text);
            if !(1 <= |reason| <= 1000) then after == db && outcome == BadReason
            else if who.workspace !in db.counters then after == db && outcome == NoCounter
            else
              var n := db.counters[who.workspace].supportNext;
              var displayId := "SUP-" + Decimal.Print(n);
              if exists i :: 0 <= i < |db.supports| && db.supports[i].requester.workspace == who.workspace
                             && db.supports[i].displayId == displayId
              then after == db && outcome == RaisedSupport
              else
                && outcome == Recorded(displayId)
                && after.supports == db.supports + [SupportRequest(who, displayId, reason)]
                && after.counters == db.counters[who.workspace := db.counters[who.workspace].(supportNext := n + 1)]
                && after.confirmations == db.confirmations && after.enquiries == db.enquiries
                && after.distributors == db.distributors
  {
    hide Decimal.Print, Details.IsTrimmed;
    Details.WhatIsStripped(text, reason);
  }
}
