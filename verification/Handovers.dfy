/** Requests for a person over whole runs: recorded once, numbered, and kept. */
module Handovers {
  import opened Enquiries
  import opened Ledger
  import opened Protocol
  import opened Runs
  import Decimal
  import Dialogue
  import Replies

  lemma {:induction false} CallsKeepSupports(db: Db, hash: Payload -> Digest, calls: seq<ServiceCall>)
    ensures db.supports <= ApplyAll(db, hash, calls).supports
  {
    hide Apply;
    if calls != [] {
      var mid := ApplyAll(db, hash, calls[..|calls| - 1]);
      CallsKeepSupports(db, hash, calls[..|calls| - 1]);
      ApplyAdvances(mid, hash, calls[|calls| - 1]);
    }
  }

  lemma EventKeepsSupports(w: World, hash: Payload -> Digest, e: Event)
    ensures w.db.supports <= Step(w, hash, e).db.supports
  {
    hide React, Step, Target, Fits, FromSession;
    StepChanges(w, hash, e);
    if Target(w, e).Some? {
      TargetFits(w, e);
      var calls := EventCalls(hash, w.db, w.clients[e.session], e);
      CallsKeepSupports(w.db, hash, calls);
    }
  }

  /** What has been recorded stays recorded. */
  lemma {:induction false} SupportsStay(r: Run, k: nat, n: nat)
    requires k <= n <= |r.events|
    ensures At(r, k).db.supports <= At(r, n).db.supports
  {
    hide At, Step;
    if k < n {
      SupportsStay(r, k, n - 1);
      AtStep(r, n - 1);
      EventKeepsSupports(At(r, n - 1), r.hash, r.events[n - 1]);
    }
  }

  /** A message of an open chat that asks for a person, with a text and a workspace that allow it. */
  ghost predicate AsksAt(r: Run, k: nat, text: string)
    requires k < |r.events|
  {
    var w, e := At(r, k), r.events[k];
    && e.Typed? && e.session in w.clients && w.clients[e.session].Chat?
    && Replies.ReachesIntents(w.clients[e.session].conversation, e.message, text)
    && Replies.Meaning(text, e.message) == Dialogue.Scored(Dialogue.Human) && |text| <= 1000
    && var workspace := w.clients[e.session].conversation.owner.workspace;
       && workspace in w.db.counters
       && forall i :: 0 <= i < |w.db.supports| && w.db.supports[i].requester.workspace == workspace ==>
            w.db.supports[i].displayId != "SUP-" + Decimal.Print(w.db.counters[workspace].supportNext)
  }

  /**
   * In every run a request for a person is recorded with its words under the workspace's next number, once; the number
   * moves on; the conversation goes on; and the record is there at every later point.
   */
  lemma ARequestForAPersonIsKept(r: Run, k: nat, n: nat, text: string)
    requires k < n <= |r.events| && AsksAt(r, k, text)
    ensures var w, next, session := At(r, k), At(r, k + 1), r.events[k].session;
            var owner := w.clients[session].conversation.owner;
            var number := w.db.counters[owner.workspace].supportNext;
            var record := SupportRequest(owner, "SUP-" + Decimal.Print(number), text);
            && next.db.supports == w.db.supports + [record]
            && owner.workspace in next.db.counters
            && next.db.counters[owner.workspace].supportNext == number + 1
            && next.db.confirmations == w.db.confirmations && next.db.enquiries == w.db.enquiries
            && session in next.clients
            && |w.db.supports| < |At(r, n).db.supports| && At(r, n).db.supports[|w.db.supports|] == record
  {
    hide At, Step, Target, Replies.ReachesIntents, Replies.Meaning, Dialogue.Say, Decimal.Print;
    var w, e := At(r, k), r.events[k];
    AtStep(r, k);
    StepChanges(w, r.hash, e);
    TypedIsLetThrough(w, e);
    Replies.WhatAPersonIsAskedFor(w.db, r.hash, w.clients[e.session].conversation, e.message, text);
    SupportsStay(r, k + 1, n);
  }

  lemma TypedIsLetThrough(w: World, e: Event)
    requires e.Typed? && e.session in w.clients && w.clients[e.session].Chat?
    ensures Target(w, e).Some? && Target(w, e).value == w.clients[e.session]
  {
  }
}
