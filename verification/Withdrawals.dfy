/** What a refusal promises over whole runs: the row it cancels is never confirmed and never written again. */
module Withdrawals {
  import opened Enquiries
  import opened Ledger
  import opened Protocol
  import opened Runs
  import Dialogue
  import Effects
  import Progress
  import Realtime
  import Tokeniser
  import Transcripts

  // ---- a settled row through one event ----

  /** No enquiry of the row is added. */
  ghost predicate AddsNone(db: Db, after: Db, id: nat) {
    && db.enquiries <= after.enquiries
    && forall i :: |db.enquiries| <= i < |after.enquiries| ==> after.enquiries[i].confirmation != id
  }

  lemma CallAddsNone(db: Db, hash: Payload -> Digest, call: ServiceCall, id: nat)
    requires id < |db.confirmations| && IsSettled(db.confirmations[id].status)
    ensures AddsNone(db, Apply(db, hash, call), id)
  {
    hide KeyTaken, Violates, Existing, EnquiryFor, SupportIdTaken, EnquiryId, SupportId;
  }

  lemma {:induction false} CallsAddNone(db: Db, hash: Payload -> Digest, calls: seq<ServiceCall>, id: nat)
    requires id < |db.confirmations| && IsSettled(db.confirmations[id].status)
    ensures AddsNone(db, ApplyAll(db, hash, calls), id)
  {
    hide Apply, IsSettled;
    if calls != [] {
      var before, call := calls[..|calls| - 1], calls[|calls| - 1];
      CallsAddNone(db, hash, before, id);
      SettledForever(db, hash, before, id);
      CallAddsNone(ApplyAll(db, hash, before), hash, call, id);
    }
  }

  /** A settled row stays as it is through any event, and gets no enquiry. */
  lemma EventKeepsSettled(w: World, hash: Payload -> Digest, e: Event, id: nat)
    requires id < |w.db.confirmations| && IsSettled(w.db.confirmations[id].status)
    ensures var after := Step(w, hash, e).db;
            && id < |after.confirmations| && after.confirmations[id] == w.db.confirmations[id]
            && AddsNone(w.db, after, id)
  {
    hide React, Step, Target, Fits, IsSettled, FromSession;
    StepChanges(w, hash, e);
    if Target(w, e).Some? {
      TargetFits(w, e);
      var calls := EventCalls(hash, w.db, w.clients[e.session], e);
      SettledForever(w.db, hash, calls, id);
      CallsAddNone(w.db, hash, calls, id);
    }
  }

  lemma {:induction false} SettledStays(r: Run, k: nat, n: nat, id: nat)
    requires k <= n <= |r.events| && id < |At(r, k).db.confirmations|
    requires IsSettled(At(r, k).db.confirmations[id].status)
    ensures id < |At(r, n).db.confirmations| && At(r, n).db.confirmations[id] == At(r, k).db.confirmations[id]
    ensures AddsNone(At(r, k).db, At(r, n).db, id)
  {
    hide At, Step, IsSettled;
    if k < n {
      SettledStays(r, k, n - 1, id);
      AtStep(r, n - 1);
      EventKeepsSettled(At(r, n - 1), r.hash, r.events[n - 1], id);
    }
  }

  // ---- a refusal ----

  /** A refusal of the staged action reaches its session: a transcript or a terse message. */
  ghost predicate RefusesAt(r: Run, k: nat)
    requires k < |r.events|
  {
    var w, e := At(r, k), r.events[k];
    && Target(w, e).Some? && Target(w, e).value.Staged().Some?
    && match e
       case Transcript(_, _, utterance, _) => Transcripts.IsRefusal(utterance)
       case Typed(_, m) =>
         var text := Tokeniser.Strip(m.text);
         1 <= |text| <= 4096 && Dialogue.Classify(text, m.guess) == Dialogue.Refuse
       case _ => false
  }

  function RefusedId(r: Run, k: nat): nat
    requires k < |r.events| && RefusesAt(r, k)
  {
    Target(At(r, k), r.events[k]).value.Staged().value.confirmation
  }

  lemma RefusalCancels(db: Db, hash: Payload -> Digest, c: Client, e: Event)
    requires Fits(c, e) && c.Staged().Some? && IsRowOf(db, c, c.Staged().value.confirmation)
    requires e.Transcript? ==> Transcripts.IsRefusal(e.utterance)
    requires e.Typed? ==> 1 <= |Tokeniser.Strip(e.message.text)| <= 4096
                          && Dialogue.Classify(Tokeniser.Strip(e.message.text), e.message.guess) == Dialogue.Refuse
    requires !e.Tool?
    ensures var (after, d) := React(db, hash, c, e);
            var id := c.Staged().value.confirmation;
            && Effects.OnlyRow(db, after, id)
            && Transcripts.IsCancelledRow(db.confirmations[id], after.confirmations[id], true)
            && d.Some? && d.value.Staged().None?
  {
    hide Transcripts.IsRefusal, Transcripts.IsAcceptance, Realtime.Execute, Realtime.Observe, Cancel, Confirm;
    hide Tokeniser.Strip, Dialogue.Classify, Dialogue.Handle, Dialogue.Fill, Dialogue.Propose, Realtime.Accepts;
    hide Realtime.Declines;
    if e.Transcript? {
      Transcripts.WhatDeclines(e.utterance);
      Transcripts.WhatAccepts(e.utterance);
      Realtime.NeverBoth(e.utterance);
      Transcripts.WhatATranscriptDoes(db, c.session, e.utterance, e.now);
    } else {
      Effects.WhatCancelDoes(db, c.Owner(), c.Staged().value.confirmation);
    }
  }

  /** The staged row at a refusal is there, and it is pending, confirmed or out of time. */
  lemma RefusedRow(r: Run, k: nat)
    requires IsFresh(r.start) && k < |r.events| && RefusesAt(r, k)
    ensures var w, e := At(r, k), r.events[k];
            && e.session in w.clients && w.clients[e.session] == Target(w, e).value && Fits(w.clients[e.session], e)
            && !e.Tool?
            && IsRowOf(w.db, w.clients[e.session], RefusedId(r, k))
            && w.db.confirmations[RefusedId(r, k)].status in {Pending, Confirmed, Expired}
  {
    hide At, Step, React, Target, IsFresh, Sound, Transcripts.IsRefusal, Dialogue.Classify, Tokeniser.Strip;
    var w, e := At(r, k), r.events[k];
    TargetFits(w, e);
    RunIsOk(r, k);
    OkClient(w, e.session);
    Progress.RunIsReady(r, k);
    assert Progress.IsReady(w.db, w.clients[e.session]);
  }

  /**
   * In every run, after a refusal of a staged action the action is gone and its row is cancelled, unless its time had
   * been found to be up before; no other row is touched; and from then on no event of any session changes that row or
   * writes from it.
   */
  lemma RefusedStaysRefused(r: Run, k: nat, n: nat)
    requires IsFresh(r.start) && k < n <= |r.events| && RefusesAt(r, k)
    ensures var id := RefusedId(r, k);
            && id < |At(r, k).db.confirmations| && id < |At(r, n).db.confirmations|
            && Effects.OnlyRow(At(r, k).db, At(r, k + 1).db, id)
            && (At(r, k).db.confirmations[id].status == Pending || At(r, k).db.confirmations[id].status == Confirmed ==>
                  At(r, n).db.confirmations[id] == At(r, k).db.confirmations[id].(status := Cancelled))
            && (At(r, n).db.confirmations[id].status == Cancelled || At(r, n).db.confirmations[id].status == Expired)
            && AddsNone(At(r, k).db, At(r, n).db, id)
    ensures var session := r.events[k].session;
            session in At(r, k + 1).clients && At(r, k + 1).clients[session].Staged().None?
  {
    hide At, Step, React, Target, IsFresh, Transcripts.IsRefusal, Dialogue.Classify, Tokeniser.Strip, AddsNone;
    hide Sound, Ok, Fits;
    var w, e, id := At(r, k), r.events[k], RefusedId(r, k);
    RefusedRow(r, k);
    AtStep(r, k);
    StepChanges(w, r.hash, e);
    RefusalCancels(w.db, r.hash, w.clients[e.session], e);
    SettledStays(r, k + 1, n, id);
    NoneYet(At(r, k).db, At(r, k + 1).db, At(r, n).db, id);
  }

  lemma NoneYet(before: Db, middle: Db, after: Db, id: nat)
    requires middle.enquiries == before.enquiries && AddsNone(middle, after, id)
    ensures AddsNone(before, after, id)
  {
  }
}
