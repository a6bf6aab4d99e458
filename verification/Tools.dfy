/** What every tool call of the realtime engine answers, and what it leaves in the session and in the tables. */
module Tools {
  import opened Wrappers
  import opened Enquiries
  import opened Realtime
  import Decimal
  import Details
  import Effects

  predicate IsTool(name: string) {
    || name == "search_distributors" || name == "get_distributor" || name == "get_enquiry_status"
    || name == "create_enquiry" || name == "request_human_support"
  }

  /** The reply is kept as the last of at most 256; the oldest one goes if there are so many. */
  predicate IsRemembered(before: Cache, after: Cache, callId: string, reply: Reply) {
    && |after| >= 1 && after[|after| - 1] == (callId, reply)
    && after[..|after| - 1] == if |before| >= 256 then before[1..] else before
  }

  /** The call id is among those answered before. */
  predicate IsAnswered(completed: Cache, callId: string) {
    exists i :: 0 <= i < |completed| && completed[i].0 == callId
  }

  predicate IsReadOnly(name: string) {
    name == "search_distributors" || name == "get_distributor" || name == "get_enquiry_status"
  }

  lemma ToolNames(name: string)
    ensures IsRegistered(name) <==> IsTool(name)
    ensures name in ReadOnlyTools() <==> IsReadOnly(name)
  {
  }

  /** Calls that run nothing: too large, answered before, or of no tool there is. */
  lemma WhatIsNotRun(db: Db, hash: Payload -> Digest, s: Session, call: ToolCall)
    requires call.oversize || IsAnswered(s.completed, call.callId) || !IsTool(call.name)
    ensures var (after, t, reply) := Execute(db, hash, s, call);
            && after == db
            && if call.oversize then t == s && reply == Some(TooLarge)
               else if IsAnswered(s.completed, call.callId) then
                 t == s && exists i :: 0 <= i < |s.completed| && reply == Some(s.completed[i].1)
                                       && s.completed[i].0 == call.callId
               else
                 && reply == Some(NotRegistered)
                 && t == s.(completed := s.completed + [(call.callId, NotRegistered)])
  {
    hide Gate, OtherTool, Remember, IsRegistered;
    ToolNames(call.name);
    var found := Lookup(s.completed, call.callId);
    if found.Some? && !call.oversize {
      var i :| 0 <= i < |s.completed| && s.completed[i] == (call.callId, found.value);
      assert s.completed[i].1 == found.value && s.completed[i].0 == call.callId;
    }
  }

  /** A call that runs. */
  predicate Runs(s: Session, call: ToolCall) {
    !call.oversize && !IsAnswered(s.completed, call.callId) && IsTool(call.name)
  }

  /** Whatever runs: an exception leaves no trace in the cache, an answer is remembered. */
  predicate IsKept(s: Session, t: Session, call: ToolCall, reply: Option<Reply>) {
    && t.id == s.id && t.owner == s.owner
    && if reply.None? then t.completed == s.completed
       else IsRemembered(s.completed, t.completed, call.callId, reply.value)
  }

  lemma RunningCalls(db: Db, hash: Payload -> Digest, s: Session, call: ToolCall)
    requires Runs(s, call)
    ensures var (after, t, reply) := Execute(db, hash, s, call);
            && IsKept(s, t, call, reply)
            && if call.name == "create_enquiry" then
                 (after, t.pending, reply) == (Gate(db, hash, s, call).0, Gate(db, hash, s, call).1.pending,
                   Gate(db, hash, s, call).2)
               else
                 (after, t.pending, reply) == (OtherTool(db, s.owner, call.name, call.args, call.answer).0, s.pending,
                   OtherTool(db, s.owner, call.name, call.args, call.answer).1)
  {
    hide IsRegistered, OtherTool, Prepare, Validated, CreateEnquiry, Dumped;
    ToolNames(call.name);
  }

  /**
   * A call of create_enquiry that runs. Arguments that are not accepted change nothing. Details that are not the staged
   * ones are proposed, read back and staged without the flag; staged details wait for the flag, and with it they are
   * consumed, and dropped once that succeeds.
   */
  lemma WhatCreateEnquiryDoes(db: Db, hash: Payload -> Digest, s: Session, call: ToolCall)
    requires Runs(s, call) && call.name == "create_enquiry"
    ensures var (after, t, reply) := Execute(db, hash, s, call);
            IsKept(s, t, call, reply)
            && if !Details.IsAccepted(call.args) then
                 after == db && t.pending == s.pending && reply == Some(InvalidDetails)
               else
                 exists d ::
                   Details.CarriesArguments(call.args, d)
                   && IsCreation(db, hash, s, call, d, after, t.pending, reply)
  {
    hide Prepare, Consume, Validated, Dumped, Details.IsAccepted, Details.CarriesArguments, Execute, IsCreation,
         CreateEnquiry;
    RunningCalls(db, hash, s, call);
    Details.WhatIsValidated(call.args);
    if Details.IsAccepted(call.args) {
      var d := Validated(call.args).value;
      CreationIsCreation(db, hash, s, call);
      assert Details.CarriesArguments(call.args, d);
    }
  }

  predicate IsCreation(
      db: Db, hash: Payload -> Digest, s: Session, call: ToolCall, d: Payload, after: Db,
      pending: Option<PendingEnquiry>, reply: Option<Reply>) {
    if s.pending.None? || s.pending.value.arguments != d then
      var (prepared, id) := Prepare(db, hash, s.owner, s.id, d, call.hint, call.now);
      && after == prepared
      && if id.None? then pending == s.pending && reply == None
         else pending == Some(PendingEnquiry(d, id.value, false)) && reply == Some(ReadBack(d))
    else if !s.pending.value.confirmed then
      after == db && pending == s.pending && reply == Some(NotYetConfirmed(d))
    else
      var (consumed, outcome) := Consume(db, hash, s.owner, s.pending.value.confirmation, d, call.now);
      && after == consumed
      && match outcome
         case Created(e) => pending == None && reply == Some(Success(e, false))
         case Replayed(e) => pending == None && reply == Some(Success(e, true))
         case Refused(why) => pending == s.pending && reply == Some(Failure(why))
         case Raised => pending == s.pending && reply == None
  }

  lemma CreationIsCreation(db: Db, hash: Payload -> Digest, s: Session, call: ToolCall)
    requires Validated(call.args).Some?
    ensures var (after, t, reply) := Gate(db, hash, s, call);
            IsCreation(db, hash, s, call, Validated(call.args).value, after, t.pending, reply)
  {
    hide Prepare, Consume, Validated, Dumped;
    ValidatedIsStable(call.args);
  }

  /** The text of the reason: the text itself, the digits of a whole number, or "None". */
  predicate IsReason(args: map<string, Json>, text: string) {
    if "reason" !in args then text == ""
    else match args["reason"]
         case Null => text == "None"
         case Number(n) => text == if n < 0 then "-" + Decimal.Print(-n) else Decimal.Print(n)
         case Text(s) => text == s
         case Nested(s) => text == s
  }

  /** The other tools: a request for a person is recorded, and a tool that only reads answers what it has found. */
  lemma WhatOtherToolsDo(db: Db, hash: Payload -> Digest, s: Session, call: ToolCall, text: string, reason: string)
    requires Runs(s, call) && call.name != "create_enquiry"
    requires IsReason(call.args, text) && Details.IsTrimmed(text, reason)
    ensures var (after, t, reply) := Execute(db, hash, s, call);
            && IsKept(s, t, call, reply) && t.pending == s.pending
            && if IsReadOnly(call.name) then
                 after == db && reply == if call.answer.Some? then Some(Answer(call.answer.value)) else None
               else
                 var taken := s.owner.workspace in db.counters
                   && exists i :: 0 <= i < |db.supports| && db.supports[i].requester.workspace == s.owner.workspace
                        && db.supports[i].displayId
                           == "SUP-" + Decimal.Print(db.counters[s.owner.workspace].supportNext);
                 if !(1 <= |reason| <= 1000) then after == db && reply == Some(Support(BadReason))
                 else if s.owner.workspace !in db.counters then after == db && reply == Some(Support(NoCounter))
                 else if taken then after == db && reply == None
                 else
                   var n := db.counters[s.owner.workspace].supportNext;
                   && reply == Some(Support(Recorded("SUP-" + Decimal.Print(n))))
                   && after.supports
                      == db.supports + [SupportRequest(s.owner, "SUP-" + Decimal.Print(n), reason)]
                   && after.counters
                      == db.counters[s.owner.workspace := db.counters[s.owner.workspace].(supportNext := n + 1)]
                   && after.confirmations == db.confirmations && after.enquiries == db.enquiries
                   && after.distributors == db.distributors
  {
    hide RequestSupport, Decimal.Print, Details.IsTrimmed, Execute;
    RunningCalls(db, hash, s, call);
    ToolNames(call.name);
    Effects.WhatSupportDoes(db, s.owner, text, reason);
  }
}
