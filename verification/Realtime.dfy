/**
 * The realtime engine's session: the policy gate in front of the tools, the transcript patterns and the replay cache.
 */
module Realtime {
  import opened Wrappers
  import opened Enquiries
  import Decimal
  import Tokeniser

  // ---- replies ----

  /** What a tool call answers. The read-only tools answer with a text. */
  datatype Reply =
    | TooLarge
    | NotRegistered
    | InvalidDetails
    | ReadBack(arguments: Payload)
    | NotYetConfirmed(arguments: Payload)
    | ConfirmationMissing
    | Success(enquiry: nat, replay: bool)
    | Failure(why: Refusal)
    | Support(outcome: SupportOutcome)
    | Answer(text: string)

  function ReadOnlyTools(): set<string> { {"search_distributors", "get_distributor", "get_enquiry_status"} }

  predicate IsRegistered(name: string) {
    name in ReadOnlyTools() || name == "create_enquiry" || name == "request_human_support"
  }

  /** The create_enquiry tool itself; None is an exception. */
  function CreateEnquiry(
      db: Db, hash: Payload -> Digest, who: Principal, confirmation: Option<nat>, args: map<string, Json>, now: real)
    : (Db, Option<Reply>)
  {
    if confirmation.None? then (db, Some(ConfirmationMissing))
    else if Validated(args).None? then (db, Some(InvalidDetails))
    else
      var (after, outcome) := Consume(db, hash, who, confirmation.value, Validated(args).value, now);
      match outcome
      case Created(e) => (after, Some(Success(e, false)))
      case Replayed(e) => (after, Some(Success(e, true)))
      case Refused(why) => (after, Some(Failure(why)))
      case Raised => (after, None)
  }

  /** A tool other than create_enquiry. `answer` is what a read-only tool finds, or None if it raises. */
  function OtherTool(db: Db, who: Principal, name: string, args: map<string, Json>, answer: Option<string>)
    : (Db, Option<Reply>)
  {
    if name == "request_human_support" then
      var (after, outcome) := RequestSupport(db, who, if "reason" in args then TextOf(args["reason"]) else "");
      (after, if outcome.RaisedSupport? then None else Some(Support(outcome)))
    else (db, if answer.Some? then Some(Answer(answer.value)) else None)
  }

  /** `str(value)`. */
  function TextOf(value: Json): string {
    match value
    case Null => "None"
    case Number(n) => if n < 0 then "-" + Decimal.Print(-n) else Decimal.Print(n)
    case Text(s) => s
    case Nested(text) => text
  }

  // ---- the session ----

  datatype PendingEnquiry = PendingEnquiry(arguments: Payload, confirmation: nat, confirmed: bool)

  /** Completed calls are kept in the order in which they were made. */
  type Cache = seq<(string, Reply)>

  datatype Session = Session(id: nat, owner: Principal, pending: Option<PendingEnquiry>, completed: Cache)

  const MAX_COMPLETED_CALLS := 256

  function Lookup(completed: Cache, callId: string): (r: Option<Reply>)
    ensures r.Some? <==> exists i :: 0 <= i < |completed| && completed[i].0 == callId
    ensures r.Some? ==> exists i :: 0 <= i < |completed| && completed[i] == (callId, r.value)
  {
    if completed == [] then None
    else if completed[0].0 == callId then Some(completed[0].1)
    else
      assert forall i :: 1 <= i < |completed| ==> completed[i] == completed[1..][i - 1];
      Lookup(completed[1..], callId)
  }

  /** The oldest call makes room once the cache is full. */
  function Remember(completed: Cache, callId: string, reply: Reply): Cache {
    (if |completed| >= MAX_COMPLETED_CALLS then completed[1..] else completed) + [(callId, reply)]
  }

  datatype ToolCall = ToolCall(
    callId: string, name: string, args: map<string, Json>, oversize: bool, answer: Option<string>, hint: nat, now: real)

  /** The policy in front of create_enquiry: stage, wait, and only then write. */
  function Gate(db: Db, hash: Payload -> Digest, s: Session, call: ToolCall): (Db, Session, Option<Reply>) {
    match Validated(call.args)
    case None => (db, s, Some(InvalidDetails))
    case Some(details) =>
      if s.pending.None? || s.pending.value.arguments != details then
        var (after, id) := Prepare(db, hash, s.owner, s.id, details, call.hint, call.now);
        if id.None? then (after, s, None)
        else (after, s.(pending := Some(PendingEnquiry(details, id.value, false))), Some(ReadBack(details)))
      else if !s.pending.value.confirmed then (db, s, Some(NotYetConfirmed(details)))
      else
        var (after, reply) :=
          CreateEnquiry(db, hash, s.owner, Some(s.pending.value.confirmation), Dumped(details), call.now);
        (after, if reply.Some? && reply.value.Success? then s.(pending := None) else s, reply)
  }

  /** Whether a call gets as far as running something: it is small enough and not a repeat. */
  predicate GetsThrough(s: Session, call: ToolCall) { !call.oversize && Lookup(s.completed, call.callId).None? }

  /** One tool call in its session; None is an exception, and then nothing is remembered. */
  function Execute(db: Db, hash: Payload -> Digest, s: Session, call: ToolCall): (Db, Session, Option<Reply>) {
    if call.oversize then (db, s, Some(TooLarge))
    else if Lookup(s.completed, call.callId).Some? then (db, s, Lookup(s.completed, call.callId))
    else if !IsRegistered(call.name) then
      (db, s.(completed := s.completed + [(call.callId, NotRegistered)]), Some(NotRegistered))
    else
      var (after, t, reply) :=
        if call.name == "create_enquiry" then Gate(db, hash, s, call)
        else
          var (d, r) := OtherTool(db, s.owner, call.name, call.args, call.answer);
          (d, s, r);
      if reply.None? then (after, t, None)
      else (after, t.(completed := Remember(t.completed, call.callId, reply.value)), reply)
  }

  // ---- transcripts ----

  /** The optional opening word with the spaces and punctuation after it. */
  function AfterOpening(text: string, opening: string): string {
    if opening <= text then SkipSeparators(text[|opening|..]) else text
  }

  function SkipSeparators(s: string): string {
    if s != "" && (Tokeniser.IsSpace(s[0]) || s[0] in {',', '.', '-'}) then SkipSeparators(s[1..]) else s
  }

  predicate IsOneOf(text: string, phrases: set<string>) {
    || text in phrases
    || (text != "" && text[|text| - 1] in {'.', '!'} && text[..|text| - 1] in phrases)
  }

  function Confirmations(): set<string> { {"confirm", "confirmed", "go ahead", "create it", "proceed"} }

  function Cancellations(): set<string> { {"cancel", "cancel it", "do not create it", "stop"} }

  predicate Accepts(utterance: string) {
    var text := Tokeniser.Lower(Tokeniser.Strip(utterance));
    IsOneOf(AfterOpening(text, "yes"), Confirmations())
  }

  predicate Declines(utterance: string) {
    var text := Tokeniser.Lower(Tokeniser.Strip(utterance));
    IsOneOf(AfterOpening(text, "no"), Cancellations())
  }

  datatype Observation = Observed | ConfirmationRecorded | ConfirmationLost | CancellationRecorded

  /** What a transcript does to the pending action. */
  function Observe(db: Db, s: Session, utterance: string, now: real): (Db, Session, Observation) {
    if s.pending.Some? && Accepts(utterance) then
      var (after, confirmed) := Confirm(db, s.owner, s.pending.value.confirmation, now);
      if confirmed then
        (after, s.(pending := Some(s.pending.value.(confirmed := true))), ConfirmationRecorded)
      else (after, s.(pending := None), ConfirmationLost)
    else if s.pending.Some? && Declines(utterance) then
      (Cancel(db, s.owner, s.pending.value.confirmation).0, s.(pending := None), CancellationRecorded)
    else (db, s, Observed)
  }

  /** No utterance both accepts and declines. */
  lemma NeverBoth(utterance: string)
    ensures !(Accepts(utterance) && Declines(utterance))
  {
    hide Tokeniser.Lower, Tokeniser.Strip, IsOneOf;
    var text := Tokeniser.Lower(Tokeniser.Strip(utterance));
    if "yes" <= text {
      assert text[0] == 'y' && AfterOpening(text, "no") == text;
      OpenedIsNoPhrase(text, Cancellations());
    } else if "no" <= text {
      assert text[0] == 'n' && AfterOpening(text, "yes") == text;
      OpenedIsNoPhrase(text, Confirmations());
    } else {
      PhrasesDiffer(text);
    }
  }

  lemma OpenedIsNoPhrase(text: string, phrases: set<string>)
    requires text != "" && forall p <- phrases :: p != "" && p[0] != text[0]
    ensures !IsOneOf(text, phrases)
  {
  }

  lemma PhrasesDiffer(text: string)
    ensures !(IsOneOf(text, Confirmations()) && IsOneOf(text, Cancellations()))
  {
    if text != "" && text[|text| - 1] in {'.', '!'} {
      assert text !in Confirmations() && text !in Cancellations();
    }
  }

  // ---- the session object ----

  class RealtimeSession {
    const id: nat
    const owner: Principal
    var pending: Option<PendingEnquiry>
    var completed: Cache

    ghost function View(): Session
      reads this
    {
      Session(id, owner, pending, completed)
    }

    constructor (id: nat, owner: Principal)
      ensures View() == Session(id, owner, None, [])
    {
      this.id, this.owner, pending, completed := id, owner, None, [];
    }

    method CreateEnquiryTool(service: Service, confirmation: Option<nat>, args: map<string, Json>, now: real)
      returns (reply: Option<Reply>)
      modifies service
      ensures (service.Tables(), reply) == CreateEnquiry(old(service.Tables()), service.hash, owner, confirmation,
        args, now)
    {
      hide Consume, Validated;
      if confirmation.None? {
        return Some(ConfirmationMissing);
      }
      var payload := Validated(args);
      if payload.None? {
        return Some(InvalidDetails);
      }
      var outcome := service.ConsumeConfirmation(owner, confirmation.value, payload.value, now);
      match outcome {
        case Created(e) => reply := Some(Success(e, false));
        case Replayed(e) => reply := Some(Success(e, true));
        case Refused(why) => reply := Some(Failure(why));
        case Raised => reply := None;
      }
    }

    method StageOrWrite(service: Service, call: ToolCall) returns (reply: Option<Reply>)
      modifies this`pending, service
      ensures (service.Tables(), View(), reply) == Gate(old(service.Tables()), service.hash, old(View()), call)
    {
      hide Prepare, Validated, CreateEnquiry, Dumped;
      var details := Validated(call.args);
      if details.None? {
        return Some(InvalidDetails);
      }
      if pending.None? || pending.value.arguments != details.value {
        ValidatedIsStable(call.args);
        var issued := service.PrepareConfirmation(owner, id, Validated(Dumped(details.value)).value, call.hint,
          call.now);
        if issued.None? {
          return None;
        }
        pending := Some(PendingEnquiry(details.value, issued.value, false));
        return Some(ReadBack(details.value));
      }
      if !pending.value.confirmed {
        return Some(NotYetConfirmed(details.value));
      }
      reply := CreateEnquiryTool(service, Some(pending.value.confirmation), Dumped(details.value), call.now);
      if reply.Some? && reply.value.Success? {
        pending := None;
      }
    }

    method RunOtherTool(service: Service, call: ToolCall) returns (reply: Option<Reply>)
      modifies service
      ensures (service.Tables(), reply) == OtherTool(old(service.Tables()), owner, call.name, call.args, call.answer)
    {
      hide RequestSupport;
      if call.name == "request_human_support" {
        var reason := if "reason" in call.args then TextOf(call.args["reason"]) else "";
        var outcome := service.RequestHumanSupport(owner, reason);
        return if outcome.RaisedSupport? then None else Some(Support(outcome));
      }
      return if call.answer.Some? then Some(Answer(call.answer.value)) else None;
    }

    method ExecuteTool(service: Service, call: ToolCall) returns (reply: Option<Reply>)
      modifies this, service
      ensures (service.Tables(), View(), reply) == Execute(old(service.Tables()), service.hash, old(View()), call)
    {
      hide Gate, OtherTool, Lookup;
      if call.oversize {
        return Some(TooLarge);
      }
      var known := Lookup(completed, call.callId);
      if known.Some? {
        return known;
      }
      if !IsRegistered(call.name) {
        completed := completed + [(call.callId, NotRegistered)];
        return Some(NotRegistered);
      }
      if call.name == "create_enquiry" {
        reply := StageOrWrite(service, call);
      } else {
        reply := RunOtherTool(service, call);
      }
      if reply.None? {
        return;
      }
      if |completed| >= MAX_COMPLETED_CALLS {
        completed := completed[1..];
      }
      completed := completed + [(call.callId, reply.value)];
    }

    method ObserveUserTranscript(service: Service, utterance: string, now: real) returns (seen: Observation)
      modifies this`pending, service
      ensures (service.Tables(), View(), seen) == Observe(old(service.Tables()), old(View()), utterance, now)
    {
      hide Accepts, Declines, Confirm, Cancel;
      if pending.Some? && Accepts(utterance) {
        var confirmed := service.ConfirmConfirmation(owner, pending.value.confirmation, now);
        if !confirmed {
          pending := None;
          return ConfirmationLost;
        }
        pending := Some(pending.value.(confirmed := true));
        return ConfirmationRecorded;
      }
      if pending.Some? && Declines(utterance) {
        var done := service.CancelConfirmation(owner, pending.value.confirmation);
        pending := None;
        return CancellationRecorded;
      }
      return Observed;
    }
  }
}
