/** What a report does to a call and what a summary says, state by state and text by text. */
module CallLaws {
  import opened Wrappers
  import opened Calls
  import Details
  import Tokeniser

  // ---- reports ----

  /** The states a call can still get to from here. */
  predicate IsAhead(from: CallStatus, to: CallStatus) {
    match from
    case Queued => to != Queued
    case Ringing => to == Active || to == Transferred || to == Completed || to == Failed
    case Active => to == Transferred || to == Completed || to == Failed
    case Transferred => to == Completed || to == Failed
    case Completed => false
    case Failed => false
  }

  /**
   * The states in between: a call rings before it is answered, and is answered before it is transferred or completed.
   */
  function Between(from: CallStatus, to: CallStatus): seq<CallStatus> {
    if from == Queued && to == Active then [Ringing]
    else if from == Queued && (to == Transferred || to == Completed) then [Ringing, Active]
    else if from == Ringing && (to == Transferred || to == Completed) then [Active]
    else []
  }

  lemma WhatRouteIsTaken(from: CallStatus, to: CallStatus)
    ensures Route(from, to)
         == if from == to then Some([]) else if IsAhead(from, to) then Some(Between(from, to) + [to]) else None
  {
    assert Route(Active, to) == if to == Active then Some([]) else if IsAhead(Active, to) then Some([to]) else None;
    assert [Active] + [to] == [Active, to] && [Ringing] + [Active, to] == [Ringing, Active] + [to];
    assert [] + [to] == [to];
  }

  /** The first so many characters of a text. */
  predicate IsCutTo(text: string, n: nat, cut: string) { cut <= text && |cut| <= n && (|cut| == n || cut == text) }

  /** The call is answered by this report. */
  predicate IsAnswered(from: CallStatus, to: CallStatus) {
    (from == Queued || from == Ringing) && (to == Active || to == Transferred || to == Completed)
  }

  /**
   * A report of the state the call is in changes nothing, and one that is not ahead of it is refused. Any other moves
   * the call there, dates its answer and its end, takes over at most 20000 characters of the transcript and 80 of the
   * outcome, and adds one audit row with the states in between.
   */
  predicate IsReported(
      c: CallRow, target: CallStatus, transcript: Option<string>, outcome: Option<string>, now: int, d: CallRow) {
    && d.status == target && d.summary == c.summary
    && d.startedAt == (if c.startedAt.None? && IsAnswered(c.status, target) then Some(now) else c.startedAt)
    && d.endedAt == (if target == Completed || target == Failed then Some(now) else c.endedAt)
    && (if transcript.None? then d.transcript == c.transcript
        else IsCutTo(transcript.value, 20_000, d.transcript))
    && (if outcome.None? then d.outcome == c.outcome
        else d.outcome.Some? && IsCutTo(outcome.value, 80, d.outcome.value))
    && d.audit == c.audit + [AuditEvent(target, c.status, Between(c.status, target))]
  }

  lemma WhatAReportDoes(c: CallRow, target: CallStatus, transcript: Option<string>, outcome: Option<string>, now: int)
    ensures var d := Advanced(c, target, transcript, outcome, now);
            if target == c.status then d == Some(c)
            else if !IsAhead(c.status, target) then d == None
            else d.Some? && IsReported(c, target, transcript, outcome, now, d.value)
  {
    hide Route, Clip, Between, IsCutTo, IsAhead, IsAnswered;
    if target == c.status {
      RouteShape(target, target);
    } else {
      RouteOfAReport(c.status, target);
    }
    if transcript.Some? { ClipIsCut(transcript.value, 20_000); }
    if outcome.Some? { ClipIsCut(outcome.value, 80); }
  }

  lemma RouteOfAReport(from: CallStatus, to: CallStatus)
    requires from != to
    ensures Route(from, to).Some? <==> IsAhead(from, to)
    ensures IsAhead(from, to) ==>
              var route := Route(from, to).value;
              && route != [] && route[..|route| - 1] == Between(from, to)
              && (Active in route <==> IsAnswered(from, to))
  {
    hide Route, Between, IsAhead, IsAnswered;
    WhatRouteIsTaken(from, to);
    WhenACallIsAnswered(from, to);
    var between := Between(from, to);
    assert (between + [to])[..|between|] == between;
  }

  lemma WhenACallIsAnswered(from: CallStatus, to: CallStatus)
    ensures IsAhead(from, to) ==> (Active in Between(from, to) + [to] <==> IsAnswered(from, to))
  {
  }

  lemma CutIsClip(text: string, n: nat, cut: string)
    requires IsCutTo(text, n, cut)
    ensures cut == Clip(text, n)
  {
  }

  lemma ClipIsCut(text: string, n: nat)
    ensures IsCutTo(text, n, Clip(text, n))
  {
  }

  /** A call that has not been dealt with yet. */
  predicate IsNew(c: CallRow) {
    && c.status == Queued && c.startedAt == None && c.endedAt == None && c.transcript == "" && c.outcome == None
    && c.summary == None && c.audit == []
  }

  predicate OtherRowsStay(b: Board, after: Board, id: string) {
    after.rows.Keys - {id} == b.rows.Keys - {id} && forall k <- b.rows.Keys - {id} :: after.rows[k] == b.rows[k]
  }

  /**
   * A carrier event for a call that is not there makes one, unless the carrier is not set up. A report that is not
   * ahead is acknowledged and ignored; any other is applied, and queues the summary if the call has ended. No other
   * call is touched.
   */
  lemma WhatACarrierEventDoes(b: Board, id: string, status: CallStatus, configured: bool, now: int, c: CallRow)
    requires if id in b.rows then c == b.rows[id] else IsNew(c)
    ensures var (after, answer) := Handled(b, id, status, configured, now);
            if id !in b.rows && !configured then after == b && answer == NotConfigured
            else
              && OtherRowsStay(b, after, id) && id in after.rows
              && if status != c.status && !IsAhead(c.status, status) then
                   after.rows[id] == c && after.queued == b.queued && answer == Ignored
                 else
                   && answer == Accepted(status)
                   && (if status == c.status then after.rows[id] == c
                       else IsReported(c, status, None, None, now, after.rows[id]))
                   && after.queued == if status == Completed || status == Failed then b.queued + [id] else b.queued
  {
    hide Advanced, IsReported;
    WhatAReportDoes(c, status, None, None, now);
    ReportedStatus(c, status, None, None, now);
  }

  lemma ReportedStatus(c: CallRow, target: CallStatus, transcript: Option<string>, outcome: Option<string>, now: int)
    ensures forall d :: IsReported(c, target, transcript, outcome, now, d) ==> d.status == target
  {
  }

  /** A simulated call without an agent is not made; a key that has been used answers with the call there is. */
  lemma WhatASimulationDoes(
      b: Board, key: string, agentKnown: bool, transcript: string, outcome: Option<string>, start: int, end: int)
    requires |transcript| <= 20_000 && (outcome.Some? ==> |outcome.value| <= 80)
    ensures var (after, answer) := Simulate(b, key, agentKnown, transcript, outcome, start, end);
            if key in b.rows then after == b && answer == Replayed
            else if !agentKnown then after == b && answer == NoAgent
            else
              && answer == Simulated && after.queued == b.queued + [key] && OtherRowsStay(b, after, key)
              && key in after.rows
              && after.rows[key] == CallRow(
                   Completed, Some(start), Some(end), transcript, outcome, None,
                   [AuditEvent(Active, Queued, [Ringing]), AuditEvent(Completed, Active, [])])
  {
    hide Advanced;
    SimulatedCall(transcript, outcome, start, end);
  }

  // ---- summaries ----

  predicate IsMark(c: char) { c == '.' || c == '?' || c == '!' }

  function SentencesOf(text: string): seq<string> { Sentences(Segments(text, "")) }

  /** A text without a mark is one sentence, without the blanks around it, or none. */
  lemma OneSentence(text: string, trimmed: string)
    requires forall i :: 0 <= i < |text| ==> !IsMark(text[i])
    requires Details.IsTrimmed(text, trimmed)
    ensures SentencesOf(text) == if trimmed == "" then [] else [trimmed]
  {
    hide Segments, Details.IsTrimmed, Tokeniser.Strip;
    OneSegment(text, "");
    assert "" + text == text;
    Details.WhatIsStripped(text, trimmed);
    assert [text][1..] == [] && Sentences([]) == [];
    assert [trimmed] + [] == [trimmed];
  }

  lemma {:induction false} OneSegment(text: string, current: string)
    requires forall i :: 0 <= i < |text| ==> !IsMark(text[i])
    ensures Segments(text, current) == [current + text]
    decreases |text|
  {
    if text == "" {
      assert current + text == current;
    } else {
      OneSegment(text[1..], current + [text[0]]);
      assert current + [text[0]] + text[1..] == current + text;
    }
  }

  /** Every mark ends a sentence. */
  lemma SentencesSplit(a: string, mark: char, b: string)
    requires IsMark(mark)
    ensures SentencesOf(a + [mark] + b) == SentencesOf(a) + SentencesOf(b)
  {
    hide Segments, Sentences;
    SegmentsSplit(a, mark, b, "");
    SentencesConcat(Segments(a, ""), Segments(b, ""));
  }

  lemma {:induction false} SegmentsSplit(a: string, mark: char, b: string, current: string)
    requires IsMark(mark)
    ensures Segments(a + [mark] + b, current) == Segments(a, current) + Segments(b, "")
    decreases |a|
  {
    var s := a + [mark] + b;
    if a == "" {
      assert s[1..] == b;
    } else {
      assert s[1..] == a[1..] + [mark] + b;
      if IsMark(a[0]) {
        SegmentsSplit(a[1..], mark, b, "");
        assert [current] + (Segments(a[1..], "") + Segments(b, ""))
            == [current] + Segments(a[1..], "") + Segments(b, "");
      } else {
        SegmentsSplit(a[1..], mark, b, current + [a[0]]);
      }
    }
  }

  lemma {:induction false} SentencesConcat(a: seq<string>, b: seq<string>)
    ensures Sentences(a + b) == Sentences(a) + Sentences(b)
  {
    hide Tokeniser.Strip;
    if a == [] {
      assert a + b == b;
    } else {
      assert (a + b)[1..] == a[1..] + b;
      SentencesConcat(a[1..], b);
    }
  }

  /** The text with its words apart by single spaces. */
  predicate IsClean(text: string, clean: string) { clean == Tokeniser.Join(Tokeniser.Words(text)) }

  /** The first two sentences. */
  predicate IsExcerpt(sentences: seq<string>, excerpt: string) {
    if sentences == [] then excerpt == ""
    else if |sentences| == 1 then excerpt == sentences[0]
    else excerpt == sentences[0] + ". " + sentences[1]
  }

  /**
   * A summary is at most 700 characters of the first two sentences, a full stop, and the outcome if there is one; a
   * call without any words has a sentence of its own.
   */
  lemma WhatASummarySays(
      transcript: string, outcome: Option<string>, clean: string, excerpt: string, head: string)
    requires IsClean(transcript, clean)
    requires IsExcerpt(SentencesOf(clean), excerpt) && IsCutTo(excerpt, 700, head)
    ensures BuildSummary(transcript, outcome)
         == if clean == "" then "Call completed without a captured transcript."
            else if outcome == None || outcome == Some("") then head + "."
            else head + "." + " Outcome: " + outcome.value + "."
  {
    hide Sentences, Segments, Tokeniser.Join, Tokeniser.Words, Tokeniser.Strip;
    FirstSentence(Segments(clean, ""));
    CutIsClip(excerpt, 700, head);
    var tail := if outcome.Some? && outcome.value != "" then " Outcome: " + outcome.value + "." else "";
    SaidAsItIs(excerpt, head, tail);
    SameText(head, if outcome.Some? then outcome.value else "");
  }

  lemma SameText(head: string, outcome: string)
    ensures head + "." + (" Outcome: " + outcome + ".") == head + "." + " Outcome: " + outcome + "."
    ensures head + "." + "" == head + "."
  {
  }

  lemma SaidAsItIs(excerpt: string, head: string, tail: string)
    requires excerpt != "" ==> !Tokeniser.IsSpace(excerpt[0])
    requires head <= excerpt && (tail == "" || tail[|tail| - 1] == '.')
    ensures Tokeniser.Strip(head + "." + tail) == head + "." + tail
  {
    hide Tokeniser.Strip;
    var text := head + "." + tail;
    assert text[|text| - 1] == '.';
    if head != "" { assert text[0] == excerpt[0]; }
    EndsAreKept(text);
  }

  lemma {:induction false} FirstSentence(segments: seq<string>)
    ensures Sentences(segments) != [] ==>
              Sentences(segments)[0] != "" && !Tokeniser.IsSpace(Sentences(segments)[0][0])
  {
    if segments != [] { FirstSentence(segments[1..]); }
  }

  lemma EndsAreKept(text: string)
    requires text != "" && !Tokeniser.IsSpace(text[0]) && !Tokeniser.IsSpace(text[|text| - 1])
    ensures Tokeniser.Strip(text) == text
  {
  }

  /** The summary job writes the summary of the call as it is, and nothing else. */
  lemma WhatASummaryJobDoes(b: Board, id: string)
    ensures var (after, found) := Summary(b, id);
            if id !in b.rows then after == b && !found
            else
              && found && after.queued == b.queued && OtherRowsStay(b, after, id) && id in after.rows
              && after.rows[id]
                 == b.rows[id].(summary := Some(BuildSummary(b.rows[id].transcript, b.rows[id].outcome)))
  {
    hide BuildSummary;
  }
}
