# TradeVoice: a verified model

TradeVoice is the control plane around a voice agent for a marketplace. A buyer asks for an enquiry, hears the exact
details read back, confirms or cancels, and only then is anything written. This project models the parts of the backend
that carry its promises, and proves them with Dafny 4.11. `dafny verify dfyconfig.toml` checks everything.

The model takes the form of the code. What the code changes in place is a class whose methods are proved against a
specification function of the old state (`Service`, `RealtimeSession`, `LocalSession`, `RealtimeSessionStore`, `Call`,
`Switchboard`, `SlidingWindowLimiter`, `Client`); loops are loops; the laws are lemmas about the specification functions.

## What is modelled

- **Confirm before write.** `Enquiries` is the service with its tables: validation, proposals with a digest, a 300 s
  deadline and an idempotency key, confirmation, cancellation, the consuming write with its order of checks and its
  rollback, and support requests on the same counter. The digest is any function of the payload. `Ledger` says what every
  atomic call keeps. `Realtime` and `Dialogue` are the two engines on top of it, `Protocol` puts any number of sessions of
  both on one database, and `Runs` proves over all event lists what stands behind every enquiry. `Progress`
  proves the converse, when what was accepted is written, and `Outcomes` follows one caller who keeps to the protocol.
  `DialogueLaws` says when a conversation ends with an exception, with `Endings` as its example, and `ReadOuts` whether
  what is read out is understood again; `Refusals` says what a text is heard as.
- **What each operation does.** One module for each component says so outright, with every bound, word and state written
  out where the operation itself would have to be read: `Details` for validation, `Effects` for the service, `Transcripts` and
  `Tools` for the realtime engine, `Replies` for the local one, `Lexicon`, `Counting` and `Wording` for the language,
  `CallLaws` for calls, `Locks` for the steps of a transaction; `RaceLaws` ties the interrupted engine to the other.
  `Withdrawals` and `Handovers` carry the refusal and the request for a person over whole runs.
- **Interleaving.** `Transactions` takes the same service apart into lock, read, check, lock the counter and commit, with
  confirmations and cancellations that read and write without a lock, aborts at any point, and support requests;
  `TransactionLaws` says what every interleaving promises and that a transaction left alone is one call, `LateMarks` what
  a late confirmation can undo. `Races` takes the realtime engine apart: the steps of transcripts fall between the steps
  of tool calls.
- **Replay cache and session store.** `ReplayCache` and `SessionStore`.
- **Language.** `Tokeniser`, `Numbers`, `Extraction` over the word tables of `Vocabulary`; `Spelling`, `Quantities` and
  `ReadBack` hold the round trips; `Decimal` prints and reads numbers.
- **Calls.** `Routes` is the breadth-first search for any table, `Calls` the states, the audit trail, the webhook, the
  simulation and the summary.
- **Summary queue.** `Worker` has the methods, `JobRuns` one Redis command at a time with crashes and restarts.
- **Limiter and counters.** `RateLimit`, with `Forgetting` for what its sweeps and narrow checks lose, and `Counters` for
  the migration and the numbers handed out after it.

## Conventions

- A row is identified by its position in its table and a session by a serial number: both stand for fresh identifiers.
- Every event carries its own reading of the clock. Only the laws of the limiter, `SessionStore.StoreStaysSorted`,
  `Calls.TimesAreOrdered` and `Progress.AcceptedCallsAreWritten` (for the calls of one session) assume that the clock does
  not go back, and say so.
- A query without an order takes a `hint`: whichever matching row the storage yields first.
- `None` as an answer of a tool, `Raised` and `Died` are exceptions.
- In `Runs`, a proposal that raises (a clash of idempotency keys) answers nothing and is not counted as one; the staged
  action stays as it was, as in the code.
- Where the service's own words and its code part, the model follows the code. The prompt of the realtime engine asks for
  an explicit confirmation, but in the local engine "do not confirm" is one (`NegatedAcceptanceIsAcceptance`), and so
  is "undo it" (`UndoIsAcceptance`). A row that is consumed can be marked again by a late unlocked write
  (`ConsumedIsNotTerminal`), and one that is cancelled can be confirmed and consumed after all (`CancellationIsNotFinal`,
  with its exact condition in `WhenASettledRowIsWritten`); a proposal can insert a second live
  row (`WhenAProposalIsDuplicated`, `ADuplicatedProposal`); the cache of 256 calls grows past its bound
  (`WhenTheCacheOverflows`); a full session store can drop the session it is asked for (`GetSucceedsIff`,
  `AFullStoreDropsWhatIsAskedFor`); a destination can be read out that is not understood again (`PleaseIsReadOut`); a
  staged action can be flagged by the acceptance of another (`FlagIsNotEnough`); a crash can lose a job
  (`WhenJobsAreLost`). The limiter's comment that a stale key cannot limit anything, whatever window its next caller asks
  for, is wrong: a sweep forgets what a wider window would count (`SweepForgets`), and so does a narrow check of the same
  key (`NarrowWindowForgets`); `WhenTheLimitersDiffer` is the exact condition.

## Model

| member | source | states |
|---|---|---|
| Runs.EveryWriteIsAuthorised | backend/app/voice/openai_realtime.py:235-312 | Over every run of both engines on one database, whatever the hash: each enquiry that is written carries details that were read back at `i`, accepted at `j`, by its buyer, in the session that writes it; from the read-back to the write the session stays open and nothing else accepts, declines, proposes, replaces, spoils or writes; and the write comes less than 300 s after the event `m <= i` that inserted its confirmation row |
| Runs.EveryWriteNeedsItsOwnReadBack | backend/app/voice/openai_realtime.py:291-305 | Two writes of one session never rest on the same read-back: the second is read back after the first was written |
| Runs.LocalWritesAreTerse | backend/app/voice/mock.py:294-324 | In every run the local engine writes only on a message of one to four tokens |
| Runs.StagedIsBacked | backend/app/voice/openai_realtime.py:291-300 | At every point of a run, whatever a session has staged was read back to it once, was accepted at most once since (exactly once if it is marked confirmed), and nothing has interfered since |
| Runs.RowWasInserted | backend/app/services/enquiries.py:47-58 | Every confirmation row of a run was inserted by an event of its own session and owner and still carries the deadline that event gave it |
| Runs.RunIsOk | backend/app/voice/mock.py:154-389 | At every point of a run: sessions are keyed by their own id; the local engine has its pending details and its confirmation id both set or both clear, and only validated details staged; a staged row belongs to the session and its owner and is no longer pending once accepted; rows only grow and keep their terms; soundness of the tables is kept |
| Runs.EventCalls | backend/app/voice/openai_realtime.py:267-312 | Whatever a session makes of an event, the database changes by at most two calls of the services: on the row it has staged, for its owner; a proposal of its own session and owner; or a support request |
| Protocol.ToolEffect | backend/app/voice/openai_realtime.py:267-312 | One tool call: a staging stages the proposed details unconfirmed under a row of the session; otherwise a staged action survives only if nothing interfered; a write takes exactly what is staged, only if it was accepted, before its deadline |
| Protocol.TranscriptEffect | backend/app/voice/openai_realtime.py:235-256 | One transcript: accepting works only on an unconfirmed action and marks it; accepting twice or declining clears it; nothing is written |
| Protocol.TypedEffect | backend/app/voice/mock.py:259-426 | One message of the local engine: a read-back stages, an unusable draft clears, and only an acceptance of a staged action can write, exactly what was staged |
| Progress.AcceptedCallsAreWritten | backend/app/voice/openai_realtime.py:291-305 | The converse of EveryWriteIsAuthorised: in every run in which the calls of the session are made in clock order, with any events of any sessions in between, a call for what was read back and accepted writes it for the buyer, exactly once, if and only if the call comes before the deadline of the row, the row carries these details and the workspace can store them |
| Progress.WhenAnAcceptedCallWrites | backend/app/voice/openai_realtime.py:300-305 | Without any assumption on the clock: such a call writes if and only if, besides, the row is still marked confirmed |
| Progress.AcceptedExpiresLate | backend/app/services/enquiries.py:139-141 | At every point of a run, an accepted row that is marked expired was marked by a call of its own session that came at its deadline or later |
| Progress.WhenAnAcceptanceWrites | backend/app/voice/mock.py:294-324 | In every run a terse acceptance of what the local engine has staged writes if and only if both its readings of the clock come before the deadline of the row, the row carries these details and the workspace can store them |
| Progress.AChatThatWrites | backend/app/voice/mock.py:154-324 | A chat that is asked for 5 kg of rice for delivery to goa and told "confirm" within 300 s writes, on any sound tables that can store it, an enquiry of that buyer with exactly the product "Rice", 5, "kg", the destination "Goa" and no distributor |
| Progress.WrittenAsAsked | backend/app/voice/openai_realtime.py:291-305 | In every run, what a tool call writes are the values of that very call: quantity and unit as they are, product and destination without the blanks around them, the distributor if one is named, all within the bounds of validation |
| Outcomes.KeepingToTheProtocolWrites | backend/tests/test_realtime.py:68-82 | The run of the test, for all arguments, buyers, tables and times: a new session that proposes, accepts and calls again within 300 s of its proposal gets its buyer exactly one new enquiry, and its quantity, unit, product, destination and distributor are those of the arguments, if the workspace can store it |
| Outcomes.ProposeAcceptWrite | backend/tests/test_realtime.py:72-82 | The three calls of the test, on any sound tables: the enquiry is written if and only if acceptance and second call both come before the deadline of the row, the row carries these details, and the workspace can store them |
| Races.EveryRacedWriteIsAccepted | backend/app/voice/openai_realtime.py:235-312 | With the steps of transcripts, which take no session lock, falling anywhere between the steps of tool calls, and both reading the staged action again at each step: an enquiry that a session writes is written before the deadline, from a row that the session had staged and whose own acceptance, heard in that session after the staging, had gone through; it was staged with these very details, or, if the row was there at the start, with details of their digest |
| Races.FlagIsNotEnough | backend/app/voice/openai_realtime.py:246-254 | A concrete interleaving: the acceptance of one proposal, answered after the next one is staged, flags the next one as confirmed while its row is pending; its call reaches the service, which refuses and changes nothing |
| Ledger.RunsAreSound | backend/app/services/enquiries.py:105-183 | Over every run of service calls, consumed confirmations and enquiries stay in one-to-one correspondence, with equal buyer, payload and key, consumed before the deadline; idempotency keys differ within a workspace |
| Ledger.SettledForever | backend/app/services/enquiries.py:68-102 | Called atomically, consumed, cancelled and expired rows never change again, and no row ever changes its owner, session, digest, payload, key or deadline |
| Ledger.ApplyAdvances | backend/app/services/enquiries.py:68-183 | One call moves a row at most one step along pending, confirmed, consumed, with cancellation and expiry on the way, and the tables only grow |
| Ledger.WhenConsumeWrites | backend/app/services/enquiries.py:105-183 | The exact conditions, in sound tables, of writing, raising and replaying, and that nothing else changes the tables but an expiry; the digest decides nothing that the comparison of payloads does not |
| Ledger.CreatedThenReplayed | backend/app/services/enquiries.py:124-131 | Once an enquiry is written, every later attempt of its owner on that confirmation, with any payload, at any time and after any calls, gets the same enquiry back and changes nothing |
| Ledger.WhenAProposalIsDuplicated | backend/app/services/enquiries.py:35-58 | A live row does not always prevent a second one: some order of the query inserts another exactly when a stale pending row lies beside it and the key is free |
| Ledger.ADuplicatedProposal | backend/app/services/enquiries.py:35-58 | Three proposals of the same details at 0 s, 301 s and 302 s leave two live rows of one digest when the query yields the stale first row |
| Details.WhatIsValidated | backend/app/schemas.py:34-47 | Exactly which arguments are accepted, with the bounds and the three units written out, and the details they stand for field by field: the quantity and the unit as they are, product and destination without the blanks around them, the distributor if it is a text |
| Details.WhatIsStripped | backend/app/schemas.py:41-47 | Stripping leaves exactly the part of a text from its first to its last character that is not blank |
| Enquiries.ValidatedIsStable | backend/app/schemas.py:34-47 | What validation accepts is dumped to arguments that validate to the same details; which these are is WhatIsValidated |
| Enquiries.Service.PrepareConfirmation | backend/app/services/enquiries.py:27-61 | Refines the specification of a proposal: an open row of the same digest is reused, an expired one is not, a clash of keys inserts nothing |
| Enquiries.Service.ConfirmConfirmation | backend/app/services/enquiries.py:68-86 | Refines the specification of a confirmation, whose runs the laws above govern |
| Enquiries.Service.CancelConfirmation | backend/app/services/enquiries.py:89-102 | Refines the specification of a cancellation |
| Enquiries.Service.ConsumeConfirmation | backend/app/services/enquiries.py:105-183 | Refines the specification of the write, with its order of checks and a rollback that restores counter and row |
| Enquiries.Service.FindEnquiry | backend/app/services/enquiries.py:124-129 | Finds the first enquiry of the workspace for a confirmation, or that there is none |
| Enquiries.Service.RequestHumanSupport | backend/app/tools/support.py:21-48 | Refines the specification of a support request on the shared counter |
| Effects.WhatPrepareDoes | backend/app/services/enquiries.py:27-61 | Of a proposal, whatever the hash: which rows may be reused, that a new row is pending and runs out after 300 s under the key of session, digest and time, when the key clash inserts nothing, and that nothing else changes |
| Effects.WhatConfirmDoes | backend/app/services/enquiries.py:68-86 | A confirmation goes through exactly for the pending row of this user of this workspace before its deadline, which it dates; at the deadline or later it marks that row expired; no other row and no other table changes |
| Effects.WhatCancelDoes | backend/app/services/enquiries.py:89-102 | A cancellation goes through exactly for a pending or confirmed row of this user, and changes nothing but its status |
| Effects.WhatConsumeDoes | backend/app/services/enquiries.py:105-183 | The checks of the write in their order, and the whole tables after each outcome: the new enquiry has the buyer, the details of the call, the number of the counter, the row and its key; the row is consumed at this time; the counter moves by one |
| Effects.WhatSupportDoes | backend/app/tools/support.py:21-48 | A support request of 1 to 1000 characters without the blanks around it takes the next number of its workspace, for this user, and moves it by one; without a counter, or with a taken number, nothing changes |
| Transactions.RunsAreOk | backend/app/services/enquiries.py:105-183 | Over every interleaving of consumers, unlocked confirmations and cancellations, support requests, proposals and aborts: no row or counter is locked twice, each confirmation has at most one enquiry, with the buyer, the details and the key of its row, every reported outcome is true of that enquiry, and no two consumers report the same creation |
| Transactions.ConsumersAgree | backend/app/services/enquiries.py:124-183 | In any interleaving all consumers of a confirmation that report an enquiry report the same one, and at most one of them its creation |
| Transactions.LaterConsumersReplay | backend/app/services/enquiries.py:112-131 | Once the enquiry is there, no consumer of that confirmation is past its look-up, and each one that has the row lock replays that enquiry |
| Transactions.InterleavedNumbersAreGapFree | backend/app/services/enquiries.py:142-150 | In any interleaving, with commits and aborts at any point, the enquiry and support ids a workspace adds are the gap-free ranges from its counters first values to just below their current ones |
| Transactions.WhenConsumedIsUndone | backend/app/services/enquiries.py:68-102 | A consumed row leaves that status exactly when a confirmation or cancellation that read it earlier is written late |
| Transactions.WhenSettledIsUndone | backend/app/services/enquiries.py:68-102 | The same for every settled status: a consumed, cancelled or expired row changes its status exactly when a confirmation or cancellation that read it earlier is written late with another one |
| Transactions.ConsumedIsNotTerminal | backend/app/services/enquiries.py:69-86 | A concrete schedule: a confirmation read before and written after the consumption leaves the consumed row confirmed, with still only one enquiry |
| TransactionLaws.EveryEnquiryWasConfirmed | backend/app/services/enquiries.py:68-183 | In any interleaving each enquiry that is added has the buyer, the details and the key of its row, it rests on a check whose reading of the clock was before the deadline, and that buyer has confirmed that row: a confirmation of it went through, unless the row was confirmed at the start; what a cancellation in between means is the subject of LateMarks |
| LateMarks.AnEnquiryAfterACancellation | backend/app/services/enquiries.py:68-102 | In any interleaving an enquiry follows a cancellation of its row that went through only if a confirmation which had read the row before the cancellation is written after it and before the enquiry |
| LateMarks.WhenASettledRowIsWritten | backend/app/services/enquiries.py:68-183 | From any reachable state, a consumed, cancelled or expired row that could be stored is written by some continuation, with any transactions and aborts, if and only if there is a confirmation that has read it while it was pending and has still to write |
| LateMarks.CancellationIsNotFinal | backend/app/voice/mock.py:325-337 | A concrete schedule: the cancellation has gone through and reported so, the confirmation that had read the row is written after it, and an enquiry of the row is created |
| TransactionLaws.ConfirmationsPrecede | backend/app/services/enquiries.py:132-141 | At every point of any interleaving, a confirmed row, a consumer that is about to write and an enquiry that was added each have the confirmation by the owner of the row behind them, and the enquiry a check in time |
| TransactionLaws.InterleavedNumbersAreFresh | backend/app/services/enquiries.py:142-150 | From migrated counters on, in any interleaving with commits and aborts at any point, no display id is handed out twice or was in use before, and the number behind every counter lock that is held is free |
| TransactionLaws.AloneIsOneCall | backend/app/services/enquiries.py:68-183 | A consumer, confirmation, cancellation or support request that finds its locks free and is left alone for its five steps, at any times, has the effect and the answer of the one atomic call, and leaves the other transactions alone |
| Locks.WhatAConfirmationDoes | backend/app/services/enquiries.py:68-86 | At any point of any interleaving: a confirmation looks at the row once, waits while a consumer has it locked, and then writes what it has decided over whatever is there by then |
| Locks.WhatACancellationDoes | backend/app/services/enquiries.py:89-102 | The same for a cancellation, which marks pending and confirmed rows |
| Locks.WhatAConsumerChecks | backend/app/services/enquiries.py:112-141 | A consumer waits for its row, then answers with the first enquiry of the confirmation if there is one, and checks details, status and deadline in this order on what the row is by then |
| Locks.WhatAConsumerWrites | backend/app/services/enquiries.py:142-183 | A consumer waits for the counter, takes its number, and writes enquiry, row and counter at once; if a constraint fails it writes nothing and answers with the enquiry that is there by then, or raises |
| Locks.WhatASupportRequestDoes | backend/app/tools/support.py:28-48 | A support request waits for the counter, takes its number, and writes itself and the next number at once |
| Realtime.RealtimeSession.ExecuteTool | backend/app/voice/openai_realtime.py:267-312 | Refines the specification of a tool call: size limit, replay, unregistered tools, the gate, and the eviction of the oldest remembered call |
| Realtime.RealtimeSession.StageOrWrite | backend/app/voice/openai_realtime.py:291-305 | Refines the specification of the gate in front of create_enquiry |
| Realtime.RealtimeSession.ObserveUserTranscript | backend/app/voice/openai_realtime.py:235-256 | Refines the specification of a transcript on the pending action, which WhatATranscriptDoes lays down together with the rows it changes |
| Realtime.RealtimeSession.CreateEnquiryTool | backend/app/tools/enquiries.py:71-92 | Refines the specification of the create_enquiry tool, which validates again before it consumes |
| Realtime.NeverBoth | backend/app/voice/openai_realtime.py:225-232 | No utterance matches both the confirmation and the cancellation pattern |
| Transcripts.WhatAccepts | backend/app/voice/openai_realtime.py:225-228 | Exactly which utterances accept: one of the five phrases, with "yes" and separators in front of it or not, with one full stop or exclamation mark behind it or not, whatever the letter case and the blanks around it |
| Transcripts.WhatDeclines | backend/app/voice/openai_realtime.py:229-232 | Exactly which utterances decline: one of the four phrases, with "no" in front of it or not, in the same way |
| Transcripts.WhatATranscriptDoes | backend/app/voice/openai_realtime.py:235-256 | One transcript, with the tables: an acceptance confirms the staged row in time and flags the action, or else drops it; a refusal sets the pending or confirmed row of the owner to cancelled and drops the action; no other row is touched, and any other utterance changes nothing |
| Withdrawals.RefusedStaysRefused | backend/app/voice/openai_realtime.py:252-255 | Over every run of both engines: after a refusal of a staged action, spoken or typed, the action is gone and its row is cancelled unless it had expired, no other row is touched, and from then on no event of any session changes that row or writes from it |
| Tools.WhatIsNotRun | backend/app/voice/openai_realtime.py:275-287 | A tool call that is too large, was answered before, or names no tool changes no table and answers just that; only the last is remembered |
| Tools.WhatCreateEnquiryDoes | backend/app/voice/openai_realtime.py:291-312 | A call of create_enquiry that runs: details other than the staged ones are proposed, read back and staged without the flag; the staged ones wait for the flag, and are then consumed, and dropped on success; the answer is kept among the last 256 |
| Tools.WhatOtherToolsDo | backend/app/voice/openai_realtime.py:306-312 | A request for a person is recorded with its reason under the next number; a tool that only reads changes no table; what is staged stays |
| RaceLaws.UninterruptedCallIsGate | backend/app/voice/openai_realtime.py:291-305 | A create_enquiry call of the interrupted engine that nothing interrupts has, after its steps, the tables and the staged action of the gate |
| RaceLaws.UninterruptedTranscriptIsObserved | backend/app/voice/openai_realtime.py:235-256 | A transcript of the interrupted engine that nothing interrupts has, after its steps, the tables and the staged action of the observation: a refusal does cancel the row |
| ReplayCache.RepeatIsReplayed | backend/app/voice/openai_realtime.py:278-312 | Before 256 further distinct ids have been remembered, a repeated call id gets the first answer and leaves the whole world as it is, whatever its name and whatever its arguments, as long as they pass the size limit that is checked first |
| ReplayCache.HeldStays | backend/app/voice/openai_realtime.py:309-311 | A remembered call outlives every new entry as long as fewer than 256 distinct ids have followed it |
| ReplayCache.WhenTheCacheOverflows | backend/app/voice/openai_realtime.py:283-287 | Over every run a cache holds more than 256 entries exactly when an unregistered tool was called while it was full |
| ReplayCache.BoundIsNotUnconditional | backend/app/voice/openai_realtime.py:284-287 | 257 calls of an unregistered tool do outgrow the cache |
| SessionStore.GetSucceedsIff | backend/app/voice/openai_realtime.py:77-105 | A stored session is found exactly if it was last used at most ttl seconds before and fewer than max - 1 of the sessions behind it were, with the arithmetic written out |
| SessionStore.FoundSinceLastUse | backend/app/voice/openai_realtime.py:77-109 | Over every run with fresh ids, whatever the clock does: a look-up finds an id exactly if it is stored, its last creation or successful look-up was at most ttl seconds before, and fewer than max - 1 of the sessions behind it are as young as that |
| SessionStore.WhatIsLeft | backend/app/voice/openai_realtime.py:84-109 | Which sessions every operation leaves, and which one is behind all others after it |
| SessionStore.AFullStoreDropsWhatIsAskedFor | backend/app/voice/openai_realtime.py:77-105 | With room for two, two sessions created at one instant: asking for the first drops it and does not find it |
| SessionStore.StoreStaysSorted | backend/app/voice/openai_realtime.py:77-109 | Under a clock that does not go back and with fresh ids, the store is always sorted by last use, holds at most max sessions, and at most max - 1 after a look-up |
| SessionStore.OnlyStoredIsFound | backend/app/voice/openai_realtime.py:97-105 | Pruning finds nothing that was not stored |
| SessionStore.RealtimeSessionStore.PruneLocked | backend/app/voice/openai_realtime.py:77-82 | Leaves the newest max - 1 of the unexpired sessions, in order |
| SessionStore.RealtimeSessionStore.Create | backend/app/voice/openai_realtime.py:84-95 | Adds the new session at the recently used end of the pruned store |
| SessionStore.RealtimeSessionStore.Get | backend/app/voice/openai_realtime.py:97-105 | Prunes, then moves the session that is found to the recently used end |
| SessionStore.RealtimeSessionStore.Delete | backend/app/voice/openai_realtime.py:107-109 | Removes exactly that session and says whether it was there |
| Dialogue.LocalSession.Hear | backend/app/voice/mock.py:259-517 | Refines the specification of one message, given its scored intent: confirmation lifecycle, parked search, slot filling, intents; the laws of Replies lay down what each of them does |
| Dialogue.LocalSession.AnswerPending | backend/app/voice/mock.py:294-337 | Refines the specification of a terse reply to a staged enquiry, which clears both pending variables whatever happens |
| Dialogue.LocalSession.ProposeEnquiry | backend/app/voice/mock.py:154-181 | Refines the specification of a proposal that is staged and read out |
| Dialogue.LocalSession.FillSlots | backend/app/voice/mock.py:367-386 | Refines the specification of slot filling: a full restatement wins over a bare place of at most four tokens |
| Dialogue.RunSession | backend/app/voice/mock.py:207-517 | The message loop computes the exchange: what each frame is answered with, up to a disconnect, JSON that is no object, or a message that raises |
| Dialogue.ExchangeIsConversation | backend/app/voice/mock.py:207-261 | Media, overlong or malformed events and context updates leave the conversation alone: its tables, its state and its replies are those of the text messages by themselves |
| Replies.WhatAPersonIsAskedFor | backend/app/voice/mock.py:483-497 | Every message that gets to the intents and asks for a person is recorded for its owner with its text, under "SUP-" and the next number of the workspace, which moves on by one, and the answer names that id; a text of more than 1000 characters, a missing counter or a taken number change nothing and are answered as such |
| Handovers.ARequestForAPersonIsKept | backend/app/voice/mock.py:483-497 | In every run such a request is recorded once with its text and number, touches no enquiry and no confirmation, leaves the chat open, and is there at every later point, whatever any session does |
| Replies.WhatAnAcceptanceDoes | backend/app/voice/mock.py:294-324 | An acceptance of what is staged clears it whatever comes of it; a row that cannot be accepted any more is too old; any other is dated and consumed for exactly the staged details, and the answer is that of the write |
| Replies.WhatARefusalDoes | backend/app/voice/mock.py:325-337 | A refusal of what is staged clears it and sets its pending or confirmed row to cancelled, and nothing else changes |
| Replies.WhatATerseReplyDoes | backend/app/voice/mock.py:339-362 | With nothing staged, a terse reply answers the offered search, or says that nothing is pending, or drops the parked request |
| Replies.WhatADraftDoes | backend/app/voice/mock.py:367-403 | The draft a message makes, of its own or by the first four tokens as the place of the parked request, is proposed if it is within the bounds: the row is prepared, exactly the read-out details are staged, and the sentence says them; a draft out of bounds clears what was staged |
| Replies.WhatAnIncompleteRequestDoes | backend/app/voice/mock.py:405-437 | A request without a draft is answered with its unsupported unit, or parked and asked for its place, or asked for its quantity, or for its product, in this order |
| Replies.WhatOtherMessagesDo | backend/app/voice/mock.py:439-517 | Every other message changes no table; it offers a search if something is recognised and the scores do not settle it |
| Replies.EveryTextIsOneOfThese | backend/app/voice/mock.py:259-517 | Every text of 1 to 4096 characters is in one of the cases above |
| Replies.WhatOtherFramesDo | backend/app/voice/mock.py:207-256 | What every frame that is no message is answered with, a context update with at most 32 characters of its distributor, and that it leaves tables and conversation alone |
| DialogueLaws.WhenAConversationDies | backend/app/voice/mock.py:154-177 | A message ends its conversation with an exception if and only if it proposes details of which there is no live row and whose idempotency key, of this session at this instant, is taken; a parked request always knows its product, quantity and unit, so filling it never meets a missing slot |
| DialogueLaws.WhenASessionDies | backend/app/voice/mock.py:207-517 | Over every list of messages, from any conversation whose parked request is whole: it ends with an exception if and only if one of its messages proposes such details |
| Endings.ASessionThatDies | backend/app/voice/mock.py:154-337 | Asked for 5 kg of rice, told to cancel and asked again at the same instant, a chat ends with an exception: the key of the cancelled row is taken |
| DialogueLaws.MissingDestinationOnly | backend/app/voice/nlu.py:428-458 | An extraction that misses a destination but no product knows product, quantity and unit |
| ReadOuts.EverySentenceIsReadBack | backend/app/voice/mock.py:154-181 | Over every list of messages of a chat: each sentence that asks for confirmation says, in these words, the quantity in digits, the unit, the product and the destination of one draft; exactly these four are staged with it, without a distributor; and it is understood as that draft again if and only if the draft is printable and holds no contraction |
| ReadOuts.FilledIsReadBack | backend/app/voice/mock.py:367-386 | For every parked request and every answer that fills it: the draft is read back exactly from its own description if and only if it is printable and holds no contraction |
| ReadOuts.PleaseIsReadOut | backend/app/voice/mock.py:376-386 | "5 kg of rice", then "dubai please": the destination is taken with its filler, and the sentence that is read out is not understood as that draft |
| ReadOuts.DescribedIsReadBack | backend/app/voice/mock.py:376-384 | A draft of any product and place tokens is read back exactly if and only if it is printable and none of its words is a contraction |
| Refusals.WhatFewWordsAreHeardAs | backend/app/voice/nlu.py:510-528 | For every list of one to four words without contractions: it is heard as an acceptance exactly if it holds a word of acceptance or, across the ends of words, a phrase of one, whatever refusal stands beside it; else as a refusal exactly if it holds a word or phrase of refusal; the search for phrases character by character is this search word by word |
| Refusals.WhatIsHeard | backend/app/voice/nlu.py:514-530 | For every text and every scoring: no tokens are unclear, up to four accept or refuse by the words and phrases, which are written out, acceptance first, and everything else is what the scores say |
| Refusals.UndoIsAcceptance | backend/app/voice/nlu.py:510-526 | "undo it" counts as an acceptance, because "do it" is found in it |
| DialogueLaws.NegatedAcceptanceIsAcceptance | backend/app/voice/nlu.py:526-530 | "do not confirm" counts as an acceptance |
| Spelling.SpelledNumbersReadBack | backend/app/voice/nlu.py:156-205 | Every spelling of every number below a thousand million, with any optional "and" and with or without lakhs, is read back whole, inside any surroundings that do not continue it |
| Spelling.DigitTokensReadBack | backend/app/voice/nlu.py:171-172 | Plain and comma-grouped digit tokens of every natural number read back to it |
| Spelling.ArticleReadsAsOne | backend/app/voice/nlu.py:184-189 | "a" and "an" read as one exactly before a scale or a unit, and are no number otherwise |
| Spelling.StopIsIndependent | backend/app/voice/nlu.py:168-205 | Where the reader stops depends on the tokens alone, not on what it has added up |
| Counting.WhatIsRead | backend/app/voice/nlu.py:117-205 | For every list of tokens the reader finds the number, and uses the tokens, of an independent count with every number word and scale written out: figures and words add up, "hundred" multiplies the group, a larger scale closes it, and the first token that fits nothing ends it |
| Numbers.ParseNumber | backend/app/voice/nlu.py:156-205 | The accumulating loop computes the recursive reading that the round trips are about |
| Extraction.FindDestination | backend/app/voice/nlu.py:298-314 | The 14-entry marker table finds the last "to", else the last "for", with length one, else nothing |
| Extraction.StripFillerLoop | backend/app/voice/nlu.py:99-105 | Strips exactly the trailing filler, then the leading articles |
| Extraction.StripProductNoiseLoop | backend/app/voice/nlu.py:342-346 | Strips exactly the trailing product noise |
| Extraction.ExtractEnquiry | backend/app/voice/nlu.py:395-458 | The scan computes the extraction that the laws below are about, words and units included |
| Lexicon.WhatUnitIsNamed | backend/app/voice/nlu.py:213-284 | For every list of tokens: kilograms exactly for eight words, tonnes exactly for seven words or "metric" before one of four, units exactly for six words, and nothing otherwise |
| Lexicon.WhatUnitIsRejected | backend/app/voice/nlu.py:245-291 | The unsupported units are exactly the 28 words that are written out |
| Lexicon.WhatIsExtracted | backend/app/voice/nlu.py:395-458 | The first number with a unit right behind it decides: the quantity is that number, the unit the one named by those words, and the product and the place are the words around the marker without articles, fillers and noise, or are missing; an unsupported unit is named instead |
| Lexicon.WhenNothingIsExtracted | backend/app/voice/nlu.py:395-404 | Without such a number, quantity and unit are missing, and all four fields if there are no tokens |
| Lexicon.FieldsAreFields | backend/app/voice/nlu.py:380-393 | The last "to", or without any the last "for", parts product and place; "of" in front, articles, fillers and the noise behind the product go, and nothing else does |
| Lexicon.WhatAFieldSays | backend/app/voice/nlu.py:108-111 | A field is its words with single spaces between them and their first letters raised |
| Quantities.NoTruncatedQuantity | backend/app/voice/nlu.py:406-420 | A quantity that starts at a digit or number word is never the tail of a longer number, with or without an "and" between |
| Quantities.FirstAcceptingPositionDecides | backend/app/voice/nlu.py:406-426 | The first position with a number and a unit behind it, supported or not, decides the extraction |
| ReadBack.ReadBackIsFaithful | backend/app/voice/mock.py:62-63 | For every text: the draft it yields is read back exactly from its own description, if and only if no field word is a contraction |
| ReadBack.ReadsBackIffPrintable | backend/app/voice/nlu.py:395-458 | For every product and destination token list: the printed tokens are extracted to exactly that draft if and only if the fields are printable |
| ReadBack.TokensOfDescription | backend/app/voice/mock.py:62-63 | The tokens of the description are the printed tokens with their contractions expanded |
| ReadBack.ContractionIsNotReadBack | backend/app/voice/nlu.py:85-96 | "5 kg of can't, for delivery to goa" yields a draft that its own description does not yield |
| Tokeniser.FoundTokensAreTokens | backend/app/voice/nlu.py:92-96 | Every token that is found is one whole token by itself |
| Tokeniser.FindAllJoin | backend/app/voice/nlu.py:92-96 | Tokens joined by spaces are found again |
| Wording.WhatTokenStarts | backend/app/voice/nlu.py:92-96 | The token a text starts with is the longest group of digits and commas between digits, or else the longest run of letters and digits with single hyphens and apostrophes inside |
| Wording.NoLetterIsLost | backend/app/voice/nlu.py:92-96 | Every letter and every digit of a text is in exactly one of its tokens, in the order of the text |
| Wording.WhatAWordStandsFor | backend/app/voice/nlu.py:33-57 | Each of the 23 contractions stands for its words, which are written out, and every other word for itself |
| Wording.SpokenSplit | backend/app/voice/nlu.py:85-89 | Blanks part the words of a text, whatever stands on either side |
| Decimal.PrintValue | backend/app/voice/nlu.py:171-172 | Decimal printing is undone by reading the digits |
| Decimal.WhatIsPrinted | backend/app/services/enquiries.py:150-150 | A number is printed without zeros in front |
| Decimal.PrintGroupedValue | backend/app/voice/nlu.py:171-172 | Printing with commas between groups of three is undone by dropping the commas and reading the digits |
| Routes.TransitionPath | backend/app/services/calls.py:46-65 | For every finite transition table and node order the search returns a legal route of least length, the earliest such in the order; none exactly when the target is unreachable; the empty one exactly when nothing is to do |
| Routes.LeastIsUnique | backend/app/services/calls.py:25-34 | There is only one least route, so the answer is the same on every run |
| Calls.TransitionPath | backend/app/services/calls.py:15-65 | For the call states the search computes the tabulated routes |
| Calls.Call.AdvanceCall | backend/app/services/calls.py:102-161 | Refines the specification of one report: the states passed through, the two times, the clipped texts, one audit row, or the error with nothing changed |
| Calls.Call.TakeRoute | backend/app/services/calls.py:130-137 | The loop sets started_at exactly when the route passes Active for the first time, and ended_at exactly when it ends in a terminal state |
| Calls.ReportsConverge | backend/app/services/calls.py:102-161 | Whatever is reported, in whatever order, the call ends in the settled state of the reports |
| Calls.SettledIsFirstTerminalOrFurthest | backend/app/services/calls.py:15-34 | The settled state is the first terminal state reported, or else the furthest state reported |
| Calls.OrderDoesNotMatter | backend/app/main.py:332-351 | Reports that name the same states, at most one of them terminal, settle alike, reordered and repeated as they may be |
| Calls.HistoryHolds | backend/app/services/calls.py:123-161 | Whatever the clock does: the audit rows chain from Queued to the current state over legal routes, started_at is set exactly if Active was traversed, and ended_at exactly in terminal states |
| Calls.TimesAreOrdered | backend/app/services/calls.py:130-137 | Under a clock that does not go back, no call ends before it started |
| Calls.EventChanges | backend/app/services/calls.py:130-161 | One event adds one audit row exactly if it changes the status, never changes started_at once set, and changes nothing but the summary of an ended call |
| Calls.SummariesRepeat | backend/app/services/summaries.py:20-36 | Any number of summary jobs, with any late reports between them, leave an ended call with the same summary |
| Calls.CallsAreIndependent | backend/app/main.py:302-351 | Interleaved calls do not disturb each other: each row is what its own events alone would have made of it |
| Calls.QueuedCallsHaveEnded | backend/app/main.py:349-351 | Over every run of events a summary is queued for exactly the calls that have reached a terminal state |
| Calls.Switchboard.TwilioEvent | backend/app/main.py:302-351 | Refines the specification of the webhook: find or create, apply or ignore, queue the summary |
| Calls.SimulatedCall | backend/app/main.py:272-283 | The simulated call has two applied reports, two audit rows and its exact times, states and texts |
| Calls.SimulationIsMadeOnce | backend/app/main.py:268-283 | A simulated call is finished and queued for its summary once; any later request with its key is only replayed and changes nothing, whatever else it says |
| Calls.Switchboard.SimulateCall | backend/app/main.py:268-283 | Refines the specification of the simulation endpoint: a replay, an unknown agent, or a new call with its two reports and its queued summary |
| Calls.Switchboard.SummarizeCall | backend/app/services/summaries.py:31-36 | Refines the specification of the summary job, which a missing call leaves without effect |
| CallLaws.WhatAReportDoes | backend/app/services/calls.py:102-161 | A report with every state written out: the same state changes nothing, a state that is not ahead is refused, and any other moves the call there, dates its answer and its end, takes at most 20000 characters of transcript and 80 of outcome, and adds one audit row with the states in between |
| CallLaws.WhatACarrierEventDoes | backend/app/main.py:302-351 | The webhook makes the call if it is not there, applies or ignores the report, queues the summary exactly for an ended call, and touches no other call |
| CallLaws.WhatASimulationDoes | backend/app/main.py:268-283 | A replay, an unknown agent, or one finished and queued row with its texts, times and two audit rows, and no other row touched |
| CallLaws.WhatASummarySays | backend/app/services/summaries.py:20-28 | For every transcript: at most 700 characters of the first two sentences of the words of the transcript, a full stop, and the outcome if there is one; a fixed sentence without any words |
| CallLaws.SentencesSplit | backend/app/services/summaries.py:24-24 | Full stops, question marks and exclamation marks, and nothing else, end a sentence |
| JobRuns.RunsAreOk | backend/app/worker.py:37-80 | Over every run of single Redis commands, crashes and restarts of one worker: every enqueued call is waiting, in process, dead, acknowledged, in hand or lost, exactly once; no more are lost than there were crashes; live jobs have attempts left and dead ones have used all three |
| JobRuns.WhenJobsAreLost | backend/app/worker.py:54-62 | Jobs are lost exactly when the worker crashes between the removal and the push of a failed job |
| JobRuns.AJobCanBeLost | backend/app/worker.py:55-62 | A concrete run that ends with the job in none of the lists |
| JobRuns.IterationIsSteps | backend/app/worker.py:74-79 | One turn of the loop is a fetch and one removal, and a push if the summary failed |
| JobRuns.RestoringIsSteps | backend/app/worker.py:37-41 | Moved back one command at a time, all interrupted jobs end up in their order in front of the waiting ones, and the worker is idle |
| Worker.Client.Drain | backend/app/worker.py:74-79 | Without crashes and new work, n jobs drain in at most 3n turns, whatever fails when, leaving nothing waiting or in process |
| Worker.IterationMakesProgress | backend/app/worker.py:44-63 | Each turn strictly lowers the attempts left, all together, and keeps every retry bound |
| Worker.WhatATurnDoes | backend/app/worker.py:44-79 | One turn takes the rightmost job; it is gone after a success, waits at the right end after its first and second failure, and is dead after its third |
| Worker.AJobIsTriedThreeTimes | backend/app/services/summaries.py:17-17 | A new job whose summary always fails waits after one and after two turns, with that many attempts, and is dead after three |
| Worker.RemainingIsBounded | backend/app/services/summaries.py:17-17 | The attempts left are at most three for each job |
| Worker.Client.RestoreInterruptedJobs | backend/app/worker.py:37-41 | Puts all interrupted jobs, in order, in front of what is waiting, and counts them |
| Worker.Client.ProcessItem | backend/app/worker.py:44-63 | Refines the specification of one job: removed once, and pushed back or to the dead letters after a failure |
| Worker.Client.EnqueueSummary | backend/app/services/summaries.py:39-46 | Adds a job with no attempts at the right end; if the queue cannot be reached the call is summarised at once instead, if there is such a call, and the lists stay as they are |
| RateLimit.SweptLimiterForgetsNothingThatCounts | backend/app/rate_limit.py:16-43 | Under a clock that does not go back, with keys interleaved at will: if no narrower check and no sweep comes between an admission of a key and a check that would count it, the swept limiter decides every request as one that never forgets |
| Forgetting.WhenTheLimitersDiffer | backend/app/rate_limit.py:16-43 | For every schedule of keys and windows: some positive limits and some clock that does not go back make the swept limiter decide differently from one that never forgets, if and only if a check of a key for a positive window has between it and an earlier check of that key either a narrower check of it or a check up to which every window asked for is narrower |
| Forgetting.SweepForgets | backend/app/rate_limit.py:27-31 | The comment that a stale key cannot limit anybody fails: checks of "a" for 10 s at 0 s, "b" for 10 s at 70 s and "a" for 100 s at 71 s admit one too many |
| RateLimit.OneWindowAgrees | backend/app/rate_limit.py:16-43 | A key that is always checked with one window is decided by the swept limiter as by one that never forgets, whatever windows other keys ask for |
| RateLimit.AtMostLimitPerWindow | backend/app/rate_limit.py:16-43 | The swept limiter never admits more than the limit into any half-open interval of the window for a key that is checked with one limit and window, whatever the other keys are checked with |
| RateLimit.RefusedIffWindowIsFull | backend/app/rate_limit.py:16-43 | The swept limiter refuses such a key exactly when the window before the request already holds the limit |
| Forgetting.NarrowWindowForgets | backend/app/rate_limit.py:39-43 | With two windows for one key the two limiters differ: a narrow check drains what a later wide check would have to count |
| RateLimit.SlidingWindowLimiter.SweepLocked | backend/app/rate_limit.py:23-31 | Deletes exactly the keys with nothing younger than the widest window, at most once a minute |
| RateLimit.SlidingWindowLimiter.Check | backend/app/rate_limit.py:33-43 | Refines the specification of one check |
| RateLimit.WhatACheckDoes | backend/app/rate_limit.py:33-43 | A check drains exactly the leading times outside the window, admits exactly if fewer than the limit are left, adds its own time, and touches no other key but by the sweep |
| RateLimit.WhatASweepDoes | backend/app/rate_limit.py:23-31 | At least 60 s after the last sweep exactly the keys whose youngest time is older than the widest window go |
| Counters.MigratedNumbersAreFresh | backend/alembic/versions/20260822_0002_workspace_counters.py:49-65 | From the migrated counters on, over every list of whole calls, the ids added are all different from each other and from every id the workspace had, and the next ones are free, so the unique constraints on display ids never fail |
| Counters.NumbersAreGapFree | backend/app/services/enquiries.py:142-150 | Over every run of calls the ids a workspace adds are exactly the gap-free ranges of its counters, in order |
| Counters.NextNumber | backend/alembic/versions/20260822_0002_workspace_counters.py:13-20 | One more than the largest number behind the prefix, or 1001 when there is none |
| Counters.Upgrade | backend/alembic/versions/20260822_0002_workspace_counters.py:42-65 | Every workspace, and no other, gets counters that go on after its ids |
| Counters.PrintedIsParsed | backend/alembic/versions/20260822_0002_workspace_counters.py:13-19 | The number behind a printed id is the number it was printed from |
| Counters.WhatIsParsed | backend/alembic/versions/20260822_0002_workspace_counters.py:13-19 | Exactly the prefix with digits behind it has a number, the one its digits say |

## Left out

- Unicode: letters and digits are ASCII; normal forms, smart quotes and other scripts are not modelled.
- The regular expression engine: the token pattern and the two transcript patterns are written out as functions.
- Dialogue.LocalSession.Hear: which intent is scored highest outside the terse replies is an input of a message, and so is whether a product or a place of the workspace is recognised in it; the scoring compares words with the catalogue and decides no write.
- Spelling.DigitTokensReadBack: the refusal of Python's int() to read more than 4300 digits, which a message of at most 4096 ASCII characters cannot reach.
- Search slots, distributor look-up, enquiry status and their spoken answers: read-only; the tools answer with an input text.
- HTTP, WebSocket and WebRTC plumbing, tokens and signatures: an event arrives with its principal, and the check that a session belongs to its caller is kept.
- Session setup with the upstream provider: a session is opened or closed.
- The size of tool arguments in bytes: whether a call is too large is an input.
- The digest function and the printing of idempotency keys: any function, and a tuple of the parts.
- SQLAlchemy's identity map and autoflush, deadlocks, and isolation beyond row locks; constraints are checked at the commit.
- Foreign keys other than that of the distributor, and the check on positive quantities, which validation implies.
- Audit rows of enquiries and support requests, and the creation times of rows.
- Transactions.RunsAreOk: a proposal is one step there, because its look-up and its insertion take no lock and touch no enquiry.
- Races.EveryRacedWriteIsAccepted: the calls of the service are atomic in it, and only create_enquiry calls are taken apart; the steps inside a call of the service are the subject of `Transactions`, and in `Runs` every event is atomic.
- Several workers: a restart would put another worker's job back; the supplied composition runs one.
- Malformed queue payloads and failing Redis commands: the producer writes only well-formed jobs, and a failing command is a crash.
- The heartbeat and the queue statistics.
- The expiry of the limiter's state by `clear`, and the count of tracked keys.
- Floating point: clock readings and windows are reals and integers.
- Counters.NextNumber: suffixes with digits outside ASCII, some of which the code would fail on.
- Dashboards, seed data, schema definitions, logging and metrics.
