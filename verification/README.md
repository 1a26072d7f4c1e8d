# Mini Alpha, verified

A Dafny model of the parts of the research assistant in which mistakes would be silent: the durable run
lifecycle, the delivery of run events to the browser, the deterministic market calculations, the result
cache, the two views of a turn's artifacts, and the claim verifier. `dafny verify dfyconfig.toml` checks all of it.

## How it is organised

**Durable runs.** `Repository.dfy` states every operation of the conversation repository as a function on its four
maps, and the invariant of reachable states: turns 1, 2, … without gaps, one open run per thread and only as the
newest, keys and runs inverse to each other, the lifecycle CHECK of the database. `MemoryRepository.dfy` is the
class with its four dictionaries, each method refining its operation. `History.dfy` runs over whole histories of
calls: the checkpoint compare-and-swap is redundant, retransmissions are idempotent, completed turns are frozen.
`Postgres.dfy` and `PostgresTheorems.dfy` take the same operations apart into statements of interleaved
transactions with row locks, unique indexes and connections lost before or after the commit, and show that every
commit is one atomic operation; what a caller is told is the atomic answer with one exception, stated as an if-and-only-if, which
`PostgresRace.dfy` reaches from an empty database. `ThreadResearch.dfy` is the service on top: a replay equals the first response.

**Events.** `RunEvents.dfy` and `RunChannel.dfy` hold the producer and the channel. `RunManager.dfy` and
`DetachedManager.dfy` are the detached manager with every await as an interleaving point: worker, agent failure,
repeated cancels, expired grace period and shutdown sweep; `RunEndings.dfy` says exactly which ended runs have a
run_end in their channel. `EventStore.dfy` is the bounded store and its fail-open wrapper, `StreamReader.dfy` a
reader that follows a stream while it grows, and `RouteReader.dfy` a reader of the fail-open store, whose route is
fixed when it attaches while publications go on and fail. `SseText.dfy` is the wire format for any codec that is
faithful to the events at hand, `Json.dfy` shows that compact JSON is faithful to all of them, `SseClient.dfy` is the
browser's buffer loop, `Reconnect.dfy` its reconnect loop. `Delivery.dfy` puts the chain together: when the
browser's loop ends, it has shown a run_end that tells the run's durable status, and every event that no attempt
stepped over.

**Calculations**, over the reals: `Drawdown.dfy`, `Indicators.dfy`, `Backtest.dfy`, `Correlation.dfy`.

**Cache.** `CachePolicy.dfy` decides how long a result may live, `CacheStores.dfy` has the two tiers and the
coordinator, `CacheService.dfy` bounds the age of whatever any run serves, `CacheRelative.dfy` treats queries
about the present. Time is an integer number of microseconds and need not be monotonic.

**Views and verification.** `ArtifactView.dfy` compares the backend's reverse scan with the browser's fold;
`ClaimVerifier.dfy` characterises exactly when a report passes.

Methods follow the loops and field updates of the code and are proved against functions; the theorems are about
those functions. The manager, the transactions and the stream reader are step systems instead, because what
matters about them is what happens between two of their steps.

## Results that are not as one would expect

- A cancellation keeps the repository's invariant only if its artifacts parse: the run is written first
  (`Repository.CancelKeepsInvIffWellFormed`). The other operations parse first or have nothing to parse.
- Of two callers racing with one request key on one thread, the one that waited for the row lock is told that the
  thread is busy, where the in-memory repository would replay (`PostgresTheorems.LateCallerIsRefused`).
- A cancel that lands between the durable ending and the recording of run_end leaves the channel without
  one, for good (`RunEndings.LateCancelLosesRunEnd`). `RunEndings.RunEndRecordedIff` says exactly which runs have one.
- A reader of the fail-open store keeps the route it chose when it attached. If an event is lost after that, a reader
  of the primary goes on to the later ones, the browser ends with the run over, and the event is never shown, although
  the local copy has it (`RouteReader.AttachedReaderSkipsLostEvent`, `Delivery.BrowserMissesLostEvent`). If the run_end
  itself is lost, that reader waits forever (`RouteReader.LostEndIsWaitedFor`). `RouteReader.PromiseIsPrefixIff` has the
  exact condition; whatever happens, the status the browser is told is the durable one.
- After a failed primary publication a replay is complete only if the run fits the buffer or the cursor is beyond
  what the buffer dropped (`EventStore.RouteAgreement`).
- The reconnect loop keeps its old cursor when an attachment throws, so what that attachment showed is shown again
  (`Reconnect.ReconnectDelivery` says exactly when).
- The exact cache key collapses white space and folds characters, while the search for words about the present runs
  on the text as typed. "this week" and "this  week" share a key and only the first is about the present, so the
  minute's cap can be bypassed (`CacheRelative.TwoBlanksAnswerLate`, `CacheRelative.RecentIffKeysTell`). app/cache/service.py:79-87 intends the cap for every such query.
  Queries whose white space is single blanks are safe (`CacheRelative.SingleBlanksAnswerRecently`).
- A number cited from the text "Infinity" passes whatever it is, and one cited from "NaN" leaves no report
  (`ClaimVerifier.InfinityPassesAnyNumber`, `ClaimVerifier.NotANumberLeavesNoReport`).
- A cancelled turn stores all recorded artifacts, but the live view has already dropped replaced errors
  (`ArtifactView.CancelledViewAgreesIff`).
- The live and the stored view differ on statuses other than ok and error, and on errors without a text type
  (`ArtifactView.ViewsAgreeIff`).

## Model

| member | source | states |
|---|---|---|
| MemoryRepository.InMemoryConversationRepository.AdmitRun | app/persistence/memory.py:43-124 | The new dictionaries and the answer are those of the atomic admission, in every branch: bound key with same or different request, missing thread, active run, fresh turn. |
| MemoryRepository.InMemoryConversationRepository.CompleteRun | app/persistence/memory.py:126-165 | The completion refines its operation: the compare-and-swap comes before the artifacts are parsed, and a malformed artifact writes nothing. |
| MemoryRepository.InMemoryConversationRepository.FailRun | app/persistence/memory.py:167-191 | Run and thread end as failed together, or nothing changes. |
| MemoryRepository.InMemoryConversationRepository.RecoverAbandonedRuns | app/persistence/memory.py:193-218 | The loop fails exactly the open runs, with their threads, in whatever order it meets them, and returns how many there were. |
| MemoryRepository.InMemoryConversationRepository.CancelRun | app/persistence/memory.py:220-251 | The cancellation refines its operation, including the half-written state a malformed artifact leaves. |
| MemoryRepository.InMemoryConversationRepository.ReadTurn | app/persistence/memory.py:282-291 | A run reads back with its filed artifacts, none meaning an empty list. |
| MemoryRepository.InMemoryConversationRepository.RunByRequestKey | app/persistence/memory.py:273-280 | In a reachable state the run found is the stored run that carries the key, and the only one; nothing found means that no run carries it. |
| MemoryRepository.InMemoryConversationRepository.RequireActiveRun | app/persistence/memory.py:310-319 | Unknown runs and finished runs are told apart. |
| Repository.AdmitShape | app/persistence/memory.py:52-124 | An admission that is not fresh leaves every map alone; a fresh one is one allocation of the next turn of its thread. |
| Repository.AdmitKeepsInv | app/persistence/memory.py:43-124 | Admission keeps the reachable-state invariant, whatever thread, message and key it is given. |
| Repository.CompleteKeepsInv | app/persistence/memory.py:126-165 | Completion keeps the invariant, also when it is refused. |
| Repository.FailKeepsInv | app/persistence/memory.py:167-191 | Failure keeps the invariant. |
| Repository.InterruptKeepsInv | app/persistence/memory.py:193-218 | Recovering any set of open runs keeps the invariant. |
| Repository.CancelKeepsInvIffWellFormed | app/persistence/memory.py:241-245 | A cancellation of an open run keeps the invariant if and only if all its artifacts parse (identity, type, version, status, data, error, structured failure, provenance), because the run is written first. |
| Repository.AtMostOneActive | migrations/versions/001_phase_4_5_persistence.py:148-152 | In a state of the invariant a thread has at most one run in progress. |
| Repository.TranscriptIsGapFree | app/persistence/memory.py:293-308 | Any listing of a thread's runs in turn order is the sequence of turns 1, 2, … without gap or repetition. |
| Repository.TurnAppears | app/persistence/memory.py:293-308 | Every turn below the thread's next turn stands in such a listing. |
| History.HistoryInv | app/persistence/memory.py:43-251 | Every state of every history of calls satisfies the invariant, and open runs still see the head they were admitted from. |
| History.HistoryExtends | app/persistence/memory.py:310-319 | Nothing undoes anything: keys stay bound, rows keep identity, turn and message, finished runs and their evidence never change. |
| History.CheckpointConflictUnreachable | app/services/thread_research.py:189-207 | From a fresh admission until its run ends the head is the checkpoint it was given, so its completion never meets a checkpoint conflict; it fails exactly when the run has ended or an artifact is malformed. |
| History.HeadIsLastCompletion | app/persistence/memory.py:135-165 | A thread's head is the checkpoint of its highest-turn completed run, and none exactly when nothing completed. |
| History.RetransmissionIsIdempotent | app/persistence/memory.py:52-67 | Once a key is bound, any later admission with it names the same run or conflicts, and writes nothing. |
| History.CompletedTurnIsFrozen | app/persistence/memory.py:282-291 | A completed turn reads back unchanged from every later state. |
| ThreadResearch.StoredToolCalls | app/services/thread_research.py:462-488 | The loop keeps exactly the stored calls with a text name and an object of arguments, in order. |
| ThreadResearch.CallsReadBack | app/services/thread_research.py:462-500 | Round trip: storing executed calls and reading them gives the same calls, with status and summary. |
| ThreadResearch.EnvelopeReadsBack | app/services/thread_research.py:502-515 | A stored artifact's envelope has the type, version, status, data, error and provenance it was stored with. |
| ThreadResearch.FirstResponse | app/services/thread_research.py:183-209 | A finalized run is answered with the agent's own answer, calls and artifacts. |
| ThreadResearch.ReplayEqualsFirstResponse | app/services/thread_research.py:423-451 | However the repository is used before, between and after, a retransmission of a completed request is answered with the first response. |
| ThreadResearch.AgentRunsAtMostOnce | app/services/thread_research.py:153-170 | No run and no key is admitted fresh twice, so the agent is executed at most once for each. |
| ThreadResearch.ThreadConflictUnreachable | app/services/thread_research.py:198-207 | The service's branch for a checkpoint conflict is never taken by a finalization of its own admission. |
| ThreadResearch.StreamReplay | app/services/thread_research.py:254-288 | The replayed stream is metadata, calls, artifacts, a non-empty answer and run_end, numbered from 1. |
| ThreadResearch.ReplayStreamShowsResult | app/services/thread_research.py:268-288 | Folded by the browser, a replayed stream shows the stored answer, calls and completed status. |
| ThreadResearch.ReplayStreamIsNumbered | app/events/models.py:51-61 | A replayed stream is numbered 1 to n with its one run_end last. |
| ThreadResearch.StoredIsStable | app/services/research_agent.py:651-668 | Dropping superseded errors twice is dropping them once. |
| ThreadResearch.ReplayShowsEveryArtifact | frontend/src/chat/events.ts:55-65 | The browser hides none of the artifacts a completed turn stored. |
| Postgres.NextKeepsSysInv | app/persistence/postgres_admission.py:41-108 | Every step of every transaction keeps the committed invariant, the truth of each transaction's view, and the separation of locks. |
| Postgres.InsertCannotCollide | app/persistence/postgres_admission.py:149-207 | Under its thread lock an insert can violate no unique index but the one on request keys. |
| Postgres.MoveAdmitOk | app/persistence/postgres_admission.py:235-251 | No admission step ends in an unexplained persistence error, and a raced key is always found on the second look. |
| Postgres.AllocateKeepsOther | app/persistence/postgres_admission.py:110-147 | The commit of an admission leaves true what every other transaction has read under locks it does not share. |
| Postgres.SettleKeepsOther | app/persistence/postgres_lifecycle.py:32-253 | The same for the commit of a completion, failure, cancellation or recovery. |
| PostgresTheorems.StepRefinesRepository | app/persistence/postgres_lifecycle.py:32-253 | Each step, its answer heard or not, either leaves the committed rows alone or is one operation of the atomic repository. |
| PostgresTheorems.CommittedStatesAreSound | migrations/versions/001_phase_4_5_persistence.py:139-152 | In every reachable state: one run per key, the repository invariant (one active run per thread, turns without gaps), and no thread without a first run, so an admission that did not commit leaves nothing. |
| PostgresTheorems.AnswersAreSound | app/persistence/postgres_admission.py:41-108 | Each answered admission is a fresh run of this request, a replay of its key's own run, a justified refusal, or a lost connection. |
| PostgresTheorems.UnheardAdmissionIsReplayed | app/persistence/postgres_admission.py:60-108 | If the connection dies after an admission has committed, its caller is told nothing but an error; asked again with the same key, the repository replays that run. |
| PostgresTheorems.AnswerIsAtomicUnlessKeyBoundMeanwhile | app/persistence/postgres_admission.py:60-108 | The answering step gives the atomic repository's answer if and only if it does not meet, its key bound meanwhile, a named thread that is missing or a locked thread that is busy. |
| PostgresTheorems.LateCallerIsRefused | app/persistence/postgres_admission.py:60-86 | From any state in which two callers with one unbound key wait for one idle thread, the one that gets the row second is told the thread is busy, although the atomic repository would replay. |
| PostgresRace.RefusalIsReachable | app/persistence/postgres_admission.py:60-86 | Such a state, and that refusal, are reached by an execution from an empty database. |
| PostgresTheorems.SomeoneCanMove | app/persistence/postgres_lifecycle.py:32-155 | Among pending admissions and single-run endings someone can always move. |
| RunChannel.Channel.RecordEvent | app/services/run_manager.py:48-56 | An event is recorded unless the channel is terminal, and a run_end makes it so. |
| RunChannel.Channel.PublishTerminalEvent | app/services/run_manager.py:58-78 | One run_end with the next number, or nothing if there is one. |
| RunChannel.Channel.CancellationSnapshot | app/services/run_manager.py:80-104 | The text deltas concatenated, the well-formed tool calls and the artifacts, in order. |
| RunChannel.RecordKeepsNumbered | app/services/run_manager.py:48-56 | Recording the next number keeps the channel numbered 1 to n with one run_end at most, last. |
| RunChannel.PublishKeepsNumbered | app/services/run_manager.py:58-78 | So does publishing a terminal event, which always leaves the channel terminal. |
| RunEvents.RunEventProducer.Emit | app/events/models.py:51-61 | Each event gets the next number. |
| RunManager.ExecStepKeeps | app/services/run_manager.py:302-328 | Every step of an execution between two awaits keeps the run's account of channel, store and durable status, whatever agent and repository answer. |
| RunManager.LocalStepKeeps | app/services/run_manager.py:249-328 | So does every step of cancels, of dying executions and of the shutdown sweep. |
| RunManager.CancelMayLoseRunEnd | app/services/run_manager.py:249-277 | A cancel that lands between the durable ending and the recording of run_end, in any state that satisfies the run's account, leaves the channel without one. |
| DetachedManager.NextKeepsOk | app/services/run_manager.py:138-209 | Every step of the manager keeps its queue, its one worker and all its runs in order. |
| DetachedManager.DurableEndingIsFinal | app/services/run_manager.py:249-328 | Once a run has durably ended, no step of any execution changes its status. |
| DetachedManager.RunEndTellsDurableStatus | app/services/run_manager.py:249-328 | A run_end handed to the store tells the durable status of its run, then and ever after, and is the last event handed; the agent was started at most once. |
| DetachedManager.ChannelAndStoreOrder | app/services/run_manager.py:302-338 | Channel numbers are 1 to n with at most one run_end, last; the store sees recorded events in strictly increasing order even when cancellation drops one. |
| RunEndings.RunEndRecordedIff | app/services/run_manager.py:249-328 | Of a run that has ended, with no live execution and nobody owing it a run_end, the channel has one if and only if a cancel or the sweep ended the run, or its execution was started and not killed before recording it. Runs failed by another process and runs never started are included. |
| RunEndings.CancelledRunHasRunEnd | app/services/run_manager.py:271-276 | A cancelled run always gets its run_end. |
| RunEndings.CompletedRunHasRunEndIff | app/services/run_manager.py:302-328 | A run completed here has its run_end if and only if its execution was not killed first. |
| RunEndings.UnstartedRunHasRunEndIff | app/services/run_manager.py:279-300 | A run that was never started has its run_end if and only if a cancel or the sweep ended it. |
| RunEndings.OutsideEndedRunHasRunEndIff | app/services/run_manager.py:310-328 | A run ended by another process has its run_end if and only if its execution was started and not killed first. |
| RunEndings.RunEndHandedIff | app/services/run_manager.py:308-309 | The store was handed the run_end if and only if the channel has one and no execution died holding it. |
| RunEndings.LateCancelLosesRunEnd | app/services/run_manager.py:249-277 | An execution from the start reaches a run completed for good, with nothing queued, alive or owed, whose channel has no run_end. |
| EventStore.InMemoryRunEventStore.OpenStream | app/events/store.py:76-94 | Get or create a run's stream, evicting the first finished stream, else the oldest, when there is no room. |
| EventStore.InMemoryRunEventStore.PublishEvent | app/events/store.py:96-109 | The event is appended and the stream cut to its limit, unless the stream has ended. |
| EventStore.ResilientRunEventStore.PublishEvent | app/events/store.py:209-243 | Local copy first, then the primary; a failure marks the run as degraded and drops the longest degraded ones beyond the limit. |
| EventStore.FillKeepsNewest | app/events/store.py:96-109 | A stream holds everything published, or exactly the newest events its limit allows. |
| EventStore.TouchKeepsListed | app/events/store.py:76-94 | Every stream stays listed exactly once. |
| EventStore.FallbackIsFilled | app/events/store.py:209-215 | Within the run limit every local copy holds its own run's events, whatever other runs published. |
| EventStore.PrimaryIsFilled | app/events/store.py:209-218 | Whatever failed, a run's primary stream holds exactly the events that reached it. |
| EventStore.DegradedIffFailed | app/events/store.py:236-243 | Within the run limit the degraded runs are exactly those with a failed primary publication. |
| EventStore.RouteAgreement | app/events/store.py:209-263 | A replay after the last event yields exactly the published events above the cursor if and only if nothing failed, or everything fits the buffer, or what the buffer dropped is at or below the cursor. |
| StreamReader.ReaderDeliversInOrder | app/events/store.py:111-136 | In every interleaving with publishers a reader has yielded a prefix of the published events above its cursor, and all of them, with the stream finished, when it returns. |
| StreamReader.FinishedStreamIsDrained | app/events/store.py:111-136 | On a finished stream the reader is never stuck and every step brings its return nearer. |
| RouteReader.PromiseIsPrefixIff | app/events/store.py:245-263 | A reader that chose its route when it attached, with publications and failures going on: what it has yielded and is about to yield is a prefix of the events published above its cursor if and only if it never woke up overtaken, that is with an event above its cursor dropped from the buffer, or skipped by the primary. |
| RouteReader.ReturnedIsCompleteIff | app/events/store.py:111-136 | A reader that has returned delivered exactly the published events above its cursor if and only if it was never overtaken. |
| RouteReader.LookAtBuffer | app/events/store.py:96-109 | A truncated buffer shows everything above the cursor if the newest dropped event is at or below it, and differs at once otherwise. |
| RouteReader.LookAtPrimary | app/events/store.py:209-218 | A primary stream shows all published events above the cursor if none was lost, a proper prefix if nothing reached it after the first loss, and something else otherwise. |
| RouteReader.PrimaryReaderIsCompleteIff | app/events/store.py:259-263 | A primary reader that has returned is complete if and only if no publication above its first cursor was lost. |
| RouteReader.NeverOvertaken | app/events/store.py:245-263 | While a look from the first cursor, at what has been published so far, would step over nothing, no schedule has overtaken the reader. |
| RouteReader.SomeScheduleOvertakesIff | app/events/store.py:245-263 | Some schedule of publications and reads overtakes the reader if and only if the buffer dropped an event above its first cursor, or the primary skipped one, by the time everything is published: a condition on the publications alone. |
| RouteReader.PrimaryDelivers | app/events/store.py:259-263 | Whatever was lost, a primary reader has yielded a beginning of those events above its cursor that reach the primary. |
| RouteReader.LostEndIsWaitedFor | app/events/store.py:259-263 | A primary reader of a run whose run_end was lost never returns. |
| RouteReader.DeliveredIsPublished | app/events/store.py:245-263 | Overtaken or not, a reader yields published events only, in order, with a run_end only at the end. |
| RouteReader.AttachedReaderSkipsLostEvent | app/events/store.py:252-263 | Negative result: a reader attached to the primary before an event is lost returns without it, although the local copy has it. |
| SseText.EncodeSseStream | app/api/sse.py:27-51 | The chunks are the frames of the events, with a keep-alive for every wait that timed out. |
| SseText.SplitIncrementally | frontend/src/api/client.ts:192-194 | Splitting at blank lines piecemeal and carrying the open part over is splitting the whole text. |
| Json.OneValue | app/api/sse.py:19-23 | A value's compact JSON text, followed by anything that cannot continue a number, is the text of no other value. |
| Json.JsonIsFaithful | app/api/sse.py:17-24 | Compact JSON meets what the results below ask of a codec, for every event: its text is on one line, no other event has it, and no event's text is a proper beginning of it. |
| SseText.ContentTidy | app/api/sse.py:17-24 | No blank line and no carriage return inside a frame. |
| SseText.SplitTruncated | frontend/src/api/client.ts:192-194 | Wherever the server's text is cut off, it splits into its whole frames and a part of one more. |
| SseText.ParseOfPart | frontend/src/api/client.ts:215-223 | A frame cut off before its payload is skipped, inside it breaks the parser, and after it gives the event. |
| SseClient.AttachEvents | frontend/src/api/client.ts:173-213 | The buffer loop computes what its specification does for every list of chunks and either kind of ending. |
| SseClient.ChunksDoNotMatter | frontend/src/api/client.ts:190-212 | For any text without carriage returns, well formed or not, reading goes through all of it or stops at a prefix; chunk borders play no other part. |
| SseClient.AttachmentOutcome | frontend/src/api/client.ts:173-213 | An attachment's result is a function of how much of the server's text arrived and how the connection ended, not of chunks or keep-alives. |
| SseClient.WholeStreamRoundTrip | frontend/src/api/client.ts:173-213 | Round trip: a stream received whole, in any chunks and with any keep-alives, gives back exactly its events, the cursor and whether the run ended. |
| SseClient.TruncatedStreamIsPrefix | frontend/src/api/client.ts:190-213 | A cut-off stream shows a prefix, and ends the run only if that is everything. |
| Reconnect.StreamMessage | frontend/src/api/client.ts:139-163 | The reconnect loop computes what its specification does over any sequence of refusals, failures, aborts and streams. |
| Reconnect.ReconnectDelivery | frontend/src/api/client.ts:139-163 | Over attachments served without gaps no event is skipped; when the run is over every event was shown, each exactly once and in order if and only if no attempt the loop made was broken off, or cut inside a payload, after a whole event and before the run_end. |
| Reconnect.CompleteAttachmentEndsRun | frontend/src/api/client.ts:142-154 | One attachment served to the end of the run ends the loop and shows exactly what was missing. |
| Delivery.HandedEventsAreARun | app/services/run_manager.py:302-338 | What the manager hands to the store meets what store and browser assume of a run's events. |
| Delivery.HandedEventsAreReplayed | app/events/store.py:245-263 | Those events are replayed alike from primary and fallback, under the same exact condition. |
| Delivery.FollowedIsServed | app/services/run_manager.py:235-247 | An attachment whose reader is not overtaken is served without a gap, which is what ReconnectDelivery asks for. |
| Delivery.NothingLostNobodyOvertaken | app/events/store.py:245-263 | If the run fits the buffer and none of its publications was lost, no attachment is ever overtaken. |
| Delivery.BrowserMissesLostEvent | frontend/src/api/client.ts:139-163 | Negative result: with an event lost after the attach, the loop ends with the run over and that event is never shown. |
| Delivery.LostEventIsNeverShown | frontend/src/api/client.ts:139-163 | That run exists with JSON as the codec. |
| Delivery.LiveStatusIsDurable | frontend/src/chat/events.ts:73-83 | The turn folded from a run's handed events, a run_end among them, shows the status the run durably has. |
| Delivery.NeverShownIff | frontend/src/api/client.ts:139-163 | An event is never shown if and only if the attempt that moves the cursor past it, and every one before that, left it out, or all attempts where none moves that far; what attempts that threw left out does not matter by itself. |
| Delivery.PrimaryStepsOverLost | app/events/store.py:259-263 | An attempt served from the primary that moves the cursor past an event left it out if and only if the event never reached the primary. |
| Delivery.BrowserLearnsDurableStatus | frontend/src/api/client.ts:139-163 | End to end, with readers of the fail-open store behind the attachments: when the loop ends with the run over, a run_end with the run's durable status was shown whatever failed; every event handed out was shown if and only if none was stepped over, and none is, nor shown early, if no reader was overtaken. |
| ArtifactView.WithoutSupersededErrors | app/services/research_agent.py:651-668 | The reverse scan keeps, in order, exactly the artifacts no later success of their type supersedes. |
| ArtifactView.ShownIsLive | frontend/src/chat/events.ts:55-65 | The incremental reducer keeps exactly the artifacts no later success replaces. |
| ArtifactView.ViewsAgreeIff | frontend/src/chat/events.ts:55-65 | For arbitrary artifacts the live and the stored view are equal if and only if no artifact is dropped from only one of them. |
| ArtifactView.SupersededIsReplaced | app/services/research_agent.py:651-668 | For errors of a text type both views use the same rule: dropped if and only if a later success of the type exists. |
| ArtifactView.DisputedIsOdd | app/services/research_agent.py:657-666 | Only a status other than ok and error, or an error without a text type, can be dropped from one view alone. |
| ArtifactView.RegularViewsAgree | frontend/src/chat/events.ts:55-65 | For what the tools emit the two views are the same list. |
| ArtifactView.LiveTurnIsSnapshot | frontend/src/chat/events.ts:36-65 | The live text is the text a cancellation would store, and the live artifacts are the folded view of what it would store. |
| ArtifactView.LiveCallsAreSnapshotIff | app/services/run_manager.py:80-104 | The live tool calls are the calls a cancellation would store if and only if all have a text name and an object of arguments. |
| ArtifactView.CancelledViewAgreesIff | app/services/run_manager.py:80-104 | A cancelled turn's live and stored artifacts are the same if and only if nothing was replaced. |
| Drawdown.DrawdownRecords | app/services/quantitative_research.py:67-110 | Each record is the worst loss anyone looks at there; the summary is the worst over every purchase and later valuation, with first trough, first peak before it and first recovery after it. |
| Drawdown.MaximumDrawdown | app/services/watchlist_market.py:20-26 | The watchlist's loop finds a loss that some purchase made and none exceeded. |
| Drawdown.DrawdownsAgree | app/services/watchlist_market.py:20-26 | The two implementations report the same number. |
| Drawdown.SummaryIsDetermined | app/services/quantitative_research.py:67-110 | The values leave no choice in any field of the summary. |
| Drawdown.DrawdownRange | app/services/quantitative_research.py:80-94 | Drawdowns lie in (-1, 0]; the worst is 0 if and only if the values never fall. |
| Indicators.Sma | app/services/quantitative_research.py:113-122 | The rolling sum gives the mean of the window at every index where the window fits, and nothing before. |
| Indicators.Ema | app/services/quantitative_research.py:125-130 | The recurrence is the weighted sum of all observations with weights that fade by the multiplier's complement. |
| Indicators.WeightsAreAWhole | app/services/quantitative_research.py:125-130 | Those weights sum to one at every index. |
| Indicators.EmaWithinRange | app/services/quantitative_research.py:125-130 | The average never leaves the range of the observations so far. |
| Indicators.Rsi | app/services/quantitative_research.py:133-157 | The loop gives the strength of Wilder's two averages from index period on, and nothing before. |
| Indicators.RsiRange | app/services/quantitative_research.py:133-157 | The indicator is undefined exactly on the first period indices and lies in [0, 100] elsewhere. |
| Indicators.StrengthIsShare | app/services/quantitative_research.py:144-149 | The strength is the gains' percentage of all movement, 50 when nothing moved. |
| Indicators.RsiOfNegated | app/services/quantitative_research.py:133-157 | The indicator of the negated series is 100 minus the indicator. |
| Indicators.RsiAtTop | app/services/quantitative_research.py:133-157 | With a period of at least two it reaches 100 if and only if the series rose at least once and never fell. |
| Backtest.BacktestMovingAverage | app/services/quantitative_research.py:459-568 | Refusals in the order the service looks; otherwise rows, drawdowns and counts are those of the lagged strategy. |
| Backtest.EquityIsConserved | app/services/quantitative_research.py:526-529 | Equity is the product of the price ratios of the days held times one cost factor per trade. |
| Backtest.BenchmarkTelescopes | app/services/quantitative_research.py:530 | The benchmark is the last price over the first. |
| Backtest.TradesBalance | app/services/quantitative_research.py:517-525 | Entries and exits sum to the trades and differ by the position held. |
| Backtest.BacktestIsCausal | app/services/quantitative_research.py:516-543 | Prices that agree on a prefix give the same report on it, and the same position into the next day whatever its close. |
| Backtest.CostsOnlyCost | app/services/quantitative_research.py:526-529 | A higher cost never raises the equity on any day, and leaves it equal if and only if nothing has been traded. |
| Backtest.ReportIsConsistent | app/services/quantitative_research.py:544-568 | Conservation, balance, benchmark and positive equity hold of every report. |
| Correlation.Correlations | app/services/quantitative_research.py:291-361 | Refusals of the service; otherwise the nested loops fill a coefficient and its number of observations for every pair of symbols. |
| Correlation.CauchySchwarz | app/services/quantitative_research.py:348-360 | The square of a dot product is at most the product of the sums of squares. |
| Correlation.CoefficientRange | app/services/quantitative_research.py:348-360 | A defined coefficient lies in [-1, 1], for any two aligned lists. |
| Correlation.SelfCorrelation | app/services/quantitative_research.py:343-360 | The formula would give 1 on the diagonal wherever it is defined, and is undefined exactly for constant returns. |
| Correlation.MatrixIsCorrelation | app/services/quantitative_research.py:325-361 | The matrix is symmetric, within [-1, 1], and 1 on the diagonal unless fewer than two dates remain; it reports one observation less than there are common dates. |
| CachePolicy.EvaluateArtifactTtl | app/cache/policy.py:37-98 | The first unacceptable artifact gives the reason; otherwise the shortest remaining time and the earliest retrieval decide. |
| CachePolicy.DecisionIsFresh | app/cache/policy.py:76-98 | A cacheable result expires in the future and less than a second after each artifact's retention ends. |
| CachePolicy.DecisionIsNotHasty | app/cache/policy.py:76-98 | It does not expire before the retention of some artifact ends. |
| CacheStores.InMemoryExactCache.Fetch | app/cache/stores.py:85-93 | An expired entry is removed and missed. |
| CacheStores.InMemoryExactCache.Write | app/cache/stores.py:95-108 | An entry expires its whole number of seconds from now; a time that is not positive writes nothing. |
| CacheStores.InMemorySemanticCache.Lookup | app/cache/stores.py:129-163 | The linear scan finds the best hit as specified. |
| CacheStores.BestHitIsBest | app/cache/stores.py:129-163 | It is the first of the closest entries with the same namespace and constraints, unexpired and above the threshold, or nothing matches. |
| CacheStores.InMemorySemanticCache.Put | app/cache/stores.py:165-194 | An entry is appended unless its embedding is empty. |
| CacheStores.CacheCoordinator.LookupResult | app/cache/stores.py:243-334 | Exact first, then semantic with promotion; every backend failure is a miss, whether or not it had its effect. |
| CacheStores.CacheCoordinator.StoreResult | app/cache/stores.py:336-427 | The two tiers are written independently. |
| CacheService.ResearchResultCacheService.StoreAnswer | app/cache/service.py:69-101 | Only complete, successful, cacheable and small results reach the coordinator, with the cap for queries about the present. |
| CacheService.AdjustedIsFresh | app/cache/service.py:79-87 | The capped decision is still fresh, and lives at most a minute for a query about the present. |
| CacheService.ServedIsFresh | app/cache/stores.py:318-335 | Over any run of stores and lookups at any times with any failures, a served result was built from artifacts each retrieved less than its retention and two seconds before. |
| CacheRelative.SemanticTierIsTimeless | app/cache/service.py:79-87 | Every entry of the semantic tier was stored for a query that is not about the present. |
| CacheRelative.AgreeingKeysAnswerRecently | app/cache/service.py:79-87 | If keys agree on it, a query about the present is answered only from the exact tier, by a store for its key of the last minute. |
| CacheRelative.ClashingKeysAnswerLate | app/cache/normalization.py:104-125 | Negative result: two queries with one key, only one of them about the present, make the cache answer the latter with an hour-old result. |
| CacheRelative.RecentIffKeysTell | app/cache/normalization.py:104-155 | Over any set of queries, those about the present get answers of the last minute in every run if and only if keys set them apart. |
| CacheRelative.SecondBlankKeepsKey | app/cache/normalization.py:103-106 | The normalized text, and so the key, does not tell two blanks from one, wherever they stand. |
| CacheRelative.OneBlankIsFound | app/cache/normalization.py:27-31 | The search finds "this week" as typed with one blank. |
| CacheRelative.TwoBlanksAreNotFound | app/cache/normalization.py:27-31 | With two blanks none of its phrases stands anywhere in the text. |
| CacheRelative.TwoBlanksAnswerLate | app/cache/normalization.py:103-155 | These two spellings share a key, and the cache answers the one about the present with an hour-old result stored for the other. |
| CacheRelative.SingleBlanksTell | app/cache/normalization.py:103-155 | A query whose white space is blanks that stand alone is about the present if and only if its normalized text is. |
| CacheRelative.SingleBlanksAnswerRecently | app/cache/service.py:79-87 | So over any set of such queries in one namespace, those about the present get answers of the last minute in every run. |
| ClaimVerifier.LastArtifactCounts | app/grounding/verifier.py:67-84 | Of artifacts with one identity the last counts, and without an explicit scope it is authorized. |
| ClaimVerifier.ReadPath | app/grounding/verifier.py:327-339 | The loop follows the dotted path through objects and lists, and ends in nothing where it breaks off. |
| ClaimVerifier.VerifyNumber | app/grounding/verifier.py:212-308 | The loop raises the obstacles met up to the first supporting value, or that there is none, unless a comparison before that raises an error. |
| ClaimVerifier.CheckCitations | app/grounding/verifier.py:102-142 | Each citation raises its own issues, and the usable ones are collected in order. |
| ClaimVerifier.Verify | app/grounding/verifier.py:86-167 | The report lists the issues of all claims in order and counts claims and citations; an error raised by any claim leaves no report. |
| ClaimVerifier.ClaimPasses | app/grounding/verifier.py:86-167 | A claim raises no error and no blocking issue if and only if it is cited, all its citations are sound, and its calculation and number are supported. |
| ClaimVerifier.CitationPasses | app/grounding/verifier.py:102-142 | A citation raises no blocking issue if and only if its artifact exists, is authorized and successful, and matches entity and period. |
| ClaimVerifier.NumberPasses | app/grounding/verifier.py:212-308 | A number passes if and only if some cited value supports it and every value before that one could be compared; an error is raised if and only if a value that cannot be compared comes before any that supports it. |
| ClaimVerifier.VerifierIsExact | app/grounding/contracts.py:79-80 | A report comes and passes if and only if every claim holds up against its evidence. |
| ClaimVerifier.PassedNumbersAreSupported | app/grounding/verifier.py:280-288 | In a report that passes, a number with citations is within tolerance of a finite value it soundly cites, after unit and scale conversion, or it cites an infinite value and has a relative tolerance. |
| ClaimVerifier.InfinityPassesAnyNumber | app/grounding/verifier.py:246-292 | Negative result: with the text "Infinity" as evidence any number passes if and only if the relative tolerance is positive, and an error is raised if and only if it is zero. |
| ClaimVerifier.NoReportIff | app/grounding/verifier.py:246-292 | There is no report if and only if some claim's comparison with a value that is not finite raises an error before any value supports its number. |
| ClaimVerifier.NotANumberLeavesNoReport | app/grounding/verifier.py:246-292 | Negative result: a comparable citation of "NaN" with no supporting one before it leaves no report at all. |

## Left out

Contracts weaker than what the code does or could be wished for:

- PostgresTheorems.StepRefinesRepository: a recovery commits as the failure of some set of open runs, not of all of them, because it locks rows one by one while new runs may be admitted.
- Postgres.CommitEnd: every well-formed ending that gets its locks commits. In the database artifact_id is a primary key (migrations/versions/001_phase_4_5_persistence.py:173), so a completion or cancellation that supplies an identity already stored, or the same one twice, is rolled back with an error.
- PostgresTheorems.SomeoneCanMove: does not cover recovery, which locks several threads in no fixed order; a deadlock with it ends in the database aborting one side.
- DetachedManager.RunEndTellsDurableStatus: assumes that a repository call that raises has not committed, and that other processes end this process's open runs only by failing them, as startup recovery does.
- DetachedManager.NextKeepsOk: covers one life of the manager; a second start after a close is not modelled.
- EventStore.RouteAgreement: assumes that no more runs publish than the buffer has room for, and takes the primary as an unbounded in-process stream.
- EventStore.FallbackIsFilled: assumes the same; eviction beyond the limit is modelled by InMemoryRunEventStore.OpenStream, but no theorem says what a reader of an evicted run sees.
- EventStore.DegradedIffFailed: assumes the same; beyond the limit the longest degraded runs are forgotten, as MarkDegraded says.
- RouteReader.PromiseIsPrefixIff: assumes the same. A publication is one step: its local half matters to local readers only and its primary half to primary readers only, and a reader that attaches between the two chooses as one that attached before both.
- RunEndings.RunEndHandedIff: a death inside the publish counts as not handed, although the fail-open store's local copy may have the event by then (app/events/store.py:209-215).
- StreamReader.ReaderDeliversInOrder: is about one stream without an event limit; RouteReader has the limit.
- Delivery.PrimaryStepsOverLost: says which events attempts served from the primary step over; for attempts served from the local buffer this depends on when they look, and SteppedOver is stated on what they showed.
- Json.JsonIsFaithful: prints the fields of an object in some order, a fraction as its digits and an exponent, and escapes quotes, backslashes and line breaks only; two numerals of one number count as different values. Parsing is the inverse on texts of events and nothing on other texts, and the envelope's run, thread and timestamp are left out.
- SseClient.AttachEvents: starts from decoded text; TextDecoder's handling of characters cut by a chunk border is not part of this model.
- Reconnect.StreamMessage: leaves out the admission request, the delays between attempts and what the callbacks do.
- ThreadResearch.StoredToolCalls: a stored status that is a list or an object would raise in the code; here it reads as no status. The code never stores one.
- ThreadResearch.StreamReplay: tool-call identities and the replayed flag of the metadata event are not modelled.
- Drawdown.DrawdownRecords: reports indices where the code reports the timestamps at them, and leaves out the ulcer index.
- Backtest.BacktestMovingAverage: leaves out annualised return and volatility, which need powers and square roots of reals.
- Correlation.Correlations: takes symbols as normalised, and the square root as any function with its defining property.
- CachePolicy.EvaluateArtifactTtl: timestamps arrive parsed; whether a text is one is an input.
- CacheStores.InMemorySemanticCache.Lookup: cosine similarity is an arbitrary function of two vectors, and embeddings of finite numbers are the only ones there are.
- CacheService.ResearchResultCacheService.StoreAnswer: the size of the encoded payload is an input; serialisation is taken to round-trip.
- CacheService.ServedIsFresh: takes each call to happen at one instant. The code reads the clock again when it writes the exact entry (app/cache/stores.py:107 and 321), so a slow call adds its own duration to the bound with each write.
- CacheRelative.SecondBlankKeepsKey: normalisation is that of ASCII queries, which Unicode normalisation leaves alone; so are case and word boundaries in TwoBlanksAreNotFound and SingleBlanksTell.
- Repository.CancelKeepsInvIffWellFormed: an identity arrives as absent, a UUID, or neither; what texts read as UUIDs is not part of this model.
- ClaimVerifier.VerifyNumber: a cited decimal is a real, infinite or not a number, without rounding and overflow; the claim's own number and tolerances are finite. Case folding and the reading of a value as a number are parameters.
- ClaimVerifier.ReadPath: digits in a path are ASCII digits.
- ClaimVerifier.PassedNumbersAreSupported: a limitation without citations passes with any number, as in the code.
- MemoryRepository.InMemoryConversationRepository.AdmitRun: thread titles, timestamps of threads and query identities are not modelled.

Not modelled at all:

- list_threads and its pages, sessions, authentication, HTTP routes, the command line and configuration: plumbing.
- The Yahoo provider, Gemini, LangGraph, embeddings, Redis and psycopg clients: foreign code. The agent is an arbitrary stream of items, the database its locks and indexes.
- Redis streams as a primary with their own length limit and expiry.
- The single-flight fill lock and its polling (app/cache/service.py:103-133): the lock lives in Redis.
- Extraction of tool calls and artifacts from agent messages (app/services/research_agent.py:532-648), apart from the scan for superseded errors.
- Rounding of floating-point numbers.
- Error codes: a run_end's error code may differ from the one stored with the run; only the status is related.
- Synthesis of events for runs of an earlier process (app/services/run_manager.py:211-233).
- Spans, diagnostics and logging.
- React components and charts.
