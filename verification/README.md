# Tuma: a verified model of the relay

Tuma receives webhooks, stores each one once, acknowledges it, and delivers it to a
destination with retries; failures become issues that an operator can replay, and
alert rules watch the issues. This project models the parts whose worth lies in what
holds over whole runs, and proves it for every input and every interleaving.

Each concurrent component is a state machine: `Next` takes one atomic step (one SQL
statement, one channel operation, one HTTP outcome), a step that is not enabled leaves
the state alone, and `Exec` runs any sequence of steps. Theorems quantify over all of
those sequences, so crashes, failed writes, replays and races are all included. The
code itself is written as classes and methods with its own loops and branches, and each
method is proved to be a run of the machine or to compute the machine's step, so that
the theorems carry over.

| file | what it holds |
|---|---|
| `Issues.dfy` | the issue row as a fold of its history |
| `Delivery.dfy` | the delivery protocol of one event: any number of runs interleaving |
| `Workflow.dfy`, `Backoff.dfy` | the workflow, its activities and tables as code; the delays |
| `Ingest.dfy` | deduplicated insert, acknowledgement, first start |
| `Relay.dfy` | ingestion, deliveries, replays and purges together, end to end |
| `Alerting.dfy`, `AlertRuns.dfy` | one evaluator tick as code; all runs of workers, patches, crashes |
| `Credit.dfy`, `RateLimit.dfy` | the token bucket |
| `Semaphores.dfy`, `Hub.dfy` | delivery slots; bounded log and dropping queues |
| `Template.dfy`, `Notification.dfy` | placeholder substitution |
| `Digits.dfy`, `Encoding.dfy`, `Signature.dfy` | text encodings and signature headers |
| `ConnCache.dfy`, `CacheRaces.dfy` | the connection cache against the database, with handlers one at a time and interleaved |
| `EventCrypto.dfy` | encryption at rest and its backfill |

Conventions: reals stand for Go's floats, thresholds are hundredths (the column is
`NUMERIC(10,2)`), HMAC and the cipher are function parameters, time never goes back,
there is one API process, and the advisory lock's database session outlives its holder.
What the outside answers (a POST's outcome, whether a statement commits, whether its
answer arrives) is a parameter of the step or the method.

Where the code does not do what one might expect, the behaviour is kept and stated:

- A replay that succeeds on an attempt number already on record leaves no delivered row
  (`Delivery.ReplayLeavesNoDeliveredRow`).
- An event whose inserting handler stopped, or whose start failed, is never delivered,
  never gets an issue, and no duplicate repairs it (`Relay.LostForever`).
- A subscriber that joins a full log gets its oldest 32 events and loses the newest 18
  (`Hub.LongLogLosesTheNewest`).
- A threshold patched during a tick and patched back to the latched value can stay
  silent while breached (`AlertRuns.PatchBackStaysSilent`); `AlertRuns.PatchedMidTick`
  says exactly when the next tick sends.
- A read that started before a write can put the old row back into the cache after the
  invalidation (`CacheRaces.LateStoreIsStale`); `CacheRaces.InvalidatedRowServed` says
  exactly when, and `CacheRaces.ServedRowIsRecent` bounds it in time.
- A secret or source type whose update commits but whose answer is lost leaves a stale
  cache entry until it expires or the operator's retry succeeds
  (`ConnCache.StaleExactly`, `ConnCache.RetryRepairs`). A second lost write that puts the
  old value back makes the entry agree again, so it is the last write per column that counts
  (`ConnCache.PutBackAgrees`).
- A row inserted without a key is marked encrypted, so no backfill selects it and a key
  added later cannot read it (`EventCrypto.KeylessNeverSelected`, `EventCrypto.ReadsBack`).
- A rule whose name holds a placeholder is announced differently, or not at all, depending
  on the order in which Go walks the map (`Notification.OrderCanDecide`);
  `Template.RendersExactly` and `Notification.RegisteredAlertExactly` say exactly when.

## Model

| member | source | states |
|---|---|---|
| `Issues.RowTellsItsHistory` | internal/storage/store.go:330-346 | After any sequence of records and resolves there is a row iff something was recorded, and then attempts is the maximum recorded, reason the last concrete one if there ever was one and else the generic one, first_failed_at the first record's, and status with resolved_at what the last record and the first resolve after it say. |
| `Delivery.Reason` | internal/workflow/delivery.go:171-211 | The reason of a failed attempt is never taken for the generic one, so the exhausted upsert keeps it. |
| `Delivery.LastTerminalDecides` | internal/workflow/delivery.go:93-108 | For every interleaving of any number of runs on an unpurged event, once all returned without error the last statement on the issue is the terminal one of a returned run, and the issue is open iff that run was exhausted. |
| `Delivery.AllDeliveredLeavesNoOpenIssue` | internal/workflow/delivery.go:231-239 | If every run of an unpurged event returned delivered, no issue is open. |
| `Delivery.AllExhaustedLeavesOpenIssue` | internal/workflow/delivery.go:241-260 | If every run of an unpurged event returned exhausted, an issue is open. |
| `Delivery.RunShape` | internal/workflow/delivery.go:93-108 | In every interleaving a run makes at most retry_attempts attempts, only the last of which can be a response with a code in 200..299; it returns delivered only after such a response and exhausted only after retry_attempts attempts without one, and then the issue's attempts stay at least retry_attempts while the event is kept. |
| `Delivery.ReturnSettlesIssue` | internal/workflow/delivery.go:231-260 | From any state, the statement that lets a run return leaves no open issue after a delivery (an open one is resolved at that time), and after exhaustion an open one with at least retry_attempts attempts, first failed at that time if it is new. |
| `Delivery.FailureVisible` | internal/workflow/delivery.go:215-229 | As soon as a failed attempt is noted the issue is open, its reason is "delivery failed: " with the error or "destination returned " with the code, it counts at least this attempt, and first_failed_at is this moment only if there was no issue. |
| `Delivery.IssueExplained` | internal/workflow/delivery.go:215-260 | In every interleaving the issue of a kept event gives the reason of the last noted failure, and "Delivery attempts exhausted" iff none was noted; its attempts are the number of some failed POST or the maximum of some run that recorded exhaustion, never more. |
| `Delivery.LogAlways` | internal/workflow/delivery.go:215-260 | In every interleaving each statement on the issue is a note of a failed POST of its run, with its number and text, or the run's closing one. |
| `Delivery.PostsAlways` | internal/workflow/delivery.go:162-174 | In every interleaving each POST is one numbered attempt of its run, POSTs of one run have increasing numbers, and each attempt for which a request could be built was posted. |
| `Delivery.PostsNumbered` | internal/workflow/delivery.go:93-98 | POSTs of one run carry strictly increasing attempt numbers between 1 and retry_attempts. |
| `Delivery.DeliveredMeansPosted` | internal/workflow/delivery.go:99-101 | A run that returned delivered has exactly one successful POST. |
| `Delivery.RowsNeverChange` | internal/storage/store.go:308-313 | From any state, whatever steps follow, a delivery row stays as first written until the event is purged. |
| `Delivery.RowlessExactly` | internal/workflow/delivery.go:176-202 | While the event is kept, a POST has no row of its own exactly when its insert found its attempt number taken by another POST's row, failed, or has not run; a saved row is delivered iff the POST's code was in 200..299, and holds its code and latency. |
| `Delivery.DeliveredRowsBounded` | migrations/000001_init.up.sql:58 | Delivered rows never outnumber successful POSTs. |
| `Delivery.ReplayLeavesNoDeliveredRow` | internal/storage/store.go:308-313 | An attempt number recorded as failed never becomes a delivered row, whatever replays follow. |
| `Delivery.InvAlways` | internal/workflow/delivery.go:68-109 | Every reachable state satisfies the protocol's invariant (run shapes, issue equal to the replay of its log, terminal statements last and present, rows matched to POSTs). |
| `Backoff.Backoff` | internal/workflow/delivery.go:111-117 | The loop computes the truncated first * factor^(attempt-1) seconds as an int64 duration. |
| `Backoff.DelayStep` | internal/workflow/delivery.go:112-115 | The delays start with the first delay and each is the factor times the one before. |
| `Backoff.Wrap64` | internal/workflow/delivery.go:116 | The duration is the exact product reduced modulo 2^64 to an int64. |
| `Backoff.DelaysNeverDecrease` | internal/workflow/delivery.go:111-117 | For factor >= 1 the whole-second delays never decrease with the attempt. |
| `Backoff.FitsExactly` | internal/workflow/delivery.go:116 | A delay whose seconds fit an int64 is an exact duration iff it is at most 9223372036 s. |
| `Backoff.SleepBounded` | internal/workflow/delivery.go:102-105 | The sleep T of n failed attempts satisfies (factor-1) * T <= first * (factor^n - 1). |
| `Backoff.SleepExact` | internal/workflow/delivery.go:102-105 | For an integral factor the bound is an equality. |
| `Backoff.DefaultSleep` | internal/api/handlers.go:155-157 | The defaults 8, 60 s, 2.0 sleep exactly 7620 s. |
| `Workflow.Store.RecordDelivery` | internal/storage/store.go:308-313 | The insert succeeds iff the database answers, the event exists and the attempt number is free; it adds that row and touches no other event. |
| `Workflow.Store.RecordIssue` | internal/storage/store.go:330-346 | The upsert fails iff the database does or the event is gone; it changes this event's issue only. |
| `Workflow.Store.ResolveIssueByEventID` | internal/storage/store.go:404-410 | Only an open issue of this event is resolved; a missing or resolved one is left as it is, without error. |
| `Workflow.Store.Purge` | internal/storage/event_crypto.go:76-88 | Deleting an event takes its deliveries and issue along and nothing else, and is the protocol's purge step. |
| `Workflow.DeliverActivity` | internal/workflow/delivery.go:143-213 | The activity's writes are the protocol's steps for one attempt, cut short wherever it dies; it errors iff the event is gone or it dies, and otherwise reports success iff there was a response with a code in 200..299. |
| `Workflow.RecordAttempt` | internal/workflow/delivery.go:171-212 | After the answer, the row and (on failure) the note are the protocol's steps, cut short where the activity dies. |
| `Workflow.NoteFailure` | internal/workflow/delivery.go:215-229 | Noting the failure is the protocol's step, and its error ends nothing. |
| `Workflow.FinishActivity` | internal/workflow/delivery.go:231-260 | The closing activity is the protocol's terminal step; it errors iff the database does, its answer is lost, or an exhausted event is gone; once committed the issue is open iff the run was exhausted. |
| `Workflow.SleepAfter` | internal/workflow/delivery.go:102-105 | After failed attempt k the k-th backoff delay is slept, unless k was the last. |
| `Workflow.Round` | internal/workflow/delivery.go:94-105 | One turn of the loop is one attempt and, if it fails and is not the last, one pause. |
| `Workflow.RetryLoop` | internal/workflow/delivery.go:93-106 | Attempts 1..k are made without gaps, all but the last fail, the loop ends with a success, an errored attempt or retry_attempts failures, and it sleeps k-1 times. |
| `Workflow.DeliveryWorkflow` | internal/workflow/delivery.go:68-109 | The whole workflow, error returns included, is a run of the protocol on its event and touches no other; its result says how many attempts were made, how the last ended, and whether the issue is open. |
| `Workflow.SleepsWholeSeconds` | internal/workflow/delivery.go:102-117 | If no delay exceeds 9223372036 s, a run's sleeps add up to whole seconds below the geometric bound. |
| `Ingest.Events.InsertEvent` | internal/storage/store.go:238-264 | A row is added iff the key is absent and the statement commits, under a new id; the answer may be lost after the commit. |
| `Ingest.Events.Ingest` | internal/api/server.go:169-197 | Run alone, the handler is a sequence of the machine's steps; it answers 200 iff the insert answered, duplicates included, and a workflow begins iff it inserted and the start took effect, reported or not. |
| `Ingest.AckFollowsCommit` | internal/api/server.go:169-178 | In every interleaving a 200 follows a committed row with the request's key. |
| `Ingest.EventUnderOneKey` | internal/storage/store.go:245-250 | No stored event stands under two keys. |
| `Ingest.StartedOnceOrLost` | internal/api/server.go:176-196 | In every interleaving a committed event has at most one first start, and none exactly when its inserting handler has not got there, died, was told its insert failed, or had its start fail. |
| `Ingest.LostStays` | internal/api/server.go:180-183 | No step, and in particular no duplicate, starts an event whose inserting handler is over without a start. |
| `Ingest.InvAlways` | internal/api/server.go:159-197 | Every reachable state ties handlers, rows, authors and starts together. |
| `Relay.PostFollowsAck` | internal/api/server.go:176-191 | In every run of the whole relay an event with any run, POST, row or issue was committed, its inserting handler had written its 200, and it was started exactly once. |
| `Relay.LostForever` | internal/api/server.go:180-195 | Once the inserting handler is over without a start, in every continuation the event has no run, no POST and no issue to replay. |
| `Relay.EachEventRunsTheProtocol` | internal/api/server.go:185-206 | In every run of the whole relay the state of each event is one its own delivery protocol reaches. |
| `Relay.StartedMeansRunning` | internal/api/server.go:185-191 | In every run of the whole relay an event counts as started iff its first delivery is among its runs, and its row is stored iff it is not purged. |
| `Relay.ReplayBegins` | internal/api/handlers.go:316-332 | Replaying an issue begins one new run of its event and changes nothing else. |
| `Relay.WorkersRunTheProtocol` | internal/workflow/delivery.go:68-109 | Workers can take an event through any run of its protocol, and nothing else changes. |
| `Relay.SettledEvent` | internal/api/handlers.go:316-332 | End to end, an unpurged event all of whose first and replay runs returned was started once and has an open issue iff the run that committed last was exhausted. |
| `Relay.RelayDelivers` | internal/api/server.go:169-191 | A run from the request to the delivered row settles without an issue, so the theorem above is about something. |
| `Relay.InvAlways` | internal/api/server.go:129-206 | Ingestion and the per-event protocols stay aligned over every run. |
| `Alerting.SuccessRateRange` | internal/alerting/evaluator.go:254-281 | There is a rate iff there are samples; it lies in 0..100 and is 100 iff nothing failed. |
| `Alerting.TickInCounts` | internal/alerting/evaluator.go:143-216 | The row after a tick, column by column, and whether it sends, in the counts it read: 100 * open issues above the threshold's hundredths, 10000 * delivered below the threshold times the total, or the oldest age above it. |
| `Alerting.SameThresholdIsEqual` | internal/alerting/evaluator.go:289-291 | On the values the column can hold, the tolerance is equality. |
| `Alerting.Evaluator.SetFiring` | internal/storage/store.go:656-667 | Only the latch of that rule is written. |
| `Alerting.Evaluator.SetDeliveryError` | internal/storage/store.go:670-679 | Only the error of that rule is written. |
| `Alerting.Evaluator.EvaluateRule` | internal/alerting/evaluator.go:143-216 | One rule's branch of the loop sends iff the rule is active, not latched at this threshold, the send succeeds and the counts break the limit (the success rate from below, open issues and age from above, an unknown type never); a row is recorded iff the send and the insert succeed. |
| `Alerting.Evaluator.EvaluateOnce` | internal/alerting/evaluator.go:132-219 | A whole tick treats each listed rule independently and sends for exactly the rules that were due. |
| `AlertRuns.OneEvaluator` | internal/alerting/evaluator.go:80-130 | In every interleaving at most one worker evaluates, and the latch and error its tick read are still the stored ones when it writes them. |
| `AlertRuns.SendsAreSeparated` | internal/alerting/evaluator.go:143-216 | Over every run, between two consecutive successful sends of the same threshold some tick saw the rule inactive or not breached, or a latch write was lost. |
| `AlertRuns.SendsAreBounded` | internal/alerting/evaluator.go:143-216 | Over every run, counted from the steps themselves, sends never exceed the ticks' turns to breached + patches that change the threshold + lost latch writes. |
| `AlertRuns.BooksBalance` | internal/alerting/evaluator.go:187-238 | Between ticks, unless the write it called for was lost, the error column holds the text of the latest send attempt if it failed and nothing if it succeeded; notification rows are the successful sends less the lost row writes. |
| `AlertRuns.CountersTell` | internal/alerting/evaluator.go:143-216 | The machine's counters of sends, changes, lost writes and breach episodes are the counts of what the steps did. |
| `AlertRuns.TickIsAfterTick` | internal/alerting/evaluator.go:132-219 | From any state between ticks, the run of a tick that nothing interrupts does to the row what the code of one tick is proved to do. |
| `AlertRuns.RestartChangesNothing` | internal/alerting/evaluator.go:80-101 | Replacing the evaluator between ticks changes nothing but who holds the lock. |
| `AlertRuns.PatchedMidTick` | internal/storage/store.go:613-642 | A threshold patched during a tick and still breached is sent by the next tick iff it differs from the latch the tick read or the tick ended by writing or clearing the latch. |
| `AlertRuns.PatchBackStaysSilent` | internal/alerting/evaluator.go:175-177 | A concrete run, from the start, in which the patched rule is breached and the next tick stays silent. |
| `AlertRuns.InvAlways` | internal/storage/store.go:97-116 | Every reachable state has one lock holder, an unchanged snapshot, separated sends, a paid-for breach and balanced books. |
| `RateLimit.RateLimiter.Allow` | internal/api/ratelimit.go:26-51 | The call admits iff the refilled, capped level of the key's bucket is at least one token, spends it, and touches no other key; a missing bucket starts full. |
| `RateLimit.KeysAreIndependent` | internal/api/ratelimit.go:29-38 | However the calls of many keys interleave, a key is answered as if it were alone, with the rate and burst of its first call. |
| `RateLimit.NewKeyRefusals` | internal/api/ratelimit.go:26-51 | For every history of a new key, call n is refused iff for some earlier call k the admissions since k and this one exceed burst + perHour * (t_n - t_k) / 3600. |
| `RateLimit.BurstAtOnce` | internal/api/ratelimit.go:32-48 | Of n calls at one instant on a new key exactly min(n, burst) are admitted. |
| `RateLimit.LevelIsTightestWindow` | internal/api/ratelimit.go:39-46 | The level before each decision is the minimum, over all earlier calls k, of burst + rate * (now - t_k) less the admissions since k. |
| `RateLimit.WindowAdmitsAtMost` | internal/api/ratelimit.go:39-51 | Every window admits at most burst + rate * length. |
| `RateLimit.HourAdmitsAtMost` | internal/api/ratelimit.go:26-38 | No hour admits more than burst + perHour calls. |
| `RateLimit.RefusedOnlyIfOverfull` | internal/api/ratelimit.go:46-48 | A call is refused iff admitting it would overfill some window. |
| `RateLimit.RefusedCallChangesNothing` | internal/api/ratelimit.go:40-48 | Removing a refused call from any history changes no other answer. |
| `RateLimit.NoLimiterAdmitsMore` | internal/api/ratelimit.go:26-51 | No answers that respect all windows, not even ones chosen knowing the future, have admitted more calls at any point. |
| `Semaphores.ConnectionSemaphores.Lookup` | internal/workflow/delivery.go:56-63 | The part under the mutex finds or makes the connection's channel, as the machine's lookup step. |
| `Semaphores.ConnectionSemaphores.Send` | internal/workflow/delivery.go:64 | The channel send is the machine's step. |
| `Semaphores.ConnectionSemaphores.Release` | internal/workflow/delivery.go:65 | The release is the machine's step. |
| `Semaphores.InFlightBounded` | internal/workflow/delivery.go:46-66 | In every interleaving a connection's channel holds exactly its in-flight deliveries, and they never exceed the limit. |
| `Semaphores.OnePoolForLife` | internal/workflow/delivery.go:57-62 | A connection keeps the channel it was first given. |
| `Semaphores.ReleaseNeverBlocks` | internal/workflow/delivery.go:154-155 | In every reachable state a holder's release goes through at once. |
| `Semaphores.FreeSlotIsGiven` | internal/workflow/delivery.go:64 | In every reachable state a waiter gets its slot iff its connection has fewer deliveries in flight than the limit. |
| `Hub.SessionHub.constructor` | internal/playground/hub.go:49-52 | A new session has an empty log and no subscribers. |
| `Hub.SessionHub.Subscribe` | internal/playground/hub.go:64-79 | Subscribing registers a new channel and offers it the log, dropping what does not fit. |
| `Hub.SessionHub.SendToAll` | internal/playground/hub.go:122-127 | Whatever the order of the walk, each registered channel is offered the event once, and none of them is closed. |
| `Hub.SessionHub.Publish` | internal/playground/hub.go:109-129 | Publishing is the machine's step on log and channels. |
| `Hub.SessionHub.Receive` | internal/api/playground.go:214-234 | Receiving takes the oldest waiting event. |
| `Hub.SessionHub.Unsubscribe` | internal/playground/hub.go:80-89 | Unsubscribing removes the channel and closes it. |
| `Hub.StreamsFaithful` | internal/playground/hub.go:64-129 | On every run the log is the last min(50, n) published destination events; received plus queued is an order-preserving subsequence of the log at subscription followed by what was published until unsubscription, less exactly the events that found 32 waiting; no publish reaches a closed channel. |
| `Hub.SkippedExactly` | internal/playground/hub.go:122-127 | As many offered events are skipped as found 32 waiting. |
| `Hub.LongLogLosesTheNewest` | internal/playground/hub.go:71-77 | A subscriber that finds 50 logged events is queued exactly the oldest 32 of them. |
| `Hub.InvAlways` | internal/playground/hub.go:64-129 | Registered channels are exactly the open ones of their side, in every reachable state. |
| `Template.IndexFinds` | internal/notification/template.go:175-177 | The index is the leftmost occurrence, and -1 only if there is none. |
| `Template.Substitute` | internal/notification/template.go:168-185 | The loop replaces every key of the map once, in some order, and then scans. |
| `Template.SuccessLeavesNoPlaceholder` | internal/notification/template.go:174-184 | For all inputs, rendering succeeds iff the result has no "{{" followed by "}}", and then returns it unchanged. |
| `Template.RendersExactly` | internal/notification/template.go:168-185 | For arbitrary text and values, brace-free names and every hole bound, every walk gives the token-by-token rendering iff that rendering itself holds no "{{" followed by "}}". |
| `Template.UnboundReported` | internal/notification/template.go:174-184 | For arbitrary text around an unbound placeholder and arbitrary values, no walk ever succeeds, and a walk names that placeholder iff the text before it, as the walk leaves it, reports the same key itself or neither holds "{{" nor ends in "{". |
| `Template.UnboundExactly` | internal/notification/template.go:174-184 | If the rendering before the leftmost unbound hole holds no placeholder, every walk reports that hole iff that rendering neither holds "{{" nor ends in "{"; what follows the hole does not matter. |
| `Template.AnyOrderRenders` | internal/notification/template.go:168-185 | Hence for brace-free text, names and values every walk renders token by token, or reports the leftmost unbound key. |
| `Template.BracedKeyMisleads` | internal/notification/template.go:170-172 | A variable whose name holds braces can match across two placeholders, so names must be brace-free too. |
| `Notification.RenderRequest` | internal/notification/template.go:150-164 | Unknown type iff both custom halves are empty and the type is not registered; otherwise the message, or the subject's error before the body's, of the chosen templates in some two walks. |
| `Notification.ChosenHalves` | internal/notification/template.go:151-161 | Each half is the custom text if not empty, else the registered one, else empty. |
| `Notification.ClosedTemplatesRender` | internal/notification/template.go:92-124 | Templates that use only supplied variables give the expected message, whatever the two walks, iff neither rendering holds a placeholder. |
| `Notification.RegisteredAlertExactly` | internal/alerting/evaluator.go:330-340 | A registered alert (text and the rule's name as subject, the two numbers in the body) is sent as written, whatever the walks, iff the rule's name has no "{{" followed by "}}". |
| `Notification.AlertAsWritten` | internal/alerting/evaluator.go:335-339 | Spelled out with {{resource_name}}, {{current_value}} and {{limit}}: a registered alert reads text + name, and the body with current value and limit in place, iff the name holds no "{{" followed by "}}". |
| `Notification.OrderDecides` | internal/notification/template.go:169-172 | For every registered subject and a rule named after the limit's placeholder, one walk renders the limit in place of the name and another reports a missing variable. |
| `Notification.OrderCanDecide` | internal/notification/template.go:43-46 | The open-issues subject of a rule named "{{limit}}" is a concrete case of it. |
| `Encoding.HexRoundTrip` | internal/adapters/adapters.go:56-61 | Decoding undoes encoding, for all byte strings. |
| `Encoding.HexText` | internal/playground/simulate.go:106 | Two lower-case digits per byte, the high half first. |
| `Encoding.HexDecodesExactly` | internal/adapters/adapters.go:56-61 | A string decodes to bytes iff, in lower case, it is their encoding. |
| `Encoding.DecimalRoundTrip` | internal/adapters/adapters.go:54-55 | Parsing undoes printing for every int64, and the digits hold no separator. |
| `Encoding.DecimalText` | internal/playground/simulate.go:103-106 | Digits without leading zeros worth the number, after a minus sign for a negative one. |
| `Encoding.ParsesDigits` | internal/adapters/adapters.go:54-55 | Digits read as their worth, or the largest int64. |
| `Encoding.ParsesSigned` | internal/adapters/adapters.go:54-55 | A sign is read; below the smallest int64 the value is that. |
| `Encoding.ParsesJunk` | internal/adapters/adapters.go:54-55 | Digits followed by anything else read as 0, unless they alone overflow. |
| `Encoding.ParsesNothing` | internal/adapters/adapters.go:54-55 | Text that does not start with a number reads as 0. |
| `Encoding.SplitJoin` | internal/adapters/adapters.go:48 | Splitting undoes joining comma-free parts. |
| `Encoding.JoinSplit` | internal/adapters/adapters.go:48 | Joining undoes splitting, and the parts are comma-free. |
| `Encoding.CutKey` | internal/adapters/adapters.go:49-52 | A key without "=" is cut off at the first one, whatever the value holds. |
| `Encoding.CutExactly` | internal/adapters/adapters.go:49-52 | A string is cut iff it holds "=", at the first one. |
| `Encoding.TrimTwice` | internal/adapters/adapters.go:41 | Trimming a trimmed string changes nothing. |
| `Encoding.TrimExactly` | internal/adapters/adapters.go:41 | Trimming takes all white space off both ends and nothing else. |
| `Encoding.SpaceIsWhite` | internal/adapters/adapters.go:41 | White space is the 25 characters of the Unicode standard. |
| `Signature.ReadParts` | internal/adapters/adapters.go:46-63 | The loop keeps the last timestamp and every digest that decodes. |
| `Signature.AnyEqual` | internal/adapters/adapters.go:75-80 | True iff the expected digest is among those given. |
| `Signature.StripeVerify` | internal/adapters/adapters.go:40-81 | The method decides the acceptance predicate the lemmas are about. |
| `Signature.WrittenHeaderVerdict` | internal/playground/simulate.go:102-106 | The header t=<ts>,v1=<hex of the MAC of timestamp, dot and body> is accepted iff the reader's trimmed secret is not empty, the timestamp is not zero and at most 300 s old, and both secrets give the same MAC. |
| `Signature.HeaderVerdict` | internal/adapters/adapters.go:64-80 | The same for any digest: it must be the MAC of timestamp, dot and body under the trimmed secret. |
| `Signature.MovedTimestamp` | internal/adapters/adapters.go:71-74 | A header whose timestamp was changed after signing is accepted only if the two MACs collide. |
| `Signature.FieldExactly` | internal/adapters/adapters.go:49-62 | After trimming, "t=" gives a timestamp and "v1=" a digest if the rest decodes; nothing else counts. |
| `Signature.LastTimestampCounts` | internal/adapters/adapters.go:54-55 | A timestamp appended to any header is the one judged. |
| `Signature.OwnHeaderAccepted` | internal/playground/simulate.go:85-112 | A trimmed non-empty secret always verifies its own header with a nonzero timestamp within tolerance. |
| `Signature.StoredSecretAccepted` | internal/api/handlers.go:248-262 | Whatever is entered as a secret, once trimmed for storage it verifies what is signed with it. |
| `Signature.OrderDoesNotMatter` | internal/adapters/adapters.go:46-63 | If the timestamp fields agree, the verdict depends only on which parts the header has, not on their order or repetition. |
| `Signature.NoiseDoesNotMatter` | internal/adapters/adapters.go:49-62 | Inserting an unknown or undecodable field anywhere leaves the verdict unchanged. |
| `Signature.GitHubVerify` | internal/adapters/adapters.go:95-108 | A header is accepted iff the secret is not empty and it is "sha256=" and the lower-case hex of the body's MAC. |
| `ConnCache.Server.FindByPath` | internal/api/server.go:117-120 | The row of that path, or none if no row has it. |
| `ConnCache.Server.GetCachedConnection` | internal/api/server.go:110-127 | From any state, however stale, the served id, source type and secret are the database's iff there was no unexpired entry or it agreed; nothing is served iff there is none and the row is missing or unreadable; what is stored expires 30 s later. |
| `ConnCache.Server.PatchConnection` | internal/api/handlers.go:230-265 | 404, 400, 500 and 200 with their exact causes and the rows and cache each leaves; from any state a 200 leaves the path's entry in agreement, and a 400 leaves agreement as it was. |
| `ConnCache.Server.ChangeSource` | internal/api/playground.go:279-286 | The change is stored and its entry dropped unless the answer is lost; from any state a successful change leaves agreement. |
| `ConnCache.OthersUntouched` | internal/api/handlers.go:263 | A handler changes neither the entry of another path nor whether it agrees. |
| `ConnCache.StaleExactly` | internal/api/server.go:110-127 | After any sequence of handlers an entry is stale iff, since it was last stored, writes were committed whose answers were lost and the last of them to the secret or to the source type left another value than the entry's. |
| `ConnCache.PutBackAgrees` | internal/api/playground.go:279-286 | Two lost changes of the source type, the second back to the old one, leave the entry in agreement. |
| `ConnCache.AlwaysAgrees` | internal/api/handlers.go:241-263 | As long as no answer is lost, after any sequence of handlers, patches that end in 400 included, every entry agrees with the database. |
| `ConnCache.RetryRepairs` | internal/api/handlers.go:258-263 | After any sequence of handlers a patch that answers 200 repairs the entry of its path. |
| `CacheRaces.ServedRowIsRecent` | internal/api/server.go:110-127 | However lookups, reads, stores, writes and invalidations interleave, a served pair is one whole row the database held less than 30 s plus the read-to-store gap ago. |
| `CacheRaces.InvalidatedRowServed` | internal/api/server.go:110-127 | In every interleaving a hit serves a row older than an invalidated write iff the reader that stored it read before that write and stored after its invalidation. |
| `CacheRaces.ReadAfterWriteIsCurrent` | internal/api/server.go:110-127 | A hit on an entry read after a write is never behind that write. |
| `CacheRaces.LateStoreIsStale` | internal/api/server.go:117-125 | Such a hit exists: a reading stored after the invalidation brings the old row back. |
| `CacheRaces.InvAlways` | internal/api/server.go:110-127 | Every reachable state orders reads, writes, invalidations and stores as their steps came. |
| `EventCrypto.SealedRowOpens` | internal/storage/event_crypto.go:11-39 | What one store writes the same store reads back, with or without a key. |
| `EventCrypto.KeyAddedLater` | internal/storage/event_crypto.go:26-29 | A row written without a key reads back under a key iff that key decrypts both fields to themselves. |
| `EventCrypto.Store.InsertEvent` | internal/storage/store.go:238-249 | With a key both columns are encrypted and the row marked; it reads back as the event, and no other row changes. |
| `EventCrypto.Store.Backfill` | internal/storage/event_crypto.go:41-74 | Stopped anywhere, every row keeps its meaning, exactly the rows reached are encrypted in addition, column by column, the count is theirs, and a run without an error reaches all. |
| `EventCrypto.ReadsBack` | internal/storage/event_crypto.go:41-74 | However backfills, crashes, inserts with and without a key and purges interleave, a row written with the key is encrypted at most once, and a row reads back as its original iff it was written with the key or the key leaves both its fields as they are. |
| `EventCrypto.KeylessNeverSelected` | internal/storage/event_crypto.go:46-48 | In every run a row written without a key keeps its plain text marked encrypted, and no backfill ever selects it. |
| `EventCrypto.OriginalKept` | internal/storage/store.go:238-264 | The original under an id is never replaced. |
| `EventCrypto.RerunChangesNothing` | internal/storage/event_crypto.go:45-47 | Once one backfill has gone through its rows no row is plain and another selects none. |

## Left out

- Ingest.Events.Ingest: SetEventWorkflowID is not modelled; body reading, connection lookup and signature check before the insert are in the other modules, not in this method.
- Signature.StripeVerify: the wrap of time.Unix and the saturation of time.Since near the limits of int64 are not modelled; nanoseconds are unbounded.
- Backoff.Backoff: float64 rounding is not modelled; a product the conversion to int64 leaves unspecified is a parameter.
- RateLimit.RateLimiter.Allow: float64 rounding is not modelled.
- Workflow.DeliveryWorkflow: the method runs with the tables to itself; interleavings are those of the machine in Delivery.
- Relay.PostFollowsAck: speaks of the handler's write of the 200; when net/http flushes it to the provider is not modelled.
- Delivery.InvAlways: writes of an activity that goes on after its timeout was reported are not modelled.
- ConnCache.Server.PatchConnection: the columns ingestion does not use are one opaque value, and malformed ids and JSON are not modelled.
- Notification.RenderRequest: the registry is a parameter; of its texts only the open-issues subject is written out.
- EventCrypto.Store.Backfill: failures of the cipher itself and of reading a row are one stop before a chosen row.
- The read-modify-write of a rule patch is one step with arbitrary new values; rule creation, deletion and template columns are not modelled.
- The stream limiter's counters and the double-checked lookup of a session's hub, which would only add easy members.
- The retention condition of the purge: an event may be purged at any moment.
- `Store.ResolveIssue`, which nothing calls.
- Liveness: nothing says that an enabled step is eventually taken.
- The EasyPost, generic HMAC and internal adapters, event id extraction, and the payload bodies of the simulator.
- SMTP, Slack and HTTP clients, Temporal, pgx, AES-GCM, SHA-256, JSON and Unicode normalisation, beyond their outcomes.
- Creation of connections: a path without a row is never cached, so it cannot make the cache disagree.
- Login, sessions, statistics, administration settings, the sink, the console and process start-up.
