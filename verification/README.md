# JointSave: a verified model of the money paths

JointSave is a savings-circle application on Stellar. Its contracts are Rust; what this project models is
the TypeScript in front of them: the code that prompts wallets, submits and retries transactions, pauses
pools, limits requests, and turns money into strings and bytes. Everything here is Dafny 4.11;
`dafny verify dfyconfig.toml` checks the whole project.

## How it is laid out

| file | what it models |
|---|---|
| `TxQueue.dfy` | the wallet signing queue: an async loop, per-request timers and new requests, interleaved in every way |
| `TxTracker.dfy` | the capped list of pending transactions and its duplicate lookup |
| `TxRetry.dfy` | `submitWithRetry`: error classes, backoff, polling, and what one call and two calls in a row may do |
| `PendingTransactions.dfy` | the recovery scan over stored records |
| `PauseAuthorization.dfy` | which admin-signed authorization a pause spends, and why that choice is optimal |
| `IncidentResponse.dfy` | the circuit breaker: grouping alerts, deciding, and the cooldown over any run of scans |
| `RateLimit.dfy` | the keyed request limiter and the error reporter's limiter, against one unpruned log |
| `ICalExport.dfy`, `CsvExport.dfy` | the two exports and the RFC 5545 and RFC 4180 readers that undo them |
| `Decimals.dfy` | decimal strings against integer base units, three parsers and printers, and the fee split |
| `I128.dfy` | two's-complement bytes, high and low halves, hex, and the yield proposal's parameter map |
| `BatchDeposit.dfy`, `BatchRun.dfy` | splitting and ordering a selection; running it, cancelling it, retrying it |
| `YieldAllocation.dfy` | the liquidity buffer over runs of allocations |
| `Prelude.dfy`, `Sorting.dfy`, `Arithmetic.dfy` | shared vocabulary: options, `filter`, `join`, a stable sort, integer facts |

Where the source changes state step by step, the model is a class or a loop proved equal to a function on
values, and the theorems are about that function over every run. What the outside does (the wallet, the
RPC, the clock, the cancel button, other users of the storage) is a parameter that may be anything.

JavaScript runs to completion between suspensions, so an event of the signing queue is one such
uninterrupted run: an enqueue, a wallet answer together with the loop turn it resumes, a timer, a kit
being set, time passing. One attempt of `submitWithRetry` is scripted by what each call in it answers and
by what other code does to the tracker before the duplicate lookup, up to the broadcast, and during the
polling.

## Where the code and its comments differ

The model follows the code.

- The comment on `enqueueSign` says a timed-out request no longer blocks later ones. The loop is still
  awaiting the wallet, so no later prompt opens until the wallet answers
  (`TxQueue.TimeoutDoesNotOpenNextPrompt`, `TxQueue.OnlyTimeoutsWhileStuck`); later requests are settled
  only by their own timeouts. The next prompt opens with that answer, exactly if a kit is set and a request
  is left (`TxQueue.NextPromptOpensOnAnswer`).
- `isPendingTransactionType` omits `set_supported_tokens`: such a record is written and never read again, so
  the duplicate guard does not see it (`TxTracker.UnlistedTypeVanishes`, `TxTracker.FindRecentIsExact`).
- An error already marked as the user's is retried all the same when its text together with the raw result
  reads as transient (`TxRetry.RetriedExactlyWhen`).
- A recovery scan in which some query throws has already removed the records it settled before, and
  reports none of them (`PendingTransactions.ThrowingScanLoses`).
- `foldLine` counts UTF-16 code units where its comment and section 3.1 of RFC 5545 count octets; a line keeps
  the limit exactly when all but its last physical line is ASCII and that one fits (`ICalExport.OctetLimit`). UID
  and URL are not escaped, so a CRLF in one of them breaks the file; nothing else does
  (`ICalExport.CalendarReadsBack`).
- An empty CSV row reads back as one empty cell (`CsvExport.CsvReadsBack`). RFC 4180 leaves a final line
  break ambiguous; the reader here takes every line break as a separator, as the builder writes them.
- `humanToBaseUnits` counts fraction digits, not value: "1.50" is refused at one decimal
  (`Decimals.RefusedForDigitsNotValue`).
- `computeDepositFee` is described as rounding to nearest; bigint division truncates, so for products below
  -5000 it does so only when it lands on a half (`Decimals.FeeIsNearest`).
- `encodeParamHex` says i128 and accepts up to 2^128; from 2^127 on the contract reads a negative number
  (`I128.ParamDecodes`).
- `computeMaxAllocatable` says its floor favours the buffer; the floor is taken of the buffer, so a full
  allocation can leave a fraction of a unit less than the configured share
  (`YieldAllocation.BufferRoundsDown`).
- Raising the balance by `d` raises the maximum by at most `d` unless it makes the balance positive and more
  capital turns liquid than the new buffer holds back (`YieldAllocation.RaiseIsBounded`).

## Model

| member | source | states |
|---|---|---|
| TxQueue.QueueIsSafe | frontend/lib/tx-queue.ts:95-201 | in every interleaving: at most one prompt is open, prompts open in enqueue order and never for a settled request, each request is queued and unsettled or gone and settled exactly once, an answer to an unsettled request settles it with that answer at once and nothing else yields a wallet outcome, an idle loop has an empty queue |
| TxQueue.EffectsHaveCauses | frontend/lib/tx-queue.ts:109-201 | every effect of a run comes from its own cause: a prompt from a loop turn with a kit set, an answer and a wallet outcome from the wallet's reply to that prompt, a no-kit refusal only while no kit is set, a timeout only from that request's timer once its time is up |
| TxQueue.RunKeeps | frontend/lib/tx-queue.ts:109-154 | the invariant behind that holds at every event boundary of every run |
| TxQueue.RequestsAreAsked | frontend/lib/tx-queue.ts:167-201 | the requests are those enqueued, in order, each with its own transaction and the time of its enqueue |
| TxQueue.SettledByDeadline | frontend/lib/tx-queue.ts:181-195 | with timers on time, every request is settled within two minutes of its enqueue, even while another prompt is stuck |
| TxQueue.OnlyTimeoutsWhileStuck | frontend/lib/tx-queue.ts:130-150 | while a prompt is unanswered nothing else is prompted for, over any further events |
| TxQueue.NextPromptOpensOnAnswer | frontend/lib/tx-queue.ts:114-150 | with the wallet's answer the next prompt opens exactly if a kit is set and a request is left, for the front of the queue; otherwise the loop ends with the queue empty |
| TxQueue.TimeoutDoesNotOpenNextPrompt | frontend/lib/tx-queue.ts:161-201 | a head request that times out leaves the queue, and the next one is still not prompted for |
| TxQueue.SigningQueue.SetSigningKit | frontend/lib/tx-queue.ts:89-91 | registers or clears the kit and changes nothing else |
| TxQueue.SigningQueue.SettleEntry | frontend/lib/tx-queue.ts:95-107 | settles a request once; a second settlement changes nothing |
| TxQueue.SigningQueue.Loop | frontend/lib/tx-queue.ts:113-153 | from the top of the loop to its next suspension or its end |
| TxQueue.SigningQueue.Enqueue | frontend/lib/tx-queue.ts:167-201 | the new state of an enqueue, keeping the invariant |
| TxQueue.SigningQueue.SettleAndShift | frontend/lib/tx-queue.ts:135-148 | what follows the await: settle, and shift only if the entry is still at the front |
| TxQueue.SigningQueue.WalletAnswers | frontend/lib/tx-queue.ts:130-153 | the wallet's answer and the loop turn it resumes, keeping the invariant |
| TxQueue.SigningQueue.SpliceOut | frontend/lib/tx-queue.ts:190-192 | removes one request and keeps the others in order |
| TxQueue.SigningQueue.TimeoutFires | frontend/lib/tx-queue.ts:181-195 | the timeout callback's whole new state, keeping the invariant |
| TxTracker.TrackerStaysWellKept | frontend/lib/tx-retry.ts:217-252 | under every run of adds, removals, updates and cleanups the list stays sorted, unique by hash and within the cap |
| TxTracker.CapRefinesLog | frontend/lib/tx-retry.ts:217-223 | for adds with a clock that does not go back, the list is exactly the last ten entries of an unbounded deduplicated log |
| TxTracker.CleanupOnlyAges | frontend/lib/tx-retry.ts:244-252 | on a well-kept list, cleanup leaves exactly the records of a listed type that are at most an hour old, in order |
| TxTracker.UnlistedTypeVanishes | frontend/lib/tx-retry.ts:161-171 | a record of the omitted type is gone at the next read |
| TxTracker.Find | frontend/lib/tx-retry.ts:262-270 | finds an element exactly when one satisfies the condition |
| TxTracker.FindRecentIsExact | frontend/lib/tx-retry.ts:255-271 | the lookup finds the first record that is pending, of the pool (outer spaces and letter case aside), of the type, of a listed type and at most two minutes old, and nothing exactly when there is none |
| TxTracker.AddMeans | frontend/lib/tx-retry.ts:217-223 | an add keeps the record and every readable one of another hash, but for one evicted because the list holds ten and nothing kept is older |
| TxTracker.KeptExactlyWhile | frontend/lib/tx-retry.ts:217-252 | a record that nothing settles, removes or ages out is kept exactly as long as at no moment ten live records are newer; older, replaced and removed ones do not count |
| TxTracker.FewNewerHashes | frontend/lib/tx-retry.ts:217-252 | which holds whenever fewer than ten distinct hashes were ever newer |
| TxTracker.RecordedStaysFindable | frontend/lib/tx-retry.ts:217-271 | a recorded broadcast is found under its pool and type for as long as it is pending, at most two minutes old and never crowded out |
| TxRetry.RetriedExactlyWhen | frontend/lib/tx-retry.ts:93-137 | exactly which errors are retried, with the precedence of the patterns |
| TxRetry.ClassifiedExactly | frontend/lib/tx-retry.ts:114-133 | which error becomes a missing account, a low balance, an authorization failure or none of the classes, by the order of the patterns, and that it keeps its message |
| TxRetry.PollFor | frontend/lib/tx-retry.ts:369-396 | bounds on the number of polls |
| TxRetry.PollingStopsAtFirstAnswer | frontend/lib/tx-retry.ts:369-396 | polling stops at the first decisive answer and is undecided only after all polls were |
| TxRetry.SubmitIsSafe | frontend/lib/tx-retry.ts:408-621 | one call makes at most `maxRetries` sign requests and one acknowledged broadcast, after which it only polls; each attempt builds from the account it fetched, prepares what was built, signs what was prepared and sends what was signed; every failure is the classification of what the last call threw, and a user error is the last thing it does |
| TxRetry.AttemptsAreCounted | frontend/lib/tx-retry.ts:471-616 | the attempts reported are the account fetches made, plus those of the record when one was found in flight; the fetches are those of consecutive attempts, and a call is exhausted only when none is left |
| TxRetry.ThrowsForReason | frontend/lib/tx-retry.ts:471-621 | a call throws its last error exactly when that is not retryable or comes from the builder, and exhausted only after a retryable one; no error of the builder is retried |
| TxRetry.BackoffFollowsSchedule | frontend/lib/tx-retry.ts:141-147 | retries wait for the schedule's entry of their attempt, its last entry standing for all later ones; no wait follows the last attempt |
| TxRetry.SettledCallUnblocks | frontend/lib/tx-retry.ts:456-466 | a call that ends confirmed or failed leaves no pending record of its hash |
| TxRetry.AnswerSaysWhatPollsSaid | frontend/lib/tx-retry.ts:369-616 | a call that broadcasts answers with the acknowledged hash and the attempts made: confirmed or failed as the first decisive poll said, pending when none was decisive; the hash is then gone from the tracker, or its record marked failed with the attempts, or only looked at, and every other readable record stays as it was |
| TxRetry.MomentIsAcknowledgement | frontend/lib/tx-retry.ts:565-600 | a call broadcasts in that sense exactly when its trace acknowledges a broadcast |
| TxRetry.GuardStopsCall | frontend/lib/tx-retry.ts:474-485 | an attempt ends the call, with no effect, exactly when a transaction of the pool and type is in flight, and answers pending with the first such record and its attempts; otherwise it fetches the account |
| TxRetry.PendingCallRecords | frontend/lib/tx-retry.ts:428-444 | a call left pending leaves exactly the tracker of its broadcast with its record, the traffic and the last look added |
| TxRetry.SecondCallStops | frontend/lib/tx-retry.ts:428-485 | after a call recorded a broadcast and was left pending, a later call with the same key in time broadcasts nothing and answers with a pending hash |
| TxRetry.Submitter.Add | frontend/lib/tx-retry.ts:217-223 | on a well-kept tracker the record and every readable one of another hash are kept, but for one evicted because the list is full and nothing kept is older |
| TxRetry.Submitter.PollForConfirmation | frontend/lib/tx-retry.ts:369-396 | the loop polls as specified, no more and no less |
| TxRetry.Submitter.FollowUp | frontend/lib/tx-retry.ts:597-615 | registration, polling and the tracker update of an acknowledged broadcast: the status is what the polls said first, and the tracker is changed by exactly that |
| TxRetry.Submitter.SubmitWithRetry | frontend/lib/tx-retry.ts:408-621 | the loop's outcome, trace and tracker are those of the specification |
| PendingTransactions.ScanMeans | frontend/lib/pending-transactions.ts:193-230 | a scan handles the records up to the first throwing query, keeps the stored list but for those settled among them, and reports those in query order, each with what the chain said |
| PendingTransactions.EachRecordAsSaid | frontend/lib/pending-transactions.ts:193-230 | in a scan in which nothing throws, a record is reported succeeded exactly on SUCCESS, failed exactly on FAILED with the error result, else the result, else nothing stated, dropped exactly on NOT_FOUND after five minutes, and kept exactly otherwise |
| PendingTransactions.ReconcileConserves | frontend/lib/pending-transactions.ts:193-230 | outcomes and survivors together are exactly the original records; survivors keep their order, outcomes come in submission order, each with the fate its reply gives |
| PendingTransactions.ThrowingScanLoses | frontend/lib/pending-transactions.ts:204-229 | a throwing scan reports nothing and loses records exactly when it had settled one before |
| PendingTransactions.UndisturbedScanIsReconcile | frontend/lib/pending-transactions.ts:199-229 | a scan taken reply by reply, with nothing falling in between, is the scan above |
| PendingTransactions.ReportedOncePerAdd | frontend/lib/pending-transactions.ts:112-230 | over any run, with adds and removals falling between a scan's replies, a hash is reported at most once for each time it was added |
| PendingTransactions.ReportsWereSaid | frontend/lib/pending-transactions.ts:193-230 | over such a run, whatever is reported is what some reply said, with the age at the start of its scan |
| PendingTransactions.PendingStore.AddPendingTransactionRecord | frontend/lib/pending-transactions.ts:112-120 | the record goes last, no other has its hash, the others stay as they were and in order |
| PendingTransactions.PendingStore.RemovePendingTransactionRecord | frontend/lib/pending-transactions.ts:122-132 | no record has the hash, the others stay as they were and in order |
| PendingTransactions.PendingStore.ReconcilePendingTransactions | frontend/lib/pending-transactions.ts:193-230 | the loop leaves the storage and reports the outcomes of the specification, each being what the chain said |
| PauseAuthorization.SelectPauseAuthorization | frontend/lib/incident-response.ts:395-415 | the two loops return the specified choice and rejections |
| PauseAuthorization.NothingSilentlyDropped | frontend/lib/incident-response.ts:404-408 | every candidate is either usable or among the rejections with its reason, and every rejection is of a candidate with that reason |
| PauseAuthorization.RejectionMeans | frontend/lib/incident-response.ts:417-434 | which one reason each candidate is given, in order of precedence, and that none is given exactly to what is unspent, unrevoked, for the contract and admin, and far enough from expiring |
| PauseAuthorization.ChoiceIsSoonest | frontend/lib/incident-response.ts:410-414 | the choice is fit and expires no later than any fit candidate, the smaller id first among equals; there is one whenever a candidate is fit |
| PauseAuthorization.SoonestFirstIsOptimal | frontend/lib/incident-response.ts:392-415 | spending the soonest-expiring first serves at least as many pauses as any other assignment of distinct usable authorizations |
| PauseAuthorization.SoonestPlanIsValid | frontend/lib/incident-response.ts:395-415 | and it is itself such an assignment |
| IncidentResponse.GroupCriticalAlertsByPool | frontend/lib/incident-response.ts:175-204 | the nested loops build the specified groups |
| IncidentResponse.GroupingIsExact | frontend/lib/incident-response.ts:175-204 | a pool has a group exactly when it is non-empty and named by a critical alert, one group each in ascending order; its count is how often critical alerts name it, its descriptions and rules are theirs, and the counts add up to all their namings |
| IncidentResponse.DecideAutoPause | frontend/lib/incident-response.ts:233-295 | exactly when a pause is executed, when it would have fired, and the one reason given otherwise |
| IncidentResponse.DryRunOnlyMasksExecution | frontend/lib/incident-response.ts:230-295 | dry-run changes nothing but `executed` |
| IncidentResponse.DecideIncidentResponse | frontend/lib/incident-response.ts:298-312 | one decision for each group, in order, by that pool's own status and recent pauses: when it pauses, when it is executed, and the one reason otherwise |
| IncidentResponse.ScanPausesExactly | frontend/lib/incident-response.ts:175-312 | from the alerts on: a scan pauses a pool exactly when critical alerts name it at least as often as the threshold, it is active, its recent pauses are below the cap and dry-run is off |
| IncidentResponse.CooldownCapsEveryWindow | frontend/lib/incident-response.ts:277-312 | over any run of scans no pool is paused more than `maxPausesPerWindow` times in any window as long as the cooldown |
| RateLimit.SameKeyMeans | frontend/lib/rate-limit.ts:46-56 | two requests share a key exactly when they share a limiter and an identity |
| RateLimit.IdentityMeans | frontend/lib/rate-limit.ts:46-56 | who a request counts against: the wallet in the parameter, else in the header, case aside; else the trimmed address before the first comma; else one shared stranger |
| RateLimit.SameWalletMeans | frontend/lib/rate-limit.ts:46-56 | requests that name wallets share a key exactly when limiter and wallet are the same, case aside |
| RateLimit.RateLimiter.ApplyLimit | frontend/lib/rate-limit.ts:58-100 | the store and the answer of one request, with its retry times |
| RateLimit.KeyedLimiterFollowsLog | frontend/lib/rate-limit.ts:32-100 | whatever the other keys do, a key's requests are let through as an unpruned log of its own times says, and its list never exceeds the cap |
| RateLimit.EveryWindowIsCapped | frontend/lib/rate-limit.ts:73-98 | no window of any run of the log holds more than the cap |
| RateLimit.LimiterGuarantee | frontend/lib/rate-limit.ts:32-100 | so the keyed limiter keeps every window within the cap (30 reads or 10 writes a minute, 5 exports an hour), and refuses a request exactly when its own window is full |
| RateLimit.RetryAfterIsExact | frontend/lib/rate-limit.ts:75-96 | on the log, every request before the retry time is refused and the first from then on is admitted |
| RateLimit.RetryAfterKept | frontend/lib/rate-limit.ts:75-96 | the same for the keyed limiter's `retryAfterMs`, which is positive and at most the window |
| RateLimit.ErrorReporter.IsRateLimited | frontend/lib/error-reporting.ts:40-51 | the shifting loop's answer and list |
| RateLimit.ShiftIsFilter | frontend/lib/error-reporting.ts:43-45 | on an ascending list shifting keeps what filtering keeps |
| RateLimit.ReporterFollowsLog | frontend/lib/error-reporting.ts:40-51 | the shifting limiter lets through what the same log admits |
| RateLimit.ReporterGuarantee | frontend/lib/error-reporting.ts:29-51 | so it too keeps every window within five, and drops a report exactly when its window is full |
| ICalExport.UnescapeUndoesEscape | frontend/lib/ical-export.ts:29-35 | reading an escaped text back gives the text with CRLF as LF |
| ICalExport.EscapedHasNoLineFeed | frontend/lib/ical-export.ts:29-35 | no text escapes to one with a line feed |
| ICalExport.FoldLine | frontend/lib/ical-export.ts:38-50 | the loop folds as specified |
| ICalExport.FoldsAreFull | frontend/lib/ical-export.ts:38-50 | up to 75 code units a line is left alone; of a longer one every physical line but the last has exactly 75, and every one but the first starts with a space |
| ICalExport.UnfoldUndoesFold | frontend/lib/ical-export.ts:38-50 | unfolding a folded line, wherever it stands, gives the line |
| ICalExport.PhysicalLinesAreShort | frontend/lib/ical-export.ts:38-50 | no physical line of any file exceeds 75 code units |
| ICalExport.OctetLimit | frontend/lib/ical-export.ts:12-50 | exactly which lines keep the limit in octets |
| ICalExport.BuildIcsEvent | frontend/lib/ical-export.ts:63-84 | the lines of one event; read by property name they are one event that tells its own UID, stamp, start and end (in the DATE form exactly when all-day), summary, description and URL (exactly when there is one) |
| ICalExport.BuildIcs | frontend/lib/ical-export.ts:87-103 | the file is every content line folded and ended by CRLF; when no UID or URL holds a CRLF it reads back as the named calendar and its events, in order, each telling its own fields |
| ICalExport.CalendarReadsBack | frontend/lib/ical-export.ts:87-103 | unfolding and splitting the file gives back the content lines, exactly when no UID or URL holds a CRLF |
| ICalExport.CalendarTellsEvents | frontend/lib/ical-export.ts:63-103 | what a reader that unfolds the file and looks properties up by name gets: the calendar's name, version and product, and every event's own fields, in order |
| CsvExport.CellReadsBack | frontend/lib/csv-export.ts:9-16 | a reader recovers an escaped cell, whatever it holds and whatever follows |
| CsvExport.EscapedExactly | frontend/lib/csv-export.ts:9-16 | `null` is the empty cell; a cell is left as it is exactly when it holds no quote, comma or line break |
| CsvExport.RowReadsBack | frontend/lib/csv-export.ts:20 | and a whole row |
| CsvExport.CsvReadsBack | frontend/lib/csv-export.ts:19-22 | the reader recovers the table exactly when header and rows are non-empty |
| Decimals.HumanToBaseUnitsIsExact | frontend/lib/deposit-token.ts:31-47 | the parse gives exactly the number the string denotes, and gives it exactly when the digits fit |
| Decimals.AmountMeans | frontend/lib/deposit-token.ts:31-47 | which strings are amounts, the one way to take each apart, and the number it denotes |
| Decimals.HumanRefuses | frontend/lib/deposit-token.ts:31-47 | which error a refused amount gets |
| Decimals.RefusedForDigitsNotValue | frontend/lib/deposit-token.ts:39-43 | too many digits are refused even when the value fits, which is when the excess is zeros |
| Decimals.HumanReadsBack | frontend/lib/deposit-token.ts:31-61 | parsing a printed amount gives it back, for every integer and precision |
| Decimals.HumanPrintsBack | frontend/lib/deposit-token.ts:31-61 | printing a parsed amount gives its canonical form |
| Decimals.TrimKeepsValue | frontend/lib/deposit-token.ts:67-70 | trimming leaves a well-formed amount of the same value, with no zero at the end of a fraction, and one without a point as it was |
| Decimals.FeeSplitsGross | frontend/lib/deposit-token.ts:129-146 | fee and net add up to the gross, read back from their printed forms, and stay in range |
| Decimals.FeeIsNearest | frontend/lib/deposit-token.ts:137-138 | the fee is the nearest whole unit with a half rounding up while the product is not below -5000, how far off it is below that, and exactly when it is nearest at all |
| Decimals.BridgeAgrees | frontend/lib/cctp-bridge.ts:106-145 | the bridge's pair agrees with the deposit form's up to 18 decimals and reads back and prints back at any |
| Decimals.GovernanceParseIsFloor | frontend/lib/governance.ts:115-121 | governance's parser takes the floor of the amount in base units |
| Decimals.GovernanceAccepts | frontend/lib/governance.ts:115-121 | governance's parser takes exactly the unsigned amounts, commas aside |
| Decimals.GovernanceAgrees | frontend/lib/governance.ts:115-121 | and agrees with the deposit form wherever that accepts an unsigned amount |
| Decimals.GovernanceReadsBack | frontend/lib/governance.ts:115-166 | and reads its own printer back, negative amounts excepted |
| I128.I128ToBeBytes | sdk/src/scval.ts:96-108 | the loop writes the two's-complement bytes, or refuses out of range |
| I128.BytesToI128 | sdk/src/scval.ts:110-116 | the loop reads them, or refuses any other length |
| I128.I128ReadsBack | sdk/src/scval.ts:96-116 | every i128 survives its bytes |
| I128.EncodedIsBigEndian | sdk/src/scval.ts:96-108 | each byte is the digit of its weight, highest first, of the value modulo 2^128 |
| I128.BytesReadBack | sdk/src/scval.ts:96-116 | every sixteen bytes are the encoding of what they decode to |
| I128.HalvesReadBack | sdk/src/scval.ts:51-61 | the high and low halves fit their types and are undone by the indexer's recombination, both ways; what it makes of the other integer kinds |
| I128.HexReadsBack | sdk/src/scval.ts:5-14 | bytes survive their hex through the strict reader |
| I128.HexPrintsBack | sdk/src/scval.ts:5-14 | accepted hex prints back in lower case |
| I128.ParamIsHexOfBytes | frontend/lib/governance.ts:198-203 | the parameter is the hex of the same sixteen bytes |
| I128.ParamDecodes | frontend/lib/governance.ts:198-203 | read as an i128 it is the value exactly below 2^127 |
| I128.YieldParamsReadBack | frontend/lib/governance.ts:93-155 | exactly which inputs the builder accepts, what each parameter holds, and that decoding recovers them |
| I128.DecodesExactly | frontend/lib/governance.ts:134-156 | exactly which parameter maps are read as a yield allocation, and as what |
| BatchDeposit.Chunk | frontend/lib/batch-deposit.ts:127-134 | the loop splits as specified, or refuses a size below one |
| BatchDeposit.ChunksJoinUp | frontend/lib/batch-deposit.ts:127-134 | joining the batches gives the list; all but the last are full, none is empty, and their number |
| BatchDeposit.UrgencyMeans | frontend/lib/batch-deposit.ts:163-200 | the bands: overdue at the deadline, urgent within a day, soon within three, unknown without one |
| BatchDeposit.BandsAreMonotone | frontend/lib/batch-deposit.ts:163-210 | sooner deadlines never fall into later bands, unknown ones into the last |
| BatchDeposit.UrgencyIsDeadlineOrder | frontend/lib/batch-deposit.ts:212-227 | the comparison is total and transitive; the result is the same pools in stable deadline order with unknown deadlines last, at any time of day |
| BatchRun.BatchSession.SubmitTx | frontend/hooks/useBatchDeposit.ts:326-340 | what one submission's phases do to the items |
| BatchRun.BatchSession.SubmitBatchDeposit | frontend/hooks/useBatchDeposit.ts:303-358 | the loop leaves the items and returns the lists of the specification, with the flags cleared |
| BatchRun.BatchSession.RetryFailed | frontend/hooks/useBatchDeposit.ts:364-371 | nothing when nothing failed, else a run over exactly the failed and cancelled pools |
| BatchRun.BatchSession.Cancel | frontend/hooks/useBatchDeposit.ts:374-376 | raises the flag |
| BatchRun.RunPartitionsPlan | frontend/hooks/useBatchDeposit.ts:318-355 | every planned pool is in exactly one list, the cancelled ones are the plan's tail, the rest went to the wallet once each in order |
| BatchRun.RunSettlesAll | frontend/hooks/useBatchDeposit.ts:312-349 | every planned item ends settled, with its hash and error, and retained items are untouched |
| BatchRun.RetryKeepsConfirmed | frontend/hooks/useBatchDeposit.ts:364-371 | a retry keeps every pool and every confirmed item and submits no confirmed pool |
| BatchRun.RetriesKeepPools | frontend/hooks/useBatchDeposit.ts:364-371 | over any sequence of retries the selected pools stay, each once and settled |
| BatchRun.ConfirmedIsFinal | frontend/hooks/useBatchDeposit.ts:361-371 | a confirmed deposit stays so over any further retries and is never submitted again |
| BatchRun.ProgressFollowsRun | frontend/lib/batch-deposit.ts:246-252 | during a run, everything before the deposit under way is done, and the bar points at it once it is signing or submitted |
| BatchRun.ProgressMatchesResult | frontend/lib/batch-deposit.ts:246-251 | after a run the progress is complete and its counts are the result's |
| YieldAllocation.ClampBufferBps | frontend/lib/yield-allocation.ts:59-65 | the clamped setting is in range |
| YieldAllocation.ClampMeans | frontend/lib/yield-allocation.ts:59-65 | no number is the default; a number is cut to its whole part and into range |
| YieldAllocation.ClampKeepsOrder | frontend/lib/yield-allocation.ts:59-65 | exactly the whole settings in range are kept, and the clamp is monotone |
| YieldAllocation.MaxIsLargest | frontend/lib/yield-allocation.ts:45-56 | an amount is within the maximum exactly when the balance is positive and what stays liquid is no less than the whole units of the buffer |
| YieldAllocation.MaxAfter | frontend/lib/yield-allocation.ts:45-56 | allocating within the maximum lowers it by just as much |
| YieldAllocation.RunKeepsBuffer | frontend/lib/yield-allocation.ts:35-56 | a run of allocations never takes liquid capital below the lesser of its start and the buffer, and uses up exactly what it allocates of the starting maximum |
| YieldAllocation.BufferRoundsDown | frontend/lib/yield-allocation.ts:40-56 | by how much a full allocation undershoots the configured share, and exactly when it does not |
| YieldAllocation.MaxGrows | frontend/lib/yield-allocation.ts:45-56 | a larger balance never lowers the maximum, and from positive or fully allocated balances raises it by no more than itself |
| YieldAllocation.RaiseIsBounded | frontend/lib/yield-allocation.ts:45-56 | exactly which raise, at which setting, raises the maximum by no more than itself |
| YieldAllocation.MaxGrowsByAtMost | frontend/lib/yield-allocation.ts:45-56 | exactly from which balances every raise at every setting does |

## Left out

- The network, RPC, Supabase and wallet themselves, React state and components, i18n, PDF, email and the service worker: their answers are parameters or they are outside the model.
- Message patterns in error classification are arbitrary predicates; only their precedence is modelled.
- Listeners and toasts of the signing queue, listeners that enqueue while being notified, and a kit whose `signTransaction` throws before returning a promise.
- `onBroadcast`, the retry-handler registry and the per-address record inside `submitWithRetry`: the tracker is the only storage a call touches here; `PendingTransactions.dfy` models the other list on its own.
- The wait between polls, and the text of the exhausted call's message.
- A tracker record's `submittedAt` and `lastChecked` are read from the clock one after the other; here they are one reading.
- JSON and localStorage: stored lists are sequences of well-formed records. Non-finite timestamps are out.
- Case mapping outside ASCII in pool ids, wallet addresses and admin addresses.
- `summarizeDecisions`, the wording of reasons and `loadIncidentConfig`; the configuration is a parameter.
- Amounts passed as numbers and numeric basis points that are not whole: a parser's input is a string, a fee rate an integer.
- Formatting of dates: a calendar event holds its dates as text of digits and letters.
- A fold may fall between the two halves of a surrogate pair; unfolding code units rejoins them, and decoding each physical line on its own is not modelled.
- IncidentResponse.CooldownCapsEveryWindow: counts the pauses that are recorded as executed, as the cooldown does, and takes scans one after another; a pause carried out whose incident could not be written or marked, and scans that overlap, are outside it.
- PendingTransactions.ReportedOncePerAdd: takes scans one at a time, which is what the recovery provider's in-flight flag ensures; records of several wallets are separate lists.
- RateLimit.LimiterGuarantee: assumes the clock does not run backwards under the key, as `Date.now` may after an adjustment.
- BatchRun.RunSettlesAll: assumes one item for each pool id, as the pool ids come from the database.
- Two runs of `submitBatchDeposit` at once, the missing-wallet guards, activity logging, and the progress bar's percentage and label.
- `localeCompare` is an arbitrary total preorder on names.
- The UTF-8 decoder of `decodeYieldAllocationParams` is any decoder that reads ASCII as itself.
- `frontend/lib/cctp-driver.ts`, `frontend/lib/tx-simulator.ts`, `frontend/lib/pool-health.ts`, `frontend/lib/analytics.ts`, `frontend/lib/onboarding.ts`, `frontend/lib/disputes.ts`, `advanceBridgeStatus`, the quorum helpers, `mergeProposals`, `OptimisticTransactionManager` and `usePoolChat`.
