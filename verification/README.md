# Evolution Go: verified model of the delivery core

A Dafny model of the parts of Evolution Go in which something can go wrong between functions rather than inside one:
broadcast delivery, the time-based in-memory stores, webhook delivery with retries, receipt tracking, and the text
normalisers. `dafny verify dfyconfig.toml` checks the whole project.

## What is modelled

**Broadcast delivery** (`recipients`, `delivery`, `broadcast_system`, `broadcast_guarantees`, `broadcast_outcomes`,
`broadcast_race`, `broadcast_termination`, `broadcast_repository`, `broadcast_service`). There are two levels.

- The *machine*: a state holds the job table, the recipient rows of every job, the dispatcher, the bounded channel,
  the slots that this process has granted, and any number of workers. A step is one repository call, one `SendText`
  call, one slot grant, one channel operation, one delivery receipt, one half of `Create` (the insert, and the seeding
  of the recipients), or a restart of the process over the same tables, with any number of workers. A run is any
  sequence of steps from empty tables, so every interleaving, every outcome of a send, every cancellation, every
  failed save and every crash is covered. A save may reach the table, miss it, or reach it and still report an error.
  Each job carries a history that no step reads: calls and confirmed answers per phone, confirmed answers whose save
  was lost, the phones that `Process` listed last, and whether a goroutine walked away from the job.
- The *code*: the class `Repository` holds the table statements and the class `Service` the goroutines' code,
  statement by statement, in the shape of the Go source. `Valid()` of the service says that its state is that of a run
  of the machine, and every method keeps it, with arbitrary steps of the other goroutines between its own. So each
  theorem about runs holds of each execution of that code (`Service.Reached`). What happens outside (how long a
  context lasts, what SendText answers, a failed listing, claim, save or summary) is a parameter of the method, so
  that its contract can say what happens otherwise. The service decides about slots by the same function of the grants
  so far that the class `Limiter` proves its map of due times to be.

**Stores with a clock**: the per-instance slot limiter, the fixed-window rate limiter (compared with one that never
prunes), and the chat search cache (compared with a history that forgets nothing; record lists are arrays and labels are
references, so aliasing is part of the model), with the key that is computed from a search filter. Tenant and instance ids
are UUID columns and hold no NUL.

**Webhooks**: the delivery table, dispatch with its dedupe window, retries, and the backoff computed by a 64-bit shift.

**Receipts and text**: receipts on recipient rows and in the registry of single sends, connector event lists, and phone
numbers against JIDs.

Times are integers in nanoseconds, with 0 for Go's zero time. Clocks do not run backwards. Text
is ASCII.

## What turned out not to hold as one would expect

- *A completed job can have pending recipients.* `Create` inserts the job before it seeds the snapshot of its contacts
  (`internal/broadcast/service.go:239-244`). If the job is claimed, seeded by `Process` and completed in between, the
  phones that the snapshot adds stay pending for ever: `BroadcastRace.LateSeedStaysPending` is such a run.
  `BroadcastGuarantees.CompleteForGoodExactly` gives the exact condition: a completed job stays free of pending
  recipients in every continuation if and only if `Create` is done with seeding it and none is pending now.
- *The hourly bound of the slot limiter has a condition.* At rate r an hour holds at most r + 1 grants, in every log that
  the limiter can leave, if and only if r + 1 intervals fill an hour (`SlotLimiter.HourlyBoundExactly`). Every rate up to
  its interval in nanoseconds is fine; 3000001 an hour is not (`SlotLimiter.HourlyBoundFails`), because the interval is
  rounded down.
- *The webhook backoff overflows.* It equals 30 s doubled per attempt and capped at 30 min for attempts 1 to 29 and for
  ten later ones, and for no other (`WebhookBackoff.BackoffIsDoubling`).
- *A cache key can stand for two queries.* It joins its parts by NULs, and a search filter may hold one
  (`ChatFilter.NulCollides`). For ids without NULs, all who share a key ask the same query if and only if the filter's part
  of the key cannot be cut at another NUL into two texts that are free of spaces at their ends and no longer than a filter
  may be (`ChatFilter.KeyIsSoundExactly`). A filter without NULs is always safe; with one it may or may not be.
- *A registry key can stand for two pairs* (`SendStatus.BarsCollide`): it belongs to exactly one pair if and only if neither
  part holds a bar (`SendStatus.KeyIsUniqueExactly`).
- *The rate limiter is slightly better than its window suggests*: at most 2 · limit − 1 calls pass in any closed interval
  as long as the window, and that number is reached (`RateLimit.WindowBoundIsTight`).
- The repository's `README.md:31` calls the broadcast processor a stub; the code is a complete delivery loop, and is what
  is modelled here.

## Model

| member | source | states |
|---|---|---|
| BroadcastGuarantees.RowsNeverRegress | internal/broadcast/processor.go:76-205 | In every run a recipient only moves pending, sent, delivered, read; failed is final; message id, send time and first delivery time never change once set, and the read time never goes back |
| BroadcastGuarantees.NeverResent | internal/broadcast/processor.go:324-335 | Once a recipient has left pending, no later step of any attempt hands its phone to SendText again |
| BroadcastOutcomes.NoStepSendsAgain | internal/broadcast/processor.go:324-335 | So once a recipient has left pending, no step of any continuation hands its phone to SendText |
| BroadcastGuarantees.SendsAreBounded | internal/broadcast/processor.go:87-205 | SendText calls for a phone never exceed its attempt count, the job's attempts and max_attempts; confirmed answers are exactly the lost saves plus one if the row is sent, so at most one when no such save is lost |
| BroadcastOutcomes.HistoryIsTrue | internal/broadcast/processor.go:87-205 | The counts in the history are those of the run: the steps that hand a phone to SendText, at most one per claim of the job, and those that bring evidence of a message |
| BroadcastOutcomes.SettledByItsCall | internal/broadcast/processor.go:111-191 | In every run a recipient is failed only if SendText was called for it and answered with a permanent error, at the time that is recorded; it is sent only if such a call brought an id, a number, a time or a chat, and its message id is the trimmed id, its send time that of the answer or else that of the attempt |
| BroadcastOutcomes.AttemptIsRecorded | internal/broadcast/processor.go:87-98 | Before SendText is called, the row is saved as pending with one more attempt and the time of that attempt; without the save there is no call |
| BroadcastGuarantees.CompletedMeans | internal/broadcast/service.go:421-446 | In every later state a completed job has listed recipients, all of them sent, delivered or read; completed_with_failures means none pending and one failed; all recipients are so exactly when none was seeded after the listing |
| BroadcastGuarantees.CompleteForGoodExactly | internal/broadcast/service.go:239-244 | No recipient of a completed job is pending in any continuation of the run if and only if Create has nothing left to seed and none was seeded after the listing; the latter is so exactly when none is pending now |
| BroadcastRace.LateSeedStaysPending | internal/broadcast/service.go:239-244 | A concrete run in which Create seeds late and a completed job keeps a pending recipient |
| BroadcastGuarantees.NeverDrops | internal/broadcast/service.go:357-388 | Whatever the workers take meanwhile, the dispatcher's claimed jobs fit into the channel and the drop branch is never taken |
| BroadcastGuarantees.HeldExactlyOnce | internal/broadcast/service.go:390-447 | A job in processing that nobody gave up is held exactly once by dispatcher, channel and workers together, any other job not at all; no two workers have the same job |
| BroadcastGuarantees.NothingOrphaned | internal/broadcast/service.go:402-447 | In a run without restarts, cancelled slot waits and failed summaries and closing statements every processing job is held exactly once |
| BroadcastGuarantees.ClaimsAreBounded | internal/repository/gorm.go:761-806 | The attempts column counts the claims of a run, never exceeds max_attempts, and is below it for queued jobs |
| BroadcastGuarantees.RetryWaits | internal/broadcast/service.go:449-460 | After a failed attempt the job is claimed again only if attempts remained, and not before 15 s, 60 s or 300 s have passed |
| BroadcastOutcomes.RetriedExactly | internal/broadcast/service.go:449-460 | In every run a failed attempt that reaches the table puts the job back in the queue if and only if the error is retryable and attempts are left, 15 s, 1 min or 5 min later; otherwise the job is failed; nothing else changes |
| BroadcastOutcomes.CreatedAsRequested | internal/broadcast/service.go:182-237 | A request is refused exactly under the validation conditions; otherwise the job has the trimmed instance and message, the rate and the attempts asked for, or 3, and is available at the later of its delay and its schedule |
| BroadcastOutcomes.NotClaimedEarly | internal/broadcast/service.go:207-220 | In every run whose clock does not go back, no attempt of a job is claimed before its schedule or its delay, however often it fails and is retried |
| BroadcastOutcomes.FirstClaimNotEarly | internal/broadcast/service.go:207-220 | The first attempt is not, whatever the clock does |
| BroadcastGuarantees.TerminalIsFinal | internal/repository/gorm.go:808-871 | A completed, partly failed or failed job row never changes again |
| BroadcastGuarantees.SummariesBalance | internal/repository/gorm.go:724-740 | In every reachable state total = sent + failed + pending, read ≤ delivered ≤ sent, and sent + failed ≤ attempted ≤ total |
| BroadcastGuarantees.GrantsAreSpaced | internal/broadcast/service.go:610-636 | In any run, two slots of an instance that any workers take without a restart in between are at least the interval of the earlier job's rate apart |
| BroadcastGuarantees.GrantsPerHour | internal/broadcast/service.go:610-647 | In every reachable state at most rate + 1 slots of an instance lie in any hour, at a constant rate that is no more than its interval |
| BroadcastTermination.WorkIsBounded | internal/broadcast/service.go:390-479 | In any run, whatever its interleaving and restarts, the workers take at most attempts · (3 n + 7) ≤ max_attempts · (3 n + 7) steps for a job with n recipients, so no job is worked on for ever |
| BroadcastTermination.NeverStuck | internal/broadcast/service.go:390-479 | A worker that has a job always has a step that it can take; while it waits for a slot, that is a grant |
| BroadcastTermination.AttemptEnds | internal/broadcast/service.go:390-479 | Unless the job is claimed again, the steps taken for it never exceed what is left of its attempt, and when they have used that up no worker has the job any more |
| BroadcastTermination.RunPays | internal/repository/gorm.go:761-806 | Over a run, the steps taken for a job and those that are left never exceed what its claims have paid for |
| BroadcastTermination.StepUses | internal/broadcast/processor.go:33-234 | Each step of a worker uses up a part of what its attempt has left |
| BroadcastSystem.DoOk | internal/broadcast/service.go:357-479 | Every step of every party keeps the system invariant and moves every job and row forward only |
| BroadcastSystem.ExecOk | internal/broadcast/service.go:150-165 | Hence so does every run of any length |
| BroadcastSystem.HoldsAlone | internal/broadcast/service.go:390-400 | The job that a worker has is in nobody else's hands |
| BroadcastSystem.ClaimOk | internal/repository/gorm.go:761-806 | A claim of due jobs up to the free slots keeps the invariant: each claimed job was held by nobody and is now held once |
| BroadcastSystem.CreateOk | internal/broadcast/service.go:182-245 | A new job, not yet seeded, keeps the invariant |
| BroadcastSystem.RestartOk | internal/broadcast/service.go:125-165 | A new process over the same tables keeps the invariant: nobody holds a job, and every row is as it was |
| Delivery.AbandonedOk | internal/broadcast/service.go:390-400 | The end of the process keeps the accounts of a job: an answer not yet saved counts as lost |
| Delivery.WorkerStepOk | internal/broadcast/processor.go:33-234 | Each step of the worker that holds a job keeps the job and row invariants and the exactness of its loaded copies, and only moves things forward |
| Delivery.WorkerSurvives | internal/broadcast/processor.go:57-74 | Receipts and late seeding cannot make a loaded pending copy stale, because a pending row has no message id |
| Delivery.PendingItemsOk | internal/broadcast/processor.go:324-335 | The pending filter yields distinct phones with their exact rows, and every pending phone of the listing |
| Delivery.SeedOk | internal/repository/gorm.go:591-599 | Seeding adds untouched pending rows and changes no existing row |
| Delivery.SeedingAdds | internal/repository/gorm.go:591-599 | Seeding gives each new phone a pending row with no attempt and no time, and keeps every row that is there |
| Delivery.SnapshotOk | internal/broadcast/service.go:541-567 | Create's seeding, at whatever time, disturbs neither the job nor any row that is there |
| Delivery.ReceiveOk | internal/repository/gorm.go:684-722 | A receipt keeps the invariants, changes no pending row, makes no row failed, and leaves attempts alone |
| Delivery.AnsweredOk | internal/broadcast/processor.go:111-191 | Column by column: a permanent error fails the row, evidence of a message makes it sent with the trimmed id and the time of the answer or of the attempt, anything else leaves it pending, with no failure time and its other columns as they were; the loop goes on exactly in the first two cases |
| Delivery.AfterFailureOk | internal/broadcast/service.go:449-460 | A failed attempt requeues the job, with the wait for that attempt, exactly when the error is retryable and attempts are left, and fails it otherwise |
| Delivery.FinishedOk | internal/broadcast/service.go:421-446 | The status that the failure count selects agrees with the recipients |
| Delivery.ClaimedOk | internal/repository/gorm.go:764-806 | A claim stays within max_attempts, and no row has yet been attempted in the new attempt |
| Recipients.ReceiptAdvances | internal/repository/gorm.go:684-722 | A receipt keeps the links between status and timestamps and touches neither pending nor failed rows |
| Recipients.ReceiptWritten | internal/repository/gorm.go:684-722 | What the update does to a row, from the texts of the receipt: which rows it reaches, and each column that it writes |
| Recipients.SentRowHears | internal/repository/gorm.go:702-717 | So for a sent row that is addressed: "delivered", in any case and between spaces, sets status and delivery time and no read time, "read" sets both times, any other state nothing |
| Recipients.ReceiptsOutcome | internal/repository/gorm.go:702-717 | Closed form of any receipt sequence on a sent row: the strongest status, and the latest read time |
| Recipients.ReceiptsOrderIndependent | internal/repository/gorm.go:702-717 | Any permutation of the receipts gives the same status and read time |
| Recipients.DeliveredAtIsFirst | internal/repository/gorm.go:702-717 | The delivery time is that of the first receipt in the order of arrival |
| Recipients.SummaryBalances | internal/repository/gorm.go:724-740 | The accounting identities hold of any table of well-formed rows |
| Recipients.SummaryTells | internal/repository/gorm.go:724-740 | The failed and pending counts are positive exactly when there is such a recipient |
| Recipients.SummaryCounts | internal/repository/gorm.go:724-740 | The summary of no rows is zero, and each row that is added counts under exactly what its columns say |
| BroadcastRepository.Repository.ClaimNext | internal/repository/gorm.go:761-806 | Claims exactly the selected jobs: each is processing with one more attempt and otherwise unchanged, no other entry changes, and the jobs are returned as updated |
| BroadcastRepository.Repository.SelectDue | internal/repository/gorm.go:764-777 | Distinct queued jobs that are available by then, by available_at and on a tie by created_at; one that is left out comes no earlier, in the same columns, than any that is selected, and only the limit leaves one out |
| BroadcastRepository.Repository.SeedRecipientProgress | internal/repository/gorm.go:591-599 | Inserts one pending row per phone that the broadcast does not have yet, or nothing |
| BroadcastRepository.Repository.SaveRecipientProgress | internal/repository/gorm.go:601-630 | Upserts one row under (broadcast, phone) and leaves all others alone |
| BroadcastRepository.Repository.ListRecipientProgress | internal/repository/gorm.go:632-639 | Lists every row of the broadcast that has the tenant exactly once, as it stands in the table |
| BroadcastRepository.Repository.SummarizeRecipientProgress | internal/repository/gorm.go:724-740 | The counts divide the broadcast's rows of the tenant among sent, failed and pending, and tell whether any has failed or is left |
| BroadcastRepository.Repository.MarkRecipientReceipt | internal/repository/gorm.go:684-722 | Writes what the texts of the receipt say into exactly the rows that it reaches, in every broadcast, and says whether there were any |
| BroadcastRepository.Repository.MarkCompleted | internal/repository/gorm.go:808-825 | Sets one job of the tenant completed; an unknown job is an error and changes nothing |
| BroadcastRepository.Repository.MarkCompletedWithFailures | internal/repository/gorm.go:827-844 | Likewise with the other completed status |
| BroadcastRepository.Repository.MarkFailed | internal/repository/gorm.go:846-871 | Requeues the job for the retry time, or fails it when there is none |
| BroadcastService.Service.Reached | internal/broadcast/service.go:125-165 | The state of the service after any of its methods is that of a run from start-up, so it satisfies all guarantees |
| BroadcastService.RunIsExec | internal/broadcast/service.go:150-165 | A recorded history of single steps is a run of the machine |
| BroadcastService.Service.constructor | internal/broadcast/service.go:125-148 | Starts at the initial state: empty tables, the given number of workers or one, and the given batch size or that number |
| BroadcastService.Service.Create | internal/broadcast/service.go:182-251 | Under the validation conditions, after a failed insert or with an id in use everything stays as it was; otherwise the first step inserts the job as requested, with no recipients, the last one seeds it, with any steps of the others in between, and on success every contact with a phone that is linked to the instance or to none has a row |
| BroadcastService.Service.SeedRecipientSnapshot | internal/broadcast/service.go:541-567 | One seeding step; on success the job has its old rows and an untouched one for every other eligible phone, and without a contact listing just its old rows |
| BroadcastService.Service.ClaimAndEnqueue | internal/broadcast/service.go:357-380 | It does nothing without a free slot, and otherwise measures first; unless the claim fails, it claims the first due jobs up to the batch and the free slots, and each of them enters the channel, while workers take jobs from it |
| BroadcastService.Service.ClaimJobs | internal/broadcast/service.go:367-372 | A failed claim leaves the table as it was and the dispatcher at rest; otherwise the step claims the first due jobs up to the limit, and they are about to be handed over |
| BroadcastService.Service.TryEnqueue | internal/broadcast/service.go:382-388 | The job enters the channel: the drop branch, though written out, is not taken |
| BroadcastService.Service.WorkerTurn | internal/broadcast/service.go:390-400 | With an empty channel nothing happens; otherwise the turn begins by taking the oldest job and ends with a step that marks the job, or gives it up after a cancelled wait, a failed summary or a failed closing statement; when nothing goes wrong outside, that step is the closing statement for a completed job, unless an answer of SendText ended its recipient loop |
| BroadcastService.Service.HandleJob | internal/broadcast/service.go:402-447 | Refines the whole attempt; it is given up before it begins only if every pass of the wait found the slot taken; unless the summary fails, its last step is a statement that marks the job, and when nothing goes wrong outside, the one for completed jobs, unless some SendText call of this attempt got an answer that ends the recipient loop |
| BroadcastService.Service.WaitForInstanceSlot | internal/broadcast/service.go:610-636 | Each pass reads the clock and takes the slot, by a grant of the machine, or sleeps until it is due; without a grant each of the passes that the context allowed came before the end of the last grant known then |
| BroadcastService.Service.Attempt | internal/broadcast/service.go:416-447 | After the slot: unless the summary fails, the attempt ends in a statement that marks the job, the one for completed jobs unless something outside or an answer of SendText went wrong |
| BroadcastService.Service.HandleFailure | internal/broadcast/service.go:449-479 | The worker's last step, after which the table shows the job queued again at the right time exactly when the error is retryable and attempts are left, and failed otherwise; a lost update leaves it as it was |
| BroadcastService.Service.CountFailures | internal/broadcast/service.go:421-426 | The failure count is taken from the table, or, exactly when the summary fails, the job is left in processing |
| BroadcastService.Service.MarkDone | internal/broadcast/service.go:427-442 | The closing statement: the table then shows the job completed without failures and completed_with_failures with some; a lost update leaves it as it was |
| BroadcastService.Service.Process | internal/broadcast/processor.go:33-234 | Refines the delivery loop; when it returns no error, every recipient it loaded has been settled; a job without tenant, instance or message and an unknown instance are permanent errors, and otherwise only the lack of contacts is; while the context and the statements are fine, a retryable error comes only after a SendText call whose answer ends the loop |
| BroadcastService.Service.LoadOrSeedRecipientProgress | internal/broadcast/processor.go:278-322 | Leaves exactly the pending rows of the listing to be walked, or the error with its retryability |
| BroadcastService.Service.SendToRecipient | internal/broadcast/processor.go:76-205 | One turn of the loop: on success the rest of the list is left, otherwise the retryable error; unless the context or a statement fails, an error means that SendText was called and gave an answer that ends the loop |
| BroadcastService.Service.SendAndRecord | internal/broadcast/processor.go:111-191 | It calls SendText at once, with no check before it; after a retryable error or an answer without evidence the result is the retryable error, and unless the save fails the loop goes on otherwise and the table shows the row that the answer calls for |
| BroadcastService.Service.RecordOutcome | internal/broadcast/processor.go:131-191 | The save after the answer, with its loss recorded |
| BroadcastService.Service.HandleReceipt | internal/broadcast/service.go:510-539 | Exactly one step, which writes what the texts of the receipt say into exactly the rows that it reaches, in every broadcast; it reports an update exactly when there was one |
| BroadcastService.Service.StartAgain | internal/broadcast/service.go:125-165 | A restart: idle workers in the configured number, an empty channel and no grants over the same tables |
| BroadcastService.PendingRecipientProgress | internal/broadcast/processor.go:324-335 | The loop yields the pending rows in order |
| BroadcastService.PendingOfListing | internal/broadcast/processor.go:68-74 | Filtering the listed rows is the machine's pending filter |
| BroadcastService.EligibleBroadcastRecipients | internal/broadcast/processor.go:251-276 | The loop with its seen map yields the eligible phones in order of first appearance |
| BroadcastService.EligibleIsExact | internal/broadcast/processor.go:251-276 | Each phone once, in the order of the contacts, and exactly the trimmed, non-blank phones of contacts linked to the instance or to none |
| SlotLimiter.Limiter.TryGrant | internal/broadcast/service.go:613-627 | A pass grants a slot exactly when the instance's last grant has run out, otherwise tells how long to wait; grants stay spaced |
| SlotLimiter.Limiter.WaitForInstanceSlot | internal/broadcast/service.go:610-636 | A worker that gets through was granted a slot of its own at that moment, whatever other workers do meanwhile; one that does not had as many passes as its context allowed, and each of them found the slot taken |
| SlotLimiter.IntervalFitsRate | internal/broadcast/service.go:638-647 | The interval is the longest in whole nanoseconds of which rate many fit into an hour; half a second without a rate, a tenth when no nanosecond is left |
| SlotLimiter.GrantKeepsSpacing | internal/broadcast/service.go:618-624 | A grant after the last one's end keeps all grants of an instance at least the earlier one's interval apart |
| SlotLimiter.ProducedIsSpaced | internal/broadcast/service.go:610-636 | So they are in every log that the limiter can leave |
| SlotLimiter.HourIsSpread | internal/broadcast/service.go:610-647 | The k-th grant in an hour comes at least k - 1 intervals after its beginning |
| SlotLimiter.HourlyBound | internal/broadcast/service.go:610-647 | At constant rate r a half-open hour holds at most r + 1 grants when r + 1 intervals fill an hour |
| SlotLimiter.LimiterBound | internal/broadcast/service.go:610-647 | The bound holds of a limiter in use |
| SlotLimiter.HourlyBoundExactly | internal/broadcast/service.go:638-647 | The bound holds of all logs that the limiter can leave if and only if r + 1 intervals fill an hour |
| SlotLimiter.FastestProduced | internal/broadcast/service.go:618-624 | Any number of grants one interval apart is a log that the limiter can leave |
| SlotLimiter.HourlyBoundFails | internal/broadcast/service.go:638-647 | At 3000001 an hour the limiter can let more than that and one through in an hour |
| SlotLimiter.UsualRates | internal/broadcast/service.go:638-647 | That is so for every positive rate up to its interval in nanoseconds |
| RateLimit.MemoryRateLimitStore.Allow | internal/middleware/rate_limit.go:69-108 | The pruning store answers every call as a store that never prunes |
| RateLimit.HitAgrees | internal/middleware/rate_limit.go:82-94 | A hit on the pruned map sees the window of a map that is never pruned |
| RateLimit.WindowIsItsHits | internal/middleware/rate_limit.go:82-94 | A key's entry counts the calls since the one that opened it, ends a window after that one, and was opened after the one before had ended |
| RateLimit.DecisionTells | internal/middleware/rate_limit.go:69-108 | A call is allowed exactly when it is among the first limit calls of its window; it is told how many are left and when the window ends; without a limit it is always allowed |
| RateLimit.MemoryRateLimitStore.PruneExpired | internal/middleware/rate_limit.go:110-116 | Removes exactly the windows that have ended and changes no other |
| RateLimit.WindowBound | internal/middleware/rate_limit.go:69-108 | Any closed interval as long as the window lets at most 2 · limit − 1 calls of a key through |
| RateLimit.WindowBoundIsTight | internal/middleware/rate_limit.go:69-108 | For every limit and window some traffic reaches that number |
| RateLimit.StoreBound | internal/middleware/rate_limit.go:69-116 | The bound holds of a store in use |
| RateLimit.KeysAreIndependent | internal/middleware/rate_limit.go:80-100 | Calls for other keys change no decision |
| ChatFilter.KeyIsInjective | internal/instance/chat_cache.go:183-190 | Without NULs, keys are equal exactly when trimmed tenant, instance and case-folded filter are |
| ChatFilter.KeyIsSound | internal/instance/runtime.go:1453-1464 | Normalised filters with equal keys accept the same records, for the same tenant and instance |
| ChatFilter.NormalizedIsTrimmed | internal/instance/chat_media_types.go:99-119 | Every filter that normalisation lets through is trimmed |
| ChatFilter.RequestMeans | internal/instance/chat_media_types.go:99-119 | The query wins over the search text unless it is blank, all is trimmed, and the request is refused exactly when the JID exceeds 255 or the text 100 characters |
| ChatFilter.MatchesMeans | internal/instance/runtime.go:1453-1464 | A record is accepted exactly when its JID is the one asked for, if one is, and its name or its JID contains the text asked for, if there is any, whatever the case |
| ChatFilter.KeyIsSoundExactly | internal/instance/chat_cache.go:183-190 | For ids without NULs, all who share a key ask the same query if and only if the filter's part of the key has no second place to cut it |
| ChatFilter.NulFreeIsUnambiguous | internal/instance/chat_cache.go:183-190 | A filter without NULs has no such place |
| ChatFilter.NulCollides | internal/instance/chat_cache.go:183-190 | Two filters with a NUL that share a key and accept different chats |
| ChatFilter.SpacedNulsAreHarmless | internal/instance/chat_media_types.go:99-119 | A filter all of whose NULs have a space beside them is safe: a cut there would leave text that is not trimmed |
| ChatFilter.SpacedNulIsUnambiguous | internal/instance/chat_media_types.go:99-119 | An example: with a space before its NUL a filter is safe, without it the same filter is not |
| ChatCache.CloneRecords | internal/instance/chat_cache.go:192-204 | The copy reads like the original, and shares neither list nor labels with it |
| ChatCache.Cache.constructor | internal/instance/chat_cache.go:56-73 | The defaults give a fresh time no longer than the stale time |
| ChatCache.Cache.Fresh | internal/instance/chat_cache.go:75-85 | Answers exactly when the list stored last is at most freshTTL old, with that list |
| ChatCache.Cache.Throttled | internal/instance/chat_cache.go:87-101 | Answers exactly when that list is at most staleTTL old and the key was tried live within the throttle time |
| ChatCache.Cache.BeginLiveAttempt | internal/instance/chat_cache.go:103-114 | Refuses only after a recent attempt, and always then while the key's list is servable |
| ChatCache.Cache.Stale | internal/instance/chat_cache.go:116-126 | Answers exactly when that list is at most staleTTL old |
| ChatCache.Cache.Store | internal/instance/chat_cache.go:128-144 | Keeps a copy as the latest list of the key, and returns another that shares nothing with it |
| ChatCache.Cache.CleanupExpired | internal/instance/chat_cache.go:174-181 | Removes exactly the entries that can no longer be served |
| ChatCache.SearchChats | internal/instance/service.go:1145-1216 | A list stored under the key that is at most freshTTL old is the answer, marked as cached; every answer is the list stored last under the key, live or young enough and marked as such, and unless the filter is ambiguous all its records match the asker's filter, whoever caused it to be stored; an error means a recent live attempt, or a dead bridge and nothing servable |
| ChatCache.AnswersAsker | internal/instance/runtime.go:680-712 | Since the bridge returns matching records only, a list under the key of an unambiguous filter answers every query that has the key |
| ChatCache.MutationIsHarmless | internal/instance/chat_cache.go:146-172 | After any sequence of writes into a list that shares nothing with the cache, into its labels, and into those of records put there, the next answer is still the stored list |
| Webhook.WebhookService.Dispatch | internal/webhook/service.go:221-273 | Skips an inbound event with a message id exactly when a delivery of it lies within the window at the time of a lookup that works; otherwise, unless the listing fails, each enabled endpoint gets exactly one POST, in order, the new rows are exactly those whose insert worked, and the results tell how each went; skipped or failed, it POSTs and inserts nothing |
| Webhook.SelectedExactly | internal/webhook/service.go:389-394 | An inbound event goes to the endpoints with the inbound flag, any other to those with the outbound flag, in the order of the list |
| Webhook.WebhookService.CheckDuplicate | internal/webhook/service.go:229-239 | The lookup finds a delivery exactly when one is at most the window old; a failed lookup counts as none |
| Webhook.DispatchesAreDeduplicated | internal/webhook/service.go:229-239 | Two dispatches of one inbound event that both created deliveries lie more than the window apart, unless the lookup of the later one failed |
| Webhook.WebhookService.Deliver | internal/webhook/service.go:275-326 | Exactly one POST, of the event to the endpoint, whatever the answer; then exactly one new row that tells of it, or none when the insert fails: delivered by a 2xx response, otherwise due after the backoff or, as the last attempt, failed |
| Webhook.FirstAttemptOk | internal/webhook/service.go:275-326 | The first row satisfies the row invariant, and its history has that one POST |
| Webhook.NextAttemptOk | internal/webhook/retry.go:65-112 | A recorded retry of a due row keeps both, including the sum of backoffs between first and last attempt |
| Webhook.LostAttemptOk | internal/webhook/retry.go:105-111 | A retry whose update is lost keeps the history |
| Webhook.WebhookService.ProcessDueRetries | internal/webhook/retry.go:49-63 | Up to a cancellation, each of the earliest due rows gets exactly one more POST, and no other row that was there changes, while dispatches go on |
| Webhook.WebhookService.RetryDelivery | internal/webhook/retry.go:65-112 | Exactly one more POST, of the row's event to its endpoint; the row has one more attempt and is delivered by a 2xx response, otherwise due after that attempt's backoff or failed; when the update fails it is unchanged with one more lost update; no other row changes |
| Webhook.WebhookService.ListDueRetries | internal/repository/gorm.go:938-947 | The rows that are retrying and due by then, by next_attempt_at; only the limit, 50 by default, leaves one out, and then one that is due no earlier |
| Webhook.WebhookService.HasRecentDelivery | internal/repository/gorm.go:926-936 | True exactly when such a row exists and the message id is not empty |
| Webhook.DeliveryBudget | internal/webhook/service.go:355-367 | Every stored delivery: POSTs = recorded attempts plus lost updates ≤ max + lost, all with the same body and event id; retrying ⇔ next attempt set ⇒ attempts < max; failed ⇒ attempts = max; delivered ⇔ time set; a failure within 30 attempts took at least the sum of the backoffs |
| WebhookBackoff.BackoffIsDoubling | internal/webhook/service.go:369-377 | The 64-bit shift gives min(30 s · 2^(n-1), 30 min) for attempts 1 to 29 and ten named later ones, and for no other |
| WebhookBackoff.ShiftMultiplies | internal/webhook/service.go:369-377 | Shifting multiplies as long as nothing overflows |
| WebhookBackoff.BackoffGrows | internal/webhook/service.go:369-377 | Up to attempt 29 the backoff is nondecreasing, at least 30 s and at most 30 min |
| WebhookBackoff.TotalsAgree | internal/webhook/service.go:369-377 | Up to 29 attempts the computed backoffs add up to the intended ones |
| SendStatus.TrackersAgree | pkg/sendstatus/registry.go:37-168 | Fed the same receipts, the registry reports "read", "delivered" or "sent" exactly when the recipient row has that status, and they agree on the read time |
| SendStatus.RegistryOrderIndependent | pkg/sendstatus/registry.go:114-168 | The registry's delivery status and read time do not depend on the order of receipts |
| SendStatus.MergeCommutes | pkg/sendstatus/registry.go:178-216 | A report without receipt fields may come before or after receipts, with the same outcome and no receipt lost |
| SendStatus.ReportsOutcome | pkg/sendstatus/registry.go:178-216 | After any number of reports a job has the status, error and instance of the last one, and of each other column the last value that was given at all |
| SendStatus.Registry.Store | pkg/sendstatus/registry.go:73-90 | A report for a known job is merged with it, and its message leads to it from then on |
| SendStatus.ReportReceiveReport | pkg/sendstatus/registry.go:73-168 | A report, any receipts for its message and a later report without receipt fields, stored one after the other: the loaded status is the merged reports with every receipt applied |
| SendStatus.Registry.MarkReceipt | pkg/sendstatus/registry.go:114-168 | Reaches exactly the job that the message leads to: "delivered" and "read", in any case and between spaces, set the delivery time, only "read" the read time, each keeping the latest; any other state changes nothing |
| SendStatus.KeyIsInjective | pkg/sendstatus/registry.go:170-176 | Keys are unambiguous when the first part holds no bar |
| SendStatus.KeyIsUniqueExactly | pkg/sendstatus/registry.go:170-176 | A key belongs to exactly one pair if and only if neither part holds a bar; among pairs without a bar in the first part, if and only if its own first part holds none |
| SendStatus.BarsCollide | pkg/sendstatus/registry.go:170-176 | Two pairs with bars that have the same key |
| EventLists.EventsRoundTrip | internal/instance/service.go:1649-1704 | Whatever was requested, stored and enabled, the list that is joined and stored is the list that is parsed back |
| EventLists.StoredListsRoundTrip | internal/instance/service.go:1684-1704 | So is every list of distinct, trimmed, upper-case values without commas |
| EventLists.StoredTextIsStable | internal/instance/service.go:1649-1682 | A later empty request with the connector disabled leaves the stored text as it is |
| EventLists.RequestedFirst | internal/instance/service.go:1649-1682 | Nothing asked for with the connector disabled leaves what is stored; an unsupported name is an error; names asked for replace what is stored; without any, what is stored stays, or else "MESSAGE" |
| EventLists.NormalizeRequestedEvents | internal/instance/service.go:1649-1682 | The loop with its seen map computes the normalised list or the error, by the rules of RequestedFirst |
| EventLists.ParseLegacyEvents | internal/instance/service.go:1684-1704 | The loop with its seen map computes the parsed list |
| EventLists.ParseIsExact | internal/instance/service.go:1684-1704 | What is read back holds each name between the commas once, trimmed and in capitals |
| EventLists.CollectIsStorable | internal/instance/service.go:1656-1674 | What is collected is distinct, non-blank, trimmed and upper-case |
| EventLists.CollectIsExact | internal/instance/service.go:1656-1674 | A list holds exactly the names of its parts, each once |
| EventLists.CollectKeepsOrder | internal/instance/service.go:1656-1674 | In the order in which they first appear |
| PhoneJid.FormattedIsStable | pkg/utils/utils.go:127-193 | Country formatting drops at most one digit and does nothing to its own result |
| PhoneJid.BrazilianNumbers | pkg/utils/utils.go:154-193 | Of 13 digits with country code 55 and an area code from 31 on, the digit after the area code is dropped exactly when it is 7 or more |
| PhoneJid.MexicanNumbers | pkg/utils/utils.go:127-146 | Of 13 digits with country code 52 the next one is dropped exactly when it is a 1 |
| PhoneJid.ArgentineNumbers | pkg/utils/utils.go:127-151 | Of 13 digits with country code 54 the next one is always dropped |
| PhoneJid.OtherNumbers | pkg/utils/utils.go:127-193 | All other numbers stay as they are |
| PhoneJid.MarkedIsKept | pkg/utils/utils.go:61-68 | A text that holds one of the five marks of a JID is returned as it is |
| PhoneJid.PunctuationIsIgnored | pkg/utils/utils.go:70-75 | Blanks, pluses and parentheses make no difference to the JID, wherever they stand |
| PhoneJid.ColonCuts | pkg/utils/utils.go:75 | Nor does what follows a colon |
| PhoneJid.LongIsGroup | pkg/utils/utils.go:77-124 | A text of digits and hyphens is a group from 18 characters on; a shorter one is a phone number, of which only the digits count, or an error if there is none |
| PhoneJid.PhoneJidIsStable | pkg/utils/utils.go:52-124 | Without a marker, a phone JID is a plus and 1 to 17 digits, at most one digit is dropped, and its user part gives the same JID |
| PhoneJid.SameQuery | pkg/utils/utils.go:600-644 | The raw number, its user part and its JID ask the same query |
| PhoneJid.PreparingIsIdempotent | pkg/utils/utils.go:600-644 | Preparing a prepared number changes nothing, for every input |
| PhoneJid.OthersAreAskedAsTheyAre | pkg/utils/utils.go:600-644 | A number that cannot be formatted and a JID that is not a user's are asked about as they came |
| PhoneJid.PrepareNumbersForWhatsAppCheck | pkg/utils/utils.go:600-644 | Prepares every number in order, or returns them as they are when formatting is off |

## Left out

Columns and inputs:

- Recipient columns contact_id, last_error, status_source, server_id, chat_jid and updated_at, and job columns worker_id,
  started_at, completed_at, failed_at and last_error: written, but read by nothing that is modelled.
- The order in which recipients are listed (created_at, phone): any order is allowed, so the guarantees hold for that one.
- Which errors isPermanentSendError recognises by their text: a failed send is permanent or not, arbitrarily.
- Waits: recipient pacing, the 15-minute timeout and the dispatch ticker are steps that may come at any time.
- A claim whose transaction is committed although its commit reports an error, and deletion of jobs.
- A save of a recipient row for a job that is not in the table: it counts as missed.
- Instance lookup and contact listing: arbitrary answers and arbitrary failures. SetMaxAttempts and Load are modelled, but say
  no more than their bodies.
- Text beyond ASCII, and with it Unicode case folding and spaces.
- Webhook envelope, signature, HTTP client and event type normalisation: body, event id and normalised type are inputs; the
  tenant's endpoints are a parameter.
- Chat record fields other than id, name, JID and labels, and the source and operator message of a search result.
- The difference between a nil slice and an empty one where only the listed labels matter.

Statements:

- BroadcastService.Service.HandleJob: does not say that a cancelled wait, a failed summary or a failed closing statement is made good, because the code leaves such a job in processing for good.
- BroadcastTermination.WorkIsBounded: bounds the steps of the workers, not the time that they wait.
- BroadcastTermination.NeverStuck: says that a step can be taken, not that the Go scheduler takes it.
- BroadcastGuarantees.GrantsAreSpaced: ends at a restart, because the limiter forgets its grants there.
- Webhook.WebhookService.ProcessDueRetries: interleaves whole dispatches between two retries, not parts of them, and has one retry goroutine, as the service starts.
- Webhook.DispatchesAreDeduplicated: says nothing about concurrent dispatches, because the lookup and the insert are separate statements there.
- ChatCache.Cache.BeginLiveAttempt: does not promise spaced live attempts, because a cleanup forgets attempts together with expired entries.
- WebhookBackoff.BackoffGrows: ends at attempt 29, because the shift overflows from there on.
- SendStatus.Registry.MarkReceipt: leaves out the receipt listeners that are called afterwards.

Parts of the repository:

- WhatsApp sessions, media upload and conversion, and the rest of `internal/instance/runtime.go`: foreign calls and waits.
- HTTP handlers, routing, authentication, configuration, message brokers, telemetry and seeds: input and output only.
- The licence code in `pkg/core`, which depends on a remote service.
- CRM, dashboard, tenants and audit listing: record keeping with no invariant that spans functions.
- The conversation message table: its receipts overwrite the status without any guard, so there is no order to prove.
- Postgres locking: each statement is one atomic step.
