# MailKeep: durable state that moves in small steps

MailKeep archives mail from IMAP servers and makes it searchable. This project models the
five parts of it that carry durable state from one small step to the next, and proves what
those steps keep whatever fails, crashes, races or repeats in between:

1. **Folder sync** (`SyncWorld`, `ImapSync`, `SyncSafety`, `SyncOvertaking`, `SyncCoverage`,
   `SyncLoss`, `SyncRecovery`, `SyncRollover`, `SyncProgress`, `SyncFolder`): UID windows, the
   persisted cursor, UIDVALIDITY rollover, the polling and idling tasks with their stale
   in-memory cursors, what each pass gets done, and exactly when mail is lost and for how long.
2. **Job queue** (`JobTable`, `JobRuns`, `JobDrain`, `WakeProtocol`, `WorkerPool`): optimistic
   claims, retry, terminal failure, startup reset, draining order, and the workers that park,
   wake and claim.
3. **Ingest** (`MailDb`, `IngestRuns`, `LocationRaces`, `IngestEffects`, `IngestService`): bytes
   before jobs, files before rows, and the recording transaction with its races, rollbacks and
   refusals.
4. **Search indexer** (`SearchIndex`, `IndexRuns`, `SearchIndexer`, `HtmlText`): the watermark,
   the version sidecar, the shared index writer, rebuilds, and HTML stripping.
5. **Query pipeline** (`QueryParser`, `QueryPlan`, `SearchPaging`): tokenizer and parser,
   scope, folder filter and residual query, Boolean compilation, windowed paging and the
   database fast path.

`Wrappers` and `Strings` hold the shared option, result and string functions.

## How the model is built

What a step does is a function on values; what the program executes is a method, on a class
where the source changes an object's fields, proved equal to that function; and the promises
are lemmas about every run of the functions. Whatever the program does not decide is
quantified over: the sync and the index writer read scripts of faults and of other parties'
moves (a sync script that has run out is a crash), ingest and wake-up are state machines whose
acts interleave freely, and `health` in `IngestService` is the number of operations that still
succeed before the infrastructure fails. Stemming, case folding, MIME parsing, body extraction
and date syntax are unknown functions, so the theorems hold for all of them.

Assumptions, each of them stated in the files where it is used:

- The mail server obeys section 2.3.1.1 of RFC 3501, and a completed FETCH answers for
  every body of its window.
- Equal content hashes mean equal bytes. Generated row ids may collide while a row exists
  (the model follows the error path), but a message id is not given out again after its row
  is gone.
- The clock read by the workers does not run backwards. Attempt and version counters do not
  overflow.
- A statement of a transaction sees committed rows and its own; an insert that clashes with
  an uncommitted one waits, and one that is refused leaves the transaction usable, as the
  fallback in `record_parsed_message` presumes. An update fails when its row is gone.
- A parse job may be executed more than once, and by two workers at a time: its claim can be
  reset while an execution is under way, and a commit can go unrecorded.
- The index library commits atomically, forgets uncommitted operations in a crash, keeps
  them after an error, and a delete removes what was added before it.

## Findings

- **A message can be lost without UIDNEXT, and only then.** When SELECT advertises no UIDNEXT,
  mail delivered with a UID inside a window already scanned is passed over by the checkpoint
  of the next window. From every safe state and every cursor a task may hold, some pass
  without UIDNEXT loses a message and no pass with it does (`SyncLoss.LosslessExactlyWithUidNext`);
  the same holds of whole lives (`SyncRecovery.LivesAreLosslessExactlyWithUidNext`). A restart
  does not bring the message back (`SyncRecovery.LossOutlastsEveryRestart`), while a task that
  still starts from an older cursor does: the loss lasts exactly when the cursor a task starts
  from is past the message (`SyncRecovery.LossLastsExactlyFromPastIt`).
- **The rollover comment gives a wrong reason for a right order.** With the two calls of
  `handle_uidvalidity_change` exchanged, a crash in between does leave messages at or below
  the cursor without any location (`SyncRollover.SwappedRolloverIsUnsafe`). They would not be
  skipped by the next pass, as `crates/imap/src/sync.rs:470-473` says: the stored UIDVALIDITY
  is still the old one, so the next SELECT detects the rollover again, and a pass that then
  succeeds has started from zero (`SyncRollover.SwappedRolloverIsHandledAgain`).
- **A refused location fails a job for good.** The location is looked up and then inserted or
  updated; the insert is refused when a racing execution came first, the update when the
  folder's locations were dropped in between. Neither error is transient. Some run refuses
  the update exactly when drops of that folder are among what happens, and the insert exactly
  then or when another job puts the same message in another folder
  (`LocationRaces.RefusedExactlyWhenExposed`). After a refused insert the archive already shows
  the message in that folder (`LocationRaces.LosersAreArchived`); after a refused update it can
  be missing there (`LocationRaces.DroppedUnderTheWorker`). Once the failure is recorded the job
  never runs again (`LocationRaces.LosersFailForGood`).
- **The folder listing is scoped by user only.** `account:x !folder:y` lists messages of the
  user's other accounts (`SearchPaging.FastPathCanLeaveTheScope`); the exact condition under
  which listing and search agree is `SearchPaging.FastPathIsGeneralPath`.
- **The last calendar day has no successor.** `date:` and `after:` that day do not mean what
  their comment says for messages of that day; among dates the index can represent these are
  the only exceptions (`QueryPlan.DateQueryMeans`).
- **A wiped index needs a version bump.** `open_or_create` calls the wipe always safe. It
  removes files one by one; if a crash spares the sidecar, the watermark stays honest exactly
  when the sidecar was stale or no row that is marked had its document
  (`IndexRuns.WipeNeedsAVersionBump`), and without the bump a run ends with a row marked indexed,
  a current sidecar and an empty index (`IndexRuns.UnbumpedWipeForgetsMail`).

## Model

| member | source | states |
|---|---|---|
| SyncSafety.EveryLifeIsSafe | crates/imap/src/sync.rs:100-495 | In every sequence of process lifetimes, polling or idling, with an error or crash after any step, every served message of the cursor's epoch at or below the persisted cursor has been ingested and has a location, a live job or a failed one, unless a checkpoint moved the cursor past it and it has not been ingested since |
| SyncSafety.PassKeeps | crates/imap/src/sync.rs:323-459 | One pass from any cursor the process may remember keeps that, at every point where it can stop |
| SyncSafety.SyncKeeps | crates/imap/src/sync.rs:323-459 | A whole pass keeps the persisted state safe and returns a cursor that may be remembered |
| SyncSafety.HandleChangeKeeps | crates/imap/src/sync.rs:478-495 | The rollover keeps it in every outcome, because the cursor is reset before locations are dropped |
| SyncSafety.PollKeeps | crates/imap/src/sync.rs:100-183 | Passes that all start from the cursor read at task start keep it, although that cursor goes stale |
| SyncSafety.ConnectionKeeps | crates/imap/src/sync.rs:236-299 | Passes of one connection, each from the previous one's result, keep it |
| SyncSafety.IdleKeeps | crates/imap/src/sync.rs:200-316 | Connections that each restart from the folder as first read keep it |
| SyncSafety.IngestRawKeeps | crates/core/src/ingest/service.rs:35-52 | Handing over one body never leaves a job without its bytes, and counts the message as given only once its job exists |
| SyncCoverage.WindowsPartition | crates/imap/src/sync.rs:380-439 | The windows fetched so far tile the interval from the start without gap or overlap, under saturating 32-bit arithmetic, and the loop ends |
| SyncCoverage.PartitionCovers | crates/imap/src/sync.rs:380-384 | Every UID of a tiled interval lies in a window |
| SyncCoverage.PartitionOnce | crates/imap/src/sync.rs:380-384 | and in only one |
| SyncCoverage.AdvertisedPassIsComplete | crates/imap/src/sync.rs:360-439 | With UIDNEXT, a pass that returns Ok has fetched exactly the UIDs between its start and UIDNEXT, and every served message there has been ingested, without exception |
| SyncCoverage.OpenPassIsCompleteToFirstEmptyWindow | crates/imap/src/sync.rs:360-439 | Without it, a pass that returns Ok has ingested everything from its start to the end of the first window that yielded nothing, or of the UID space, save what was delivered behind it |
| SyncOvertaking.ShieldedPassOvertakesNothing | crates/imap/src/sync.rs:348-439 | A pass with UIDNEXT, or during which no mail is delivered, leaves nothing behind its scan |
| SyncOvertaking.LifeOvertakesNothing | crates/imap/src/sync.rs:100-316 | So does every life made of such passes |
| SyncOvertaking.NothingBelowTheCursorIsLost | crates/imap/src/sync.rs:348-439 | In such a life every served message at or below the cursor has been ingested and is tracked, with no exception |
| SyncLoss.LostIsOvertaken | crates/imap/src/sync.rs:420-439 | In a safe state the served messages below the cursor that were never ingested are exactly those a checkpoint passed over |
| SyncLoss.UnshieldedPassLosesMail | crates/imap/src/sync.rs:357-439 | From every safe state and remembered cursor, a run of one pass without UIDNEXT that returns Ok and loses a delivered message below its cursor |
| SyncLoss.LosslessExactlyWithUidNext | crates/imap/src/sync.rs:357-439 | From every safe state and remembered cursor: passes that do, or do not, see UIDNEXT lose nothing under any script if and only if they do |
| SyncRecovery.PassFromAboveMisses | crates/imap/src/sync.rs:323-459 | A pass that starts past a message never ingests it and leaves the persisted cursor past it |
| SyncRecovery.LossOutlastsEveryRestart | crates/imap/src/sync.rs:100-316 | A message below the persisted cursor that was not ingested never is, in any sequence of later lives |
| SyncRecovery.EarlierStartRecovers | crates/imap/src/sync.rs:100-183 | A polling task whose start-time cursor is not past the message ingests it with one good pass that sees UIDNEXT, and keeps it |
| SyncRecovery.LossLastsExactlyFromPastIt | crates/imap/src/sync.rs:100-183 | A message not ingested and still there stays so in every run of a polling task if and only if the task's start-time cursor is past it |
| SyncRecovery.CalmPass | crates/imap/src/sync.rs:323-459 | From every safe state and remembered cursor some pass that sees UIDNEXT succeeds |
| SyncRecovery.MailIsLostForEver | crates/imap/src/sync.rs:357-439 | The losing pass, followed by any lives whatever, leaves its message never ingested |
| SyncRecovery.LivesAreLosslessExactlyWithUidNext | crates/imap/src/sync.rs:100-316 | Lives whose passes all do, or all do not, see UIDNEXT never lose a message below the persisted cursor if and only if they do |
| SyncRollover.SwappedRolloverIsUnsafe | crates/imap/src/sync.rs:462-495 | Exchanging the rollover's two calls reaches an unsafe state from a safe one, from which the source's order reaches none |
| SyncRollover.SwappedRolloverIsHandledAgain | crates/imap/src/sync.rs:462-495 | Wherever the exchanged rollover stops, the next pass that succeeds has started from zero and ends safe |
| SyncProgress.ConnectionGoesOn | crates/imap/src/sync.rs:236-299 | A connection goes on from every pass that succeeds, with the cursor it returned, and ends with the first that fails |
| SyncProgress.ConnectionFetchesOn | crates/imap/src/sync.rs:236-299 | When a connection's earlier passes have succeeded, a later good pass that sees UIDNEXT ingests every served message above the cursor the pass before it returned |
| SyncProgress.PollGoesOn | crates/imap/src/sync.rs:100-183 | Polling does one pass after another from the same cursor, whatever became of the ones before |
| SyncProgress.LaterPollRecovers | crates/imap/src/sync.rs:100-183 | Any good pass of a polling task, early or late, ingests a message its first cursor is not past |
| SyncProgress.IdleGoesOn | crates/imap/src/sync.rs:200-316 | Idling makes one connection after another, each from the folder as first read |
| SyncProgress.PassBeginsAboveItsCursor | crates/imap/src/sync.rs:354-384 | A pass in the epoch of its cursor asks first for the UID just above it |
| SyncProgress.PassStoresItsHighestUid | crates/imap/src/sync.rs:402-458 | A pass that succeeds stores and returns the highest UID it ingested; wherever a pass stops, all it ingested is at or below the stored cursor or in the one window it was in |
| SyncProgress.BodilessItemsArePassedOver | crates/imap/src/sync.rs:402-406 | Items without a UID or a body change nothing and fail nothing |
| SyncFolder.Folder.SyncFolder | crates/imap/src/sync.rs:323-459 | The pass as executed, changing the folder in place, ends in the state and result of the specified pass |
| SyncFolder.Folder.ScanWindows | crates/imap/src/sync.rs:354-458 | The window loop as executed ends where the specified windows end, after the same fetches and checkpoints |
| SyncFolder.Folder.FetchWindow | crates/imap/src/sync.rs:380-427 | One window: the fetch, what it yields, and a checkpoint only if it yielded something |
| SyncFolder.Folder.IngestStream | crates/imap/src/sync.rs:402-421 | The fetched items, in whatever order they arrive, leave the specified high mark, jobs and bytes |
| SyncFolder.Folder.HandleUidvalidityChange | crates/imap/src/sync.rs:478-495 | The rollover as executed: the cursor is reset first, and locations go only if that succeeded |
| SyncFolder.Folder.PollTask | crates/imap/src/sync.rs:100-183 | The polling loop as executed, for one folder: every pass from the cursor read at the start |
| SyncFolder.Folder.RunConnection | crates/imap/src/sync.rs:236-299 | One idling connection as executed is the specified one: each pass from the result of the last, until one fails |
| SyncFolder.Folder.IdleTask | crates/imap/src/sync.rs:200-316 | The idling task as executed: every connection from the folder as first read |
| SyncFolder.BackoffIsTheDocumentedCurve | crates/imap/src/sync.rs:76-87 | The delay is min(5s · 2^(n-1), 300s) for every failure count, as documented |
| SyncFolder.BackoffDoubles | crates/imap/src/sync.rs:76-87 | The delay is 5 s at first, doubles with each failure and stays at 300 s |
| JobTable.JobQueue.EnqueueAt | crates/database/src/adapters/jobs.rs:24-58 | A new pending row under a fresh id with no attempts, three to make, and version 0; the handle returned is that row |
| JobTable.JobQueue.SelectCandidate | crates/database/src/adapters/jobs.rs:66-84 | The ready row that precedes every other by priority, then schedule, then id; nothing only if nothing is ready |
| JobTable.JobQueue.ClaimNextJob | crates/database/src/adapters/jobs.rs:61-113 | The claim loop as executed, raced by any statements of others between its own, ends as specified |
| JobTable.JobQueue.CompleteJob | crates/database/src/adapters/jobs.rs:115-144 | Takes effect exactly when the handle's version is still the row's: the row is then Completed now under the next version, and all else is unchanged |
| JobTable.JobQueue.FailJob | crates/database/src/adapters/jobs.rs:146-202 | The same, leaving the row Pending for later with its error while the handle has attempts left, and Failed now otherwise |
| JobTable.JobQueue.FailJobTerminally | crates/database/src/adapters/jobs.rs:204-234 | The same, leaving the row Failed now with its error, whatever attempts remain |
| JobTable.JobQueue.ResetRunningToPending | crates/database/src/adapters/jobs.rs:236-250 | Every running row becomes pending again, and their number is returned |
| JobTable.JobQueue.DeleteOldJobs | crates/database/src/adapters/jobs.rs:277-290 | Exactly the finished rows older than the cutoff go |
| JobTable.BestIsUnique | crates/database/src/adapters/jobs.rs:66-84 | The claim order leaves no ties |
| JobRuns.RunKeepsInv | crates/database/src/adapters/jobs.rs:61-290 | Every interleaving of claims, finishes, restarts and cleanups keeps rows, handles and history consistent |
| JobRuns.HandleMatchesOnlyItsClaim | crates/database/src/adapters/jobs.rs:86-135 | After any run a handle passes the version test if and only if its row is still that very Running claim, although no finish tests the status |
| JobRuns.OneFinishPerClaim | crates/database/src/adapters/jobs.rs:115-234 | At most one finish per claim takes effect, and handles of one job are told apart by their attempts |
| JobRuns.StaleHandlesStayStale | crates/database/src/adapters/jobs.rs:115-234 | A handle that has stopped matching never matches again, and finishing with it changes nothing |
| JobRuns.TerminalRowsNeverChange | crates/database/src/adapters/jobs.rs:115-250 | A Completed or Failed row stays as it is until cleanup deletes it |
| JobRuns.AttemptsAreCounted | crates/database/src/adapters/jobs.rs:86-108 | A job's attempts are its claims, and exceed the maximum by at most the startup resets that hit it |
| JobRuns.RetryDelay | crates/database/src/adapters/jobs.rs:146-193 | In every reachable state a retry is scheduled 60 s after the first attempt and 120 s after the second |
| JobRuns.BackoffNeverOverflows | crates/database/src/adapters/jobs.rs:146-182 | The delay is 30 · 2^min(attempt, 20) seconds and fits 64 bits for every attempt count |
| JobRuns.ClaimNextIsOneClaim | crates/database/src/adapters/jobs.rs:61-113 | However it is raced, `claim_next` is one claim among others' statements, of a row that was the first ready one when selected and still pending under its version when updated; or it is nothing but others' statements |
| JobRuns.PayloadNeverChanges | crates/database/src/adapters/jobs.rs:61-290 | No operation ever changes what a job is for, how urgent it is or how often it may be tried |
| JobRuns.RowsTellTheLastStatement | crates/database/src/adapters/jobs.rs:24-250 | After any run a row is Completed if and only if the last statement that touched it was a `complete`, Running if and only if a claim, Failed if and only if a failure without attempts left or a terminal one, with the time, schedule and error that statement gave |
| JobRuns.GivesUpOnlyAfterLosing | crates/database/src/adapters/jobs.rs:61-113 | A claim comes back empty only when a try finds nothing ready or every try has lost its race |
| JobDrain.DrainClaimsEachReadyJobInOrder | crates/core/src/jobs/worker.rs:61-165 | Draining at a fixed time claims every ready job once, in the claim order, leaves it Completed, Failed, Pending for later or Running as its outcome says, and leaves every other row alone |
| JobDrain.ClaimNextAlone | crates/database/src/adapters/jobs.rs:61-113 | Unraced, a claim takes the first ready job and fails only when there is none |
| JobDrain.WorkOne | crates/core/src/jobs/worker.rs:61-165 | One turn of the worker loop, as executed |
| JobDrain.DrainReady | crates/core/src/jobs/worker.rs:45-165 | The worker loop as executed at a fixed time ends as the specified drain |
| WakeProtocol.RunKeepsInv | crates/core/src/jobs/worker.rs:53-94 | Every interleaving of any number of workers and enqueuers keeps what an unwoken worker relies on |
| WakeProtocol.NoLostWakeup | crates/core/src/jobs/service.rs:120-132 | While a worker is parked and unwoken, an untouched job enqueued to run at once is one whose enqueuer has committed and not yet notified |
| WakeProtocol.ArmingLateLosesAWakeup | crates/core/src/jobs/worker.rs:53-59 | Subscribing after the claim instead has a run that parks a worker beside a ready, announced job |
| WorkerPool.AnnouncedJobIsClaimed | crates/core/src/jobs/service.rs:120-132 | With nothing else ready, a new job's notification wakes a parked worker, and that worker's next look claims the job |
| WorkerPool.NotifyWakesAll | crates/core/src/jobs/worker.rs:53-59 | A notification reaches every worker that has subscribed, parked or on its way there, and touches no row |
| WorkerPool.ResumedWorkerClaims | crates/core/src/jobs/worker.rs:53-94 | A parked worker that resumes, woken or timed out, claims the first ready job if there is one |
| WorkerPool.EmptyHandedWorkerParks | crates/core/src/jobs/worker.rs:53-94 | A worker that finds nothing ready parks with the subscription it took before it looked |
| WorkerPool.FinishingFreesTheWorker | crates/core/src/jobs/worker.rs:100-165 | A worker that finishes is idle again, and its job is Completed, Failed or Pending by the outcome if the handle is still good, and untouched otherwise |
| WorkerPool.PoolRunsTheQueue | crates/core/src/jobs/worker.rs:45-165 | Whatever any number of workers and enqueuers do, the table is one that a permitted run of the queue leaves, so the queue's promises hold of it |
| WorkerPool.PoolKeepsTheQueuesPromises | crates/core/src/jobs/worker.rs:45-165 | In every run of the pool a worker's handle passes the version test if and only if its row is still the very claim it came from |
| MailDb.CommitKeepsValid | crates/core/src/message/service.rs:69-147 | A commit keeps messages unique by account and hash and every row faithful to its bytes, and adds exactly the job's key |
| MailDb.ValidViewIsIdeal | crates/core/src/message/service.rs:69-147 | With row ids left out, valid tables are a function of the set of jobs whose keys they hold |
| IngestRuns.StepKeepsInv | crates/core/src/message/service.rs:69-147 | Each statement of any worker, each upload step and each dropped folder keeps tables, uncommitted rows and storage consistent |
| IngestRuns.ArchiveIsItsJobs | crates/core/src/message/service.rs:69-147 | In every run, with races, rollbacks, crashes and replays, messages and attachments are exactly those of the jobs that committed, and so are the (message, folder) pairs until a folder is dropped |
| IngestRuns.ExactlyOnceInEffect | crates/parser/src/handler.rs:40-94 | Two runs in which the same jobs committed at least once show the same archive, whatever their order, number and interleaving |
| IngestRuns.BytesComeFirst | crates/core/src/ingest/service.rs:35-52 | In every run, uploads, jobs, messages and attachments refer only to stored bytes |
| IngestRuns.AttachmentsAreCounted | crates/core/src/message/service.rs:96-97 | In every run, `has_attachments` if and only if there are attachment rows, one for each attachment of the message; `attachment_count` is their number if and only if it fits 32 bits |
| IngestRuns.RowsSayWhatTheBytesSay | crates/core/src/message/service.rs:76-117 | In every run, message and attachment rows repeat, field by field and in order, what the message's own stored bytes parse to, and the attachments' bytes are stored |
| LocationRaces.RefusedExactlyWhenExposed | crates/database/src/adapters/message_location.rs:67-110 | For any set of jobs executed and of folders dropped: some run from a start refuses a location's update if and only if its folder is dropped, and its insert if and only if that or a job puts the same message in another folder |
| LocationRaces.LosersAreArchived | crates/database/src/adapters/message_location.rs:67-110 | A refused write changes no row; its message is in the archive, its bytes are stored and parse, and after a refused insert it is in the folder |
| LocationRaces.DroppedUnderTheWorker | crates/database/src/adapters/message_location.rs:81-90 | A run that drops a folder's locations between lookup and update, so that the update is refused and the folder lacks the message |
| LocationRaces.LosersFailForGood | crates/core/src/jobs/worker.rs:133-165 | Once the failure is recorded, a job that no other execution holds or has committed is never done in any continuation |
| IngestEffects.FolderShowsWhatWasPutThere | crates/core/src/message/service.rs:133-156 | After any run a folder shows a message if and only if a commit put it there after the last drop of the folder's locations |
| IngestEffects.LocationsSayWhatTheirJobsSay | crates/database/src/adapters/message_location.rs:67-110 | In every run a location's UID, UIDVALIDITY and flags are those of a committed job of its message and folder |
| IngestEffects.CreationLoserTakesTheWinnersRow | crates/core/src/message/service.rs:118-131 | A refused insert of a message ends on the row that was committed first, or in failure when only the row id was taken |
| IngestEffects.RollbackLeavesNothing | crates/core/src/message/service.rs:69-147 | A crash or an error in a transaction leaves nothing of it |
| IngestEffects.FetchDecides | crates/parser/src/handler.rs:40-48 | A job whose bytes are missing or do not parse fails at once, and any other goes on to store its files |
| IngestRuns.LoneTransactionCommits | crates/core/src/message/service.rs:69-147 | A transaction that runs alone ends with its job done, exactly its rows committed and nothing else changed |
| IngestService.Archive.IngestRaw | crates/core/src/ingest/service.rs:35-52 | An error leaves bytes without a job, never a job without bytes |
| IngestService.Archive.RecordParsedMessage | crates/core/src/message/service.rs:59-148 | Ok leaves exactly the job's rows on top of what others committed meanwhile, created if and only if no row has its key; an error leaves only theirs; success, and each error that is not transient, is characterised by the operations that succeed, a rival's row and what happens to the location |
| IngestService.Archive.CreateOrRefetch | crates/core/src/message/service.rs:99-131 | A refused insert falls back to the winner's row, or to a conflict when only the id was taken |
| IngestService.Archive.CreateMany | crates/database/src/adapters/message_attachment.rs:48-79 | One row per attachment, in order, or an error at the first statement that fails |
| IngestService.Archive.Upsert | crates/database/src/adapters/message_location.rs:67-110 | The location ends with the job's values on top of what others did to the table between lookup and write, unless they inserted it first or dropped the row found, which are errors of their own |
| IngestService.Archive.StoreAttachments | crates/parser/src/handler.rs:50-62 | The files stored are a prefix of the message's, all of them unless storage fails |
| IngestService.Archive.Handle | crates/parser/src/handler.rs:40-94 | Success means the bytes were there, parsed, their files stored and their rows committed; missing bytes and unparseable ones fail as such, location errors only when others meddled, and any failure leaves the tables as others left them |
| SearchIndex.FirstWithLeast | crates/database/src/adapters/message.rs:280-294 | Taking the least id again and again yields the smallest ids in order, none skipped |
| SearchIndex.StageIsSound | crates/search/src/indexer.rs:217-227 | However far a batch gets, no message id has two documents |
| SearchIndex.StageHolds | crates/search/src/indexer.rs:217-227 | A batch written in full is in the index, whatever was there before |
| SearchIndex.StageFrame | crates/search/src/indexer.rs:217-227 | Writing a batch touches no other message's documents |
| IndexRuns.StepKeepsInv | crates/search/src/indexer.rs:94-227 | Every step of the indexer, of mail arriving, of an account being deleted and of a crash, and every wipe after a version bump, keeps index, watermark and sidecar consistent |
| IndexRuns.IndexAgreesWithWatermark | crates/search/src/schema.rs:3-20 | In every run in which a schema change bumps the version, no message id has two documents, and while the sidecar is current every row marked indexed has exactly one, its own, unless it was a poison pill |
| IndexRuns.IndexedMeansSearchable | crates/search/src/indexer.rs:121-184 | Where no stored bytes are lost and all mail parses, there are no poison pills among the rows |
| IndexRuns.WipeNeedsAVersionBump | crates/search/src/index.rs:95-118 | The step that wipes the index keeps the invariant if and only if the sidecar goes too, or was stale, or every row marked indexed is a poison pill |
| IndexRuns.UnbumpedWipeForgetsMail | crates/search/src/index.rs:95-118 | From every start, a run with an unbumped wipe that ends with a row marked indexed, a current sidecar and an empty index |
| IndexRuns.DeletedAccountsStayEmpty | crates/search/src/indexer.rs:94-227 | In every run no row of an account exists from its deletion on |
| IndexRuns.DroppedDocsAreGone | crates/search/src/service.rs:486-500 | Deleting an account's documents removes all of them and no other |
| IndexRuns.RowsGoWithTheirAccount | crates/search/src/indexer.rs:94-227 | No step but the deletion of its account removes a message's row or changes its account or content, and none brings one back |
| SearchIndexer.Indexer.ReconcileOnStartup | crates/search/src/indexer.rs:94-113 | The sidecar becomes current only with an empty index and every row queued again; any failure leaves it stale |
| SearchIndexer.Indexer.WriteBatch | crates/search/src/indexer.rs:217-227 | Commits all documents or none; what an error leaves uncommitted is a prefix of the batch's operations |
| SearchIndexer.Indexer.ListUnindexed | crates/database/src/adapters/message.rs:280-294 | The pending rows with the smallest ids, at most 128 |
| SearchIndexer.Indexer.DrainOnce | crates/search/src/indexer.rs:121-184 | A pass that succeeds marks exactly its batch, poison pills included, after committing exactly its usable documents; one that fails marks nothing |
| SearchIndexer.Indexer.DrainToEmpty | crates/search/src/indexer.rs:188-200 | Terminates, and ends with nothing pending unless a pass failed |
| SearchIndexer.Indexer.ReindexToIdle | crates/search/src/indexer.rs:233-237 | From any index and any watermarks with a stale sidecar, and without faults, terminates with exactly the index built from the rows |
| SearchIndexer.PassShrinksBacklog | crates/search/src/indexer.rs:121-184 | Each pass takes min(128, n) off a backlog of n |
| SearchIndexer.PassKeepsServes | crates/search/src/indexer.rs:121-184 | A pass extends what the index serves by exactly the batch it marks |
| SearchIndexer.ServedBacklogFreeIsBuilt | crates/search/src/indexer.rs:233-237 | With nothing pending, the index is the map from rows with stored, parseable bytes to their documents |
| HtmlText.IndexHtmlToText | crates/search/src/indexer.rs:299-331 | The scan as executed terminates with the specified text |
| HtmlText.SnippetHtmlToText | crates/parser/src/parse.rs:180-192 | The two-state loop as executed yields the specified text |
| HtmlText.IndexTextOnlyDrops | crates/search/src/indexer.rs:299-331 | The text is a subsequence of the markup and holds no tag opener |
| HtmlText.IndexTextIsIdempotent | crates/search/src/indexer.rs:299-331 | Stripping stripped text changes nothing |
| HtmlText.TagsDropOut | crates/search/src/indexer.rs:299-331 | A complete tag, or a complete script or style element with its content, drops out and the text around it stays |
| HtmlText.OrdinaryTagsDropOut | crates/search/src/indexer.rs:308-327 | Any tag that begins neither a script nor a style element, in any case, drops out alone, and what follows it is text |
| HtmlText.UnfinishedTagDropsTheRest | crates/search/src/indexer.rs:322-327 | A tag that never ends takes the rest with it |
| HtmlText.UnclosedElementDropsTheRest | crates/search/src/indexer.rs:308-321 | So does a script or style element that is never closed |
| HtmlText.UnfinishedClosingTagDropsTheRest | crates/search/src/indexer.rs:315-321 | and one whose closing tag has no bracket |
| HtmlText.RawElementsDropOut | crates/search/src/indexer.rs:309-321 | A script or style element in any case drops out from its opening tag to the first bracket of its first closing tag |
| HtmlText.PassesAgree | crates/parser/src/parse.rs:180-192 | On markup in which nothing reads `<script` or `<style` in any case, the two passes agree up to stray closing brackets |
| QueryParser.Tokenize | crates/core/src/search/query.rs:88-123 | The character loop as executed yields the specified tokens |
| QueryParser.TokensKeepTheText | crates/core/src/search/query.rs:82-123 | Tokens hold no quotes, and together are the input less its quotes and unquoted whitespace |
| QueryParser.WhitespaceSeparates | crates/core/src/search/query.rs:88-123 | Whitespace outside quotes separates: what stands on either side is tokenized on its own |
| QueryParser.WordIsOneToken | crates/core/src/search/query.rs:88-123 | A run without quotes and whitespace is one token |
| QueryParser.QuotesJoin | crates/core/src/search/query.rs:88-123 | A quoted part, even an empty one, joins what it touches into one token |
| QueryParser.HintsReadAsNamed | crates/core/src/search/query.rs:144-192 | Each field name with a value reads as its own hint; the values of the two flags in any case |
| QueryParser.DatesReadAsNamed | crates/core/src/search/query.rs:144-192 | So do the three date bounds, or as a bare word where the date does not parse |
| QueryParser.OthersReadAsBare | crates/core/src/search/query.rs:144-192 | No field, an unknown one or a missing value reads as a bare word |
| QueryParser.TermReadsBack | crates/core/src/search/query.rs:144-192 | A printable term, hint or bare, prints as text that parses to it again |
| QueryParser.TokenReadsBack | crates/core/src/search/query.rs:127-192 | and so does a printable clause, negation included |
| QueryParser.ReadClauseIsPrintable | crates/core/src/search/query.rs:127-192 | Every clause read from a token is printable: bare terms never read as hints, values are not empty, dates are valid |
| QueryParser.PrintedClauseIsOneToken | crates/core/src/search/query.rs:88-123 | A clause printed with its value quoted reads as one token |
| QueryParser.PrintingIsFaithful | crates/core/src/search/query.rs:77-192 | A query survives being printed and parsed if and only if each of its clauses is printable |
| QueryParser.ParsePrintsBack | crates/core/src/search/query.rs:77-192 | For every input, printing what was parsed with every value quoted parses to the same query |
| QueryParser.StrictDatesAreLawful | crates/core/src/search/query.rs:195-197 | Strict YYYY-MM-DD dates satisfy the law the round trip asks of date syntax |
| QueryPlan.SplitClauses | crates/search/src/service.rs:238-250 | The split as executed yields the specified hints and residue |
| QueryPlan.SplitKeepsMeaning | crates/search/src/service.rs:238-250 | All clauses hold for a message if and only if its account hints, its folder hints and the residue do |
| QueryPlan.NamedIsTheLast | crates/search/src/service.rs:255-262 | A name stands for the last listed account whose display name folds to the same, and for none if there is none |
| QueryPlan.ResolveScope | crates/search/src/service.rs:255-280 | The scope is exactly the owned accounts that every hint allows, in whatever order the hints come |
| QueryPlan.TextQueryMeans | crates/search/src/service.rs:132-142 | The query for a value matches where its tokens stand side by side, and nowhere when it has none |
| QueryPlan.BareQueryMeans | crates/search/src/service.rs:149-154 | A bare term matches in the subject or in the body |
| QueryPlan.DateQueryMeans | crates/search/src/service.rs:205-225 | A range means its day bound, except exactly for `date:` and `after:` the last day on messages of that day |
| QueryPlan.BoundsPartitionTime | crates/search/src/service.rs:205-225 | Every dated message satisfies exactly one of before, on and after |
| QueryPlan.BuildQueryMeans | crates/search/src/service.rs:158-203 | The compiled query matches exactly the messages in scope that meet every residual clause, negations included |
| QueryPlan.FolderMatchesMeans | crates/search/src/service.rs:314-322 | A folder hint resolves a folder if and only if the folded name occurs in its folded path or display name |
| QueryPlan.ScopedFoldersSuffice | crates/search/src/service.rs:303-325 | Resolving folder names inside the scope only loses nothing for messages in the scope |
| QueryPlan.SearchMeansItsClauses | crates/search/src/service.rs:156-330 | A message survives the scoped query and the folder post-filter if and only if the user owns it and every clause holds for it, read naively |
| SearchPaging.Keep | crates/search/src/service.rs:450-480 | The filter loop keeps exactly the ids that pass every constraint |
| SearchPaging.GeneralPath | crates/search/src/service.rs:387-483 | The search as executed yields the full count, and of the survivors of a window that is everything, 10000 hits, or the page's end (tenfold when folders filter), those from the offset on, up to the limit |
| SearchPaging.WindowedPageIsPrefix | crates/search/src/service.rs:387-412 | The page is always a prefix of the exact page, equal to it if and only if the window holds every survivor or enough, or the page is empty; the total never falls short |
| SearchPaging.UnconstrainedPageIsExact | crates/search/src/service.rs:387-394 | Without folder hints every page that ends within the cap is exact |
| SearchPaging.FetchIsTheWindow | crates/search/src/service.rs:387-394 | The window is offset plus limit, tenfold under folder hints, between 1 and 10000; saturation never shows |
| SearchPaging.FastPath | crates/search/src/service.rs:345-380 | The listing as executed yields the count of the user's messages that pass the constraints, and those from the offset on, up to the limit |
| SearchPaging.ListIsSurvivors | crates/database/src/adapters/message.rs:221-278 | Listing by required groups and excluded folders is filtering by the constraints they came from |
| SearchPaging.FastPathIsGeneralPath | crates/search/src/service.rs:345-380 | Listing and search give the same messages if and only if some folder hint is positive or the scope leaves out none of the user's messages |
| SearchPaging.FastPathCanLeaveTheScope | crates/search/src/service.rs:352-380 | A query and a message it lists although the query excludes the message's account |
| SearchPaging.ExactAnswerIsWhatIsWanted | crates/search/src/service.rs:284-380 | The exact answer holds every message wanted and nothing else, but for a query by negated folders only, which adds the user's own messages outside its scope |
| SearchPaging.ExactAnswerIsInOrder | crates/search/src/service.rs:387-412 | The exact answer lists its messages in listing order, each once |
| SearchPaging.GeneralPathIsExact | crates/search/src/service.rs:381-484 | Index query and folder filter, without a window, yield the exact answer in order |
| SearchPaging.FastPathIsExact | crates/search/src/service.rs:340-380 | and so does the listing |
| SearchPaging.Search | crates/search/src/service.rs:284-484 | Hit `k` of a page is entry offset plus `k` of the exact answer, and none is missing up to the limit for a listing, for a query without folder hints within the cap, and whenever the window holds the whole total; the total never falls short, and is exact but for filtered searches |

## Left out

- Network plumbing: TLS, LOGIN, IDLE transport, LIST and attribute mapping. SELECT and FETCH are an abstract server.
- SyncFolder.Folder.PollTask: one folder, without the round over several, the skipping of folders that are gone, status counters and the waits between passes.
- The sync time that `record_sync_progress` also writes, and session counters.
- SQL text, error-code mapping and migrations. A table is a map, and a statement or a commit is a step that may fail.
- Cryptography and file writes. Storage is a set of (account, bytes) pairs.
- The wait of a worker after a database error, and shutdown: both are a worker resuming.
- Liveness: a transient error on `complete` leaves a row Running until the next start, and `claim_next` gives up after five lost races.
- Timestamps and versions of message, attachment and location rows. UIDs and flags of a location are modelled but the last execution wins, so they are outside `IngestRuns.ExactlyOnceInEffect`.
- Index documents of accounts deleted during a drain: the model has them, but nothing promises that they go.
- Tantivy internals: scoring, segments and the choice of an order among equally dated hits. An index answers a query with the ids of the documents that match, in one listing order.
- QueryPlan.DateQueryMeans: dates the index cannot represent are not modelled; its timestamps are 64-bit nanoseconds, which end in the year 2262.
- QueryPlan.TextQueryMeans: a text is a sequence of tokens without gaps, while `RemoveLongFilter` (`crates/search/src/schema.rs`) drops long tokens and leaves their positions empty, so that a phrase across one behaves otherwise.
- MIME parsing, stemming and Unicode case folding: unknown functions.
- JobDrain.DrainReady: time is fixed and nothing is enqueued meanwhile.
- SearchPaging.Search: queries whose `date:` or `after:` names the calendar's last day are excluded for messages of that day; `QueryPlan.DateQueryMeans` says what happens to them.
- Frontend, configuration, logging, user and settings services, statistics and the event bus.
