# The video moderation pipeline, modelled in Dafny

A service accepts videos, queues one job per video, lets workers classify the frames with a vision model, and
publishes the verdict. This project models that pipeline and proves what it keeps. `dafny verify dfyconfig.toml`
checks everything.

**The job lifecycle.** A worker reads messages from a queue and drives each job from QUEUED over PROCESSING to
CLASSIFIED, FAILED_RETRYABLE or FAILED_TERMINAL, writing to a queue repository, to Postgres, to an external mover and
to publish buffers. `Pipeline` is the transition system: one event per await of any worker, API enqueues in between,
and a *cut* of a worker at any step (process death, cancellation, or an exception that escapes `run_once`). An awaited
call inside the attempt may also do its work and lose its answer. Its functions `Effects`, `NextStage` and `Allows`
say, for each await of `app/workers/video_worker.py:52-103`, `app/services/video_processing_service.py:63-128` and
`app/services/video_detection_service.py:71-171`, what it does to the stores, where the worker goes next, and which
outcomes are open. `PipelineSafety` holds for any number of workers; `SingleWorker`, `Attempts` and `Records` for one
worker, cut anywhere; `CutFree`, `Drain` and `Fairness` for one worker without cuts; `Publication` for one worker
whose cuts miss the publication window. `PipelineTheorems` states the results over every run from the empty system.
`FailureHandling` follows one failure from its exception to the requeued message or the dead letter.
`TerminalRecords` and `JobDelivery` say exactly, for any number of workers, when a terminal record can still change
and when an unfinished job can be left without a message or a worker. `PublicationWindow`, `RowSettling` and
`DeadLetterWindow` prove exactly when the guarantees that a cut or a late failure can break do hold, and `Limits`
shows, for every valid request and every configuration with a positive read count, runs where a guarantee one might
expect does not hold.

**The code in its own form.** `QueueRepository`, `PostgresRepository`, `RedisRepository`, `ClickHouseBuffer`,
`ClickHouseFlushService` and `VideoWorker` are classes whose methods update fields as the source does. The worker's
methods follow `run_once`, `_handle_message`, `process`, `_process_video` and `finalize_classification` call by call;
a ghost trace records every await as an event of `Pipeline`, so each state of the objects is a reachable state of that
system and inherits its theorems.

**Redis.** `JobCodec` is the string hash of a job, `IsoTime` the text of its moments, `RedisKeys` the key builders,
`RedisState` and `RedisRepository` the transactional operations. `RedisSimulation` proves that they simulate the
in-memory repository, and exactly where they part: Redis answers with the indexed job in every status, while the
in-memory repository admits a second job when the indexed one is FAILED_RETRYABLE.

**Publishing to ClickHouse.** `ReplacingTable` is the merged view of a table, `Flusher` the read, insert, trim cycle
with replays; `FlusherPool` is the same with several flushers and says exactly when they lose a row, `LegacyTable` the
table that stamps its rows at insertion.

**Moderation.** `JsonGrammar` is the grammar of JSON texts (RFC 8259), `Json` the decoder; `JsonTokens` and
`JsonDecoding` prove that the decoder reads exactly those texts, and `JsonPrinter` writes values as such texts.
`ModelDocument` finds the one document of a raw model answer, `ModelOutput` validates it to outputs and
`ModelRoundTrip` goes back. `FramePaths` and `FramePipeline` lead from frames through batches and back in order,
`ModerationPolicy` and `Aggregation` from frames to one verdict.

Clocks, random ids, exceptions, model answers and interleavings are parameters or nondeterministic choices, so the
results hold for all of them. Scores are reals.

## Model

| member | source | states |
|---|---|---|
| PipelineTheorems.PublishedAtMostOnceInOrder | app/services/video_detection_service.py:82-95 | In every state any number of workers can reach, with retries, cuts and lost answers: of each job the commit, canonical row, legacy row, action row and runtime write each occur at most once and in that order, all carry the committed result, and an action row only accompanies a required move |
| PipelineTheorems.EffectsAreCausal | app/services/video_detection_service.py:79-95 | Every published effect is preceded by the commit of its job, and a required move came before that commit |
| PipelineTheorems.CommittedIsComplete | app/services/video_detection_service.py:82-87 | A committed result has its parent row, the rows of exactly its frames, whose aggregate it is, a verdict equal to the blocking policy of its maxima, and an action row exactly when a move is required: one, with the video, threshold and score of the result |
| PipelineTheorems.OneResultPerTriple | app/repositories/postgres/tables.py:27 | Two jobs of one (video, source version, policy version) never both have a committed result |
| PipelineTheorems.ShutOutForever | app/repositories/postgres/video_finalization.py:52-59 | A second job of a triple whose Postgres row belongs to another job never gets a row, hence never a result, whatever follows |
| PipelineTheorems.ClassifiedAnswerHasResult | app/services/video_status_service.py:52-65 | CLASSIFIED in either store implies a committed result, so a CLASSIFIED status answer carries it even when the result is read later than the queue record |
| PipelineTheorems.NoLostJob | app/workers/video_worker.py:62-103 | One worker, cut anywhere, enqueues in between: every job whose queue status is not terminal has a message that is not acknowledged |
| PipelineTheorems.AttemptsBounded | app/services/video_processing_service.py:131-141 | One worker: attempts never exceed max(1, queue_max_attempts) plus the job's cut handlings, and a FAILED_RETRYABLE job has attempts below queue_max_attempts |
| PipelineTheorems.StoresCountTheSameAttempts | app/repositories/postgres/video_finalization.py:45-59 | One worker, between messages: queue attempts equal the attempts of an existing Postgres row plus those its failed or cut marks missed, so the row never leads; this includes rows first created on a late attempt |
| PipelineTheorems.AttemptsAgree | app/repositories/postgres/video_finalization.py:45-59 | One worker: in a run where no mark is refused or cut, the attempts of both stores are equal between messages |
| PipelineTheorems.ExactPartition | app/workers/video_worker.py:80-102 | One worker, no cuts, between messages: an unfinished job has exactly one unacknowledged message and a finished one none; the dead letters are exactly one per FAILED_TERMINAL job, with its recorded error code and message; message ids are 1, 2, ... and `queue` lists the messages' job ids |
| PipelineTheorems.DrainBound | app/workers/video_worker.py:52-60 | One worker, no cuts: N enqueued jobs cost at most N * max(1, queue_max_attempts) acknowledged messages and a bounded number of worker steps, and a read that finds nothing means every job is finished |
| PipelineTheorems.PublishedExactly | app/services/video_detection_service.py:156-171 | Any number of workers: a committed job is published in full exactly when the log holds the canonical row, the legacy row and the runtime write of its result, and its storage-action row if and only if Postgres has an action row of the job |
| PipelineTheorems.ClassifiedIsPublished | app/services/video_processing_service.py:120-126 | One worker: if no cut strikes between a commit and the end of its publication, a job CLASSIFIED in the queue has a committed result whose canonical row, legacy row and runtime write are in the log, and whose storage-action row is exactly when a move was required, which is exactly when the job has an action row |
| PipelineTheorems.WaitingMessageIsHandled | app/workers/video_worker.py:52-60 | One worker, whatever happened before: from an idle worker on, without further cuts, the message at position p of the waiting list is acknowledged within floor(p / read count) + 1 rounds, whatever is enqueued or requeued meanwhile |
| TerminalRecords.ChangesExactly | app/services/video_processing_service.py:63-88 | Any number of workers: a terminal queue record can still change in some continuation exactly when some worker looked the job up before it became terminal and has not made its last status update yet |
| TerminalRecords.ChangeIsByWriter | app/services/video_processing_service.py:64-88 | Any number of workers: the only event that changes a terminal record is a status update by such a worker |
| TerminalRecords.NoWriterForever | app/services/video_processing_service.py:64-66 | Without such a worker the record stays the same in every continuation, as every later look-up ends at the terminal status |
| TerminalRecords.OneWorkerChangesExactly | app/services/video_processing_service.py:77-88 | One worker, cut anywhere: a terminal record can still change exactly when the worker is about to record a failure of its job, that is, after a final status update that was performed and lost its answer |
| TerminalRecords.TerminalForever | app/services/video_processing_service.py:63-88 | One worker, not about to record a failure of the job: its terminal record is the same in every later state |
| TerminalRecords.FinalOnceAnswered | app/services/video_processing_service.py:63-88 | One worker, every performed final status update answered so far: every terminal record is the same in every later state, and a record has a finish time exactly when it is terminal |
| JobDelivery.SecuredThroughoutExactly | app/workers/video_worker.py:62-103 | Any number of workers, any run: a job is at every moment finished, in the hands of a worker that will finish or requeue it, or waiting in a message that no worker is about to acknowledge, exactly when no cut takes the last of these from it |
| JobDelivery.StrandableExactly | app/workers/video_worker.py:62-103 | Any number of workers: some continuation without a cut leaves an unfinished job with no waiting message and no such worker exactly when the job is not secured in that sense now |
| JobDelivery.StepSecuresExactly | app/workers/video_worker.py:62-103 | Every event of any worker or the API keeps a secured job secured, except a cut that takes its last hope |
| JobDelivery.NoJobLost | app/workers/video_worker.py:80-102 | Any number of workers, no cut having taken a job's last hope: whenever all workers are between messages, the unfinished job has a message that is not acknowledged |
| Fairness.ServedWithinRounds | app/workers/video_worker.py:52-60 | One worker, no cuts: the message at position p of the waiting list is acknowledged within floor(p / read count) + 1 rounds, whatever is enqueued or requeued meanwhile |
| Fairness.NeverStuck | app/workers/video_worker.py:52-103 | In every safe state each worker has an enabled step of its own, so no await is ever blocked |
| Records.RecordsAgreeWithStatus | app/repositories/kvrocks/queue_repository.py:154-166 | One worker, cut anywhere: a record has a start time exactly when attempted, an error exactly in the failed statuses, is never SUPERSEDED, and has a finish time exactly when it is terminal or a failure was recorded over it while it was terminal |
| Records.RowsAgreeWithStatus | app/repositories/postgres/video_job_repository.py:30-73 | One worker, cut anywhere: a Postgres row has a finish time exactly when it is CLASSIFIED or FAILED_TERMINAL, and is FAILED_TERMINAL only if the queue record is |
| Records.StepKeepsRows | app/repositories/postgres/video_job_repository.py:30-73 | Every event keeps that of all rows |
| Records.UpdateKeepsConsistent | app/repositories/kvrocks/queue_repository.py:142-168 | A status update of the worker keeps that agreement, and never clears a finish time |
| PublicationWindow.PublishedThroughoutExactly | app/services/video_detection_service.py:82-95 | One worker, any run: between messages every job CLASSIFIED in either store is published, throughout the run, exactly when no cut strikes between the commit of a job and the end of its publication |
| PublicationWindow.PublishableExactly | app/services/video_detection_service.py:156-171 | Any number of workers: a committed job is published in some continuation exactly when it already is or some worker is publishing it |
| PublicationWindow.NoPublisherForever | app/services/video_detection_service.py:156-171 | A committed job that no worker is publishing never gains an effect again |
| Publication.CutKeepsPublishedExactly | app/services/video_detection_service.py:82-95 | A cut keeps the publication invariant exactly when the worker is not past the commit of a CLASSIFIED, incompletely published job |
| RowSettling.RowStaysExactly | app/repositories/postgres/video_job_repository.py:42-73 | One worker: a CLASSIFIED row is CLASSIFIED in every continuation exactly when the worker is not publishing, finishing or recording a failure of its job |
| RowSettling.HarmfulCutIsForever | app/services/video_processing_service.py:68-71 | After a cut in the publication window the row says CLASSIFIED and the job is not published in every continuation |
| DeadLetterWindow.DeadLettersExactly | app/workers/video_worker.py:82-95 | One worker, cut anywhere: a FAILED_TERMINAL job not being dead-lettered has its dead letter exactly when no cut struck while the worker was about to write it; at most one each, with the recorded error code and message |
| DeadLetterWindow.OrphansForever | app/workers/video_worker.py:82-95 | A job struck by such a cut stays FAILED_TERMINAL without a dead letter in every continuation |
| Limits.ClassifiedWithoutPublication | app/services/video_processing_service.py:68-71 | An instance of the window of PublicationWindow.PublishedThroughoutExactly: for every valid request and every configuration with a positive read count, a cut between commit and publication followed by the redelivery's shortcut ends with the job CLASSIFIED, its result committed and its rows never published |
| Limits.CommittedYetFailed | app/repositories/postgres/video_job_repository.py:53-73 | An instance of RowSettling.RowStaysExactly: without any cut, a publish failure after the commit leaves the result stored while both stores call the job failed: CLASSIFIED in Postgres is not absorbing |
| Limits.NoSecondCommit | app/repositories/postgres/tables.py:68-72 | Once a job has a result, its final transaction violates a key in every later state, with any number of workers |
| Limits.TerminalWithoutDeadLetter | app/services/video_processing_service.py:83-95 | An instance of DeadLetterWindow.DeadLettersExactly: a cut after a terminal failure was recorded and before its dead letter ends with the job FAILED_TERMINAL, its message acknowledged and the DLQ empty |
| Limits.LostFinalAnswerOverwrites | app/services/video_processing_service.py:77-88 | An instance of TerminalRecords.OneWorkerChangesExactly: for every valid request and every configuration with a positive read count, a run without cuts in which the final status update is performed and loses its answer, after which both stores call the published job failed |
| Limits.SecondWorkerStrandsTheJob | app/workers/video_worker.py:52-103 | An instance of TerminalRecords.ChangesExactly and JobDelivery.StrandableExactly: two workers read one message, the second sets the FAILED_TERMINAL record of the first back to PROCESSING and is cut; the job ends unfinished and dead-lettered, with no message left |
| PipelineSafety.CommitCondition | app/repositories/postgres/tables.py:45-108 | In a reachable state the final transaction of a job commits exactly when its parent row exists, it has no result, and a generated action id is new |
| PipelineSafety.CommitKeeps | app/services/video_detection_service.py:82-87 | A commit keeps the cross-table invariant and only adds rows |
| PipelineSafety.StepKeepsSafe | app/workers/video_worker.py:52-103 | Every event of any number of workers, the API and cuts keeps the store invariant, and what was stored, committed or logged is never taken back |
| PipelineSafety.RunKeepsSafe | app/workers/video_worker.py:52-103 | So does every run |
| SingleWorker.StepKeepsSolo | app/services/video_processing_service.py:63-95 | One worker: every event keeps each unfinished job deliverable and what the worker knows of its job's record at each stage |
| Attempts.StepKeepsAccounts | app/services/video_processing_service.py:63-95 | One worker: every event keeps the attempt budget and the balance between queue and Postgres attempts |
| CutFree.StepKeepsExact | app/workers/video_worker.py:80-102 | One worker, no cut: every event keeps the exact message counts and dead letters |
| Drain.StepDrains | app/services/video_processing_service.py:131-141 | One worker, no cut: every productive step lowers a rank, and acknowledgements are paid for by attempts used up or jobs finished |
| Drain.RunDrains | app/workers/video_worker.py:52-60 | Hence the cost of a whole run is bounded by the budget of the jobs it enqueued |
| Publication.StepKeepsPublished | app/services/video_detection_service.py:89-95 | One worker: every event but a cut in the publication window keeps CLASSIFIED jobs published in full |
| VideoWorker.VideoQueueWorker.RunOnce | app/workers/video_worker.py:52-60 | One round over the repositories, with enqueues at every await and a cut possible at each: the objects end in a reachable state of the transition system with the worker idle; if it returns, nothing was cut, the batch starts with the oldest waiting messages, is at most the read count, and exactly its messages were acknowledged |
| VideoWorker.VideoQueueWorker.HandleMessage | app/workers/video_worker.py:62-103 | Dead-letter, process, requeue or acknowledge, each await an event of the transition system; a message that returns is acknowledged and nothing else is |
| VideoWorker.VideoQueueWorker.Process | app/services/video_processing_service.py:63-95 | Early return, adoption of a committed row, or an attempt whose exception is classified and recorded; reports the failure or none |
| VideoWorker.VideoQueueWorker.Attempt | app/services/video_processing_service.py:74-76 | The two calls inside the `try`: any exception leads to the failure record |
| VideoWorker.VideoQueueWorker.ProcessVideo | app/services/video_processing_service.py:97-128 | Verdict, finalization, then the CLASSIFIED status |
| VideoWorker.VideoQueueWorker.ComputeVerdict | app/services/video_processing_service.py:101-119 | A verdict that is the aggregate of results carrying, frame by frame, what the model said; or an exception from download, extraction, the model or the aggregate |
| VideoWorker.VideoQueueWorker.Judge | app/services/video_processing_service.py:110-119 | Frames through the model in batches and their aggregate: result i has the index and time of frame i and the scores, top category, reason, severity and flag of the i-th output of the first readable answers; with at least one frame and a positive batch size it fails exactly when some batch has none, with the exception of the first such batch |
| VideoWorker.VideoQueueWorker.FinalizeClassification | app/services/video_detection_service.py:71-96 | Move if required, commit the frame rows, the result, the action and the CLASSIFIED mark, then publish; on success the tables hold exactly these and the log their effects in this order |
| VideoWorker.VideoQueueWorker.MoveIfRequired | app/services/storage_move_service.py:10-21 | The external move is attempted exactly when required and precedes the commit |
| VideoWorker.VideoQueueWorker.Commit | app/services/video_detection_service.py:82-87 | The final transaction as one event: performed only without constraint violation, and then the four tables and the log are the old ones with exactly the rows of this verdict; raising otherwise |
| VideoWorker.VideoQueueWorker.PublishAfterCommit | app/services/video_detection_service.py:139-171 | On success the log has grown by the canonical row, the legacy row, the storage-action row exactly when the video was moved, and the runtime write, in this order; stops at the first exception |
| VideoWorker.VideoQueueWorker.Publish | app/services/video_detection_service.py:156-171 | One push is the next effect of the job's script |
| VideoWorker.VideoQueueWorker.FindJob | app/workers/video_worker.py:71-78 | The record of the message's job, or the missing-job dead letter next |
| VideoWorker.VideoQueueWorker.Refresh | app/services/video_processing_service.py:64-66 | The current record or the one in hand; terminal means done |
| VideoWorker.VideoQueueWorker.GetPersistedJob | app/services/video_processing_service.py:68-71 | A CLASSIFIED row is adopted, anything else starts an attempt |
| VideoWorker.VideoQueueWorker.UpdateStatus | app/services/video_processing_service.py:70-88 | The queue record a stage sets and the stage that follows; an update that is refused, or performed without an answer, raises inside the `try` and ends the worker elsewhere |
| VideoWorker.VideoQueueWorker.MarkProcessing | app/repositories/postgres/video_finalization.py:45-59 | Marked, refused, or marked with a lost answer; an exception becomes the failure record |
| VideoWorker.VideoQueueWorker.MarkFailed | app/repositories/postgres/video_finalization.py:61-76 | The failed status on the row, then requeue or dead letter |
| VideoWorker.VideoQueueWorker.RequeueVideoJob | app/workers/video_worker.py:83-85 | One more message of the job, then the acknowledgement |
| VideoWorker.VideoQueueWorker.AckVideoJobMessage | app/workers/video_worker.py:102 | Acknowledges this message and takes the next of the batch |
| VideoWorker.VideoQueueWorker.MoveVideoJobMessageToDlq | app/workers/video_worker.py:90-94 | One dead letter with the message's id, job and payload and the failure's code and text, then the acknowledgement |
| VideoWorker.VideoQueueWorker.Wait | app/workers/video_worker.py:52-60 | While the worker waits, enqueues only append to the waiting messages; a cut drops the batch and nothing else |
| VideoWorker.ObjectsAreSafe | app/workers/video_worker.py:62-103 | At every moment of the worker's life its repositories satisfy the no-lost-job, result and attempt guarantees |
| QueueRepository.InMemoryVideoQueueRepository.constructor | app/repositories/kvrocks/queue_repository.py:81-87 | Starts empty |
| QueueRepository.InMemoryVideoQueueRepository.EnqueueVideoJob | app/repositories/kvrocks/queue_repository.py:89-131 | Enqueues exactly when the id is new and the triple is not that of a job in a status other than FAILED_RETRYABLE; then every field of the stored record, of the payload of the one appended message and of the answer is the request's or the default; otherwise answers the job found and changes nothing |
| QueueRepository.InMemoryVideoQueueRepository.GetJobById | app/repositories/kvrocks/queue_repository.py:139-140 | The stored record or none |
| QueueRepository.InMemoryVideoQueueRepository.UpdateJobStatus | app/repositories/kvrocks/queue_repository.py:142-168 | Status, attempts, times and errors of one record, field by field, everything else unchanged; none for an unknown id |
| QueueRepository.InMemoryVideoQueueRepository.ReadVideoJobMessages | app/repositories/kvrocks/queue_repository.py:173-181 | The oldest messages not acknowledged, at most `count` |
| QueueRepository.InMemoryVideoQueueRepository.AckVideoJobMessage | app/repositories/kvrocks/queue_repository.py:183-184 | Only the acknowledged ids change |
| QueueRepository.InMemoryVideoQueueRepository.RequeueVideoJob | app/repositories/kvrocks/queue_repository.py:186-195 | Appends a message with the job's current record; an unknown job raises and changes nothing |
| QueueRepository.InMemoryVideoQueueRepository.AppendToDlq | app/repositories/kvrocks/queue_repository.py:204-212 | Appends one dead letter |
| QueueRepository.InMemoryVideoQueueRepository.MoveVideoJobMessageToDlq | app/repositories/kvrocks/queue_repository.py:197-213 | Dead letter and acknowledgement together |
| QueueState.EnqueueFacts | app/repositories/kvrocks/queue_repository.py:89-131 | When a request is enqueued, and the new job, index, queue and message field by field in terms of the request; any other request changes nothing |
| QueueState.UpdateFacts | app/repositories/kvrocks/queue_repository.py:142-168 | A status update in terms of its arguments: only entering PROCESSING counts an attempt and sets the start, only the three terminal statuses set the finish, errors are overwritten, one record changes |
| QueueState.ReadFacts | app/repositories/kvrocks/queue_repository.py:173-181 | A read returns unacknowledged messages only, in the order of their ids, all of them if there are fewer than asked for, and none before which an older one was left out |
| QueueState.EnqueueKeepsValid | app/repositories/kvrocks/queue_repository.py:89-131 | Enqueue keeps jobs keyed by id, messages numbered 1, 2, ... and naming known jobs, and the index pointing to a job of its triple; it deletes no job and changes no job's triple |
| QueueState.UpdateKeepsValid | app/repositories/kvrocks/queue_repository.py:142-168 | A status update keeps the same and touches no other record |
| QueueState.RequeueKeepsValid | app/repositories/kvrocks/queue_repository.py:186-195 | Requeue keeps the same |
| QueueState.AckKeepsValid | app/repositories/kvrocks/queue_repository.py:183-184 | Acknowledging any id keeps the records, acknowledging a message that exists keeps all |
| QueueState.PendingFacts | app/repositories/kvrocks/queue_repository.py:181 | The waiting messages are exactly those not acknowledged, in log order, each naming a known job |
| QueueState.PendingAfterAppend | app/repositories/kvrocks/queue_repository.py:122-130 | A new message is last among the waiting ones |
| QueueState.PendingAfterAckHead | app/repositories/kvrocks/queue_repository.py:181-184 | Acknowledging the first waiting message leaves the rest in order |
| PostgresRepository.PostgresDatabase.MarkProcessing | app/repositories/postgres/video_finalization.py:45-59 | Insert unless id or triple is taken, then count the attempt, as one transaction |
| PostgresRepository.PostgresDatabase.MarkFailed | app/repositories/postgres/video_job_repository.py:53-73 | Status, error and update time of the row, the finish time set for a terminal failure and cleared for a retryable one, whatever its status was; nothing without a row |
| PostgresRepository.PostgresDatabase.GetByJobId | app/repositories/postgres/video_finalization.py:41-43 | The row or none |
| PostgresRepository.FinalResultUnitOfWork.Enter | app/repositories/postgres/video_finalization.py:86-91 | The transaction works on a copy of the tables |
| PostgresRepository.FinalResultUnitOfWork.InsertFrameResults | app/repositories/postgres/frame_result_repository.py:9-34 | All rows or, on the first key, foreign-key or check violation, none |
| PostgresRepository.FinalResultUnitOfWork.InsertFinalResult | app/repositories/postgres/tables.py:68-72 | Fails on the result key or a missing parent row |
| PostgresRepository.FinalResultUnitOfWork.InsertStorageAction | app/repositories/postgres/tables.py:91-96 | Fails on the action key or a missing parent row |
| PostgresRepository.FinalResultUnitOfWork.MarkJobClassified | app/repositories/postgres/video_job_repository.py:42-51 | Sets the row CLASSIFIED if it exists |
| PostgresRepository.FinalResultUnitOfWork.Exit | app/repositories/postgres/video_finalization.py:93-99 | Commit installs the copy, rollback leaves the tables as they were |
| PostgresRepository.CommitFinalResult | app/services/video_detection_service.py:82-87 | The statements in order: commits exactly when none violates a constraint, and otherwise changes nothing |
| PostgresState.InsertFramesSucceeds | app/repositories/postgres/tables.py:45-66 | Frames 0..n-1 of a job without frame rows go in exactly when the parent row exists (or there are none), and then exactly those rows are added |
| PostgresState.CommitFinalSucceeds | app/repositories/postgres/tables.py:45-108 | The exact condition under which the final transaction commits, and the tables after it |
| PostgresState.InsertFramesExactly | app/repositories/postgres/tables.py:45-66 | From any tables and for any frames: the multi-row insert goes through exactly when severities are in range, no two indices coincide, none is taken and the parent row exists, and then adds exactly these rows and keeps all others |
| PostgresState.CommitFinalExactly | app/repositories/postgres/tables.py:45-108 | From any tables: the final transaction commits exactly when the constraints of all four statements are met, and then the rows of all four tables |
| PostgresState.MarkProcessingFacts | app/repositories/postgres/video_finalization.py:45-59 | The first attempt of a job inserts its row unless its id or triple is taken, and every attempt is counted in the row of the job if it has one |
| PostgresState.FrameIdInjective | app/repositories/postgres/frame_result_repository.py:49 | No two (job, frame index) pairs share a frame id, whatever colons job ids contain |
| Attempts.MarkedRow | app/repositories/postgres/video_finalization.py:45-59 | After marking, an existing row counts one more attempt and a row first created on a late attempt counts them all |
| Failures.ClassifyProcessingError | app/services/video_processing_service.py:131-168 | Retried exactly when attempts are left and the exception is a request error, an unknown error, an HTTP status of 408, 429 or at least 500, or an application error with status at least 500 whose code is none of the five terminal ones; and the code and message each is recorded with, cut at 1000 characters |
| FailureHandling.FailureIsHandled | app/workers/video_worker.py:80-102 | Any number of workers, any state: an exception inside the `try` whose handling is not cut or refused ends with the failure recorded in both stores, attempts unchanged and the message acknowledged; with one more waiting message of the job if the failure is retryable, and with one dead letter of its code and text if not |
| Aggregation.AggregateIsHomomorphism | app/services/aggregation_service.py:26-73 | Aggregating a concatenation equals merging the two aggregates: counts add, severities, score and gore band take the maximum, flags the disjunction, the riskier top category of the more severe half wins |
| Aggregation.AggregateOfPermutation | app/services/aggregation_service.py:26-73 | Permuting the frames does not change the result |
| Aggregation.SelectTopIsBestFrame | app/services/aggregation_service.py:75-87 | The two passes select the top category of the lexicographically best frame |
| Aggregation.BestFrameBounds | app/services/aggregation_service.py:78-84 | The best frame is one of the frames and none outranks it |
| Aggregation.MaxScoreIsLub | app/services/aggregation_service.py:29-32 | A category's maximum bounds every frame and is attained |
| Aggregation.MaxSeverityIsLub | app/services/aggregation_service.py:34 | The overall maximum bounds every frame and is attained |
| Aggregation.VerdictIsPolicyOfMaxima | app/services/aggregation_service.py:29-35 | For validated frames the any-frame verdict equals the blocking policy of the per-category maxima |
| Aggregation.BlockedButNotMoved | app/services/aggregation_service.py:34-38 | Threshold 0.8: NSFW without move exactly when the worst severity is 3 and sexual_minor_content reaches 3; NSFW scores at least 0.6 |
| Aggregation.MovedButNotBlocked | app/services/aggregation_service.py:34-38 | Threshold 0.8: move without NSFW exactly when severity reaches 4 with every maximum below its blocking threshold, and then each worst frame is topped by safe, or by nudity or suggestive at exactly 4 |
| Aggregation.MoveDoesNotImplyBlocking | app/services/aggregation_service.py:34-38 | A concrete validated frame that is moved and not NSFW |
| Aggregation.ResultFacts | app/services/aggregation_service.py:26-73 | Raises exactly without frames; otherwise ids, settings and versions as given, the number of frames and of blocked frames, blocked exactly if some frame is, moved exactly when the worst severity over 5 reaches the threshold |
| Aggregation.ResultMaxima | app/services/aggregation_service.py:29-44 | Severity and per-category maxima bound every frame and are attained, a missing score counting as 0; the top category is that of a worst frame and none of the worst frames has a riskier one |
| Aggregation.ResultLegacy | app/services/legacy_mapping_service.py:5-28 | The legacy label of each top category and the gore band of the greater of gore and violence, from the result alone |
| Aggregation.RiskOrder | app/core/constants.py:45-57 | The eleven categories from the riskiest to the safest |
| Aggregation.PolicyByThresholds | app/services/moderation_policy.py:5-29 | The policy blocks exactly when some maximum reaches its category's threshold, the thresholds written out |
| Aggregation.LegacyFieldsAgreeWithVerdict | app/services/legacy_mapping_service.py:5-28 | The upper gore bands mean some frame has gore or violence of at least 4, and block the video; explicit at score 0.8 and nudity or provocative at 1.0 block it too |
| Aggregation.GoreOfMaxima | app/services/legacy_mapping_service.py:15-28 | The gore band of merged maxima is the greater of the two bands |
| ModerationPolicy.BlockedFrameIsSevere | app/services/moderation_policy.py:25-29 | A blocked frame is topped by an unsafe category with severity at least 3, and at exactly 3 only for minor content |
| Json.RawDecode | app/schemas/model_output.py:78-80 | A decoded value ends after its start and within the text |
| Json.BracketDecodes | app/schemas/model_output.py:83-95 | What decodes at a bracket is an array or an object, so the two type checks of the scan never fail |
| JsonDecoding.LoadsExactly | app/schemas/model_output.py:61 | `json.loads` answers a value exactly when the text is a JSON text of it: a value in the grammar of RFC 8259 section 2, with any blanks, tabs, newlines and returns around each token, read with the last value of a repeated key |
| JsonDecoding.RawDecodeExactly | app/schemas/model_output.py:78-80 | At a bracket `raw_decode` succeeds exactly if an array or object of that grammar starts there, and ends exactly where it ends |
| JsonDecoding.ParsesText | app/schemas/model_output.py:61 | Every text of a value in the grammar is read as that value, up to where it ends, whatever follows |
| JsonDecoding.ReadsValue | app/schemas/model_output.py:61 | Whatever is read is written there in the grammar |
| JsonDecoding.WhiteSpaceAnywhere | app/schemas/model_output.py:61 | Blanks, tabs, newlines and returns at each of the places between tokens of an array and an object change nothing |
| JsonDecoding.DocumentRoundTrip | app/schemas/model_output.py:80 | Any JSON text of an array or object decodes to it where it stands and ends where it ends, whatever surrounds it |
| JsonPrinter.PrintWrites | app/schemas/model_output.py:61 | A value printed with any white space after its commas and colons is a JSON text of it |
| JsonPrinter.LastValueWins | app/schemas/model_output.py:61 | An object is read with one member per key, the last value written under it |
| ModelDocument.NextBracket | app/schemas/model_output.py:99-101 | The first bracket at or after a position |
| ModelDocument.ExtractSingleJsonDocument | app/schemas/model_output.py:73-96 | Terminates, and returns a document exactly when a JSON text starts at the first bracket and none starts at or after its end |
| ModelDocument.ProseAroundDocument | app/schemas/model_output.py:73-96 | Bracket-free prose around any JSON text of one array or object yields it |
| ModelDocument.LoadModelJson | app/schemas/model_output.py:58-70 | The whole text as a JSON text, or else the one embedded document; an error exactly when there is neither, in terms of the grammar and not of the decoder |
| ModelDocument.CandidateParts | app/schemas/model_output.py:59 | Stripping drops byte order marks in front, then white space on both sides, nothing else, and all of it |
| ModelDocument.DocumentIsUnique | app/schemas/model_output.py:58-70 | An answer stands for at most one document |
| ModelOutput.ParsePayload | app/schemas/model_output.py:111-143 | As many valid frames as asked for, each at its own index; otherwise the first fault in the order of the checks |
| ModelOutput.ValidFrameMeans | app/schemas/model_output.py:15-51 | Validation accepts an item with an output exactly when it is an object whose members, scores, severity and top category are that output's: all categories known and in range, the severity the score of the top category |
| ModelOutput.ValidOutputExactly | app/schemas/model_output.py:20-37 | An output is valid exactly when its eleven scores are in range, it is called safe exactly when nothing unsafe is present, and otherwise no unsafe category exceeds the one it names |
| ModelOutput.ItemsMean | app/schemas/model_output.py:104-119 | A payload stands for a list exactly when it is it, one of the three single-key envelopes of it, or the single object when one is asked for |
| ModelOutput.ParseVisualBatchResponse | app/schemas/model_output.py:111-143 | Outputs exactly when the answer can be read as such, otherwise its fault |
| ModelOutput.ReadingIsValid | app/schemas/model_output.py:25-37 | Accepted outputs are as many as asked for, in order and valid |
| ModelOutput.ReadingIsUnique | app/schemas/model_output.py:111-143 | An answer has at most one reading |
| ModelRoundTrip.OutputsReadBack | app/schemas/model_output.py:58-143 | Valid outputs numbered from zero, written as any JSON text of their array, are read back exactly, alone or inside bracket-free prose (unless the whole text is itself a JSON text) |
| ModelRoundTrip.PrintedReadBack | app/schemas/model_output.py:58-143 | In particular as `json.dumps` writes them, with a blank or any other white space after commas and colons |
| ModelRoundTrip.FrameBack | app/schemas/model_output.py:50-51 | Validating the JSON form of a valid output gives it back, field by field and score by score |
| ModelRoundTrip.AllScoresBack | app/schemas/moderation.py:23-33 | The eleven scores of a categories object are read back exactly |
| ModelRoundTrip.CandidateOfProse | app/schemas/model_output.py:59 | Stripping the mark and white space touches only the prose around a document |
| FramePipeline.BatchesCover | app/services/frame_extraction_service.py:62-63 | Batches concatenate to the frames; all but the last have exactly the batch size and the last is not empty and at most it |
| FramePipeline.AnswerIsAttached | app/services/gpu_moderation_service.py:66-70 | The results of a readable answer carry the outputs it reads as, one by one, with the index and time of their frames, and are valid |
| FramePipeline.FramesInPathOrder | app/services/frame_extraction_service.py:66-71 | The frames carry the given paths, each as often as given, in ascending order, and number them from zero, one per second |
| FramePaths.SortedIsAscending | app/services/frame_extraction_service.py:67 | Sorting gives the same paths in ascending order, compared part by part |
| FramePaths.AscendingIsUnique | app/services/frame_extraction_service.py:67 | There is only one such order, whatever the sorting method |
| FramePaths.PathOrder | app/services/frame_extraction_service.py:67 | One path is before another if it is a prefix of it or smaller in the first part in which they differ |
| FramePaths.TextOrder | app/services/frame_extraction_service.py:67 | One text is before another if it is a prefix of it or smaller in the first character in which they differ |
| FramePipeline.OutputMatches | app/services/gpu_moderation_service.py:160-174 | A result carries its source frame's index and time and its output's scores, top category and reason; its severity is the score of that category and its flag the policy of those scores |
| FramePipeline.TryAnswer | app/services/gpu_moderation_service.py:60-72 | Results that carry the outputs a readable answer reads as; otherwise the client's exception or the fault of the answer |
| FramePipeline.ModerateFrameBatch | app/services/gpu_moderation_service.py:50-86 | The first readable answer among max(1, gpu_max_attempts) attempts wins and its outputs are carried frame by frame; it fails exactly when there is none, with the exception of the last attempt, wrapped unless it is an application error; empty and oversized batches as in the source |
| FramePipeline.AttemptsAllowed | app/services/gpu_moderation_service.py:56-86 | With n the greater of 1 and `gpu_max_attempts`: the model said what its first readable answer among n reads as, and a batch fails exactly when none of the n is readable, with the exception of the n-th |
| FramePipeline.ModelFailuresAreRetried | app/schemas/model_output.py:111-143 | An answer that cannot be read raises an application error of status 502 with its own code and text, a failing client one of 503, and either is retried exactly as long as attempts are left |
| FramePipeline.VerdictOfModel | app/services/video_processing_service.py:110-119 | The verdict of carried results is about what the model said: its maxima are those of the outputs' scores, its severity and top category those of a worst output, and it blocks exactly if some output's scores are blocked |
| FramePipeline.ModerateFrames | app/services/video_processing_service.py:110-112 | The results carry the outputs of the first readable answers batch by batch, result i for frame i; otherwise all batches before some batch were answered and that one was not, and the exception is that of its last attempt; batch sizes of zero and below as in Python |
| FramePipeline.ResultsInFrameOrder | app/services/video_processing_service.py:107-112 | Result i is valid and belongs to the i-th of the given paths in ascending order, at second i |
| FramePipeline.FrameIdsDistinct | app/repositories/postgres/frame_result_repository.py:49 | Frame ids of any two jobs' results coincide only for the same job and position |
| JobCodec.JobToMapping | app/repositories/kvrocks/queue_repository.py:470-480 | Rewriting the dictionary in place, field by field, gives the encoded text of every field |
| JobCodec.EncodedStrings | app/repositories/kvrocks/queue_repository.py:470-480 | The strings and the attempts of a job stand in the fields of their names |
| JobCodec.EncodedStatus | app/repositories/kvrocks/queue_repository.py:470-480 | The text of each status |
| JobCodec.EncodedOptions | app/repositories/kvrocks/queue_repository.py:470-480 | Each optional string stands in its own field, the empty text for none |
| JobCodec.EncodedMoments | app/repositories/kvrocks/queue_repository.py:470-480 | Each moment stands in its own field in ISO 8601, the empty text for none |
| JobCodec.DecodeDefaults | app/repositories/kvrocks/queue_repository.py:483-511 | Missing optional fields decode as none, missing attempts as zero |
| JobCodec.UndecodableExactly | app/repositories/kvrocks/queue_repository.py:483-511 | Decoding raises exactly when a required field is missing, or the status, the attempts or a moment cannot be read |
| JobCodec.DecodeEncode | app/repositories/kvrocks/queue_repository.py:470-511 | Decoding an encoded job returns it with empty optional strings turned into None, for all statuses, attempts and moments |
| IsoTime.ParsePrint | app/repositories/kvrocks/queue_repository.py:474-490 | Every UTC moment is read back from its ISO 8601 text, with and without microseconds |
| IsoTime.PrintExactly | app/repositories/kvrocks/queue_repository.py:474-490 | The text is the date, the letter T, the time of day of that moment, six decimals exactly if it has microseconds, and +00:00 |
| Calendar.DateOf | app/repositories/kvrocks/queue_repository.py:474-490 | The date written for the n-th day is a valid date of the Gregorian calendar with n days before it |
| Calendar.DayAfter | app/repositories/kvrocks/queue_repository.py:474-490 | Month lengths, leap years and the day after each day, counted from the first of January of the year 1 |
| JobCodec.EncodeEqual | app/repositories/kvrocks/queue_repository.py:470-511 | Two jobs share an encoding exactly when they differ only in empty versus absent optional strings |
| JobCodec.ReencodingIsStable | app/repositories/kvrocks/queue_repository.py:470-511 | A decoded job encodes to the same hash again |
| JobCodec.FlatFormAgrees | app/repositories/kvrocks/queue_repository.py:459-467 | The alternating list of a stream entry, in any field order and with or without a stray last element, decodes to the dictionary form |
| RedisKeys.NamespacesDisjoint | app/repositories/kvrocks/queue_repository.py:433-443 | Job, unique and video-id keys never coincide |
| RedisKeys.JobKeyInjective | app/repositories/kvrocks/queue_repository.py:433-435 | Different job ids have different keys |
| RedisKeys.VideoIdKeyInjective | app/repositories/kvrocks/queue_repository.py:441-443 | Different video ids have different keys |
| RedisKeys.UniqueKeyInjective | app/repositories/kvrocks/queue_repository.py:437-439 | Triples whose video id and source version are colon-free have different keys |
| RedisKeys.UniqueKeyCollidesExactly | app/repositories/kvrocks/queue_repository.py:437-439 | A triple shares its key with some other triple exactly when one of its three components contains a colon |
| RedisRepository.RedisVideoQueueRepository.EnqueueVideoJob | app/repositories/kvrocks/queue_repository.py:224-276 | The command sequence of the transactional branch: an enqueued job is the request's field by field, in the answer, as the hash of its key and as the stream entry, with both index keys pointing to it; any other request at most completes the video-id key of the job found |
| RedisState.EnqueueFacts | app/repositories/kvrocks/queue_repository.py:224-276 | When a request is enqueued, and the keys and stream entry it leaves, with the keys spelled out |
| RedisState.NewJobFacts | app/repositories/kvrocks/queue_repository.py:224-276 | Every field of the new job in terms of the request |
| RedisState.UpdateFacts | app/repositories/kvrocks/queue_repository.py:290-316 | A status update rewrites one hash with the status, attempts, times and errors in terms of its arguments, or nothing for an unknown id |
| RedisState.LookUpFacts | app/repositories/kvrocks/queue_repository.py:278-288 | Lookup by id decodes the hash of that job's key, lookup by video the job its index key names, with the keys spelled out |
| RedisRepository.RedisVideoQueueRepository.GetJobById | app/repositories/kvrocks/queue_repository.py:284-288 | The decoded hash or none |
| RedisRepository.RedisVideoQueueRepository.GetJobByVideoId | app/repositories/kvrocks/queue_repository.py:278-282 | The job the video-id key names |
| RedisRepository.RedisVideoQueueRepository.UpdateStatus | app/repositories/kvrocks/queue_repository.py:290-316 | State and answer of `RedisState.UpdateStatus` |
| RedisRepository.RedisVideoQueueRepository.RequeueVideoJob | app/repositories/kvrocks/queue_repository.py:401-409 | State of `RedisState.Requeue`; a missing job changes nothing |
| RedisSimulation.RedisSimulatesMemory | app/repositories/kvrocks/queue_repository.py:224-443 | From empty stores, after any run of enqueues, updates and requeues both treat alike: lookups by id agree up to empty optional strings, the stream carries the same jobs in the same order with encoded payloads, and the video-id index names the job created last |
| RedisSimulation.AnswersAgreeExactly | app/repositories/kvrocks/queue_repository.py:224-276 | The two enqueue answers agree exactly when the triple's job is not FAILED_RETRYABLE under a new job id |
| RedisSimulation.ExistingAgrees | app/repositories/kvrocks/queue_repository.py:224-238 | Redis finds what the in-memory repository finds, and the job waiting for a retry besides |
| RedisSimulation.GetByIdAgrees | app/repositories/kvrocks/queue_repository.py:284-288 | Lookup by id agrees up to empty optional strings |
| RedisSimulation.RelatedIsReadable | app/repositories/kvrocks/queue_repository.py:483-511 | No lookup in a related store raises |
| RedisSimulation.BackfillIsNoOp | app/repositories/kvrocks/queue_repository.py:226-238 | The `nx` writes of the video-id index never write |
| RedisSimulation.CreateKeepsRelated | app/repositories/kvrocks/queue_repository.py:265-275 | The transaction of a new job keeps the relation |
| RedisSimulation.EnqueueKeepsRelated | app/repositories/kvrocks/queue_repository.py:224-276 | Enqueue keeps the relation unless a second job is admitted |
| RedisSimulation.UpdateKeepsRelated | app/repositories/kvrocks/queue_repository.py:290-316 | A status update keeps the relation |
| RedisSimulation.RequeueKeepsRelated | app/repositories/kvrocks/queue_repository.py:401-409 | Requeue keeps the relation |
| RedisSimulation.ByVideoIdNamesLastCreated | app/repositories/kvrocks/queue_repository.py:278-282 | Lookup by video id answers the job of the video created last |
| RedisSimulation.ByVideoIdAgreesExactly | app/repositories/kvrocks/queue_repository.py:133-137 | The two lookups by video id name the same job exactly when the job created last was updated strictly after all earlier ones of the video |
| ReplacingTable.MergeAt | db/clickhouse/001_video_nsfw_detection.sql:49-51 | A slot shows the greatest version inserted, the last of equal ones |
| ReplacingTable.ShownExactly | db/clickhouse/001_video_nsfw_detection.sql:49-51 | A table shows a row for a month and sorting key exactly if it holds one, and then the last inserted one of the greatest version |
| ReplacingTable.Absorb | db/clickhouse/001_video_nsfw_detection.sql:49-51 | Inserting a batch again changes no view |
| ReplacingTable.AbsorbPrefix | db/clickhouse/001_video_nsfw_detection.sql:49-51 | Nor does replaying it as the beginning of a longer batch |
| ClickHouseBuffer.InMemoryClickHouseBufferRepository.PushJson | app/repositories/kvrocks/clickhouse_buffer_repository.py:22-23 | Appends to its key and leaves the others |
| ClickHouseBuffer.InMemoryClickHouseBufferRepository.ReadBatch | app/repositories/kvrocks/clickhouse_buffer_repository.py:25-26 | The first `limit` rows, unchanged |
| ClickHouseBuffer.InMemoryClickHouseBufferRepository.TrimBatch | app/repositories/kvrocks/clickhouse_buffer_repository.py:28-29 | Removes the first `count` rows of its key, or all |
| Flusher.StepKeepsOk | app/services/clickhouse_flush_service.py:31-40 | Pushes, reads, failing inserts, trims and cuts keep conservation and the view |
| Flusher.NothingLost | app/services/clickhouse_flush_service.py:31-40 | In every run the trimmed prefix and the buffer are everything pushed, and every trimmed row was inserted |
| Flusher.ViewIsExactlyOnce | app/services/clickhouse_flush_service.py:31-40 | In every run the table shows what inserting a prefix of the pushes once would show: the trimmed prefix after a completed flush, everything once the buffer is empty |
| Flusher.ExactlyOnce | app/services/clickhouse_flush_service.py:31-40 | Without cut or unanswered insert the table is a prefix of the pushes, and between flushes table and buffer are exactly the pushes |
| Flusher.RoundsDrain | app/services/clickhouse_flush_service.py:26-40 | A buffer of at most n batches is empty after n undisturbed rounds |
| FlusherPool.NothingLostExactly | app/services/clickhouse_flush_service.py:31-40 | Any number of flushers with any batch sizes, any run with cuts and failures: no trimmed row is ever missing from the table exactly when every trim stays within the furthest row inserted |
| FlusherPool.StepLosesExactly | app/services/clickhouse_flush_service.py:31-40 | One event loses a row exactly if it is a trim that reaches past the furthest row inserted |
| FlusherPool.TurnsLoseNothing | app/services/clickhouse_flush_service.py:31-40 | Flushers whose rounds do not overlap lose nothing |
| FlusherPool.OverlapLosesExactly | app/services/clickhouse_flush_service.py:31-40 | Two rounds that both read before either trims, in every interleaving and with rows pushed at any time, from every state without open rounds that has lost nothing: with batches of `first` and `second` rows, a row is lost exactly when min(first + second, rows in the buffer by the last trim) exceeds both batches and the rows inserted before |
| FlusherPool.WholeBufferTwice | app/services/clickhouse_flush_service.py:31-40 | When both rounds read the whole buffer, nothing is lost exactly when no row is pushed before the last trim |
| LegacyTable.ShownMonths | db/clickhouse/002_video_nsfw_agg.sql:9-15 | Rows stamped at insertion, any batches and replays: a video shows in exactly the months of the inserts that held it, in each with the greatest stamp of that month |
| LegacyTable.ShowsOnceExactly | db/clickhouse/002_video_nsfw_agg.sql:9-15 | An inserted video shows once exactly when all the inserts that held it fall in one month |
| LegacyTable.ReplayedShowsOnceExactly | db/clickhouse/002_video_nsfw_agg.sql:9-15 | The same in every run of the flusher and for every clock |
| LegacyTable.BatchesFillTheTable | app/services/clickhouse_flush_service.py:42-48 | The batches of those inserts are the flusher's table |
| ClickHouseFlushService.FlushService.InsertRows | app/services/clickhouse_flush_service.py:39 | Appends the batch to its table unless refused |
| ClickHouseFlushService.FlushService.Flush | app/services/clickhouse_flush_service.py:31-40 | Buffer and table as one round of the transition system leaves them, all others untouched; raises exactly when the insert of a non-empty batch does |
| ClickHouseFlushService.FlushService.FlushOnce | app/services/clickhouse_flush_service.py:26-29 | The three rounds in order up to the first that raises, for every configuration, also one whose targets share a buffer or a table |
| ClickHouseFlushService.ApartAsIfAlone | app/services/clickhouse_flush_service.py:26-29 | Targets that share neither buffer nor table are each flushed as if alone, up to the first that raises |

## Left out

- HTTP routes, dependency wiring, settings, logging, Sentry, health checks and request signing.
- Download, probe, ffmpeg extraction, the OpenAI, Storj and database wire protocols: each is an await that succeeds, raises, or loses its answer.
- The temporary directory of a job: two job ids that differ only in `/` and `_` share one, which matters only with several workers.
- VideoWorker.VideoQueueWorker: one worker object; runs with several workers are covered by the transition system, not by objects. Exceptions outside the `try` of `process` count as cuts.
- VideoWorker.VideoQueueWorker.Commit: the statements of one transaction form one event, so no other event falls between them; a failed statement is reported as one kind of integrity error.
- QueueState.Message: ids are numbers in place of their decimal text, and payloads are records in place of their encoded dictionaries.
- Dead letters of the Redis repository, consumer groups, and its reads: it reads only new entries (`>`), so a message cut before its acknowledgement is not read again by it; the no-lost-job result is for the in-memory queue.
- The Redis Cluster branches of enqueue and read: the four writes there are not atomic.
- IsoTime.Parse: reads the form `isoformat` writes for UTC, not the other forms and offsets `fromisoformat` accepts; years after 9999, where `datetime` ends, have more digits.
- JobCodec.Decode: signs, blanks and underscores that Python's `int` tolerates are not decoded.
- RedisState.StreamEntry: the JSON text of the payload stands for the mapping it encodes; the fallback that reads `job_id` out of that text is not modelled.
- RedisSimulation.RedisSimulatesMemory: restricted to triples whose video id and source version contain no colon and to runs that do not re-enqueue a triple under a new job id while its job is FAILED_RETRYABLE; both restrictions are needed (`RedisKeys.UniqueKeyCollidesExactly`, `RedisSimulation.AnswersAgreeExactly`).
- JsonDecoding.LoadsExactly: a value with a fraction or an exponent is kept as its text, so no float is ever computed; `NaN` and the infinities, which `json.loads` also reads, are covered, and a lone surrogate escape is read as U+FFFD. Limits on nesting depth and integer length are not modelled.
- ModelOutput.ParsePayload: integer fields accept JSON integers and booleans, not the numeric strings and integral floats that lax validation also converts.
- FramePipeline.ModerateFrameBatch: the concurrency limit and the sleep between attempts are not modelled.
- FramePipeline.OutputMatches: the JSON copy of the model's output that each result keeps as `raw_response` is not modelled.
- Aggregation.BlockedButNotMoved: stated for the shipped move threshold 0.8, as is `Aggregation.MovedButNotBlocked`; floating point is modelled by reals, which decide these thresholds the same way.
- PipelineTheorems.ClassifiedAnswerHasResult: the status lookup by job record; the fallback to the newest result of a video without a queue record is not modelled.
- Flusher: one buffer at a time and whole batches per insert; rows that fail validation, which would block their buffer, are not modelled.
- Image and text moderation endpoints, manual bans, and the serializers that only copy fields.
