# Image processing service: a verified model

The service stores uploaded images, processes them in the background into thumbnails, and expires them.
This project models the protocols and algorithms that carry that behaviour and proves what they promise.

| modules | what they cover |
|---|---|
| `IdempotencyProtocol`, `ProtocolTrace`, `UploadUseCase`, `ProcessUseCase` | Idempotency-Key handling of uploads and processing requests, as a transition system: one program counter per request standing at its next awaited call, the record table, the image table. Every call takes effect atomically or fails without effect; requests interleave arbitrarily and may be cut off at any call; what lookups show may change at any time. The upload and process use cases over the real tables, storage, cache and queue are shown to be determined stretches of such runs. |
| `TaskMessages`, `LawfulCodec`, `MessageBroker`, `ProcessingWorker`, `DlqReplay`, `TaskPipeline` | The task messages and their JSON, the in-memory queues, the worker with retries and dead-lettering, the replay tool, and whole runs in which uploads, worker steps and the single steps of replay runs interleave. |
| `ImageEntity`, `ImageCache`, `ImageFiles`, `ImageService`, `CacheCoherence` | The mutable image entity and its row, the TTL cache, what uploads, processing runs and retention sweeps do to rows and files, the use cases over shared mutable objects, and the cached repository under interleaving. |
| `BilinearResize`, `FitDimensions`, `RealMath` | The C++ resize loops over flat byte buffers (scalar and SSE2) and the box fitting. |
| `RateLimiter` | The sliding-window limiter against the full log of admissions. |
| `Sanitize` | Filename sanitising as a string pipeline. |

The main results are `MutualExclusion`, `InProgressExactly`, `RowsSavedPerKey` and `SettledForever` of the key
protocol with `UploadImageUseCase.Execute` and `ProcessImageUseCase.Execute` refining it; `TaskConservation`, `WorkerDrains`, `AttemptsInOrder` and
`AlwaysFailingTask` of the pipeline, `DeadLetterRoundTrip` and `RunReplay`; `AgreesFromNowOnExactly` and
`HitWasHeldRecently` of the cache; `FilesArePresent` and `FilesArePresentExactly` of rows and files, and
`ProcessById` over shared objects; `ScalarResize` and `SimdResize` with `ResizedClosedForm`, `FloatIndexSafeExactly` and
`Int32OffsetsSafeExactly`; `RejectsExactlyWhenFull` and `AtMostMaxPerWindow`; `SanitizedIsSafe`,
`GapBecomesUnderscore` and `UnchangedExactly`.

State that the program updates in place is a class whose methods are proved against functions on values;
runs are lists of actions, and what holds over runs is proved about those functions. Outcomes that the
environment decides (a call that fails, the clock, the row batch a query picks, what other requests do in
between) are parameters. UUIDs are natural numbers. The request digest is the digested request itself, so
different requests have different digests. Storage paths are a content digest together with a base name, for
an arbitrary digest function. JSON, UUID and text encoding are an arbitrary `Codec` with the laws those
libraries promise (`Lawful`), which some codec meets (`LawfulCodecExists`).

Where the code and its documentation part ways, the model follows the code:

- `cached_image_repository.py` says writes invalidate the cache to keep it consistent. Overlapping calls can
  still leave an older value (`OverlapCanServeStale`), and `delete` invalidates before it deletes, so the
  cache can keep an image that is gone (`DeleteCanLeaveEntry`). `SaveAgreesExactly` and `DeleteAgreesExactly`
  say exactly when hits agree with the repository afterwards; in general there is bounded staleness.
- Every process has its own cache over one database, and nothing invalidates across processes. An image that
  another process's sweep removed can still be processed out of a cache and comes back as a row whose original
  is gone (`StaleEntityLosesOriginal`); `FilesArePresentExactly` gives the exact condition.
- A claimed idempotency key has no expiry. `InProgressExactly` says exactly which keys stay in progress and
  `LeakedKeyNeverSucceeds` that those are lost for good.
- One image row per upload key holds only while completion never fails (`RowsSavedPerKey`,
  `RetryAfterFailedCompletionSavesTwice`).
- A FAILED image can report a thumbnail that has been deleted (`DanglingThumbnailExactly`).
- Two uploads of the same file share a storage path, and expiring one removes the other's file
  (`SharedPathLosesFile`, with the exact condition in `RetentionPresentExactly`).
- A file name with a directory part loses it in storage, and so does its thumbnail's name, prefix and all
  (`ThumbnailNameDiffersExactly`). The upload endpoint never passes such names (`SanitizedIsNotNested`).
- Saving and loading an image is not always the identity (`SaveLoadExactly`, `NextLoadAgreesExactly`).
- A sanitised name can end in `_` or `.`, and is then not a fixed point (`FixedExactly`,
  `OnceIsNotAlwaysFixed`).
- With a relative error of 2^-24 per operation the resize index stays in the source for destination sides up to
  2^23 and need not beyond (`FloatIndexSafeExactly`); `FloatIndexEscapes` is a real binary32 case. The scalar
  loop's 32-bit offsets overflow for large buffers (`Int32OffsetsSafeExactly`).

## Model

| member | source | states |
|---|---|---|
| `IdempotencyProtocol.RunKeepsInv` | src/application/use_cases/upload_image.py:52-119 | Every interleaving of any number of upload and process requests, with failures and cut-offs at any call, keeps the invariant tying each request's position to its record, and each record to its claimant and history |
| `IdempotencyProtocol.MutualExclusion` | src/application/use_cases/upload_image.py:52-119 | At most one live request per (scope, key) is between its claim and its completion or release, and while one is, the table holds an in-progress record with its hash |
| `IdempotencyProtocol.CompletionFindsItsRecord` | src/infrastructure/database/postgres_image_repository.py:130-143 | The "record is None" branch of completion is never reached from the use cases; completing turns exactly the caller's own in-progress record into a completed one |
| `IdempotencyProtocol.ResponsesAgree` | src/application/use_cases/upload_image.py:121-138 | All successful responses to one upload key carry the same image id and belong to identical requests |
| `IdempotencyProtocol.RowsSavedPerKey` | src/application/use_cases/upload_image.py:85-112 | Image rows ever saved under one upload key number between the failed completions and one more than them; with no failed completion, at most one |
| `IdempotencyProtocol.RetryAfterFailedCompletionSavesTwice` | src/application/use_cases/upload_image.py:106-119 | The bound is reached: a run with one failed completion saves two image rows under one key |
| `IdempotencyProtocol.CompletedAtMostOnce` | src/infrastructure/database/postgres_image_repository.py:130-143 | A record has been completed exactly once if it is completed and never otherwise; no record is completed twice |
| `IdempotencyProtocol.TrueMeansProcessed` | src/application/use_cases/process_image.py:128-140 | A keyed processing request answers True only after an execution with the same key and image saved COMPLETED |
| `IdempotencyProtocol.InProgressExactly` | src/application/use_cases/process_image.py:64-126 | A record is in progress for a request if and only if that request is working on it, was cut off while doing so, or ended in one of the named exceptions that leak the key |
| `IdempotencyProtocol.FailedUploadFreesItsKey` | src/application/use_cases/upload_image.py:113-119 | An upload that raised holds no in-progress record unless deleting the record itself failed |
| `IdempotencyProtocol.SettledForever` | src/application/use_cases/upload_image.py:52-138 | Over whole runs a completed record, and one whose claimant abandoned it, is never changed or removed |
| `IdempotencyProtocol.OtherPayloadNeverSucceeds` | src/application/use_cases/upload_image.py:125-128 | Once a key is completed, a request with another payload never succeeds under it, before or after |
| `IdempotencyProtocol.LeakedKeyNeverSucceeds` | src/application/use_cases/process_image.py:105-126 | After a claimant crashed or leaked its key, no request with that key ever succeeds in any continuation |
| `IdempotencyProtocol.DuplicateIsAnswered` | src/application/use_cases/upload_image.py:121-138 | In every interleaving, a request of either scope that arrives after its key was completed never works on it and changes no table: its lookup raises a conflict for another request, answers True to the same processing request and sends the same upload to fetch the recorded image, which it returns if it exists then; or the call itself fails |
| `IdempotencyProtocol.LookupIsAnswered` | src/application/use_cases/process_image.py:128-140 | In every run a lookup changes no table; a key found in progress is answered as in progress to the same request and as a conflict to another; no record lets the request go on to its claim, or after a lost claim is answered as in progress |
| `UploadUseCase.UploadImageUseCase.Execute` | src/application/use_cases/upload_image.py:37-119 | How an execution ends and the records, rows, files and queue it leaves are given outright from what it finds, what others changed before its claim and how its calls end; and from any protocol state that shows the tables it is the determined stretch of a protocol run by this request (its own calls with those outcomes, the others' actions before the claim, what the cache shows at the replay fetch) to a state that shows the tables it leaves |
| `UploadUseCase.UploadImageUseCase.LoadReplay` | src/application/use_cases/upload_image.py:121-138 | Which answer a lookup gives, by the record, by whether the calls fail, and by whether the cache or the table still shows the image |
| `UploadUseCase.UploadImageUseCase.ClaimKey` | src/application/use_cases/upload_image.py:58-69 | After others changed records and rows: refused, claimed, or decided by the record that was faster; the exact records in each case |
| `UploadUseCase.UploadImageUseCase.Work` | src/application/use_cases/upload_image.py:71-119 | The exact ending and records by the outcomes of store, save, complete and release, a failing publish swallowed; rows, files and queue change by the work alone |
| `UploadUseCase.SameRequestExactly` | src/application/use_cases/upload_image.py:185-204 | Two uploads count as the same request if and only if file name, bytes, tags and time to live are the same |
| `UploadUseCase.RecordedUploadAnswers` | src/application/use_cases/upload_image.py:121-138 | What an upload gets that finds a record: conflict unless all four agree, in progress, or the recorded image; and nothing changes |
| `UploadUseCase.UnclaimedUploadAnswers` | src/application/use_cases/upload_image.py:58-69 | What an upload gets whose claim fails or comes too late; and it changes nothing |
| `UploadUseCase.ClaimedUploadEnds` | src/application/use_cases/upload_image.py:71-119 | Having claimed its key, an upload returns the new id with the record completed under it, or raises with the key freed, or leaves it in progress only if the release failed |
| `UploadUseCase.KeylessUploadEnds` | src/application/use_cases/upload_image.py:71-119 | Without a key it returns the new id if and only if store and save worked |
| `UploadUseCase.SavedUploadLoadsAs` | src/application/use_cases/upload_image.py:71-85 | A saved upload loads with its name, tags and dates, pending, without thumbnail or metadata, its bytes stored under their digest, expiring exactly the given hours after the clock; an upload that failed leaves the rows alone |
| `UploadUseCase.UploadReachesTheWorker` | src/application/use_cases/upload_image.py:91-104 | A saved and published upload adds exactly one message behind what waits on "image.processing", read as attempt 0 of the new image, and touches no other topic; that is the pipeline's upload step |
| `UploadUseCase.UploadIsProtocolRun` | src/application/use_cases/upload_image.py:37-119 | The endings and tables so given are where the protocol takes the request, call by call, for every combination of outcomes and every interference before the claim |
| `ProtocolTrace.StepsFollow` | src/application/use_cases/upload_image.py:52-119 | The determined stretches are protocol runs, so what is proved of all runs holds of executions |
| `ProcessUseCase.ProcessImageUseCase.Execute` | src/application/use_cases/process_image.py:38-126 | How an execution ends, keyed or not, and the records, rows and files it leaves are given outright; and from any protocol state that shows the tables it is the determined stretch of a protocol run by this request to a state that shows the tables it leaves |
| `ProcessUseCase.ProcessIsProtocolRun` | src/application/use_cases/process_image.py:38-126 | The endings and tables so given are where the protocol takes the request, every call of the processing run included |
| `ProcessUseCase.RunEndsExactly` | src/application/use_cases/process_image.py:75-118 | How a run ends, by the outcomes of its calls alone |
| `ProcessUseCase.LookupEndsExactly` | src/application/use_cases/process_image.py:64-71 | Which image a run works on: the cached one, the row's, none, or the lookup raised |
| `ProcessUseCase.RecordedProcessAnswers` | src/application/use_cases/process_image.py:128-140 | What a request gets that finds a record: conflict for another image, in progress, or True; and nothing changes |
| `ProcessUseCase.UnclaimedProcessAnswers` | src/application/use_cases/process_image.py:47-62 | What a request gets whose claim fails or comes too late |
| `ProcessUseCase.ClaimedProcessEnds` | src/application/use_cases/process_image.py:64-126 | Having claimed its key: True with the record completed, False for a missing image or the exception of a failed run with the key freed, and each ending that leaves it in progress |
| `ProcessUseCase.KeylessProcessEnds` | src/application/use_cases/process_image.py:64-126 | Without a key: True, False for a missing image, or an exception |
| `ProcessUseCase.ProcessImageUseCase.LoadReplay` | src/application/use_cases/process_image.py:128-140 | Which answer a lookup gives, by the record and by whether the call fails |
| `ProcessUseCase.ProcessImageUseCase.Settle` | src/application/use_cases/process_image.py:113-126 | Completion and release as the run's end calls for: the exact ending and records, leaking cases included |
| `TaskMessages.UploadMessageParses` | src/application/use_cases/upload_image.py:94-98 | What the upload publishes parses as attempt 0 of the same image |
| `TaskMessages.AcceptedExactly` | src/application/use_cases/consume_processing_tasks.py:92-103 | A message is accepted if and only if it is a JSON object with a UUID as image_id and, if present, a non-negative integer attempt; and what is read from it |
| `TaskMessages.RetryMessageParses` | src/application/use_cases/consume_processing_tasks.py:135-143 | A retry goes to the processing topic, parses as the same image with the attempt given, and keeps the old key if there was one |
| `TaskMessages.DeadLetterRoundTrip` | src/dlq_replay.py:70-98 | A message that parses, dead-lettered in either way and rebuilt by the replay tool, parses as the same image at attempt 0 under the same key |
| `TaskMessages.ReplayableExactly` | src/dlq_replay.py:70-98 | Any dead letter is replayable if and only if its payload names an image or its original text is an object that does |
| `TaskMessages.MalformedReplayExactly` | src/dlq_replay.py:88-98 | A malformed dead letter is replayable exactly when its text is an object with an image_id, under the old key or that id, and the replayed message parses exactly when the id does |
| `LawfulCodec.LawfulCodecExists` | src/application/use_cases/consume_processing_tasks.py:92-103 | The laws asked of the JSON and UUID libraries can be met |
| `MessageBroker.Broker.Publish` | src/infrastructure/messaging/in_memory_message_broker.py:28-31 | A publish appends to its topic's queue and touches no other; a failing one changes nothing |
| `MessageBroker.Broker.Consume` | src/infrastructure/messaging/in_memory_message_broker.py:33-37 | The oldest message of the topic is taken, in FIFO order; the other topics are untouched |
| `MessageBroker.AppendAllByTopic` | src/infrastructure/messaging/in_memory_message_broker.py:28-37 | Per topic, what waits is what waited before followed by that topic's new messages in publication order |
| `ProcessingWorker.Worker.ExecuteOnce` | src/application/use_cases/consume_processing_tasks.py:45-90 | One step takes the oldest task and publishes and sleeps exactly as the pure step function says, for success, retry, exhaustion, failed retry publish and malformed messages |
| `ProcessingWorker.Worker.HandleRetryOrDlq` | src/application/use_cases/consume_processing_tasks.py:105-123 | A failed task is retried below the limit and dead-lettered at it |
| `ProcessingWorker.Worker.PublishRetry` | src/application/use_cases/consume_processing_tasks.py:125-159 | The backoff doubles per attempt; a failing retry publish becomes a dead letter carrying the retry payload |
| `ProcessingWorker.Worker.PublishDeadLetter` | src/application/use_cases/consume_processing_tasks.py:161-198 | The dead letter reaches the DLQ or, if that publish fails, the task is lost and nothing is published |
| `ProcessingWorker.FateExactly` | src/application/use_cases/consume_processing_tasks.py:45-198 | Finished, retried, dead-lettered or lost, malformed messages included: exactly when, and exactly what is published where |
| `ProcessingWorker.SleepsBeforeRetries` | src/application/use_cases/consume_processing_tasks.py:125-133 | A step sleeps exactly before a retry, twice as long for each further attempt, whether or not the publish then works |
| `ProcessingWorker.DeadLetterExplains` | src/application/use_cases/consume_processing_tasks.py:105-192 | Every dead letter published reads back with its time, the processing topic, the reason that applies, the error that caused it, the original key and text, and a payload holding the task's image id |
| `TaskPipeline.WorkerStepIsPipelineStep` | src/application/use_cases/consume_processing_tasks.py:45-90 | The worker's effect on the broker's queues is the pipeline's step on the processing and dead-letter topics |
| `TaskPipeline.RunKeepsInv` | src/application/use_cases/consume_processing_tasks.py:45-198 | At every point of every run, replay runs in progress included, every waiting task parses within the attempt limit, every dead letter replays to attempt 0, both under their image id as key, and every image's tasks are accounted for |
| `TaskPipeline.TaskConservation` | src/application/use_cases/consume_processing_tasks.py:45-198 | At every point of every run, per image: waiting tasks, dead ones not being replayed, finished ones and failed dead-letter publishes add up to the uploads plus what replay runs sent and never committed; nothing is duplicated if no replay run is cut short, nothing lost if dead letters arrive |
| `TaskPipeline.LostExactly` | src/application/use_cases/consume_processing_tasks.py:161-198 | In every run an image's lost tasks are exactly the steps on it that had to dead-letter it and whose dead-letter publish failed |
| `TaskPipeline.KeyIsImageId` | src/application/use_cases/consume_processing_tasks.py:137-143 | Every message on either queue carries its image id text as key, through any number of retries and replays |
| `TaskPipeline.ReplayActionsAreTheTool` | src/dlq_replay.py:140-170 | What the replay steps put on the processing queue, letter by letter, is what the replay tool sends, in order |
| `TaskPipeline.CommittedReplaysDoNotDuplicate` | src/dlq_replay.py:165-173 | If no replay run is cut short, no task is ever duplicated |
| `TaskPipeline.WorkLowersMeasure` | src/application/use_cases/consume_processing_tasks.py:92-159 | On any queue, malformed messages included, a worker step strictly lowers the sum of remaining consumptions |
| `TaskPipeline.WorkerDrains` | src/application/use_cases/consume_processing_tasks.py:92-159 | With no new uploads the worker empties any queue within that many steps, whatever fails |
| `TaskPipeline.AttemptsInOrder` | src/application/use_cases/consume_processing_tasks.py:105-159 | Without replays a task uploaded once runs with attempts 0, 1, 2, ... in order, at most maxAttempts + 1 times, interleaved with any others, and is dead-lettered at most once |
| `TaskPipeline.TotalBackoffIsGeometric` | src/application/use_cases/consume_processing_tasks.py:131-133 | The delays before n retries add up to backoff * (2^n - 1) |
| `TaskPipeline.AlwaysFailingTask` | src/application/use_cases/consume_processing_tasks.py:105-159 | If processing always fails and publishes succeed, then from any state of any run without replays, among any other tasks, the queue drains, and an image uploaded once has run with attempts 0..maxAttempts in order, cost a delay of backoff * (2^maxAttempts - 1), and been dead-lettered once |
| `TaskPipeline.FailingTaskIsBuried` | src/application/use_cases/consume_processing_tasks.py:105-159 | The same at any moment at which the image no longer waits, drained queue or not; the worker's total sleep is the sum of the delays of what it ran |
| `DlqReplay.RunReplay` | src/dlq_replay.py:115-178 | A replay run ends having inspected at most limit records; what counts as sent was sent without failing; it ends at the first failing send or commit and says which; every earlier commit went through and everything replayable among the committed records was sent; outside a dry run without failures each inspected record was replayed or skipped and is committed; a dry run sends and commits nothing |
| `DlqReplay.PollUntilDone` | src/dlq_replay.py:131-173 | The loop ends at the limit, at the first empty poll, or at the first failing send or commit, with the counters exact |
| `DlqReplay.InspectsUntil` | src/dlq_replay.py:131-137 | A run that nothing interrupts goes on until the limit, an empty poll or the end |
| `DlqReplay.ReplayPoll` | src/dlq_replay.py:139-173 | One poll: no handled record's send failed; it commits only when all its records were handled, and a failing send or commit ends the run there |
| `DlqReplay.ReplayPartition` | src/dlq_replay.py:140-170 | One partition's records are handled in order until the first failing send of a replayable record |
| `DlqReplay.ReplayedOrSkipped` | src/dlq_replay.py:145-170 | Every record is replayed or skipped, never both and never neither |
| `RateLimiter.Limiter.Cleanup` | src/presentation/api/rate_limit.py:35-42 | Expired timestamps are popped and an empty list is dropped; other clients keep theirs |
| `RateLimiter.Limiter.Call` | src/presentation/api/rate_limit.py:44-57 | A request is admitted exactly when fewer than the maximum remain after pruning, and only the client's own list changes |
| `RateLimiter.PruneIsRecent` | src/presentation/api/rate_limit.py:35-42 | Popping from the front of a list that covers the log leaves exactly the log's entries no older than the cutoff |
| `RateLimiter.RunKeepsInv` | src/presentation/api/rate_limit.py:35-57 | With a clock that never goes back, in every run each client's list covers its part of the full admission log |
| `RateLimiter.RejectsExactlyWhenFull` | src/presentation/api/rate_limit.py:44-57 | A request is rejected if and only if the client has the maximum number of admissions in the closed window that ends now, and its list then is exactly those admissions |
| `RateLimiter.AtMostMaxPerWindow` | src/presentation/api/rate_limit.py:13-21 | Any closed interval of window length holds at most max_requests admissions of a client |
| `RateLimiter.ClientsAreIndependent` | src/presentation/api/rate_limit.py:44-57 | A client's admissions and list are those it would have had if no other client existed |
| `BilinearResize.CoordInBounds` | cpp/fast_resize.cpp:80-93 | Every source coordinate lies in the source, so row and column indices are valid |
| `BilinearResize.SimdIsScalar` | cpp/fast_resize.cpp:109-114 | The SSE2 form and the scalar form compute the same value |
| `BilinearResize.ValueIsWeightedSum` | cpp/fast_resize.cpp:162-164 | Both forms are the textbook weighted mean: each corner weighs the area of the rectangle opposite it |
| `BilinearResize.ValueBetweenCorners` | cpp/fast_resize.cpp:162-167 | The value lies between the least and the greatest of the four corners, so the clamp never acts |
| `BilinearResize.ResizedAt` | cpp/fast_resize.cpp:153-167 | Every channel of every destination pixel of the resized buffer is the interpolated value of its corners |
| `BilinearResize.ResizedClosedForm` | cpp/fast_resize.cpp:137-168 | The whole resize in integers: with the quotients and remainders of x * src_w by dst_w and y * src_h by dst_h, every byte is the mean of the four source bytes around, clipped at the edge, weighed by the remainders and rounded down |
| `BilinearResize.ScalarResize` | cpp/fast_resize.cpp:131-171 | The scalar loops compute the resized image, writing every destination byte exactly once and reading in bounds |
| `BilinearResize.SimdResize` | cpp/fast_resize.cpp:69-123 | The SSE2 loops compute the same image under the same conditions |
| `BilinearResize.Resize` | cpp/fast_resize.cpp:191-223 | Arguments are rejected exactly when a check fails; otherwise the resized image comes back, from either loop |
| `BilinearResize.SameSizeCopies` | cpp/fast_resize.cpp:137-168 | Resizing to the same size copies the image |
| `BilinearResize.StaysInRange` | cpp/fast_resize.cpp:137-168 | If all source bytes lie in a range, so do all destination bytes |
| `BilinearResize.ConstantStaysConstant` | cpp/fast_resize.cpp:137-168 | A constant image stays constant |
| `BilinearResize.Int32OffsetsSafeExactly` | cpp/fast_resize.cpp:153-166 | No offset the scalar loop computes for any read or write overflows int if and only if the furthest source byte it reads is below 2^31 and the destination has at most 2^31 bytes |
| `BilinearResize.FloatCoordInBounds` | cpp/fast_resize.cpp:141-148 | With relative error up to 2^-24 in each of the two operations the coordinate stays in the source for destination sizes up to 2^23 |
| `BilinearResize.FloatIndexSafeExactly` | cpp/fast_resize.cpp:141-148 | For sizes that binary32 holds exactly, the indices stay in bounds under every such rounding if and only if the destination size is at most 2^23 |
| `BilinearResize.FloatIndexEscapes` | cpp/fast_resize.cpp:141-148 | A concrete binary32 computation, rounded to nearest at each step, whose column index leaves the source |
| `FitDimensions.FitsBox` | cpp/fast_resize.cpp:278-291 | The result has sides of at least 1, fits the box and never exceeds the source; an image that fits stays as it is |
| `FitDimensions.KeepsAspectRatio` | cpp/fast_resize.cpp:283-290 | When the image shrinks, the side with the smaller ratio meets its limit exactly and the other is the integer nearest to the exact side, halves up, at least 1 |
| `FitDimensions.FitIsIdempotent` | cpp/fast_resize.cpp:278-291 | Fitting again changes nothing |
| `Sanitize.SanitizedIsSafe` | src/presentation/sanitize.py:30-59 | A sanitised name is non-empty, at most 255 long, of safe characters only, does not start with a separator, has no two adjacent ones, and ends in one only where it was truncated |
| `Sanitize.FixedExactly` | src/presentation/sanitize.py:46-59 | Sanitising again is the identity exactly when the name does not end in a separator, that is unless the truncation cut right after one |
| `Sanitize.TwiceIsFixed` | src/presentation/sanitize.py:46-59 | After two applications a fixed point is always reached |
| `Sanitize.OnceIsNotAlwaysFixed` | src/presentation/sanitize.py:52-57 | A concrete name for which one application is not a fixed point |
| `Sanitize.SanitizedIsOneComponent` | src/presentation/sanitize.py:36-41 | A sanitised name is a single path component under both separators |
| `Sanitize.UnchangedExactly` | src/presentation/sanitize.py:30-59 | A name is left exactly as it is if and only if it is non-empty, at most 255 long, all safe characters, and has no separator at an end or next to another |
| `Sanitize.OnlyUnsafeReplaced` | src/presentation/sanitize.py:46-47 | Where replacing unsafe characters by underscores already gives a tidy name, nothing else happens |
| `Sanitize.DirectoriesAreDropped` | src/presentation/sanitize.py:36-37 | Directories before a path that names something leave no trace |
| `Sanitize.FoldersAreDropped` | src/presentation/sanitize.py:39-41 | So do folders before the last backslash |
| `Sanitize.NulsAreIgnored` | src/presentation/sanitize.py:30-31 | NUL characters are as if they were not there |
| `Sanitize.NulIsDropped` | src/presentation/sanitize.py:30-31 | A NUL anywhere changes nothing |
| `Sanitize.TrailingSlashIgnored` | src/presentation/sanitize.py:36-37 | A trailing slash changes nothing |
| `Sanitize.GapBecomesUnderscore` | src/presentation/sanitize.py:46-50 | Between two tidy words any run of separators and unsafe characters becomes one underscore, and only a single separator stays |
| `Sanitize.EdgesAreStripped` | src/presentation/sanitize.py:43-53 | Before and after a tidy word such runs go |
| `Sanitize.UnnamedExactly` | src/presentation/sanitize.py:37-59 | Nothing is left, and the name is "unnamed", if and only if the base name holds only separators and unsafe characters |
| `Sanitize.CutToFront` | src/presentation/sanitize.py:55-57 | A longer tidy name is cut to its first 255 characters |
| `Sanitize.FrontOfTidied` | src/presentation/sanitize.py:55-59 | Any name is the front of the untruncated one, all of it up to 255 characters |
| `Sanitize.SafeCharacters` | src/presentation/sanitize.py:13-14 | The characters kept are the ASCII letters and digits, underscore, dot and hyphen |
| `ImageCache.InMemoryImageCache.Get` | src/infrastructure/cache/in_memory_cache.py:33-41 | A live entry is returned as the stored object itself; an expired one is dropped and misses |
| `ImageCache.InMemoryImageCache.Set` | src/infrastructure/cache/in_memory_cache.py:43-52 | A set evicts only when full and the id is new: the expired entries first, then if still full one with the least expiry |
| `ImageCache.InMemoryImageCache.EvictExpired` | src/infrastructure/cache/in_memory_cache.py:62-66 | The deletion loop leaves exactly the entries not yet expired |
| `ImageCache.InMemoryImageCache.EvictOldest` | src/infrastructure/cache/in_memory_cache.py:68-72 | One entry with the least expiry goes, or nothing from an empty store |
| `ImageCache.SizeBounded` | src/infrastructure/cache/in_memory_cache.py:43-52 | In every run of cache operations the store holds at most max(1, max_size) entries |
| `ImageCache.SetEvictsOnlyOldest` | src/infrastructure/cache/in_memory_cache.py:43-72 | A set removes a live entry of another id only when the store was full with nothing expired; that entry has the least expiry and is the only one removed |
| `ImageCache.SetInserts` | src/infrastructure/cache/in_memory_cache.py:43-52 | The entry just set is there with its full time to live, nothing else is new or changed, and nothing goes unless the cache was full and the id new |
| `CacheCoherence.RunKeepsInv` | src/infrastructure/cache/cached_image_repository.py:27-59 | In every interleaving of readers, writers and several processes' caches, all that is cached or about to be was read from the repository in this run |
| `CacheCoherence.HitWasHeldRecently` | src/infrastructure/cache/cached_image_repository.py:32-41 | A hit was put there by a fill of this run, with a value the repository really held for that id when the fill read it, no earlier than the hit minus the TTL minus that fill's read-to-set delay |
| `CacheCoherence.AgreesFromNowOnExactly` | src/infrastructure/cache/cached_image_repository.py:27-59 | From any point of any run, hits agree with the repository until the id is written again, whatever else happens, if and only if now a hit agrees and so does every fill in flight |
| `CacheCoherence.SaveAgreesExactly` | src/infrastructure/cache/cached_image_repository.py:27-30 | After a save and its invalidation hits agree until the next write, if and only if no fill in flight at the invalidation carries another value |
| `CacheCoherence.DeleteAgreesExactly` | src/infrastructure/cache/cached_image_repository.py:48-50 | After a delete the image is not served until written again, if and only if at the removal of the row there is no live entry and no fill in flight, whatever the earlier invalidation did |
| `CacheCoherence.OverlapCanServeStale` | src/infrastructure/cache/cached_image_repository.py:27-41 | A run in which a fill puts back an older value after the writer's invalidation |
| `CacheCoherence.DeleteCanLeaveEntry` | src/infrastructure/cache/cached_image_repository.py:48-50 | A run in which the delete's order leaves a live cache entry for a deleted row although no fill is in flight when the row goes |
| `ImageEntity.SaveLoadExactly` | src/infrastructure/database/postgres_image_repository.py:156-194 | Saving and loading gives the entity back if and only if its metadata does not claim zero channels or, lacking metadata, the row had none |
| `ImageEntity.LoadedImage` | src/infrastructure/database/postgres_image_repository.py:173-194 | A row loads with the same columns, without metadata if it has no width, and with the stated defaults for missing or empty metadata columns |
| `ImageFiles.UploadKeepsConsistent` | src/application/use_cases/upload_image.py:71-85 | An upload under any file name whose path no other image uses keeps rows and files consistent, whichever of its calls fails or tears the file |
| `ImageFiles.ProcessConsistentExactly` | src/application/use_cases/process_image.py:75-118 | On any entity a cache may hand out, row gone or stale included, a processing run keeps rows and files consistent if and only if it saves nothing or the entity's original is there and is not the thumbnail the cleanup deletes |
| `ImageFiles.RetentionKeepsConsistent` | src/application/use_cases/apply_retention.py:28-44 | So does a retention sweep: it deletes only files that no remaining row uses |
| `ImageFiles.FilesArePresent` | src/application/use_cases/process_image.py:75-118 | In every run of non-overlapping uploads of unnested names, processing runs on entities that agree with their rows up to status and date, and sweeps, with failing calls and no path shared by two images: at every point every row's original is present and every COMPLETED row has metadata and a present thumbnail |
| `ImageFiles.RetentionPresentExactly` | src/application/use_cases/apply_retention.py:34-41 | Even with shared paths, after a sweep the remaining rows have their files if and only if no image the sweep got to deleted them |
| `ImageFiles.SweepKeepsExactly` | src/application/use_cases/apply_retention.py:34-41 | A file survives a sweep, unchanged, if and only if no image before the first abort deletes it |
| `ImageFiles.ErrorsAreOsFailures` | src/application/use_cases/apply_retention.py:34-41 | The error count is the number of images the sweep got to that met an OSError |
| `ImageFiles.FilesArePresentExactly` | src/application/use_cases/process_image.py:75-118 | In every run of non-overlapping uploads, processing runs on entities from any cache and sweeps, with failing calls and no path shared by two images: every row's original is present and every COMPLETED row has metadata and a present thumbnail throughout, if and only if every processing run that saves anything finds its original |
| `ImageFiles.StaleEntityLosesOriginal` | src/infrastructure/cache/cached_image_repository.py:32-41 | The condition is needed: an upload, its expiry swept by another process, and processing out of a cache leave a row whose original is missing |
| `ImageFiles.AgreeingEntityFindsOriginal` | src/application/use_cases/process_image.py:64-83 | An entity that agrees with its row up to status and date, whose original is stored under its own unnested file name, always meets the condition; every row of an ordinary run is such |
| `ImageFiles.ThumbnailNameDiffersExactly` | src/application/use_cases/process_image.py:83 | The thumbnail's stored name differs from the original's if and only if nothing in the file name stands after a slash |
| `ImageFiles.SanitizedIsNotNested` | src/presentation/sanitize.py:36-59 | Names that come through the sanitiser never have such a part |
| `ImageFiles.StoredNameIsOneComponent` | src/infrastructure/storage/local_image_storage.py:27-33 | Whatever the file name, the stored name is one non-empty component, so the traversal check never fires |
| `ImageFiles.PlainStoredName` | src/infrastructure/storage/local_image_storage.py:27-28 | Storage keeps a name without a slash as it is, and calls those that name nothing "unnamed" |
| `ImageFiles.FilesHoldTheirContent` | src/infrastructure/storage/local_image_storage.py:25-50 | In every run without torn writes every file holds bytes of the digest its path names |
| `ImageFiles.RetrievedIsUploaded` | src/infrastructure/storage/local_image_storage.py:25-41 | What was stored comes back: a file present under an upload's path holds the uploaded bytes, whatever ran, provided no write of the run left other bytes under their digest |
| `ImageFiles.SuccessfulRun` | src/application/use_cases/process_image.py:75-93 | A run returns True only with the row COMPLETED at the completion's date, the processor's five metadata values in their columns, the thumbnail's bytes stored and recorded under "thumb_" and the file name, and all else as the entity had it |
| `ImageFiles.FailedRun` | src/application/use_cases/process_image.py:105-118 | A failed run leaves FAILED at the failure's date if its last save went through, PROCESSING at the start's date if only the first did, nothing changed if none did; the other columns exactly |
| `ImageFiles.DanglingThumbnailExactly` | src/application/use_cases/process_image.py:92-113 | A failed run whose last save went through ends with the row naming a missing thumbnail if and only if the thumbnail was stored, the COMPLETED save failed and the cleanup worked, or none was made and the entity already named a missing one |
| `ImageFiles.NextLoadAgreesExactly` | src/application/use_cases/process_image.py:92-118 | After a run on any entity whose last save went through, loading the row gives the entity back if and only if its metadata does not claim zero channels and, if it has none, the row had none |
| `ImageFiles.SharedPathLosesFile` | src/infrastructure/storage/local_image_storage.py:25-36 | Without the assumption on paths it fails: two uploads of one file, and expiring one takes the other's original |
| `ImageService.ImageRepository.Save` | src/infrastructure/database/postgres_image_repository.py:21-29 | The row becomes the entity's, keeping metadata columns the entity does not set; a raising save rolls back |
| `ImageService.ImageRepository.DeleteExpiredBatch` | src/infrastructure/database/postgres_image_repository.py:65-82 | Exactly the picked expired rows go, and their contents come back in order |
| `ImageService.CachedImageRepository.Save` | src/infrastructure/cache/cached_image_repository.py:27-30 | A save drops the id's entry, a raising one leaves the cache alone; entities stay under their own ids, and in agreement with their rows if they were |
| `ImageService.CachedImageRepository.GetById` | src/infrastructure/cache/cached_image_repository.py:32-41 | A live entry is returned as the cached object whatever became of its row, a miss loads and caches a new one, and only a miss can raise; caller and cache share the object, no other entry is added or changed |
| `ImageService.CachedImageRepository.Delete` | src/infrastructure/cache/cached_image_repository.py:48-50 | The entry goes even when the row's delete raises |
| `ImageService.CachedImageRepository.DeleteExpiredBatch` | src/infrastructure/cache/cached_image_repository.py:55-59 | The invalidation loop drops exactly the deleted images' entries |
| `ImageService.ApplyRetentionUseCase.DeleteFiles` | src/application/use_cases/apply_retention.py:35-41 | One image's files go, original first; an OSError skips the rest and is told apart from other exceptions |
| `ImageService.ApplyRetentionUseCase.DeleteAll` | src/application/use_cases/apply_retention.py:34-41 | The loop leaves the files the sweep function says, with the exact error count |
| `ImageService.ApplyRetentionUseCase.Execute` | src/application/use_cases/apply_retention.py:28-44 | The sweep removes exactly the picked rows and their cache entries, never an image that has not expired, has the effect on files that the run theorem uses, counts exactly the images that met an OSError, and finishes if and only if no other exception occurred |
| `ProcessUseCase.ProcessImageUseCase.ProcessById` | src/application/use_cases/process_image.py:64-118 | On whatever entity the cache holds, stale or row gone, or the row's on a miss: although the run mutates the very object the cache holds, the cache has an entry for the image afterwards if and only if no save went through; after a last save that returned there is none and the row loads as the entity exactly when a row can represent it; other images' entries and objects are untouched |
| `ProcessUseCase.ProcessImageUseCase.Process` | src/application/use_cases/process_image.py:75-118 | A run on an existing image has the stated effect on rows, files and entity, ends as stated, and the cache keeps the entry only if no save went through |
| `ProcessUseCase.ProcessImageUseCase.Produce` | src/application/use_cases/process_image.py:80-93 | The rest of the try block stops at the first failing call and otherwise saves the row COMPLETED |
| `ProcessUseCase.ProcessImageUseCase.Handle` | src/application/use_cases/process_image.py:105-118 | The except block cleans up, marks and saves FAILED, and says which of its calls raised |

## Left out

- UploadUseCase.UploadImageUseCase.Execute: other requests act only between the lookup and the claim, and leave this process's cache alone; interference at the other calls is covered by the protocol's own runs.
- ProcessUseCase.ProcessImageUseCase.Execute: the same.
- TaskPipeline.RunKeepsInv: a worker step, its backoff sleep included, is one action against uploads and replay steps; the dead-letter topic differs from the processing topic, there is a single worker, at most one replay run is in progress, and only uploads whose publish succeeded count; a backoff too large for a float, an exception of the consume call and a cancelled worker are not modelled.
- ImageFiles.FilesHoldTheirContent: assumes that a torn write leaves nothing of another digest.
- IdempotencyProtocol.RunKeepsInv: a database call that commits and yet raises is not modelled; cancelling a request is the same action as crashing.
- BilinearResize.SimdIsScalar: exact arithmetic; equality of the two forms does not survive binary32 rounding of pixel values.
- BilinearResize.FloatCoordInBounds: covers the two operations that make an index, the division and the product, for sizes that binary32 represents exactly; rounding of fractions and blended values is not modelled.
- BilinearResize.Int32OffsetsSafeExactly: the only place where the 32-bit width of C++ integers is modelled, with source positions in exact arithmetic.
- FitDimensions.FitsBox: exact arithmetic instead of double precision.
- RateLimiter.RunKeepsInv: requests are handled one after another in clock order; a thread that read its clock earlier but got the lock later is not modelled, nor is the choice of the client address from request headers.
- Sanitize.SanitizedIsSafe: starts from text already reduced to ASCII; the Unicode normalisation is not modelled.
- TaskMessages.DeadLetterRoundTrip: rests on the `Lawful` promises of the JSON and UUID libraries; recursion limits and the limit on the digits of an integer are outside them.
- DlqReplay.RunReplay: the replay consumer is a list of polls that respect max_records; starting, stopping and rebalancing the Kafka client are not modelled, nor is its command line.
- CacheCoherence.AgreesFromNowOnExactly: image values are immutable here; sharing of mutable objects is the subject of `ImageService`, where calls do not overlap.
- ImageFiles.FilesArePresentExactly: operations do not overlap.
- Listing, counting, get-image and batch use cases, and the retention policy matching: easy members.
- HTTP routes, schemas, logging, metrics, dependency wiring, the Kafka adapter and the worker's signal handling: no invariant beyond the libraries they wrap.
- Thumbnail generation and image validation: an arbitrary result or failure.
- The bytes entry point of the resize module: the same loops as `BilinearResize.Resize` behind a different container.
