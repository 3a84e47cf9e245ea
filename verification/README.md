# A verified model of the speech-to-text pipeline

This project models the core of the on-ramp STT service and proves what the service relies on. It has four parts.

**The chunk and job ledger.** A recording is split into chunks; every chunk has a row, its job has a row, and every
piece of work is an event that travels from an outbox table through a redelivering stream to a worker, which records the
event in an inbox table when it commits. `Ledger` holds the tables, `Transactions` says what each database transaction
does to them, and `Pipeline` is the step system: any number of orchestrators, publishers, CLOVA workers and correction
workers, with duplicate publishing, redelivery, expiring leases, crashes, inbox checks that are stale by the time the
row lock is held, and a clock. `LedgerInvariant` is the invariant of the tables, which `ClovaProofs`,
`OrchestratorProofs` and `CorrectionProofs` show to be kept; `Commits` lists the changes a transaction can make and what
it leaves alone for others; `PipelineProofs` and `Runs` carry the invariant to streams, in-flight workers and whole
runs. `StepEffects` says, for every run, what each committing step leaves in the tables, row by row and field by field.
The theorems about all runs are in `LedgerTheorems` and `Answers`, which traces a stored transcript back to the provider
calls; three concrete runs are in `LateMarks`. `Services` and `OutboxPublisher` hold the same transactions as the
services write them, as methods that update row objects field by field, each proved to compute its function of
`Transactions` or, for the publisher, to be a sequence of steps of `Pipeline`. A chunk row keeps its time map and the
provider's segments, and the job row the merged transcript, so the ledger's theorems speak of the merger's result.
`Semaphore` is the Redis lease semaphore beside them.

**From audio to chunks.** `Vad` is the ring-buffer segmentation with a specification that mentions no buffer, `Grouping` the
greedy grouping behind both splitting and packing, `Chunks` the splitter, packer and writer, `TimeMap` the inverse of the
writer's time map, and `ChunkTheorems` what they give together.

**From chunks to a transcript.** `Merger` is the merge loop and `MergerTheorems` what it keeps. `Sorting` is a stable sort.
`Recordings` follows one recording from its audio through any run of the ledger to the stored transcript.

**Correction.** `RuleCorrector` chooses and splices dictionary matches, `RuleCorrectorTheorems` says which are chosen,
`Splicing` what can be read off the result, line by line; `CorrectionService` adds the validated language-model pass and the
alignment with segments, and `CorrectionTheorems` shows that the alignment holds. `Text` models stripping and line splitting.

Times are sample counts (every supported sample rate is a multiple of 1000, so a gap in milliseconds is a whole number of
samples), held as `real` where the source divides. Provider calls, storage, the voice detector, the phrase patterns, text
normalization, lower-casing, the language model's answer, fresh ids and clock readings are parameters or free choices of a
step.

## What the proofs say about the code

- Nothing but the inbox key keeps stale workers out. `_record_success` and `_record_failure` compare no lease owner, and
  `_record_failure` does not look at the chunk's status, yet a finished chunk never changes again, because the event of a
  stale worker is already in the inbox (`FinishedChunksStay`, `MergeNeverIncomplete`). A lease only keeps other workers from
  claiming, for a lease's length after the reading it was taken with (`LeaseHolds`, `OneLeaseAtATime`).
- A stored transcript is made of provider answers: every completed chunk holds what an earlier call for that very chunk
  returned, to a worker that had leased it (`CompletedFromProvider`, `HeldCall`), and the transcript has exactly their
  segments with text, each at its own source time, up to duplicates (`StoredTranscript`).
- The lookup errors of `_claim` and the "incomplete chunks" error of the merge are unreachable. The shortcuts for a completed
  chunk in `_claim` and `_record_success` never commit: whenever one is taken the inbox key it inserts is already there.
- The unguarded status writes follow the declared table except in three situations, all due to the orchestrator's
  unconditional `_mark_failed`: `JobChangeDeclared` is an if-and-only-if over all runs, and `LateMarks` gives a concrete
  run for each. Walks that leave `failed` by the operator's requeue edge are not counted as declared, since almost every
  pair of statuses would then be connected.
- `map_chunk_time` intends the first source start for a time before the first mapping; with two or more mappings the gap
  branch of the second mapping catches such a time first and returns the end of the first segment. Monotonicity over all
  times holds exactly for a single mapping (`MonotoneOnlyForOneSegment`).
- With a zero gap the opening instant of a segment maps to the end of the segment before it; the two differ exactly when
  source audio was dropped between them (`SampleComesFromMappedTime`; `ZeroGapCounterexample` is such a map).
- The merge does not always keep the most confident of a run of duplicates. It does exactly when no item after the last of
  the most confident ones is longer than the one kept up to there (`LessConfidentKept`; `LessConfidentExample` is a run
  that keeps the less confident item).
- From segments in order of time the loop of the merge leaves no adjacent duplicates, but the final sort can bring two of
  them together (`SortJoinsDuplicates`). It does not exactly when another segment lies between any two duplicates in order
  of start, end and place (`SortedApartExactly`); in particular when segments that start together end in order, which is
  exactly when it leaves the list alone (`SortKeepsOrdered`). `RecordingTranscript` says so of a recording's stored
  transcript.
- The corrected text has one line per line of the raw text if the canonical forms that may be written are single non-empty
  lines and no phrase is found across a line break (`Lineal`). Whatever the dictionary and the text, it has exactly when the
  model's answer was taken or the replacements write as many line breaks as they remove, where an end that comes to lie
  within a line counts as one more and a carriage return that comes to stand before a line feed as one less
  (`ShapeKeptExactly`); `ShapeLostExample` is a dictionary of one two-line term with which a segment loses its correction.
- The segments fall back to their raw texts exactly when the raw text does not have one line per segment
  (`FallbackExactly`), which `RenderedLines` relates to line breaks in the provider's texts.
- The semaphore's limit needs clients whose clocks are not ahead of the server's. In a run with arbitrary readings it holds
  exactly when no step overfills the set (`LimitHoldsExactly`). A request does when the limit is used up and the request
  counts fewer leases than that, because its own reading takes some for expired or because the key's deadline has dropped
  them (`LimitBrokenExactly`); so the request that breaks the limit can be an honest one, after an earlier reading that was
  ahead (`EarlierReadingBreaksLimit`). While all readings before were in order, only a reading ahead of the clock breaks
  it (`FirstBreakExactly`, `ClockAheadBreaksLimit`). With no request in between, the key's deadline cuts a lease off before
  it expires exactly when the lease's reading was ahead (`CutOffExactly`).

## Model

| member | source | states |
|---|---|---|
| LedgerTheorems.ExactlyOneLiveRequest | app/services/clova_worker.py:93-244 | in every reachable state a stored chunk has exactly one request event outside the inbox while unfinished and none once finished; its request events number its retried failures plus one, at most the retry limit plus one |
| LedgerTheorems.CountersAreExact | app/services/clova_worker.py:148-232 | in every reachable state the job's counters equal the numbers of completed and failed chunks and their sum is at most the total |
| LedgerTheorems.ProgressEventsInRange | app/queue/events.py:36-44 | every progress event ever written has counts within the total and a ratio in 0..1 that is the completed share |
| LedgerTheorems.TranscriptOnce | app/services/clova_worker.py:246-309 | in every reachable state there is one transcript announcement and the merged segments of all chunks' results if all chunks completed, else neither; none when any chunk failed |
| Answers.StoredTranscript | app/services/clova_worker.py:262-294 | in every reachable state a stored transcript goes back to one provider answer per chunk, each given in an earlier step to a request for that chunk: it is in order of start and end, every item is a segment of these answers with its stripped text, its speaker and confidence, and its times mapped by the chunk's own map, and every segment of them with text is kept up to normalization |
| Answers.CompletedFromProvider | app/services/clova_worker.py:56-156 | in every reachable state a completed chunk holds exactly the segments that an earlier provider call returned, made for this job, index and object key |
| Answers.HeldCall | app/services/clova_worker.py:56-67 | in any run a worker calls the provider only after a claim of its own that took the lease of the requested chunk |
| Answers.LeaseHolds | app/services/clova_worker.py:116-125 | in any run the chunk row that a claim leaves (processing, owned by the worker, leased for the lease's length from the reading) stays that very row until the lease is over, unless a result for the chunk commits |
| Answers.OneLeaseAtATime | app/services/clova_worker.py:368-376 | in any run a second claim takes a chunk's lease only when the first lease is over at its reading or a result for the chunk has committed in between |
| StepEffects.ClaimTakes | app/services/clova_worker.py:116-125 | in any run a claim takes the chunk if and only if it is unfinished and not under a lease at the reading; it then sets status, owner and expiry and nothing else, and otherwise changes no table |
| StepEffects.SuccessStores | app/services/clova_worker.py:148-172 | in any run a committed success stores the worker's own provider segments in its chunk, counts it, announces the transcript with the last chunk and only then, adds a progress row if and only if it is due, and marks the worker's event; nothing else changes |
| StepEffects.FailureStores | app/services/clova_worker.py:191-243 | in any run a committed failure schedules a new request for the same chunk and object if and only if the error is retryable and retries are left, and else fails chunk and job with a dead letter and a progress row; either way it marks the worker's event and changes nothing else |
| StepEffects.EnsureStores | app/services/orchestrator.py:53-71 | in any run ensuring a job adds an empty row in preprocessing if there is none and changes nothing else |
| StepEffects.PreprocessStores | app/services/orchestrator.py:95-138 | in any run preprocessing gives a job without chunks one pending chunk per upload, in order, with one request each, due at once; for a job with chunks it only marks the event, and for a marked event or a missing job it changes nothing |
| StepEffects.MarkStores | app/services/orchestrator.py:146-153 | in any run a failure mark sets the status of an existing job and nothing else |
| StepEffects.BeginStores | app/services/correction_worker.py:56-67 | in any run the first correction transaction sets a completed transcript to correcting and nothing else; it raises exactly for a corrected job |
| StepEffects.SaveStores | app/services/correction_worker.py:73-147 | in any run the saving transaction commits if and only if its event is unprocessed and the job is completed or correcting; it then stores the version once, corrects the job, announces it and marks the event |
| StepEffects.RecordStores | app/services/correction_worker.py:158-216 | in any run a correction failure is only counted, and its message left unacknowledged, if and only if the error is retryable and the count was below the limit; else the job fails with a dead letter, a progress row and the mark if the event is unprocessed and the job can still fail, and nothing changes if not |
| StepEffects.PublisherStores | app/queue/outbox.py:45-66 | in any run a publisher step adds one stream entry, sets one row's time of publication or raises its attempts by one, and changes nothing else |
| Recordings.RowsFromUpload | app/services/orchestrator.py:95-138 | in every reachable state the chunk rows of a job carry the object keys and time maps of the one upload in the run that split it |
| Recordings.RecordingTranscript | app/services/clova_worker.py:262-294 | when the uploads are the chunks cut from a recording and the provider's times are in order within each chunk, the stored transcript is the sort of a list in time order without adjacent duplicates, and is that list if and only if segments that start together end in order; it has no adjacent duplicates if and only if another segment lies between any two duplicates of the list |
| LedgerTheorems.MergeNeverIncomplete | app/services/clova_worker.py:127-168 | in any run a success transaction commits if and only if its event is not in the inbox, and can only raise for that reason |
| LedgerTheorems.SettledAtMostOnce | app/services/correction_worker.py:51-216 | in every reachable state a job has at most one completed event or correction dead letter, never both; one stored correction per completed event; at most the retry limit plus one counted failures |
| LedgerTheorems.AcknowledgedIsProcessed | app/workers/clova.py:80-89 | an acknowledged message's event is in the inbox of the group that reads its stream |
| LedgerTheorems.NoChunkLost | app/queue/outbox.py:45-64 | the one live event of an unfinished chunk is unpublished in the outbox or in an unacknowledged stream entry |
| LedgerTheorems.NoTranscriptLost | app/workers/correction.py:38-48 | the same for a transcript announcement that no correction worker has settled |
| LedgerTheorems.ChunkChangeDeclared | app/services/job_state.py:15-27 | every committed chunk change is a walk in the declared chunk table, made by a claim or a result of that very chunk; a chunk leaves processing if and only if a success or failure for it commits, so no result commits from another status; finished chunks are left alone |
| LedgerTheorems.FinishedChunksStay | app/services/clova_worker.py:176-244 | a completed or failed chunk row is the same in all later states |
| LedgerTheorems.TranscriptStays | app/services/clova_worker.py:290-294 | a merged transcript is the same in all later states |
| LedgerTheorems.JobChangeDeclared | app/services/job_state.py:3-13 | a committed job change is a declared walk if and only if it is not a mark of a corrected job as failed, nor the splitting or completing commit of a job marked as failed |
| LedgerTheorems.StatusFollowsLedger | app/services/orchestrator.py:146-153 | if no orchestrator marks the job as failed after its chunks exist, the job's status is determined by its chunks and its settlement in every state |
| LedgerTheorems.EffectUsesAttempt | app/services/clova_worker.py:197-242 | a committed success or failure strictly lowers the attempts left for the job's chunks, and nothing else touches them once the chunks exist |
| LedgerTheorems.EffectsBounded | app/services/clova_worker.py:197-242 | in any run a job commits at most retry limit plus one results per chunk |
| LedgerTheorems.ClaimOutcomes | app/services/clova_worker.py:101-125 | in any run a claim's locked body leases the chunk if and only if it is unfinished and not under a lease at the reading, raises for the inbox key if and only if it is completed, and as not claimable in exactly the other cases; its lookup errors never happen and its completed shortcut never commits |
| LedgerTheorems.LeaseExcludes | app/services/clova_worker.py:368-376 | while a chunk's lease runs, no step changes the chunk except a committed result for that very chunk, which takes it out of processing |
| LedgerTheorems.RunClaimsPast | app/services/clova_worker.py:99 | no claim in any run uses a clock reading from the future |
| LateMarks.FailedJobIsRevived | app/services/orchestrator.py:95-111 | a run of three steps takes a job from failed to transcribing |
| LateMarks.FailedJobIsCompleted | app/services/clova_worker.py:160-168 | a run of nine steps takes a job from failed to transcript_completed |
| LateMarks.CorrectedJobIsFailed | app/services/orchestrator.py:146-153 | a run of sixteen steps takes a job from correction_completed to failed |
| LateMarks.NotDeclared | app/services/job_state.py:3-13 | none of the three changes is a declared walk |
| ClovaProofs.RequestMatchesChunk | app/services/clova_worker.py:104-115 | a request event names a stored chunk with the stored object key |
| ClovaProofs.UnprocessedIsLive | app/db/models.py:145-146 | a request event outside the inbox is the only such event of its chunk, and the chunk is unfinished |
| ClovaProofs.ClaimKeepsInvariant | app/services/clova_worker.py:104-125 | the locked claim body keeps the ledger invariant, stale or not |
| ClovaProofs.SuccessKeepsInvariant | app/services/clova_worker.py:134-168 | a success transaction keeps the ledger invariant, whoever commits it |
| ClovaProofs.FailureKeepsInvariant | app/services/clova_worker.py:182-244 | a failure transaction keeps the ledger invariant although it checks neither status nor owner |
| OrchestratorProofs.PreprocessKeepsInvariant | app/services/orchestrator.py:95-138 | the transaction that creates chunks and first events keeps the ledger invariant, however often it runs |
| OrchestratorProofs.MarkFailedKeepsInvariant | app/services/orchestrator.py:146-153 | so does the unconditional failure mark |
| CorrectionProofs.BeginKeepsInvariant | app/services/correction_worker.py:56-67 | the first correction transaction keeps the ledger invariant |
| CorrectionProofs.SaveKeepsInvariant | app/services/correction_worker.py:73-147 | the saving correction transaction keeps the ledger invariant |
| CorrectionProofs.FailKeepsInvariant | app/services/correction_worker.py:158-216 | the transaction that counts a correction failure keeps the ledger invariant |
| PipelineProofs.AcknowledgeKeepsInv | app/workers/clova.py:89 | acknowledging a finished message keeps the system invariant |
| PipelineProofs.ClaimStepKeepsInv | app/services/clova_worker.py:99-125 | a claim by a stale inbox check keeps the system invariant and at most leases its chunk |
| Runs.StepKeepsInv | app/services/clova_worker.py:56-91 | every enabled step of any worker keeps the system invariant and makes one of the listed changes to one job |
| Runs.RunInv | app/services/clova_worker.py:56-91 | the system invariant holds in every state of every run |
| Commits.EffectAdvances | app/services/clova_worker.py:172-244 | a committed result takes its chunk out of processing only together with marking the chunk's one live event, so in-flight workers stay safe |
| Services.Session.Commit | app/queue/inbox.py:19-31 | a commit writes the job row, the rows and the inbox keys, or nothing when a key exists |
| Services.OrchestratorService.EnsureJob | app/services/orchestrator.py:53-71 | creates the job row if there is none and changes nothing else; raises exactly when the stored job is for another tenant or source |
| Services.OrchestratorService.Preprocess | app/services/orchestrator.py:95-138 | the loop over the uploaded chunks stores one pending chunk and one request event each, all or nothing |
| Services.OrchestratorService.MarkFailed | app/services/orchestrator.py:146-153 | overwrites the status of an existing job and changes nothing else |
| Services.ClovaChunkService.ClaimChunk | app/services/clova_worker.py:104-125 | the whole new state and outcome of the locked claim body, error cases included |
| Services.ClovaChunkService.RecordProgress | app/services/clova_worker.py:311-345 | the job row and the row added when progress is due, nothing otherwise |
| Services.ClovaChunkService.MergeTranscription | app/services/clova_worker.py:246-309 | merges exactly when every chunk is stored and completed: the stored segments are the merge of all chunks' results with their time maps, with the announcement and the new status |
| Services.ClovaChunkService.SaveTranscript | app/services/clova_worker.py:152-171 | the row updates of a success, with the merge on the last chunk |
| Services.ClovaChunkService.RecordSuccess | app/services/clova_worker.py:127-172 | the whole new state of a success transaction, or the reason it raises |
| Services.ClovaChunkService.SaveError | app/services/clova_worker.py:197-243 | the row updates of a failure: retry with a new request event, or dead letter and failed job |
| Services.ClovaChunkService.RecordFailure | app/services/clova_worker.py:176-244 | the whole new state of a failure transaction, or the reason it raises |
| Services.CorrectionWorkerService.Begin | app/services/correction_worker.py:56-67 | the whole new state and outcome of the first correction transaction |
| Services.CorrectionWorkerService.Save | app/services/correction_worker.py:73-147 | the whole new state of the saving transaction, or the reason it raises |
| Services.CorrectionWorkerService.RecordFailure | app/services/correction_worker.py:158-216 | the whole new state and answer of counting a failure |
| OutboxPublisher.Publisher.PublishOnce | app/queue/outbox.py:29-66 | every successful stream write takes effect; the row updates do only if the pass commits; the count of published rows |
| OutboxPublisher.PassIsSteps | app/queue/outbox.py:45-66 | one pass, committed or not, is a sequence of enabled publisher steps of the pipeline |
| OutboxPublisher.PassWrites | app/queue/outbox.py:45-66 | after a committed pass each row of the batch is published at the pass's time if its stream write went through and else has one attempt more, no other row differs, the stream has one entry per write that went through and nothing else new, and the count is the number of these writes |
| JobState.JobSinks | app/services/job_state.py:3-13 | no declared walk leaves a corrected job, nor a failed one without the requeue edge |
| JobState.OneWholeWalk | app/services/job_state.py:3-13 | a queued job is corrected by exactly one declared walk, through preprocessing, transcribing, merging, transcript_completed and correcting in this order |
| JobState.ChunkSettles | app/services/job_state.py:15-27 | a declared walk enters completed only from processing, failed only from processing or retry_wait, and processing only from pending |
| Semaphore.LeaseSet.Acquire | app/queue/semaphore.py:8-20 | the whole new set and deadline and whether a lease was granted |
| Semaphore.LeaseSet.Renew | app/queue/semaphore.py:22-34 | the whole new set and deadline and whether the lease was there |
| Semaphore.LeaseSet.Release | app/queue/semaphore.py:58-59 | the lease is gone and nothing else |
| Semaphore.LimitHolds | app/queue/semaphore.py:8-71 | in every state of every interleaving each unexpired held lease is still in the set with its expiry, and there are at most as many as the limit |
| Semaphore.RefusedOnlyWhenFull | app/queue/semaphore.py:15-18 | a lease is refused only when the limit was used up at the client's reading, and exactly then with an up-to-date reading |
| Semaphore.AcquiredExactly | app/queue/semaphore.py:8-22 | in any run with readings in order a granted lease lasts a lease's length from the reading; a request, granted or not, drops from the set what had expired at the reading and nothing else, and takes no lease from a client |
| Semaphore.RenewedExactly | app/queue/semaphore.py:24-34 | in any run with readings in order every lease in use can be renewed, a renewed one lasts a lease's length from the reading, one that is not renewed is in use by nobody, and no other lease is touched |
| Semaphore.ReleasedExactly | app/queue/semaphore.py:58-59 | in any run a release takes exactly the one lease out of the set and out of use |
| Semaphore.LimitHoldsExactly | app/queue/semaphore.py:8-34 | in a run with arbitrary readings the leases in use stay within the limit if and only if no step overfills: a request that counts fewer than the limit while it is used up, or a renewal that revives a lease then |
| Semaphore.LimitBrokenExactly | app/queue/semaphore.py:8-22 | after arbitrary earlier readings, for every reading: the leases in use are over the limit after a request if and only if they were before, or the limit is used up, fewer are still in the set and open at the reading, and the new lease is not past |
| Semaphore.AnyRunSound | app/queue/semaphore.py:8-34 | whatever the clients read, the set respects the limit, and while the key lives each lease in it is held with the same expiry |
| Semaphore.FirstBreakExactly | app/queue/semaphore.py:8-22 | as long as all earlier readings were in order: a request takes the leases in use over the limit if and only if the limit is used up, the reading takes some for expired and the new lease is not past; only a reading ahead of the clock does |
| Semaphore.DroppedExactly | app/queue/semaphore.py:15-20 | after arbitrary earlier readings, for every reading: a request leaves a lease that the server has in the set if and only if the reading is before its expiry |
| Semaphore.CutOffExactly | app/queue/semaphore.py:31-33 | a granted or renewed lease can be forgotten by the server before it expires, with no request in between, if and only if its reading was ahead of the clock |
| Semaphore.ClockAheadBreaksLimit | app/queue/semaphore.py:44-56 | one such run: a reading ahead of the server's clock lets one lease too many in |
| Semaphore.EarlierReadingBreaksLimit | app/queue/semaphore.py:44-56 | a run in which an up-to-date reading lets one lease too many in, since an earlier reading was ahead |
| Vad.IterPcmFrames | app/stt/vad.py:89-110 | the frames are contiguous full frames from the start of the audio, up to a remainder shorter than a frame |
| Vad.IterSpeechSegments | app/stt/vad.py:112-148 | the ring-buffer loop yields the frames of a segmentation that meets the declarative specification |
| Vad.SegmentationUnique | app/stt/vad.py:112-148 | a flag sequence has exactly one segmentation that meets the specification |
| Vad.SpanFacts | app/stt/vad.py:130-141 | each segment opens at the first window that meets the ratio after its predecessor, and closes at its first qualifying unvoiced window or with the audio |
| Vad.SpansInOrder | app/stt/vad.py:130-148 | segments are disjoint and in order |
| Vad.DroppedIsQuiet | app/stt/vad.py:125-134 | no dropped run holds a padding window that meets the trigger ratio |
| Vad.StartsExactly | app/stt/vad.py:130-134 | a window opens a segment if and only if the number of its voiced frames is at least the given share of its length |
| Vad.EndsExactly | app/stt/vad.py:138-143 | a window closes a segment if and only if the number of its unvoiced frames is |
| Chunks.SplitSegment | app/stt/vad.py:151-162 | the loop is greedy grouping of frames |
| Chunks.IterPackedSegments | app/stt/vad.py:165-186 | the nested loops are greedy grouping of all pieces with gap costs |
| Chunks.WriteVadChunk | app/stt/vad.py:189-222 | the written samples, their count as the duration, and one mapping per segment at its place |
| Grouping.GreedyIsFewest | app/stt/vad.py:165-186 | no admissible grouping of the same items in order has fewer groups than the greedy one |
| Grouping.StaysAhead | app/stt/vad.py:173-184 | after any number of groups a maximal grouping has taken at least as many items as any admissible one |
| Grouping.GreedyStretch | app/stt/vad.py:173-186 | every greedy group is a stretch of consecutive items, and within the limit or a single item |
| ChunkTheorems.SampleComesFromMappedTime | app/stt/vad.py:189-222 | each written sample of a segment is the source sample at the time its position maps back to, with the exact exception for a zero gap |
| ChunkTheorems.SilenceBetween | app/stt/vad.py:189-222 | the first segment begins with the chunk, the last ends with it, and between two neighbours there are exactly the gap's samples, all zero |
| ChunkTheorems.ChunksConserveFrames | app/stt/vad.py:151-186 | all chunks together hold exactly the input segments' frames in order |
| ChunkTheorems.ChunksRespectLimit | app/stt/vad.py:165-186 | when every frame fits the limit, no written chunk exceeds it, silences included |
| ChunkTheorems.PackingIsOptimal | app/stt/vad.py:165-186 | no other packing of the same pieces in order within the limit writes fewer chunks |
| ChunkTheorems.PiecesExactly | app/stt/vad.py:151-162 | each segment is divided on its own into pieces that hold its frames in order, are within the limit or a single frame, and could not take the next frame |
| ChunkTheorems.WholeSegmentStays | app/stt/vad.py:151-162 | so a segment within the limit is not divided |
| ChunkTheorems.ChunkInOrder | app/stt/vad.py:229-262 | the segments of each chunk are in source order and chunks do not overlap |
| ChunkTheorems.WriterMappings | app/stt/vad.py:206-221 | the writer's mappings are well formed: exact lengths, gaps in chunk time, order in source time |
| ChunkTheorems.Split | app/stt/vad.py:229-265 | the chunker end to end, from full frames in the source to written chunks; it has no chunk, which the source reports as an error, exactly when there is no speech segment |
| ChunkTheorems.SplitUnique | app/stt/vad.py:229-265 | that contract determines the chunks, down to the sample |
| TimeMap.MappedAt | app/stt/merger.py:44-64 | where every time from the chunk's start on is mapped: inside, in a gap with ties to the earlier side, behind the end |
| TimeMap.SegmentTimesInvert | app/stt/merger.py:51-54 | an instant of a written segment maps to its own source instant, with the exact exception for a zero gap |
| TimeMap.MapIsMonotone | app/stt/merger.py:44-64 | mapping is monotone from the chunk's start on |
| TimeMap.MapStaysInRange | app/stt/merger.py:44-64 | every time maps into the chunk's source range |
| TimeMap.ChunksMapInOrder | app/stt/merger.py:44-64 | times of an earlier chunk never map past times of a later one |
| TimeMap.NegativeTimes | app/stt/merger.py:55-63 | what a time before the chunk is mapped to, by the number of mappings |
| TimeMap.MonotoneOnlyForOneSegment | app/stt/merger.py:55-63 | mapping is monotone over all times if and only if the chunk has one segment |
| TimeMap.NegativeTimeCounterexample | app/stt/merger.py:55-63 | two mappings for which time -1 maps behind time 0 |
| TimeMap.ZeroGapCounterexample | app/stt/merger.py:51-54 | two mappings without a gap for which the opening instant of the second segment maps to the end of the first |
| Merger.MergeChunkSegments | app/stt/merger.py:17-41 | the nested loops and the sort compute the collapse of all candidates, sorted by time |
| MergerTheorems.CandidateOrigin | app/stt/merger.py:21-36 | the candidates are exactly the provider segments with text, field by field: stripped text, mapped start (0 when absent), the later of mapped end and start, speaker and confidence |
| MergerTheorems.CollapseIsRuns | app/stt/merger.py:37-40 | the loop's list divides the candidates into maximal runs of duplicates and holds the best of each |
| MergerTheorems.CollapseUnique | app/stt/merger.py:37-40 | only the loop's list does |
| MergerTheorems.MergedTranscript | app/stt/merger.py:17-41 | the result is sorted by start and end, every item has end at or after start and comes from a segment with text, and every candidate has a survivor with its normalized text |
| MergerTheorems.MergedFields | app/stt/merger.py:21-41 | every item of the result is one segment of one chunk with its stripped text, its speaker and confidence, and its times mapped by that chunk's map |
| MergerTheorems.TextSurvives | app/stt/merger.py:21-41 | every provider segment with text has an item with its normalized text |
| MergerTheorems.ProviderInstant | app/stt/merger.py:26-29 | a provider time within a written segment comes out as that segment's own source instant |
| MergerTheorems.CollapseOrdered | app/stt/merger.py:37-40 | candidates in time order give a list in time order whose neighbours with equal normalized text are more than the slack apart |
| MergerTheorems.CandidatesOrdered | app/stt/merger.py:44-64 | the writer's maps and provider times in order within each chunk put all candidates in time order |
| MergerTheorems.RecordingMergesInOrder | app/stt/merger.py:17-41 | both together for the chunks cut from one recording |
| MergerTheorems.WinnerOfEqualLengths | app/stt/merger.py:75-78 | among duplicates of one length the first of the most confident is kept |
| MergerTheorems.WinnerWithoutConfidence | app/stt/merger.py:75-78 | among duplicates without confidence the first of the longest is kept |
| MergerTheorems.LessConfidentKept | app/stt/merger.py:75-78 | a run of duplicates of any length keeps one of its most confident items if and only if no item after the last of them is longer than the one kept up to there |
| MergerTheorems.MostConfidentExists | app/stt/merger.py:75-78 | every run has a last most confident item |
| MergerTheorems.LessConfidentExample | app/stt/merger.py:75-78 | a run of two that keeps the less confident item |
| MergerTheorems.SortKeepsOrdered | app/stt/merger.py:41 | the final sort leaves a list in order of starts alone if and only if segments that start together end in order |
| MergerTheorems.SortedApartExactly | app/stt/merger.py:41 | the sorted transcript has no adjacent duplicates if and only if, in the list before, another item lies between any two duplicates in order of start, end and place |
| MergerTheorems.SortJoinsDuplicates | app/stt/merger.py:37-41 | a list that the loop leaves without adjacent duplicates and the sort gives some |
| MergerTheorems.RenderedLines | app/stt/merger.py:67-68 | the rendered text of segments with text splits into their texts exactly when none holds a line break |
| Sorting.SortIsStable | app/stt/merger.py:41 | items of equal key keep their order |
| RuleCorrector.CollectMatches | app/correction/rule_based_corrector.py:56-86 | the loops compute greedy selection from the sorted distinct candidates |
| RuleCorrector.RenderCorrectedText | app/correction/rule_based_corrector.py:88-119 | the loop computes the splice, one log per match and one entry per match left for review |
| RuleCorrectorTheorems.Correct | app/correction/rule_based_corrector.py:35-47 | the result is the splice of the chosen matches with its logs, protected terms and entries for review |
| RuleCorrectorTheorems.CandidateKeys | app/correction/rule_based_corrector.py:60-68 | there is exactly one candidate per place and term found |
| RuleCorrectorTheorems.CollectedMatches | app/correction/rule_based_corrector.py:70-86 | chosen matches are ordered and disjoint; a set of candidates leaves out exactly those whose start a chosen, better placed one covers if and only if it is the chosen set |
| RuleCorrectorTheorems.ChosenExactly | app/correction/rule_based_corrector.py:70-86 | a candidate is left out if and only if a chosen one reaches over its start that starts earlier or, starting with it, is a replacement before a review, longer, or of a smaller term id |
| RuleCorrectorTheorems.CandidateTerms | app/correction/rule_based_corrector.py:56-68 | a candidate carries the term of the first pattern that found a term of its id at its place |
| RuleCorrectorTheorems.RenderedExactly | app/correction/rule_based_corrector.py:98-119 | one log per match with its texts, term, place and action, and one entry with its reason for each match left for review, in order, and for no other |
| RuleCorrectorTheorems.PriorityIsOrder | app/correction/rule_based_corrector.py:70-77 | the sort key is a total order |
| RuleCorrectorTheorems.ChosenDecided | app/correction/rule_based_corrector.py:127-140 | a chosen match is replaced exactly when its term is safe, or needs context and has a keyword in its window |
| RuleCorrectorTheorems.ContextExactly | app/correction/rule_based_corrector.py:134-140 | for case folding by character and keywords without blanks there is context if and only if a keyword stands, up to case, within the window before the match or within the window after it |
| RuleCorrectorTheorems.ReviewOnlyKeepsText | app/correction/rule_based_corrector.py:127-132 | a dictionary whose terms all need review changes no text and protects nothing; every chosen match is reported |
| RuleCorrectorTheorems.ProtectedTermsExact | app/correction/rule_based_corrector.py:154-155 | the protected terms are the canonical forms written into the text, once each, in alphabetical order |
| Splicing.RestoreInverts | app/correction/rule_based_corrector.py:88-119 | the raw text can be rebuilt from the corrected text and the logs |
| Splicing.LinesAreCorrected | app/correction/rule_based_corrector.py:88-119 | line k of the corrected text is line k of the raw text with its own matches replaced, for every line |
| Splicing.MatchInItsLine | app/correction/service.py:209-226 | a match lies within the one line that holds its start |
| Splicing.OutputInItsLine | app/correction/rule_based_corrector.py:98-115 | the output of a match stands in the corrected line of the same index |
| CorrectionService.LineRanges | app/correction/service.py:209-217 | the ranges are those of the lines with their breaks, end to end |
| CorrectionService.BuildCorrectionLogs | app/correction/service.py:112-162 | the loop yields the audit entry of every log that has a segment, in order |
| CorrectionService.Correct | app/correction/service.py:34-93 | final text, segments and audit of the two-stage correction |
| CorrectionTheorems.AcceptedGuarantees | app/correction/validators.py:4-30 | a model's answer that was taken has the raw text's number of lines, at least the given share of its length, and every canonical form the rules wrote |
| CorrectionTheorems.SettledExactly | app/correction/validators.py:4-30 | the model's stripped answer is settled on if and only if it is there, not blank, has the raw text's number of lines and the given share of its length, and holds every canonical form the rules wrote; else the rules' text is |
| CorrectionTheorems.AcceptedAgain | app/correction/validators.py:12-30 | validation is stable: an answer that was taken is taken again unchanged, and white space around an answer makes no difference |
| CorrectionTheorems.OwnTextAccepted | app/correction/validators.py:12-30 | the rules' own text as the answer never changes the result, and passes exactly when it is long enough against the raw text |
| CorrectionTheorems.ShapeKept | app/correction/service.py:43-71 | the final text has as many lines as the raw text on both paths |
| CorrectionTheorems.ShapeKeptExactly | app/correction/service.py:43-71 | for any dictionary and text: it has if and only if the answer was taken or the replacements write as many breaks as they remove, a change of the open end and of the seams between carriage return and line feed counted |
| Splicing.OpenAfterExactly | app/correction/rule_based_corrector.py:88-119 | whether the corrected text ends within a line is read off the raw text's end and the last match, or the one before it where that one writes nothing |
| CorrectionTheorems.ShapeLostExample | app/correction/service.py:95-110 | a two-line canonical form with which the shape is lost and the segment falls back to its raw text |
| CorrectionTheorems.ProtectedTermsStand | app/correction/validators.py:26-28 | every canonical form written by the rules stands in the final text on both paths |
| CorrectionTheorems.IndexOfPosition | app/correction/service.py:209-226 | a position is looked up in the line that holds it, the end of the text in the last line, a position beyond it nowhere |
| CorrectionTheorems.ChosenInside | app/correction/rule_based_corrector.py:56-86 | with single-line canonical forms and phrases the chosen matches stay inside lines |
| CorrectionTheorems.AuditExactly | app/correction/service.py:112-162 | for any text and both paths: one audit entry, in order, for each match whose line has a segment, with that segment's index, times and text, the final line of that index, and the decision those texts call for; no other entry |
| CorrectionTheorems.SegmentsExactly | app/correction/service.py:95-110 | for any text: each segment keeps its times, speaker and confidence and gets the line of its index if there is one line per segment, else its own text |
| CorrectionTheorems.AlignedCorrection | app/correction/service.py:95-162 | for a rendered transcript: one corrected line per segment without fallback, times kept, and on both paths one audit entry per log at the segment that holds its match, with the segment's times, the final line of that segment, and its decision |
| CorrectionTheorems.TranscriptCorrected | app/correction/service.py:34-162 | from provider results: with single-line texts and canonical forms, each merged segment comes back with only its text replaced, by the corrected line of its index, and every log is audited at its segment |
| CorrectionTheorems.FallbackExactly | app/correction/service.py:95-100 | the raw texts are used exactly when the raw text does not have one line per segment |
| Text.SplitInvertsJoin | app/stt/merger.py:67-68 | joined texts split back exactly when none holds a break and the last is not empty |
| Text.StripExactly | app/stt/merger.py:23 | what is left of a text runs from its first to its last character that is no white space |
| Text.PartsLines | app/correction/service.py:98 | a character parts two lines if and only if it is one of the ten line boundaries of `str.splitlines` |
| Text.IsStripped | app/stt/merger.py:23 | a character is stripped if and only if it is one of these or of the nineteen other white-space characters |

## Left out

- Floating-point rounding: times and ratios are exact.
- Audio and WAV files, ffmpeg, storage, the CLOVA and OpenAI calls: a provider call ends in a transcript, a retryable or a
  fatal failure; the voice detector is an arbitrary answer per frame.
- The raw provider response and the transcript file that is uploaded beside the merged segments; the file holds the same
  segments and their rendered text.
- Regular expressions, case folding, SHA-256 and the glossary and prompt: what the patterns find, the normalization and the
  model's answer are parameters.
- Tenant and source of a job are not stored: whether a request matches them is a parameter.
- Job metadata, error codes and messages, `completed_at`, `last_error`.
- The cancelled statuses, which nothing sets, and the operator's requeue of failed rows.
- Batch order, limit and row locking of the publisher: a pass gets any batch of due rows.
- The backoff value: a retry becomes due at an arbitrary time.
- The endless worker loops and the semaphore's polling and heartbeat: their iterations are the steps of the step systems.
- Fairness: that a pending message is redelivered at all.
- The review candidates and the context evidence of the correction service, which repeat the same lookup.
- Session isolation below the level of whole transactions: a row lock makes a transaction one step.
