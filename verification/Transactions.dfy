/**
 What each database transaction of the services does, as a function from the committed tables to the committed
 tables. A transaction that raises leaves the tables as they were. The methods of `Services` compute these functions by
 updating row fields step by step.
 */
module Transactions {
  import opened Options
  import opened JobState
  import opened Ledger
  import Merger

  /** The settings, with the merger's text normalization and its slack for repeated texts. */
  datatype Config = Config(clovaMaxRetry: nat, chunkLease: nat, correctionMaxRetry: nat, normalize: string -> string,
                           slack: real)

  /** The payload of a chunk request event. */
  datatype Request = Request(job: JobId, index: nat, objectKey: string)

  datatype TxError =
    | RowMissing | ObjectKeyMismatch | NotClaimable | IncompleteChunks | DuplicateInboxKey | InvalidTransition
    | RequestMismatch

  datatype Tx = Committed(db: Db) | RolledBack(error: TxError)

  /** A transaction that only changes the job row of `j`. */
  function SetJob(db: Db, j: JobId, job: Job): Db {
    db.(jobs := db.jobs[j := job])
  }

  /** `mark_processed`: the insert fails when the key exists, and then the whole transaction is undone. */
  function Marked(db: Db, key: (Group, EventId), j: JobId, job: Job, rows: map<EventId, Row>): Tx {
    if key in db.inbox then RolledBack(DuplicateInboxKey) else Committed(Write(db, j, job, rows, {key}))
  }

  // ---------------------------------------------------------------- orchestrator

  function NewJob(): Job {
    Job(Preprocessing, [], 0, 0, 0, None, 0.0, None, 0, [])
  }

  function NewChunk(upload: Upload): Chunk {
    Chunk(Pending, upload.objectKey, upload.mappings, 0, None, None, None, None)
  }

  function NewChunks(uploads: seq<Upload>): seq<Chunk> {
    seq(|uploads|, i requires 0 <= i < |uploads| => NewChunk(uploads[i]))
  }

  predicate Distinct(ids: seq<EventId>) {
    forall a, b :: 0 <= a < b < |ids| ==> ids[a] != ids[b]
  }

  function FirstRow(j: JobId, upload: Upload, i: nat, now: int): Row {
    NewRow(ChunkRequested(j, i), RequestPayload(upload.objectKey), now)
  }

  /** The first request event of every chunk; `ids[i]` is the fresh id of chunk `i`'s event. */
  function FirstRequests(j: JobId, uploads: seq<Upload>, ids: seq<EventId>, now: int): (rows: map<EventId, Row>)
    requires |ids| == |uploads|
    decreases |uploads|
  {
    if uploads == [] then map[]
    else
      var last := |uploads| - 1;
      FirstRequests(j, uploads[..last], ids[..last], now)
        [ids[last] := FirstRow(j, uploads[last], last, now)]
  }

  function EnsureJob(db: Db, j: JobId): Db {
    if j in db.jobs then db else SetJob(db, j, NewJob())
  }

  /** The final transaction of `_preprocess`. */
  function Preprocess(db: Db, j: JobId, event: EventId, uploads: seq<Upload>, ids: seq<EventId>, now: int): Tx
    requires |ids| == |uploads|
  {
    if j !in db.jobs then RolledBack(RowMissing)
    else if (Orchestrators, event) in db.inbox then Committed(db)
    else
      var job := db.jobs[j];
      if job.totalChunks != 0 then Marked(db, (Orchestrators, event), j, job, map[])
      else
        Marked(db, (Orchestrators, event), j,
               job.(status := Transcribing, totalChunks := |uploads|, chunks := job.chunks + NewChunks(uploads)),
               FirstRequests(j, uploads, ids, now))
  }

  function MarkFailed(db: Db, j: JobId): Db {
    if j in db.jobs then SetJob(db, j, db.jobs[j].(status := JobFailed)) else db
  }

  // ---------------------------------------------------------------- CLOVA worker

  predicate CanClaim(chunk: Chunk, claimedAt: int) {
    || chunk.status.Pending?
    || chunk.status.RetryWait?
    || (chunk.status.Processing? && (chunk.leaseExpiresAt.None? || chunk.leaseExpiresAt.value <= claimedAt))
  }

  /** The job with chunk `i` put under a lease of `worker`. */
  function Leased(cfg: Config, job: Job, i: nat, worker: WorkerId, claimedAt: int): Job
    requires i < |job.chunks|
  {
    var chunk := job.chunks[i].(status := Processing, leaseOwner := Some(worker),
                                leaseExpiresAt := Some(claimedAt + cfg.chunkLease));
    job.(chunks := job.chunks[i := chunk])
  }

  datatype Claim = Claimed(db: Db) | NothingToDo(db: Db) | ClaimRaised(error: TxError)

  /** The part of `_claim` after the inbox check, under the chunk's row lock. */
  function ClaimChunk(cfg: Config, db: Db, r: Request, event: EventId, worker: WorkerId, claimedAt: int): Claim {
    if r.job !in db.jobs || r.index >= |db.jobs[r.job].chunks| then ClaimRaised(RowMissing)
    else
      var job := db.jobs[r.job];
      var chunk := job.chunks[r.index];
      if chunk.objectKey != r.objectKey then ClaimRaised(ObjectKeyMismatch)
      else if chunk.status.ChunkCompleted? then
        match Marked(db, (ClovaWorkers, event), r.job, job, map[])
        case Committed(d) => NothingToDo(d)
        case RolledBack(error) => ClaimRaised(error)
      else if !CanClaim(chunk, claimedAt) then ClaimRaised(NotClaimable)
      else
        Claimed(SetJob(db, r.job, Leased(cfg, job, r.index, worker, claimedAt)))
  }

  function Ratio(completed: nat, total: nat): real {
    if total == 0 then 0.0 else completed as real / total as real
  }

  predicate ShouldEmitProgress(statusChanged: bool, previous: real, current: real, last: Option<int>, now: int) {
    || statusChanged
    || current - previous >= 0.05
    || last.None?
    || now - last.value >= 10
  }

  /** `_record_progress`: the updated job row and the rows it adds. */
  function RecordProgress(j: JobId, job: Job, statusChanged: bool, progressId: EventId, now: int)
    : (Job, map<EventId, Row>)
  {
    var ratio := Ratio(job.completedChunks, job.totalChunks);
    if !ShouldEmitProgress(statusChanged, job.lastProgressRatio, ratio, job.lastProgressAt, now) then (job, map[])
    else
      (job.(lastProgressRatio := ratio, lastProgressAt := Some(now)),
       map[progressId := ProgressRow(j, job, now)])
  }

  function ProgressRow(j: JobId, job: Job, now: int): Row {
    NewRow(Progressed(j),
           ProgressPayload(job.completedChunks, job.totalChunks, job.failedChunks,
                           Ratio(job.completedChunks, job.totalChunks)),
           now)
  }

  /** The guard of `_merge_transcription`. */
  predicate Mergeable(job: Job) {
    |job.chunks| == job.totalChunks && forall i :: 0 <= i < |job.chunks| ==> job.chunks[i].status.ChunkCompleted?
  }

  /** One provider result per chunk with the chunk's time map, in chunk order. */
  function Results(chunks: seq<Chunk>): seq<Merger.ChunkResult> {
    seq(|chunks|, i requires 0 <= i < |chunks| =>
      Merger.ChunkResult(chunks[i].mappings, Merger.ValueOr(chunks[i].segments, [])))
  }

  /** The merged segments of the provider results. */
  function TranscriptOf(cfg: Config, chunks: seq<Chunk>): seq<Merger.MergedSegment> {
    Merger.MergedOf(Results(chunks), cfg.normalize, cfg.slack)
  }

  function CompletedChunk(chunk: Chunk, segments: ProviderSegments): Chunk {
    chunk.(status := ChunkCompleted, segments := Some(segments), nextRetryAt := None, leaseOwner := None,
           leaseExpiresAt := None)
  }

  function Counted(job: Job, i: nat, segments: ProviderSegments): Job
    requires i < |job.chunks|
  {
    job.(chunks := job.chunks[i := CompletedChunk(job.chunks[i], segments)], completedChunks := job.completedChunks + 1)
  }

  predicate IsLast(job: Job) {
    job.completedChunks == job.totalChunks
  }

  /** `_merge_transcription` past its guard: the job passes through `merging` to `transcript_completed`. */
  function Merged(cfg: Config, job: Job): Job {
    job.(status := TranscriptCompleted, merged := Some(TranscriptOf(cfg, job.chunks)))
  }

  /** The rest of `_record_success` once the chunk is counted: the job row and the outbox rows to write. */
  function SuccessWrites(cfg: Config, j: JobId, counted: Job, readyId: EventId, progressId: EventId, now: int)
    : (Job, map<EventId, Row>)
  {
    if !IsLast(counted) then RecordProgress(j, counted, false, progressId, now)
    else
      var (final, progressRows) := RecordProgress(j, Merged(cfg, counted), true, progressId, now);
      (final, map[readyId := NewRow(TranscriptReady(j), NoPayload, now)] + progressRows)
  }

  /** `_record_success`, with `_merge_transcription` when the last chunk completes. */
  function RecordSuccess(cfg: Config, db: Db, r: Request, event: EventId, segments: ProviderSegments, readyId: EventId,
                         progressId: EventId, now: int): Tx
  {
    if r.job !in db.jobs || r.index >= |db.jobs[r.job].chunks| then RolledBack(RowMissing)
    else
      var job := db.jobs[r.job];
      if job.chunks[r.index].status.ChunkCompleted? then Marked(db, (ClovaWorkers, event), r.job, job, map[])
      else
        var counted := Counted(job, r.index, segments);
        if IsLast(counted) && !Mergeable(counted) then RolledBack(IncompleteChunks)
        else
          var (final, rows) := SuccessWrites(cfg, r.job, counted, readyId, progressId, now);
          Marked(db, (ClovaWorkers, event), r.job, final, rows)
  }

  function Errored(chunk: Chunk): Chunk {
    chunk.(retryCount := chunk.retryCount + 1, leaseOwner := None, leaseExpiresAt := None)
  }

  function Waiting(job: Job, i: nat, availableAt: int): Job
    requires i < |job.chunks|
  {
    var chunk := Errored(job.chunks[i]).(status := RetryWait, nextRetryAt := Some(availableAt));
    job.(chunks := job.chunks[i := chunk])
  }

  function Failed(job: Job, i: nat): Job
    requires i < |job.chunks|
  {
    job.(chunks := job.chunks[i := Errored(job.chunks[i]).(status := ChunkFailed)],
         failedChunks := job.failedChunks + 1, status := JobFailed)
  }

  /** The dead-letter and progress rows of a final failure. */
  function FailureWrites(r: Request, failed: Job, deadId: EventId, progressId: EventId, now: int)
    : (Job, map<EventId, Row>)
  {
    var (final, progressRows) := RecordProgress(r.job, failed, true, progressId, now);
    (final, map[deadId := NewRow(ChunkDead(r.job, r.index), RequestPayload(r.objectKey), now)] + progressRows)
  }

  /** `_record_failure`. It looks at neither the chunk's status nor the lease owner. */
  function RecordFailure(cfg: Config, db: Db, r: Request, event: EventId, retryable: bool, availableAt: int,
                         newId: EventId, progressId: EventId, now: int): Tx
  {
    if r.job !in db.jobs || r.index >= |db.jobs[r.job].chunks| then RolledBack(RowMissing)
    else
      var job := db.jobs[r.job];
      if retryable && job.chunks[r.index].retryCount + 1 <= cfg.clovaMaxRetry then
        Marked(db, (ClovaWorkers, event), r.job, Waiting(job, r.index, availableAt),
               map[newId := NewRow(ChunkRequested(r.job, r.index), RequestPayload(r.objectKey), availableAt)])
      else
        var (final, rows) := FailureWrites(r, Failed(job, r.index), newId, progressId, now);
        Marked(db, (ClovaWorkers, event), r.job, final, rows)
  }

  // ---------------------------------------------------------------- correction worker

  /** First transaction of `process`, after the first inbox check. */
  datatype Begin = Started(db: Db) | AlreadyCorrected(db: Db) | BeginRaised(error: TxError)

  function BeginCorrection(db: Db, j: JobId, event: EventId): Begin {
    if j !in db.jobs then BeginRaised(RowMissing)
    else
      var job := db.jobs[j];
      if job.status.CorrectionCompleted? then
        match Marked(db, (CorrectionWorkers, event), j, job, map[])
        case Committed(d) => AlreadyCorrected(d)
        case RolledBack(error) => BeginRaised(error)
      else if job.status.TranscriptCompleted? then
        Started(SetJob(db, j, job.(status := Correcting)))
      else Started(db)
  }

  /** Second transaction of `process`, after its inbox check, under the job's row lock. */
  function SaveCorrection(db: Db, j: JobId, event: EventId, version: string, finishedId: EventId, now: int): Tx {
    if j !in db.jobs then RolledBack(RowMissing)
    else
      var job := db.jobs[j];
      var versions := if version in job.correctedVersions then job.correctedVersions
                      else job.correctedVersions + [version];
      if !job.status.CorrectionCompleted? && !job.status.Correcting? && Correcting !in JobTransitions(job.status) then
        RolledBack(InvalidTransition)
      else
        Marked(db, (CorrectionWorkers, event), j,
               job.(status := CorrectionCompleted, correctedVersions := versions),
               map[finishedId := NewRow(Finished(j), NoPayload, now)])
  }

  datatype Recorded = WillRetry(db: Db) | GaveUp(db: Db) | RecordRaised(error: TxError)

  /** `record_failure`, after its inbox check, under the job's row lock. */
  function FailCorrection(cfg: Config, db: Db, j: JobId, event: EventId, retryable: bool, deadId: EventId,
                          progressId: EventId, now: int): Recorded
  {
    if j !in db.jobs then RecordRaised(RowMissing)
    else
      var job := db.jobs[j].(correctionRetryCount := db.jobs[j].correctionRetryCount + 1);
      if retryable && job.correctionRetryCount <= cfg.correctionMaxRetry then
        WillRetry(SetJob(db, j, job))
      else if JobFailed !in JobTransitions(job.status) then RecordRaised(InvalidTransition)
      else
        match Marked(db, (CorrectionWorkers, event), j, job.(status := JobFailed),
                     map[progressId := ProgressRow(j, job, now), deadId := NewRow(CorrectionDead(j), NoPayload, now)])
        case Committed(d) => GaveUp(d)
        case RolledBack(error) => RecordRaised(error)
  }
}
