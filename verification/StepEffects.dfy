/**
 What each committing step of a run leaves in the tables, in every run. The tables after the step are given outright,
 row by row and field by field, from the tables before it, the worker's own data and the clock.
 */
module StepEffects {
  import opened Options
  import opened JobState
  import opened Ledger
  import opened Transactions
  import opened LedgerInvariant
  import opened ClovaProofs
  import opened OrchestratorProofs
  import opened CorrectionProofs
  import opened Pipeline
  import opened PipelineProofs
  import opened Runs

  // ---------------------------------------------------------------- the tables as a whole

  /** Job `j` has the row `job`, no other job differs, and these rows and this mark are all that is new. */
  ghost predicate Adds(db: Db, db': Db, j: JobId, job: Job, rows: map<EventId, Row>, mark: (Group, EventId)) {
    && db'.jobs == db.jobs[j := job]
    && db'.outbox == db.outbox + rows
    && db'.inbox == db.inbox + {mark}
  }

  /** A progress row is due after a change of status, after a growth of the completed share by a twentieth, when there
      was none before, or after ten seconds. */
  predicate ProgressDue(job: Job, completed: nat, statusChanged: bool, now: int) {
    || statusChanged
    || (job.totalChunks > 0 && completed as real / job.totalChunks as real - job.lastProgressRatio >= 0.05)
    || (job.totalChunks == 0 && 0.0 - job.lastProgressRatio >= 0.05)
    || job.lastProgressAt.None?
    || now - job.lastProgressAt.value >= 10
  }

  /** The row counts as the job does, and is available at once. */
  ghost predicate IsProgressRow(row: Row, j: JobId, job: Job, now: int) {
    && row.topic == Progressed(j) && row.availableAt == now && row.attempts == 0 && row.publishedAt.None?
    && row.payload.ProgressPayload?
    && row.payload.completed == job.completedChunks && row.payload.total == job.totalChunks
    && row.payload.failed == job.failedChunks
    && row.payload.ratio * job.totalChunks as real == job.completedChunks as real
  }

  lemma ShareTimes(completed: nat, total: nat)
    requires 0 < total
    ensures completed as real / total as real * total as real == completed as real
  {
  }

  /** A new row of this type, not published yet. */
  predicate IsNewRow(row: Row, topic: Topic, payload: Payload, availableAt: int) {
    row == Row(topic, payload, availableAt, 0, None)
  }

  // ---------------------------------------------------------------- a claim

  /** Chunk `i` of the job goes under a lease of `w`, from the reading for the length of a lease, and nothing else. */
  ghost predicate Leasing(cfg: Config, job: Job, job': Job, i: nat, w: WorkerId, claimedAt: int)
    requires i < |job.chunks|
  {
    job' == job.(chunks := job.chunks[i := job.chunks[i].(status := Processing, leaseOwner := Some(w),
                                                          leaseExpiresAt := Some(claimedAt + cfg.chunkLease))])
  }

  /** Unfinished and not under a lease that lasts beyond `time`. */
  predicate Free(chunk: Chunk, time: int) {
    && Unfinished(chunk)
    && !(chunk.status.Processing? && chunk.leaseExpiresAt.Some? && chunk.leaseExpiresAt.value > time)
  }

  lemma ClaimSays(cfg: Config, db: Db, r: Request, event: EventId, w: WorkerId, claimedAt: int)
    requires r.job in db.jobs && r.index < |db.jobs[r.job].chunks|
    requires db.jobs[r.job].chunks[r.index].objectKey == r.objectKey
    requires db.jobs[r.job].chunks[r.index].status.ChunkCompleted? ==> (ClovaWorkers, event) in db.inbox
    requires !db.jobs[r.job].chunks[r.index].status.ChunkCancelled?
    ensures var claim, chunk := ClaimChunk(cfg, db, r, event, w, claimedAt), db.jobs[r.job].chunks[r.index];
            && (claim.Claimed? <==> Free(chunk, claimedAt)) && !claim.NothingToDo?
            && (claim.ClaimRaised? && claim.error.DuplicateInboxKey? <==> chunk.status.ChunkCompleted?)
            && (claim.ClaimRaised? && claim.error.NotClaimable? <==>
                  !Free(chunk, claimedAt) && !chunk.status.ChunkCompleted?)
            && (claim.Claimed? ==>
                  && r.job in claim.db.jobs && claim.db == db.(jobs := db.jobs[r.job := claim.db.jobs[r.job]])
                  && Leasing(cfg, db.jobs[r.job], claim.db.jobs[r.job], r.index, w, claimedAt))
  {
  }

  /** A claim of a chunk that is unfinished and not under a lease at the reading takes the lease; any other claim
      changes no table and ends the worker's work. */
  lemma ClaimTakes(cfg: Config, states: seq<State>, steps: seq<Step>, k: nat)
    requires IsRun(cfg, states, steps) && k < |steps| && steps[k].ClaimStep?
    ensures Enabled(states[k], steps[k])
    ensures var s, t, w := states[k], states[k + 1], steps[k].w;
            var a := s.workers[w];
            var j, i := a.r.job, a.r.index;
            && j in s.db.jobs && i < |s.db.jobs[j].chunks| && a.r.objectKey == s.db.jobs[j].chunks[i].objectKey
            && if Free(s.db.jobs[j].chunks[i], a.claimedAt) then
                 && j in t.db.jobs && t.db == s.db.(jobs := s.db.jobs[j := t.db.jobs[j]])
                 && Leasing(cfg, s.db.jobs[j], t.db.jobs[j], i, w, a.claimedAt)
                 && t.workers == s.workers[w := CallingProvider(a.msg, a.event, a.r)]
               else t.db == s.db && t.workers == s.workers - {w}
  {
    var s, w := states[k], steps[k].w;
    RunInv(cfg, states, steps, k);
    assert StepAt(cfg, states, steps, k);
    var a := s.workers[w];
    WorkerOk(s, w);
    ClaimFacts(cfg, s.db, a.event, a.r);
    ClaimSays(cfg, s.db, a.r, a.event, w, a.claimedAt);
  }

  lemma ClaimFacts(cfg: Config, db: Db, event: EventId, r: Request)
    requires DbInv(cfg, db) && Carries(db.outbox, event, r)
    ensures r.job in db.jobs && r.index < |db.jobs[r.job].chunks|
    ensures db.jobs[r.job].chunks[r.index].objectKey == r.objectKey
    ensures db.jobs[r.job].chunks[r.index].status.ChunkCompleted? ==> (ClovaWorkers, event) in db.inbox
    ensures !db.jobs[r.job].chunks[r.index].status.ChunkCancelled?
  {
    RequestMatchesChunk(cfg, db, event, r);
    UnprocessedIsLive(cfg, db, event, r);
    assert JobInv(cfg, db, r.job);
    assert ChunkOk(cfg, db.jobs[r.job].chunks[r.index]);
  }

  // ---------------------------------------------------------------- a success

  /** Chunk `i` is completed with these segments, and counted. With the last chunk the job's transcript is completed. */
  ghost predicate Completing(job: Job, job': Job, i: nat, segments: ProviderSegments)
    requires i < |job.chunks|
  {
    var last := job.completedChunks + 1 == job.totalChunks;
    && job'.chunks == job.chunks[i := job.chunks[i].(status := ChunkCompleted, segments := Some(segments),
                                                     leaseOwner := None, leaseExpiresAt := None, nextRetryAt := None)]
    && job'.completedChunks == job.completedChunks + 1 && job'.failedChunks == job.failedChunks
    && job'.totalChunks == job.totalChunks
    && job'.status == (if last then TranscriptCompleted else job.status)
    && (if last then job'.merged.Some? else job'.merged == job.merged)
    && job'.correctionRetryCount == job.correctionRetryCount && job'.correctedVersions == job.correctedVersions
  }

  /** The progress fields move exactly when a row is due. */
  ghost predicate ProgressKept(job: Job, job': Job, due: bool, now: int) {
    if due then
      && job'.lastProgressAt == Some(now)
      && job'.lastProgressRatio * job'.totalChunks as real == job'.completedChunks as real
    else job'.lastProgressAt == job.lastProgressAt && job'.lastProgressRatio == job.lastProgressRatio
  }

  /** The new rows of a success: the announcement with the last chunk, and a progress row when it is due. */
  ghost predicate SuccessRowsAre(rows: map<EventId, Row>, j: JobId, job': Job, last: bool, due: bool, readyId: EventId,
                                 progressId: EventId, now: int)
  {
    && rows.Keys == (if last then {readyId} else {}) + (if due then {progressId} else {})
    && (last ==> readyId in rows && IsNewRow(rows[readyId], TranscriptReady(j), NoPayload, now))
    && (due ==> progressId in rows && IsProgressRow(rows[progressId], j, job', now))
  }

  lemma SuccessJob(cfg: Config, j: JobId, job: Job, i: nat, segments: ProviderSegments, readyId: EventId,
                   progressId: EventId, now: int)
    requires i < |job.chunks| && 0 < job.totalChunks
    ensures var final := SuccessWrites(cfg, j, Counted(job, i, segments), readyId, progressId, now).0;
            var due := ProgressDue(job, job.completedChunks + 1, job.completedChunks + 1 == job.totalChunks, now);
            Completing(job, final, i, segments) && ProgressKept(job, final, due, now)
  {
    ShareTimes(job.completedChunks + 1, job.totalChunks);
  }

  lemma SuccessRows(cfg: Config, j: JobId, job: Job, i: nat, segments: ProviderSegments, readyId: EventId,
                    progressId: EventId, now: int)
    requires i < |job.chunks| && 0 < job.totalChunks && readyId != progressId
    ensures var (final, rows) := SuccessWrites(cfg, j, Counted(job, i, segments), readyId, progressId, now);
            var last := job.completedChunks + 1 == job.totalChunks;
            var due := ProgressDue(job, job.completedChunks + 1, last, now);
            SuccessRowsAre(rows, j, final, last, due, readyId, progressId, now)
  {
    ShareTimes(job.completedChunks + 1, job.totalChunks);
  }

  /** Chunk (r.job, r.index) is completed with these segments, and its rows and mark are all that is added. */
  ghost predicate Succeeds(db: Db, db': Db, r: Request, event: EventId, segments: ProviderSegments, readyId: EventId,
                           progressId: EventId, now: int)
    requires r.job in db.jobs && r.index < |db.jobs[r.job].chunks| && r.job in db'.jobs
  {
    var job, job' := db.jobs[r.job], db'.jobs[r.job];
    var last := job.completedChunks + 1 == job.totalChunks;
    var due := ProgressDue(job, job.completedChunks + 1, last, now);
    && Completing(job, job', r.index, segments) && ProgressKept(job, job', due, now)
    && exists rows ::
         && SuccessRowsAre(rows, r.job, job', last, due, readyId, progressId, now)
         && Adds(db, db', r.job, job', rows, (ClovaWorkers, event))
  }

  /** A committed success stores what the worker got from the provider, counts the chunk, announces the transcript with
      the last chunk, writes a progress row exactly when it is due, and marks the worker's event. */
  lemma SuccessStores(cfg: Config, states: seq<State>, steps: seq<Step>, k: nat)
    requires IsRun(cfg, states, steps) && k < |steps| && steps[k].CommitSuccess? && CommitsEffect(states[k], steps[k])
    ensures Enabled(states[k], steps[k])
    ensures var s, t, w := states[k], states[k + 1], steps[k].w;
            var a := s.workers[w];
            && a.r.job in s.db.jobs && a.r.job in t.db.jobs && a.r.index < |s.db.jobs[a.r.job].chunks|
            && Succeeds(s.db, t.db, a.r, a.event, a.segments, steps[k].readyId, steps[k].progressId, s.now)
            && t.workers == s.workers[w := ChunkDone(a.msg, a.event)]
  {
    var s, w := states[k], steps[k].w;
    RunInv(cfg, states, steps, k);
    assert StepAt(cfg, states, steps, k);
    var a := s.workers[w];
    WorkerOk(s, w);
    UnprocessedIsLive(cfg, s.db, a.event, a.r);
    CountersOfJob(cfg, s.db, a.r.job);
    SuccessSucceeds(cfg, s.db, a.r, a.event, a.segments, steps[k].readyId, steps[k].progressId, s.now);
  }

  lemma SuccessSucceeds(cfg: Config, db: Db, r: Request, event: EventId, segments: ProviderSegments, readyId: EventId,
                        progressId: EventId, now: int)
    requires r.job in db.jobs && r.index < |db.jobs[r.job].chunks| && CountersOk(db.jobs[r.job])
    requires Unfinished(db.jobs[r.job].chunks[r.index]) && readyId != progressId && (ClovaWorkers, event) !in db.inbox
    ensures var tx := RecordSuccess(cfg, db, r, event, segments, readyId, progressId, now);
            && tx.Committed? && r.job in tx.db.jobs
            && Succeeds(db, tx.db, r, event, segments, readyId, progressId, now)
  {
    SuccessOutcome(cfg, db, r, event, segments, readyId, progressId, now);
    var job := db.jobs[r.job];
    SuccessJob(cfg, r.job, job, r.index, segments, readyId, progressId, now);
    SuccessRows(cfg, r.job, job, r.index, segments, readyId, progressId, now);
    var writes := SuccessWrites(cfg, r.job, Counted(job, r.index, segments), readyId, progressId, now);
    var tx := RecordSuccess(cfg, db, r, event, segments, readyId, progressId, now);
    assert Adds(db, tx.db, r.job, writes.0, writes.1, (ClovaWorkers, event));
  }

  // ---------------------------------------------------------------- a failure

  /** Chunk `i` waits for its next attempt. */
  ghost predicate Retrying(job: Job, job': Job, i: nat, availableAt: int)
    requires i < |job.chunks|
  {
    var chunk := job.chunks[i];
    job' == job.(chunks := job.chunks[i := chunk.(status := RetryWait, retryCount := chunk.retryCount + 1,
                                                  leaseOwner := None, leaseExpiresAt := None,
                                                  nextRetryAt := Some(availableAt))])
  }

  /** Chunk `i` has failed for good, and the job with it. */
  ghost predicate Failing(job: Job, job': Job, i: nat)
    requires i < |job.chunks|
  {
    var chunk := job.chunks[i];
    job' == job.(chunks := job.chunks[i := chunk.(status := ChunkFailed, retryCount := chunk.retryCount + 1,
                                                  leaseOwner := None, leaseExpiresAt := None)],
                 failedChunks := job.failedChunks + 1, status := JobFailed,
                 lastProgressRatio := job'.lastProgressRatio, lastProgressAt := job'.lastProgressAt)
  }

  /** The dead letter of the request and a progress row. */
  ghost predicate FailureRowsAre(rows: map<EventId, Row>, r: Request, job': Job, newId: EventId, progressId: EventId,
                                 now: int)
  {
    && rows.Keys == {newId, progressId}
    && IsNewRow(rows[newId], ChunkDead(r.job, r.index), RequestPayload(r.objectKey), now)
    && IsProgressRow(rows[progressId], r.job, job', now)
  }

  lemma FailureSays(job: Job, r: Request, newId: EventId, progressId: EventId, now: int)
    requires r.index < |job.chunks| && 0 < job.totalChunks && newId != progressId
    ensures var (final, rows) := FailureWrites(r, Failed(job, r.index), newId, progressId, now);
            && Failing(job, final, r.index) && ProgressKept(job, final, true, now)
            && FailureRowsAre(rows, r, final, newId, progressId, now)
  {
    ShareTimes(job.completedChunks, job.totalChunks);
  }

  /** A new request when the error is retryable and attempts are left, else the dead letter. */
  ghost predicate FailsAttempt(cfg: Config, db: Db, db': Db, r: Request, event: EventId, retryable: bool,
                               availableAt: int, newId: EventId, progressId: EventId, now: int)
    requires r.job in db.jobs && r.index < |db.jobs[r.job].chunks| && r.job in db'.jobs
  {
    var job, job' := db.jobs[r.job], db'.jobs[r.job];
    if retryable && job.chunks[r.index].retryCount < cfg.clovaMaxRetry then
      exists row ::
        && IsNewRow(row, ChunkRequested(r.job, r.index), RequestPayload(r.objectKey), availableAt)
        && Retrying(job, job', r.index, availableAt)
        && Adds(db, db', r.job, job', map[newId := row], (ClovaWorkers, event))
    else
      exists rows ::
        && FailureRowsAre(rows, r, job', newId, progressId, now)
        && Failing(job, job', r.index) && ProgressKept(job, job', true, now)
        && Adds(db, db', r.job, job', rows, (ClovaWorkers, event))
  }

  /** A committed failure schedules a new request when the error is retryable and attempts are left, and else writes a
      dead letter and fails the job; either way it marks the worker's event. */
  lemma FailureStores(cfg: Config, states: seq<State>, steps: seq<Step>, k: nat)
    requires IsRun(cfg, states, steps) && k < |steps| && steps[k].CommitFailure? && CommitsEffect(states[k], steps[k])
    ensures Enabled(states[k], steps[k])
    ensures var s, t, w := states[k], states[k + 1], steps[k].w;
            var a := s.workers[w];
            && a.r.job in s.db.jobs && a.r.job in t.db.jobs && a.r.index < |s.db.jobs[a.r.job].chunks|
            && FailsAttempt(cfg, s.db, t.db, a.r, a.event, a.retryable, steps[k].availableAt, steps[k].newId,
                            steps[k].progressId, s.now)
            && t.workers == s.workers[w := ChunkDone(a.msg, a.event)]
  {
    var s, w := states[k], steps[k].w;
    RunInv(cfg, states, steps, k);
    assert StepAt(cfg, states, steps, k);
    var a := s.workers[w];
    WorkerOk(s, w);
    UnprocessedIsLive(cfg, s.db, a.event, a.r);
    CountersOfJob(cfg, s.db, a.r.job);
    FailureFails(cfg, s.db, a.r, a.event, a.retryable, steps[k].availableAt, steps[k].newId, steps[k].progressId,
                 s.now);
  }

  lemma FailureFails(cfg: Config, db: Db, r: Request, event: EventId, retryable: bool, availableAt: int, newId: EventId,
                     progressId: EventId, now: int)
    requires r.job in db.jobs && r.index < |db.jobs[r.job].chunks| && 0 < db.jobs[r.job].totalChunks
    requires newId != progressId && (ClovaWorkers, event) !in db.inbox
    ensures var tx := RecordFailure(cfg, db, r, event, retryable, availableAt, newId, progressId, now);
            tx.Committed? && r.job in tx.db.jobs
            && FailsAttempt(cfg, db, tx.db, r, event, retryable, availableAt, newId, progressId, now)
  {
    FailureOutcome(cfg, db, r, event, retryable, availableAt, newId, progressId, now);
    FailureSays(db.jobs[r.job], r, newId, progressId, now);
    var row := NewRow(ChunkRequested(r.job, r.index), RequestPayload(r.objectKey), availableAt);
    assert IsNewRow(row, ChunkRequested(r.job, r.index), RequestPayload(r.objectKey), availableAt);
  }

  // ---------------------------------------------------------------- the orchestrator

  /** A job row as it is created. */
  predicate IsNewJob(job: Job) {
    job == Job(Preprocessing, [], 0, 0, 0, None, 0.0, None, 0, [])
  }

  /** Ensuring a job creates its row if there is none. */
  lemma EnsureStores(cfg: Config, states: seq<State>, steps: seq<Step>, k: nat)
    requires IsRun(cfg, states, steps) && k < |steps| && steps[k].EnsureJobStep?
    ensures var s, t, j := states[k], states[k + 1], steps[k].j;
            && j in t.db.jobs
            && (if j in s.db.jobs then t.db == s.db
                else t.db == s.db.(jobs := s.db.jobs[j := t.db.jobs[j]]) && IsNewJob(t.db.jobs[j]))
  {
    assert StepAt(cfg, states, steps, k);
  }

  /** A mark sets the status of an existing job and nothing else. */
  lemma MarkStores(cfg: Config, states: seq<State>, steps: seq<Step>, k: nat)
    requires IsRun(cfg, states, steps) && k < |steps| && steps[k].MarkFailedStep?
    ensures var s, t, j := states[k], states[k + 1], steps[k].j;
            t.db == if j in s.db.jobs then s.db.(jobs := s.db.jobs[j := s.db.jobs[j].(status := JobFailed)]) else s.db
  {
    assert StepAt(cfg, states, steps, k);
  }

  /** The job gets one pending chunk for each upload. */
  ghost predicate Splitting(job: Job, job': Job, uploads: seq<Upload>) {
    && job' == job.(status := Transcribing, totalChunks := |uploads|, chunks := job'.chunks)
    && |job'.chunks| == |uploads|
    && forall i {:trigger job'.chunks[i]} :: 0 <= i < |uploads| ==>
         job'.chunks[i] == Chunk(Pending, uploads[i].objectKey, uploads[i].mappings, 0, None, None, None, None)
  }

  /** One request for each upload, due at once. */
  ghost predicate SplitRowsAre(rows: map<EventId, Row>, j: JobId, uploads: seq<Upload>, ids: seq<EventId>, now: int) {
    && |ids| == |uploads| && (forall e :: e in rows <==> e in ids)
    && forall i {:trigger ids[i]} :: 0 <= i < |ids| ==>
         ids[i] in rows && IsNewRow(rows[ids[i]], ChunkRequested(j, i), RequestPayload(uploads[i].objectKey), now)
  }

  lemma SplitChunks(job: Job, uploads: seq<Upload>)
    requires job.chunks == []
    ensures Splitting(job, job.(status := Transcribing, totalChunks := |uploads|,
                                chunks := job.chunks + NewChunks(uploads)), uploads)
  {
  }

  lemma SplitRows(j: JobId, uploads: seq<Upload>, ids: seq<EventId>, now: int)
    requires |ids| == |uploads| && Distinct(ids)
    ensures SplitRowsAre(FirstRequests(j, uploads, ids, now), j, uploads, ids, now)
  {
    FirstRequestRows(j, uploads, ids, now);
    var rows := FirstRequests(j, uploads, ids, now);
    forall i | 0 <= i < |ids|
      ensures ids[i] in rows && IsNewRow(rows[ids[i]], ChunkRequested(j, i), RequestPayload(uploads[i].objectKey), now)
    {
      assert ids[i] in rows && rows[ids[i]] == FirstRow(j, uploads[i], i, now);
    }
  }

  /** The final transaction of preprocessing. */
  ghost predicate Preprocesses(db: Db, db': Db, j: JobId, event: EventId, uploads: seq<Upload>, ids: seq<EventId>,
                               now: int)
  {
    if j !in db.jobs || (Orchestrators, event) in db.inbox then db' == db
    else if db.jobs[j].chunks != [] then Adds(db, db', j, db.jobs[j], map[], (Orchestrators, event))
    else
      && j in db'.jobs && Splitting(db.jobs[j], db'.jobs[j], uploads)
      && exists rows ::
           SplitRowsAre(rows, j, uploads, ids, now) && Adds(db, db', j, db'.jobs[j], rows, (Orchestrators, event))
  }

  /** Preprocessing splits a job that has no chunks, only marks its event for one that has, and does nothing for an
      event that is marked or a job that is not there. */
  lemma PreprocessStores(cfg: Config, states: seq<State>, steps: seq<Step>, k: nat)
    requires IsRun(cfg, states, steps) && k < |steps| && steps[k].PreprocessStep?
    ensures Preprocesses(states[k].db, states[k + 1].db, steps[k].j, steps[k].event, steps[k].uploads, steps[k].ids,
                         states[k].now)
  {
    var s, j := states[k], steps[k].j;
    RunInv(cfg, states, steps, k);
    assert StepAt(cfg, states, steps, k);
    if j in s.db.jobs {
      CountersOfJob(cfg, s.db, j);
      if s.db.jobs[j].chunks == [] && (Orchestrators, steps[k].event) !in s.db.inbox {
        SplitChunks(s.db.jobs[j], steps[k].uploads);
        SplitRows(j, steps[k].uploads, steps[k].ids, s.now);
        assert Adds(s.db, states[k + 1].db, j, states[k + 1].db.jobs[j],
                    FirstRequests(j, steps[k].uploads, steps[k].ids, s.now), (Orchestrators, steps[k].event));
      }
    }
  }

  // ---------------------------------------------------------------- the correction worker

  /** The announcement a correction worker holds is of a job whose chunks have all completed. */
  lemma AnnouncedFacts(cfg: Config, db: Db, event: EventId, j: JobId)
    requires DbInv(cfg, db) && Announces(db.outbox, event, j)
    ensures j in db.jobs && 0 < db.jobs[j].totalChunks
    ensures db.jobs[j].status.TranscriptCompleted? || db.jobs[j].status.Correcting?
            || db.jobs[j].status.CorrectionCompleted? || db.jobs[j].status.JobFailed?
    ensures db.jobs[j].status.CorrectionCompleted? ==> (CorrectionWorkers, event) in db.inbox
  {
    AnnouncedJob(cfg, db, event, j);
    assert JobInv(cfg, db, j);
  }

  /** The job can still be corrected, or fail in correction. */
  predicate Correctable(job: Job) {
    job.status.TranscriptCompleted? || job.status.Correcting?
  }

  /** The first transaction sets a completed transcript to `correcting`; only for a corrected job it raises. */
  lemma BeginStores(cfg: Config, states: seq<State>, steps: seq<Step>, k: nat)
    requires IsRun(cfg, states, steps) && k < |steps| && steps[k].BeginStep?
    ensures Enabled(states[k], steps[k])
    ensures var s, t, w := states[k], states[k + 1], steps[k].w;
            var a := s.workers[w];
            && a.j in s.db.jobs
            && t.db == (if s.db.jobs[a.j].status.TranscriptCompleted?
                        then s.db.(jobs := s.db.jobs[a.j := s.db.jobs[a.j].(status := Correcting)]) else s.db)
            && t.workers == s.workers[w := if s.db.jobs[a.j].status.CorrectionCompleted?
                                           then HasCorrectionError(a.msg, a.event, a.j, false)
                                           else BuildingCorrection(a.msg, a.event, a.j)]
  {
    var s, w := states[k], steps[k].w;
    RunInv(cfg, states, steps, k);
    assert StepAt(cfg, states, steps, k);
    WorkerOk(s, w);
    AnnouncedFacts(cfg, s.db, s.workers[w].event, s.workers[w].j);
  }

  /** The correction is stored once per version, the job is corrected, and its completion is announced. */
  ghost predicate Saves(db: Db, db': Db, j: JobId, event: EventId, version: string, finishedId: EventId, now: int)
    requires j in db.jobs
  {
    exists row: Row, job': Job ::
      && IsNewRow(row, Finished(j), NoPayload, now)
      && job' == db.jobs[j].(status := CorrectionCompleted, correctedVersions := job'.correctedVersions)
      && (if version in db.jobs[j].correctedVersions then job'.correctedVersions == db.jobs[j].correctedVersions
          else job'.correctedVersions == db.jobs[j].correctedVersions + [version])
      && Adds(db, db', j, job', map[finishedId := row], (CorrectionWorkers, event))
  }

  /** The saving transaction commits exactly for an unprocessed announcement of a job that is not failed. */
  lemma SaveStores(cfg: Config, states: seq<State>, steps: seq<Step>, k: nat)
    requires IsRun(cfg, states, steps) && k < |steps| && steps[k].SaveStep?
    ensures Enabled(states[k], steps[k])
    ensures var s, t, w := states[k], states[k + 1], steps[k].w;
            var a := s.workers[w];
            && a.j in s.db.jobs
            && if (CorrectionWorkers, a.event) !in s.db.inbox && Correctable(s.db.jobs[a.j]) then
                 && Saves(s.db, t.db, a.j, a.event, a.version, steps[k].finishedId, s.now)
                 && t.workers == s.workers[w := CorrectionDone(a.msg, a.event)]
               else t.db == s.db && t.workers == s.workers[w := HasCorrectionError(a.msg, a.event, a.j, false)]
  {
    var s, w := states[k], steps[k].w;
    RunInv(cfg, states, steps, k);
    assert StepAt(cfg, states, steps, k);
    var a := s.workers[w];
    WorkerOk(s, w);
    AnnouncedFacts(cfg, s.db, a.event, a.j);
    if (CorrectionWorkers, a.event) !in s.db.inbox && Correctable(s.db.jobs[a.j]) {
      SaveSays(s.db, a.j, a.event, a.version, steps[k].finishedId, s.now);
    }
  }

  lemma SaveSays(db: Db, j: JobId, event: EventId, version: string, finishedId: EventId, now: int)
    requires j in db.jobs && (CorrectionWorkers, event) !in db.inbox && Correctable(db.jobs[j])
    ensures var tx := SaveCorrection(db, j, event, version, finishedId, now);
            tx.Committed? && Saves(db, tx.db, j, event, version, finishedId, now)
  {
    var tx := SaveCorrection(db, j, event, version, finishedId, now);
    var row := NewRow(Finished(j), NoPayload, now);
    assert IsNewRow(row, Finished(j), NoPayload, now);
    assert Adds(db, tx.db, j, tx.db.jobs[j], map[finishedId := row], (CorrectionWorkers, event));
  }

  /** The failed correction is counted. */
  ghost predicate CountsFailure(db: Db, db': Db, j: JobId)
    requires j in db.jobs
  {
    var job := db.jobs[j];
    db' == db.(jobs := db.jobs[j := job.(correctionRetryCount := job.correctionRetryCount + 1)])
  }

  /** The job has failed in correction: counted, with a dead letter, a progress row and the mark. */
  ghost predicate GivesUpOn(db: Db, db': Db, j: JobId, event: EventId, deadId: EventId, progressId: EventId, now: int)
    requires j in db.jobs
  {
    var job := db.jobs[j];
    exists job': Job, dead: Row, progress: Row ::
      && job' == job.(correctionRetryCount := job.correctionRetryCount + 1, status := JobFailed)
      && IsNewRow(dead, CorrectionDead(j), NoPayload, now) && IsProgressRow(progress, j, job', now)
      && Adds(db, db', j, job', map[deadId := dead, progressId := progress], (CorrectionWorkers, event))
  }

  /** Whether the failure of a correction is retried, for good, or cannot be recorded. */
  lemma RecordStores(cfg: Config, states: seq<State>, steps: seq<Step>, k: nat)
    requires IsRun(cfg, states, steps) && k < |steps| && steps[k].RecordStep?
    ensures Enabled(states[k], steps[k])
    ensures var s, t, w := states[k], states[k + 1], steps[k].w;
            var a := s.workers[w];
            && a.j in s.db.jobs
            && if a.retryable && s.db.jobs[a.j].correctionRetryCount < cfg.correctionMaxRetry then
                 CountsFailure(s.db, t.db, a.j) && t.workers == s.workers - {w}
               else if (CorrectionWorkers, a.event) !in s.db.inbox && Correctable(s.db.jobs[a.j]) then
                 && GivesUpOn(s.db, t.db, a.j, a.event, steps[k].deadId, steps[k].progressId, s.now)
                 && t.workers == s.workers[w := CorrectionDone(a.msg, a.event)]
               else t.db == s.db && t.workers == s.workers - {w}
  {
    var s, w := states[k], steps[k].w;
    RunInv(cfg, states, steps, k);
    assert StepAt(cfg, states, steps, k);
    var a := s.workers[w];
    WorkerOk(s, w);
    AnnouncedFacts(cfg, s.db, a.event, a.j);
    RecordSays(cfg, s.db, a.j, a.event, a.retryable, steps[k].deadId, steps[k].progressId, s.now);
  }

  lemma RecordSays(cfg: Config, db: Db, j: JobId, event: EventId, retryable: bool, deadId: EventId,
                   progressId: EventId, now: int)
    requires j in db.jobs && 0 < db.jobs[j].totalChunks && deadId != progressId
    requires Correctable(db.jobs[j]) || db.jobs[j].status.JobFailed?
             || (db.jobs[j].status.CorrectionCompleted? && (CorrectionWorkers, event) in db.inbox)
    ensures var recorded := FailCorrection(cfg, db, j, event, retryable, deadId, progressId, now);
            if retryable && db.jobs[j].correctionRetryCount < cfg.correctionMaxRetry then
              recorded.WillRetry? && CountsFailure(db, recorded.db, j)
            else if (CorrectionWorkers, event) !in db.inbox && Correctable(db.jobs[j]) then
              recorded.GaveUp? && GivesUpOn(db, recorded.db, j, event, deadId, progressId, now)
            else recorded.RecordRaised?
  {
    var recorded := FailCorrection(cfg, db, j, event, retryable, deadId, progressId, now);
    if recorded.GaveUp? {
      var job := db.jobs[j].(correctionRetryCount := db.jobs[j].correctionRetryCount + 1);
      ShareTimes(job.completedChunks, job.totalChunks);
      var dead, progress := NewRow(CorrectionDead(j), NoPayload, now), ProgressRow(j, job, now);
      assert IsNewRow(dead, CorrectionDead(j), NoPayload, now);
      assert IsProgressRow(progress, j, job.(status := JobFailed), now);
      assert map[deadId := dead, progressId := progress] == map[progressId := progress, deadId := dead];
      assert Adds(db, recorded.db, j, job.(status := JobFailed), map[deadId := dead, progressId := progress],
                  (CorrectionWorkers, event));
    }
  }

  // ---------------------------------------------------------------- publishing and reading

  /** The publisher's steps: an entry in the stream, the time of publication, or one more attempt. */
  lemma PublisherStores(cfg: Config, states: seq<State>, steps: seq<Step>, k: nat)
    requires IsRun(cfg, states, steps) && k < |steps|
    requires steps[k].AddToStream? || steps[k].MarkPublished? || steps[k].PublishFailed?
    ensures Enabled(states[k], steps[k])
    ensures var s, t, step := states[k], states[k + 1], steps[k];
            match step
            case AddToStream(e, m) => t == s.(messages := s.messages[m := e])
            case MarkPublished(e) =>
              t == s.(db := s.db.(outbox := s.db.outbox[e := s.db.outbox[e].(publishedAt := Some(s.now))]))
            case PublishFailed(e) =>
              t == s.(db := s.db.(outbox := s.db.outbox[e := s.db.outbox[e].(attempts := s.db.outbox[e].attempts + 1)]))
  {
    assert StepAt(cfg, states, steps, k);
  }
}
