/**
 The services as they are written: rows are loaded into objects, their fields are updated one by one, and the session
 writes everything at commit or nothing. Every method computes the transaction of the same name in `Transactions` on the
 tables as they were (app/services/orchestrator.py, clova_worker.py, correction_worker.py).
 */
module Services {
  import opened Options
  import opened JobState
  import opened Ledger
  import opened Transactions
  import Chunks
  import Merger

  // ---------------------------------------------------------------- sessions

  /** The committed tables. */
  class Database {
    var jobs: map<JobId, Job>
    var outbox: map<EventId, Row>
    var inbox: set<(Group, EventId)>

    constructor ()
      ensures Snapshot() == Db(map[], map[], {})
    {
      jobs, outbox, inbox := map[], map[], {};
    }

    function Snapshot(): Db
      reads this
    {
      Db(jobs, outbox, inbox)
    }

    /** `is_processed`. */
    predicate IsProcessed(group: Group, event: EventId)
      reads this
    {
      (group, event) in inbox
    }
  }

  /** A chunk row loaded into a session. */
  class ChunkRow {
    var status: ChunkStatus
    var objectKey: string
    var mappings: seq<Chunks.Mapping>
    var retryCount: nat
    var leaseOwner: Option<WorkerId>
    var leaseExpiresAt: Option<int>
    var nextRetryAt: Option<int>
    var segments: Option<ProviderSegments>

    constructor (chunk: Chunk)
      ensures Value() == chunk
    {
      status, objectKey, mappings, retryCount := chunk.status, chunk.objectKey, chunk.mappings, chunk.retryCount;
      segments := chunk.segments;
      leaseOwner, leaseExpiresAt, nextRetryAt := chunk.leaseOwner, chunk.leaseExpiresAt, chunk.nextRetryAt;
    }

    function Value(): Chunk
      reads this
    {
      Chunk(status, objectKey, mappings, retryCount, leaseOwner, leaseExpiresAt, nextRetryAt, segments)
    }
  }

  /** A job row loaded into a session, with the values of its chunk rows. */
  class JobRow {
    var status: JobStatus
    var chunks: seq<Chunk>
    var totalChunks: nat
    var completedChunks: nat
    var failedChunks: nat
    var merged: Option<seq<Merger.MergedSegment>>
    var lastProgressRatio: real
    var lastProgressAt: Option<int>
    var correctionRetryCount: nat
    var correctedVersions: seq<string>

    constructor (job: Job)
      ensures Value() == job
    {
      status, chunks, totalChunks := job.status, job.chunks, job.totalChunks;
      completedChunks, failedChunks, merged := job.completedChunks, job.failedChunks, job.merged;
      lastProgressRatio, lastProgressAt := job.lastProgressRatio, job.lastProgressAt;
      correctionRetryCount, correctedVersions := job.correctionRetryCount, job.correctedVersions;
    }

    function Value(): Job
      reads this
    {
      Job(status, chunks, totalChunks, completedChunks, failedChunks, merged, lastProgressRatio, lastProgressAt,
          correctionRetryCount, correctedVersions)
    }
  }

  /** What a transaction has added so far. */
  class Session {
    var added: map<EventId, Row>
    var marks: set<(Group, EventId)>

    constructor ()
      ensures added == map[] && marks == {}
    {
      added, marks := map[], {};
    }

    method Add(id: EventId, row: Row)
      modifies this`added
      ensures added == old(added)[id := row]
    {
      added := added[id := row];
    }

    /** `mark_processed`. */
    method MarkProcessed(group: Group, event: EventId)
      modifies this`marks
      ensures marks == old(marks) + {(group, event)}
    {
      marks := marks + {(group, event)};
    }

    /** Writes the job row, the added rows and the inbox keys, or nothing when an inbox key exists. */
    method Commit(db: Database, j: JobId, job: JobRow) returns (error: Option<TxError>)
      modifies db
      ensures if marks * old(db.inbox) != {}
              then error == Some(DuplicateInboxKey) && db.Snapshot() == old(db.Snapshot())
              else error == None && db.Snapshot() == Write(old(db.Snapshot()), j, job.Value(), added, marks)
    {
      if marks * db.inbox != {} {
        return Some(DuplicateInboxKey);
      }
      db.jobs := db.jobs[j := job.Value()];
      db.outbox := db.outbox + added;
      db.inbox := db.inbox + marks;
      return None;
    }
  }

  /** A method ended as transaction `tx` says, from `before` to `after`. */
  ghost predicate EndsAs(tx: Tx, before: Db, after: Db, error: Option<TxError>) {
    match tx
    case Committed(d) => error == None && after == d
    case RolledBack(e) => error == Some(e) && after == before
  }

  // ---------------------------------------------------------------- the orchestrator

  class OrchestratorService {
    const db: Database

    constructor (db: Database)
      ensures this.db == db
    {
      this.db := db;
    }

    /** `_ensure_job`; `matches` says whether a stored job has the request's tenant and source object. */
    method EnsureJob(j: JobId, matches: bool) returns (error: Option<TxError>)
      modifies db
      ensures db.Snapshot() == Transactions.EnsureJob(old(db.Snapshot()), j)
      ensures error == if j in old(db.jobs) && !matches then Some(RequestMismatch) else None
    {
      if j in db.jobs {
        return if matches then None else Some(RequestMismatch);
      }
      var job := new JobRow(NewJob());
      db.jobs := db.jobs[j := job.Value()];
      return None;
    }

    /** The final transaction of `_preprocess`. */
    method Preprocess(j: JobId, event: EventId, uploads: seq<Upload>, ids: seq<EventId>, now: int)
      returns (error: Option<TxError>)
      requires |ids| == |uploads|
      modifies db
      ensures EndsAs(Transactions.Preprocess(old(db.Snapshot()), j, event, uploads, ids, now), old(db.Snapshot()),
                     db.Snapshot(), error)
    {
      if j !in db.jobs {
        return Some(RowMissing);
      }
      if db.IsProcessed(Orchestrators, event) {
        return None;
      }
      var job := new JobRow(db.jobs[j]);
      var session := new Session();
      if job.totalChunks != 0 {
        session.MarkProcessed(Orchestrators, event);
        error := session.Commit(db, j, job);
        return;
      }
      job.status := Transcribing;
      job.totalChunks := |uploads|;
      var rows: seq<Chunk> := [];
      for i := 0 to |uploads|
        invariant rows == NewChunks(uploads[..i])
        invariant session.added == FirstRequests(j, uploads[..i], ids[..i], now)
        invariant session.marks == {}
        invariant db.Snapshot() == old(db.Snapshot())
        invariant job.Value() == old(db.jobs)[j].(status := Transcribing, totalChunks := |uploads|)
      {
        assert uploads[..i + 1][..i] == uploads[..i] && ids[..i + 1][..i] == ids[..i];
        var chunk := new ChunkRow(NewChunk(uploads[i]));
        rows := rows + [chunk.Value()];
        session.Add(ids[i], NewRow(ChunkRequested(j, i), RequestPayload(uploads[i].objectKey), now));
      }
      assert uploads[..|uploads|] == uploads && ids[..|ids|] == ids;
      job.chunks := job.chunks + rows;
      session.MarkProcessed(Orchestrators, event);
      error := session.Commit(db, j, job);
    }

    /** `_mark_failed`. */
    method MarkFailed(j: JobId)
      modifies db
      ensures db.Snapshot() == Transactions.MarkFailed(old(db.Snapshot()), j)
    {
      if j !in db.jobs {
        return;
      }
      var job := new JobRow(db.jobs[j]);
      job.status := JobFailed;
      db.jobs := db.jobs[j := job.Value()];
    }
  }

  // ---------------------------------------------------------------- the CLOVA chunk worker

  /** `_claim` returns the claimed chunk, or None when there is nothing to do. */
  ghost predicate ClaimsAs(claim: Claim, before: Db, after: Db, claimed: bool, error: Option<TxError>) {
    match claim
    case Claimed(d) => claimed && error == None && after == d
    case NothingToDo(d) => !claimed && error == None && after == d
    case ClaimRaised(e) => !claimed && error == Some(e) && after == before
  }

  /** The intermediate status leaves no trace in a merged job. */
  lemma MergingMerged(cfg: Config, job: Job)
    ensures Merged(cfg, job.(status := Merging)) == Merged(cfg, job)
    ensures Mergeable(job.(status := Merging)) == Mergeable(job)
  {
  }

  /** What a success adds, from where it stands when it comes to the progress row. */
  lemma SuccessRows(cfg: Config, j: JobId, counted: Job, statusChanged: bool, job: Job, added: map<EventId, Row>,
                    readyId: EventId, progressId: EventId, now: int)
    requires statusChanged == IsLast(counted)
    requires job == if statusChanged then Merged(cfg, counted) else counted
    requires added == if statusChanged then map[readyId := NewRow(TranscriptReady(j), NoPayload, now)] else map[]
    ensures var (after, rows) := RecordProgress(j, job, statusChanged, progressId, now);
            (after, added + rows) == SuccessWrites(cfg, j, counted, readyId, progressId, now)
  {
    var rows := RecordProgress(j, job, statusChanged, progressId, now).1;
    assert map[] + rows == rows;
  }

  class ClovaChunkService {
    const cfg: Config
    const db: Database

    constructor (cfg: Config, db: Database)
      ensures this.cfg == cfg && this.db == db
    {
      this.cfg, this.db := cfg, db;
    }

    /** The locked part of `_claim`. */
    method ClaimChunk(r: Request, event: EventId, worker: WorkerId, claimedAt: int)
      returns (claimed: bool, error: Option<TxError>)
      modifies db
      ensures ClaimsAs(Transactions.ClaimChunk(cfg, old(db.Snapshot()), r, event, worker, claimedAt),
                       old(db.Snapshot()), db.Snapshot(), claimed, error)
    {
      if r.job !in db.jobs || r.index >= |db.jobs[r.job].chunks| {
        return false, Some(RowMissing);
      }
      var job := new JobRow(db.jobs[r.job]);
      var chunk := new ChunkRow(job.chunks[r.index]);
      if chunk.objectKey != r.objectKey {
        return false, Some(ObjectKeyMismatch);
      }
      var session := new Session();
      if chunk.status.ChunkCompleted? {
        session.MarkProcessed(ClovaWorkers, event);
        error := session.Commit(db, r.job, job);
        return false, error;
      }
      if !CanClaim(chunk.Value(), claimedAt) {
        return false, Some(NotClaimable);
      }
      chunk.status := Processing;
      chunk.leaseOwner := Some(worker);
      chunk.leaseExpiresAt := Some(claimedAt + cfg.chunkLease);
      job.chunks := job.chunks[r.index := chunk.Value()];
      assert job.Value() == Leased(cfg, db.jobs[r.job], r.index, worker, claimedAt);
      db.jobs := db.jobs[r.job := job.Value()];
      return true, None;
    }

    /** `_record_progress`. */
    method RecordProgress(session: Session, j: JobId, job: JobRow, statusChanged: bool, progressId: EventId, now: int)
      modifies session`added, job
      ensures var (after, rows) := Transactions.RecordProgress(j, old(job.Value()), statusChanged, progressId, now);
              job.Value() == after && session.added == old(session.added) + rows
    {
      var ratio := Ratio(job.completedChunks, job.totalChunks);
      if !ShouldEmitProgress(statusChanged, job.lastProgressRatio, ratio, job.lastProgressAt, now) {
        assert session.added == session.added + map[];
        return;
      }
      var row := ProgressRow(j, job.Value(), now);
      job.lastProgressRatio := ratio;
      job.lastProgressAt := Some(now);
      session.Add(progressId, row);
    }

    /** `_merge_transcription`: false when it raises because chunks are incomplete. */
    method MergeTranscription(session: Session, j: JobId, job: JobRow, readyId: EventId, now: int)
      returns (merged: bool)
      modifies session`added, job
      ensures merged == Mergeable(old(job.Value()))
      ensures merged ==>
                && job.Value() == Merged(cfg, old(job.Value()))
                && session.added == old(session.added)[readyId := NewRow(TranscriptReady(j), NoPayload, now)]
    {
      if |job.chunks| != job.totalChunks {
        return false;
      }
      var results: seq<Merger.ChunkResult> := [];
      for i := 0 to |job.chunks|
        invariant job.Value() == old(job.Value()) && session.added == old(session.added)
        invariant |results| == i && results == Results(job.chunks[..i])
        invariant forall k :: 0 <= k < i ==> job.chunks[k].status.ChunkCompleted?
      {
        if !job.chunks[i].status.ChunkCompleted? {
          return false;
        }
        results := results + [Merger.ChunkResult(job.chunks[i].mappings, Merger.ValueOr(job.chunks[i].segments, []))];
      }
      assert job.chunks[..|job.chunks|] == job.chunks;
      var segments := Merger.MergeChunkSegments(results, cfg.normalize, cfg.slack);
      job.merged := Some(segments);
      job.status := TranscriptCompleted;
      session.Add(readyId, NewRow(TranscriptReady(j), NoPayload, now));
      return true;
    }

    /** The row updates of `_record_success`: false when the merge raises. */
    method SaveTranscript(session: Session, r: Request, job: JobRow, chunk: ChunkRow, segments: ProviderSegments,
                          readyId: EventId, progressId: EventId, now: int) returns (saved: bool)
      requires r.index < |job.chunks| && chunk.Value() == job.chunks[r.index] && session.added == map[]
      modifies session`added, job, chunk
      ensures var counted := Counted(old(job.Value()), r.index, segments);
              && saved == (IsLast(counted) ==> Mergeable(counted))
              && (saved ==>
                    (job.Value(), session.added) == SuccessWrites(cfg, r.job, counted, readyId, progressId, now))
    {
      chunk.status := ChunkCompleted;
      chunk.segments := Some(segments);
      chunk.nextRetryAt := None;
      chunk.leaseOwner := None;
      chunk.leaseExpiresAt := None;
      assert chunk.Value() == CompletedChunk(old(chunk.Value()), segments);
      job.chunks := job.chunks[r.index := chunk.Value()];
      job.completedChunks := job.completedChunks + 1;
      ghost var counted := Counted(old(job.Value()), r.index, segments);
      assert job.Value() == counted;
      var statusChanged := false;
      if job.completedChunks == job.totalChunks {
        job.status := Merging;
        assert job.Value() == counted.(status := Merging);
        MergingMerged(cfg, counted);
        var merged := MergeTranscription(session, r.job, job, readyId, now);
        if !merged {
          return false;
        }
        statusChanged := true;
        assert session.added == map[readyId := NewRow(TranscriptReady(r.job), NoPayload, now)];
      }
      SuccessRows(cfg, r.job, counted, statusChanged, job.Value(), session.added, readyId, progressId, now);
      RecordProgress(session, r.job, job, statusChanged, progressId, now);
      return true;
    }

    /** `_record_success`. */
    method RecordSuccess(r: Request, event: EventId, segments: ProviderSegments, readyId: EventId, progressId: EventId,
                         now: int)
      returns (error: Option<TxError>)
      modifies db
      ensures EndsAs(Transactions.RecordSuccess(cfg, old(db.Snapshot()), r, event, segments, readyId, progressId, now),
                     old(db.Snapshot()), db.Snapshot(), error)
    {
      if r.job !in db.jobs || r.index >= |db.jobs[r.job].chunks| {
        return Some(RowMissing);
      }
      var job := new JobRow(db.jobs[r.job]);
      var chunk := new ChunkRow(job.chunks[r.index]);
      var session := new Session();
      if !chunk.status.ChunkCompleted? {
        var saved := SaveTranscript(session, r, job, chunk, segments, readyId, progressId, now);
        if !saved {
          return Some(IncompleteChunks);
        }
      }
      session.MarkProcessed(ClovaWorkers, event);
      error := session.Commit(db, r.job, job);
    }

    /** The row updates of `_record_failure`. */
    method SaveError(session: Session, r: Request, job: JobRow, chunk: ChunkRow, retryable: bool, availableAt: int,
                     newId: EventId, progressId: EventId, now: int)
      requires r.index < |job.chunks| && chunk.Value() == job.chunks[r.index] && session.added == map[]
      modifies session`added, job, chunk
      ensures (job.Value(), session.added)
           == if retryable && old(chunk.retryCount) + 1 <= cfg.clovaMaxRetry
              then (Waiting(old(job.Value()), r.index, availableAt),
                    map[newId := NewRow(ChunkRequested(r.job, r.index), RequestPayload(r.objectKey), availableAt)])
              else FailureWrites(r, Failed(old(job.Value()), r.index), newId, progressId, now)
    {
      chunk.retryCount := chunk.retryCount + 1;
      chunk.leaseOwner := None;
      chunk.leaseExpiresAt := None;
      assert chunk.Value() == Errored(old(chunk.Value()));
      if retryable && chunk.retryCount <= cfg.clovaMaxRetry {
        chunk.status := RetryWait;
        chunk.nextRetryAt := Some(availableAt);
        job.chunks := job.chunks[r.index := chunk.Value()];
        assert job.Value() == Waiting(old(job.Value()), r.index, availableAt);
        session.Add(newId, NewRow(ChunkRequested(r.job, r.index), RequestPayload(r.objectKey), availableAt));
      } else {
        chunk.status := ChunkFailed;
        job.chunks := job.chunks[r.index := chunk.Value()];
        job.failedChunks := job.failedChunks + 1;
        job.status := JobFailed;
        assert job.Value() == Failed(old(job.Value()), r.index);
        session.Add(newId, NewRow(ChunkDead(r.job, r.index), RequestPayload(r.objectKey), now));
        RecordProgress(session, r.job, job, true, progressId, now);
      }
    }

    /** `_record_failure`. */
    method RecordFailure(r: Request, event: EventId, retryable: bool, availableAt: int, newId: EventId,
                         progressId: EventId, now: int) returns (error: Option<TxError>)
      modifies db
      ensures EndsAs(Transactions.RecordFailure(cfg, old(db.Snapshot()), r, event, retryable, availableAt, newId,
                                                progressId, now),
                     old(db.Snapshot()), db.Snapshot(), error)
    {
      if r.job !in db.jobs || r.index >= |db.jobs[r.job].chunks| {
        return Some(RowMissing);
      }
      var job := new JobRow(db.jobs[r.job]);
      var chunk := new ChunkRow(job.chunks[r.index]);
      var session := new Session();
      SaveError(session, r, job, chunk, retryable, availableAt, newId, progressId, now);
      session.MarkProcessed(ClovaWorkers, event);
      error := session.Commit(db, r.job, job);
    }
  }

  // ---------------------------------------------------------------- the correction worker

  ghost predicate BeginsAs(begin: Begin, before: Db, after: Db, started: bool, error: Option<TxError>) {
    match begin
    case Started(d) => started && error == None && after == d
    case AlreadyCorrected(d) => !started && error == None && after == d
    case BeginRaised(e) => !started && error == Some(e) && after == before
  }

  ghost predicate RecordsAs(recorded: Recorded, before: Db, after: Db, done: bool, error: Option<TxError>) {
    match recorded
    case WillRetry(d) => !done && error == None && after == d
    case GaveUp(d) => done && error == None && after == d
    case RecordRaised(e) => !done && error == Some(e) && after == before
  }

  class CorrectionWorkerService {
    const cfg: Config
    const db: Database

    constructor (cfg: Config, db: Database)
      ensures this.cfg == cfg && this.db == db
    {
      this.cfg, this.db := cfg, db;
    }

    /** The first transaction of `process`. */
    method Begin(j: JobId, event: EventId) returns (started: bool, error: Option<TxError>)
      modifies db
      ensures BeginsAs(BeginCorrection(old(db.Snapshot()), j, event), old(db.Snapshot()), db.Snapshot(), started, error)
    {
      if j !in db.jobs {
        return false, Some(RowMissing);
      }
      var job := new JobRow(db.jobs[j]);
      if job.status.CorrectionCompleted? {
        var session := new Session();
        session.MarkProcessed(CorrectionWorkers, event);
        error := session.Commit(db, j, job);
        return false, error;
      }
      if job.status.TranscriptCompleted? {
        // the declared transition is allowed
        assert Correcting in JobTransitions(job.status);
        job.status := Correcting;
        db.jobs := db.jobs[j := job.Value()];
      }
      return true, None;
    }

    /** The second transaction of `process`, after its inbox check. */
    method Save(j: JobId, event: EventId, version: string, finishedId: EventId, now: int)
      returns (error: Option<TxError>)
      modifies db
      ensures EndsAs(SaveCorrection(old(db.Snapshot()), j, event, version, finishedId, now), old(db.Snapshot()),
                     db.Snapshot(), error)
    {
      if j !in db.jobs {
        return Some(RowMissing);
      }
      var job := new JobRow(db.jobs[j]);
      var session := new Session();
      if version !in job.correctedVersions {
        job.correctedVersions := job.correctedVersions + [version];
      }
      if !job.status.CorrectionCompleted? {
        if !job.status.Correcting? {
          if Correcting !in JobTransitions(job.status) {
            return Some(InvalidTransition);
          }
          job.status := Correcting;
        }
        job.status := CorrectionCompleted;
      }
      session.Add(finishedId, NewRow(Finished(j), NoPayload, now));
      session.MarkProcessed(CorrectionWorkers, event);
      error := session.Commit(db, j, job);
    }

    /** `record_failure`, after its inbox check: whether the event is done. */
    method RecordFailure(j: JobId, event: EventId, retryable: bool, deadId: EventId, progressId: EventId, now: int)
      returns (done: bool, error: Option<TxError>)
      modifies db
      ensures RecordsAs(FailCorrection(cfg, old(db.Snapshot()), j, event, retryable, deadId, progressId, now),
                        old(db.Snapshot()), db.Snapshot(), done, error)
    {
      if j !in db.jobs {
        return false, Some(RowMissing);
      }
      var job := new JobRow(db.jobs[j]);
      job.correctionRetryCount := job.correctionRetryCount + 1;
      if retryable && job.correctionRetryCount <= cfg.correctionMaxRetry {
        db.jobs := db.jobs[j := job.Value()];
        return false, None;
      }
      if JobFailed !in JobTransitions(job.status) {
        return false, Some(InvalidTransition);
      }
      var session := new Session();
      var progress := ProgressRow(j, job.Value(), now);
      job.status := JobFailed;
      session.Add(progressId, progress);
      session.Add(deadId, NewRow(CorrectionDead(j), NoPayload, now));
      session.MarkProcessed(CorrectionWorkers, event);
      error := session.Commit(db, j, job);
      return error == None, error;
    }
  }
}
