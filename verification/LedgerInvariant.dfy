/**
 The invariant of the ledger's tables, for every job and chunk.

 - Counters are exact, and statuses agree with them as far as the orchestrator's unconditional failure mark allows.
 - An unfinished chunk has exactly one request event outside the inbox, a finished one has none; there is one request
   event per attempt.
 - There is one transcript announcement once every chunk has completed, and the job is settled at most once.
 - Every event belongs to a stored job and carries what its schema asks for, and every inbox key belongs to an event.
 */
module LedgerInvariant {
  import opened Options
  import opened JobState
  import opened Ledger
  import opened Transactions

  predicate Unfinished(c: Chunk) {
    c.status.Pending? || c.status.Processing? || c.status.RetryWait?
  }

  /** Every chunk of the job has completed. */
  predicate Transcribed(job: Job) {
    |job.chunks| > 0 && job.completedChunks == |job.chunks|
  }

  ghost predicate ChunkOk(cfg: Config, c: Chunk) {
    && (Unfinished(c) || c.status.ChunkCompleted? || c.status.ChunkFailed?)
    && (!c.status.ChunkFailed? ==> c.retryCount <= cfg.clovaMaxRetry)
    && (c.status.ChunkFailed? ==> 1 <= c.retryCount <= cfg.clovaMaxRetry + 1)
    && (c.status.ChunkCompleted? ==> c.segments.Some?)
  }

  ghost predicate CountersOk(job: Job) {
    && job.totalChunks == |job.chunks|
    && job.completedChunks == Count(job.chunks, ChunkCompleted)
    && job.failedChunks == Count(job.chunks, ChunkFailed)
  }

  /** Exactly one live request while the chunk is unfinished, none afterwards; and one request per attempt. */
  ghost predicate RequestsOk(db: Db, j: JobId, i: nat, c: Chunk) {
    && |Live(db, j, i)| == (if Unfinished(c) then 1 else 0)
    && |Of(db.outbox, ChunkRequested(j, i))| == c.retryCount + (if c.status.ChunkFailed? then 0 else 1)
  }

  ghost predicate TranscriptOk(cfg: Config, db: Db, j: JobId, job: Job) {
    && |Of(db.outbox, TranscriptReady(j))| == (if Transcribed(job) then 1 else 0)
    && job.merged == (if Transcribed(job) then Some(TranscriptOf(cfg, job.chunks)) else None)
  }

  /** Some transcript-ready event of the job has been processed by the correction group. */
  ghost predicate Settled(db: Db, j: JobId) {
    exists e :: e in Of(db.outbox, TranscriptReady(j)) && (CorrectionWorkers, e) in db.inbox
  }

  ghost predicate CorrectionOk(cfg: Config, db: Db, j: JobId, job: Job) {
    && |Of(db.outbox, Finished(j))| + |Of(db.outbox, CorrectionDead(j))| == (if Settled(db, j) then 1 else 0)
    && |job.correctedVersions| == |Of(db.outbox, Finished(j))|
    && job.correctionRetryCount <= cfg.correctionMaxRetry + (if Settled(db, j) then 1 else 0)
  }

  /** What a job's status can be, even with an orchestrator overwriting it by `JobFailed`. */
  ghost predicate StatusOk(db: Db, j: JobId, job: Job) {
    if |job.chunks| == 0 then job.status.Preprocessing? || job.status.JobFailed?
    else if !Transcribed(job) then job.status.Transcribing? || job.status.JobFailed?
    else
      && (job.status.TranscriptCompleted? || job.status.Correcting? || job.status.CorrectionCompleted?
          || job.status.JobFailed?)
      && (job.status.CorrectionCompleted? ==> Settled(db, j))
  }

  ghost predicate JobInv(cfg: Config, db: Db, j: JobId)
    requires j in db.jobs
  {
    var job := db.jobs[j];
    && CountersOk(job)
    && (forall i {:trigger ChunkOk(cfg, job.chunks[i])} :: 0 <= i < |job.chunks| ==> ChunkOk(cfg, job.chunks[i]))
    && (forall i {:trigger RequestsOk(db, j, i, job.chunks[i])} ::
          0 <= i < |job.chunks| ==> RequestsOk(db, j, i, job.chunks[i]))
    && TranscriptOk(cfg, db, j, job)
    && CorrectionOk(cfg, db, j, job)
    && StatusOk(db, j, job)
  }

  /** A request event names a stored chunk with the stored object key; a progress event satisfies its schema. */
  ghost predicate RowOk(jobs: map<JobId, Job>, row: Row) {
    && row.topic.job in jobs
    && (row.topic.ChunkRequested? ==>
          && row.topic.index < |jobs[row.topic.job].chunks|
          && row.payload == RequestPayload(jobs[row.topic.job].chunks[row.topic.index].objectKey))
    && (row.topic.Progressed? ==>
          && row.payload.ProgressPayload?
          && row.payload.completed + row.payload.failed <= row.payload.total
          && 0.0 <= row.payload.ratio <= 1.0
          && row.payload.ratio * row.payload.total as real == row.payload.completed as real)
  }

  ghost predicate MarkOk(outbox: map<EventId, Row>, key: (Group, EventId)) {
    match key.0
    case Orchestrators => true
    case ClovaWorkers => key.1 in outbox && outbox[key.1].topic.ChunkRequested?
    case CorrectionWorkers => key.1 in outbox && outbox[key.1].topic.TranscriptReady?
  }

  ghost predicate DbInv(cfg: Config, db: Db) {
    && (forall j {:trigger JobInv(cfg, db, j)} :: j in db.jobs ==> JobInv(cfg, db, j))
    && (forall e {:trigger RowOk(db.jobs, db.outbox[e])} :: e in db.outbox ==> RowOk(db.jobs, db.outbox[e]))
    && (forall key {:trigger MarkOk(db.outbox, key)} :: key in db.inbox ==> MarkOk(db.outbox, key))
  }

  // ---------------------------------------------------------------- framing

  /** Keys and number of the chunks that exist do not change. */
  ghost predicate SameShape(a: Job, b: Job) {
    && (a.chunks == [] || |a.chunks| == |b.chunks|)
    && forall i :: 0 <= i < |a.chunks| && i < |b.chunks| ==> a.chunks[i].objectKey == b.chunks[i].objectKey
  }

  /** Event ids that no row and no processing mark has used. */
  ghost predicate FreshRows(db: Db, rows: map<EventId, Row>) {
    && rows.Keys !! db.outbox.Keys
    && forall g, e :: e in rows && (g, e) in db.inbox ==> g.Orchestrators?
  }

  ghost predicate RowsOf(j: JobId, rows: map<EventId, Row>) {
    forall e :: e in rows ==> rows[e].topic.job == j
  }

  /** Marks of the two worker groups are for outbox events of job `j`. */
  ghost predicate MarksOf(outbox: map<EventId, Row>, j: JobId, marks: set<(Group, EventId)>) {
    forall key :: key in marks && !key.0.Orchestrators? ==> key.1 in outbox && outbox[key.1].topic.job == j
  }

  lemma OfWritten(db: Db, j: JobId, job: Job, rows: map<EventId, Row>, marks: set<(Group, EventId)>, t: Topic)
    requires rows.Keys !! db.outbox.Keys
    ensures Of(Write(db, j, job, rows, marks).outbox, t) == Of(db.outbox, t) + Of(rows, t)
    ensures Of(db.outbox, t) !! Of(rows, t)
  {
    OfAdded(db.outbox, rows, t);
  }

  lemma LiveWritten(db: Db, j: JobId, job: Job, rows: map<EventId, Row>, marks: set<(Group, EventId)>,
                    k: JobId, i: nat)
    requires FreshRows(db, rows)
    requires forall key :: key in marks && !key.0.Orchestrators? ==> key.1 in db.outbox
    ensures Live(Write(db, j, job, rows, marks), k, i)
         == (set e | e in Live(db, k, i) && (ClovaWorkers, e) !in marks) + Of(rows, ChunkRequested(k, i))
  {
    var db' := Write(db, j, job, rows, marks);
    var t := ChunkRequested(k, i);
    OfWritten(db, j, job, rows, marks, t);
    var right := (set e | e in Live(db, k, i) && (ClovaWorkers, e) !in marks) + Of(rows, t);
    forall e ensures e in Live(db', k, i) <==> e in right {
      if e in Of(rows, t) {
        assert (ClovaWorkers, e) !in db'.inbox;
      }
    }
  }

  lemma OtherTopic(db: Db, j: JobId, job: Job, rows: map<EventId, Row>, marks: set<(Group, EventId)>, t: Topic)
    requires rows.Keys !! db.outbox.Keys
    requires RowsOf(j, rows)
    requires t.job != j
    ensures Of(Write(db, j, job, rows, marks).outbox, t) == Of(db.outbox, t)
  {
    OfWritten(db, j, job, rows, marks, t);
    assert Of(rows, t) == {};
  }

  lemma OtherLive(db: Db, j: JobId, job: Job, rows: map<EventId, Row>, marks: set<(Group, EventId)>,
                  k: JobId, i: nat)
    requires FreshRows(db, rows) && RowsOf(j, rows) && MarksOf(db.outbox, j, marks)
    requires k != j
    ensures Live(Write(db, j, job, rows, marks), k, i) == Live(db, k, i)
  {
    LiveWritten(db, j, job, rows, marks, k, i);
    assert Of(rows, ChunkRequested(k, i)) == {};
    forall e | e in Live(db, k, i) ensures (ClovaWorkers, e) !in marks {
      assert db.outbox[e].topic.job == k;
    }
  }

  lemma OtherSettled(db: Db, j: JobId, job: Job, rows: map<EventId, Row>, marks: set<(Group, EventId)>, k: JobId)
    requires FreshRows(db, rows) && RowsOf(j, rows) && MarksOf(db.outbox, j, marks)
    requires k != j
    ensures Settled(Write(db, j, job, rows, marks), k) == Settled(db, k)
  {
    var db' := Write(db, j, job, rows, marks);
    OtherTopic(db, j, job, rows, marks, TranscriptReady(k));
    forall e | e in Of(db.outbox, TranscriptReady(k))
      ensures (CorrectionWorkers, e) in db'.inbox <==> (CorrectionWorkers, e) in db.inbox
    {
      assert db.outbox[e].topic.job == k;
    }
  }

  lemma OtherJobKept(cfg: Config, db: Db, j: JobId, job: Job, rows: map<EventId, Row>, marks: set<(Group, EventId)>,
                     k: JobId)
    requires FreshRows(db, rows) && RowsOf(j, rows) && MarksOf(db.outbox, j, marks)
    requires k in db.jobs && k != j
    requires JobInv(cfg, db, k)
    ensures JobInv(cfg, Write(db, j, job, rows, marks), k)
  {
    var db' := Write(db, j, job, rows, marks);
    OtherSettled(db, j, job, rows, marks, k);
    OtherTopic(db, j, job, rows, marks, TranscriptReady(k));
    OtherTopic(db, j, job, rows, marks, Finished(k));
    OtherTopic(db, j, job, rows, marks, CorrectionDead(k));
    forall i | 0 <= i < |db.jobs[k].chunks| ensures RequestsOk(db', k, i, db.jobs[k].chunks[i]) {
      assert RequestsOk(db, k, i, db.jobs[k].chunks[i]);
      OtherTopic(db, j, job, rows, marks, ChunkRequested(k, i));
      OtherLive(db, j, job, rows, marks, k, i);
    }
  }

  /** What a transaction on job `j` may add. */
  ghost predicate AdditionsOk(db: Db, j: JobId, job: Job, rows: map<EventId, Row>, marks: set<(Group, EventId)>) {
    && j in db.jobs
    && SameShape(db.jobs[j], job)
    && FreshRows(db, rows)
    && RowsOf(j, rows)
    && (forall e :: e in rows ==> RowOk(db.jobs[j := job], rows[e]))
    && MarksOf(db.outbox, j, marks)
    && (forall key :: key in marks ==> MarkOk(db.outbox, key))
  }

  lemma RowsKept(cfg: Config, db: Db, j: JobId, job: Job, rows: map<EventId, Row>, marks: set<(Group, EventId)>)
    requires forall e :: e in db.outbox ==> RowOk(db.jobs, db.outbox[e])
    requires AdditionsOk(db, j, job, rows, marks)
    ensures forall e :: e in db.outbox + rows ==> RowOk(db.jobs[j := job], (db.outbox + rows)[e])
  {
    forall e | e in db.outbox + rows ensures RowOk(db.jobs[j := job], (db.outbox + rows)[e]) {
      if e !in rows {
        assert RowOk(db.jobs, db.outbox[e]);
      }
    }
  }

  /** A transaction that stays within one job keeps the whole invariant if it keeps that job's part. */
  lemma WriteKeepsInvariant(cfg: Config, db: Db, j: JobId, job: Job, rows: map<EventId, Row>,
                            marks: set<(Group, EventId)>)
    requires DbInv(cfg, db)
    requires AdditionsOk(db, j, job, rows, marks)
    requires JobInv(cfg, Write(db, j, job, rows, marks), j)
    ensures DbInv(cfg, Write(db, j, job, rows, marks))
  {
    var db' := Write(db, j, job, rows, marks);
    RowsKept(cfg, db, j, job, rows, marks);
    forall k | k in db'.jobs ensures JobInv(cfg, db', k) {
      if k != j {
        OtherJobKept(cfg, db, j, job, rows, marks, k);
      }
    }
    forall key | key in db'.inbox ensures MarkOk(db'.outbox, key) {
      assert MarkOk(db.outbox, key);
    }
  }

  /** Changing one job row and no event keeps the rest of the invariant. */
  lemma SetJobKeepsInvariant(cfg: Config, db: Db, j: JobId, job: Job)
    requires DbInv(cfg, db)
    requires j in db.jobs ==> SameShape(db.jobs[j], job)
    requires JobInv(cfg, SetJob(db, j, job), j)
    ensures DbInv(cfg, SetJob(db, j, job))
  {
    var db' := SetJob(db, j, job);
    forall k | k in db'.jobs ensures JobInv(cfg, db', k) {
      if k != j {
        SameEventsKeepJob(cfg, db, db', k);
      }
    }
    forall e | e in db'.outbox ensures RowOk(db'.jobs, db'.outbox[e]) {
      assert RowOk(db.jobs, db.outbox[e]);
    }
  }

  lemma SameEventsKeepJob(cfg: Config, db: Db, db': Db, k: JobId)
    requires k in db.jobs && k in db'.jobs && db'.jobs[k] == db.jobs[k]
    requires db'.outbox == db.outbox && db'.inbox == db.inbox
    requires JobInv(cfg, db, k)
    ensures JobInv(cfg, db', k)
  {
    forall i | 0 <= i < |db.jobs[k].chunks| ensures RequestsOk(db', k, i, db.jobs[k].chunks[i]) {
      assert RequestsOk(db, k, i, db.jobs[k].chunks[i]);
      assert Live(db', k, i) == Live(db, k, i);
    }
  }
}
