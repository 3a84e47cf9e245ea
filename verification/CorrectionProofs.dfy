/**
 The correction worker's transactions keep the ledger invariant.

 - A job's only transcript-ready event can be settled once, by a completed correction or by a dead letter, because both
   insert the same inbox key.
 - Beginning a correction is a guarded status change without an inbox key, so it may happen any number of times.
 - A counted failure that will be retried changes the counter only; the counter can pass the limit by one, in the very
   transaction that gives up.
 - No correction transaction touches chunks, their counters or their request events.
 */
module CorrectionProofs {
  import opened JobState
  import opened Ledger
  import opened Transactions
  import opened LedgerInvariant
  import opened ClovaProofs

  /** `event` announces the transcript of job `j`. */
  predicate Announces(outbox: map<EventId, Row>, event: EventId, j: JobId) {
    event in outbox && outbox[event].topic == TranscriptReady(j)
  }

  /** An announced job has completed all its chunks, the announcement is its only one, and the job is settled exactly
      when that event has been processed. */
  lemma AnnouncedJob(cfg: Config, db: Db, event: EventId, j: JobId)
    requires DbInv(cfg, db) && Announces(db.outbox, event, j)
    ensures j in db.jobs && Transcribed(db.jobs[j]) && CountersOk(db.jobs[j])
    ensures Of(db.outbox, TranscriptReady(j)) == {event}
    ensures Settled(db, j) <==> (CorrectionWorkers, event) in db.inbox
    ensures db.jobs[j].status.CorrectionCompleted? ==> (CorrectionWorkers, event) in db.inbox
  {
    assert RowOk(db.jobs, db.outbox[event]);
    assert JobInv(cfg, db, j);
    assert event in Of(db.outbox, TranscriptReady(j));
    OneElement(Of(db.outbox, TranscriptReady(j)), event);
  }

  lemma EventSetsWritten(db: Db, j: JobId, job: Job, rows: map<EventId, Row>, marks: set<(Group, EventId)>)
    requires rows.Keys !! db.outbox.Keys
    requires forall e :: e in rows ==> !rows[e].topic.ChunkRequested? && !rows[e].topic.TranscriptReady?
    ensures var outbox' := Write(db, j, job, rows, marks).outbox;
            && Of(outbox', TranscriptReady(j)) == Of(db.outbox, TranscriptReady(j))
            && |Of(outbox', Finished(j))| == |Of(db.outbox, Finished(j))| + |Of(rows, Finished(j))|
            && |Of(outbox', CorrectionDead(j))| == |Of(db.outbox, CorrectionDead(j))| + |Of(rows, CorrectionDead(j))|
  {
    assert Of(rows, TranscriptReady(j)) == {};
    OfWritten(db, j, job, rows, marks, TranscriptReady(j));
    OfWritten(db, j, job, rows, marks, Finished(j));
    OfWritten(db, j, job, rows, marks, CorrectionDead(j));
  }

  /** Correction transactions leave every chunk and its requests alone. */
  lemma RequestsUntouched(db: Db, j: JobId, job: Job, rows: map<EventId, Row>, marks: set<(Group, EventId)>, i: nat,
                          c: Chunk)
    requires FreshRows(db, rows)
    requires forall e :: e in rows ==> !rows[e].topic.ChunkRequested?
    requires forall key :: key in marks ==> key.0.CorrectionWorkers? && key.1 in db.outbox
    requires RequestsOk(db, j, i, c)
    ensures RequestsOk(Write(db, j, job, rows, marks), j, i, c)
  {
    var db' := Write(db, j, job, rows, marks);
    assert Of(rows, ChunkRequested(j, i)) == {};
    OfWritten(db, j, job, rows, marks, ChunkRequested(j, i));
    LiveWritten(db, j, job, rows, marks, j, i);
    assert Of(db'.outbox, ChunkRequested(j, i)) == Of(db.outbox, ChunkRequested(j, i));
    assert Live(db', j, i) == Live(db, j, i);
  }

  /** A settling transaction: it marks the announcement and adds one final event. */
  lemma SettlingKeepsJob(cfg: Config, db: Db, j: JobId, event: EventId, job: Job, rows: map<EventId, Row>)
    requires j in db.jobs && JobInv(cfg, db, j) && Transcribed(db.jobs[j])
    requires Of(db.outbox, TranscriptReady(j)) == {event} && !Settled(db, j)
    requires FreshRows(db, rows)
    requires forall e :: e in rows ==> !rows[e].topic.ChunkRequested? && !rows[e].topic.TranscriptReady?
    requires job.chunks == db.jobs[j].chunks && CountersOk(job) && job.merged == db.jobs[j].merged
    requires |Of(rows, Finished(j))| + |Of(rows, CorrectionDead(j))| == 1
    requires |job.correctedVersions| == |db.jobs[j].correctedVersions| + |Of(rows, Finished(j))|
    requires job.correctionRetryCount <= cfg.correctionMaxRetry + 1
    requires job.status.CorrectionCompleted? || job.status.JobFailed?
    ensures JobInv(cfg, Write(db, j, job, rows, {(CorrectionWorkers, event)}), j)
  {
    var marks := {(CorrectionWorkers, event)};
    var db' := Write(db, j, job, rows, marks);
    EventSetsWritten(db, j, job, rows, marks);
    assert event in Of(db.outbox, TranscriptReady(j));
    assert event in Of(db'.outbox, TranscriptReady(j)) && (CorrectionWorkers, event) in db'.inbox;
    assert Settled(db', j);
    forall i | 0 <= i < |job.chunks| ensures ChunkOk(cfg, job.chunks[i]) && RequestsOk(db', j, i, job.chunks[i]) {
      assert ChunkOk(cfg, db.jobs[j].chunks[i]) && RequestsOk(db, j, i, db.jobs[j].chunks[i]);
      RequestsUntouched(db, j, job, rows, marks, i, job.chunks[i]);
    }
  }

  /** A transaction that changes only the job row, before the job is settled or afterwards. */
  lemma JobRowKeepsJob(cfg: Config, db: Db, j: JobId, job: Job)
    requires j in db.jobs && JobInv(cfg, db, j) && Transcribed(db.jobs[j])
    requires job.chunks == db.jobs[j].chunks && CountersOk(job) && job.merged == db.jobs[j].merged
    requires job.correctedVersions == db.jobs[j].correctedVersions
    requires || job.correctionRetryCount <= cfg.correctionMaxRetry
             || job.correctionRetryCount == db.jobs[j].correctionRetryCount
    requires job.status == db.jobs[j].status || job.status.Correcting?
    ensures JobInv(cfg, SetJob(db, j, job), j)
  {
    var db' := SetJob(db, j, job);
    assert Settled(db', j) == Settled(db, j);
    forall i | 0 <= i < |job.chunks| ensures ChunkOk(cfg, job.chunks[i]) && RequestsOk(db', j, i, job.chunks[i]) {
      assert ChunkOk(cfg, db.jobs[j].chunks[i]) && RequestsOk(db, j, i, db.jobs[j].chunks[i]);
      assert Live(db', j, i) == Live(db, j, i);
    }
  }

  /** The first transaction; its "already corrected" branch always collides with the inbox key. */
  lemma BeginKeepsInvariant(cfg: Config, db: Db, j: JobId, event: EventId)
    requires DbInv(cfg, db) && Announces(db.outbox, event, j)
    ensures var begin := BeginCorrection(db, j, event);
            && !begin.AlreadyCorrected?
            && (begin.Started? ==> DbInv(cfg, begin.db) && begin.db.outbox == db.outbox && begin.db.inbox == db.inbox)
            && (begin.BeginRaised? ==> begin.error.DuplicateInboxKey?)
  {
    AnnouncedJob(cfg, db, event, j);
    if db.jobs[j].status.TranscriptCompleted? {
      var job := db.jobs[j].(status := Correcting);
      assert JobInv(cfg, db, j);
      JobRowKeepsJob(cfg, db, j, job);
      SetJobKeepsInvariant(cfg, db, j, job);
    }
  }

  function SavedJob(job: Job, version: string): Job {
    var versions := if version in job.correctedVersions then job.correctedVersions
                    else job.correctedVersions + [version];
    job.(status := CorrectionCompleted, correctedVersions := versions)
  }

  lemma SavePreserves(cfg: Config, db: Db, j: JobId, event: EventId, version: string, finishedId: EventId, now: int)
    requires DbInv(cfg, db) && Announces(db.outbox, event, j) && Unused(db, finishedId)
    requires j in db.jobs && (CorrectionWorkers, event) !in db.inbox
    ensures DbInv(cfg, Write(db, j, SavedJob(db.jobs[j], version),
                             map[finishedId := NewRow(Finished(j), NoPayload, now)], {(CorrectionWorkers, event)}))
  {
    AnnouncedJob(cfg, db, event, j);
    assert JobInv(cfg, db, j);
    var rows := map[finishedId := NewRow(Finished(j), NoPayload, now)];
    var job := SavedJob(db.jobs[j], version);
    assert Of(rows, Finished(j)) == {finishedId} && Of(rows, CorrectionDead(j)) == {};
    assert job.correctedVersions == [version];
    UnusedIsFresh(cfg, db, rows);
    SettlingKeepsJob(cfg, db, j, event, job, rows);
    WriteKeepsInvariant(cfg, db, j, job, rows, {(CorrectionWorkers, event)});
  }

  /** The second transaction commits only for an unprocessed announcement, and keeps the invariant. */
  lemma SaveKeepsInvariant(cfg: Config, db: Db, j: JobId, event: EventId, version: string, finishedId: EventId,
                           now: int)
    requires DbInv(cfg, db) && Announces(db.outbox, event, j) && Unused(db, finishedId)
    ensures var tx := SaveCorrection(db, j, event, version, finishedId, now);
            && (tx.Committed? ==>
                  && DbInv(cfg, tx.db) && (CorrectionWorkers, event) !in db.inbox && j in db.jobs
                  && tx.db == Write(db, j, SavedJob(db.jobs[j], version),
                                    map[finishedId := NewRow(Finished(j), NoPayload, now)],
                                    {(CorrectionWorkers, event)}))
            && (tx.RolledBack? ==> tx.error.DuplicateInboxKey? || tx.error.InvalidTransition?)
  {
    AnnouncedJob(cfg, db, event, j);
    if (CorrectionWorkers, event) !in db.inbox {
      SavePreserves(cfg, db, j, event, version, finishedId, now);
    }
  }

  function CountedFailure(job: Job): Job {
    job.(correctionRetryCount := job.correctionRetryCount + 1)
  }

  function DeadRows(j: JobId, job: Job, deadId: EventId, progressId: EventId, now: int): map<EventId, Row> {
    map[progressId := ProgressRow(j, job, now), deadId := NewRow(CorrectionDead(j), NoPayload, now)]
  }

  lemma GiveUpPreserves(cfg: Config, db: Db, j: JobId, event: EventId, deadId: EventId, progressId: EventId, now: int)
    requires DbInv(cfg, db) && Announces(db.outbox, event, j)
    requires Unused(db, deadId) && Unused(db, progressId) && deadId != progressId
    requires j in db.jobs && (CorrectionWorkers, event) !in db.inbox
    ensures var job := CountedFailure(db.jobs[j]);
            DbInv(cfg, Write(db, j, job.(status := JobFailed), DeadRows(j, job, deadId, progressId, now),
                             {(CorrectionWorkers, event)}))
  {
    AnnouncedJob(cfg, db, event, j);
    assert JobInv(cfg, db, j);
    var counted := CountedFailure(db.jobs[j]);
    var job := counted.(status := JobFailed);
    var rows := DeadRows(j, counted, deadId, progressId, now);
    assert Of(rows, Finished(j)) == {} && Of(rows, CorrectionDead(j)) == {deadId};
    UnusedIsFresh(cfg, db, rows);
    SettlingKeepsJob(cfg, db, j, event, job, rows);
    CountDisjoint(job.chunks, ChunkCompleted, ChunkFailed);
    ProgressRowOk(db.jobs[j := job], j, counted, now);
    WriteKeepsInvariant(cfg, db, j, job, rows, {(CorrectionWorkers, event)});
  }

  lemma WillRetryPreserves(cfg: Config, db: Db, j: JobId, event: EventId)
    requires DbInv(cfg, db) && Announces(db.outbox, event, j)
    requires j in db.jobs && CountedFailure(db.jobs[j]).correctionRetryCount <= cfg.correctionMaxRetry
    ensures DbInv(cfg, SetJob(db, j, CountedFailure(db.jobs[j])))
  {
    AnnouncedJob(cfg, db, event, j);
    assert JobInv(cfg, db, j);
    JobRowKeepsJob(cfg, db, j, CountedFailure(db.jobs[j]));
    SetJobKeepsInvariant(cfg, db, j, CountedFailure(db.jobs[j]));
  }

  lemma FailKeepsInvariant(cfg: Config, db: Db, j: JobId, event: EventId, retryable: bool, deadId: EventId,
                           progressId: EventId, now: int)
    requires DbInv(cfg, db) && Announces(db.outbox, event, j)
    requires Unused(db, deadId) && Unused(db, progressId) && deadId != progressId
    ensures var recorded := FailCorrection(cfg, db, j, event, retryable, deadId, progressId, now);
            && (recorded.WillRetry? ==>
                  DbInv(cfg, recorded.db) && j in db.jobs && recorded.db == SetJob(db, j, CountedFailure(db.jobs[j])))
            && (recorded.GaveUp? ==>
                  && DbInv(cfg, recorded.db) && (CorrectionWorkers, event) !in db.inbox && j in db.jobs
                  && recorded.db == Write(db, j, CountedFailure(db.jobs[j]).(status := JobFailed),
                                          DeadRows(j, CountedFailure(db.jobs[j]), deadId, progressId, now),
                                          {(CorrectionWorkers, event)}))
            && (recorded.RecordRaised? ==> recorded.error.DuplicateInboxKey? || recorded.error.InvalidTransition?)
  {
    AnnouncedJob(cfg, db, event, j);
    if retryable && CountedFailure(db.jobs[j]).correctionRetryCount <= cfg.correctionMaxRetry {
      WillRetryPreserves(cfg, db, j, event);
    } else if (CorrectionWorkers, event) !in db.inbox {
      GiveUpPreserves(cfg, db, j, event, deadId, progressId, now);
    }
  }
}
