/**
 How a committed transaction can change a job row, and what it must leave alone for in-flight workers to stay safe.

 - `Changed` lists the changes: what happens to the status, the chunk concerned, the counters and the merged segments.
 - `DbChange` says that a commit changes one job row by one of them, that events keep their type, that marks are never
   removed, and that only a settling change marks an announcement.
 - `Advances` is what other workers rely on between two of their own transactions.
 - Every transaction of the services makes one of the listed changes, keeps the ledger invariant and advances.

 Theorems about statuses, retries and finished chunks only look at these changes.
 */
module Commits {
  import opened JobState
  import opened Ledger
  import opened Transactions
  import opened LedgerInvariant
  import opened ClovaProofs
  import opened OrchestratorProofs
  import opened CorrectionProofs

  datatype Change =
    | Nothing
    | Creates
    | Prepares
    | Overwrites
    | Leases(i: nat)
    | Completes(i: nat)
    | Retries(i: nat)
    | Fails(i: nat)
    | BeginsCorrection
    | Corrects
    | RetriesCorrection
    | GivesUp

  /** Only chunk `i` differs, and not in what was uploaded for it. */
  ghost predicate OnlyChunk(a: Job, b: Job, i: nat) {
    && i < |a.chunks| && |b.chunks| == |a.chunks|
    && b.chunks[i].objectKey == a.chunks[i].objectKey && b.chunks[i].mappings == a.chunks[i].mappings
    && forall k :: 0 <= k < |a.chunks| && k != i ==> b.chunks[k] == a.chunks[k]
  }

  ghost predicate ChunksKept(a: Job, b: Job) {
    && b.chunks == a.chunks && b.totalChunks == a.totalChunks && b.completedChunks == a.completedChunks
    && b.failedChunks == a.failedChunks && b.merged == a.merged
  }

  /** Everything the correction worker owns. */
  ghost predicate CorrectionKept(a: Job, b: Job) {
    b.correctedVersions == a.correctedVersions
  }

  ghost predicate Changed(a: Job, b: Job, c: Change) {
    match c
    case Nothing => b == a
    case Creates => false
    case Prepares => a.chunks == [] && b.chunks != [] && b.status.Transcribing? && b.merged == a.merged
                     && CorrectionKept(a, b)
                     && (forall k :: 0 <= k < |b.chunks| ==> b.chunks[k].status.Pending? && b.chunks[k].retryCount == 0)
    case Overwrites => ChunksKept(a, b) && CorrectionKept(a, b) && b.status.JobFailed?
    case Leases(i) =>
      && OnlyChunk(a, b, i) && Unfinished(a.chunks[i]) && b.chunks[i].status.Processing?
      && b.chunks[i].retryCount == a.chunks[i].retryCount
      && b.status == a.status && b.merged == a.merged && b.completedChunks == a.completedChunks
      && b.failedChunks == a.failedChunks && CorrectionKept(a, b)
    case Completes(i) =>
      && OnlyChunk(a, b, i) && a.chunks[i].status.Processing? && b.chunks[i].status.ChunkCompleted?
      && b.chunks[i].retryCount == a.chunks[i].retryCount
      && b.completedChunks == a.completedChunks + 1
      && b.status == (if b.completedChunks == a.totalChunks then TranscriptCompleted else a.status)
      && (b.completedChunks != a.totalChunks ==> b.merged == a.merged)
      && b.failedChunks == a.failedChunks && CorrectionKept(a, b)
    case Retries(i) =>
      && OnlyChunk(a, b, i) && a.chunks[i].status.Processing? && b.chunks[i].status.RetryWait?
      && b.chunks[i].retryCount == a.chunks[i].retryCount + 1
      && b.status == a.status && b.merged == a.merged && b.completedChunks == a.completedChunks
      && b.failedChunks == a.failedChunks && CorrectionKept(a, b)
    case Fails(i) =>
      && OnlyChunk(a, b, i) && a.chunks[i].status.Processing? && b.chunks[i].status.ChunkFailed?
      && b.chunks[i].retryCount == a.chunks[i].retryCount + 1
      && b.status.JobFailed? && b.merged == a.merged && b.completedChunks == a.completedChunks
      && b.failedChunks == a.failedChunks + 1 && CorrectionKept(a, b)
    case BeginsCorrection =>
      ChunksKept(a, b) && CorrectionKept(a, b) && a.status.TranscriptCompleted? && b.status.Correcting?
    case Corrects =>
      && ChunksKept(a, b) && b.correctedVersions != [] && b.status.CorrectionCompleted?
      && (a.status.TranscriptCompleted? || a.status.Correcting? || a.status.CorrectionCompleted?)
    case RetriesCorrection => ChunksKept(a, b) && CorrectionKept(a, b) && b.status == a.status
    case GivesUp =>
      ChunksKept(a, b) && CorrectionKept(a, b) && b.status.JobFailed? && JobFailed in JobTransitions(a.status)
  }

  predicate Settles(c: Change) {
    c.Corrects? || c.GivesUp?
  }

  /** Events keep their type for ever and marks are never removed. */
  ghost predicate Grows(db: Db, db': Db) {
    && (forall e {:trigger e in db.outbox} :: e in db.outbox ==>
          e in db'.outbox && db'.outbox[e].topic == db.outbox[e].topic)
    && db.inbox <= db'.inbox
  }

  /** The transaction changed the row of job `j` by `c` and no other row; only a settling change marks an
      announcement, and it marks one of job `j`. */
  ghost predicate DbChange(db: Db, db': Db, j: JobId, c: Change) {
    && (forall e {:trigger (CorrectionWorkers, e) in db'.inbox} ::
          (CorrectionWorkers, e) in db'.inbox ==>
            (CorrectionWorkers, e) in db.inbox || (Settles(c) && e in Of(db.outbox, TranscriptReady(j))))
    && (Settles(c) ==> Settled(db', j) && !Settled(db, j))
    && Grows(db, db')
    && if c.Nothing? then db'.jobs == db.jobs
       else
         && j in db'.jobs && db'.jobs == db.jobs[j := db'.jobs[j]]
         && if c.Creates? then j !in db.jobs && db'.jobs[j] == NewJob()
            else j in db.jobs && Changed(db.jobs[j], db'.jobs[j], c)
  }

  lemma WriteChanges(db: Db, j: JobId, job: Job, rows: map<EventId, Row>, key: (Group, EventId), c: Change)
    requires j in db.jobs && Changed(db.jobs[j], job, c) && !c.Nothing? && !Settles(c)
    requires !key.0.CorrectionWorkers? && rows.Keys !! db.outbox.Keys
    ensures DbChange(db, Write(db, j, job, rows, {key}), j, c)
  {
  }

  lemma SettlingChanges(db: Db, j: JobId, job: Job, rows: map<EventId, Row>, event: EventId, c: Change)
    requires j in db.jobs && Changed(db.jobs[j], job, c) && Settles(c)
    requires rows.Keys !! db.outbox.Keys
    requires Of(db.outbox, TranscriptReady(j)) == {event} && (CorrectionWorkers, event) !in db.inbox
    ensures DbChange(db, Write(db, j, job, rows, {(CorrectionWorkers, event)}), j, c)
  {
    var db' := Write(db, j, job, rows, {(CorrectionWorkers, event)});
    OfWritten(db, j, job, rows, {(CorrectionWorkers, event)}, TranscriptReady(j));
    assert event in Of(db.outbox, TranscriptReady(j));
    assert event in Of(db'.outbox, TranscriptReady(j)) && (CorrectionWorkers, event) in db'.inbox;
  }

  // ---------------------------------------------------------------- what in-flight workers rely on

  predicate InProcess(db: Db, r: Request) {
    r.job in db.jobs && r.index < |db.jobs[r.job].chunks| && db.jobs[r.job].chunks[r.index].status.Processing?
  }

  ghost predicate SameEvent(a: map<EventId, Row>, b: map<EventId, Row>, e: EventId) {
    e in a && e in b && a[e].topic == b[e].topic && a[e].payload == b[e].payload
  }

  /** Events and marks are never removed, and a chunk stays in `processing` unless its event is marked. */
  ghost predicate Advances(db: Db, db': Db) {
    && (forall e {:trigger e in db.outbox} :: e in db.outbox ==> SameEvent(db.outbox, db'.outbox, e))
    && db.inbox <= db'.inbox
    && (forall e: EventId, r {:trigger Carries(db.outbox, e, r)} ::
          Carries(db.outbox, e, r) && (ClovaWorkers, e) !in db'.inbox && InProcess(db, r) ==> InProcess(db', r))
  }

  ghost predicate KeepsProcessing(a: Job, b: Job) {
    forall i :: 0 <= i < |a.chunks| && a.chunks[i].status.Processing? ==>
      i < |b.chunks| && b.chunks[i].status.Processing?
  }

  /** A transaction that takes no chunk out of `processing`. */
  lemma KeptChunksAdvance(db: Db, j: JobId, job: Job, rows: map<EventId, Row>, marks: set<(Group, EventId)>)
    requires FreshRows(db, rows)
    requires j in db.jobs ==> KeepsProcessing(db.jobs[j], job)
    ensures Advances(db, Write(db, j, job, rows, marks))
  {
  }

  lemma SetJobAdvances(db: Db, j: JobId, job: Job)
    requires j in db.jobs ==> KeepsProcessing(db.jobs[j], job)
    ensures Advances(db, SetJob(db, j, job))
  {
  }

  /** An effect takes its chunk out of `processing` and marks the chunk's only live event in the same transaction. */
  lemma EffectAdvances(db: Db, j: JobId, i: nat, event: EventId, job: Job, rows: map<EventId, Row>)
    requires FreshRows(db, rows)
    requires j in db.jobs && OnlyChunk(db.jobs[j], job, i) && Live(db, j, i) == {event}
    ensures Advances(db, Write(db, j, job, rows, {(ClovaWorkers, event)}))
  {
    forall e: EventId | e in db.outbox && db.outbox[e].topic == ChunkRequested(j, i) && (ClovaWorkers, e) !in db.inbox
      ensures e == event
    {
      assert e in Live(db, j, i);
    }
  }

  /** Rows that are new or changed are not marked as published by a transaction of the services. */
  ghost predicate PublishingKept(db: Db, db': Db) {
    forall e {:trigger db'.outbox[e]} :: e in db'.outbox && db'.outbox[e].publishedAt.Some? ==>
      e in db.outbox && db.outbox[e].publishedAt.Some?
  }

  // ---------------------------------------------------------------- what every commit guarantees

  /** A worker holding a claim on an unprocessed event works on a chunk in `processing`; no lease owner is compared. */
  ghost predicate Holds(db: Db, event: EventId, r: Request) {
    Carries(db.outbox, event, r) && ((ClovaWorkers, event) !in db.inbox ==> InProcess(db, r))
  }

  ghost predicate Good(cfg: Config, db: Db, db': Db, j: JobId, c: Change) {
    DbInv(cfg, db') && Advances(db, db') && PublishingKept(db, db') && DbChange(db, db', j, c)
  }

  lemma WritePublishing(db: Db, j: JobId, job: Job, rows: map<EventId, Row>, marks: set<(Group, EventId)>)
    requires forall e :: e in rows ==> rows[e].publishedAt.None?
    ensures PublishingKept(db, Write(db, j, job, rows, marks))
  {
  }

  lemma ClaimCommit(cfg: Config, db: Db, r: Request, event: EventId, worker: WorkerId, claimedAt: int)
    requires DbInv(cfg, db) && Carries(db.outbox, event, r)
    ensures var claim := ClaimChunk(cfg, db, r, event, worker, claimedAt);
            && !claim.NothingToDo?
            && (claim.Claimed? ==>
                  && Good(cfg, db, claim.db, r.job, Leases(r.index))
                  && Holds(claim.db, event, r))
  {
    ClaimKeepsInvariant(cfg, db, r, event, worker, claimedAt);
    RequestMatchesChunk(cfg, db, event, r);
    UnprocessedIsLive(cfg, db, event, r);
    ClaimOutcome(cfg, db, r, event, worker, claimedAt);
    SetJobAdvances(db, r.job, Leased(cfg, db.jobs[r.job], r.index, worker, claimedAt));
  }

  lemma SuccessChange(cfg: Config, db: Db, r: Request, segments: ProviderSegments, readyId: EventId, progressId:
                      EventId, now: int)
    requires r.job in db.jobs && r.index < |db.jobs[r.job].chunks|
    requires db.jobs[r.job].chunks[r.index].status.Processing?
    ensures var job := db.jobs[r.job];
            var (final, rows) := SuccessWrites(cfg, r.job, Counted(job, r.index, segments), readyId, progressId, now);
            && Changed(job, final, Completes(r.index))
            && (forall e :: e in rows ==> rows[e].publishedAt.None?)
  {
  }

  lemma SuccessCommit(cfg: Config, db: Db, r: Request, event: EventId, segments: ProviderSegments, readyId: EventId,
                      progressId: EventId, now: int)
    requires DbInv(cfg, db) && Holds(db, event, r)
    requires Unused(db, readyId) && Unused(db, progressId) && readyId != progressId
    ensures var tx := RecordSuccess(cfg, db, r, event, segments, readyId, progressId, now);
            && (tx.Committed? <==> (ClovaWorkers, event) !in db.inbox)
            && (tx.RolledBack? ==> tx.error.DuplicateInboxKey?)
            && (tx.Committed? ==>
                  && Good(cfg, db, tx.db, r.job, Completes(r.index))
                  && (ClovaWorkers, event) in tx.db.inbox)
  {
    SuccessKeepsInvariant(cfg, db, r, event, segments, readyId, progressId, now);
    if (ClovaWorkers, event) !in db.inbox {
      UnprocessedIsLive(cfg, db, event, r);
      CountersOfJob(cfg, db, r.job);
      var writes := SuccessWrites(cfg, r.job, Counted(db.jobs[r.job], r.index, segments), readyId, progressId, now);
      SuccessOutcome(cfg, db, r, event, segments, readyId, progressId, now);
      SuccessKeys(cfg, r.job, Counted(db.jobs[r.job], r.index, segments), readyId, progressId, now);
      UnusedIsFresh(cfg, db, writes.1);
      SuccessChange(cfg, db, r, segments, readyId, progressId, now);
      EffectAdvances(db, r.job, r.index, event, writes.0, writes.1);
      WritePublishing(db, r.job, writes.0, writes.1, {(ClovaWorkers, event)});
      WriteChanges(db, r.job, writes.0, writes.1, (ClovaWorkers, event), Completes(r.index));
    }
  }

  /** Which of the two failures commits. */
  function FailureKind(cfg: Config, db: Db, r: Request, retryable: bool): Change
    requires r.job in db.jobs && r.index < |db.jobs[r.job].chunks|
  {
    if retryable && db.jobs[r.job].chunks[r.index].retryCount + 1 <= cfg.clovaMaxRetry then Retries(r.index)
    else Fails(r.index)
  }

  lemma FailureCommit(cfg: Config, db: Db, r: Request, event: EventId, retryable: bool, availableAt: int,
                      newId: EventId, progressId: EventId, now: int)
    requires DbInv(cfg, db) && Holds(db, event, r)
    requires Unused(db, newId) && Unused(db, progressId) && newId != progressId
    ensures var tx := RecordFailure(cfg, db, r, event, retryable, availableAt, newId, progressId, now);
            && r.job in db.jobs && r.index < |db.jobs[r.job].chunks|
            && (tx.Committed? <==> (ClovaWorkers, event) !in db.inbox)
            && (tx.RolledBack? ==> tx.error.DuplicateInboxKey?)
            && (tx.Committed? ==>
                  && Good(cfg, db, tx.db, r.job, FailureKind(cfg, db, r, retryable))
                  && (ClovaWorkers, event) in tx.db.inbox)
  {
    FailureKeepsInvariant(cfg, db, r, event, retryable, availableAt, newId, progressId, now);
    RequestMatchesChunk(cfg, db, event, r);
    if (ClovaWorkers, event) !in db.inbox {
      UnprocessedIsLive(cfg, db, event, r);
      FailureOutcome(cfg, db, r, event, retryable, availableAt, newId, progressId, now);
      var job := db.jobs[r.job];
      if FailureKind(cfg, db, r, retryable).Retries? {
        var rows := map[newId := NewRow(ChunkRequested(r.job, r.index), RequestPayload(r.objectKey), availableAt)];
        UnusedIsFresh(cfg, db, rows);
        RetryFacts(db, r, event, availableAt, newId, rows);
      } else {
        var writes := FailureWrites(r, Failed(job, r.index), newId, progressId, now);
        FailureKeys(r, Failed(job, r.index), newId, progressId, now);
        UnusedIsFresh(cfg, db, writes.1);
        FailFacts(db, r, event, newId, progressId, now, writes.0, writes.1);
      }
    }
  }

  lemma FailureKeys(r: Request, failed: Job, newId: EventId, progressId: EventId, now: int)
    ensures FailureWrites(r, failed, newId, progressId, now).1.Keys <= {newId, progressId}
  {
  }

  lemma RetryFacts(db: Db, r: Request, event: EventId, availableAt: int, newId: EventId, rows: map<EventId, Row>)
    requires InProcess(db, r) && Live(db, r.job, r.index) == {event} && FreshRows(db, rows)
    requires rows == map[newId := NewRow(ChunkRequested(r.job, r.index), RequestPayload(r.objectKey), availableAt)]
    ensures var db' := Write(db, r.job, Waiting(db.jobs[r.job], r.index, availableAt), rows, {(ClovaWorkers, event)});
            Advances(db, db') && PublishingKept(db, db') && DbChange(db, db', r.job, Retries(r.index))
  {
    var job := Waiting(db.jobs[r.job], r.index, availableAt);
    EffectAdvances(db, r.job, r.index, event, job, rows);
    WritePublishing(db, r.job, job, rows, {(ClovaWorkers, event)});
    WriteChanges(db, r.job, job, rows, (ClovaWorkers, event), Retries(r.index));
  }

  lemma FailFacts(db: Db, r: Request, event: EventId, newId: EventId, progressId: EventId, now: int, job: Job,
                  rows: map<EventId, Row>)
    requires InProcess(db, r) && Live(db, r.job, r.index) == {event} && FreshRows(db, rows)
    requires (job, rows) == FailureWrites(r, Failed(db.jobs[r.job], r.index), newId, progressId, now)
    ensures var db' := Write(db, r.job, job, rows, {(ClovaWorkers, event)});
            Advances(db, db') && PublishingKept(db, db') && DbChange(db, db', r.job, Fails(r.index))
  {
    EffectAdvances(db, r.job, r.index, event, job, rows);
    WritePublishing(db, r.job, job, rows, {(ClovaWorkers, event)});
    WriteChanges(db, r.job, job, rows, (ClovaWorkers, event), Fails(r.index));
  }

  lemma BeginCommit(cfg: Config, db: Db, j: JobId, event: EventId)
    requires DbInv(cfg, db) && Announces(db.outbox, event, j)
    ensures var begin := BeginCorrection(db, j, event);
            && !begin.AlreadyCorrected?
            && j in db.jobs
            && (begin.Started? ==>
                  Good(cfg, db, begin.db, j,
                       if db.jobs[j].status.TranscriptCompleted? then BeginsCorrection else Nothing))
  {
    BeginKeepsInvariant(cfg, db, j, event);
    AnnouncedJob(cfg, db, event, j);
    SetJobAdvances(db, j, db.jobs[j].(status := Correcting));
    SetJobAdvances(db, j, db.jobs[j]);
  }

  lemma SaveCommit(cfg: Config, db: Db, j: JobId, event: EventId, version: string, finishedId: EventId, now: int)
    requires DbInv(cfg, db) && Announces(db.outbox, event, j) && Unused(db, finishedId)
    ensures var tx := SaveCorrection(db, j, event, version, finishedId, now);
            tx.Committed? ==>
              && Good(cfg, db, tx.db, j, Corrects)
              && (CorrectionWorkers, event) in tx.db.inbox
  {
    SaveKeepsInvariant(cfg, db, j, event, version, finishedId, now);
    if SaveCorrection(db, j, event, version, finishedId, now).Committed? {
      var rows := map[finishedId := NewRow(Finished(j), NoPayload, now)];
      UnusedIsFresh(cfg, db, rows);
      AnnouncedJob(cfg, db, event, j);
      SaveStatus(cfg, db, j, event, version, finishedId, now);
      SettlingChanges(db, j, SavedJob(db.jobs[j], version), rows, event, Corrects);
      KeptChunksAdvance(db, j, SavedJob(db.jobs[j], version), rows, {(CorrectionWorkers, event)});
      WritePublishing(db, j, SavedJob(db.jobs[j], version), rows, {(CorrectionWorkers, event)});
    }
  }

  lemma SaveStatus(cfg: Config, db: Db, j: JobId, event: EventId, version: string, finishedId: EventId, now: int)
    requires j in db.jobs && SaveCorrection(db, j, event, version, finishedId, now).Committed?
    ensures Changed(db.jobs[j], SavedJob(db.jobs[j], version), Corrects)
  {
  }

  lemma RecordCommit(cfg: Config, db: Db, j: JobId, event: EventId, retryable: bool, deadId: EventId,
                     progressId: EventId, now: int)
    requires DbInv(cfg, db) && Announces(db.outbox, event, j)
    requires Unused(db, deadId) && Unused(db, progressId) && deadId != progressId
    ensures var recorded := FailCorrection(cfg, db, j, event, retryable, deadId, progressId, now);
            && (recorded.WillRetry? ==> Good(cfg, db, recorded.db, j, RetriesCorrection))
            && (recorded.GaveUp? ==>
                  Good(cfg, db, recorded.db, j, GivesUp) && (CorrectionWorkers, event) in recorded.db.inbox)
  {
    FailKeepsInvariant(cfg, db, j, event, retryable, deadId, progressId, now);
    var recorded := FailCorrection(cfg, db, j, event, retryable, deadId, progressId, now);
    if recorded.WillRetry? {
      RetryCorrectionFacts(db, j);
    } else if recorded.GaveUp? {
      var job := CountedFailure(db.jobs[j]);
      var rows := DeadRows(j, job, deadId, progressId, now);
      UnusedIsFresh(cfg, db, rows);
      AnnouncedJob(cfg, db, event, j);
      GiveUpFacts(db, j, event, rows);
      WritePublishing(db, j, job.(status := JobFailed), rows, {(CorrectionWorkers, event)});
    }
  }

  lemma RetryCorrectionFacts(db: Db, j: JobId)
    requires j in db.jobs
    ensures var db' := SetJob(db, j, CountedFailure(db.jobs[j]));
            Advances(db, db') && PublishingKept(db, db') && DbChange(db, db', j, RetriesCorrection)
  {
    SetJobAdvances(db, j, CountedFailure(db.jobs[j]));
  }

  lemma GiveUpFacts(db: Db, j: JobId, event: EventId, rows: map<EventId, Row>)
    requires j in db.jobs && FreshRows(db, rows) && JobFailed in JobTransitions(db.jobs[j].status)
    requires Of(db.outbox, TranscriptReady(j)) == {event} && (CorrectionWorkers, event) !in db.inbox
    ensures var db' := Write(db, j, CountedFailure(db.jobs[j]).(status := JobFailed), rows,
                             {(CorrectionWorkers, event)});
            Advances(db, db') && DbChange(db, db', j, GivesUp)
  {
    var job := CountedFailure(db.jobs[j]).(status := JobFailed);
    SettlingChanges(db, j, job, rows, event, GivesUp);
    KeptChunksAdvance(db, j, job, rows, {(CorrectionWorkers, event)});
  }

  lemma EnsureCommit(cfg: Config, db: Db, j: JobId)
    requires DbInv(cfg, db)
    ensures Good(cfg, db, EnsureJob(db, j), j, if j in db.jobs then Nothing else Creates)
  {
    EnsureJobKeepsInvariant(cfg, db, j);
    if j !in db.jobs {
      SetJobAdvances(db, j, NewJob());
    } else {
      SetJobAdvances(db, j, db.jobs[j]);
    }
  }

  lemma MarkFailedCommit(cfg: Config, db: Db, j: JobId)
    requires DbInv(cfg, db)
    ensures Good(cfg, db, MarkFailed(db, j), j, if j in db.jobs then Overwrites else Nothing)
  {
    MarkFailedKeepsInvariant(cfg, db, j);
    if j in db.jobs {
      SetJobAdvances(db, j, db.jobs[j].(status := JobFailed));
    }
  }

  lemma PreprocessCommit(cfg: Config, db: Db, j: JobId, event: EventId, uploads: seq<Upload>, ids: seq<EventId>, now:
                         int)
    requires DbInv(cfg, db)
    requires |ids| == |uploads| > 0 && Distinct(ids) && forall e :: e in ids ==> Unused(db, e)
    ensures var tx := Preprocess(db, j, event, uploads, ids, now);
            tx.Committed? ==>
              && j in db.jobs
              && Good(cfg, db, tx.db, j,
                      if (Orchestrators, event) in db.inbox || db.jobs[j].chunks != [] then Nothing else Prepares)
  {
    PreprocessKeepsInvariant(cfg, db, j, event, uploads, ids, now);
    if j in db.jobs && (Orchestrators, event) !in db.inbox {
      CountersOfJob(cfg, db, j);
      var job := db.jobs[j];
      if job.totalChunks != 0 {
        KeptChunksAdvance(db, j, job, map[], {(Orchestrators, event)});
        WritePublishing(db, j, job, map[], {(Orchestrators, event)});
      } else {
        var rows := FirstRequests(j, uploads, ids, now);
        FirstRequestRows(j, uploads, ids, now);
        FirstRequestTopics(j, uploads, ids, now);
        UnusedIsFresh(cfg, db, rows);
        KeptChunksAdvance(db, j, Prepared(job, uploads), rows, {(Orchestrators, event)});
        FirstRequestsUnpublished(j, uploads, ids, now);
        WritePublishing(db, j, Prepared(job, uploads), rows, {(Orchestrators, event)});
        PreparedChange(job, uploads);
        WriteChanges(db, j, Prepared(job, uploads), rows, (Orchestrators, event), Prepares);
      }
    }
  }

  lemma PreparedChange(job: Job, uploads: seq<Upload>)
    requires job.chunks == [] && uploads != []
    ensures Changed(job, Prepared(job, uploads), Prepares)
  {
    assert Prepared(job, uploads).chunks == NewChunks(uploads);
  }

  lemma FirstRequestsUnpublished(j: JobId, uploads: seq<Upload>, ids: seq<EventId>, now: int)
    requires |ids| == |uploads| && Distinct(ids)
    ensures var rows := FirstRequests(j, uploads, ids, now);
            forall e :: e in rows ==> rows[e].publishedAt.None?
  {
    FirstRequestRows(j, uploads, ids, now);
    var rows := FirstRequests(j, uploads, ids, now);
    forall e | e in rows ensures rows[e].publishedAt.None? {
      var i :| 0 <= i < |ids| && ids[i] == e;
      assert rows[ids[i]] == FirstRow(j, uploads[i], i, now);
    }
  }
}
