/**
 Every transaction of the CLOVA worker keeps the ledger invariant.

 - The lookups: a request event always names a stored chunk, and an unprocessed one is the chunk's only live event.
 - The pieces of the invariant after an update of one chunk: counters, siblings, requests, transcript, settlement.
 - The claim only moves an unfinished chunk to `processing`; no lease owner is ever needed.
 - An effect, success or failure, takes its chunk's live event out of the game by the inbox key it inserts. That key is
   what makes a second commit for the same event impossible, since the failure transaction checks neither status nor
   owner.
 - The last success merges: at that moment every chunk is completed.
 */
module ClovaProofs {
  import opened Options
  import opened JobState
  import opened Ledger
  import opened Transactions
  import opened LedgerInvariant

  /** `event` is an outbox event carrying request `r`. */
  predicate Carries(outbox: map<EventId, Row>, event: EventId, r: Request) {
    && event in outbox
    && outbox[event].topic == ChunkRequested(r.job, r.index)
    && outbox[event].payload == RequestPayload(r.objectKey)
  }

  /** A request event always names a stored chunk with the stored key: the worker's lookup errors cannot occur. */
  lemma RequestMatchesChunk(cfg: Config, db: Db, event: EventId, r: Request)
    requires DbInv(cfg, db) && Carries(db.outbox, event, r)
    ensures r.job in db.jobs && r.index < |db.jobs[r.job].chunks|
    ensures db.jobs[r.job].chunks[r.index].objectKey == r.objectKey
  {
    assert RowOk(db.jobs, db.outbox[event]);
  }

  /** An unprocessed request event is its chunk's only one, and the chunk is unfinished. */
  lemma UnprocessedIsLive(cfg: Config, db: Db, event: EventId, r: Request)
    requires DbInv(cfg, db) && Carries(db.outbox, event, r)
    ensures r.job in db.jobs && r.index < |db.jobs[r.job].chunks|
    ensures (ClovaWorkers, event) !in db.inbox ==>
              Live(db, r.job, r.index) == {event} && Unfinished(db.jobs[r.job].chunks[r.index])
  {
    RequestMatchesChunk(cfg, db, event, r);
    assert JobInv(cfg, db, r.job);
    assert RequestsOk(db, r.job, r.index, db.jobs[r.job].chunks[r.index]);
    if (ClovaWorkers, event) !in db.inbox {
      assert event in Live(db, r.job, r.index);
      OneElement(Live(db, r.job, r.index), event);
    }
  }

  // ---------------------------------------------------------------- pieces of JobInv after an update of one chunk

  lemma CountersUpdated(job: Job, i: nat, c: Chunk)
    requires CountersOk(job) && i < |job.chunks|
    requires Unfinished(job.chunks[i])
    ensures Count(job.chunks[i := c], ChunkCompleted)
         == job.completedChunks + (if c.status.ChunkCompleted? then 1 else 0)
    ensures Count(job.chunks[i := c], ChunkFailed) == job.failedChunks + (if c.status.ChunkFailed? then 1 else 0)
    ensures job.completedChunks < |job.chunks|
    ensures job.completedChunks + job.failedChunks < |job.chunks|
  {
    CountUpdate(job.chunks, i, c, ChunkCompleted);
    CountUpdate(job.chunks, i, c, ChunkFailed);
    var done := job.chunks[i].(status := ChunkCompleted);
    CountUpdate(job.chunks, i, done, ChunkCompleted);
    CountUpdate(job.chunks, i, done, ChunkFailed);
    CountDisjoint(job.chunks[i := done], ChunkCompleted, ChunkFailed);
  }

  /** Requests of a chunk that the transaction does not touch. */
  lemma SiblingKept(db: Db, j: JobId, job: Job, rows: map<EventId, Row>, marks: set<(Group, EventId)>, i: nat, k: nat,
                    c: Chunk)
    requires FreshRows(db, rows)
    requires forall key :: key in marks ==>
               key.0.ClovaWorkers? && key.1 in db.outbox && db.outbox[key.1].topic == ChunkRequested(j, i)
    requires forall e :: e in rows ==> rows[e].topic != ChunkRequested(j, k)
    requires k != i && RequestsOk(db, j, k, c)
    ensures RequestsOk(Write(db, j, job, rows, marks), j, k, c)
  {
    var db' := Write(db, j, job, rows, marks);
    var t := ChunkRequested(j, k);
    assert Of(rows, t) == {};
    OfWritten(db, j, job, rows, marks, t);
    LiveWritten(db, j, job, rows, marks, j, k);
    assert Of(db'.outbox, t) == Of(db.outbox, t);
    assert Live(db', j, k) == Live(db, j, k) by {
      forall e | e in Live(db, j, k) ensures (ClovaWorkers, e) !in marks {
        assert db.outbox[e].topic == t;
      }
    }
  }

  /** The chunk's own requests after its live event is marked and `rows` added. */
  lemma OwnRequests(db: Db, j: JobId, job: Job, rows: map<EventId, Row>, event: EventId, i: nat)
    requires FreshRows(db, rows) && event in db.outbox
    requires Live(db, j, i) == {event}
    ensures var db' := Write(db, j, job, rows, {(ClovaWorkers, event)});
            var t := ChunkRequested(j, i);
            && Live(db', j, i) == Of(rows, t)
            && |Of(db'.outbox, t)| == |Of(db.outbox, t)| + |Of(rows, t)|
  {
    var marks := {(ClovaWorkers, event)};
    OfWritten(db, j, job, rows, marks, ChunkRequested(j, i));
    LiveWritten(db, j, job, rows, marks, j, i);
    assert (set e | e in Live(db, j, i) && (ClovaWorkers, e) !in marks) == {};
  }

  /** A CLOVA transaction neither settles nor adds a correction event. */
  lemma CorrectionUntouched(cfg: Config, db: Db, j: JobId, job: Job, rows: map<EventId, Row>,
                            marks: set<(Group, EventId)>)
    requires FreshRows(db, rows)
    requires forall key :: key in marks ==> !key.0.CorrectionWorkers?
    requires forall e :: e in rows ==> !rows[e].topic.Finished? && !rows[e].topic.CorrectionDead?
    requires j in db.jobs && CorrectionOk(cfg, db, j, db.jobs[j])
    requires job.correctedVersions == db.jobs[j].correctedVersions
    requires job.correctionRetryCount == db.jobs[j].correctionRetryCount
    ensures Settled(Write(db, j, job, rows, marks), j) == Settled(db, j)
    ensures CorrectionOk(cfg, Write(db, j, job, rows, marks), j, job)
  {
    var db' := Write(db, j, job, rows, marks);
    var ready := TranscriptReady(j);
    OfWritten(db, j, job, rows, marks, ready);
    OfWritten(db, j, job, rows, marks, Finished(j));
    OfWritten(db, j, job, rows, marks, CorrectionDead(j));
    assert Of(rows, Finished(j)) == {} && Of(rows, CorrectionDead(j)) == {};
    assert Of(db'.outbox, Finished(j)) == Of(db.outbox, Finished(j));
    assert Of(db'.outbox, CorrectionDead(j)) == Of(db.outbox, CorrectionDead(j));
    forall e | e in Of(db'.outbox, ready)
      ensures (CorrectionWorkers, e) in db'.inbox <==> (CorrectionWorkers, e) in db.inbox && e in Of(db.outbox, ready)
    {
      assert e in Of(rows, ready) ==> e in rows;
    }
    if Settled(db, j) {
      var e :| e in Of(db.outbox, ready) && (CorrectionWorkers, e) in db.inbox;
      assert e in Of(db'.outbox, ready);
    }
  }

  lemma TranscriptUntouched(cfg: Config, db: Db, j: JobId, job: Job, rows: map<EventId, Row>,
                            marks: set<(Group, EventId)>)
    requires rows.Keys !! db.outbox.Keys
    requires forall e :: e in rows ==> !rows[e].topic.TranscriptReady?
    requires j in db.jobs && TranscriptOk(cfg, db, j, db.jobs[j])
    requires !Transcribed(db.jobs[j]) && !Transcribed(job) && job.merged == db.jobs[j].merged
    ensures TranscriptOk(cfg, Write(db, j, job, rows, marks), j, job)
  {
    OfWritten(db, j, job, rows, marks, TranscriptReady(j));
    assert Of(rows, TranscriptReady(j)) == {};
    assert Of(Write(db, j, job, rows, marks).outbox, TranscriptReady(j)) == Of(db.outbox, TranscriptReady(j));
  }

  lemma TranscriptAppears(cfg: Config, db: Db, j: JobId, job: Job, rows: map<EventId, Row>,
                          marks: set<(Group, EventId)>, readyId: EventId)
    requires rows.Keys !! db.outbox.Keys
    requires readyId in rows
    requires forall e :: e in rows ==> (rows[e].topic == TranscriptReady(j) <==> e == readyId)
    requires j in db.jobs && TranscriptOk(cfg, db, j, db.jobs[j]) && !Transcribed(db.jobs[j])
    requires Transcribed(job) && job.merged == Some(TranscriptOf(cfg, job.chunks))
    ensures TranscriptOk(cfg, Write(db, j, job, rows, marks), j, job)
  {
    assert Of(rows, TranscriptReady(j)) == {readyId};
    OfWritten(db, j, job, rows, marks, TranscriptReady(j));
    assert Of(db.outbox, TranscriptReady(j)) == {};
    assert Of(Write(db, j, job, rows, marks).outbox, TranscriptReady(j)) == {readyId};
  }

  /** A progress event satisfies the schema's bounds. */
  lemma ProgressRowOk(jobs: map<JobId, Job>, j: JobId, job: Job, now: int)
    requires j in jobs
    requires job.completedChunks + job.failedChunks <= job.totalChunks
    ensures RowOk(jobs, ProgressRow(j, job, now))
  {
    RatioBounds(job.completedChunks, job.totalChunks);
  }

  lemma RatioBounds(completed: nat, total: nat)
    requires completed <= total
    ensures 0.0 <= Ratio(completed, total) <= 1.0
    ensures Ratio(completed, total) * total as real == completed as real
  {
  }

  // ---------------------------------------------------------------- the transactions

  /** Putting an unfinished chunk under a lease adds no event and marks none. */
  lemma LeaseKeepsJob(cfg: Config, db: Db, j: JobId, i: nat, worker: WorkerId, claimedAt: int)
    requires j in db.jobs && JobInv(cfg, db, j) && i < |db.jobs[j].chunks|
    requires Unfinished(db.jobs[j].chunks[i])
    ensures JobInv(cfg, SetJob(db, j, Leased(cfg, db.jobs[j], i, worker, claimedAt)), j)
  {
    var job := Leased(cfg, db.jobs[j], i, worker, claimedAt);
    var db' := SetJob(db, j, job);
    CountersUpdated(db.jobs[j], i, job.chunks[i]);
    assert Settled(db', j) == Settled(db, j);
    forall k | 0 <= k < |job.chunks| ensures ChunkOk(cfg, job.chunks[k]) && RequestsOk(db', j, k, job.chunks[k]) {
      assert ChunkOk(cfg, db.jobs[j].chunks[k]) && RequestsOk(db, j, k, db.jobs[j].chunks[k]);
      assert Live(db', j, k) == Live(db, j, k);
    }
  }

  /** What a claim can do for an event that matches its chunk and is live only while the chunk is unfinished:
      its "already completed" branch never commits. */
  lemma ClaimOutcome(cfg: Config, db: Db, r: Request, event: EventId, worker: WorkerId, claimedAt: int)
    requires r.job in db.jobs && r.index < |db.jobs[r.job].chunks|
    requires db.jobs[r.job].chunks[r.index].objectKey == r.objectKey
    requires (ClovaWorkers, event) !in db.inbox ==> Unfinished(db.jobs[r.job].chunks[r.index])
    ensures var claim := ClaimChunk(cfg, db, r, event, worker, claimedAt);
            && !claim.NothingToDo?
            && (claim.ClaimRaised? ==> claim.error.NotClaimable? || claim.error.DuplicateInboxKey?)
            && (claim.Claimed? ==>
                  && Unfinished(db.jobs[r.job].chunks[r.index])
                  && claim.db == SetJob(db, r.job, Leased(cfg, db.jobs[r.job], r.index, worker, claimedAt)))
  {
  }

  lemma LeaseShape(cfg: Config, before: Job, i: nat, worker: WorkerId, claimedAt: int)
    requires i < |before.chunks|
    ensures SameShape(before, Leased(cfg, before, i, worker, claimedAt))
  {
  }

  lemma LeaseKeepsInvariant(cfg: Config, db: Db, j: JobId, i: nat, worker: WorkerId, claimedAt: int)
    requires DbInv(cfg, db)
    requires j in db.jobs && i < |db.jobs[j].chunks| && Unfinished(db.jobs[j].chunks[i])
    ensures DbInv(cfg, SetJob(db, j, Leased(cfg, db.jobs[j], i, worker, claimedAt)))
  {
    var job := Leased(cfg, db.jobs[j], i, worker, claimedAt);
    LeaseShape(cfg, db.jobs[j], i, worker, claimedAt);
    LeaseKeepsJob(cfg, db, j, i, worker, claimedAt);
    SetJobKeepsInvariant(cfg, db, j, job);
  }

  /** Claiming keeps the invariant; for a published request it can only claim, or raise because the lease is still
      running or the event has been handled. */
  lemma ClaimKeepsInvariant(cfg: Config, db: Db, r: Request, event: EventId, worker: WorkerId, claimedAt: int)
    requires DbInv(cfg, db) && Carries(db.outbox, event, r)
    ensures var claim := ClaimChunk(cfg, db, r, event, worker, claimedAt);
            && !claim.NothingToDo?
            && (claim.Claimed? ==> DbInv(cfg, claim.db))
            && (claim.ClaimRaised? ==> claim.error.NotClaimable? || claim.error.DuplicateInboxKey?)
  {
    UnprocessedIsLive(cfg, db, event, r);
    RequestMatchesChunk(cfg, db, event, r);
    ClaimOutcome(cfg, db, r, event, worker, claimedAt);
    if ClaimChunk(cfg, db, r, event, worker, claimedAt).Claimed? {
      LeaseKeepsInvariant(cfg, db, r.job, r.index, worker, claimedAt);
    }
  }

  /** `job` results from an effect on chunk `i` of job `j` that marks its live event and adds `rows`. */
  ghost predicate IsEffect(cfg: Config, db: Db, j: JobId, i: nat, event: EventId, job: Job, rows: map<EventId, Row>) {
    && j in db.jobs && i < |db.jobs[j].chunks| && |job.chunks| == |db.jobs[j].chunks|
    && Live(db, j, i) == {event} && Unfinished(db.jobs[j].chunks[i])
    && FreshRows(db, rows) && RowsOf(j, rows)
    && (forall e :: e in rows ==> !rows[e].topic.Finished? && !rows[e].topic.CorrectionDead?)
    && (forall e, k :: e in rows && k != i ==> rows[e].topic != ChunkRequested(j, k))
    && (forall k :: 0 <= k < |job.chunks| && k != i ==> job.chunks[k] == db.jobs[j].chunks[k])
    && ChunkOk(cfg, job.chunks[i])
    && |Of(rows, ChunkRequested(j, i))| == (if Unfinished(job.chunks[i]) then 1 else 0)
    && job.chunks[i].retryCount + (if job.chunks[i].status.ChunkFailed? then 0 else 1)
       == db.jobs[j].chunks[i].retryCount + 1 + (if Unfinished(job.chunks[i]) then 1 else 0)
    && job.correctedVersions == db.jobs[j].correctedVersions
    && job.correctionRetryCount == db.jobs[j].correctionRetryCount
  }

  lemma EffectKeepsRequests(cfg: Config, db: Db, j: JobId, i: nat, event: EventId, job: Job, rows: map<EventId, Row>)
    requires IsEffect(cfg, db, j, i, event, job, rows)
    requires forall k :: 0 <= k < |db.jobs[j].chunks| ==>
               ChunkOk(cfg, db.jobs[j].chunks[k]) && RequestsOk(db, j, k, db.jobs[j].chunks[k])
    ensures forall k :: 0 <= k < |job.chunks| ==>
              && ChunkOk(cfg, job.chunks[k])
              && RequestsOk(Write(db, j, job, rows, {(ClovaWorkers, event)}), j, k, job.chunks[k])
  {
    var marks := {(ClovaWorkers, event)};
    assert event in Live(db, j, i);
    forall k | 0 <= k < |job.chunks|
      ensures ChunkOk(cfg, job.chunks[k]) && RequestsOk(Write(db, j, job, rows, marks), j, k, job.chunks[k])
    {
      assert RequestsOk(db, j, k, db.jobs[j].chunks[k]);
      if k == i {
        OwnRequests(db, j, job, rows, event, i);
      } else {
        SiblingKept(db, j, job, rows, marks, i, k, job.chunks[k]);
      }
    }
  }

  /** The job part of the invariant after an effect that does not finish the job. */
  lemma EffectKeepsJob(cfg: Config, db: Db, j: JobId, i: nat, event: EventId, job: Job, rows: map<EventId, Row>)
    requires IsEffect(cfg, db, j, i, event, job, rows) && JobInv(cfg, db, j)
    requires forall e :: e in rows ==> !rows[e].topic.TranscriptReady?
    requires CountersOk(job) && !Transcribed(job) && job.merged == db.jobs[j].merged
    requires job.status.Transcribing? || job.status.JobFailed?
    ensures JobInv(cfg, Write(db, j, job, rows, {(ClovaWorkers, event)}), j)
  {
    var marks := {(ClovaWorkers, event)};
    CountersUpdated(db.jobs[j], i, job.chunks[i]);
    TranscriptUntouched(cfg, db, j, job, rows, marks);
    CorrectionUntouched(cfg, db, j, job, rows, marks);
    EffectKeepsRequests(cfg, db, j, i, event, job, rows);
  }

  /** The job part of the invariant after the effect that completes the last chunk. */
  lemma LastEffectKeepsJob(cfg: Config, db: Db, j: JobId, i: nat, event: EventId, job: Job, rows: map<EventId, Row>,
                           readyId: EventId)
    requires IsEffect(cfg, db, j, i, event, job, rows) && JobInv(cfg, db, j)
    requires readyId in rows
    requires forall e :: e in rows ==> (rows[e].topic == TranscriptReady(j) <==> e == readyId)
    requires CountersOk(job) && Transcribed(job) && job.merged == Some(TranscriptOf(cfg, job.chunks))
    requires job.status.TranscriptCompleted?
    ensures JobInv(cfg, Write(db, j, job, rows, {(ClovaWorkers, event)}), j)
  {
    var marks := {(ClovaWorkers, event)};
    CountersUpdated(db.jobs[j], i, job.chunks[i]);
    TranscriptAppears(cfg, db, j, job, rows, marks, readyId);
    CorrectionUntouched(cfg, db, j, job, rows, marks);
    EffectKeepsRequests(cfg, db, j, i, event, job, rows);
  }

  // ---------------------------------------------------------------- success

  /** A fresh event id: unused by rows and, by the invariant, by the worker groups' marks. */
  predicate Unused(db: Db, e: EventId) {
    e !in db.outbox
  }

  lemma UnusedIsFresh(cfg: Config, db: Db, rows: map<EventId, Row>)
    requires DbInv(cfg, db)
    requires forall e :: e in rows ==> Unused(db, e)
    ensures FreshRows(db, rows)
  {
    forall g, e | e in rows && (g, e) in db.inbox ensures g.Orchestrators? {
      assert MarkOk(db.outbox, (g, e));
    }
  }

  /** A success that does not complete the last chunk. */
  lemma SuccessKeepsJob(cfg: Config, db: Db, j: JobId, i: nat, event: EventId, segments: ProviderSegments, final: Job,
                        rows: map<EventId, Row>, progressId: EventId, now: int)
    requires j in db.jobs && JobInv(cfg, db, j) && i < |db.jobs[j].chunks|
    requires Live(db, j, i) == {event} && Unfinished(db.jobs[j].chunks[i])
    requires FreshRows(db, rows)
    requires !IsLast(Counted(db.jobs[j], i, segments))
    requires (final, rows) == RecordProgress(j, Counted(db.jobs[j], i, segments), false, progressId, now)
    ensures IsEffect(cfg, db, j, i, event, final, rows)
    ensures JobInv(cfg, Write(db, j, final, rows, {(ClovaWorkers, event)}), j)
    ensures CountersOk(final)
  {
    var job := db.jobs[j];
    assert ChunkOk(cfg, job.chunks[i]);
    CountersUpdated(job, i, CompletedChunk(job.chunks[i], segments));
    assert Of(rows, ChunkRequested(j, i)) == {};
    EffectKeepsJob(cfg, db, j, i, event, final, rows);
  }

  /** The guard of the merge always holds when the counter reaches the total. */
  lemma LastIsMergeable(job: Job, i: nat, segments: ProviderSegments)
    requires CountersOk(job) && i < |job.chunks| && !job.chunks[i].status.ChunkCompleted?
    ensures IsLast(Counted(job, i, segments)) ==> Mergeable(Counted(job, i, segments))
  {
    var counted := Counted(job, i, segments);
    CountUpdate(job.chunks, i, counted.chunks[i], ChunkCompleted);
    CountAll(counted.chunks, ChunkCompleted);
  }

  /** The success that completes the last chunk, merges and announces the transcript. */
  lemma LastSuccessKeepsJob(cfg: Config, db: Db, j: JobId, i: nat, event: EventId, segments: ProviderSegments, final:
                            Job, rows: map<EventId, Row>, progressRows: map<EventId, Row>, readyId: EventId,
                            progressId: EventId, now: int)
    requires j in db.jobs && JobInv(cfg, db, j) && i < |db.jobs[j].chunks|
    requires Live(db, j, i) == {event} && Unfinished(db.jobs[j].chunks[i])
    requires FreshRows(db, rows) && readyId != progressId
    requires IsLast(Counted(db.jobs[j], i, segments))
    requires (final, progressRows)
          == RecordProgress(j, Merged(cfg, Counted(db.jobs[j], i, segments)), true, progressId, now)
    requires rows == map[readyId := NewRow(TranscriptReady(j), NoPayload, now)] + progressRows
    ensures IsEffect(cfg, db, j, i, event, final, rows)
    ensures JobInv(cfg, Write(db, j, final, rows, {(ClovaWorkers, event)}), j)
    ensures CountersOk(final)
  {
    var job := db.jobs[j];
    assert ChunkOk(cfg, job.chunks[i]);
    CountersUpdated(job, i, CompletedChunk(job.chunks[i], segments));
    assert Of(rows, ChunkRequested(j, i)) == {};
    LastEffectKeepsJob(cfg, db, j, i, event, final, rows, readyId);
  }

  lemma EffectShape(cfg: Config, db: Db, j: JobId, i: nat, event: EventId, job: Job, rows: map<EventId, Row>)
    requires IsEffect(cfg, db, j, i, event, job, rows)
    requires job.chunks[i].objectKey == db.jobs[j].chunks[i].objectKey
    requires forall e :: e in rows ==> RowOk(db.jobs[j := job], rows[e])
    ensures AdditionsOk(db, j, job, rows, {(ClovaWorkers, event)})
  {
    assert event in Live(db, j, i);
  }

  /** `_record_success` for a request event commits exactly when the event has not been processed, and keeps the
      invariant. The "incomplete chunks" error and the "already completed" shortcut never happen. */
  lemma SuccessKeepsInvariant(cfg: Config, db: Db, r: Request, event: EventId, segments: ProviderSegments, readyId:
                              EventId, progressId: EventId, now: int)
    requires DbInv(cfg, db) && Carries(db.outbox, event, r)
    requires Unused(db, readyId) && Unused(db, progressId) && readyId != progressId
    ensures var tx := RecordSuccess(cfg, db, r, event, segments, readyId, progressId, now);
            && (tx.Committed? <==> (ClovaWorkers, event) !in db.inbox)
            && (tx.Committed? ==> DbInv(cfg, tx.db))
            && (tx.RolledBack? ==> tx.error.DuplicateInboxKey?)
  {
    UnprocessedIsLive(cfg, db, event, r);
    CountersOfJob(cfg, db, r.job);
    SuccessOutcome(cfg, db, r, event, segments, readyId, progressId, now);
    if (ClovaWorkers, event) !in db.inbox {
      var writes := SuccessWrites(cfg, r.job, Counted(db.jobs[r.job], r.index, segments), readyId, progressId, now);
      SuccessPreserves(cfg, db, r, event, segments, readyId, progressId, now, writes.0, writes.1);
    }
  }

  lemma CountersOfJob(cfg: Config, db: Db, j: JobId)
    requires DbInv(cfg, db) && j in db.jobs
    ensures CountersOk(db.jobs[j])
  {
    assert JobInv(cfg, db, j);
  }

  lemma SuccessOutcome(cfg: Config, db: Db, r: Request, event: EventId, segments: ProviderSegments, readyId: EventId,
                       progressId: EventId, now: int)
    requires r.job in db.jobs && r.index < |db.jobs[r.job].chunks| && CountersOk(db.jobs[r.job])
    requires (ClovaWorkers, event) !in db.inbox ==> Unfinished(db.jobs[r.job].chunks[r.index])
    ensures var tx := RecordSuccess(cfg, db, r, event, segments, readyId, progressId, now);
            var (final, rows) :=
              SuccessWrites(cfg, r.job, Counted(db.jobs[r.job], r.index, segments), readyId, progressId, now);
            && (tx.Committed? <==> (ClovaWorkers, event) !in db.inbox)
            && (tx.Committed? ==> tx.db == Write(db, r.job, final, rows, {(ClovaWorkers, event)}))
            && (tx.RolledBack? ==> tx.error.DuplicateInboxKey?)
  {
    if !db.jobs[r.job].chunks[r.index].status.ChunkCompleted? {
      LastIsMergeable(db.jobs[r.job], r.index, segments);
    }
  }

  lemma SuccessKeys(cfg: Config, j: JobId, counted: Job, readyId: EventId, progressId: EventId, now: int)
    ensures SuccessWrites(cfg, j, counted, readyId, progressId, now).1.Keys <= {readyId, progressId}
  {
  }

  lemma SuccessPreserves(cfg: Config, db: Db, r: Request, event: EventId, segments: ProviderSegments, readyId: EventId,
                         progressId: EventId, now: int, final: Job, rows: map<EventId, Row>)
    requires DbInv(cfg, db) && Carries(db.outbox, event, r)
    requires Unused(db, readyId) && Unused(db, progressId) && readyId != progressId
    requires (ClovaWorkers, event) !in db.inbox
    requires r.job in db.jobs && r.index < |db.jobs[r.job].chunks|
    requires (final, rows)
          == SuccessWrites(cfg, r.job, Counted(db.jobs[r.job], r.index, segments), readyId, progressId, now)
    ensures DbInv(cfg, Write(db, r.job, final, rows, {(ClovaWorkers, event)}))
  {
    UnprocessedIsLive(cfg, db, event, r);
    SuccessKeys(cfg, r.job, Counted(db.jobs[r.job], r.index, segments), readyId, progressId, now);
    UnusedIsFresh(cfg, db, rows);
    SuccessIsEffect(cfg, db, r, event, segments, readyId, progressId, now, final, rows);
    WriteKeepsInvariant(cfg, db, r.job, final, rows, {(ClovaWorkers, event)});
  }

  lemma SuccessIsEffect(cfg: Config, db: Db, r: Request, event: EventId, segments: ProviderSegments, readyId: EventId,
                        progressId: EventId, now: int, final: Job, rows: map<EventId, Row>)
    requires r.job in db.jobs && r.index < |db.jobs[r.job].chunks| && JobInv(cfg, db, r.job)
    requires Live(db, r.job, r.index) == {event} && Unfinished(db.jobs[r.job].chunks[r.index])
    requires FreshRows(db, rows) && readyId != progressId
    requires (final, rows)
          == SuccessWrites(cfg, r.job, Counted(db.jobs[r.job], r.index, segments), readyId, progressId, now)
    ensures JobInv(cfg, Write(db, r.job, final, rows, {(ClovaWorkers, event)}), r.job)
    ensures AdditionsOk(db, r.job, final, rows, {(ClovaWorkers, event)})
  {
    var j, i := r.job, r.index;
    var counted := Counted(db.jobs[j], i, segments);
    if IsLast(counted) {
      var recorded := RecordProgress(j, Merged(cfg, counted), true, progressId, now);
      LastSuccessKeepsJob(cfg, db, j, i, event, segments, final, rows, recorded.1, readyId, progressId, now);
    } else {
      SuccessKeepsJob(cfg, db, j, i, event, segments, final, rows, progressId, now);
    }
    CountDisjoint(final.chunks, ChunkCompleted, ChunkFailed);
    ProgressRowOk(db.jobs[j := final], j, counted, now);
    EffectShape(cfg, db, j, i, event, final, rows);
  }

  // ---------------------------------------------------------------- failure

  lemma RetryIsEffect(cfg: Config, db: Db, r: Request, event: EventId, availableAt: int, newId: EventId, final: Job,
                      rows: map<EventId, Row>)
    requires r.job in db.jobs && r.index < |db.jobs[r.job].chunks| && CountersOk(db.jobs[r.job])
    requires Live(db, r.job, r.index) == {event} && Unfinished(db.jobs[r.job].chunks[r.index])
    requires db.jobs[r.job].chunks[r.index].retryCount + 1 <= cfg.clovaMaxRetry
    requires FreshRows(db, rows)
    requires final == Waiting(db.jobs[r.job], r.index, availableAt)
    requires rows == map[newId := NewRow(ChunkRequested(r.job, r.index), RequestPayload(r.objectKey), availableAt)]
    ensures IsEffect(cfg, db, r.job, r.index, event, final, rows)
    ensures CountersOk(final) && !Transcribed(final)
  {
    CountersUpdated(db.jobs[r.job], r.index, final.chunks[r.index]);
    assert Of(rows, ChunkRequested(r.job, r.index)) == {newId};
  }

  lemma RetryKeepsJob(cfg: Config, db: Db, r: Request, event: EventId, availableAt: int, newId: EventId, final: Job,
                      rows: map<EventId, Row>)
    requires r.job in db.jobs && r.index < |db.jobs[r.job].chunks| && JobInv(cfg, db, r.job)
    requires Live(db, r.job, r.index) == {event} && Unfinished(db.jobs[r.job].chunks[r.index])
    requires db.jobs[r.job].chunks[r.index].objectKey == r.objectKey
    requires db.jobs[r.job].chunks[r.index].retryCount + 1 <= cfg.clovaMaxRetry
    requires FreshRows(db, rows)
    requires final == Waiting(db.jobs[r.job], r.index, availableAt)
    requires rows == map[newId := NewRow(ChunkRequested(r.job, r.index), RequestPayload(r.objectKey), availableAt)]
    ensures JobInv(cfg, Write(db, r.job, final, rows, {(ClovaWorkers, event)}), r.job)
    ensures AdditionsOk(db, r.job, final, rows, {(ClovaWorkers, event)})
  {
    RetryIsEffect(cfg, db, r, event, availableAt, newId, final, rows);
    UnfinishedNotTranscribed(db.jobs[r.job], r.index);
    EffectKeepsJob(cfg, db, r.job, r.index, event, final, rows);
    EffectShape(cfg, db, r.job, r.index, event, final, rows);
  }

  lemma UnfinishedNotTranscribed(job: Job, i: nat)
    requires CountersOk(job) && i < |job.chunks| && Unfinished(job.chunks[i])
    ensures !Transcribed(job)
  {
    CountersUpdated(job, i, job.chunks[i]);
  }

  lemma FailureIsEffect(cfg: Config, db: Db, r: Request, event: EventId, deadId: EventId, progressId: EventId,
                        now: int, final: Job, rows: map<EventId, Row>)
    requires r.job in db.jobs && r.index < |db.jobs[r.job].chunks| && CountersOk(db.jobs[r.job])
    requires Live(db, r.job, r.index) == {event} && Unfinished(db.jobs[r.job].chunks[r.index])
    requires db.jobs[r.job].chunks[r.index].retryCount <= cfg.clovaMaxRetry
    requires FreshRows(db, rows) && deadId != progressId
    requires (final, rows) == FailureWrites(r, Failed(db.jobs[r.job], r.index), deadId, progressId, now)
    ensures IsEffect(cfg, db, r.job, r.index, event, final, rows)
    ensures CountersOk(final) && !Transcribed(final) && final.completedChunks + final.failedChunks <= final.totalChunks
    ensures forall e :: e in rows ==> RowOk(db.jobs[r.job := final], rows[e])
  {
    var failed := Failed(db.jobs[r.job], r.index);
    CountersUpdated(db.jobs[r.job], r.index, failed.chunks[r.index]);
    assert Of(rows, ChunkRequested(r.job, r.index)) == {};
    ProgressRowOk(db.jobs[r.job := final], r.job, failed, now);
  }

  lemma FailureKeepsJob(cfg: Config, db: Db, r: Request, event: EventId, deadId: EventId, progressId: EventId,
                        now: int, final: Job, rows: map<EventId, Row>)
    requires r.job in db.jobs && r.index < |db.jobs[r.job].chunks| && JobInv(cfg, db, r.job)
    requires Live(db, r.job, r.index) == {event} && Unfinished(db.jobs[r.job].chunks[r.index])
    requires FreshRows(db, rows) && deadId != progressId
    requires (final, rows) == FailureWrites(r, Failed(db.jobs[r.job], r.index), deadId, progressId, now)
    ensures JobInv(cfg, Write(db, r.job, final, rows, {(ClovaWorkers, event)}), r.job)
    ensures AdditionsOk(db, r.job, final, rows, {(ClovaWorkers, event)})
  {
    assert ChunkOk(cfg, db.jobs[r.job].chunks[r.index]);
    FailureIsEffect(cfg, db, r, event, deadId, progressId, now, final, rows);
    EffectKeepsJob(cfg, db, r.job, r.index, event, final, rows);
    EffectShape(cfg, db, r.job, r.index, event, final, rows);
  }

  lemma RetryPreserves(cfg: Config, db: Db, r: Request, event: EventId, availableAt: int, newId: EventId, final: Job,
                       rows: map<EventId, Row>)
    requires DbInv(cfg, db) && Carries(db.outbox, event, r)
    requires Unused(db, newId) && (ClovaWorkers, event) !in db.inbox
    requires r.job in db.jobs && r.index < |db.jobs[r.job].chunks|
    requires db.jobs[r.job].chunks[r.index].retryCount + 1 <= cfg.clovaMaxRetry
    requires final == Waiting(db.jobs[r.job], r.index, availableAt)
    requires rows == map[newId := NewRow(ChunkRequested(r.job, r.index), RequestPayload(r.objectKey), availableAt)]
    ensures DbInv(cfg, Write(db, r.job, final, rows, {(ClovaWorkers, event)}))
  {
    UnprocessedIsLive(cfg, db, event, r);
    RequestMatchesChunk(cfg, db, event, r);
    UnusedIsFresh(cfg, db, rows);
    RetryKeepsJob(cfg, db, r, event, availableAt, newId, final, rows);
    WriteKeepsInvariant(cfg, db, r.job, final, rows, {(ClovaWorkers, event)});
  }

  lemma FailurePreserves(cfg: Config, db: Db, r: Request, event: EventId, deadId: EventId, progressId: EventId,
                         now: int, final: Job, rows: map<EventId, Row>)
    requires DbInv(cfg, db) && Carries(db.outbox, event, r)
    requires Unused(db, deadId) && Unused(db, progressId) && deadId != progressId
    requires (ClovaWorkers, event) !in db.inbox
    requires r.job in db.jobs && r.index < |db.jobs[r.job].chunks|
    requires (final, rows) == FailureWrites(r, Failed(db.jobs[r.job], r.index), deadId, progressId, now)
    ensures DbInv(cfg, Write(db, r.job, final, rows, {(ClovaWorkers, event)}))
  {
    UnprocessedIsLive(cfg, db, event, r);
    UnusedIsFresh(cfg, db, rows);
    FailureKeepsJob(cfg, db, r, event, deadId, progressId, now, final, rows);
    WriteKeepsInvariant(cfg, db, r.job, final, rows, {(ClovaWorkers, event)});
  }

  lemma FailureOutcome(cfg: Config, db: Db, r: Request, event: EventId, retryable: bool, availableAt: int,
                       newId: EventId, progressId: EventId, now: int)
    requires r.job in db.jobs && r.index < |db.jobs[r.job].chunks|
    ensures var tx := RecordFailure(cfg, db, r, event, retryable, availableAt, newId, progressId, now);
            var job := db.jobs[r.job];
            && (tx.Committed? <==> (ClovaWorkers, event) !in db.inbox)
            && (tx.RolledBack? ==> tx.error.DuplicateInboxKey?)
            && (tx.Committed? ==>
                  if retryable && job.chunks[r.index].retryCount + 1 <= cfg.clovaMaxRetry
                  then tx.db == Write(db, r.job, Waiting(job, r.index, availableAt),
                                      map[newId := NewRow(ChunkRequested(r.job, r.index), RequestPayload(r.objectKey),
                                                          availableAt)], {(ClovaWorkers, event)})
                  else var writes := FailureWrites(r, Failed(job, r.index), newId, progressId, now);
                       tx.db == Write(db, r.job, writes.0, writes.1, {(ClovaWorkers, event)}))
  {
  }

  /** `_record_failure` has no guard on the chunk's status, and needs none: it too commits exactly when its event has
      not been processed. */
  lemma FailureKeepsInvariant(cfg: Config, db: Db, r: Request, event: EventId, retryable: bool, availableAt: int,
                              newId: EventId, progressId: EventId, now: int)
    requires DbInv(cfg, db) && Carries(db.outbox, event, r)
    requires Unused(db, newId) && Unused(db, progressId) && newId != progressId
    ensures var tx := RecordFailure(cfg, db, r, event, retryable, availableAt, newId, progressId, now);
            && (tx.Committed? <==> (ClovaWorkers, event) !in db.inbox)
            && (tx.Committed? ==> DbInv(cfg, tx.db))
            && (tx.RolledBack? ==> tx.error.DuplicateInboxKey?)
  {
    RequestMatchesChunk(cfg, db, event, r);
    FailureOutcome(cfg, db, r, event, retryable, availableAt, newId, progressId, now);
    if (ClovaWorkers, event) !in db.inbox {
      var job := db.jobs[r.job];
      if retryable && job.chunks[r.index].retryCount + 1 <= cfg.clovaMaxRetry {
        RetryPreserves(cfg, db, r, event, availableAt, newId, Waiting(job, r.index, availableAt),
                       map[newId := NewRow(ChunkRequested(r.job, r.index), RequestPayload(r.objectKey), availableAt)]);
      } else {
        var writes := FailureWrites(r, Failed(job, r.index), newId, progressId, now);
        FailurePreserves(cfg, db, r, event, newId, progressId, now, writes.0, writes.1);
      }
    }
  }
}
