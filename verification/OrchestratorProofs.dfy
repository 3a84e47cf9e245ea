/**
 The orchestrator's transactions establish and keep the ledger invariant.

 - Creating the job row adds a job without chunks, and no event of the job exists before it.
 - The final transaction of preprocessing adds all chunks together with one first request event each. It runs its body
   at most once per job, because it is skipped once the total is set and inserts the inbox key of its event.
 - The unconditional failure mark changes nothing but the status, which the invariant allows at any time.
 - First request events are indexed by chunk: one fresh event per chunk, each with the chunk's own object key.
 */
module OrchestratorProofs {
  import opened JobState
  import opened Ledger
  import opened Transactions
  import opened LedgerInvariant
  import opened ClovaProofs

  lemma {:induction false} FirstRequestIds(j: JobId, uploads: seq<Upload>, ids: seq<EventId>, now: int)
    requires |ids| == |uploads|
    ensures forall e :: e in FirstRequests(j, uploads, ids, now) <==> e in ids
  {
    if uploads != [] {
      var last := |uploads| - 1;
      FirstRequestIds(j, uploads[..last], ids[..last], now);
      assert ids == ids[..last] + [ids[last]];
    }
  }

  lemma {:induction false} FirstRequestRow(j: JobId, uploads: seq<Upload>, ids: seq<EventId>, now: int, i: nat)
    requires |ids| == |uploads| && Distinct(ids) && i < |uploads|
    ensures ids[i] in FirstRequests(j, uploads, ids, now)
    ensures FirstRequests(j, uploads, ids, now)[ids[i]] == FirstRow(j, uploads[i], i, now)
  {
    var last := |uploads| - 1;
    if i < last {
      assert ids[..last][i] == ids[i] && uploads[..last][i] == uploads[i];
      FirstRequestRow(j, uploads[..last], ids[..last], now, i);
    }
  }

  /** The first requests: exactly one row per chunk, under that chunk's id, carrying that chunk's key. */
  lemma FirstRequestRows(j: JobId, uploads: seq<Upload>, ids: seq<EventId>, now: int)
    requires |ids| == |uploads| && Distinct(ids)
    ensures var rows := FirstRequests(j, uploads, ids, now);
            && (forall e :: e in rows <==> e in ids)
            && (forall i :: 0 <= i < |uploads| ==>
                  ids[i] in rows && rows[ids[i]] == FirstRow(j, uploads[i], i, now))
  {
    FirstRequestIds(j, uploads, ids, now);
    forall i | 0 <= i < |uploads|
      ensures FirstRequests(j, uploads, ids, now)[ids[i]] == FirstRow(j, uploads[i], i, now)
    {
      FirstRequestRow(j, uploads, ids, now, i);
    }
  }

  lemma FirstRequestTopics(j: JobId, uploads: seq<Upload>, ids: seq<EventId>, now: int)
    requires |ids| == |uploads| && Distinct(ids)
    ensures var rows := FirstRequests(j, uploads, ids, now);
            forall e :: e in rows ==> rows[e].topic.ChunkRequested? && rows[e].topic.job == j
  {
    FirstRequestRows(j, uploads, ids, now);
    var rows := FirstRequests(j, uploads, ids, now);
    forall e | e in rows ensures rows[e].topic.ChunkRequested? && rows[e].topic.job == j {
      var i :| 0 <= i < |ids| && ids[i] == e;
      assert rows[ids[i]] == FirstRow(j, uploads[i], i, now);
    }
  }

  lemma FirstRequestOf(j: JobId, uploads: seq<Upload>, ids: seq<EventId>, now: int, i: nat)
    requires |ids| == |uploads| && Distinct(ids) && i < |uploads|
    ensures Of(FirstRequests(j, uploads, ids, now), ChunkRequested(j, i)) == {ids[i]}
  {
    FirstRequestRows(j, uploads, ids, now);
    var rows := FirstRequests(j, uploads, ids, now);
    forall e | e in Of(rows, ChunkRequested(j, i)) ensures e == ids[i] {
      var k :| 0 <= k < |ids| && ids[k] == e;
      assert rows[ids[k]].topic == ChunkRequested(j, k);
    }
  }

  lemma NewChunkCounts(uploads: seq<Upload>)
    ensures Count(NewChunks(uploads), ChunkCompleted) == 0 && Count(NewChunks(uploads), ChunkFailed) == 0
  {
    CountAll(NewChunks(uploads), ChunkCompleted);
    CountAll(NewChunks(uploads), ChunkFailed);
  }

  /** Before its chunks exist a job has no request event. */
  lemma NoRequestsYet(cfg: Config, db: Db, j: JobId, i: nat)
    requires DbInv(cfg, db) && j in db.jobs && db.jobs[j].chunks == []
    ensures Of(db.outbox, ChunkRequested(j, i)) == {} && Live(db, j, i) == {}
  {
    forall e | e in db.outbox ensures db.outbox[e].topic != ChunkRequested(j, i) {
      assert RowOk(db.jobs, db.outbox[e]);
    }
  }

  function Prepared(job: Job, uploads: seq<Upload>): Job {
    job.(status := Transcribing, totalChunks := |uploads|, chunks := job.chunks + NewChunks(uploads))
  }

  lemma PreparedRequests(db: Db, j: JobId, event: EventId, uploads: seq<Upload>, ids: seq<EventId>, now: int, i: nat,
                         job: Job, rows: map<EventId, Row>)
    requires Of(db.outbox, ChunkRequested(j, i)) == {} && Live(db, j, i) == {}
    requires |ids| == |uploads| && Distinct(ids) && i < |uploads|
    requires rows == FirstRequests(j, uploads, ids, now) && FreshRows(db, rows)
    ensures RequestsOk(Write(db, j, job, rows, {(Orchestrators, event)}), j, i, NewChunk(uploads[i]))
  {
    var marks := {(Orchestrators, event)};
    var db' := Write(db, j, job, rows, marks);
    FirstRequestOf(j, uploads, ids, now, i);
    OfWritten(db, j, job, rows, marks, ChunkRequested(j, i));
    LiveWritten(db, j, job, rows, marks, j, i);
    assert Of(db'.outbox, ChunkRequested(j, i)) == {ids[i]};
    assert Live(db', j, i) == {ids[i]};
  }

  lemma PreparedShape(cfg: Config, db: Db, j: JobId, job: Job, uploads: seq<Upload>)
    requires uploads != [] && CountersOk(job)
    requires job.chunks == []
    ensures var after := Prepared(job, uploads);
            && CountersOk(after) && StatusOk(db, j, after) && !Transcribed(after) && after.merged == job.merged
            && |after.chunks| == |uploads| && forall i :: 0 <= i < |uploads| ==> after.chunks[i] == NewChunk(uploads[i])
    ensures forall i {:trigger ChunkOk(cfg, Prepared(job, uploads).chunks[i])} :: 0 <= i < |uploads| ==>
              ChunkOk(cfg, Prepared(job, uploads).chunks[i])
  {
    assert Prepared(job, uploads).chunks == NewChunks(uploads);
    NewChunkCounts(uploads);
  }

  lemma PreparedJobInv(cfg: Config, db: Db, j: JobId, event: EventId, uploads: seq<Upload>, ids: seq<EventId>, now: int,
                       rows: map<EventId, Row>)
    requires j in db.jobs && JobInv(cfg, db, j) && db.jobs[j].chunks == []
    requires forall i: nat :: Of(db.outbox, ChunkRequested(j, i)) == {} && Live(db, j, i) == {}
    requires |ids| == |uploads| > 0 && Distinct(ids)
    requires rows == FirstRequests(j, uploads, ids, now) && FreshRows(db, rows)
    requires forall e :: e in rows ==> rows[e].topic.ChunkRequested?
    ensures JobInv(cfg, Write(db, j, Prepared(db.jobs[j], uploads), rows, {(Orchestrators, event)}), j)
  {
    var job := Prepared(db.jobs[j], uploads);
    var marks := {(Orchestrators, event)};
    PreparedShape(cfg, Write(db, j, job, rows, marks), j, db.jobs[j], uploads);
    TranscriptUntouched(cfg, db, j, job, rows, marks);
    CorrectionUntouched(cfg, db, j, job, rows, marks);
    forall i | 0 <= i < |job.chunks| ensures RequestsOk(Write(db, j, job, rows, marks), j, i, job.chunks[i]) {
      PreparedRequests(db, j, event, uploads, ids, now, i, job, rows);
    }
  }

  lemma PreparedAdditions(db: Db, j: JobId, event: EventId, uploads: seq<Upload>, ids: seq<EventId>, now: int)
    requires j in db.jobs && db.jobs[j].chunks == []
    requires |ids| == |uploads| && Distinct(ids)
    requires FreshRows(db, FirstRequests(j, uploads, ids, now))
    ensures AdditionsOk(db, j, Prepared(db.jobs[j], uploads), FirstRequests(j, uploads, ids, now),
                        {(Orchestrators, event)})
  {
    var rows := FirstRequests(j, uploads, ids, now);
    var jobs := db.jobs[j := Prepared(db.jobs[j], uploads)];
    FirstRequestRows(j, uploads, ids, now);
    forall e | e in rows ensures rows[e].topic.job == j && RowOk(jobs, rows[e]) {
      var i :| 0 <= i < |ids| && ids[i] == e;
      assert rows[ids[i]] == FirstRow(j, uploads[i], i, now);
    }
  }

  /** The final transaction of preprocessing keeps the invariant, whoever runs it and however often. */
  lemma PreprocessKeepsInvariant(cfg: Config, db: Db, j: JobId, event: EventId, uploads: seq<Upload>, ids: seq<EventId>,
                                 now: int)
    requires DbInv(cfg, db)
    requires |ids| == |uploads| > 0 && Distinct(ids) && forall e :: e in ids ==> Unused(db, e)
    ensures var tx := Preprocess(db, j, event, uploads, ids, now);
            tx.Committed? ==> DbInv(cfg, tx.db)
  {
    if j in db.jobs && (Orchestrators, event) !in db.inbox {
      var job := db.jobs[j];
      CountersOfJob(cfg, db, j);
      if job.totalChunks != 0 {
        MarkKeepsInvariant(cfg, db, j, event);
      } else {
        var rows := FirstRequests(j, uploads, ids, now);
        FirstRequestRows(j, uploads, ids, now);
        UnusedIsFresh(cfg, db, rows);
        forall i: nat ensures Of(db.outbox, ChunkRequested(j, i)) == {} && Live(db, j, i) == {} {
          NoRequestsYet(cfg, db, j, i);
        }
        assert JobInv(cfg, db, j);
        FirstRequestTopics(j, uploads, ids, now);
        PreparedJobInv(cfg, db, j, event, uploads, ids, now, rows);
        PreparedAdditions(db, j, event, uploads, ids, now);
        WriteKeepsInvariant(cfg, db, j, Prepared(job, uploads), rows, {(Orchestrators, event)});
      }
    }
  }

  /** Marking an orchestrator event touches nothing the invariant speaks about. */
  lemma MarkKeepsInvariant(cfg: Config, db: Db, j: JobId, event: EventId)
    requires DbInv(cfg, db) && j in db.jobs
    ensures DbInv(cfg, Write(db, j, db.jobs[j], map[], {(Orchestrators, event)}))
  {
    var marks := {(Orchestrators, event)};
    var db' := Write(db, j, db.jobs[j], map[], marks);
    assert db'.outbox == db.outbox;
    assert JobInv(cfg, db, j);
    assert Settled(db', j) == Settled(db, j);
    forall i | 0 <= i < |db.jobs[j].chunks| ensures RequestsOk(db', j, i, db.jobs[j].chunks[i]) {
      assert RequestsOk(db, j, i, db.jobs[j].chunks[i]);
      assert Live(db', j, i) == Live(db, j, i);
    }
    WriteKeepsInvariant(cfg, db, j, db.jobs[j], map[], marks);
  }

  lemma EnsureJobKeepsInvariant(cfg: Config, db: Db, j: JobId)
    requires DbInv(cfg, db)
    ensures DbInv(cfg, EnsureJob(db, j))
  {
    if j !in db.jobs {
      var db' := SetJob(db, j, NewJob());
      NoEventsYet(cfg, db, TranscriptReady(j));
      NoEventsYet(cfg, db, Finished(j));
      NoEventsYet(cfg, db, CorrectionDead(j));
      SetJobKeepsInvariant(cfg, db, j, NewJob());
    }
  }

  lemma NoEventsYet(cfg: Config, db: Db, t: Topic)
    requires DbInv(cfg, db) && t.job !in db.jobs
    ensures Of(db.outbox, t) == {}
  {
    forall e | e in db.outbox ensures db.outbox[e].topic != t {
      assert RowOk(db.jobs, db.outbox[e]);
    }
  }

  /** `_mark_failed` overwrites the status at any time; everything but the status survives it. */
  lemma MarkFailedKeepsInvariant(cfg: Config, db: Db, j: JobId)
    requires DbInv(cfg, db)
    ensures DbInv(cfg, MarkFailed(db, j))
  {
    if j in db.jobs {
      var job := db.jobs[j].(status := JobFailed);
      var db' := SetJob(db, j, job);
      assert JobInv(cfg, db, j);
      assert Settled(db', j) == Settled(db, j);
      forall i | 0 <= i < |job.chunks| ensures ChunkOk(cfg, job.chunks[i]) && RequestsOk(db', j, i, job.chunks[i]) {
        assert ChunkOk(cfg, db.jobs[j].chunks[i]) && RequestsOk(db, j, i, db.jobs[j].chunks[i]);
        assert Live(db', j, i) == Live(db, j, i);
      }
      SetJobKeepsInvariant(cfg, db, j, job);
    }
  }
}
