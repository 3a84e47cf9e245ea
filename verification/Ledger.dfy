/**
 The PostgreSQL ledger of the STT service: job rows with their chunk rows, the event outbox and the event
 inbox (app/db/models.py), and the sets of events the protocol argument is about.
 */
module Ledger {
  import opened Options
  import opened JobState
  import Chunks
  import Merger

  type JobId = nat
  type EventId = nat
  type WorkerId = nat

  /** What the provider returned for one chunk. */
  type ProviderSegments = seq<Merger.ProviderSegment>

  /** An uploaded chunk: where it is stored, and where in the recording its segments come from. */
  datatype Upload = Upload(objectKey: string, mappings: seq<Chunks.Mapping>)

  datatype Chunk = Chunk(
    status: ChunkStatus,
    objectKey: string,
    mappings: seq<Chunks.Mapping>,
    retryCount: nat,
    leaseOwner: Option<WorkerId>,
    leaseExpiresAt: Option<int>,
    nextRetryAt: Option<int>,
    segments: Option<ProviderSegments>)

  /** `chunks[i]` is the row with chunk_index `i`. */
  datatype Job = Job(
    status: JobStatus,
    chunks: seq<Chunk>,
    totalChunks: nat,
    completedChunks: nat,
    failedChunks: nat,
    merged: Option<seq<Merger.MergedSegment>>,
    lastProgressRatio: real,
    lastProgressAt: Option<int>,
    correctionRetryCount: nat,
    correctedVersions: seq<string>)

  /** The event type and aggregate of an outbox row. */
  datatype Topic =
    | ChunkRequested(job: JobId, index: nat)
    | ChunkDead(job: JobId, index: nat)
    | Progressed(job: JobId)
    | TranscriptReady(job: JobId)
    | Finished(job: JobId)
    | CorrectionDead(job: JobId)

  datatype Payload =
    | NoPayload
    | RequestPayload(objectKey: string)
    | ProgressPayload(completed: nat, total: nat, failed: nat, ratio: real)

  datatype Row = Row(topic: Topic, payload: Payload, availableAt: int, attempts: nat, publishedAt: Option<int>)

  datatype Group = Orchestrators | ClovaWorkers | CorrectionWorkers

  datatype Db = Db(jobs: map<JobId, Job>, outbox: map<EventId, Row>, inbox: set<(Group, EventId)>)

  function NewRow(topic: Topic, payload: Payload, availableAt: int): Row {
    Row(topic, payload, availableAt, 0, None)
  }

  /** One committed transaction on job `j`: the job row is replaced, rows are added, inbox keys are added. */
  function Write(db: Db, j: JobId, job: Job, rows: map<EventId, Row>, marks: set<(Group, EventId)>): Db {
    Db(db.jobs[j := job], db.outbox + rows, db.inbox + marks)
  }

  // ---------------------------------------------------------------- event sets

  /** Outbox events of one topic. */
  function Of(outbox: map<EventId, Row>, t: Topic): set<EventId> {
    set e | e in outbox && outbox[e].topic == t
  }

  /** Request events of a chunk that no committed transaction has marked as processed. */
  function Live(db: Db, j: JobId, i: nat): set<EventId> {
    set e | e in Of(db.outbox, ChunkRequested(j, i)) && (ClovaWorkers, e) !in db.inbox
  }

  lemma OfAdded(outbox: map<EventId, Row>, rows: map<EventId, Row>, t: Topic)
    requires outbox.Keys !! rows.Keys
    ensures Of(outbox + rows, t) == Of(outbox, t) + Of(rows, t)
    ensures Of(outbox, t) !! Of(rows, t)
  {
    forall e ensures e in Of(outbox + rows, t) <==> e in Of(outbox, t) + Of(rows, t) {
      assert e in (outbox + rows) <==> e in outbox || e in rows;
    }
  }

  lemma OneElement(s: set<EventId>, e: EventId)
    requires e in s && |s| == 1
    ensures s == {e}
  {
    assert |s - {e}| == 0;
    assert s == {e} + (s - {e});
  }

  // ---------------------------------------------------------------- counting chunks

  function Count(chunks: seq<Chunk>, status: ChunkStatus): (n: nat)
    ensures n <= |chunks|
  {
    if chunks == [] then 0
    else (if chunks[0].status == status then 1 else 0) + Count(chunks[1..], status)
  }

  lemma {:induction false} CountUpdate(chunks: seq<Chunk>, i: nat, c: Chunk, status: ChunkStatus)
    requires i < |chunks|
    ensures Count(chunks[i := c], status)
         == Count(chunks, status)
            - (if chunks[i].status == status then 1 else 0)
            + (if c.status == status then 1 else 0)
  {
    if i == 0 {
      assert chunks[0 := c][1..] == chunks[1..];
    } else {
      assert chunks[i := c][1..] == chunks[1..][i - 1 := c];
      CountUpdate(chunks[1..], i - 1, c, status);
    }
  }

  lemma {:induction false} CountAll(chunks: seq<Chunk>, status: ChunkStatus)
    ensures Count(chunks, status) == |chunks| <==> forall i :: 0 <= i < |chunks| ==> chunks[i].status == status
    ensures Count(chunks, status) == 0 <==> forall i :: 0 <= i < |chunks| ==> chunks[i].status != status
  {
    if chunks != [] {
      CountAll(chunks[1..], status);
      assert forall i :: 0 < i < |chunks| ==> chunks[i] == chunks[1..][i - 1];
    }
  }

  lemma {:induction false} CountDisjoint(chunks: seq<Chunk>, a: ChunkStatus, b: ChunkStatus)
    requires a != b
    ensures Count(chunks, a) + Count(chunks, b) <= |chunks|
  {
    if chunks != [] {
      CountDisjoint(chunks[1..], a, b);
    }
  }
}
