/** What holds in every run of the service, for every job and chunk. */
module LedgerTheorems {
  import opened Options
  import opened JobState
  import opened Ledger
  import opened Transactions
  import opened LedgerInvariant
  import opened ClovaProofs
  import opened Commits
  import opened Pipeline
  import opened PipelineProofs
  import opened Runs
  import opened StepEffects

  // ---------------------------------------------------------------- states of a run

  /** A stored chunk has exactly one unprocessed request event while it is unfinished and none once it is completed or
      failed; it never has more than one request per allowed attempt. */
  lemma ExactlyOneLiveRequest(cfg: Config, states: seq<State>, steps: seq<Step>, k: nat, j: JobId, i: nat)
    requires IsRun(cfg, states, steps) && k <= |steps|
    requires j in states[k].db.jobs && i < |states[k].db.jobs[j].chunks|
    ensures var db := states[k].db;
            var c := db.jobs[j].chunks[i];
            && |Live(db, j, i)| == (if Unfinished(c) then 1 else 0)
            && (Unfinished(c) || c.status.ChunkCompleted? || c.status.ChunkFailed?)
            && |Of(db.outbox, ChunkRequested(j, i))| == c.retryCount + (if c.status.ChunkFailed? then 0 else 1)
            && |Of(db.outbox, ChunkRequested(j, i))| <= cfg.clovaMaxRetry + 1
  {
    RunInv(cfg, states, steps, k);
    var db := states[k].db;
    assert JobInv(cfg, db, j);
    assert ChunkOk(cfg, db.jobs[j].chunks[i]) && RequestsOk(db, j, i, db.jobs[j].chunks[i]);
  }

  /** The counters are exact and never exceed the total together. */
  lemma CountersAreExact(cfg: Config, states: seq<State>, steps: seq<Step>, k: nat, j: JobId)
    requires IsRun(cfg, states, steps) && k <= |steps| && j in states[k].db.jobs
    ensures var job := states[k].db.jobs[j];
            && job.completedChunks == Count(job.chunks, ChunkCompleted)
            && job.failedChunks == Count(job.chunks, ChunkFailed)
            && job.totalChunks == |job.chunks|
            && job.completedChunks + job.failedChunks <= job.totalChunks
  {
    RunInv(cfg, states, steps, k);
    CountersOfJob(cfg, states[k].db, j);
    CountDisjoint(states[k].db.jobs[j].chunks, ChunkCompleted, ChunkFailed);
  }

  /** Every progress event ever written satisfies the bounds of its schema, whichever service wrote it. */
  lemma ProgressEventsInRange(cfg: Config, states: seq<State>, steps: seq<Step>, k: nat, e: EventId)
    requires IsRun(cfg, states, steps) && k <= |steps|
    requires e in states[k].db.outbox && states[k].db.outbox[e].topic.Progressed?
    ensures var p := states[k].db.outbox[e].payload;
            && p.ProgressPayload? && p.completed + p.failed <= p.total && 0.0 <= p.ratio <= 1.0
            && p.ratio * p.total as real == p.completed as real
  {
    RunInv(cfg, states, steps, k);
    assert RowOk(states[k].db.jobs, states[k].db.outbox[e]);
  }

  /** One transcript announcement exactly when every chunk has completed, and then the merged segments of all chunks are
      stored; so none when any chunk has failed. */
  lemma TranscriptOnce(cfg: Config, states: seq<State>, steps: seq<Step>, k: nat, j: JobId)
    requires IsRun(cfg, states, steps) && k <= |steps| && j in states[k].db.jobs
    ensures var db := states[k].db;
            var job := db.jobs[j];
            var all := job.chunks != [] && forall i :: 0 <= i < |job.chunks| ==> job.chunks[i].status.ChunkCompleted?;
            && |Of(db.outbox, TranscriptReady(j))| == (if all then 1 else 0)
            && job.merged == (if all then Some(TranscriptOf(cfg, job.chunks)) else None)
            && (job.failedChunks > 0 ==> Of(db.outbox, TranscriptReady(j)) == {})
  {
    RunInv(cfg, states, steps, k);
    var db := states[k].db;
    assert JobInv(cfg, db, j);
    CountAll(db.jobs[j].chunks, ChunkCompleted);
    CountDisjoint(db.jobs[j].chunks, ChunkCompleted, ChunkFailed);
  }

  /** The merge guard never fires: a worker's success transaction can only commit, or lose to the inbox key. */
  lemma MergeNeverIncomplete(cfg: Config, states: seq<State>, steps: seq<Step>, k: nat)
    requires IsRun(cfg, states, steps) && k < |steps| && steps[k].CommitSuccess?
    ensures Enabled(states[k], steps[k])
    ensures var s := states[k];
            var a := s.workers[steps[k].w];
            var tx := RecordSuccess(cfg, s.db, a.r, a.event, a.segments, steps[k].readyId, steps[k].progressId, s.now);
            && (tx.Committed? <==> (ClovaWorkers, a.event) !in s.db.inbox)
            && (tx.RolledBack? ==> tx.error.DuplicateInboxKey?)
  {
    var j, c := RunChange(cfg, states, steps, k);
    var s := states[k];
    var a := s.workers[steps[k].w];
    WorkerOk(s, steps[k].w);
    SuccessKeepsInvariant(cfg, s.db, a.r, a.event, a.segments, steps[k].readyId, steps[k].progressId, s.now);
  }

  /** A job is settled at most once: one finished event or one correction dead letter, never both; at most one corrected
      transcript is stored, and the retry count stays within one of the limit. */
  lemma SettledAtMostOnce(cfg: Config, states: seq<State>, steps: seq<Step>, k: nat, j: JobId)
    requires IsRun(cfg, states, steps) && k <= |steps| && j in states[k].db.jobs
    ensures var db := states[k].db;
            var job := db.jobs[j];
            && |Of(db.outbox, Finished(j))| + |Of(db.outbox, CorrectionDead(j))| <= 1
            && |job.correctedVersions| == |Of(db.outbox, Finished(j))|
            && job.correctionRetryCount <= cfg.correctionMaxRetry + 1
            && (Of(db.outbox, TranscriptReady(j)) == {} ==>
                  Of(db.outbox, Finished(j)) == {} && Of(db.outbox, CorrectionDead(j)) == {})
  {
    RunInv(cfg, states, steps, k);
    assert JobInv(cfg, states[k].db, j);
  }

  /** An acknowledged message's event has been processed by the group that reads its stream. */
  lemma AcknowledgedIsProcessed(cfg: Config, states: seq<State>, steps: seq<Step>, k: nat, m: MsgId)
    requires IsRun(cfg, states, steps) && k <= |steps| && m in states[k].acked
    ensures m in states[k].messages && Handled(states[k].db, states[k].messages[m])
  {
    RunInv(cfg, states, steps, k);
  }

  /** No chunk is lost: the live event of an unfinished chunk is still to be published, or sits in the stream in an
      entry nobody has acknowledged. */
  lemma NoChunkLost(cfg: Config, states: seq<State>, steps: seq<Step>, k: nat, j: JobId, i: nat) returns (e: EventId)
    requires IsRun(cfg, states, steps) && k <= |steps|
    requires j in states[k].db.jobs && i < |states[k].db.jobs[j].chunks|
    requires Unfinished(states[k].db.jobs[j].chunks[i])
    ensures var s := states[k];
            && Live(s.db, j, i) == {e}
            && (s.db.outbox[e].publishedAt.None? || exists m :: m in s.messages && m !in s.acked && s.messages[m] == e)
  {
    ExactlyOneLiveRequest(cfg, states, steps, k, j, i);
    RunInv(cfg, states, steps, k);
    var s := states[k];
    e :| e in Live(s.db, j, i);
    OneElement(Live(s.db, j, i), e);
    if s.db.outbox[e].publishedAt.Some? {
      assert InStream(s, e);
      var m :| m in s.messages && s.messages[m] == e;
      assert m in s.acked ==> Handled(s.db, s.messages[m]);
    }
  }

  /** The same for a transcript announcement that no correction worker has settled. */
  lemma NoTranscriptLost(cfg: Config, states: seq<State>, steps: seq<Step>, k: nat, e: EventId)
    requires IsRun(cfg, states, steps) && k <= |steps|
    requires e in states[k].db.outbox && states[k].db.outbox[e].topic.TranscriptReady?
    requires (CorrectionWorkers, e) !in states[k].db.inbox
    ensures var s := states[k];
            s.db.outbox[e].publishedAt.None? || exists m :: m in s.messages && m !in s.acked && s.messages[m] == e
  {
    RunInv(cfg, states, steps, k);
    var s := states[k];
    if s.db.outbox[e].publishedAt.Some? {
      assert InStream(s, e);
      var m :| m in s.messages && s.messages[m] == e;
      assert m in s.acked ==> Handled(s.db, s.messages[m]);
    }
  }

  // ---------------------------------------------------------------- steps of a run

  /** Every committed chunk change is a declared walk, made by a claim or a result of that very chunk. A chunk leaves
      `processing` exactly by a committed result for it: no result commits from any other status. */
  lemma ChunkChangeDeclared(cfg: Config, states: seq<State>, steps: seq<Step>, k: nat, j: JobId, i: nat)
    requires IsRun(cfg, states, steps) && k < |steps|
    requires j in states[k].db.jobs && i < |states[k].db.jobs[j].chunks|
    ensures j in states[k + 1].db.jobs && |states[k + 1].db.jobs[j].chunks| == |states[k].db.jobs[j].chunks|
    ensures var a := states[k].db.jobs[j].chunks[i];
            var b := states[k + 1].db.jobs[j].chunks[i];
            && ChunkReaches(a.status, b.status)
            && (!Unfinished(a) ==> b == a)
            && (a.status.Processing? && !b.status.Processing? <==> CommitsResult(states[k], steps[k], j, i))
            && (!Unfinished(b) && b != a ==> CommitsResult(states[k], steps[k], j, i))
            && (b != a ==> CommitsResult(states[k], steps[k], j, i)
                           || (Claims(states[k], steps[k], j, i) && b.status.Processing?))
  {
    var c := RunJobChange(cfg, states, steps, k, j);
    ChunkWalk(states[k].db.jobs[j], states[k + 1].db.jobs[j], c, i);
  }

  lemma ChunkWalk(a: Job, b: Job, c: Change, i: nat)
    requires Changed(a, b, c) && i < |a.chunks|
    ensures |b.chunks| == |a.chunks|
    ensures ChunkReaches(a.chunks[i].status, b.chunks[i].status)
  {
    var x, y := a.chunks[i].status, b.chunks[i].status;
    if x == y {
      ChunkStays(x);
    } else if x.RetryWait? {
      ChunkTwoEdges(RetryWait, Pending, Processing);
    } else {
      ChunkEdge(x, y);
    }
  }

  /** A completed or failed chunk row never changes again, however many stale workers still hold it. */
  lemma {:induction false} FinishedChunksStay(cfg: Config, states: seq<State>, steps: seq<Step>, k: nat, l: nat,
                                              j: JobId, i: nat)
    requires IsRun(cfg, states, steps) && k <= l <= |steps|
    requires j in states[k].db.jobs && i < |states[k].db.jobs[j].chunks|
    requires !Unfinished(states[k].db.jobs[j].chunks[i])
    ensures j in states[l].db.jobs && i < |states[l].db.jobs[j].chunks|
    ensures states[l].db.jobs[j].chunks[i] == states[k].db.jobs[j].chunks[i]
  {
    if k < l {
      var h := l - 1;
      FinishedChunksStay(cfg, states, steps, k, h, j, i);
      ChunkChangeDeclared(cfg, states, steps, h, j, i);
    }
  }

  /** A merged transcript never changes. */
  lemma {:induction false} TranscriptStays(cfg: Config, states: seq<State>, steps: seq<Step>, k: nat, l: nat, j: JobId)
    requires IsRun(cfg, states, steps) && k <= l <= |steps|
    requires j in states[k].db.jobs && states[k].db.jobs[j].merged.Some?
    ensures j in states[l].db.jobs && states[l].db.jobs[j].merged == states[k].db.jobs[j].merged
  {
    if k < l {
      var h := l - 1;
      TranscriptStays(cfg, states, steps, k, h, j);
      var c := RunJobChange(cfg, states, steps, h, j);
      RunJobInv(cfg, states, steps, h, j);
      TranscriptStep(cfg, states[h].db, j, states[l].db.jobs[j], c);
    }
  }

  lemma TranscriptStep(cfg: Config, db: Db, j: JobId, job: Job, c: Change)
    requires j in db.jobs && JobInv(cfg, db, j) && db.jobs[j].merged.Some? && Changed(db.jobs[j], job, c)
    ensures job.merged == db.jobs[j].merged
  {
    if IsEffectChange(c) {
      UnfinishedNotTranscribed(db.jobs[j], c.i);
    }
  }

  // ---------------------------------------------------------------- job statuses

  /** The only commits that leave the declared job table: an orchestrator's unconditional failure of a corrected job,
      and a commit that revives a job some orchestrator had marked as failed. */
  predicate Undeclared(s: State, step: Step, j: JobId)
    requires Enabled(s, step) && j in s.db.jobs
  {
    || (step.MarkFailedStep? && step.j == j && s.db.jobs[j].status.CorrectionCompleted?)
    || (s.db.jobs[j].status.JobFailed? && Splits(s, step) && step.j == j)
    || (s.db.jobs[j].status.JobFailed? && step.CommitSuccess? && CommitsEffect(s, step)
        && s.workers[step.w].r.job == j && s.db.jobs[j].completedChunks + 1 == s.db.jobs[j].totalChunks)
  }

  /** A committed job change is a declared walk if and only if it is none of the three commits above. */
  lemma JobChangeDeclared(cfg: Config, states: seq<State>, steps: seq<Step>, k: nat, j: JobId)
    requires IsRun(cfg, states, steps) && k < |steps| && j in states[k].db.jobs
    ensures Enabled(states[k], steps[k]) && j in states[k + 1].db.jobs
    ensures JobReaches(states[k].db.jobs[j].status, states[k + 1].db.jobs[j].status)
       <==> !Undeclared(states[k], steps[k], j)
  {
    var c := RunJobChange(cfg, states, steps, k, j);
    RunJobInv(cfg, states, steps, k, j);
    JobWalk(states[k].db, j, states[k].db.jobs[j], states[k + 1].db.jobs[j], c);
  }

  predicate UndeclaredChange(a: Job, c: Change) {
    || (c.Overwrites? && a.status.CorrectionCompleted?)
    || (c.Prepares? && a.status.JobFailed?)
    || (c.Completes? && a.status.JobFailed? && a.completedChunks + 1 == a.totalChunks)
  }

  lemma JobWalk(db: Db, j: JobId, a: Job, b: Job, c: Change)
    requires Changed(a, b, c) && StatusOk(db, j, a) && CountersOk(a)
    ensures JobReaches(a.status, b.status) <==> !UndeclaredChange(a, c)
  {
    if IsEffectChange(c) {
      UnfinishedNotTranscribed(a, c.i);
    }
    if a.status == b.status {
      JobStays(a.status);
    } else if UndeclaredChange(a, c) {
      if JobReaches(a.status, b.status) {
        JobSinks(a.status, b.status);
      }
    } else if c.Completes? {
      JobTwoEdges(Transcribing, Merging, TranscriptCompleted);
    } else if c.Corrects? && a.status.TranscriptCompleted? {
      JobTwoEdges(TranscriptCompleted, Correcting, CorrectionCompleted);
    } else {
      JobEdge(a.status, b.status);
    }
  }

  /** No orchestrator marks job `j` as failed after its chunks were committed. */
  ghost predicate NoLateMark(states: seq<State>, steps: seq<Step>, j: JobId)
    requires |states| == |steps| + 1
  {
    forall k :: 0 <= k < |steps| && steps[k] == MarkFailedStep(j) && j in states[k].db.jobs ==>
      states[k].db.jobs[j].chunks == []
  }

  /** The status a job with chunks must have, computed from the rest of the ledger. */
  ghost predicate StatusDetermined(db: Db, j: JobId)
    requires j in db.jobs
  {
    var job := db.jobs[j];
    job.chunks != [] ==>
      if job.failedChunks > 0 then job.status.JobFailed?
      else if !Transcribed(job) then job.status.Transcribing?
      else if !Settled(db, j) then job.status.TranscriptCompleted? || job.status.Correcting?
      else if job.correctedVersions == [] then job.status.JobFailed?
      else job.status.CorrectionCompleted?
  }

  /** Without late marks the unguarded status writes agree with the ledger in every state: a job is failed exactly when
      a chunk or the correction has failed for good. */
  lemma {:induction false} StatusFollowsLedger(cfg: Config, states: seq<State>, steps: seq<Step>, k: nat, j: JobId)
    requires IsRun(cfg, states, steps) && k <= |steps| && j in states[k].db.jobs
    requires NoLateMark(states, steps, j)
    ensures StatusDetermined(states[k].db, j)
  {
    if k > 0 {
      var h := k - 1;
      if j in states[h].db.jobs {
        StatusFollowsLedger(cfg, states, steps, h, j);
      }
      StatusRunStep(cfg, states, steps, h, j);
    }
  }

  lemma StatusRunStep(cfg: Config, states: seq<State>, steps: seq<Step>, k: nat, j: JobId)
    requires IsRun(cfg, states, steps) && k < |steps| && j in states[k + 1].db.jobs
    requires NoLateMark(states, steps, j)
    requires j in states[k].db.jobs ==> StatusDetermined(states[k].db, j)
    ensures StatusDetermined(states[k + 1].db, j)
  {
    var j', c := RunChange(cfg, states, steps, k);
    if j in states[k].db.jobs {
      StatusStep(cfg, states[k].db, states[k + 1].db, j', c, j);
    }
  }

  lemma SettledGrows(db: Db, db': Db, j': JobId, c: Change, j: JobId)
    requires DbChange(db, db', j', c)
    requires forall key {:trigger MarkOk(db.outbox, key)} :: key in db.inbox ==> MarkOk(db.outbox, key)
    ensures Settled(db, j) ==> Settled(db', j)
    ensures Settled(db', j) && !(Settles(c) && j' == j) ==> Settled(db, j)
  {
    if Settled(db, j) {
      var e :| e in Of(db.outbox, TranscriptReady(j)) && (CorrectionWorkers, e) in db.inbox;
      assert e in db.outbox && e in Of(db'.outbox, TranscriptReady(j));
    }
    if Settled(db', j) && !(Settles(c) && j' == j) {
      var e :| e in Of(db'.outbox, TranscriptReady(j)) && (CorrectionWorkers, e) in db'.inbox;
      if (CorrectionWorkers, e) in db.inbox {
        assert MarkOk(db.outbox, (CorrectionWorkers, e));
        assert e in db.outbox;
      }
      assert e in Of(db.outbox, TranscriptReady(j)) && (CorrectionWorkers, e) in db.inbox;
    }
  }

  lemma StatusStep(cfg: Config, db: Db, db': Db, j': JobId, c: Change, j: JobId)
    requires DbInv(cfg, db) && DbChange(db, db', j', c)
    requires DbInv(cfg, db') && j in db.jobs && j in db'.jobs
    requires c.Overwrites? && j' == j ==> db.jobs[j].chunks == []
    requires StatusDetermined(db, j)
    ensures StatusDetermined(db', j)
  {
    assert JobInv(cfg, db, j) && JobInv(cfg, db', j);
    SettledGrows(db, db', j', c, j);
    if j' == j && !c.Nothing? {
      SettledIsTranscribed(cfg, db, j);
      SettledIsTranscribed(cfg, db', j);
      JobStatusStep(db, db', j, c);
    }
  }

  lemma SettledIsTranscribed(cfg: Config, db: Db, j: JobId)
    requires j in db.jobs && JobInv(cfg, db, j)
    ensures Settled(db, j) ==> Transcribed(db.jobs[j])
    ensures !Settled(db, j) ==> db.jobs[j].correctedVersions == []
  {
  }

  lemma JobStatusStep(db: Db, db': Db, j: JobId, c: Change)
    requires j in db.jobs && j in db'.jobs && Changed(db.jobs[j], db'.jobs[j], c)
    requires CountersOk(db.jobs[j]) && CountersOk(db'.jobs[j])
    requires Settled(db', j) <==> Settled(db, j) || Settles(c)
    requires Settles(c) ==> !Settled(db, j)
    requires Settled(db, j) ==> Transcribed(db.jobs[j])
    requires Settled(db', j) ==> Transcribed(db'.jobs[j])
    requires !Settled(db, j) ==> db.jobs[j].correctedVersions == []
    requires c.Overwrites? ==> db.jobs[j].chunks == []
    requires StatusDetermined(db, j)
    ensures StatusDetermined(db', j)
  {
    var a, b := db.jobs[j], db'.jobs[j];
    CountDisjoint(a.chunks, ChunkCompleted, ChunkFailed);
    CountDisjoint(b.chunks, ChunkCompleted, ChunkFailed);
    if c.Prepares? {
      CountAll(b.chunks, ChunkCompleted);
      CountAll(b.chunks, ChunkFailed);
    }
    if IsEffectChange(c) || c.Leases? {
      UnfinishedNotTranscribed(a, c.i);
    }
  }

  // ---------------------------------------------------------------- retries terminate

  /** Effects chunk `c` can still commit. */
  function Attempts(cfg: Config, c: Chunk): nat {
    if Unfinished(c) && c.retryCount <= cfg.clovaMaxRetry then cfg.clovaMaxRetry + 1 - c.retryCount else 0
  }

  function Remaining(cfg: Config, chunks: seq<Chunk>): nat {
    if chunks == [] then 0 else Attempts(cfg, chunks[0]) + Remaining(cfg, chunks[1..])
  }

  lemma {:induction false} RemainingUpdate(cfg: Config, a: seq<Chunk>, b: seq<Chunk>, i: nat)
    requires |a| == |b| && i < |a| && forall k :: 0 <= k < |a| && k != i ==> b[k] == a[k]
    ensures Remaining(cfg, b) == Remaining(cfg, a) - Attempts(cfg, a[i]) + Attempts(cfg, b[i])
  {
    if i == 0 {
      assert a[1..] == b[1..];
    } else {
      RemainingUpdate(cfg, a[1..], b[1..], i - 1);
    }
  }

  lemma {:induction false} RemainingFresh(cfg: Config, chunks: seq<Chunk>)
    requires forall k :: 0 <= k < |chunks| ==> chunks[k].status.Pending? && chunks[k].retryCount == 0
    ensures Remaining(cfg, chunks) == |chunks| * (cfg.clovaMaxRetry + 1)
  {
    if chunks != [] {
      RemainingFresh(cfg, chunks[1..]);
      assert |chunks| * (cfg.clovaMaxRetry + 1) == (|chunks| - 1) * (cfg.clovaMaxRetry + 1) + (cfg.clovaMaxRetry + 1);
    }
  }

  /** What is left to try for job `j`. */
  function JobRemaining(cfg: Config, db: Db, j: JobId): nat {
    if j in db.jobs then Remaining(cfg, db.jobs[j].chunks) else 0
  }

  function JobSize(db: Db, j: JobId): nat {
    if j in db.jobs then |db.jobs[j].chunks| else 0
  }

  /** A committed success or failure strictly uses up attempts; no other step touches them once the chunks exist. */
  lemma EffectUsesAttempt(cfg: Config, states: seq<State>, steps: seq<Step>, k: nat, j: JobId)
    requires IsRun(cfg, states, steps) && k < |steps|
    ensures UsesAttempts(cfg, states[k].db, states[k + 1].db, j, CommitsFor(states[k], steps[k], j))
  {
    if j in states[k].db.jobs {
      var c := RunJobChange(cfg, states, steps, k, j);
      RunJobInv(cfg, states, steps, k, j);
      RunJobInv(cfg, states, steps, k + 1, j);
      AttemptsAfter(cfg, states[k].db.jobs[j], states[k + 1].db.jobs[j], c);
    } else {
      NothingToTry(cfg, states, steps, k, j);
    }
  }

  /** A job that is not there has no chunks, not even when the step creates it. */
  lemma NothingToTry(cfg: Config, states: seq<State>, steps: seq<Step>, k: nat, j: JobId)
    requires IsRun(cfg, states, steps) && k < |steps| && j !in states[k].db.jobs
    ensures !CommitsFor(states[k], steps[k], j) && JobSize(states[k + 1].db, j) == 0
    ensures JobRemaining(cfg, states[k + 1].db, j) == 0
  {
    var j', c := RunChange(cfg, states, steps, k);
  }

  ghost predicate UsesAttempts(cfg: Config, db: Db, db': Db, j: JobId, effect: bool) {
    if effect then
      JobRemaining(cfg, db', j) < JobRemaining(cfg, db, j) && JobSize(db', j) == JobSize(db, j)
    else if JobSize(db, j) == 0 then
      JobRemaining(cfg, db', j) == JobSize(db', j) * (cfg.clovaMaxRetry + 1)
    else
      JobRemaining(cfg, db', j) == JobRemaining(cfg, db, j) && JobSize(db', j) == JobSize(db, j)
  }

  lemma AttemptsAfter(cfg: Config, a: Job, b: Job, c: Change)
    requires Changed(a, b, c)
    requires forall i :: 0 <= i < |a.chunks| ==> ChunkOk(cfg, a.chunks[i])
    requires forall i :: 0 <= i < |b.chunks| ==> ChunkOk(cfg, b.chunks[i])
    ensures IsEffectChange(c) ==> Remaining(cfg, b.chunks) < Remaining(cfg, a.chunks) && |b.chunks| == |a.chunks|
    ensures !IsEffectChange(c) && a.chunks != [] ==>
              Remaining(cfg, b.chunks) == Remaining(cfg, a.chunks) && |b.chunks| == |a.chunks|
    ensures !IsEffectChange(c) && a.chunks == [] ==> Remaining(cfg, b.chunks) == |b.chunks| * (cfg.clovaMaxRetry + 1)
  {
    if IsEffectChange(c) || c.Leases? {
      RemainingUpdate(cfg, a.chunks, b.chunks, c.i);
    } else if c.Prepares? {
      RemainingFresh(cfg, b.chunks);
    }
  }

  /** How many effects on chunks of job `j` the first `k` steps of the run commit. */
  ghost function Effects(states: seq<State>, steps: seq<Step>, k: nat, j: JobId): nat
    requires |states| == |steps| + 1 && k <= |steps|
  {
    if k == 0 then 0
    else Effects(states, steps, k - 1, j) + if CommitsFor(states[k - 1], steps[k - 1], j) then 1 else 0
  }

  /** Retries terminate: in any run, of any length and under any redelivery, a job commits at most
      `clovaMaxRetry + 1` results per chunk. */
  lemma {:induction false} EffectsBounded(cfg: Config, states: seq<State>, steps: seq<Step>, k: nat, j: JobId)
    requires IsRun(cfg, states, steps) && k <= |steps|
    ensures Effects(states, steps, k, j) + JobRemaining(cfg, states[k].db, j)
         <= JobSize(states[k].db, j) * (cfg.clovaMaxRetry + 1)
  {
    if k > 0 {
      EffectsBounded(cfg, states, steps, k - 1, j);
      EffectUsesAttempt(cfg, states, steps, k - 1, j);
      BoundStep(cfg, states[k - 1].db, states[k].db, j, CommitsFor(states[k - 1], steps[k - 1], j),
                Effects(states, steps, k - 1, j));
    }
  }

  lemma BoundStep(cfg: Config, db: Db, db': Db, j: JobId, effect: bool, before: nat)
    requires UsesAttempts(cfg, db, db', j, effect)
    requires before + JobRemaining(cfg, db, j) <= JobSize(db, j) * (cfg.clovaMaxRetry + 1)
    ensures before + (if effect then 1 else 0) + JobRemaining(cfg, db', j) <= JobSize(db', j) * (cfg.clovaMaxRetry + 1)
  {
    if JobSize(db, j) == 0 {
      assert JobSize(db, j) * (cfg.clovaMaxRetry + 1) == 0;
    }
  }

  // ---------------------------------------------------------------- leases

  /** The locked body of a claim leases a chunk exactly when it is unfinished and not under a lease. It raises for the
      inbox key exactly when the chunk is completed, and as not claimable in every other case; the lookup errors never
      happen and the shortcut for a completed chunk never commits. */
  lemma ClaimOutcomes(cfg: Config, states: seq<State>, steps: seq<Step>, k: nat)
    requires IsRun(cfg, states, steps) && k < |steps| && steps[k].ClaimStep?
    ensures Enabled(states[k], steps[k])
    ensures var s, w := states[k], steps[k].w;
            var a := s.workers[w];
            && a.r.job in s.db.jobs && a.r.index < |s.db.jobs[a.r.job].chunks|
            && var claim := ClaimChunk(cfg, s.db, a.r, a.event, w, a.claimedAt);
               var chunk := s.db.jobs[a.r.job].chunks[a.r.index];
               && (claim.Claimed? <==> Free(chunk, a.claimedAt))
               && (claim == ClaimRaised(DuplicateInboxKey) <==> chunk.status.ChunkCompleted?)
               && (claim == ClaimRaised(NotClaimable) <==> !Free(chunk, a.claimedAt) && !chunk.status.ChunkCompleted?)
  {
    var s, w := states[k], steps[k].w;
    RunInv(cfg, states, steps, k);
    assert StepAt(cfg, states, steps, k);
    var a := s.workers[w];
    WorkerOk(s, w);
    ClaimFacts(cfg, s.db, a.event, a.r);
    ClaimSays(cfg, s.db, a.r, a.event, w, a.claimedAt);
  }

  /** No worker claims with a clock reading from the future. */
  ghost predicate ClaimsPast(s: State) {
    forall w {:trigger s.workers[w]} :: w in s.workers && s.workers[w].ClaimChecked? ==> s.workers[w].claimedAt <= s.now
  }

  lemma TimeGrows(cfg: Config, s: State, step: Step)
    requires Enabled(s, step)
    ensures s.now <= Next(cfg, s, step).now
  {
  }

  /** Only an inbox check makes a worker ready to claim. */
  lemma NoOtherClaims(cfg: Config, s: State, step: Step, w: WorkerId)
    requires Enabled(s, step) && !step.CheckInbox?
    requires w in Next(cfg, s, step).workers && Next(cfg, s, step).workers[w].ClaimChecked?
    ensures w in s.workers && s.workers[w] == Next(cfg, s, step).workers[w]
  {
  }

  lemma ClaimsPastStep(cfg: Config, s: State, step: Step)
    requires ClaimsPast(s) && Enabled(s, step)
    ensures ClaimsPast(Next(cfg, s, step))
  {
    var t := Next(cfg, s, step);
    TimeGrows(cfg, s, step);
    forall w | w in t.workers && t.workers[w].ClaimChecked? ensures t.workers[w].claimedAt <= t.now {
      if !step.CheckInbox? {
        NoOtherClaims(cfg, s, step, w);
      } else if w != step.w {
        assert t.workers[w] == s.workers[w];
      }
    }
  }

  lemma {:induction false} RunClaimsPast(cfg: Config, states: seq<State>, steps: seq<Step>, k: nat)
    requires IsRun(cfg, states, steps) && k <= |steps|
    ensures ClaimsPast(states[k])
  {
    if k > 0 {
      var h := k - 1;
      RunClaimsPast(cfg, states, steps, h);
      assert StepAt(cfg, states, steps, h);
      ClaimsPastStep(cfg, states[h], steps[h]);
    }
  }

  /** While a chunk's lease lasts, no step changes the chunk except a committed result for it. */
  lemma LeaseExcludes(cfg: Config, states: seq<State>, steps: seq<Step>, k: nat, j: JobId, i: nat)
    requires IsRun(cfg, states, steps) && k < |steps|
    requires j in states[k].db.jobs && i < |states[k].db.jobs[j].chunks|
    requires !Free(states[k].db.jobs[j].chunks[i], states[k].now)
    ensures j in states[k + 1].db.jobs && i < |states[k + 1].db.jobs[j].chunks|
    ensures var a := states[k].db.jobs[j].chunks[i];
            var b := states[k + 1].db.jobs[j].chunks[i];
            b == a || (CommitsResult(states[k], steps[k], j, i) && a.status.Processing? && !b.status.Processing?)
  {
    var c := RunJobChange(cfg, states, steps, k, j);
    if c.Leases? {
      RunClaimsPast(cfg, states, steps, k);
      assert StepAt(cfg, states, steps, k);
      NoSecondClaim(cfg, states[k], steps[k].w, j, i);
    }
  }

  lemma NoSecondClaim(cfg: Config, s: State, w: WorkerId, j: JobId, i: nat)
    requires Enabled(s, ClaimStep(w)) && ClaimsPast(s)
    requires j in s.db.jobs && i < |s.db.jobs[j].chunks| && !Free(s.db.jobs[j].chunks[i], s.now)
    ensures var t := Next(cfg, s, ClaimStep(w));
            && j in t.db.jobs && i < |t.db.jobs[j].chunks| && t.db.jobs[j].chunks[i] == s.db.jobs[j].chunks[i]
  {
    var a := s.workers[w];
    assert a.claimedAt <= s.now;
  }
}
