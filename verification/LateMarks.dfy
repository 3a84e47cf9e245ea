/**
 What the orchestrator's unconditional `_mark_failed` (app/services/orchestrator.py:146-153) can do to the declared job
 table: three concrete runs in which a committed job change is no declared walk. `LedgerTheorems.JobChangeDeclared` says
 exactly which commits do that, in every run.
 */
module LateMarks {
  import opened JobState
  import opened Ledger
  import opened Transactions
  import opened Pipeline

  /** One more step at the end of a run. */
  lemma Append(cfg: Config, states: seq<State>, steps: seq<Step>, step: Step)
    returns (states': seq<State>, steps': seq<Step>)
    requires IsRun(cfg, states, steps) && Enabled(states[|steps|], step)
    ensures IsRun(cfg, states', steps') && |steps'| == |steps| + 1
    ensures states'[|steps'|] == Next(cfg, states[|steps|], step) && states'[|steps|] == states[|steps|]
  {
    states', steps' := states + [Next(cfg, states[|steps|], step)], steps + [step];
    forall k | 0 <= k < |steps'| ensures StepAt(cfg, states', steps', k) {
      if k < |steps| {
        assert StepAt(cfg, states, steps, k);
      }
    }
  }

  /** An orchestrator fails on a request, and on redelivery preprocesses it: the failed job goes to `transcribing`. */
  lemma FailedJobIsRevived(cfg: Config) returns (states: seq<State>, steps: seq<Step>)
    ensures IsRun(cfg, states, steps) && |steps| == 3 && 0 in states[2].db.jobs && 0 in states[3].db.jobs
    ensures states[2].db.jobs[0].status.JobFailed? && states[3].db.jobs[0].status.Transcribing?
  {
    states, steps := [INIT], [];
    states, steps := Append(cfg, states, steps, EnsureJobStep(0));
    states, steps := Append(cfg, states, steps, MarkFailedStep(0));
    states, steps := Append(cfg, states, steps, PreprocessStep(0, 0, [UPLOAD], [10]));
  }

  // ---------------------------------------------------------------- a failed job is completed

  const REQUEST := Request(0, 0, "chunk")
  const UPLOAD := Upload("chunk", [])
  const SPLIT := PreprocessStep(0, 0, [UPLOAD], [10])
  const ANSWER := ProviderStep(0, Transcript([]))

  const CREATED := INIT.(db := Db(map[0 := NewJob()], map[], {}))

  /** The job's only chunk has been split off and its request is in the stream. */
  const REQUESTED :=
    State(Db(map[0 := NewJob().(status := Transcribing, totalChunks := 1, chunks := [NewChunk(UPLOAD)])],
             map[10 := NewRow(ChunkRequested(0, 0), RequestPayload("chunk"), 0)], {(Orchestrators, 0)}),
          map[0 := 10], {}, map[], 0)

  function Busy(s: State, a: Activity): State {
    s.(workers := map[0 := a])
  }

  /** The chunk is under the lease of the one worker. */
  function Claimed(cfg: Config): State {
    REQUESTED.(db := REQUESTED.db.(jobs := map[0 := Leased(cfg, REQUESTED.db.jobs[0], 0, 0, 0)]))
  }

  lemma SplitOff(cfg: Config)
    ensures Enabled(CREATED, SPLIT) && Next(cfg, CREATED, SPLIT) == REQUESTED.(messages := map[])
  {
    var uploads, ids := [UPLOAD], [10];
    assert NewChunks(uploads) == [NewChunk(UPLOAD)] && [] + NewChunks(uploads) == NewChunks(uploads);
    assert uploads[..0] == [] && ids[..0] == [] && uploads[0].objectKey == "chunk";
    var rows := FirstRequests(0, uploads, ids, 0);
    assert FirstRequests(0, uploads[..0], ids[..0], 0) == map[];
    assert rows == map[10 := NewRow(ChunkRequested(0, 0), RequestPayload("chunk"), 0)];
    assert map[] + rows == rows;
  }

  /** The worker takes the message and checks the inbox. */
  lemma Take(cfg: Config)
    ensures Next(cfg, REQUESTED, Deliver(0, 0)) == Busy(REQUESTED, Delivered(0, 10, REQUEST))
    ensures Next(cfg, Busy(REQUESTED, Delivered(0, 10, REQUEST)), CheckInbox(0, 0))
         == Busy(REQUESTED, ClaimChecked(0, 10, REQUEST, 0))
  {
  }

  /** It claims the chunk and gets its transcript. */
  lemma Transcribe(cfg: Config)
    ensures Next(cfg, Busy(REQUESTED, ClaimChecked(0, 10, REQUEST, 0)), ClaimStep(0))
         == Busy(Claimed(cfg), CallingProvider(0, 10, REQUEST))
    ensures Next(cfg, Busy(Claimed(cfg), CallingProvider(0, 10, REQUEST)), ANSWER)
         == Busy(Claimed(cfg), HasTranscript(0, 10, REQUEST, []))
  {
  }

  /** The commit of the only chunk's result completes and announces the transcript, whatever the job's status was. */
  lemma OnlyCommit(cfg: Config, db: Db, now: int)
    requires 0 in db.jobs && |db.jobs[0].chunks| == 1 && db.jobs[0].chunks[0].status.Processing?
    requires db.jobs[0].totalChunks == 1 && db.jobs[0].completedChunks == 0
    requires (ClovaWorkers, 10) !in db.inbox
    ensures var tx := RecordSuccess(cfg, db, REQUEST, 10, [], 11, 12, now);
            && tx.Committed? && 0 in tx.db.jobs && tx.db.jobs[0].status.TranscriptCompleted?
            && 11 in tx.db.outbox && tx.db.outbox[11] == NewRow(TranscriptReady(0), NoPayload, now)
            && tx.db.inbox == db.inbox + {(ClovaWorkers, 10)} && tx.db.outbox.Keys == db.outbox.Keys + {11, 12}
  {
    var counted := Counted(db.jobs[0], 0, []);
    assert IsLast(counted) && Mergeable(counted);
  }

  lemma LateCompletion(cfg: Config, s: State)
    requires s == Next(cfg, Busy(Claimed(cfg), HasTranscript(0, 10, REQUEST, [])), MarkFailedStep(0))
    ensures Enabled(s, CommitSuccess(0, 11, 12)) && 0 in s.db.jobs && s.db.jobs[0].status.JobFailed?
    ensures var t := Next(cfg, s, CommitSuccess(0, 11, 12));
            0 in t.db.jobs && t.db.jobs[0].status.TranscriptCompleted?
  {
    OnlyCommit(cfg, s.db, s.now);
  }

  lemma RunToRequest(cfg: Config) returns (states: seq<State>, steps: seq<Step>)
    ensures IsRun(cfg, states, steps) && |steps| == 3 && states[3] == REQUESTED
  {
    SplitOff(cfg);
    states, steps := [INIT], [];
    states, steps := Append(cfg, states, steps, EnsureJobStep(0));
    states, steps := Append(cfg, states, steps, SPLIT);
    states, steps := Append(cfg, states, steps, AddToStream(10, 0));
  }

  lemma RunToTranscript(cfg: Config) returns (states: seq<State>, steps: seq<Step>)
    ensures IsRun(cfg, states, steps) && |steps| == 7
    ensures states[7] == Busy(Claimed(cfg), HasTranscript(0, 10, REQUEST, []))
  {
    Take(cfg);
    Transcribe(cfg);
    states, steps := RunToRequest(cfg);
    states, steps := Append(cfg, states, steps, Deliver(0, 0));
    states, steps := Append(cfg, states, steps, CheckInbox(0, 0));
    states, steps := Append(cfg, states, steps, ClaimStep(0));
    states, steps := Append(cfg, states, steps, ANSWER);
  }

  /** A second orchestrator fails on the same request while the last chunk is being transcribed: the job is marked as
      failed and then completed. */
  lemma FailedJobIsCompleted(cfg: Config) returns (states: seq<State>, steps: seq<Step>)
    ensures IsRun(cfg, states, steps) && |steps| == 9 && 0 in states[8].db.jobs && 0 in states[9].db.jobs
    ensures states[8].db.jobs[0].status.JobFailed? && states[9].db.jobs[0].status.TranscriptCompleted?
  {
    states, steps := RunToTranscript(cfg);
    states, steps := Append(cfg, states, steps, MarkFailedStep(0));
    LateCompletion(cfg, states[8]);
    states, steps := Append(cfg, states, steps, CommitSuccess(0, 11, 12));
  }

  // ---------------------------------------------------------------- a corrected job is marked as failed

  /** The transcript of job 0 is announced by event 11, which nobody has taken yet. */
  predicate Announced(s: State) {
    && 0 in s.db.jobs && s.db.jobs[0].status.TranscriptCompleted?
    && 11 in s.db.outbox && s.db.outbox[11].topic == TranscriptReady(0)
    && s.db.outbox[11].publishedAt.None? && s.db.outbox[11].availableAt <= s.now
    && (CorrectionWorkers, 11) !in s.db.inbox
    && 1 !in s.messages && 1 !in s.acked && 1 !in s.workers && Fresh(s, 13)
  }

  /** Worker 1 is about to do `a` for that event. */
  predicate Working(s: State, a: Activity) {
    && 1 in s.workers && s.workers[1] == a && (CorrectionWorkers, 11) !in s.db.inbox && Fresh(s, 13)
    && 0 in s.db.jobs && (s.db.jobs[0].status.TranscriptCompleted? || s.db.jobs[0].status.Correcting?)
  }

  lemma Announce(cfg: Config, s: State)
    requires s == Busy(Claimed(cfg), HasTranscript(0, 10, REQUEST, []))
    ensures Enabled(s, CommitSuccess(0, 11, 12)) && Announced(Next(cfg, s, CommitSuccess(0, 11, 12)))
  {
    OnlyCommit(cfg, s.db, s.now);
  }

  lemma RunToAnnouncement(cfg: Config) returns (states: seq<State>, steps: seq<Step>)
    ensures IsRun(cfg, states, steps) && |steps| == 8 && Announced(states[8])
  {
    states, steps := RunToTranscript(cfg);
    Announce(cfg, states[7]);
    states, steps := Append(cfg, states, steps, CommitSuccess(0, 11, 12));
  }

  lemma TakeAnnouncement(cfg: Config, s: State)
    requires Announced(s)
    ensures Enabled(s, AddToStream(11, 1))
    ensures var t := Next(cfg, s, AddToStream(11, 1));
            && Enabled(t, Deliver(1, 1))
            && Working(Next(cfg, t, Deliver(1, 1)), CorrectionDelivered(1, 11, 0))
  {
  }

  lemma BeginWork(cfg: Config, s: State)
    requires Working(s, CorrectionDelivered(1, 11, 0))
    ensures Enabled(s, CheckCorrection(1))
    ensures var t := Next(cfg, s, CheckCorrection(1));
            Enabled(t, BeginStep(1)) && Working(Next(cfg, t, BeginStep(1)), BuildingCorrection(1, 11, 0))
  {
  }

  lemma Build(cfg: Config, s: State)
    requires Working(s, BuildingCorrection(1, 11, 0))
    ensures Enabled(s, BuildStep(1, "v"))
    ensures var t := Next(cfg, s, BuildStep(1, "v"));
            && Enabled(t, RecheckCorrection(1))
            && Working(Next(cfg, t, RecheckCorrection(1)), CorrectionRechecked(1, 11, 0, "v"))
  {
  }

  lemma Save(cfg: Config, s: State)
    requires Working(s, CorrectionRechecked(1, 11, 0, "v"))
    ensures Enabled(s, SaveStep(1, 13))
    ensures var t := Next(cfg, s, SaveStep(1, 13)); 0 in t.db.jobs && t.db.jobs[0].status.CorrectionCompleted?
  {
  }

  lemma RunToWork(cfg: Config) returns (states: seq<State>, steps: seq<Step>)
    ensures IsRun(cfg, states, steps) && |steps| == 12 && Working(states[12], BuildingCorrection(1, 11, 0))
  {
    states, steps := RunToAnnouncement(cfg);
    TakeAnnouncement(cfg, states[8]);
    states, steps := Append(cfg, states, steps, AddToStream(11, 1));
    states, steps := Append(cfg, states, steps, Deliver(1, 1));
    BeginWork(cfg, states[10]);
    states, steps := Append(cfg, states, steps, CheckCorrection(1));
    states, steps := Append(cfg, states, steps, BeginStep(1));
  }

  /** An orchestrator that fails late marks the job as failed after its correction has been saved. */
  lemma CorrectedJobIsFailed(cfg: Config) returns (states: seq<State>, steps: seq<Step>)
    ensures IsRun(cfg, states, steps) && |steps| == 16 && 0 in states[15].db.jobs && 0 in states[16].db.jobs
    ensures states[15].db.jobs[0].status.CorrectionCompleted? && states[16].db.jobs[0].status.JobFailed?
  {
    states, steps := RunToWork(cfg);
    Build(cfg, states[12]);
    states, steps := Append(cfg, states, steps, BuildStep(1, "v"));
    states, steps := Append(cfg, states, steps, RecheckCorrection(1));
    Save(cfg, states[14]);
    states, steps := Append(cfg, states, steps, SaveStep(1, 13));
    states, steps := Append(cfg, states, steps, MarkFailedStep(0));
  }

  /** None of the three changes is a declared walk. */
  lemma NotDeclared()
    ensures !JobReaches(JobFailed, Transcribing) && !JobReaches(JobFailed, TranscriptCompleted)
    ensures !JobReaches(CorrectionCompleted, JobFailed)
  {
    if JobReaches(JobFailed, Transcribing) {
      JobSinks(JobFailed, Transcribing);
    }
    if JobReaches(JobFailed, TranscriptCompleted) {
      JobSinks(JobFailed, TranscriptCompleted);
    }
    if JobReaches(CorrectionCompleted, JobFailed) {
      JobSinks(CorrectionCompleted, JobFailed);
    }
  }
}
