/**
 Every step keeps the system invariant and makes one of the listed changes to one job; hence every run does.

 - A quiet step moves a worker and leaves the ledger alone.
 - A publishing step, a delivery, an acknowledgement or a tick leaves jobs and inbox alone.
 - Each other kind of step commits one transaction, and `Makes` says which change it is.
 - `RunInv` carries the invariant along a run from the empty service, and `RunChange` is all that the theorems about
   runs need to know of one step.
 */
module Runs {
  import opened Ledger
  import opened Transactions
  import opened LedgerInvariant
  import opened Pipeline
  import opened Commits
  import opened PipelineProofs

  /** The step commits a chunk result: a worker's transaction for an event nobody has marked. */
  predicate CommitsEffect(s: State, step: Step) {
    && (step.CommitSuccess? || step.CommitFailure?)
    && step.w in s.workers && (ClovaWorkers, s.workers[step.w].event) !in s.db.inbox
  }

  /** The step commits the chunks of a job that has none. */
  predicate Splits(s: State, step: Step) {
    && step.PreprocessStep? && step.j in s.db.jobs && s.db.jobs[step.j].chunks == []
    && (Orchestrators, step.event) !in s.db.inbox
  }

  predicate IsEffectChange(c: Change) {
    c.Completes? || c.Retries? || c.Fails?
  }

  /** Which steps make which changes. */
  ghost predicate Makes(s: State, step: Step, j: JobId, c: Change)
    requires Enabled(s, step)
  {
    && (IsEffectChange(c) <==> CommitsEffect(s, step))
    && (IsEffectChange(c) ==>
          && (s.workers[step.w].HasTranscript? || s.workers[step.w].HasError?)
          && s.workers[step.w].r.job == j && s.workers[step.w].r.index == c.i)
    && (c.Completes? ==> step.CommitSuccess?)
    && (CommitsEffect(s, step) && step.CommitSuccess? ==> c.Completes?)
    && (c.Overwrites? <==> step.MarkFailedStep? && step.j in s.db.jobs)
    && (c.Overwrites? ==> step.j == j)
    && (c.Prepares? <==> Splits(s, step)) && (c.Prepares? ==> step.j == j)
    && (c.Leases? ==> step.ClaimStep? && s.workers[step.w].r.job == j && s.workers[step.w].r.index == c.i)
  }

  /** Steps of a worker that read the ledger at most. */
  predicate IsQuiet(step: Step) {
    step.CheckInbox? || step.ProviderStep? || step.CheckCorrection? || step.BuildStep? || step.RecheckCorrection?
    || step.RaiseStep? || step.CheckError? || step.Crash?
  }

  lemma QuietFrame(cfg: Config, s: State, step: Step)
    requires Enabled(s, step) && IsQuiet(step)
    ensures Next(cfg, s, step).db == s.db
  {
  }

  lemma QuietStep(cfg: Config, s: State, step: Step)
    requires Inv(cfg, s) && Enabled(s, step) && IsQuiet(step)
    ensures Inv(cfg, Next(cfg, s, step))
  {
    if step.CheckInbox? {
      CheckInboxKeepsInv(cfg, s, step.w, step.claimedAt);
    } else if step.ProviderStep? {
      ProviderKeepsInv(cfg, s, step.w, step.outcome);
    } else if step.Crash? {
      DropKeepsInv(cfg, s, step.w);
    } else {
      QuietCorrectionStep(cfg, s, step);
    }
  }

  lemma QuietCorrectionStep(cfg: Config, s: State, step: Step)
    requires Inv(cfg, s) && Enabled(s, step) && IsQuiet(step)
    requires !step.CheckInbox? && !step.ProviderStep? && !step.Crash?
    ensures Inv(cfg, Next(cfg, s, step))
  {
    WorkerOk(s, step.w);
    var a := s.workers[step.w];
    if step.BuildStep? {
      GotoKeepsInv(cfg, s, step.w, HasCorrection(a.msg, a.event, a.j, step.version));
    } else if step.RaiseStep? {
      GotoKeepsInv(cfg, s, step.w, HasCorrectionError(a.msg, a.event, a.j, step.retryable));
    } else {
      InboxReadStep(cfg, s, step);
    }
  }

  lemma InboxReadStep(cfg: Config, s: State, step: Step)
    requires Inv(cfg, s) && Enabled(s, step)
    requires step.CheckCorrection? || step.RecheckCorrection? || step.CheckError?
    ensures Inv(cfg, Next(cfg, s, step))
  {
    WorkerOk(s, step.w);
    var a := s.workers[step.w];
    var next := match step
      case CheckCorrection(_) => CorrectionChecked(a.msg, a.event, a.j)
      case RecheckCorrection(_) => CorrectionRechecked(a.msg, a.event, a.j, a.version)
      case CheckError(_) => ErrorChecked(a.msg, a.event, a.j, a.retryable);
    InboxReadKeepsInv(cfg, s, step.w, next);
  }

  predicate IsPublishing(step: Step) {
    step.AddToStream? || step.MarkPublished? || step.PublishFailed? || step.Deliver? || step.Acknowledge? || step.Tick?
  }

  /** It leaves jobs and inbox alone, and rows keep their type. */
  lemma PublishingFrame(cfg: Config, s: State, step: Step)
    requires Enabled(s, step) && IsPublishing(step)
    ensures Next(cfg, s, step).db.jobs == s.db.jobs && Next(cfg, s, step).db.inbox == s.db.inbox
    ensures Grows(s.db, Next(cfg, s, step).db)
  {
  }

  lemma PublishingStep(cfg: Config, s: State, step: Step)
    requires Inv(cfg, s) && Enabled(s, step) && IsPublishing(step)
    ensures Inv(cfg, Next(cfg, s, step))
  {
    if step.AddToStream? {
      AddKeepsInv(cfg, s, step.event, step.msg);
    } else if step.MarkPublished? || step.PublishFailed? {
      RepublishKeepsInv(cfg, s, Next(cfg, s, step), step.event);
    } else {
      StreamStep(cfg, s, step);
    }
  }

  lemma StreamStep(cfg: Config, s: State, step: Step)
    requires Inv(cfg, s) && Enabled(s, step) && (step.Deliver? || step.Acknowledge? || step.Tick?)
    ensures Inv(cfg, Next(cfg, s, step))
  {
    match step {
      case Deliver(w, m) => DeliverKeepsInv(cfg, s, w, m);
      case Acknowledge(w) => AcknowledgeKeepsInv(cfg, s, w);
      case Tick(elapsed) => TickKeepsInv(cfg, s, Next(cfg, s, step));
    }
  }

  lemma TickKeepsInv(cfg: Config, s: State, s': State)
    requires Inv(cfg, s) && s'.db == s.db && s'.messages == s.messages && s'.acked == s.acked && s'.workers == s.workers
    ensures Inv(cfg, s')
  {
    forall v | v in s'.workers ensures ActivityOk(s'.db, s'.workers[v]) {
      assert s.workers[v] == s'.workers[v];
    }
    forall e | e in s'.db.outbox && s'.db.outbox[e].publishedAt.Some? ensures InStream(s', e) {
      assert InStream(s, e);
    }
  }

  /** The step leads to an invariant state, and makes change `c` to job `j`, as its kind allows. */
  ghost predicate StepOk(cfg: Config, s: State, step: Step, j: JobId, c: Change)
    requires Enabled(s, step)
  {
    && Inv(cfg, Next(cfg, s, step))
    && DbChange(s.db, Next(cfg, s, step).db, j, c)
    && Makes(s, step, j, c)
  }

  /** The heart: any enabled step keeps the invariant and makes exactly one declared change. */
  lemma StepKeepsInv(cfg: Config, s: State, step: Step) returns (j: JobId, c: Change)
    requires Inv(cfg, s) && Enabled(s, step)
    ensures StepOk(cfg, s, step, j, c)
  {
    if IsQuiet(step) || IsPublishing(step) {
      j, c := SilentStep(cfg, s, step);
    } else if step.EnsureJobStep? || step.PreprocessStep? || step.MarkFailedStep? {
      j, c := OrchestratorStep(cfg, s, step);
    } else if step.ClaimStep? {
      j, c := LeaseStep(cfg, s, step);
    } else if step.CommitSuccess? {
      j, c := SucceedsStep(cfg, s, step);
    } else if step.CommitFailure? {
      j, c := FailsStep(cfg, s, step);
    } else if step.BeginStep? {
      j, c := BeginsStep(cfg, s, step);
    } else if step.SaveStep? {
      j, c := SavesStep(cfg, s, step);
    } else {
      j, c := RecordsStep(cfg, s, step);
    }
  }

  lemma NothingChanges(db: Db, db': Db)
    requires db'.jobs == db.jobs && db'.inbox == db.inbox && Grows(db, db')
    ensures DbChange(db, db', 0, Nothing)
  {
  }

  lemma SilentMakes(s: State, step: Step)
    requires Enabled(s, step) && (IsQuiet(step) || IsPublishing(step))
    ensures Makes(s, step, 0, Nothing)
  {
  }

  lemma SilentStep(cfg: Config, s: State, step: Step) returns (j: JobId, c: Change)
    requires Inv(cfg, s) && Enabled(s, step) && (IsQuiet(step) || IsPublishing(step))
    ensures StepOk(cfg, s, step, j, c)
  {
    j, c := 0, Nothing;
    if IsQuiet(step) {
      QuietStep(cfg, s, step);
      QuietFrame(cfg, s, step);
    } else {
      PublishingStep(cfg, s, step);
      PublishingFrame(cfg, s, step);
    }
    NothingChanges(s.db, Next(cfg, s, step).db);
    SilentMakes(s, step);
  }

  lemma OrchestratorMakes(s: State, step: Step, c: Change)
    requires Enabled(s, step) && (step.EnsureJobStep? || step.PreprocessStep? || step.MarkFailedStep?)
    requires c.Nothing? || c.Creates? || c.Prepares? || c.Overwrites?
    requires (c.Prepares? <==> Splits(s, step)) && (c.Overwrites? <==> step.MarkFailedStep? && step.j in s.db.jobs)
    ensures Makes(s, step, step.j, c)
  {
  }

  lemma OrchestratorStep(cfg: Config, s: State, step: Step) returns (j: JobId, c: Change)
    requires Inv(cfg, s) && Enabled(s, step)
    requires step.EnsureJobStep? || step.PreprocessStep? || step.MarkFailedStep?
    ensures StepOk(cfg, s, step, j, c)
  {
    j := step.j;
    c := OrchestratorStepKeepsInv(cfg, s, step);
    OrchestratorMakes(s, step, c);
  }

  /** A change that is no worker's result and no orchestrator's. */
  predicate IsCorrectionChange(c: Change) {
    c.Nothing? || c.BeginsCorrection? || c.Corrects? || c.RetriesCorrection? || c.GivesUp?
  }

  lemma LeaseMakes(s: State, step: Step, c: Change)
    requires Enabled(s, step) && step.ClaimStep?
    requires c == Nothing || c == Leases(s.workers[step.w].r.index)
    ensures Makes(s, step, s.workers[step.w].r.job, c)
  {
  }

  lemma EffectMakes(s: State, step: Step, c: Change)
    requires Enabled(s, step) && (step.CommitSuccess? || step.CommitFailure?)
    requires if CommitsEffect(s, step) then IsEffectChange(c) && c.i == s.workers[step.w].r.index else c == Nothing
    requires CommitsEffect(s, step) ==> (c.Completes? <==> step.CommitSuccess?)
    ensures Makes(s, step, s.workers[step.w].r.job, c)
  {
  }

  lemma CorrectionMakes(s: State, step: Step, c: Change)
    requires Enabled(s, step) && (step.BeginStep? || step.SaveStep? || step.RecordStep?) && IsCorrectionChange(c)
    ensures Makes(s, step, s.workers[step.w].j, c)
  {
  }

  lemma LeaseStep(cfg: Config, s: State, step: Step) returns (j: JobId, c: Change)
    requires Inv(cfg, s) && Enabled(s, step) && step.ClaimStep?
    ensures StepOk(cfg, s, step, j, c)
  {
    var a := s.workers[step.w];
    ClaimStepKeepsInv(cfg, s, step.w);
    j, c := a.r.job, if AfterClaim(cfg, s, step.w).db == s.db then Nothing else Leases(a.r.index);
    LeaseMakes(s, step, c);
  }

  lemma SucceedsStep(cfg: Config, s: State, step: Step) returns (j: JobId, c: Change)
    requires Inv(cfg, s) && Enabled(s, step) && step.CommitSuccess?
    ensures StepOk(cfg, s, step, j, c)
  {
    var a := s.workers[step.w];
    WorkerOk(s, step.w);
    SuccessCommit(cfg, s.db, a.r, a.event, a.segments, step.readyId, step.progressId, s.now);
    TxKeepsInv(cfg, s, step.w, RecordSuccess(cfg, s.db, a.r, a.event, a.segments, step.readyId, step.progressId,
                                             s.now));
    j, c := a.r.job, if CommitsEffect(s, step) then Completes(a.r.index) else Nothing;
    EffectMakes(s, step, c);
  }

  lemma FailsTx(cfg: Config, s: State, w: WorkerId, availableAt: int, newId: EventId, progressId: EventId)
    returns (c: Change)
    requires Inv(cfg, s) && Enabled(s, CommitFailure(w, availableAt, newId, progressId))
    ensures var a := s.workers[w];
            var tx := RecordFailure(cfg, s.db, a.r, a.event, a.retryable, availableAt, newId, progressId, s.now);
            && Inv(cfg, AfterTx(s, w, tx)) && DbChange(s.db, AfterTx(s, w, tx).db, a.r.job, c)
            && if (ClovaWorkers, a.event) in s.db.inbox then c == Nothing
               else IsEffectChange(c) && !c.Completes? && c.i == a.r.index
  {
    var a := s.workers[w];
    WorkerOk(s, w);
    FailureCommit(cfg, s.db, a.r, a.event, a.retryable, availableAt, newId, progressId, s.now);
    TxKeepsInv(cfg, s, w, RecordFailure(cfg, s.db, a.r, a.event, a.retryable, availableAt, newId, progressId, s.now));
    c := if (ClovaWorkers, a.event) in s.db.inbox then Nothing else FailureKind(cfg, s.db, a.r, a.retryable);
  }

  lemma FailsStep(cfg: Config, s: State, step: Step) returns (j: JobId, c: Change)
    requires Inv(cfg, s) && Enabled(s, step) && step.CommitFailure?
    ensures StepOk(cfg, s, step, j, c)
  {
    j := s.workers[step.w].r.job;
    c := FailsTx(cfg, s, step.w, step.availableAt, step.newId, step.progressId);
    EffectMakes(s, step, c);
  }

  lemma BeginsStep(cfg: Config, s: State, step: Step) returns (j: JobId, c: Change)
    requires Inv(cfg, s) && Enabled(s, step) && step.BeginStep?
    ensures StepOk(cfg, s, step, j, c)
  {
    BeginStepKeepsInv(cfg, s, step.w);
    j := s.workers[step.w].j;
    c := if DbChange(s.db, AfterBegin(s, step.w).db, j, Nothing) then Nothing else BeginsCorrection;
    CorrectionMakes(s, step, c);
  }

  lemma SavesStep(cfg: Config, s: State, step: Step) returns (j: JobId, c: Change)
    requires Inv(cfg, s) && Enabled(s, step) && step.SaveStep?
    ensures StepOk(cfg, s, step, j, c)
  {
    var a := s.workers[step.w];
    SaveStepKeepsInv(cfg, s, step.w, step.finishedId);
    j := a.j;
    c := if SaveCorrection(s.db, a.j, a.event, a.version, step.finishedId, s.now).Committed? then Corrects else Nothing;
    CorrectionMakes(s, step, c);
  }

  lemma RecordsStep(cfg: Config, s: State, step: Step) returns (j: JobId, c: Change)
    requires Inv(cfg, s) && Enabled(s, step) && step.RecordStep?
    ensures StepOk(cfg, s, step, j, c)
  {
    var a := s.workers[step.w];
    RecordStepKeepsInv(cfg, s, step.w, step.deadId, step.progressId);
    var recorded := FailCorrection(cfg, s.db, a.j, a.event, a.retryable, step.deadId, step.progressId, s.now);
    j := a.j;
    c := if recorded.WillRetry? then RetriesCorrection else if recorded.GaveUp? then GivesUp else Nothing;
    CorrectionMakes(s, step, c);
  }

  // ---------------------------------------------------------------- all runs

  lemma InitInv(cfg: Config)
    ensures Inv(cfg, INIT)
  {
  }

  /** The invariant holds in every state of every run. */
  lemma {:induction false} RunInv(cfg: Config, states: seq<State>, steps: seq<Step>, k: nat)
    requires IsRun(cfg, states, steps) && k <= |steps|
    ensures Inv(cfg, states[k])
  {
    if k == 0 {
      InitInv(cfg);
    } else {
      RunInv(cfg, states, steps, k - 1);
      assert StepAt(cfg, states, steps, k - 1);
      var j, c := StepKeepsInv(cfg, states[k - 1], steps[k - 1]);
    }
  }

  /** What theorems need of one step of a run, without the step function itself. */
  lemma RunChange(cfg: Config, states: seq<State>, steps: seq<Step>, k: nat) returns (j: JobId, c: Change)
    requires IsRun(cfg, states, steps) && k < |steps|
    ensures Inv(cfg, states[k]) && Inv(cfg, states[k + 1])
    ensures Enabled(states[k], steps[k])
    ensures DbChange(states[k].db, states[k + 1].db, j, c) && Makes(states[k], steps[k], j, c)
  {
    RunInv(cfg, states, steps, k);
    assert StepAt(cfg, states, steps, k);
    j, c := StepKeepsInv(cfg, states[k], steps[k]);
  }

  // ---------------------------------------------------------------- one job at a time

  /** The step commits an effect on a chunk of job `j`. */
  predicate CommitsFor(s: State, step: Step, j: JobId) {
    && CommitsEffect(s, step)
    && (s.workers[step.w].HasTranscript? || s.workers[step.w].HasError?) && s.workers[step.w].r.job == j
  }

  /** That chunk is chunk `i`. */
  predicate CommitsResult(s: State, step: Step, j: JobId, i: nat) {
    CommitsFor(s, step, j) && s.workers[step.w].r.index == i
  }

  /** A worker claims chunk `i` of job `j`. */
  predicate Claims(s: State, step: Step, j: JobId, i: nat) {
    && step.ClaimStep? && step.w in s.workers && s.workers[step.w].ClaimChecked?
    && s.workers[step.w].r.job == j && s.workers[step.w].r.index == i
  }

  /** What a step that makes change `c` to the row of job `j` is, and which steps make none. */
  ghost predicate MakesFor(s: State, step: Step, j: JobId, c: Change)
    requires Enabled(s, step)
  {
    && (IsEffectChange(c) <==> CommitsFor(s, step, j))
    && (IsEffectChange(c) ==> CommitsResult(s, step, j, c.i))
    && (c.Completes? <==> CommitsFor(s, step, j) && step.CommitSuccess?)
    && (c.Overwrites? <==> step == MarkFailedStep(j) && j in s.db.jobs)
    && (c.Prepares? <==> Splits(s, step) && step.j == j)
    && (c.Leases? ==> Claims(s, step, j, c.i))
  }

  lemma MakesForJob(s: State, step: Step, j': JobId, c: Change, j: JobId)
    requires Enabled(s, step) && Makes(s, step, j', c)
    ensures MakesFor(s, step, j, if j' == j then c else Nothing)
  {
  }

  /** One step and the row of one job: it changes by one of the listed changes, or not at all. */
  lemma RunJobChange(cfg: Config, states: seq<State>, steps: seq<Step>, k: nat, j: JobId) returns (c: Change)
    requires IsRun(cfg, states, steps) && k < |steps| && j in states[k].db.jobs
    ensures Enabled(states[k], steps[k]) && j in states[k + 1].db.jobs
    ensures Changed(states[k].db.jobs[j], states[k + 1].db.jobs[j], c) && MakesFor(states[k], steps[k], j, c)
  {
    var j', c' := RunChange(cfg, states, steps, k);
    MakesForJob(states[k], steps[k], j', c', j);
    c := if j' == j then c' else Nothing;
  }

  lemma RunJobInv(cfg: Config, states: seq<State>, steps: seq<Step>, k: nat, j: JobId)
    requires IsRun(cfg, states, steps) && k <= |steps| && j in states[k].db.jobs
    ensures JobInv(cfg, states[k].db, j)
  {
    RunInv(cfg, states, steps, k);
    assert JobInv(cfg, states[k].db, j);
  }
}
