/**
 Where a stored transcript comes from and what a lease is good for, in every run: each completed chunk holds the answer
 of an earlier provider call for it, made by a worker that had leased it, and nobody touches a leased chunk before the
 lease is over unless a result for it commits.
 */
module Answers {
  import opened Options
  import opened JobState
  import opened Ledger
  import opened Transactions
  import opened LedgerInvariant
  import opened Pipeline
  import opened PipelineProofs
  import opened Runs
  import opened StepEffects
  import opened LedgerTheorems
  import Merger
  import MergerTheorems
  import Sorting

  // ---------------------------------------------------------------- leases

  /** Step `k` is a claim that takes the lease of chunk `i`. */
  ghost predicate TakesLease(states: seq<State>, steps: seq<Step>, k: nat, j: JobId, i: nat)
    requires |states| == |steps| + 1
  {
    && k < |steps| && Claims(states[k], steps[k], j, i)
    && j in states[k].db.jobs && i < |states[k].db.jobs[j].chunks|
    && Free(states[k].db.jobs[j].chunks[i], states[k].workers[steps[k].w].claimedAt)
  }

  /** A result for the chunk commits in one of the steps from `k` up to `l`. */
  ghost predicate ResultBetween(states: seq<State>, steps: seq<Step>, k: nat, l: nat, j: JobId, i: nat)
    requires |states| == |steps| + 1 && l <= |steps|
  {
    exists m {:trigger CommitsResult(states[m], steps[m], j, i)} ::
      k <= m < l && CommitsResult(states[m], steps[m], j, i)
  }

  /** When the lease that a claim takes is over. */
  ghost function ExpiryOf(cfg: Config, states: seq<State>, steps: seq<Step>, k: nat, j: JobId, i: nat): int
    requires |states| == |steps| + 1 && TakesLease(states, steps, k, j, i)
  {
    states[k].workers[steps[k].w].claimedAt + cfg.chunkLease
  }

  /** What a claim wrote stays until the lease it took is over, unless a result for the chunk commits. */
  lemma {:induction false} LeaseHolds(cfg: Config, states: seq<State>, steps: seq<Step>, k: nat, l: nat, j: JobId,
                                      i: nat)
    requires IsRun(cfg, states, steps) && k < l <= |steps| && TakesLease(states, steps, k, j, i)
    requires states[l - 1].now < ExpiryOf(cfg, states, steps, k, j, i)
    requires !ResultBetween(states, steps, k, l, j, i)
    ensures j in states[l].db.jobs && i < |states[l].db.jobs[j].chunks|
    ensures states[l].db.jobs[j].chunks[i]
         == states[k].db.jobs[j].chunks[i].(status := Processing, leaseOwner := Some(steps[k].w),
              leaseExpiresAt := Some(ExpiryOf(cfg, states, steps, k, j, i)))
  {
    if l == k + 1 {
      ClaimTakes(cfg, states, steps, k);
    } else {
      var h := l - 1;
      assert StepAt(cfg, states, steps, h - 1);
      TimeGrows(cfg, states[h - 1], steps[h - 1]);
      assert ResultBetween(states, steps, k, h, j, i) ==> ResultBetween(states, steps, k, l, j, i);
      LeaseHolds(cfg, states, steps, k, h, j, i);
      LeaseExcludes(cfg, states, steps, h, j, i);
      assert !CommitsResult(states[h], steps[h], j, i);
    }
  }

  /** Until a result commits, the chunk stays under a lease that ends no earlier, whoever claims it with whatever
      reading. */
  lemma {:induction false} LeaseNotShortened(cfg: Config, states: seq<State>, steps: seq<Step>, k: nat, l: nat,
                                             j: JobId, i: nat)
    requires IsRun(cfg, states, steps) && k < l <= |steps| && TakesLease(states, steps, k, j, i)
    requires !ResultBetween(states, steps, k, l, j, i)
    ensures j in states[l].db.jobs && i < |states[l].db.jobs[j].chunks|
    ensures var chunk := states[l].db.jobs[j].chunks[i];
            && chunk.status.Processing? && chunk.leaseExpiresAt.Some?
            && chunk.leaseExpiresAt.value >= ExpiryOf(cfg, states, steps, k, j, i)
  {
    if l == k + 1 {
      ClaimTakes(cfg, states, steps, k);
    } else {
      var h := l - 1;
      assert ResultBetween(states, steps, k, h, j, i) ==> ResultBetween(states, steps, k, l, j, i);
      LeaseNotShortened(cfg, states, steps, k, h, j, i);
      ChunkChangeDeclared(cfg, states, steps, h, j, i);
      assert !CommitsResult(states[h], steps[h], j, i);
      if Claims(states[h], steps[h], j, i) {
        ClaimTakes(cfg, states, steps, h);
      }
    }
  }

  /** Two claims of a chunk both take its lease only if the first lease is over at the reading of the second, or a
      result for the chunk commits in between. */
  lemma OneLeaseAtATime(cfg: Config, states: seq<State>, steps: seq<Step>, k: nat, l: nat, j: JobId, i: nat)
    requires IsRun(cfg, states, steps) && k < l
    requires TakesLease(states, steps, k, j, i) && TakesLease(states, steps, l, j, i)
    ensures ResultBetween(states, steps, k, l, j, i)
         || ExpiryOf(cfg, states, steps, k, j, i) <= states[l].workers[steps[l].w].claimedAt
  {
    if !ResultBetween(states, steps, k, l, j, i) {
      LeaseNotShortened(cfg, states, steps, k, l, j, i);
    }
  }

  // ---------------------------------------------------------------- where an answer comes from

  /** Step `h` is the provider's answer to worker `w` for this request. */
  ghost predicate AnswersAt(states: seq<State>, steps: seq<Step>, h: nat, w: WorkerId, r: Request,
                            segments: ProviderSegments)
    requires |states| == |steps| + 1
  {
    && h < |steps| && steps[h] == ProviderStep(w, Transcript(segments))
    && w in states[h].workers && states[h].workers[w].CallingProvider? && states[h].workers[w].r == r
  }

  /** The steps of a worker. */
  predicate IsWorkerStep(step: Step) {
    !(step.EnsureJobStep? || step.PreprocessStep? || step.MarkFailedStep? || step.AddToStream? || step.MarkPublished?
      || step.PublishFailed? || step.Tick?)
  }

  lemma ServerSteps(cfg: Config, s: State, step: Step)
    requires Enabled(s, step) && !IsWorkerStep(step)
    ensures Next(cfg, s, step).workers == s.workers
  {
  }

  lemma OtherWorkers(cfg: Config, s: State, step: Step)
    requires Enabled(s, step) && IsWorkerStep(step)
    ensures Next(cfg, s, step).workers - {step.w} == s.workers - {step.w}
  {
  }

  /** A worker moves only by its own steps. */
  lemma OthersStay(cfg: Config, s: State, step: Step, w: WorkerId)
    requires Enabled(s, step) && !(IsWorkerStep(step) && step.w == w)
    requires w in Next(cfg, s, step).workers
    ensures w in s.workers && s.workers[w] == Next(cfg, s, step).workers[w]
  {
    if IsWorkerStep(step) {
      OtherWorkers(cfg, s, step);
      Elsewhere(s.workers, Next(cfg, s, step).workers, step.w, w);
    } else {
      ServerSteps(cfg, s, step);
    }
  }

  lemma Elsewhere(a: map<WorkerId, Activity>, b: map<WorkerId, Activity>, w: WorkerId, v: WorkerId)
    requires b - {w} == a - {w} && v != w && v in b
    ensures v in a && a[v] == b[v]
  {
    assert v in b - {w};
    assert (a - {w})[v] == (b - {w})[v];
  }

  /** Only a provider's answer makes a worker hold a transcript, only a claim makes it call the provider. */
  lemma OwnMove(cfg: Config, s: State, step: Step)
    requires Enabled(s, step) && IsWorkerStep(step) && step.w in Next(cfg, s, step).workers
    ensures Next(cfg, s, step).workers[step.w].HasTranscript? ==> step.ProviderStep?
    ensures Next(cfg, s, step).workers[step.w].CallingProvider? ==> step.ClaimStep?
  {
  }

  lemma NewTranscript(cfg: Config, s: State, step: Step, w: WorkerId)
    requires Enabled(s, step)
    requires w in Next(cfg, s, step).workers && Next(cfg, s, step).workers[w].HasTranscript?
    ensures var a := Next(cfg, s, step).workers[w];
            && w in s.workers
            && (s.workers[w] == a
                || (&& step == ProviderStep(w, Transcript(a.segments))
                    && s.workers[w] == CallingProvider(a.msg, a.event, a.r)))
  {
    if IsWorkerStep(step) && step.w == w {
      OwnMove(cfg, s, step);
      assert Next(cfg, s, step) == AfterProvider(s, w, step.outcome);
    } else {
      OthersStay(cfg, s, step, w);
    }
  }

  lemma NewCall(cfg: Config, s: State, step: Step, w: WorkerId)
    requires Enabled(s, step)
    requires w in Next(cfg, s, step).workers && Next(cfg, s, step).workers[w].CallingProvider?
    ensures var a := Next(cfg, s, step).workers[w];
            && w in s.workers
            && (s.workers[w] == a
                || (step == ClaimStep(w) && s.workers[w].ClaimChecked? && s.workers[w].r == a.r))
  {
    if IsWorkerStep(step) && step.w == w {
      OwnMove(cfg, s, step);
      assert Next(cfg, s, step) == AfterClaim(cfg, s, w);
    } else {
      OthersStay(cfg, s, step, w);
    }
  }

  /** A worker with a transcript has it from an earlier answer to its own request. */
  lemma {:induction false} HeldTranscript(cfg: Config, states: seq<State>, steps: seq<Step>, k: nat, w: WorkerId)
    returns (h: nat)
    requires IsRun(cfg, states, steps) && k <= |steps| && w in states[k].workers && states[k].workers[w].HasTranscript?
    ensures h < k && AnswersAt(states, steps, h, w, states[k].workers[w].r, states[k].workers[w].segments)
  {
    h := k - 1;
    assert StepAt(cfg, states, steps, h);
    NewTranscript(cfg, states[h], steps[h], w);
    if w in states[h].workers && states[h].workers[w] == states[k].workers[w] {
      h := HeldTranscript(cfg, states, steps, k - 1, w);
    }
  }

  /** A worker that calls the provider has leased the chunk of its request. */
  lemma {:induction false} HeldCall(cfg: Config, states: seq<State>, steps: seq<Step>, k: nat, w: WorkerId)
    returns (h: nat)
    requires IsRun(cfg, states, steps) && k <= |steps|
    requires w in states[k].workers && states[k].workers[w].CallingProvider?
    ensures h < k && steps[h] == ClaimStep(w)
    ensures TakesLease(states, steps, h, states[k].workers[w].r.job, states[k].workers[w].r.index)
  {
    h := k - 1;
    assert StepAt(cfg, states, steps, h);
    NewCall(cfg, states[h], steps[h], w);
    if states[h].workers[w] == states[k].workers[w] {
      h := HeldCall(cfg, states, steps, k - 1, w);
    } else {
      ClaimTakes(cfg, states, steps, h);
    }
  }

  /** Step `h` is a provider's answer with these segments, to a worker that asked for chunk `i` of job `j` under the
      key of its object. */
  ghost predicate Answered(states: seq<State>, steps: seq<Step>, h: nat, j: JobId, i: nat, key: string,
                           segments: ProviderSegments)
    requires |states| == |steps| + 1
  {
    exists w {:trigger AnswersAt(states, steps, h, w, Request(j, i, key), segments)} ::
      AnswersAt(states, steps, h, w, Request(j, i, key), segments)
  }

  /** A chunk that a step completes gets the answer its worker holds. */
  lemma CompletedNow(cfg: Config, states: seq<State>, steps: seq<Step>, k: nat, j: JobId, i: nat)
    requires IsRun(cfg, states, steps) && k < |steps|
    requires j in states[k].db.jobs && i < |states[k].db.jobs[j].chunks| && Unfinished(states[k].db.jobs[j].chunks[i])
    requires j in states[k + 1].db.jobs && i < |states[k + 1].db.jobs[j].chunks|
    requires states[k + 1].db.jobs[j].chunks[i].status.ChunkCompleted?
    ensures steps[k].CommitSuccess? && steps[k].w in states[k].workers && states[k].workers[steps[k].w].HasTranscript?
    ensures var a, c := states[k].workers[steps[k].w], states[k + 1].db.jobs[j].chunks[i];
            a.r == Request(j, i, c.objectKey) && c.segments == Some(a.segments)
  {
    ChunkChangeDeclared(cfg, states, steps, k, j, i);
    RunInv(cfg, states, steps, k);
    assert StepAt(cfg, states, steps, k);
    WorkerOk(states[k], steps[k].w);
    if steps[k].CommitSuccess? {
      SuccessStores(cfg, states, steps, k);
      ClaimFacts(cfg, states[k].db, states[k].workers[steps[k].w].event, states[k].workers[steps[k].w].r);
    } else {
      FailureCompletesNone(cfg, states, steps, k, j, i);
    }
  }

  lemma FailureCompletesNone(cfg: Config, states: seq<State>, steps: seq<Step>, k: nat, j: JobId, i: nat)
    requires IsRun(cfg, states, steps) && k < |steps|
    requires steps[k].CommitFailure? && CommitsResult(states[k], steps[k], j, i)
    ensures j in states[k + 1].db.jobs && i < |states[k + 1].db.jobs[j].chunks|
    ensures !states[k + 1].db.jobs[j].chunks[i].status.ChunkCompleted?
  {
    FailureStores(cfg, states, steps, k);
  }

  /** No step brings a chunk into being completed. */
  lemma NewChunksWait(cfg: Config, states: seq<State>, steps: seq<Step>, k: nat, j: JobId, i: nat)
    requires IsRun(cfg, states, steps) && k < |steps|
    requires j in states[k + 1].db.jobs && i < |states[k + 1].db.jobs[j].chunks|
    requires states[k + 1].db.jobs[j].chunks[i].status.ChunkCompleted?
    ensures j in states[k].db.jobs && i < |states[k].db.jobs[j].chunks|
  {
    var j', c := RunChange(cfg, states, steps, k);
  }

  /** Every completed chunk of a reachable state holds what an earlier provider call for this very chunk returned. */
  lemma {:induction false} CompletedFromProvider(cfg: Config, states: seq<State>, steps: seq<Step>, k: nat, j: JobId,
                                                 i: nat)
    returns (h: nat)
    requires IsRun(cfg, states, steps) && k <= |steps|
    requires j in states[k].db.jobs && i < |states[k].db.jobs[j].chunks|
    requires states[k].db.jobs[j].chunks[i].status.ChunkCompleted?
    ensures states[k].db.jobs[j].chunks[i].segments.Some?
    ensures h < k && Answered(states, steps, h, j, i, states[k].db.jobs[j].chunks[i].objectKey,
                              states[k].db.jobs[j].chunks[i].segments.value)
  {
    h := k - 1;
    NewChunksWait(cfg, states, steps, h, j, i);
    if Unfinished(states[h].db.jobs[j].chunks[i]) {
      CompletedNow(cfg, states, steps, h, j, i);
      h := HeldTranscript(cfg, states, steps, h, steps[h].w);
    } else {
      ChunkChangeDeclared(cfg, states, steps, h, j, i);
      h := CompletedFromProvider(cfg, states, steps, k - 1, j, i);
    }
  }

  // ---------------------------------------------------------------- the stored transcript

  /** A step before `k` is the provider's answer with these segments. */
  ghost predicate AnsweredBefore(states: seq<State>, steps: seq<Step>, k: nat, j: JobId, i: nat, key: string,
                                 segments: ProviderSegments)
    requires |states| == |steps| + 1
  {
    exists h: nat {:trigger Answered(states, steps, h, j, i, key, segments)} ::
      h < k && Answered(states, steps, h, j, i, key, segments)
  }

  /** One answer for each chunk of the job, each from a step before `k` that answered a request for that chunk. */
  ghost predicate AnswersOf(states: seq<State>, steps: seq<Step>, k: nat, j: JobId, answers: seq<ProviderSegments>)
    requires |states| == |steps| + 1 && k <= |steps| && j in states[k].db.jobs
  {
    && |answers| == |states[k].db.jobs[j].chunks|
    && forall i {:trigger answers[i]} :: 0 <= i < |answers| ==>
         AnsweredBefore(states, steps, k, j, i, states[k].db.jobs[j].chunks[i].objectKey, answers[i])
  }

  /** The item is a segment of the answer for some chunk, at its source time by the chunk's own time map. */
  ghost predicate FromAnswers(answers: seq<ProviderSegments>, chunks: seq<Chunk>, item: Merger.MergedSegment)
    requires |answers| == |chunks|
  {
    exists i {:trigger answers[i]} ::
      0 <= i < |answers| && MergerTheorems.Provides(answers[i], chunks[i].mappings, item)
  }

  /** Some item has the text, up to normalization. */
  ghost predicate Kept(cfg: Config, items: seq<Merger.MergedSegment>, c: Merger.MergedSegment) {
    exists item {:trigger item in items} :: item in items && cfg.normalize(item.text) == cfg.normalize(c.text)
  }

  /** What the stored transcript of a job is: there is one provider answer for each chunk, given in an earlier step to a
      request for that chunk, such that the items are in order of time, each is a segment of these answers in source
      time, and every segment of them with text is kept. */
  lemma StoredTranscript(cfg: Config, states: seq<State>, steps: seq<Step>, k: nat, j: JobId)
    returns (answers: seq<ProviderSegments>)
    requires IsRun(cfg, states, steps) && k <= |steps|
    requires j in states[k].db.jobs && states[k].db.jobs[j].merged.Some?
    ensures AnswersOf(states, steps, k, j, answers)
    ensures var items, chunks := states[k].db.jobs[j].merged.value, states[k].db.jobs[j].chunks;
            && Sorting.Sorted(items, Merger.ByTime)
            && MergerTheorems.StartsOrdered(items) && MergerTheorems.TiesOrdered(items)
            && (forall item :: item in items ==> item.text != "" && FromAnswers(answers, chunks, item))
            && (forall c: Merger.MergedSegment {:trigger Kept(cfg, items, c)} ::
                  c.text != "" && FromAnswers(answers, chunks, c) ==> Kept(cfg, items, c))
  {
    answers := AnswersFound(cfg, states, steps, k, j);
    TranscriptOfJob(cfg, states[k].db.jobs[j], answers);
  }

  /** The rows of a merged job hold one earlier answer each. */
  lemma AnswersFound(cfg: Config, states: seq<State>, steps: seq<Step>, k: nat, j: JobId)
    returns (answers: seq<ProviderSegments>)
    requires IsRun(cfg, states, steps) && k <= |steps|
    requires j in states[k].db.jobs && states[k].db.jobs[j].merged.Some?
    ensures AnswersOf(states, steps, k, j, answers)
    ensures states[k].db.jobs[j].merged == Some(TranscriptOf(cfg, states[k].db.jobs[j].chunks))
    ensures forall i {:trigger answers[i]} :: 0 <= i < |answers| ==>
              states[k].db.jobs[j].chunks[i].segments == Some(answers[i])
  {
    TranscriptOnce(cfg, states, steps, k, j);
    var chunks := states[k].db.jobs[j].chunks;
    answers := seq(|chunks|, i requires 0 <= i < |chunks| => Merger.ValueOr(chunks[i].segments, []));
    forall i | 0 <= i < |answers|
      ensures chunks[i].segments == Some(answers[i])
      ensures AnsweredBefore(states, steps, k, j, i, chunks[i].objectKey, answers[i])
    {
      var h := CompletedFromProvider(cfg, states, steps, k, j, i);
      assert Answered(states, steps, h, j, i, chunks[i].objectKey, answers[i]);
    }
  }

  lemma CandidateOfJob(chunks: seq<Chunk>, answers: seq<ProviderSegments>, c: Merger.MergedSegment)
    requires |answers| == |chunks|
    requires forall i {:trigger answers[i]} :: 0 <= i < |answers| ==> chunks[i].segments == Some(answers[i])
    ensures c in Merger.Candidates(Results(chunks)) <==> c.text != "" && FromAnswers(answers, chunks, c)
  {
    var results := Results(chunks);
    MergerTheorems.CandidateOrigin(results, c);
    forall i | 0 <= i < |results|
      ensures MergerTheorems.Provides(results[i].segments, results[i].mappings, c)
         <==> MergerTheorems.Provides(answers[i], chunks[i].mappings, c)
    {
      assert chunks[i].segments == Some(answers[i]);
    }
  }

  lemma ItemsFromAnswers(cfg: Config, chunks: seq<Chunk>, answers: seq<ProviderSegments>,
                         items: seq<Merger.MergedSegment>, item: Merger.MergedSegment)
    requires |answers| == |chunks| && items == TranscriptOf(cfg, chunks) && item in items
    requires forall i {:trigger answers[i]} :: 0 <= i < |answers| ==> chunks[i].segments == Some(answers[i])
    ensures item.text != "" && FromAnswers(answers, chunks, item)
  {
    MergerTheorems.MergedItem(Results(chunks), cfg.normalize, cfg.slack, item);
    CandidateOfJob(chunks, answers, item);
  }

  lemma AnswersAreKept(cfg: Config, chunks: seq<Chunk>, answers: seq<ProviderSegments>,
                       items: seq<Merger.MergedSegment>, c: Merger.MergedSegment)
    requires |answers| == |chunks| && items == TranscriptOf(cfg, chunks)
    requires c.text != "" && FromAnswers(answers, chunks, c)
    requires forall i {:trigger answers[i]} :: 0 <= i < |answers| ==> chunks[i].segments == Some(answers[i])
    ensures Kept(cfg, items, c)
  {
    CandidateOfJob(chunks, answers, c);
    var item := MergerTheorems.SurvivorInAll(Results(chunks), cfg.normalize, cfg.slack, c);
  }

  lemma TranscriptOfJob(cfg: Config, job: Job, answers: seq<ProviderSegments>)
    requires |answers| == |job.chunks| && job.merged == Some(TranscriptOf(cfg, job.chunks))
    requires forall i {:trigger answers[i]} :: 0 <= i < |answers| ==> job.chunks[i].segments == Some(answers[i])
    ensures Sorting.Sorted(job.merged.value, Merger.ByTime)
    ensures MergerTheorems.StartsOrdered(job.merged.value) && MergerTheorems.TiesOrdered(job.merged.value)
    ensures forall item :: item in job.merged.value ==> item.text != "" && FromAnswers(answers, job.chunks, item)
    ensures forall c: Merger.MergedSegment {:trigger Kept(cfg, job.merged.value, c)} ::
              c.text != "" && FromAnswers(answers, job.chunks, c) ==> Kept(cfg, job.merged.value, c)
  {
    var items := job.merged.value;
    MergerTheorems.MergedOrder(Results(job.chunks), cfg.normalize, cfg.slack, items);
    forall item | item in items ensures item.text != "" && FromAnswers(answers, job.chunks, item) {
      ItemsFromAnswers(cfg, job.chunks, answers, items, item);
    }
    forall c: Merger.MergedSegment | c.text != "" && FromAnswers(answers, job.chunks, c) ensures Kept(cfg, items, c) {
      AnswersAreKept(cfg, job.chunks, answers, items, c);
    }
  }
}
