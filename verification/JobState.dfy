/** The declared status tables of jobs and chunks (app/services/job_state.py). */
module JobState {

  datatype JobStatus =
    | Queued | Preprocessing | Transcribing | Merging | TranscriptCompleted
    | Correcting | CorrectionCompleted | JobFailed | JobCancelled

  datatype ChunkStatus =
    | Pending | Processing | RetryWait | ChunkCompleted | ChunkFailed | ChunkCancelled

  function JobTransitions(current: JobStatus): set<JobStatus> {
    match current
    case Queued => {Preprocessing, JobCancelled, JobFailed}
    case Preprocessing => {Transcribing, JobCancelled, JobFailed}
    case Transcribing => {Merging, JobCancelled, JobFailed}
    case Merging => {TranscriptCompleted, JobFailed}
    case TranscriptCompleted => {Correcting, JobFailed}
    case Correcting => {CorrectionCompleted, JobFailed}
    case CorrectionCompleted => {}
    case JobFailed => {Queued}
    case JobCancelled => {}
  }

  function ChunkTransitions(current: ChunkStatus): set<ChunkStatus> {
    match current
    case Pending => {Processing, ChunkCancelled}
    case Processing => {ChunkCompleted, RetryWait, ChunkFailed, ChunkCancelled}
    case RetryWait => {Pending, ChunkCancelled, ChunkFailed}
    case ChunkCompleted => {}
    case ChunkFailed => {Pending}
    case ChunkCancelled => {}
  }

  /** A walk along the job table that never uses the operator's requeue edge out of `JobFailed`.
      Without that restriction almost every pair of statuses would be connected. */
  ghost predicate JobPath(path: seq<JobStatus>) {
    && |path| > 0
    && forall k :: 0 <= k < |path| - 1 ==> !path[k].JobFailed? && path[k + 1] in JobTransitions(path[k])
  }

  /** `b` is reached from `a` by a possibly empty declared walk. */
  ghost predicate JobReaches(a: JobStatus, b: JobStatus) {
    exists path :: JobPath(path) && path[0] == a && path[|path| - 1] == b
  }

  /** The same for chunks; the requeue edge out of `ChunkFailed` is not used. */
  ghost predicate ChunkPath(path: seq<ChunkStatus>) {
    && |path| > 0
    && forall k :: 0 <= k < |path| - 1 ==> !path[k].ChunkFailed? && path[k + 1] in ChunkTransitions(path[k])
  }

  ghost predicate ChunkReaches(a: ChunkStatus, b: ChunkStatus) {
    exists path :: ChunkPath(path) && path[0] == a && path[|path| - 1] == b
  }

  /** Witnesses for the declared walks the services take. */
  lemma JobStays(a: JobStatus)
    ensures JobReaches(a, a)
  {
    assert JobPath([a]);
  }

  lemma JobEdge(a: JobStatus, b: JobStatus)
    requires !a.JobFailed? && b in JobTransitions(a)
    ensures JobReaches(a, b)
  {
    assert JobPath([a, b]);
  }

  lemma JobTwoEdges(a: JobStatus, b: JobStatus, c: JobStatus)
    requires !a.JobFailed? && b in JobTransitions(a) && !b.JobFailed? && c in JobTransitions(b)
    ensures JobReaches(a, c)
  {
    assert JobPath([a, b, c]);
  }

  /** Nothing else is declared to leave `JobFailed` or `CorrectionCompleted`. */
  lemma JobSinks(a: JobStatus, b: JobStatus)
    requires a.JobFailed? || a.CorrectionCompleted?
    requires JobReaches(a, b)
    ensures a == b
  {
    var path :| JobPath(path) && path[0] == a && path[|path| - 1] == b;
    assert |path| > 1 ==> path[0 + 1] in JobTransitions(path[0]);
  }

  lemma ChunkStays(a: ChunkStatus)
    ensures ChunkReaches(a, a)
  {
    assert ChunkPath([a]);
  }

  lemma ChunkEdge(a: ChunkStatus, b: ChunkStatus)
    requires !a.ChunkFailed? && b in ChunkTransitions(a)
    ensures ChunkReaches(a, b)
  {
    assert ChunkPath([a, b]);
  }

  lemma ChunkTwoEdges(a: ChunkStatus, b: ChunkStatus, c: ChunkStatus)
    requires !a.ChunkFailed? && b in ChunkTransitions(a) && !b.ChunkFailed? && c in ChunkTransitions(b)
    ensures ChunkReaches(a, c)
  {
    assert ChunkPath([a, b, c]);
  }

  /** The statuses of a job that is never in trouble, in order. */
  const WHOLE_WALK :=
    [Queued, Preprocessing, Transcribing, Merging, TranscriptCompleted, Correcting, CorrectionCompleted]

  lemma {:induction false} OnWholeWalk(path: seq<JobStatus>, k: nat)
    requires JobPath(path) && path[0].Queued? && path[|path| - 1].CorrectionCompleted? && k < |path|
    ensures k < |WHOLE_WALK| && path[k] == WHOLE_WALK[k]
  {
    if k > 0 {
      var h := k - 1;
      OnWholeWalk(path, h);
      assert path[k] in JobTransitions(path[h]);
      if k < |path| - 1 {
        assert !path[k].JobFailed? && path[k + 1] in JobTransitions(path[k]);
      }
    }
  }

  /** A queued job is corrected by one declared walk only: no status of it can be left out. */
  lemma OneWholeWalk(path: seq<JobStatus>)
    requires JobPath(path) && path[0].Queued?
    ensures path[|path| - 1].CorrectionCompleted? <==> path == WHOLE_WALK
  {
    if path[|path| - 1].CorrectionCompleted? {
      OnWholeWalk(path, |path| - 1);
      forall k | 0 <= k < |path| ensures path[k] == WHOLE_WALK[k] {
        OnWholeWalk(path, k);
      }
      assert |path| == |WHOLE_WALK|;
    }
  }

  /** A chunk gets its last status only while it is processed, or gives up while it waits. */
  lemma ChunkSettles(path: seq<ChunkStatus>)
    requires ChunkPath(path) && |path| > 1
    ensures path[|path| - 1].ChunkCompleted? ==> path[|path| - 2].Processing?
    ensures path[|path| - 1].ChunkFailed? ==> path[|path| - 2].Processing? || path[|path| - 2].RetryWait?
    ensures path[|path| - 1].Processing? ==> path[|path| - 2].Pending?
  {
    assert path[|path| - 1] in ChunkTransitions(path[|path| - 2]);
  }
}
