/**
 The service as a step system: any number of orchestrators, publishers, CLOVA workers and correction workers over one
 ledger and redelivering streams. Every database transaction is one step; everything between two transactions of a
 worker (provider calls, uploads, stale reads of the inbox) leaves room for any other step.
 */
module Pipeline {
  import opened Options
  import opened Ledger
  import opened Transactions

  type MsgId = nat

  /** What a busy worker is about to do. `event` is the event of message `msg`, decoded into `r` or `j`. */
  datatype Activity =
    | Delivered(msg: MsgId, event: EventId, r: Request)
    | ClaimChecked(msg: MsgId, event: EventId, r: Request, claimedAt: int)
    | CallingProvider(msg: MsgId, event: EventId, r: Request)
    | HasTranscript(msg: MsgId, event: EventId, r: Request, segments: ProviderSegments)
    | HasError(msg: MsgId, event: EventId, r: Request, retryable: bool)
    | ChunkDone(msg: MsgId, event: EventId)
    | CorrectionDelivered(msg: MsgId, event: EventId, j: JobId)
    | CorrectionChecked(msg: MsgId, event: EventId, j: JobId)
    | BuildingCorrection(msg: MsgId, event: EventId, j: JobId)
    | HasCorrection(msg: MsgId, event: EventId, j: JobId, version: string)
    | CorrectionRechecked(msg: MsgId, event: EventId, j: JobId, version: string)
    | HasCorrectionError(msg: MsgId, event: EventId, j: JobId, retryable: bool)
    | ErrorChecked(msg: MsgId, event: EventId, j: JobId, retryable: bool)
    | CorrectionDone(msg: MsgId, event: EventId)

  /** `messages` logs every stream entry ever added; an entry outside `acked` can be delivered again at any time. */
  datatype State = State(
    db: Db,
    messages: map<MsgId, EventId>,
    acked: set<MsgId>,
    workers: map<WorkerId, Activity>,
    now: int)

  datatype Outcome = Transcript(segments: ProviderSegments) | Failure(retryable: bool)

  datatype Step =
    // orchestrator
    | EnsureJobStep(j: JobId)
    | PreprocessStep(j: JobId, event: EventId, uploads: seq<Upload>, ids: seq<EventId>)
    | MarkFailedStep(j: JobId)
    // outbox publisher: the stream write and the row update are separate, a crash may come between
    | AddToStream(event: EventId, msg: MsgId)
    | MarkPublished(event: EventId)
    | PublishFailed(event: EventId)
    // CLOVA worker
    | Deliver(w: WorkerId, msg: MsgId)
    | CheckInbox(w: WorkerId, claimedAt: int)
    | ClaimStep(w: WorkerId)
    | ProviderStep(w: WorkerId, outcome: Outcome)
    | CommitSuccess(w: WorkerId, readyId: EventId, progressId: EventId)
    | CommitFailure(w: WorkerId, availableAt: int, newId: EventId, progressId: EventId)
    // correction worker
    | CheckCorrection(w: WorkerId)
    | BeginStep(w: WorkerId)
    | BuildStep(w: WorkerId, version: string)
    | RecheckCorrection(w: WorkerId)
    | SaveStep(w: WorkerId, finishedId: EventId)
    | RaiseStep(w: WorkerId, retryable: bool)
    | CheckError(w: WorkerId)
    | RecordStep(w: WorkerId, deadId: EventId, progressId: EventId)
    // both worker loops
    | Acknowledge(w: WorkerId)
    | Crash(w: WorkerId)
    | Tick(elapsed: nat)

  const INIT := State(Db(map[], map[], {}), map[], {}, map[], 0)

  predicate Fresh(s: State, e: EventId) {
    e !in s.db.outbox
  }

  predicate IsRequestRow(row: Row) {
    row.topic.ChunkRequested? && row.payload.RequestPayload?
  }

  predicate InStream(s: State, e: EventId) {
    exists m :: m in s.messages && s.messages[m] == e
  }

  predicate Enabled(s: State, step: Step) {
    match step
    case EnsureJobStep(_) => true
    case PreprocessStep(_, _, uploads, ids) =>
      // the segmenter raises when it finds no speech, so there is at least one chunk
      |ids| == |uploads| > 0 && Distinct(ids) && forall e :: e in ids ==> Fresh(s, e)
    case MarkFailedStep(_) => true
    case AddToStream(e, m) =>
      e in s.db.outbox && s.db.outbox[e].publishedAt.None? && s.db.outbox[e].availableAt <= s.now && m !in s.messages
    case MarkPublished(e) => e in s.db.outbox && s.db.outbox[e].publishedAt.None? && InStream(s, e)
    case PublishFailed(e) => e in s.db.outbox && s.db.outbox[e].publishedAt.None?
    case Deliver(w, m) =>
      && w !in s.workers && m in s.messages && m !in s.acked && s.messages[m] in s.db.outbox
      && var row := s.db.outbox[s.messages[m]]; IsRequestRow(row) || row.topic.TranscriptReady?
    case CheckInbox(w, claimedAt) => w in s.workers && s.workers[w].Delivered? && claimedAt <= s.now
    case ClaimStep(w) => w in s.workers && s.workers[w].ClaimChecked?
    case ProviderStep(w, _) => w in s.workers && s.workers[w].CallingProvider?
    case CommitSuccess(w, readyId, progressId) =>
      && w in s.workers && s.workers[w].HasTranscript?
      && Fresh(s, readyId) && Fresh(s, progressId) && readyId != progressId
    case CommitFailure(w, _, newId, progressId) =>
      && w in s.workers && s.workers[w].HasError?
      && Fresh(s, newId) && Fresh(s, progressId) && newId != progressId
    case CheckCorrection(w) => w in s.workers && s.workers[w].CorrectionDelivered?
    case BeginStep(w) => w in s.workers && s.workers[w].CorrectionChecked?
    case BuildStep(w, _) => w in s.workers && s.workers[w].BuildingCorrection?
    case RecheckCorrection(w) => w in s.workers && s.workers[w].HasCorrection?
    case SaveStep(w, finishedId) => w in s.workers && s.workers[w].CorrectionRechecked? && Fresh(s, finishedId)
    case RaiseStep(w, _) =>
      && w in s.workers
      && (s.workers[w].CorrectionDelivered? || s.workers[w].CorrectionChecked? || s.workers[w].BuildingCorrection?
          || s.workers[w].HasCorrection? || s.workers[w].CorrectionRechecked?)
    case CheckError(w) => w in s.workers && s.workers[w].HasCorrectionError?
    case RecordStep(w, deadId, progressId) =>
      && w in s.workers && s.workers[w].ErrorChecked?
      && Fresh(s, deadId) && Fresh(s, progressId) && deadId != progressId
    case Acknowledge(w) => w in s.workers && (s.workers[w].ChunkDone? || s.workers[w].CorrectionDone?)
    case Crash(w) => w in s.workers
    case Tick(_) => true
  }

  /** The worker moves on to `a`. */
  function Goto(s: State, w: WorkerId, a: Activity): State {
    s.(workers := s.workers[w := a])
  }

  /** The worker drops its message without acknowledging it. */
  function Drop(s: State, w: WorkerId): State {
    s.(workers := s.workers - {w})
  }

  function Republish(db: Db, e: EventId, row: Row): Db {
    db.(outbox := db.outbox[e := row])
  }

  // ---------------------------------------------------------------- CLOVA worker

  function AfterDeliver(s: State, w: WorkerId, m: MsgId): State
    requires Enabled(s, Deliver(w, m))
  {
    var e := s.messages[m];
    var row := s.db.outbox[e];
    Goto(s, w, if row.topic.TranscriptReady? then CorrectionDelivered(m, e, row.topic.job)
               else Delivered(m, e, Request(row.topic.job, row.topic.index, row.payload.objectKey)))
  }

  /** The inbox check of `_claim`; `claimed_at` was read some time before. */
  function AfterCheckInbox(s: State, w: WorkerId, claimedAt: int): State
    requires w in s.workers && s.workers[w].Delivered?
  {
    var a := s.workers[w];
    Goto(s, w, if (ClovaWorkers, a.event) in s.db.inbox then ChunkDone(a.msg, a.event)
               else ClaimChecked(a.msg, a.event, a.r, claimedAt))
  }

  function AfterClaim(cfg: Config, s: State, w: WorkerId): State
    requires w in s.workers && s.workers[w].ClaimChecked?
  {
    var a := s.workers[w];
    match ClaimChunk(cfg, s.db, a.r, a.event, w, a.claimedAt)
    case Claimed(d) => Goto(s.(db := d), w, CallingProvider(a.msg, a.event, a.r))
    case NothingToDo(d) => Goto(s.(db := d), w, ChunkDone(a.msg, a.event))
    case ClaimRaised(_) => Drop(s, w)
  }

  function AfterProvider(s: State, w: WorkerId, outcome: Outcome): State
    requires w in s.workers && s.workers[w].CallingProvider?
  {
    var a := s.workers[w];
    Goto(s, w, match outcome
               case Transcript(segments) => HasTranscript(a.msg, a.event, a.r, segments)
               case Failure(retryable) => HasError(a.msg, a.event, a.r, retryable))
  }

  /** A worker whose transaction returned is done; one whose transaction raised drops its message. */
  function AfterTx(s: State, w: WorkerId, tx: Tx): State
    requires w in s.workers
  {
    match tx
    case Committed(d) => Goto(s.(db := d), w, ChunkDone(s.workers[w].msg, s.workers[w].event))
    case RolledBack(_) => Drop(s, w)
  }

  // ---------------------------------------------------------------- correction worker

  /** Any of the three inbox reads: the event is done if processed, else the worker goes on as `next`. */
  function AfterInboxRead(s: State, w: WorkerId, next: Activity): State
    requires w in s.workers
  {
    var a := s.workers[w];
    Goto(s, w, if (CorrectionWorkers, a.event) in s.db.inbox then CorrectionDone(a.msg, a.event) else next)
  }

  function AfterBegin(s: State, w: WorkerId): State
    requires w in s.workers && s.workers[w].CorrectionChecked?
  {
    var a := s.workers[w];
    match BeginCorrection(s.db, a.j, a.event)
    case Started(d) => Goto(s.(db := d), w, BuildingCorrection(a.msg, a.event, a.j))
    case AlreadyCorrected(d) => Goto(s.(db := d), w, CorrectionDone(a.msg, a.event))
    case BeginRaised(_) => Goto(s, w, HasCorrectionError(a.msg, a.event, a.j, false))
  }

  /** A raised transaction is not an `SttError`, hence not retryable. */
  function AfterSave(s: State, w: WorkerId, j: JobId, tx: Tx): State
    requires w in s.workers
  {
    var a := s.workers[w];
    match tx
    case Committed(d) => Goto(s.(db := d), w, CorrectionDone(a.msg, a.event))
    case RolledBack(_) => Goto(s, w, HasCorrectionError(a.msg, a.event, j, false))
  }

  /** A failure that will be retried leaves the message unacknowledged; a raise ends the worker process. */
  function AfterRecord(s: State, w: WorkerId, recorded: Recorded): State
    requires w in s.workers
  {
    match recorded
    case WillRetry(d) => Drop(s.(db := d), w)
    case GaveUp(d) => Goto(s.(db := d), w, CorrectionDone(s.workers[w].msg, s.workers[w].event))
    case RecordRaised(_) => Drop(s, w)
  }

  // ---------------------------------------------------------------- the step function

  function Next(cfg: Config, s: State, step: Step): State
    requires Enabled(s, step)
  {
    match step
    case EnsureJobStep(j) => s.(db := EnsureJob(s.db, j))
    case PreprocessStep(j, e, uploads, ids) =>
      var tx := Preprocess(s.db, j, e, uploads, ids, s.now);
      if tx.Committed? then s.(db := tx.db) else s
    case MarkFailedStep(j) => s.(db := MarkFailed(s.db, j))
    case AddToStream(e, m) => s.(messages := s.messages[m := e])
    case MarkPublished(e) => s.(db := Republish(s.db, e, s.db.outbox[e].(publishedAt := Some(s.now))))
    case PublishFailed(e) => s.(db := Republish(s.db, e, s.db.outbox[e].(attempts := s.db.outbox[e].attempts + 1)))
    case Deliver(w, m) => AfterDeliver(s, w, m)
    case CheckInbox(w, claimedAt) => AfterCheckInbox(s, w, claimedAt)
    case ClaimStep(w) => AfterClaim(cfg, s, w)
    case ProviderStep(w, outcome) => AfterProvider(s, w, outcome)
    case CommitSuccess(w, readyId, progressId) =>
      var a := s.workers[w];
      AfterTx(s, w, RecordSuccess(cfg, s.db, a.r, a.event, a.segments, readyId, progressId, s.now))
    case CommitFailure(w, availableAt, newId, progressId) =>
      var a := s.workers[w];
      AfterTx(s, w, RecordFailure(cfg, s.db, a.r, a.event, a.retryable, availableAt, newId, progressId, s.now))
    case CheckCorrection(w) =>
      var a := s.workers[w];
      AfterInboxRead(s, w, CorrectionChecked(a.msg, a.event, a.j))
    case BeginStep(w) => AfterBegin(s, w)
    case BuildStep(w, version) =>
      var a := s.workers[w];
      Goto(s, w, HasCorrection(a.msg, a.event, a.j, version))
    case RecheckCorrection(w) =>
      var a := s.workers[w];
      AfterInboxRead(s, w, CorrectionRechecked(a.msg, a.event, a.j, a.version))
    case SaveStep(w, finishedId) =>
      var a := s.workers[w];
      AfterSave(s, w, a.j, SaveCorrection(s.db, a.j, a.event, a.version, finishedId, s.now))
    case RaiseStep(w, retryable) =>
      var a := s.workers[w];
      Goto(s, w, HasCorrectionError(a.msg, a.event, a.j, retryable))
    case CheckError(w) =>
      var a := s.workers[w];
      AfterInboxRead(s, w, ErrorChecked(a.msg, a.event, a.j, a.retryable))
    case RecordStep(w, deadId, progressId) =>
      var a := s.workers[w];
      AfterRecord(s, w, FailCorrection(cfg, s.db, a.j, a.event, a.retryable, deadId, progressId, s.now))
    case Acknowledge(w) => Drop(s.(acked := s.acked + {s.workers[w].msg}), w)
    case Crash(w) => Drop(s, w)
    case Tick(elapsed) => s.(now := s.now + elapsed)
  }

  /** A run: a sequence of enabled steps from the empty service. `states` has one more element than `steps`. */
  ghost predicate IsRun(cfg: Config, states: seq<State>, steps: seq<Step>) {
    && |states| == |steps| + 1
    && states[0] == INIT
    && forall k {:trigger StepAt(cfg, states, steps, k)} :: 0 <= k < |steps| ==> StepAt(cfg, states, steps, k)
  }

  ghost predicate StepAt(cfg: Config, states: seq<State>, steps: seq<Step>, k: nat)
    requires k < |steps| < |states|
  {
    Enabled(states[k], steps[k]) && states[k + 1] == Next(cfg, states[k], steps[k])
  }
}
