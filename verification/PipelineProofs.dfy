/**
 The invariant of the whole system: ledger, streams and in-flight workers; every step keeps it.

 - A worker that holds a claim works on a chunk in `processing`, unless its event has been processed meanwhile. Nothing
   compares lease owners, so several workers can be in that position for one chunk.
 - The event of an acknowledged message has been processed by the group that reads its stream.
 - A published event is in the stream, perhaps several times.
 - A committed transaction of one worker keeps what every other worker relies on, because events and inbox keys are
   never removed and a chunk leaves `processing` only together with the mark on its one live event.
 */
module PipelineProofs {
  import opened Ledger
  import opened Transactions
  import opened LedgerInvariant
  import opened ClovaProofs
  import opened CorrectionProofs
  import opened Commits
  import opened Pipeline

  ghost predicate ActivityOk(db: Db, a: Activity) {
    match a
    case Delivered(_, e, r) => Carries(db.outbox, e, r)
    case ClaimChecked(_, e, r, _) => Carries(db.outbox, e, r)
    case CallingProvider(_, e, r) => Holds(db, e, r)
    case HasTranscript(_, e, r, _) => Holds(db, e, r)
    case HasError(_, e, r, _) => Holds(db, e, r)
    case ChunkDone(_, e) => e in db.outbox && db.outbox[e].topic.ChunkRequested? && (ClovaWorkers, e) in db.inbox
    case CorrectionDelivered(_, e, j) => Announces(db.outbox, e, j)
    case CorrectionChecked(_, e, j) => Announces(db.outbox, e, j)
    case BuildingCorrection(_, e, j) => Announces(db.outbox, e, j)
    case HasCorrection(_, e, j, _) => Announces(db.outbox, e, j)
    case CorrectionRechecked(_, e, j, _) => Announces(db.outbox, e, j)
    case HasCorrectionError(_, e, j, _) => Announces(db.outbox, e, j)
    case ErrorChecked(_, e, j, _) => Announces(db.outbox, e, j)
    case CorrectionDone(_, e) =>
      e in db.outbox && db.outbox[e].topic.TranscriptReady? && (CorrectionWorkers, e) in db.inbox
  }

  /** The event of an acknowledged message has been processed by the group that reads its stream. */
  ghost predicate Handled(db: Db, e: EventId) {
    && e in db.outbox
    && (db.outbox[e].topic.ChunkRequested? ==> (ClovaWorkers, e) in db.inbox)
    && (db.outbox[e].topic.TranscriptReady? ==> (CorrectionWorkers, e) in db.inbox)
  }

  ghost predicate WorkersOk(s: State) {
    forall w {:trigger s.workers[w]} :: w in s.workers ==>
      && ActivityOk(s.db, s.workers[w])
      && s.workers[w].msg in s.messages && s.messages[s.workers[w].msg] == s.workers[w].event
  }

  ghost predicate StreamsOk(s: State) {
    && (forall m {:trigger s.messages[m]} :: m in s.messages ==> s.messages[m] in s.db.outbox)
    && (forall m {:trigger m in s.acked} :: m in s.acked ==> m in s.messages && Handled(s.db, s.messages[m]))
    && (forall e {:trigger InStream(s, e)} ::
          e in s.db.outbox && s.db.outbox[e].publishedAt.Some? ==> InStream(s, e))
  }

  ghost predicate Inv(cfg: Config, s: State) {
    DbInv(cfg, s.db) && WorkersOk(s) && StreamsOk(s)
  }

  // ---------------------------------------------------------------- stability under other transactions

  lemma ActivityStable(db: Db, db': Db, a: Activity)
    requires Advances(db, db') && ActivityOk(db, a)
    ensures ActivityOk(db', a)
  {
    assert a.event in db.outbox;
    assert SameEvent(db.outbox, db'.outbox, a.event);
    if a.CallingProvider? || a.HasTranscript? || a.HasError? {
      assert Carries(db.outbox, a.event, a.r);
    }
  }

  /** A committed transaction of worker `w` (or of nobody) keeps what every other worker relies on. */
  lemma DbStepKeepsRest(cfg: Config, s: State, s': State, w: WorkerId)
    requires Inv(cfg, s) && DbInv(cfg, s'.db)
    requires Advances(s.db, s'.db) && PublishingKept(s.db, s'.db)
    requires s'.messages == s.messages && s'.acked == s.acked
    requires forall v :: v in s'.workers && v != w ==> v in s.workers && s'.workers[v] == s.workers[v]
    requires w in s'.workers ==>
               && ActivityOk(s'.db, s'.workers[w])
               && s'.workers[w].msg in s.messages && s.messages[s'.workers[w].msg] == s'.workers[w].event
    ensures Inv(cfg, s')
  {
    forall v | v in s'.workers ensures ActivityOk(s'.db, s'.workers[v]) {
      if v != w {
        assert s.workers[v] == s'.workers[v];
        ActivityStable(s.db, s'.db, s.workers[v]);
      }
    }
    forall m | m in s.messages ensures s.messages[m] in s'.db.outbox {
      assert s.messages[m] in s.db.outbox;
      assert SameEvent(s.db.outbox, s'.db.outbox, s.messages[m]);
    }
    forall m | m in s.acked ensures Handled(s'.db, s.messages[m]) {
      assert Handled(s.db, s.messages[m]);
      assert SameEvent(s.db.outbox, s'.db.outbox, s.messages[m]);
    }
    forall e | e in s'.db.outbox && s'.db.outbox[e].publishedAt.Some? ensures InStream(s', e) {
      assert InStream(s, e);
    }
  }

  /** A step that only moves worker `w`. */
  lemma MoveKeepsInv(cfg: Config, s: State, s': State, w: WorkerId)
    requires Inv(cfg, s)
    requires s'.db == s.db && s'.messages == s.messages && s'.acked == s.acked
    requires forall v :: v in s'.workers && v != w ==> v in s.workers && s'.workers[v] == s.workers[v]
    requires w in s'.workers ==>
               && ActivityOk(s'.db, s'.workers[w])
               && s'.workers[w].msg in s.messages && s.messages[s'.workers[w].msg] == s'.workers[w].event
    ensures Inv(cfg, s')
  {
    forall v | v in s'.workers ensures ActivityOk(s'.db, s'.workers[v]) {
      if v != w {
        assert s.workers[v] == s'.workers[v];
      }
    }
    forall e | e in s'.db.outbox && s'.db.outbox[e].publishedAt.Some? ensures InStream(s', e) {
      assert InStream(s, e);
    }
  }

  lemma WorkerOk(s: State, w: WorkerId)
    requires WorkersOk(s) && w in s.workers
    ensures ActivityOk(s.db, s.workers[w])
    ensures s.workers[w].msg in s.messages && s.messages[s.workers[w].msg] == s.workers[w].event
  {
  }

  // ---------------------------------------------------------------- publishing

  /** The publisher only touches publication fields of a row. */
  ghost predicate Republished(db: Db, db': Db, e: EventId) {
    && e in db.outbox
    && db'.jobs == db.jobs && db'.inbox == db.inbox
    && db'.outbox.Keys == db.outbox.Keys
    && (forall f :: f in db.outbox && f != e ==> db'.outbox[f] == db.outbox[f])
    && SameEvent(db.outbox, db'.outbox, e)
  }

  lemma RepublishedOf(db: Db, db': Db, e: EventId, t: Topic)
    requires Republished(db, db', e)
    ensures Of(db'.outbox, t) == Of(db.outbox, t)
  {
  }

  lemma RepublishKeepsJob(cfg: Config, db: Db, db': Db, e: EventId, j: JobId)
    requires Republished(db, db', e) && j in db.jobs && JobInv(cfg, db, j)
    ensures JobInv(cfg, db', j)
  {
    RepublishedOf(db, db', e, TranscriptReady(j));
    RepublishedOf(db, db', e, Finished(j));
    RepublishedOf(db, db', e, CorrectionDead(j));
    assert Settled(db', j) == Settled(db, j);
    forall i | 0 <= i < |db.jobs[j].chunks| ensures RequestsOk(db', j, i, db.jobs[j].chunks[i]) {
      assert RequestsOk(db, j, i, db.jobs[j].chunks[i]);
      RepublishedOf(db, db', e, ChunkRequested(j, i));
      assert Live(db', j, i) == Live(db, j, i);
    }
  }

  lemma RepublishKeepsRows(db: Db, db': Db, e: EventId)
    requires Republished(db, db', e)
    requires forall f {:trigger RowOk(db.jobs, db.outbox[f])} :: f in db.outbox ==> RowOk(db.jobs, db.outbox[f])
    ensures forall f {:trigger RowOk(db.jobs, db'.outbox[f])} :: f in db'.outbox ==> RowOk(db.jobs, db'.outbox[f])
  {
    forall f | f in db'.outbox ensures RowOk(db.jobs, db'.outbox[f]) {
      assert RowOk(db.jobs, db.outbox[f]);
      assert db'.outbox[f].topic == db.outbox[f].topic && db'.outbox[f].payload == db.outbox[f].payload;
      SameRowOk(db.jobs, db.outbox[f], db'.outbox[f]);
    }
  }

  lemma RepublishKeepsMarks(db: Db, db': Db, e: EventId)
    requires Republished(db, db', e)
    requires forall key {:trigger MarkOk(db.outbox, key)} :: key in db.inbox ==> MarkOk(db.outbox, key)
    ensures forall key {:trigger MarkOk(db'.outbox, key)} :: key in db'.inbox ==> MarkOk(db'.outbox, key)
  {
    forall key | key in db'.inbox ensures MarkOk(db'.outbox, key) {
      assert MarkOk(db.outbox, key);
    }
  }

  lemma RepublishKeepsInvariant(cfg: Config, db: Db, db': Db, e: EventId)
    requires DbInv(cfg, db) && Republished(db, db', e)
    ensures DbInv(cfg, db')
  {
    RepublishKeepsRows(db, db', e);
    RepublishKeepsMarks(db, db', e);
    forall j | j in db'.jobs ensures JobInv(cfg, db', j) {
      RepublishKeepsJob(cfg, db, db', e, j);
    }
  }

  lemma SameRowOk(jobs: map<JobId, Job>, a: Row, b: Row)
    requires RowOk(jobs, a) && a.topic == b.topic && a.payload == b.payload
    ensures RowOk(jobs, b)
  {
  }

  lemma RepublishKeepsInv(cfg: Config, s: State, s': State, e: EventId)
    requires Inv(cfg, s) && Republished(s.db, s'.db, e)
    requires s'.db.outbox[e].publishedAt.Some? ==> InStream(s, e)
    requires s'.messages == s.messages && s'.acked == s.acked && s'.workers == s.workers
    ensures Inv(cfg, s')
  {
    RepublishKeepsInvariant(cfg, s.db, s'.db, e);
    forall v | v in s'.workers ensures ActivityOk(s'.db, s'.workers[v]) {
      assert ActivityOk(s.db, s.workers[v]);
    }
    forall m | m in s.acked ensures Handled(s'.db, s.messages[m]) {
      assert Handled(s.db, s.messages[m]);
    }
    forall f | f in s'.db.outbox && s'.db.outbox[f].publishedAt.Some? ensures InStream(s', f) {
      assert InStream(s, f);
    }
  }

  // ---------------------------------------------------------------- streams

  lemma AddKeepsInv(cfg: Config, s: State, e: EventId, m: MsgId)
    requires Inv(cfg, s) && e in s.db.outbox && m !in s.messages
    ensures Inv(cfg, s.(messages := s.messages[m := e]))
  {
    var s' := s.(messages := s.messages[m := e]);
    forall v | v in s'.workers
      ensures ActivityOk(s'.db, s'.workers[v]) && s'.workers[v].msg in s'.messages
              && s'.messages[s'.workers[v].msg] == s'.workers[v].event
    {
      assert ActivityOk(s.db, s.workers[v]);
    }
    forall k | k in s'.acked ensures k in s'.messages && Handled(s'.db, s'.messages[k]) {
      assert Handled(s.db, s.messages[k]);
    }
    forall f | f in s'.db.outbox && s'.db.outbox[f].publishedAt.Some? ensures InStream(s', f) {
      assert InStream(s, f);
      var k :| k in s.messages && s.messages[k] == f;
      assert k in s'.messages && s'.messages[k] == f;
    }
  }

  lemma AcknowledgeKeepsInv(cfg: Config, s: State, w: WorkerId)
    requires Inv(cfg, s) && Enabled(s, Acknowledge(w))
    ensures Inv(cfg, Next(cfg, s, Acknowledge(w)))
  {
    var s' := Next(cfg, s, Acknowledge(w));
    WorkerOk(s, w);
    forall v | v in s'.workers ensures ActivityOk(s'.db, s'.workers[v]) {
      assert s'.workers[v] == s.workers[v];
    }
    forall k | k in s'.acked ensures k in s'.messages && Handled(s'.db, s'.messages[k]) {
      if k != s.workers[w].msg {
        assert k in s.acked;
      }
    }
    forall f | f in s'.db.outbox && s'.db.outbox[f].publishedAt.Some? ensures InStream(s', f) {
      assert InStream(s, f);
    }
  }

  // ---------------------------------------------------------------- worker steps

  lemma DeliverKeepsInv(cfg: Config, s: State, w: WorkerId, m: MsgId)
    requires Inv(cfg, s) && Enabled(s, Deliver(w, m))
    ensures Inv(cfg, AfterDeliver(s, w, m))
  {
    MoveKeepsInv(cfg, s, AfterDeliver(s, w, m), w);
  }

  /** A worker that goes on with the same message and event. */
  lemma GotoKeepsInv(cfg: Config, s: State, w: WorkerId, a: Activity)
    requires Inv(cfg, s) && w in s.workers
    requires a.msg == s.workers[w].msg && a.event == s.workers[w].event && ActivityOk(s.db, a)
    ensures Inv(cfg, Goto(s, w, a))
  {
    WorkerOk(s, w);
    MoveKeepsInv(cfg, s, Goto(s, w, a), w);
  }

  lemma DropKeepsInv(cfg: Config, s: State, w: WorkerId)
    requires Inv(cfg, s)
    ensures Inv(cfg, Drop(s, w))
  {
    MoveKeepsInv(cfg, s, Drop(s, w), w);
  }

  /** A worker that commits `db'` and goes on with the same message and event. */
  lemma CommitKeepsInv(cfg: Config, s: State, db': Db, w: WorkerId, a: Activity)
    requires Inv(cfg, s) && w in s.workers
    requires DbInv(cfg, db') && Advances(s.db, db') && PublishingKept(s.db, db')
    requires a.msg == s.workers[w].msg && a.event == s.workers[w].event && ActivityOk(db', a)
    ensures Inv(cfg, Goto(s.(db := db'), w, a))
  {
    WorkerOk(s, w);
    DbStepKeepsRest(cfg, s, Goto(s.(db := db'), w, a), w);
  }

  lemma CommitAndDropKeepsInv(cfg: Config, s: State, db': Db, w: WorkerId)
    requires Inv(cfg, s)
    requires DbInv(cfg, db') && Advances(s.db, db') && PublishingKept(s.db, db')
    ensures Inv(cfg, Drop(s.(db := db'), w))
  {
    DbStepKeepsRest(cfg, s, Drop(s.(db := db'), w), w);
  }

  /** The worker's event keeps its type, so a marked event makes `ChunkDone` or `CorrectionDone` sound. */
  lemma MarkedIsDone(db: Db, db': Db, msg: MsgId, e: EventId)
    requires Advances(db, db') && e in db.outbox
    ensures db.outbox[e].topic.ChunkRequested? && (ClovaWorkers, e) in db'.inbox ==> ActivityOk(db', ChunkDone(msg, e))
    ensures db.outbox[e].topic.TranscriptReady? && (CorrectionWorkers, e) in db'.inbox ==>
              ActivityOk(db', CorrectionDone(msg, e))
  {
    assert SameEvent(db.outbox, db'.outbox, e);
  }

  lemma CheckInboxKeepsInv(cfg: Config, s: State, w: WorkerId, claimedAt: int)
    requires Inv(cfg, s) && w in s.workers && s.workers[w].Delivered?
    ensures Inv(cfg, AfterCheckInbox(s, w, claimedAt))
  {
    WorkerOk(s, w);
    GotoKeepsInv(cfg, s, w, AfterCheckInbox(s, w, claimedAt).workers[w]);
  }

  lemma ClaimStepKeepsInv(cfg: Config, s: State, w: WorkerId)
    requires Inv(cfg, s) && w in s.workers && s.workers[w].ClaimChecked?
    ensures var s' := AfterClaim(cfg, s, w);
            && Inv(cfg, s')
            && (s'.db == s.db || DbChange(s.db, s'.db, s.workers[w].r.job, Leases(s.workers[w].r.index)))
  {
    var a := s.workers[w];
    WorkerOk(s, w);
    ClaimCommit(cfg, s.db, a.r, a.event, w, a.claimedAt);
    var claim := ClaimChunk(cfg, s.db, a.r, a.event, w, a.claimedAt);
    if claim.Claimed? {
      CommitKeepsInv(cfg, s, claim.db, w, CallingProvider(a.msg, a.event, a.r));
    } else {
      DropKeepsInv(cfg, s, w);
    }
  }

  lemma ProviderKeepsInv(cfg: Config, s: State, w: WorkerId, outcome: Outcome)
    requires Inv(cfg, s) && w in s.workers && s.workers[w].CallingProvider?
    ensures Inv(cfg, AfterProvider(s, w, outcome))
  {
    WorkerOk(s, w);
    GotoKeepsInv(cfg, s, w, AfterProvider(s, w, outcome).workers[w]);
  }

  lemma TxKeepsInv(cfg: Config, s: State, w: WorkerId, tx: Tx)
    requires Inv(cfg, s) && w in s.workers
    requires s.workers[w].event in s.db.outbox && s.db.outbox[s.workers[w].event].topic.ChunkRequested?
    requires tx.Committed? ==>
               && DbInv(cfg, tx.db) && Advances(s.db, tx.db) && PublishingKept(s.db, tx.db)
               && (ClovaWorkers, s.workers[w].event) in tx.db.inbox
    ensures Inv(cfg, AfterTx(s, w, tx))
  {
    var a := s.workers[w];
    if tx.Committed? {
      MarkedIsDone(s.db, tx.db, a.msg, a.event);
      CommitKeepsInv(cfg, s, tx.db, w, ChunkDone(a.msg, a.event));
    } else {
      DropKeepsInv(cfg, s, w);
    }
  }

  /** An inbox read of a correction worker ends its work on a processed event and lets it go on otherwise. */
  lemma InboxReadKeepsInv(cfg: Config, s: State, w: WorkerId, next: Activity)
    requires Inv(cfg, s) && w in s.workers
    requires s.workers[w].event in s.db.outbox && s.db.outbox[s.workers[w].event].topic.TranscriptReady?
    requires next.msg == s.workers[w].msg && next.event == s.workers[w].event && ActivityOk(s.db, next)
    ensures Inv(cfg, AfterInboxRead(s, w, next))
  {
    GotoKeepsInv(cfg, s, w, AfterInboxRead(s, w, next).workers[w]);
  }

  lemma BeginStepKeepsInv(cfg: Config, s: State, w: WorkerId)
    requires Inv(cfg, s) && w in s.workers && s.workers[w].CorrectionChecked?
    ensures var s' := AfterBegin(s, w);
            && Inv(cfg, s')
            && (|| DbChange(s.db, s'.db, s.workers[w].j, Nothing)
                || DbChange(s.db, s'.db, s.workers[w].j, BeginsCorrection))
  {
    var a := s.workers[w];
    WorkerOk(s, w);
    BeginCommit(cfg, s.db, a.j, a.event);
    var begin := BeginCorrection(s.db, a.j, a.event);
    if begin.Started? {
      assert SameEvent(s.db.outbox, begin.db.outbox, a.event);
      CommitKeepsInv(cfg, s, begin.db, w, BuildingCorrection(a.msg, a.event, a.j));
    } else {
      GotoKeepsInv(cfg, s, w, HasCorrectionError(a.msg, a.event, a.j, false));
    }
  }

  lemma SaveStepKeepsInv(cfg: Config, s: State, w: WorkerId, finishedId: EventId)
    requires Inv(cfg, s) && w in s.workers && s.workers[w].CorrectionRechecked? && Fresh(s, finishedId)
    ensures var a := s.workers[w];
            var tx := SaveCorrection(s.db, a.j, a.event, a.version, finishedId, s.now);
            && Inv(cfg, AfterSave(s, w, a.j, tx))
            && (tx.Committed? ==> DbChange(s.db, tx.db, a.j, Corrects))
  {
    var a := s.workers[w];
    WorkerOk(s, w);
    SaveCommit(cfg, s.db, a.j, a.event, a.version, finishedId, s.now);
    var tx := SaveCorrection(s.db, a.j, a.event, a.version, finishedId, s.now);
    if tx.Committed? {
      MarkedIsDone(s.db, tx.db, a.msg, a.event);
      CommitKeepsInv(cfg, s, tx.db, w, CorrectionDone(a.msg, a.event));
    } else {
      GotoKeepsInv(cfg, s, w, HasCorrectionError(a.msg, a.event, a.j, false));
    }
  }

  lemma RecordStepKeepsInv(cfg: Config, s: State, w: WorkerId, deadId: EventId, progressId: EventId)
    requires Inv(cfg, s) && w in s.workers && s.workers[w].ErrorChecked?
    requires Fresh(s, deadId) && Fresh(s, progressId) && deadId != progressId
    ensures var a := s.workers[w];
            var recorded := FailCorrection(cfg, s.db, a.j, a.event, a.retryable, deadId, progressId, s.now);
            && Inv(cfg, AfterRecord(s, w, recorded))
            && (recorded.WillRetry? ==> DbChange(s.db, recorded.db, a.j, RetriesCorrection))
            && (recorded.GaveUp? ==> DbChange(s.db, recorded.db, a.j, GivesUp))
  {
    var a := s.workers[w];
    WorkerOk(s, w);
    RecordCommit(cfg, s.db, a.j, a.event, a.retryable, deadId, progressId, s.now);
    var recorded := FailCorrection(cfg, s.db, a.j, a.event, a.retryable, deadId, progressId, s.now);
    match recorded {
      case WillRetry(d) => CommitAndDropKeepsInv(cfg, s, d, w);
      case GaveUp(d) =>
        MarkedIsDone(s.db, d, a.msg, a.event);
        CommitKeepsInv(cfg, s, d, w, CorrectionDone(a.msg, a.event));
      case RecordRaised(_) => DropKeepsInv(cfg, s, w);
    }
  }

  lemma OrchestratorStepKeepsInv(cfg: Config, s: State, step: Step) returns (c: Change)
    requires Inv(cfg, s) && Enabled(s, step)
    requires step.EnsureJobStep? || step.PreprocessStep? || step.MarkFailedStep?
    ensures Inv(cfg, Next(cfg, s, step))
    ensures DbChange(s.db, Next(cfg, s, step).db, step.j, c)
    ensures c.Nothing? || c.Creates? || c.Prepares? || c.Overwrites?
    ensures c.Prepares? <==> step.PreprocessStep? && step.j in s.db.jobs && s.db.jobs[step.j].chunks == []
                             && (Orchestrators, step.event) !in s.db.inbox
    ensures c.Overwrites? <==> step.MarkFailedStep? && step.j in s.db.jobs
  {
    var s' := Next(cfg, s, step);
    c := Nothing;
    if step.EnsureJobStep? {
      EnsureCommit(cfg, s.db, step.j);
      c := if step.j in s.db.jobs then Nothing else Creates;
      UnmovedKeepsInv(cfg, s, s');
    } else if step.MarkFailedStep? {
      MarkFailedCommit(cfg, s.db, step.j);
      c := if step.j in s.db.jobs then Overwrites else Nothing;
      UnmovedKeepsInv(cfg, s, s');
    } else {
      PreprocessCommit(cfg, s.db, step.j, step.event, step.uploads, step.ids, s.now);
      if Preprocess(s.db, step.j, step.event, step.uploads, step.ids, s.now).Committed? {
        c := if (Orchestrators, step.event) in s.db.inbox || s.db.jobs[step.j].chunks != [] then Nothing else Prepares;
        UnmovedKeepsInv(cfg, s, s');
      }
    }
  }

  /** A transaction that no worker activity belongs to. */
  lemma UnmovedKeepsInv(cfg: Config, s: State, s': State)
    requires Inv(cfg, s) && DbInv(cfg, s'.db)
    requires Advances(s.db, s'.db) && PublishingKept(s.db, s'.db)
    requires s'.messages == s.messages && s'.acked == s.acked && s'.workers == s.workers
    ensures Inv(cfg, s')
  {
    if s.workers == map[] {
      DbStepKeepsRest(cfg, s, s', 0);
    } else {
      var w :| w in s.workers;
      WorkerOk(s, w);
      ActivityStable(s.db, s'.db, s.workers[w]);
      DbStepKeepsRest(cfg, s, s', w);
    }
  }
}
