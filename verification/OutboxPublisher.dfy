/**
 The outbox publisher (app/queue/outbox.py): one pass over a batch of unpublished rows. The stream writes take effect
 one by one, the row updates only when the session commits, so a crash in between publishes events that stay
 unpublished in the outbox. One pass is a sequence of publisher steps of `Pipeline`.
 */
module OutboxPublisher {
  import opened Options
  import opened Ledger
  import opened Transactions
  import opened Services
  import opened Pipeline

  /** One row of the batch: whether its stream write went through, and then the id of the stream entry. */
  datatype Attempt = Attempt(event: EventId, added: bool, msg: MsgId)

  predicate Selected(outbox: map<EventId, Row>, event: EventId, now: int) {
    event in outbox && outbox[event].publishedAt.None? && outbox[event].availableAt <= now
  }

  /** Rows the select returns, each once, with stream entry ids not used before. */
  ghost predicate Batch(outbox: map<EventId, Row>, messages: map<MsgId, EventId>, batch: seq<Attempt>, now: int) {
    && (forall k :: 0 <= k < |batch| ==> Selected(outbox, batch[k].event, now))
    && (forall k :: 0 <= k < |batch| && batch[k].added ==> batch[k].msg !in messages)
    && (forall i, k :: 0 <= i < k < |batch| ==> batch[i].event != batch[k].event)
    && (forall i, k :: 0 <= i < k < |batch| && batch[i].added && batch[k].added ==> batch[i].msg != batch[k].msg)
  }

  function Add(messages: map<MsgId, EventId>, a: Attempt): map<MsgId, EventId> {
    if a.added then messages[a.msg := a.event] else messages
  }

  function StreamAfter(messages: map<MsgId, EventId>, batch: seq<Attempt>): map<MsgId, EventId>
    decreases |batch|
  {
    if batch == [] then messages else StreamAfter(Add(messages, batch[0]), batch[1..])
  }

  function Update(outbox: map<EventId, Row>, a: Attempt, now: int): map<EventId, Row>
    requires a.event in outbox
  {
    var row := outbox[a.event];
    outbox[a.event := if a.added then row.(publishedAt := Some(now)) else row.(attempts := row.attempts + 1)]
  }

  function OutboxAfter(outbox: map<EventId, Row>, batch: seq<Attempt>, now: int): map<EventId, Row>
    requires forall k :: 0 <= k < |batch| ==> batch[k].event in outbox
    decreases |batch|
  {
    if batch == [] then outbox else OutboxAfter(Update(outbox, batch[0], now), batch[1..], now)
  }

  function CountAdded(batch: seq<Attempt>): nat {
    if batch == [] then 0 else (if batch[0].added then 1 else 0) + CountAdded(batch[1..])
  }

  class Stream {
    var messages: map<MsgId, EventId>

    constructor ()
      ensures messages == map[]
    {
      messages := map[];
    }

    method XAdd(msg: MsgId, event: EventId)
      modifies this
      ensures messages == old(messages)[msg := event]
    {
      messages := messages[msg := event];
    }
  }

  class Publisher {
    const db: Database
    const stream: Stream

    constructor (db: Database, stream: Stream)
      ensures this.db == db && this.stream == stream
    {
      this.db, this.stream := db, stream;
    }

    /** `publish_once`; `commits` is false when the process dies before the commit. */
    method PublishOnce(batch: seq<Attempt>, now: int, commits: bool) returns (published: nat)
      requires Batch(db.outbox, stream.messages, batch, now)
      modifies db, stream
      ensures stream.messages == StreamAfter(old(stream.messages), batch)
      ensures db.jobs == old(db.jobs) && db.inbox == old(db.inbox)
      ensures db.outbox == if commits then OutboxAfter(old(db.outbox), batch, now) else old(db.outbox)
      ensures published == CountAdded(batch)
    {
      published := 0;
      var rows: map<EventId, Row> := db.outbox;
      for k := 0 to |batch|
        invariant forall i :: k <= i < |batch| ==> batch[i].event in rows
        invariant StreamAfter(stream.messages, batch[k..]) == StreamAfter(old(stream.messages), batch)
        invariant OutboxAfter(rows, batch[k..], now) == OutboxAfter(old(db.outbox), batch, now)
        invariant published + CountAdded(batch[k..]) == CountAdded(batch)
        invariant db.Snapshot() == old(db.Snapshot())
      {
        var a := batch[k];
        var row := rows[a.event];
        assert batch[k..][1..] == batch[k + 1..];
        if !a.added {
          rows := rows[a.event := row.(attempts := row.attempts + 1)];
          continue;
        }
        stream.XAdd(a.msg, a.event);
        rows := rows[a.event := row.(publishedAt := Some(now))];
        published := published + 1;
      }
      if commits {
        db.outbox := rows;
      }
    }
  }

  // ---------------------------------------------------------------- one pass as steps of the pipeline

  /** The steps lead from `s` to `t`, each enabled where it is taken. */
  ghost predicate Leads(cfg: Config, s: State, steps: seq<Step>, t: State)
    decreases |steps|
  {
    if steps == [] then t == s
    else Enabled(s, steps[0]) && Leads(cfg, Next(cfg, s, steps[0]), steps[1..], t)
  }

  lemma {:induction false} LeadsOn(cfg: Config, s: State, a: seq<Step>, t: State, b: seq<Step>, u: State)
    requires Leads(cfg, s, a, t) && Leads(cfg, t, b, u)
    ensures Leads(cfg, s, a + b, u)
    decreases |a|
  {
    if a == [] {
      assert a + b == b;
    } else {
      assert (a + b)[0] == a[0] && (a + b)[1..] == a[1..] + b;
      LeadsOn(cfg, Next(cfg, s, a[0]), a[1..], t, b, u);
    }
  }

  function AddSteps(batch: seq<Attempt>): seq<Step> {
    if batch == [] then []
    else (if batch[0].added then [AddToStream(batch[0].event, batch[0].msg)] else []) + AddSteps(batch[1..])
  }

  function RowSteps(batch: seq<Attempt>): seq<Step> {
    if batch == [] then []
    else
      [if batch[0].added then MarkPublished(batch[0].event) else PublishFailed(batch[0].event)] + RowSteps(batch[1..])
  }

  lemma BatchTail(outbox: map<EventId, Row>, messages: map<MsgId, EventId>, batch: seq<Attempt>, now: int)
    requires Batch(outbox, messages, batch, now) && batch != []
    ensures Batch(outbox, Add(messages, batch[0]), batch[1..], now)
  {
  }

  lemma {:induction false} AddsLead(cfg: Config, s: State, batch: seq<Attempt>)
    requires Batch(s.db.outbox, s.messages, batch, s.now)
    ensures Leads(cfg, s, AddSteps(batch), s.(messages := StreamAfter(s.messages, batch)))
    decreases |batch|
  {
    if batch != [] {
      var a := batch[0];
      assert Selected(s.db.outbox, a.event, s.now);
      BatchTail(s.db.outbox, s.messages, batch, s.now);
      var next := s.(messages := Add(s.messages, a));
      AddsLead(cfg, next, batch[1..]);
      if a.added {
        var step := AddToStream(a.event, a.msg);
        assert Enabled(s, step) && Next(cfg, s, step) == next;
        assert AddSteps(batch)[0] == step && AddSteps(batch)[1..] == AddSteps(batch[1..]);
      } else {
        assert next == s && AddSteps(batch) == AddSteps(batch[1..]);
      }
    }
  }

  lemma {:induction false} StreamKeeps(messages: map<MsgId, EventId>, batch: seq<Attempt>, m: MsgId)
    requires m in messages && forall k :: 0 <= k < |batch| && batch[k].added ==> batch[k].msg != m
    ensures m in StreamAfter(messages, batch) && StreamAfter(messages, batch)[m] == messages[m]
    decreases |batch|
  {
    if batch != [] {
      StreamKeeps(Add(messages, batch[0]), batch[1..], m);
    }
  }

  lemma {:induction false} AddedIsThere(outbox: map<EventId, Row>, messages: map<MsgId, EventId>, batch: seq<Attempt>,
                                        now: int, k: nat)
    requires Batch(outbox, messages, batch, now) && k < |batch| && batch[k].added
    ensures batch[k].msg in StreamAfter(messages, batch)
    ensures StreamAfter(messages, batch)[batch[k].msg] == batch[k].event
    decreases |batch|
  {
    BatchTail(outbox, messages, batch, now);
    if k == 0 {
      StreamKeeps(Add(messages, batch[0]), batch[1..], batch[0].msg);
    } else {
      AddedIsThere(outbox, Add(messages, batch[0]), batch[1..], now, k - 1);
    }
  }

  /** The rows of the batch are still unpublished, and what was added is in the stream. */
  ghost predicate Pending(s: State, batch: seq<Attempt>) {
    && (forall k :: 0 <= k < |batch| ==> Selected(s.db.outbox, batch[k].event, s.now))
    && (forall k :: 0 <= k < |batch| && batch[k].added ==> InStream(s, batch[k].event))
    && (forall i, k :: 0 <= i < k < |batch| ==> batch[i].event != batch[k].event)
  }

  lemma PendingTail(s: State, batch: seq<Attempt>)
    requires Pending(s, batch) && batch != []
    ensures Pending(s.(db := s.db.(outbox := Update(s.db.outbox, batch[0], s.now))), batch[1..])
  {
    var t := s.(db := s.db.(outbox := Update(s.db.outbox, batch[0], s.now)));
    forall k | 0 <= k < |batch| - 1
      ensures Selected(t.db.outbox, batch[1..][k].event, t.now)
      ensures batch[1..][k].added ==> InStream(t, batch[1..][k].event)
    {
      assert batch[1..][k] == batch[k + 1] && batch[k + 1].event != batch[0].event;
      assert Selected(s.db.outbox, batch[k + 1].event, s.now);
      if batch[k + 1].added {
        var m :| m in s.messages && s.messages[m] == batch[k + 1].event;
        assert m in t.messages && t.messages[m] == batch[k + 1].event;
      }
    }
  }

  lemma {:induction false} RowsLead(cfg: Config, s: State, batch: seq<Attempt>)
    requires Pending(s, batch)
    ensures Leads(cfg, s, RowSteps(batch), s.(db := s.db.(outbox := OutboxAfter(s.db.outbox, batch, s.now))))
    decreases |batch|
  {
    if batch != [] {
      var a := batch[0];
      assert Selected(s.db.outbox, a.event, s.now);
      PendingTail(s, batch);
      var next := s.(db := s.db.(outbox := Update(s.db.outbox, a, s.now)));
      RowsLead(cfg, next, batch[1..]);
      var step := if a.added then MarkPublished(a.event) else PublishFailed(a.event);
      assert Enabled(s, step) && Next(cfg, s, step) == next;
      assert RowSteps(batch)[0] == step && RowSteps(batch)[1..] == RowSteps(batch[1..]);
    }
  }

  /** A pass of the publisher is a sequence of enabled publisher steps, with or without the commit. */
  lemma PassIsSteps(cfg: Config, s: State, batch: seq<Attempt>, commits: bool) returns (steps: seq<Step>)
    requires Batch(s.db.outbox, s.messages, batch, s.now)
    ensures Leads(cfg, s, steps,
                  s.(messages := StreamAfter(s.messages, batch),
                     db := s.db.(outbox := if commits then OutboxAfter(s.db.outbox, batch, s.now) else s.db.outbox)))
  {
    var t := s.(messages := StreamAfter(s.messages, batch));
    AddsLead(cfg, s, batch);
    if !commits {
      return AddSteps(batch);
    }
    forall k | 0 <= k < |batch| && batch[k].added ensures InStream(t, batch[k].event) {
      AddedIsThere(s.db.outbox, s.messages, batch, s.now, k);
      assert t.messages[batch[k].msg] == batch[k].event;
    }
    RowsLead(cfg, t, batch);
    steps := AddSteps(batch) + RowSteps(batch);
    LeadsOn(cfg, s, AddSteps(batch), t, RowSteps(batch),
            t.(db := t.db.(outbox := OutboxAfter(t.db.outbox, batch, t.now))));
  }

  // ---------------------------------------------------------------- what one pass writes

  ghost predicate InBatch(batch: seq<Attempt>, e: EventId) {
    exists k :: 0 <= k < |batch| && batch[k].event == e
  }

  lemma {:induction false} OutsideBatch(outbox: map<EventId, Row>, batch: seq<Attempt>, now: int, e: EventId)
    requires (forall k :: 0 <= k < |batch| ==> batch[k].event in outbox) && !InBatch(batch, e)
    ensures OutboxAfter(outbox, batch, now).Keys == outbox.Keys
    ensures e in outbox ==> OutboxAfter(outbox, batch, now)[e] == outbox[e]
    decreases |batch|
  {
    if batch != [] {
      assert batch[0].event != e;
      assert forall k :: 0 <= k < |batch| - 1 ==> batch[1..][k] == batch[k + 1];
      OutsideBatch(Update(outbox, batch[0], now), batch[1..], now, e);
    }
  }

  /** The row after its attempt: published now, or with one attempt more. */
  predicate Attempted(row: Row, row': Row, added: bool, now: int) {
    && row'.topic == row.topic && row'.payload == row.payload && row'.availableAt == row.availableAt
    && if added then row'.publishedAt == Some(now) && row'.attempts == row.attempts
       else row'.publishedAt == row.publishedAt && row'.attempts == row.attempts + 1
  }

  lemma {:induction false} InsideBatch(outbox: map<EventId, Row>, messages: map<MsgId, EventId>, batch: seq<Attempt>,
                                       now: int, k: nat)
    requires Batch(outbox, messages, batch, now) && k < |batch|
    ensures batch[k].event in OutboxAfter(outbox, batch, now)
    ensures Attempted(outbox[batch[k].event], OutboxAfter(outbox, batch, now)[batch[k].event], batch[k].added, now)
    decreases |batch|
  {
    assert Selected(outbox, batch[k].event, now);
    RestOfBatch(outbox, messages, batch, now);
    if k == 0 {
      OutsideBatch(Update(outbox, batch[0], now), batch[1..], now, batch[0].event);
    } else {
      assert batch[k].event != batch[0].event;
      InsideBatch(Update(outbox, batch[0], now), Add(messages, batch[0]), batch[1..], now, k - 1);
    }
  }

  lemma RestOfBatch(outbox: map<EventId, Row>, messages: map<MsgId, EventId>, batch: seq<Attempt>, now: int)
    requires Batch(outbox, messages, batch, now) && batch != []
    ensures Selected(outbox, batch[0].event, now)
    ensures Batch(Update(outbox, batch[0], now), Add(messages, batch[0]), batch[1..], now)
    ensures !InBatch(batch[1..], batch[0].event)
  {
  }

  lemma {:induction false} StreamEntries(outbox: map<EventId, Row>, messages: map<MsgId, EventId>, batch: seq<Attempt>,
                                         now: int)
    requires Batch(outbox, messages, batch, now)
    ensures StreamAfter(messages, batch).Keys
         == messages.Keys + set k | 0 <= k < |batch| && batch[k].added :: batch[k].msg
    decreases |batch|
  {
    if batch != [] {
      RestOfBatch(outbox, messages, batch, now);
      StreamEntries(Update(outbox, batch[0], now), Add(messages, batch[0]), batch[1..], now);
      forall m | exists k :: 0 <= k < |batch| && batch[k].added && batch[k].msg == m
        ensures m in StreamAfter(messages, batch)
      {
        var k :| 0 <= k < |batch| && batch[k].added && batch[k].msg == m;
        AddedIsThere(outbox, messages, batch, now, k);
      }
    }
  }

  /** The writes that went through, from the given place on. */
  function AddedFrom(batch: seq<Attempt>, from: nat): set<int> {
    set k | from <= k < |batch| && batch[k].added
  }

  lemma {:induction false} AddedNumber(batch: seq<Attempt>, from: nat)
    requires from <= |batch|
    ensures CountAdded(batch[from..]) == |AddedFrom(batch, from)|
    decreases |batch| - from
  {
    if from < |batch| {
      AddedNumber(batch, from + 1);
      assert batch[from..][1..] == batch[from + 1..];
      assert AddedFrom(batch, from) == AddedFrom(batch, from + 1) + if batch[from].added then {from} else {};
    } else {
      assert AddedFrom(batch, from) == {};
    }
  }

  /** What a committed pass leaves: every row of the batch is published now if its stream write went through and else
      has one attempt more, no other row differs; the stream has one new entry for each write that went through and
      nothing else; and the count is that of these writes. */
  lemma PassWrites(outbox: map<EventId, Row>, messages: map<MsgId, EventId>, batch: seq<Attempt>, now: int)
    requires Batch(outbox, messages, batch, now)
    ensures var after := OutboxAfter(outbox, batch, now);
            && after.Keys == outbox.Keys
            && (forall k :: 0 <= k < |batch| ==>
                  && batch[k].event in after
                  && Attempted(outbox[batch[k].event], after[batch[k].event], batch[k].added, now))
            && (forall e :: e in outbox && !InBatch(batch, e) ==> after[e] == outbox[e])
    ensures var after := StreamAfter(messages, batch);
            && after.Keys == messages.Keys + (set k | 0 <= k < |batch| && batch[k].added :: batch[k].msg)
            && (forall k :: 0 <= k < |batch| && batch[k].added ==>
                  batch[k].msg in after && after[batch[k].msg] == batch[k].event)
            && (forall m :: m in messages ==> m in after && after[m] == messages[m])
    ensures CountAdded(batch) == |AddedFrom(batch, 0)|
  {
    var after := OutboxAfter(outbox, batch, now);
    forall k | 0 <= k < |batch|
      ensures batch[k].event in after
      ensures Attempted(outbox[batch[k].event], after[batch[k].event], batch[k].added, now)
    {
      InsideBatch(outbox, messages, batch, now, k);
    }
    KeysStay(outbox, batch, now);
    forall e | e in outbox && !InBatch(batch, e) ensures after[e] == outbox[e] {
      OutsideBatch(outbox, batch, now, e);
    }
    StreamEntries(outbox, messages, batch, now);
    forall k | 0 <= k < |batch| && batch[k].added
      ensures batch[k].msg in StreamAfter(messages, batch)
      ensures StreamAfter(messages, batch)[batch[k].msg] == batch[k].event
    {
      AddedIsThere(outbox, messages, batch, now, k);
    }
    forall m | m in messages
      ensures m in StreamAfter(messages, batch) && StreamAfter(messages, batch)[m] == messages[m]
    {
      StreamKeeps(messages, batch, m);
    }
    AddedNumber(batch, 0);
    assert batch[0..] == batch;
  }

  lemma {:induction false} KeysStay(outbox: map<EventId, Row>, batch: seq<Attempt>, now: int)
    requires forall k :: 0 <= k < |batch| ==> batch[k].event in outbox
    ensures OutboxAfter(outbox, batch, now).Keys == outbox.Keys
    decreases |batch|
  {
    if batch != [] {
      assert forall k :: 0 <= k < |batch| - 1 ==> batch[1..][k] == batch[k + 1];
      KeysStay(Update(outbox, batch[0], now), batch[1..], now);
    }
  }
}
