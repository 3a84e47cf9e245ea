/**
 The Redis lease semaphore (app/queue/semaphore.py). One sorted set under one key holds the leases with their expiry;
 the key as a whole has a deadline after which the server drops it. A script runs atomically at server time `time` with
 the client's clock reading `now`.
 */
module Semaphore {
  type LeaseId = nat

  datatype Key = Key(leases: map<LeaseId, real>, deadline: real)

  function Ceil(x: real): int {
    -((-x).Floor)
  }

  /** What the server still has at `time`. */
  function Visible(k: Key, time: real): map<LeaseId, real> {
    if k.deadline <= time then map[] else k.leases
  }

  /** ZREMRANGEBYSCORE from minus infinity to `now`. */
  function Purged(leases: map<LeaseId, real>, now: real): map<LeaseId, real> {
    map l | l in leases && leases[l] > now :: leases[l]
  }

  function AcquireScript(k: Key, time: real, now: real, expiresAt: real, limit: int, id: LeaseId): (Key, bool) {
    var left := Purged(Visible(k, time), now);
    if |left| >= limit then (Key(left, k.deadline), false)
    else (Key(left[id := expiresAt], time + Ceil(expiresAt - now) as real), true)
  }

  function RenewScript(k: Key, time: real, id: LeaseId, expiresAt: real, now: real): (Key, bool) {
    var left := Visible(k, time);
    if id !in left then (Key(left, k.deadline), false)
    else (Key(left[id := expiresAt], time + Ceil(expiresAt - now) as real), true)
  }

  function ReleaseCommand(k: Key, time: real, id: LeaseId): Key {
    Key(Visible(k, time) - {id}, k.deadline)
  }

  /** The semaphore as the server keeps it, changed in place by the two scripts and the release. */
  class LeaseSet {
    const limit: int
    const leaseSeconds: int
    var leases: map<LeaseId, real>
    var deadline: real

    constructor (limit: int, leaseSeconds: int)
      ensures this.limit == limit && this.leaseSeconds == leaseSeconds && leases == map[]
    {
      this.limit, this.leaseSeconds := limit, leaseSeconds;
      leases, deadline := map[], 0.0;
    }

    function Snapshot(): Key
      reads this
    {
      Key(leases, deadline)
    }

    /** The server drops the key once its deadline has passed. */
    method Expire(time: real)
      modifies this
      ensures leases == Visible(old(Snapshot()), time) && deadline == old(deadline)
    {
      if deadline <= time {
        leases := map[];
      }
    }

    method Acquire(time: real, now: real, id: LeaseId) returns (acquired: bool)
      modifies this
      ensures (Snapshot(), acquired) == AcquireScript(old(Snapshot()), time, now, now + leaseSeconds as real, limit, id)
    {
      Expire(time);
      leases := Purged(leases, now);
      if |leases| >= limit {
        return false;
      }
      var expiresAt := now + leaseSeconds as real;
      leases := leases[id := expiresAt];
      deadline := time + Ceil(expiresAt - now) as real;
      return true;
    }

    method Renew(time: real, now: real, id: LeaseId) returns (renewed: bool)
      modifies this
      ensures (Snapshot(), renewed) == RenewScript(old(Snapshot()), time, id, now + leaseSeconds as real, now)
    {
      Expire(time);
      if id !in leases {
        return false;
      }
      var expiresAt := now + leaseSeconds as real;
      leases := leases[id := expiresAt];
      deadline := time + Ceil(expiresAt - now) as real;
      return true;
    }

    method Release(time: real, id: LeaseId)
      modifies this
      ensures Snapshot() == ReleaseCommand(old(Snapshot()), time, id)
    {
      Expire(time);
      leases := leases - {id};
    }
  }

  // ---------------------------------------------------------------- many clients

  /** The server, its clock, and what the clients were told: every lease granted and not released since, with the expiry
      of its last grant or renewal. */
  datatype System = System(clock: real, key: Key, held: map<LeaseId, real>, issued: set<LeaseId>)

  datatype Op =
    | Tick(elapsed: real)
    | Acquire(id: LeaseId, now: real)
    | Renew(id: LeaseId, now: real)
    | Release(id: LeaseId)

  /** Time moves forward, a client's reading is never ahead of the server's clock, lease ids are fresh. */
  predicate Enabled(s: System, op: Op) {
    match op
    case Tick(elapsed) => elapsed >= 0.0
    case Acquire(id, now) => now <= s.clock && id !in s.issued
    case Renew(_, now) => now <= s.clock
    case Release(_) => true
  }

  function Next(s: System, op: Op, limit: int, lease: int): System {
    match op
    case Tick(elapsed) => s.(clock := s.clock + elapsed)
    case Acquire(id, now) =>
      var (key, acquired) := AcquireScript(s.key, s.clock, now, now + lease as real, limit, id);
      System(s.clock, key, if acquired then s.held[id := now + lease as real] else s.held, s.issued + {id})
    case Renew(id, now) =>
      var (key, renewed) := RenewScript(s.key, s.clock, id, now + lease as real, now);
      s.(key := key, held := if renewed then s.held[id := now + lease as real] else s.held)
    case Release(id) =>
      s.(key := ReleaseCommand(s.key, s.clock, id), held := s.held - {id})
  }

  function Initial(clock: real): System {
    System(clock, Key(map[], clock), map[], {})
  }

  ghost predicate StepAt(states: seq<System>, ops: seq<Op>, limit: int, lease: int, k: nat)
    requires k < |ops| && |states| == |ops| + 1
  {
    Enabled(states[k], ops[k]) && states[k + 1] == Next(states[k], ops[k], limit, lease)
  }

  ghost predicate IsRun(states: seq<System>, ops: seq<Op>, limit: int, lease: int) {
    && |states| == |ops| + 1 && states[0] == Initial(states[0].clock)
    && forall k {:trigger StepAt(states, ops, limit, lease, k)} :: 0 <= k < |ops| ==>
         StepAt(states, ops, limit, lease, k)
  }

  // ---------------------------------------------------------------- the invariant

  ghost predicate LeaseOk(s: System, lease: int, l: LeaseId)
    requires l in s.key.leases
  {
    && l in s.issued
    && s.key.leases[l] <= s.key.deadline && s.key.leases[l] <= s.clock + lease as real
    && (s.clock < s.key.deadline ==> l in s.held && s.held[l] == s.key.leases[l])
  }

  ghost predicate HeldOk(s: System, l: LeaseId)
    requires l in s.held
  {
    && l in s.issued
    && (s.held[l] > s.clock ==> l in s.key.leases && s.key.leases[l] == s.held[l])
  }

  ghost predicate Inv(s: System, limit: int, lease: int) {
    && |s.key.leases| <= (if limit < 0 then 0 else limit)
    && (forall l {:trigger LeaseOk(s, lease, l)} :: l in s.key.leases ==> LeaseOk(s, lease, l))
    && (forall l {:trigger HeldOk(s, l)} :: l in s.held ==> HeldOk(s, l))
  }

  lemma SubmapSize(small: map<LeaseId, real>, big: map<LeaseId, real>)
    requires small.Keys <= big.Keys
    ensures |small| <= |big|
  {
    SubsetSize(small.Keys, big.Keys);
    assert |small| == |small.Keys| && |big| == |big.Keys|;
  }

  lemma {:induction false} SubsetSize(a: set<LeaseId>, b: set<LeaseId>)
    requires a <= b
    ensures |a| <= |b|
  {
    if a != {} {
      var x :| x in a;
      SubsetSize(a - {x}, b - {x});
    }
  }

  lemma AddSize(m: map<LeaseId, real>, id: LeaseId, e: real)
    ensures |m[id := e]| == |m| + if id in m then 0 else 1
  {
    assert m[id := e].Keys == m.Keys + {id};
    if id in m {
      assert m[id := e].Keys == m.Keys;
    }
    assert |m[id := e]| == |m[id := e].Keys| && |m| == |m.Keys|;
  }

  lemma TickKeeps(s: System, elapsed: real, limit: int, lease: int)
    requires Inv(s, limit, lease) && elapsed >= 0.0
    ensures Inv(Next(s, Tick(elapsed), limit, lease), limit, lease)
  {
    var t := Next(s, Tick(elapsed), limit, lease);
    forall l | l in t.key.leases ensures LeaseOk(t, lease, l) {
      assert LeaseOk(s, lease, l);
    }
    forall l | l in t.held ensures HeldOk(t, l) {
      assert HeldOk(s, l);
    }
  }

  lemma VisibleKept(s: System, l: LeaseId, limit: int, lease: int)
    requires Inv(s, limit, lease) && l in s.held && s.held[l] > s.clock
    ensures l in Visible(s.key, s.clock) && Visible(s.key, s.clock)[l] == s.held[l]
  {
    assert HeldOk(s, l);
    assert LeaseOk(s, lease, l);
  }

  /** A part of the visible set with all unexpired leases. */
  ghost predicate Retains(s: System, left: map<LeaseId, real>) {
    && (forall l {:trigger l in left} :: l in left ==> l in Visible(s.key, s.clock) && left[l] == s.key.leases[l])
    && (forall l {:trigger l in s.held} :: l in s.held && s.held[l] > s.clock ==> l in left)
  }

  /** Writing lease `id` with the standard expiry into a part of the visible set that still has all unexpired leases. */
  lemma WriteKeeps(s: System, left: map<LeaseId, real>, id: LeaseId, e: real, deadline: real, limit: int, lease: int,
                   issued: set<LeaseId>)
    requires Inv(s, limit, lease) && e <= s.clock + lease as real <= deadline
    requires Retains(s, left)
    requires |left[id := e]| <= limit && issued == s.issued + {id}
    ensures Inv(System(s.clock, Key(left[id := e], deadline), s.held[id := e], issued), limit, lease)
  {
    var t := System(s.clock, Key(left[id := e], deadline), s.held[id := e], issued);
    forall l | l in t.key.leases ensures LeaseOk(t, lease, l) {
      if l != id {
        assert LeaseOk(s, lease, l);
      }
    }
    forall l | l in t.held ensures HeldOk(t, l) {
      if l != id {
        assert HeldOk(s, l);
      }
    }
  }

  lemma CeilOfInt(n: int)
    ensures Ceil(n as real) == n
  {
  }

  lemma StandardLength(clock: real, now: real, lease: int)
    ensures clock + Ceil(now + lease as real - now) as real == clock + lease as real
  {
    assert now + lease as real - now == lease as real;
    CeilOfInt(lease);
  }

  lemma StandardDeadline(clock: real, now: real, lease: int)
    requires now <= clock
    ensures now + lease as real <= clock + lease as real <= clock + Ceil(now + lease as real - now) as real
  {
    StandardLength(clock, now, lease);
  }

  /** Dropping leases that have expired, or one that is given back. */
  lemma DropKeeps(s: System, left: map<LeaseId, real>, held: map<LeaseId, real>, issued: set<LeaseId>, limit: int,
                  lease: int)
    requires Inv(s, limit, lease) && s.issued <= issued
    requires left.Keys <= Visible(s.key, s.clock).Keys && forall l :: l in left ==> left[l] == s.key.leases[l]
    requires held.Keys <= s.held.Keys && left.Keys <= held.Keys && forall l :: l in held ==> held[l] == s.held[l]
    requires forall l :: l in held && held[l] > s.clock ==> l in left
    ensures Inv(System(s.clock, Key(left, s.key.deadline), held, issued), limit, lease)
  {
    var t := System(s.clock, Key(left, s.key.deadline), held, issued);
    SubmapSize(left, s.key.leases);
    forall l | l in t.key.leases ensures LeaseOk(t, lease, l) {
      assert LeaseOk(s, lease, l);
    }
    forall l | l in t.held ensures HeldOk(t, l) {
      assert HeldOk(s, l);
      assert l in s.key.leases ==> LeaseOk(s, lease, l);
    }
  }

  lemma VisibleHeld(s: System, limit: int, lease: int)
    requires Inv(s, limit, lease)
    ensures Visible(s.key, s.clock).Keys <= s.held.Keys
  {
    forall l | l in Visible(s.key, s.clock) ensures l in s.held {
      assert LeaseOk(s, lease, l);
    }
  }

  /** A purge by an earlier reading of the clock drops expired leases only. */
  lemma PurgeDropsExpired(s: System, now: real, limit: int, lease: int)
    requires Inv(s, limit, lease) && now <= s.clock
    ensures Retains(s, Purged(Visible(s.key, s.clock), now))
  {
    forall l | l in s.held && s.held[l] > s.clock ensures l in Purged(Visible(s.key, s.clock), now) {
      VisibleKept(s, l, limit, lease);
    }
  }

  lemma RefusalKeeps(s: System, id: LeaseId, now: real, limit: int, lease: int)
    requires Inv(s, limit, lease) && Enabled(s, Acquire(id, now))
    requires |Purged(Visible(s.key, s.clock), now)| >= limit
    ensures Inv(Next(s, Acquire(id, now), limit, lease), limit, lease)
  {
    PurgeDropsExpired(s, now, limit, lease);
    VisibleHeld(s, limit, lease);
    DropKeeps(s, Purged(Visible(s.key, s.clock), now), s.held, s.issued + {id}, limit, lease);
  }

  lemma GrantWrites(s: System, id: LeaseId, left: map<LeaseId, real>, e: real, deadline: real, limit: int, lease: int)
    requires Inv(s, limit, lease) && e <= s.clock + lease as real <= deadline && |left| < limit
    requires Retains(s, left)
    ensures Inv(System(s.clock, Key(left[id := e], deadline), s.held[id := e], s.issued + {id}), limit, lease)
  {
    AddSize(left, id, e);
    WriteKeeps(s, left, id, e, deadline, limit, lease, s.issued + {id});
  }

  lemma GrantState(s: System, id: LeaseId, now: real, limit: int, lease: int)
    returns (left: map<LeaseId, real>, e: real, deadline: real)
    requires Inv(s, limit, lease) && Enabled(s, Acquire(id, now))
    requires |Purged(Visible(s.key, s.clock), now)| < limit
    ensures Retains(s, left) && |left| < limit && e <= s.clock + lease as real <= deadline
    ensures Next(s, Acquire(id, now), limit, lease)
         == System(s.clock, Key(left[id := e], deadline), s.held[id := e], s.issued + {id})
  {
    left, e := Purged(Visible(s.key, s.clock), now), now + lease as real;
    deadline := s.clock + Ceil(e - now) as real;
    PurgeDropsExpired(s, now, limit, lease);
    StandardDeadline(s.clock, now, lease);
  }

  lemma GrantKeeps(s: System, id: LeaseId, now: real, limit: int, lease: int)
    requires Inv(s, limit, lease) && Enabled(s, Acquire(id, now))
    requires |Purged(Visible(s.key, s.clock), now)| < limit
    ensures Inv(Next(s, Acquire(id, now), limit, lease), limit, lease)
  {
    var left, e, deadline := GrantState(s, id, now, limit, lease);
    GrantWrites(s, id, left, e, deadline, limit, lease);
  }

  lemma RenewKeeps(s: System, id: LeaseId, now: real, limit: int, lease: int)
    requires Inv(s, limit, lease) && now <= s.clock
    ensures Inv(Next(s, Renew(id, now), limit, lease), limit, lease)
  {
    var left := Visible(s.key, s.clock);
    forall l | l in s.held && s.held[l] > s.clock ensures l in left {
      VisibleKept(s, l, limit, lease);
    }
    if id !in left {
      VisibleHeld(s, limit, lease);
      DropKeeps(s, left, s.held, s.issued, limit, lease);
    } else {
      var e := now + lease as real;
      AddSize(left, id, e);
      assert LeaseOk(s, lease, id);
      assert s.issued == s.issued + {id};
      StandardDeadline(s.clock, now, lease);
      WriteKeeps(s, left, id, e, s.clock + Ceil(e - now) as real, limit, lease, s.issued);
    }
  }

  lemma ReleaseKeeps(s: System, id: LeaseId, limit: int, lease: int)
    requires Inv(s, limit, lease)
    ensures Inv(Next(s, Release(id), limit, lease), limit, lease)
  {
    var left := Visible(s.key, s.clock) - {id};
    forall l | l in s.held - {id} && s.held[l] > s.clock ensures l in left {
      VisibleKept(s, l, limit, lease);
    }
    VisibleHeld(s, limit, lease);
    DropKeeps(s, left, s.held - {id}, s.issued, limit, lease);
  }

  lemma StepKeeps(s: System, op: Op, limit: int, lease: int)
    requires Inv(s, limit, lease) && Enabled(s, op)
    ensures Inv(Next(s, op, limit, lease), limit, lease)
  {
    match op
    case Tick(elapsed) => TickKeeps(s, elapsed, limit, lease);
    case Acquire(id, now) =>
      if |Purged(Visible(s.key, s.clock), now)| >= limit {
        RefusalKeeps(s, id, now, limit, lease);
      } else {
        GrantKeeps(s, id, now, limit, lease);
      }
    case Renew(id, now) => RenewKeeps(s, id, now, limit, lease);
    case Release(id) => ReleaseKeeps(s, id, limit, lease);
  }

  lemma InitialInv(clock: real, limit: int, lease: int)
    ensures Inv(Initial(clock), limit, lease)
  {
  }

  lemma {:induction false} RunInv(states: seq<System>, ops: seq<Op>, limit: int, lease: int, n: nat)
    requires IsRun(states, ops, limit, lease) && n <= |ops|
    ensures Inv(states[n], limit, lease)
  {
    if n == 0 {
      InitialInv(states[0].clock, limit, lease);
    } else {
      var k := n - 1;
      RunInv(states, ops, limit, lease, k);
      assert StepAt(states, ops, limit, lease, k);
      StepKeeps(states[k], ops[k], limit, lease);
    }
  }

  // ---------------------------------------------------------------- what every run guarantees

  /** The leases some client holds and may still rely on. */
  function Unexpired(s: System): set<LeaseId> {
    set l | l in s.held && s.held[l] > s.clock
  }

  lemma UnexpiredWithin(s: System, limit: int, lease: int)
    requires Inv(s, limit, lease)
    ensures |Unexpired(s)| <= if limit < 0 then 0 else limit
  {
    forall l | l in Unexpired(s) ensures l in s.key.leases {
      VisibleKept(s, l, limit, lease);
    }
    SubsetSize(Unexpired(s), s.key.leases.Keys);
    assert |s.key.leases| == |s.key.leases.Keys|;
  }

  /** In every reachable state no unexpired lease has been dropped by a purge or by the key's own deadline, and there
      are never more of them than the limit. */
  lemma LimitHolds(states: seq<System>, ops: seq<Op>, limit: int, lease: int, n: nat)
    requires IsRun(states, ops, limit, lease) && n <= |ops|
    ensures forall l :: l in Unexpired(states[n]) ==>
              && l in Visible(states[n].key, states[n].clock)
              && Visible(states[n].key, states[n].clock)[l] == states[n].held[l]
    ensures |Unexpired(states[n])| <= if limit < 0 then 0 else limit
  {
    var s := states[n];
    RunInv(states, ops, limit, lease, n);
    forall l | l in Unexpired(s)
      ensures l in Visible(s.key, s.clock) && Visible(s.key, s.clock)[l] == s.held[l]
    {
      VisibleKept(s, l, limit, lease);
    }
    UnexpiredWithin(s, limit, lease);
  }

  /** The held leases that had not expired at an earlier reading of the clock. */
  function OpenAt(s: System, now: real): set<LeaseId> {
    set l | l in s.held && s.held[l] > now
  }

  /** A reachable semaphore refuses a lease only when the limit was used up at the client's reading, and with an
      up-to-date reading exactly when it is. */
  lemma RefusedOnlyWhenFull(states: seq<System>, ops: seq<Op>, limit: int, lease: int, n: nat, id: LeaseId, now: real)
    requires IsRun(states, ops, limit, lease) && n <= |ops| && Enabled(states[n], Acquire(id, now))
    ensures id !in Next(states[n], Acquire(id, now), limit, lease).held ==> |OpenAt(states[n], now)| >= limit
    ensures now == states[n].clock ==>
              (id !in Next(states[n], Acquire(id, now), limit, lease).held <==> |Unexpired(states[n])| >= limit)
  {
    var s := states[n];
    RunInv(states, ops, limit, lease, n);
    FreshNotHeld(s, id, limit, lease);
    var left := Purged(Visible(s.key, s.clock), now);
    assert |left| == |left.Keys|;
    LeftIsOpen(s, now, limit, lease);
    SubsetSize(left.Keys, OpenAt(s, now));
  }

  /** A reachable semaphore renews every lease still in use, and whatever lease it renews is good for a lease's length
      from the reading on; what it refuses to renew is in use by nobody and stays as it was. No other lease is touched.
      */
  lemma RenewedExactly(states: seq<System>, ops: seq<Op>, limit: int, lease: int, n: nat, id: LeaseId, now: real)
    requires IsRun(states, ops, limit, lease) && n < |ops| && ops[n] == Renew(id, now)
    ensures var s, t := states[n], states[n + 1];
            && t.clock == s.clock && t.issued == s.issued
            && (id in Visible(s.key, s.clock) ==>
                  t.held == s.held[id := now + lease as real] && t.key.leases == s.key.leases[id := now + lease as real]
                  && t.key.deadline == s.clock + lease as real)
            && (id !in Visible(s.key, s.clock) ==>
                  id !in Unexpired(s) && t.held == s.held && t.key.leases == Visible(s.key, s.clock)
                  && t.key.deadline == s.key.deadline)
  {
    var s := states[n];
    RunInv(states, ops, limit, lease, n);
    assert StepAt(states, ops, limit, lease, n);
    StandardLength(s.clock, now, lease);
    if id in Unexpired(s) {
      VisibleKept(s, id, limit, lease);
    }
  }

  /** A request that is granted is good for a lease's length from the reading on. It drops the leases that had expired
      at the reading, granted or not, and no other. */
  lemma AcquiredExactly(states: seq<System>, ops: seq<Op>, limit: int, lease: int, n: nat, id: LeaseId, now: real)
    requires IsRun(states, ops, limit, lease) && n < |ops| && ops[n] == Acquire(id, now)
    ensures var s, t := states[n], states[n + 1];
            && t.clock == s.clock && t.issued == s.issued + {id} && id !in s.held
            && (forall l :: l in s.held ==> l in t.held && t.held[l] == s.held[l])
            && (forall l :: l != id ==>
                  (l in t.key.leases <==> l in Visible(s.key, s.clock) && s.key.leases[l] > now)
                  && (l in t.key.leases ==> t.key.leases[l] == s.key.leases[l]))
            && (forall l :: l in t.held && l != id ==> l in s.held)
            && (id in t.held <==> id in t.key.leases)
            && (id in t.held ==> t.held[id] == t.key.leases[id] == now + lease as real
                                 && t.key.deadline == s.clock + lease as real)
            && (id !in t.held ==> t.key.deadline == s.key.deadline)
  {
    var s := states[n];
    RunInv(states, ops, limit, lease, n);
    assert StepAt(states, ops, limit, lease, n);
    FreshNotHeld(s, id, limit, lease);
    StandardLength(s.clock, now, lease);
    assert id in Visible(s.key, s.clock) ==> LeaseOk(s, lease, id);
  }

  /** A release gives up the one lease, whether it is in use or not, and touches no other. */
  lemma ReleasedExactly(states: seq<System>, ops: seq<Op>, limit: int, lease: int, n: nat, id: LeaseId)
    requires IsRun(states, ops, limit, lease) && n < |ops| && ops[n] == Release(id)
    ensures var s, t := states[n], states[n + 1];
            && t.clock == s.clock && t.issued == s.issued && t.key.deadline == s.key.deadline
            && id !in t.held && id !in t.key.leases
            && (forall l :: l != id ==> (l in t.held <==> l in s.held) && (l in t.held ==> t.held[l] == s.held[l]))
            && (forall l :: l != id ==>
                  (l in t.key.leases <==> l in Visible(s.key, s.clock))
                  && (l in t.key.leases ==> t.key.leases[l] == s.key.leases[l]))
            && Unexpired(t) == Unexpired(s) - {id}
  {
    assert StepAt(states, ops, limit, lease, n);
  }

  lemma FreshNotHeld(s: System, id: LeaseId, limit: int, lease: int)
    requires Inv(s, limit, lease) && id !in s.issued
    ensures id !in s.held
  {
    assert id in s.held ==> HeldOk(s, id);
  }

  lemma LeftIsOpen(s: System, now: real, limit: int, lease: int)
    requires Inv(s, limit, lease) && now <= s.clock
    ensures Purged(Visible(s.key, s.clock), now).Keys <= OpenAt(s, now)
    ensures now == s.clock ==> Purged(Visible(s.key, s.clock), now).Keys == Unexpired(s)
  {
    forall l | l in Purged(Visible(s.key, s.clock), now) ensures l in OpenAt(s, now) {
      assert LeaseOk(s, lease, l);
    }
    forall l | l in Unexpired(s) ensures l in Purged(Visible(s.key, s.clock), now) {
      VisibleKept(s, l, limit, lease);
    }
  }

  // ---------------------------------------------------------------- runs with arbitrary readings

  /** Time moves forward and lease ids are fresh; a client may read anything. */
  predicate Possible(s: System, op: Op) {
    match op
    case Tick(elapsed) => elapsed >= 0.0
    case Acquire(id, _) => id !in s.issued
    case _ => true
  }

  ghost predicate AnyStepAt(states: seq<System>, ops: seq<Op>, limit: int, lease: int, k: nat)
    requires k < |ops| && |states| == |ops| + 1
  {
    Possible(states[k], ops[k]) && states[k + 1] == Next(states[k], ops[k], limit, lease)
  }

  ghost predicate IsAnyRun(states: seq<System>, ops: seq<Op>, limit: int, lease: int) {
    && |states| == |ops| + 1 && states[0] == Initial(states[0].clock)
    && forall k {:trigger AnyStepAt(states, ops, limit, lease, k)} :: 0 <= k < |ops| ==>
         AnyStepAt(states, ops, limit, lease, k)
  }

  /** Any reading at all: the state after a request by a fresh lease. */
  function Requested(s: System, id: LeaseId, now: real, limit: int, lease: int): System {
    Next(s, Acquire(id, now), limit, lease)
  }

  function Left(s: System, now: real): map<LeaseId, real> {
    Purged(Visible(s.key, s.clock), now)
  }

  /** How many leases the limit allows. */
  function Room(limit: int): nat {
    if limit < 0 then 0 else limit
  }

  /** What holds whatever the clients read: the set respects the limit, and while the key lives every lease in it is
      held with the same expiry. A held lease need not be in the set. */
  ghost predicate Sound(s: System, limit: int) {
    && |s.key.leases| <= Room(limit) && s.held.Keys <= s.issued
    && forall l :: l in Visible(s.key, s.clock) ==> l in s.held && s.held[l] == s.key.leases[l]
  }

  lemma InvIsSound(s: System, limit: int, lease: int)
    requires Inv(s, limit, lease)
    ensures Sound(s, limit)
  {
    forall l | l in s.held ensures l in s.issued {
      assert HeldOk(s, l);
    }
    forall l | l in Visible(s.key, s.clock) ensures l in s.held && s.held[l] == s.key.leases[l] {
      assert LeaseOk(s, lease, l);
    }
  }

  lemma AcquireKeepsSound(s: System, id: LeaseId, now: real, limit: int, lease: int)
    requires Sound(s, limit) && id !in s.issued
    ensures Sound(Next(s, Acquire(id, now), limit, lease), limit)
  {
    SubmapSize(Left(s, now), s.key.leases);
    AddSize(Left(s, now), id, now + lease as real);
  }

  lemma RenewKeepsSound(s: System, id: LeaseId, now: real, limit: int, lease: int)
    requires Sound(s, limit)
    ensures Sound(Next(s, Renew(id, now), limit, lease), limit)
  {
    var left := Visible(s.key, s.clock);
    SubmapSize(left, s.key.leases);
    AddSize(left, id, now + lease as real);
  }

  lemma AnyStepKeepsSound(s: System, op: Op, limit: int, lease: int)
    requires Sound(s, limit) && Possible(s, op)
    ensures Sound(Next(s, op, limit, lease), limit)
  {
    match op
    case Tick(_) =>
    case Acquire(id, now) => AcquireKeepsSound(s, id, now, limit, lease);
    case Renew(id, now) => RenewKeepsSound(s, id, now, limit, lease);
    case Release(id) => SubmapSize(Visible(s.key, s.clock) - {id}, s.key.leases);
  }

  /** Every reachable state is sound, under arbitrary readings. */
  lemma {:induction false} AnyRunSound(states: seq<System>, ops: seq<Op>, limit: int, lease: int, n: nat)
    requires IsAnyRun(states, ops, limit, lease) && n <= |ops|
    ensures Sound(states[n], limit)
  {
    if n > 0 {
      var k := n - 1;
      AnyRunSound(states, ops, limit, lease, k);
      assert AnyStepAt(states, ops, limit, lease, k);
      AnyStepKeepsSound(states[k], ops[k], limit, lease);
    }
  }

  /** The leases a request with this reading counts: the server still has them, and they are open at the reading. */
  function CountedAt(s: System, now: real): set<LeaseId> {
    set l | l in s.held && s.held[l] > now && l in Visible(s.key, s.clock)
  }

  lemma LeftIsCounted(s: System, now: real, limit: int)
    requires Sound(s, limit)
    ensures |Left(s, now)| == |CountedAt(s, now)|
  {
    assert Left(s, now).Keys == CountedAt(s, now);
    assert |Left(s, now)| == |Left(s, now).Keys|;
  }

  lemma AcquireAdds(s: System, id: LeaseId, now: real, limit: int, lease: int)
    requires Sound(s, limit) && id !in s.issued
    ensures var added := |CountedAt(s, now)| < limit && now + lease as real > s.clock;
            |Unexpired(Requested(s, id, now, limit, lease))| == |Unexpired(s)| + if added then 1 else 0
  {
    LeftIsCounted(s, now, limit);
    var t := Requested(s, id, now, limit, lease);
    if |Left(s, now)| < limit && now + lease as real > s.clock {
      assert Unexpired(t) == Unexpired(s) + {id};
    } else {
      assert Unexpired(t) == Unexpired(s);
    }
  }

  /** When the leases in use are over the limit after a request, whatever was read before and now: they were over it
      already, or the limit is used up, the request counts fewer, and the new lease is not itself past. What the request
      does not count it takes for expired, or the key's own deadline has dropped. */
  lemma LimitBrokenExactly(s: System, id: LeaseId, now: real, limit: int, lease: int)
    requires Sound(s, limit) && id !in s.issued
    ensures |Unexpired(Requested(s, id, now, limit, lease))| > Room(limit)
       <==> || |Unexpired(s)| > Room(limit)
            || (now + lease as real > s.clock && |Unexpired(s)| >= limit > |CountedAt(s, now)|)
  {
    AcquireAdds(s, id, now, limit, lease);
  }

  /** The steps that take the leases in use over the limit: such a request, or the renewal of a lease that is past but
      still in the set while the limit is used up. */
  predicate Overfills(s: System, op: Op, limit: int, lease: int) {
    match op
    case Acquire(id, now) => now + lease as real > s.clock && |Unexpired(s)| >= limit > |CountedAt(s, now)|
    case Renew(id, now) =>
      && now + lease as real > s.clock && |Unexpired(s)| >= limit
      && id in Visible(s.key, s.clock) && id !in Unexpired(s)
    case _ => false
  }

  lemma OtherStepsAdd(s: System, op: Op, limit: int, lease: int)
    requires Sound(s, limit) && Possible(s, op) && !op.Acquire?
    ensures var adds := op.Renew? && op.id in Visible(s.key, s.clock) && op.id !in Unexpired(s)
                        && op.now + lease as real > s.clock;
            if adds then |Unexpired(Next(s, op, limit, lease))| == |Unexpired(s)| + 1
            else |Unexpired(Next(s, op, limit, lease))| <= |Unexpired(s)|
  {
    var t := Next(s, op, limit, lease);
    if op.Renew? && op.id in Visible(s.key, s.clock) && op.id !in Unexpired(s) && op.now + lease as real > s.clock {
      assert Unexpired(t) == Unexpired(s) + {op.id};
    } else {
      SubsetSize(Unexpired(t), Unexpired(s));
    }
  }

  lemma OverfillsExactly(s: System, op: Op, limit: int, lease: int)
    requires Sound(s, limit) && Possible(s, op) && |Unexpired(s)| <= Room(limit)
    ensures |Unexpired(Next(s, op, limit, lease))| > Room(limit) <==> Overfills(s, op, limit, lease)
  {
    if op.Acquire? {
      LimitBrokenExactly(s, op.id, op.now, limit, lease);
    } else {
      OtherStepsAdd(s, op, limit, lease);
      if op.Renew? && op.id in Visible(s.key, s.clock) {
        assert |s.key.leases| == |s.key.leases.Keys|;
        assert op.id in s.key.leases.Keys;
      }
    }
  }

  /** In a run with arbitrary readings the leases in use stay within the limit exactly when no step of it overfills. */
  lemma {:induction false} LimitHoldsExactly(states: seq<System>, ops: seq<Op>, limit: int, lease: int, n: nat)
    requires IsAnyRun(states, ops, limit, lease) && n <= |ops|
    ensures (forall k :: 0 <= k <= n ==> |Unexpired(states[k])| <= Room(limit))
       <==> forall k :: 0 <= k < n ==> !Overfills(states[k], ops[k], limit, lease)
  {
    if n == 0 {
      assert Unexpired(states[0]) == {};
    } else {
      var k := n - 1;
      LimitHoldsExactly(states, ops, limit, lease, k);
      AnyRunSound(states, ops, limit, lease, k);
      assert AnyStepAt(states, ops, limit, lease, k);
      if |Unexpired(states[k])| <= Room(limit) {
        OverfillsExactly(states[k], ops[k], limit, lease);
      }
    }
  }

  // ---------------------------------------------------------------- readings ahead of the server's clock

  /** A purge by a reading at or ahead of the clock leaves the held leases that are still open at that reading. */
  lemma LeftAhead(s: System, now: real, limit: int, lease: int)
    requires Inv(s, limit, lease) && now >= s.clock
    ensures Left(s, now).Keys == OpenAt(s, now) <= Unexpired(s)
    ensures |Left(s, now)| == |OpenAt(s, now)|
  {
    forall l | l in Left(s, now) ensures l in OpenAt(s, now) {
      assert LeaseOk(s, lease, l);
    }
    forall l | l in OpenAt(s, now) ensures l in Left(s, now) {
      VisibleKept(s, l, limit, lease);
    }
    assert |Left(s, now)| == |Left(s, now).Keys|;
  }

  /** A reading behind the clock counts every lease in use. */
  lemma AllCounted(s: System, now: real, limit: int, lease: int)
    requires Inv(s, limit, lease) && now <= s.clock
    ensures Unexpired(s) <= CountedAt(s, now)
  {
    forall l | l in Unexpired(s) ensures l in CountedAt(s, now) {
      VisibleKept(s, l, limit, lease);
    }
  }

  /** As long as every reading before was in order, a request takes the leases in use over the limit exactly when the
      limit is used up, the reading takes some of those leases for expired, and the new lease is not itself past; no
      reading at or behind the clock does. */
  lemma FirstBreakExactly(s: System, id: LeaseId, now: real, limit: int, lease: int)
    requires Inv(s, limit, lease) && id !in s.issued
    ensures |Unexpired(Requested(s, id, now, limit, lease))| > Room(limit)
       <==> now + lease as real > s.clock && |Unexpired(s)| >= limit > |OpenAt(s, now)|
    ensures |Unexpired(s)| >= limit > |OpenAt(s, now)| ==> now > s.clock
  {
    InvIsSound(s, limit, lease);
    UnexpiredWithin(s, limit, lease);
    LimitBrokenExactly(s, id, now, limit, lease);
    if now >= s.clock {
      LeftAhead(s, now, limit, lease);
      LeftIsCounted(s, now, limit);
    } else {
      AllCounted(s, now, limit, lease);
      SubsetSize(Unexpired(s), CountedAt(s, now));
      SubsetSize(Unexpired(s), OpenAt(s, now));
    }
  }

  /** Whatever was read before, a request drops a lease that the server has exactly when its reading has reached the
      lease's expiry. */
  lemma DroppedExactly(s: System, id: LeaseId, now: real, limit: int, lease: int, l: LeaseId)
    requires Sound(s, limit) && id !in s.issued && l in Visible(s.key, s.clock)
    ensures l in s.held && (l in Requested(s, id, now, limit, lease).key.leases <==> s.held[l] > now)
    ensures lease > 0 ==>
              (l in Visible(Requested(s, id, now, limit, lease).key, s.clock) <==> s.held[l] > now)
  {
    StandardLength(s.clock, now, lease);
  }

  /** Lease `id` was granted or renewed at the reading `now`. */
  predicate Given(s: System, op: Op, id: LeaseId, now: real, limit: int, lease: int) {
    || (op == Acquire(id, now) && AcquireScript(s.key, s.clock, now, now + lease as real, limit, id).1)
    || (op == Renew(id, now) && RenewScript(s.key, s.clock, id, now + lease as real, now).1)
  }

  /** The server has forgotten a lease that its client still relies on. */
  predicate Forgotten(s: System, l: LeaseId) {
    l in Unexpired(s) && l !in Visible(s.key, s.clock)
  }

  /** The key's own deadline cuts a lease off early, when no other request extends it, exactly for a reading ahead of
      the clock: renewals need the clocks to agree as much as purges do. */
  lemma CutOffExactly(s: System, op: Op, id: LeaseId, now: real, limit: int, lease: int)
    requires Given(s, op, id, now, limit, lease)
    ensures var t := Next(s, op, limit, lease);
            (exists elapsed {:trigger Next(t, Tick(elapsed), limit, lease)} ::
               elapsed >= 0.0 && Forgotten(Next(t, Tick(elapsed), limit, lease), id))
            <==> now > s.clock && now + lease as real > s.clock
  {
    StandardLength(s.clock, now, lease);
    var t := Next(s, op, limit, lease);
    assert t.held[id] == now + lease as real && t.key.leases[id] == now + lease as real;
    assert t.key.deadline == s.clock + lease as real;
    if now > s.clock && now + lease as real > s.clock {
      var elapsed := if lease > 0 then lease as real else 0.0;
      assert Forgotten(Next(t, Tick(elapsed), limit, lease), id);
    }
  }

  /** One such reading, in a run. Limit 1, lease 10: lease 1 is granted at time 0, and a reading of 10 at time 5 lets
      lease 2 in beside it. */
  lemma ClockAheadBreaksLimit()
    ensures var s0 := Next(Initial(0.0), Acquire(1, 0.0), 1, 10);
            var s1 := Next(s0, Tick(5.0), 1, 10);
            var s2 := Next(s1, Acquire(2, 10.0), 1, 10);
            !Enabled(s1, Acquire(2, 10.0)) && |Unexpired(s2)| == 2
  {
    var s0 := Next(Initial(0.0), Acquire(1, 0.0), 1, 10);
    var none := Purged(Visible(Initial(0.0).key, 0.0), 0.0);
    assert none == map[];
    assert s0.held == map[1 := 10.0] && s0.key.leases == map[1 := 10.0];
    var s1 := Next(s0, Tick(5.0), 1, 10);
    assert Purged(Visible(s1.key, s1.clock), 10.0) == map[];
    var s2 := Next(s1, Acquire(2, 10.0), 1, 10);
    assert s2.held == map[1 := 10.0, 2 := 20.0];
    assert Unexpired(s2) == {1, 2};
  }

  /** An honest request can be the one that breaks the limit: with limit 1 and lease 10, lease 1 is granted at time 0
      by a reading of 5, the key's deadline drops it at 10, and at time 12 an up-to-date reading lets lease 2 in beside
      it. */
  lemma EarlierReadingBreaksLimit()
    ensures var s0 := Next(Initial(0.0), Acquire(1, 5.0), 1, 10);
            var s1 := Next(s0, Tick(12.0), 1, 10);
            var s2 := Next(s1, Acquire(2, 12.0), 1, 10);
            && Enabled(s1, Acquire(2, 12.0)) && Overfills(s1, Acquire(2, 12.0), 1, 10)
            && |Unexpired(s1)| == 1 && |Unexpired(s2)| == 2
  {
    assert Purged(Visible(Initial(0.0).key, 0.0), 5.0) == map[];
    var s0 := Next(Initial(0.0), Acquire(1, 5.0), 1, 10);
    assert s0.held == map[1 := 15.0];
    StandardLength(0.0, 5.0, 10);
    var s1 := Next(s0, Tick(12.0), 1, 10);
    assert Unexpired(s1) == {1};
    assert CountedAt(s1, 12.0) == {} && Purged(Visible(s1.key, s1.clock), 12.0) == map[];
    var s2 := Next(s1, Acquire(2, 12.0), 1, 10);
    assert s2.held == map[1 := 15.0, 2 := 22.0];
    assert Unexpired(s2) == {1, 2};
  }
}
