/**
 * The two fences of a completion, and the counts and outcomes that hang on them (app/worker/claim.py,
 * app/conductor/reaper.py): what every statement keeps about the tables.
 */
module Fences {
  import opened Model
  import opened Policies
  import opened Lifecycle

  ghost predicate Last(db: Tables, d: DeliveryId, a: AttemptId) {
    && a in db.attempts && db.attempts[a].delivery == d
    && forall b :: b in db.attempts && db.attempts[b].delivery == d ==> b <= a
  }

  ghost function AttemptsAt(db: Tables, d: DeliveryId): set<AttemptId> {
    set a | a in db.attempts && db.attempts[a].delivery == d
  }

  /**
   * An open attempt is the last one at its delivery, whose row is leased to the attempt's worker until its
   * start plus the lease. An attempt recorded ok is the last one at a delivered row.
   */
  ghost predicate AttemptOk(db: Tables, s: Settings, a: AttemptId)
    requires a in db.attempts
  {
    var at := db.attempts[a];
    && at.delivery in db.deliveries
    && at.consumer == db.deliveries[at.delivery].consumer
    && (IsOpen(at) <==> at.outcome.None?)
    && (IsOpen(at) ==>
          && HeldBy(db.deliveries[at.delivery], at.worker)
          && db.deliveries[at.delivery].leaseExpiresAt == Some(at.startedAt + s.leaseS)
          && Last(db, at.delivery, a))
    && (at.outcome == Some(Ok) ==> db.deliveries[at.delivery].state == Delivered && Last(db, at.delivery, a))
  }

  ghost predicate LastIs(db: Tables, d: DeliveryId, outcome: Option<Outcome>) {
    exists a :: Last(db, d, a) && db.attempts[a].outcome == outcome
  }

  /**
    * A row counts its attempts and has not run out of them; its last attempt is open in flight and ok once
    * delivered.
    */
  ghost predicate RowOk(db: Tables, s: Settings, d: DeliveryId)
    requires d in db.deliveries
  {
    var row := db.deliveries[d];
    && row.attemptCount == |AttemptsAt(db, d)| <= s.maxAttempts
    && (Queued(row) ==> row.attemptCount < s.maxAttempts)
    && (row.state == InFlight ==> LastIs(db, d, None))
    && (row.state == Delivered ==> LastIs(db, d, Some(Ok)))
    && (row.state.Terminal() <==> row.completedAt.Some?)
  }

  ghost predicate Sound(db: Tables, s: Settings) {
    && (forall a {:trigger AttemptOk(db, s, a)} :: a in db.attempts ==> AttemptOk(db, s, a))
    && (forall d {:trigger RowOk(db, s, d)} :: d in db.deliveries ==> RowOk(db, s, d))
  }

  ghost predicate ClaimOk(db: Tables, worker: WorkerId, c: Claimed) {
    && c.attemptNo >= 1
    && c.delivery in db.deliveries && c.attempt in db.attempts
    && db.attempts[c.attempt].delivery == c.delivery && db.attempts[c.attempt].worker == worker
    && (HeldBy(db.deliveries[c.delivery], worker) ==>
          Last(db, c.delivery, c.attempt) && c.attemptNo == db.deliveries[c.delivery].attemptCount)
  }

  /** What a worker's batch knows about the rows it names. */
  ghost predicate Holds(db: Tables, worker: WorkerId, batch: set<Claimed>) {
    && (forall x, y :: x in batch && y in batch && x.delivery == y.delivery ==> x == y)
    && (forall c {:trigger ClaimOk(db, worker, c)} :: c in batch ==> ClaimOk(db, worker, c))
  }

  // ---- The fences agree ----

  lemma LeasedIsOpen(db: Tables, s: Settings, d: DeliveryId) returns (a: AttemptId)
    requires Sound(db, s) && d in db.deliveries && db.deliveries[d].state == InFlight
    ensures Last(db, d, a) && IsOpen(db.attempts[a]) && db.deliveries[d].leasedBy == Some(db.attempts[a].worker)
    ensures db.deliveries[d].attemptCount >= 1
  {
    assert RowOk(db, s, d);
    a :| Last(db, d, a) && db.attempts[a].outcome == None;
    assert AttemptOk(db, s, a);
    assert a in AttemptsAt(db, d);
  }

  /**
    * Exactly one open attempt, by the worker on the lease, as the attempt numbered `attempt_count`: that is in
    * flight.
    */
  lemma InFlightIffOneOpenAttempt(db: Tables, s: Settings, d: DeliveryId)
    requires Sound(db, s) && d in db.deliveries
    ensures db.deliveries[d].state == InFlight <==> exists a :: a in AttemptsAt(db, d) && IsOpen(db.attempts[a])
    ensures forall a, b | a in AttemptsAt(db, d) && b in AttemptsAt(db, d) ::
              IsOpen(db.attempts[a]) && IsOpen(db.attempts[b]) ==> a == b
    ensures forall a :: a in AttemptsAt(db, d) && IsOpen(db.attempts[a]) ==>
              && db.deliveries[d].leasedBy == Some(db.attempts[a].worker)
              && |set b | b in AttemptsAt(db, d) && b <= a| == db.deliveries[d].attemptCount
  {
    assert RowOk(db, s, d);
    forall a | a in AttemptsAt(db, d) && IsOpen(db.attempts[a])
      ensures AttemptOk(db, s, a)
      ensures (set b | b in AttemptsAt(db, d) && b <= a) == AttemptsAt(db, d)
    {
    }
    if db.deliveries[d].state == InFlight {
      var a := LeasedIsOpen(db, s, d);
      assert a in AttemptsAt(db, d);
    }
  }

  /** A completion's two fences accept or reject together; accepted, the worker's number is the row's count. */
  lemma FencesAgree(db: Tables, s: Settings, worker: WorkerId, batch: set<Claimed>, c: Claimed)
    requires Sound(db, s) && Holds(db, worker, batch) && c in batch
    ensures c.delivery in db.deliveries && c.attempt in db.attempts
    ensures IsOpen(db.attempts[c.attempt]) <==> HeldBy(db.deliveries[c.delivery], worker)
    ensures IsOpen(db.attempts[c.attempt]) ==>
              c.attemptNo == db.deliveries[c.delivery].attemptCount && Last(db, c.delivery, c.attempt)
  {
    assert ClaimOk(db, worker, c) && AttemptOk(db, s, c.attempt);
    if HeldBy(db.deliveries[c.delivery], worker) {
      var a := LeasedIsOpen(db, s, c.delivery);
    }
  }

  /** Two workers never both hold a live claim on one delivery. */
  lemma OneLiveClaim(
    db: Tables, s: Settings, w1: WorkerId, b1: set<Claimed>, c1: Claimed, w2: WorkerId, b2: set<Claimed>, c2: Claimed)
    requires Sound(db, s) && Holds(db, w1, b1) && Holds(db, w2, b2)
    requires c1 in b1 && c2 in b2 && c1.delivery == c2.delivery
    requires c1.attempt in db.attempts && IsOpen(db.attempts[c1.attempt])
    requires c2.attempt in db.attempts && IsOpen(db.attempts[c2.attempt])
    ensures w1 == w2 && c1.attempt == c2.attempt
  {
    FencesAgree(db, s, w1, b1, c1);
    FencesAgree(db, s, w2, b2, c2);
  }

  /** Delivered means the last attempt, and no other, is recorded ok. */
  lemma DeliveredIffLastOk(db: Tables, s: Settings, d: DeliveryId)
    requires Sound(db, s) && d in db.deliveries
    ensures db.deliveries[d].state == Delivered <==> LastIs(db, d, Some(Ok))
    ensures forall a :: a in AttemptsAt(db, d) && db.attempts[a].outcome == Some(Ok) ==> Last(db, d, a)
  {
    assert RowOk(db, s, d);
    forall a | a in AttemptsAt(db, d) && db.attempts[a].outcome == Some(Ok)
      ensures AttemptOk(db, s, a)
    {
    }
    if LastIs(db, d, Some(Ok)) {
      var a :| Last(db, d, a) && db.attempts[a].outcome == Some(Ok);
      assert AttemptOk(db, s, a);
    }
  }

  // ---- Every statement keeps them ----

  /** Attempts are at most closed: which is last, and how many there are, is untouched. */
  ghost predicate SameAttempts(db: Tables, db': Tables) {
    && db'.attempts.Keys == db.attempts.Keys
    && forall a :: a in db.attempts ==>
         && db'.attempts[a].delivery == db.attempts[a].delivery
         && db'.attempts[a].consumer == db.attempts[a].consumer
         && db'.attempts[a].worker == db.attempts[a].worker
         && db'.attempts[a].startedAt == db.attempts[a].startedAt
  }

  lemma LastKept(db: Tables, db': Tables, d: DeliveryId)
    requires SameAttempts(db, db')
    ensures AttemptsAt(db', d) == AttemptsAt(db, d)
    ensures forall a :: Last(db', d, a) <==> Last(db, d, a)
  {
    assert forall b :: b in db'.attempts <==> b in db.attempts;
    assert forall b :: b in AttemptsAt(db', d) <==> b in AttemptsAt(db, d);
    forall a
      ensures Last(db', d, a) <==> Last(db, d, a)
    {
    }
  }

  /** Rows an attempt-free statement may write: queued ones, on their way to ready or out by policy. */
  ghost predicate Rewrites(db: Tables, db': Tables, d: DeliveryId)
    requires d in db.deliveries && d in db'.deliveries
  {
    var was, row := db.deliveries[d], db'.deliveries[d];
    row == was || (
      && was.state == Pending
      && row.attemptCount == was.attemptCount && row.consumer == was.consumer
      && (row.state == Ready || row.state == Expired || row.state == Superseded)
      && row.completedAt.Some? == row.state.Terminal())
  }

  lemma RewriteKeeps(db: Tables, db': Tables, s: Settings)
    requires Sound(db, s) && db'.attempts == db.attempts
    requires forall d :: d in db.deliveries ==> d in db'.deliveries && Rewrites(db, db', d)
    requires forall d :: d in db'.deliveries && d !in db.deliveries ==>
               && db'.deliveries[d].attemptCount == 0 && db'.deliveries[d].state == Pending
               && db'.deliveries[d].completedAt.None?
    ensures Sound(db', s)
  {
    forall a | a in db'.attempts
      ensures AttemptOk(db', s, a)
    {
      assert AttemptOk(db, s, a);
      LastKept(db, db', db.attempts[a].delivery);
      assert Rewrites(db, db', db.attempts[a].delivery);
    }
    forall d | d in db'.deliveries
      ensures RowOk(db', s, d)
    {
      LastKept(db, db', d);
      if d in db.deliveries {
        assert RowOk(db, s, d) && Rewrites(db, db', d);
        if LastIs(db, d, None) {
          var a :| Last(db, d, a) && db.attempts[a].outcome == None;
          assert Last(db', d, a);
        }
        if LastIs(db, d, Some(Ok)) {
          var a :| Last(db, d, a) && db.attempts[a].outcome == Some(Ok);
          assert Last(db', d, a);
        }
      } else {
        forall a | a in db'.attempts
          ensures db'.attempts[a].delivery != d
        {
          assert AttemptOk(db, s, a);
        }
        assert AttemptsAt(db', d) == {};
      }
    }
  }

  lemma IngestKeeps(db: Tables, db': Tables, subs: set<Stream>, s: Settings)
    requires Sound(db, s) && Ingests(db, db', subs)
    ensures Sound(db', s)
  {
    forall d | d in db'.deliveries && d !in db.deliveries
      ensures db'.deliveries[d].state == Pending && db'.deliveries[d].attemptCount == 0
      ensures db'.deliveries[d].completedAt.None?
    {
      assert FansOut(db, db', subs, db'.deliveries[d].event, d, db'.deliveries[d].consumer);
    }
    RewriteKeeps(db, db', s);
  }

  lemma DropsKeep(db: Tables, db': Tables, drops: map<DeliveryId, DeliveryState>, now: Time, s: Settings)
    requires Sound(db, s) && AppliesDrops(db, db', drops, now)
    requires forall d :: d in drops ==> d in db.deliveries && db.deliveries[d].state == Pending
    requires forall d :: d in drops ==> drops[d] == Expired || drops[d] == Superseded
    ensures Sound(db', s)
  {
    RewriteKeeps(db, db', s);
  }

  lemma MarksKeep(db: Tables, db': Tables, ids: set<DeliveryId>, now: Time, s: Settings)
    requires Sound(db, s) && MarksReady(db, db', ids, now)
    requires forall d :: d in ids ==> d in db.deliveries && db.deliveries[d].state == Pending
    ensures Sound(db', s)
  {
    forall d | d in ids
      ensures db'.deliveries[d].completedAt.None?
    {
      assert RowOk(db, s, d);
    }
    RewriteKeeps(db, db', s);
  }

  /** After a claim, the leased rows have one more attempt, which is their last; the others have what they had. */
  lemma ClaimAddsOne(
    db: Tables, db': Tables, worker: WorkerId, rows: set<DeliveryId>, ids: map<DeliveryId, AttemptId>, now: Time,
    policies: map<Stream, Policy>, s: Settings, d: DeliveryId)
    requires Claims(db, db', worker, rows, ids, now, policies, s)
    ensures d in ids ==>
              && AttemptsAt(db', d) == AttemptsAt(db, d) + {ids[d]}
              && ids[d] !in AttemptsAt(db, d)
              && Last(db', d, ids[d])
    ensures d !in ids ==> AttemptsAt(db', d) == AttemptsAt(db, d) && forall a :: Last(db', d, a) <==> Last(db, d, a)
  {
    forall a | a in db'.attempts && a !in db.attempts
      ensures db'.attempts[a].delivery in ids && ids[db'.attempts[a].delivery] == a
    {
      assert Names(ids, a);
    }
    if d in ids {
      assert forall b :: b in AttemptsAt(db', d) <==> b in AttemptsAt(db, d) + {ids[d]};
    } else {
      assert forall b :: b in AttemptsAt(db', d) <==> b in AttemptsAt(db, d);
      forall a
        ensures Last(db', d, a) <==> Last(db, d, a)
      {
        assert forall b :: b in AttemptsAt(db', d) <==> b in AttemptsAt(db, d);
      }
    }
  }

  lemma ClaimKeeps(
    db: Tables, db': Tables, worker: WorkerId, rows: set<DeliveryId>, ids: map<DeliveryId, AttemptId>, now: Time,
    policies: map<Stream, Policy>, s: Settings)
    requires Sound(db, s) && Claims(db, db', worker, rows, ids, now, policies, s)
    requires forall d :: d in rows ==> db.deliveries[d].state == Ready
    ensures Sound(db', s)
  {
    forall a | a in db'.attempts
      ensures AttemptOk(db', s, a)
    {
      if a in db.attempts {
        assert AttemptOk(db, s, a);
        ClaimAddsOne(db, db', worker, rows, ids, now, policies, s, db.attempts[a].delivery);
      } else {
        assert Names(ids, a);
        var d :| d in ids && ids[d] == a;
        ClaimAddsOne(db, db', worker, rows, ids, now, policies, s, d);
      }
    }
    forall d | d in db'.deliveries
      ensures RowOk(db', s, d)
    {
      assert RowOk(db, s, d);
      ClaimAddsOne(db, db', worker, rows, ids, now, policies, s, d);
      if d in ids {
        assert Last(db', d, ids[d]);
      } else if db.deliveries[d].state == InFlight {
        var a :| Last(db, d, a) && db.attempts[a].outcome == None;
        assert Last(db', d, a);
      } else if db.deliveries[d].state == Delivered {
        var a :| Last(db, d, a) && db.attempts[a].outcome == Some(Ok);
        assert Last(db', d, a);
      }
    }
  }

  lemma CompleteKeeps(
    db: Tables, db': Tables, worker: WorkerId, batch: set<Claimed>, cs: set<Completion>, now: Time, s: Settings)
    requires Sound(db, s) && Holds(db, worker, batch) && Completes(db, db', worker, cs, now, s)
    requires forall c :: c in cs ==> c.claimed in batch
    ensures Sound(db', s) && SameAttempts(db, db')
  {
    forall a | a in db'.attempts
      ensures AttemptOk(db', s, a)
    {
      CompleteKeepsAttempt(db, db', worker, batch, cs, now, s, a);
    }
    forall d | d in db'.deliveries
      ensures RowOk(db', s, d)
    {
      CompleteKeepsRow(db, db', worker, batch, cs, now, s, d);
    }
  }

  /** A completion at an attempt is the completion at its row, and the other way round while it holds the row. */
  lemma CompleteKeepsAttempt(
    db: Tables, db': Tables, worker: WorkerId, batch: set<Claimed>, cs: set<Completion>, now: Time, s: Settings,
    a: AttemptId)
    requires Sound(db, s) && Holds(db, worker, batch) && Completes(db, db', worker, cs, now, s) && a in db.attempts
    requires forall c :: c in cs ==> c.claimed in batch
    ensures SameAttempts(db, db')
    ensures AttemptOk(db', s, a)
  {
    var d := db.attempts[a].delivery;
    assert AttemptOk(db, s, a);
    LastKept(db, db', d);
    if a in AttemptsIn(cs) {
      var c :| c in cs && c.claimed.attempt == a;
      assert ClaimOk(db, worker, c.claimed);
      FencesAgree(db, s, worker, batch, c.claimed);
    } else if d in DeliveriesOf(cs) {
      var c :| c in cs && c.claimed.delivery == d;
      FencesAgree(db, s, worker, batch, c.claimed);
    }
  }

  lemma CompleteKeepsRow(
    db: Tables, db': Tables, worker: WorkerId, batch: set<Claimed>, cs: set<Completion>, now: Time, s: Settings,
    d: DeliveryId)
    requires Sound(db, s) && Holds(db, worker, batch) && Completes(db, db', worker, cs, now, s) && d in db.deliveries
    requires forall c :: c in cs ==> c.claimed in batch
    requires SameAttempts(db, db')
    ensures RowOk(db', s, d)
  {
    assert RowOk(db, s, d);
    LastKept(db, db', d);
    if d in DeliveriesOf(cs) && HeldBy(db.deliveries[d], worker) {
      var c :| c in cs && c.claimed.delivery == d;
      FencesAgree(db, s, worker, batch, c.claimed);
      assert Last(db', d, c.claimed.attempt);
    } else {
      assert db'.deliveries[d] == db.deliveries[d];
      if db.deliveries[d].state == InFlight {
        var a :| Last(db, d, a) && db.attempts[a].outcome == None;
        assert AttemptOk(db, s, a);
        forall c | c in cs
          ensures c.claimed.attempt != a
        {
          FencesAgree(db, s, worker, batch, c.claimed);
          assert ClaimOk(db, worker, c.claimed);
        }
        assert Last(db', d, a);
      } else if db.deliveries[d].state == Delivered {
        var a :| Last(db, d, a) && db.attempts[a].outcome == Some(Ok);
        assert AttemptOk(db, s, a);
        assert db'.attempts[a] == db.attempts[a];
        assert Last(db', d, a);
      }
    }
  }

  lemma ReclaimKeeps(db: Tables, db': Tables, rows: set<DeliveryId>, now: Time, s: Settings)
    requires Sound(db, s) && Reclaims(db, db', rows, now, s)
    ensures Sound(db', s) && SameAttempts(db, db')
  {
    forall a | a in db'.attempts
      ensures AttemptOk(db', s, a)
    {
      assert AttemptOk(db, s, a);
      LastKept(db, db', db.attempts[a].delivery);
    }
    forall d | d in db'.deliveries
      ensures RowOk(db', s, d)
    {
      assert RowOk(db, s, d);
      LastKept(db, db', d);
      if d !in rows && db.deliveries[d].state == InFlight {
        var a :| Last(db, d, a) && db.attempts[a].outcome == None;
        assert Last(db', d, a);
      } else if db.deliveries[d].state == Delivered {
        var a :| Last(db, d, a) && db.attempts[a].outcome == Some(Ok);
        assert AttemptOk(db, s, a);
        assert Last(db', d, a);
      }
    }
  }

  // ---- What a worker holds survives everyone else ----

  lemma HoldsThrough(db: Tables, db': Tables, worker: WorkerId, batch: set<Claimed>)
    requires Holds(db, worker, batch)
    requires forall d :: d in db.deliveries ==> d in db'.deliveries
    requires forall a :: a in db.attempts ==>
               && a in db'.attempts && db'.attempts[a].delivery == db.attempts[a].delivery
               && db'.attempts[a].worker == db.attempts[a].worker
    requires forall d, a :: d in db.deliveries && HeldBy(db'.deliveries[d], worker) && Last(db, d, a) ==>
               && Last(db', d, a) && HeldBy(db.deliveries[d], worker)
               && db'.deliveries[d].attemptCount == db.deliveries[d].attemptCount
    requires forall d :: d in db.deliveries && HeldBy(db'.deliveries[d], worker) ==> HeldBy(db.deliveries[d], worker)
    ensures Holds(db', worker, batch)
  {
    forall c | c in batch
      ensures ClaimOk(db', worker, c)
    {
      assert ClaimOk(db, worker, c);
    }
  }

  lemma RewriteKeepsHolds(db: Tables, db': Tables, s: Settings, worker: WorkerId, batch: set<Claimed>)
    requires Holds(db, worker, batch) && db'.attempts == db.attempts
    requires forall d :: d in db.deliveries ==> d in db'.deliveries && Rewrites(db, db', d)
    ensures Holds(db', worker, batch)
  {
    forall d | d in db.deliveries
      ensures forall a :: Last(db, d, a) ==> Last(db', d, a)
      ensures HeldBy(db'.deliveries[d], worker) ==> db'.deliveries[d] == db.deliveries[d]
    {
      assert Rewrites(db, db', d);
      LastKept(db, db', d);
    }
    HoldsThrough(db, db', worker, batch);
  }

  lemma ClaimKeepsOthers(
    db: Tables, db': Tables, worker: WorkerId, rows: set<DeliveryId>, ids: map<DeliveryId, AttemptId>, now: Time,
    policies: map<Stream, Policy>, s: Settings, other: WorkerId, batch: set<Claimed>)
    requires Claims(db, db', worker, rows, ids, now, policies, s) && Holds(db, other, batch) && other != worker
    ensures Holds(db', other, batch)
  {
    forall d | d in db.deliveries && HeldBy(db'.deliveries[d], other)
      ensures db'.deliveries[d] == db.deliveries[d]
      ensures forall a :: Last(db, d, a) ==> Last(db', d, a)
    {
      ClaimAddsOne(db, db', worker, rows, ids, now, policies, s, d);
    }
    HoldsThrough(db, db', other, batch);
  }

  lemma ClaimIsHeld(
    db: Tables, db': Tables, worker: WorkerId, rows: set<DeliveryId>, ids: map<DeliveryId, AttemptId>, now: Time,
    policies: map<Stream, Policy>, s: Settings)
    requires Sound(db, s) && Claims(db, db', worker, rows, ids, now, policies, s)
    ensures Holds(db', worker, BatchFrom(db, ids))
  {
    forall c | c in BatchFrom(db, ids)
      ensures ClaimOk(db', worker, c)
    {
      assert RowOk(db, s, c.delivery);
      ClaimAddsOne(db, db', worker, rows, ids, now, policies, s, c.delivery);
    }
  }

  lemma CompleteKeepsOthers(
    db: Tables, db': Tables, worker: WorkerId, cs: set<Completion>, now: Time, s: Settings,
    other: WorkerId, batch: set<Claimed>)
    requires Completes(db, db', worker, cs, now, s) && SameAttempts(db, db') && Holds(db, other, batch)
    ensures Holds(db', other, batch)
  {
    forall d | d in db.deliveries
      ensures forall a :: Last(db, d, a) ==> Last(db', d, a)
      ensures HeldBy(db'.deliveries[d], other) ==> db'.deliveries[d] == db.deliveries[d]
    {
      LastKept(db, db', d);
      if d in DeliveriesOf(cs) {
        var c :| c in cs && c.claimed.delivery == d;
      }
    }
    HoldsThrough(db, db', other, batch);
  }

  lemma ReclaimKeepsHolds(
    db: Tables, db': Tables, rows: set<DeliveryId>, now: Time, s: Settings, worker: WorkerId, batch: set<Claimed>)
    requires Reclaims(db, db', rows, now, s) && SameAttempts(db, db') && Holds(db, worker, batch)
    ensures Holds(db', worker, batch)
  {
    forall d | d in db.deliveries
      ensures forall a :: Last(db, d, a) ==> Last(db', d, a)
    {
      LastKept(db, db', d);
    }
    HoldsThrough(db, db', worker, batch);
  }
}
