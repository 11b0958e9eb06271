/**
 * What each statement of the protocol does to the tables: ingest (app/api/ingest.py), claim and complete
 * (app/worker/claim.py), reclaim (app/conductor/reaper.py), drop and admit (policy.py, admission.py).
 */
module Lifecycle {
  import opened Model
  import opened Sets
  import opened Policies

  /** A leased delivery in a worker's hands. */
  datatype Claimed = Claimed(delivery: DeliveryId, attempt: AttemptId, attemptNo: int)

  datatype Completion = Completion(claimed: Claimed, outcome: Outcome)

  function Pow2(n: nat): int { if n == 0 then 1 else 2 * Pow2(n - 1) }

  /** `base * 2^(n-1)`, capped. */
  function BackoffS(attemptNo: int, s: Settings): real
    requires attemptNo >= 1
  {
    var uncapped := s.backoffBaseS * Pow2(attemptNo - 1) as real;
    if uncapped <= s.backoffCapS then uncapped else s.backoffCapS
  }

  /** The backoff starts at the base, doubles with each attempt, and never passes the cap. */
  lemma BackoffDoubles(attemptNo: int, s: Settings)
    requires attemptNo >= 1
    ensures BackoffS(1, s) == if s.backoffBaseS <= s.backoffCapS then s.backoffBaseS else s.backoffCapS
    ensures BackoffS(attemptNo + 1, s) ==
              if 2.0 * BackoffS(attemptNo, s) <= s.backoffCapS then 2.0 * BackoffS(attemptNo, s) else s.backoffCapS
    ensures 0.0 <= BackoffS(attemptNo, s) <= BackoffS(attemptNo + 1, s) <= s.backoffCapS
  {
    var p := Pow2(attemptNo - 1) as real;
    PowersArePositive(attemptNo - 1);
    assert Pow2(attemptNo) as real == 2.0 * p;
    assert s.backoffBaseS * (2.0 * p) == 2.0 * (s.backoffBaseS * p);
    assert s.backoffBaseS * p >= 0.0;
  }

  lemma {:induction false} PowersArePositive(n: nat)
    ensures Pow2(n) >= 1
  {
    if n > 0 { PowersArePositive(n - 1); }
  }

  // ---- Row updates ----

  function PendingRow(e: EventId, ev: Event, consumer: ConsumerId): Delivery {
    Delivery(e, consumer, ev.eventType, ev.entityKey, Pending, 0, ev.occurredAt, None, None, None, ev.occurredAt, None)
  }

  function ReadyRow(d: Delivery, now: Time): Delivery { d.(state := Ready, readyAt := Some(now)) }

  /** A terminal state always stamps `completed_at`. */
  function SettledRow(d: Delivery, state: DeliveryState, now: Time): Delivery {
    d.(state := state, completedAt := Some(now))
  }

  function LeasedRow(d: Delivery, worker: WorkerId, now: Time, s: Settings): Delivery {
    d.(state := InFlight, leasedBy := Some(worker), leaseExpiresAt := Some(now + s.leaseS),
       attemptCount := d.attemptCount + 1)
  }

  function ReclaimedRow(d: Delivery, now: Time, s: Settings): Delivery
    requires d.attemptCount >= 1
  {
    var freed := d.(leasedBy := None, leaseExpiresAt := None);
    if d.attemptCount >= s.maxAttempts then SettledRow(freed, Failed, now)
    else freed.(state := Pending, nextAttemptAt := now + BackoffS(d.attemptCount, s))
  }

  /** The lease columns stay on the row: a record of the last worker to hold it. */
  function CompletedRow(d: Delivery, c: Completion, now: Time, s: Settings): Delivery
    requires c.claimed.attemptNo >= 1
  {
    if c.outcome == Ok then SettledRow(d, Delivered, now)
    else if c.claimed.attemptNo >= s.maxAttempts then SettledRow(d, Failed, now)
    else d.(state := Pending, nextAttemptAt := now + BackoffS(c.claimed.attemptNo, s))
  }

  function OpenAttempt(d: DeliveryId, consumer: ConsumerId, worker: WorkerId, now: Time): Attempt {
    Attempt(d, consumer, worker, now, None, None)
  }

  function ClosedAttempt(a: Attempt, outcome: Outcome, now: Time): Attempt {
    a.(finishedAt := Some(now), outcome := Some(outcome))
  }

  /** `finished_at IS NULL`: the fence in the attempt table. */
  predicate IsOpen(a: Attempt) { a.finishedAt.None? }

  /** `state = 'in_flight' AND leased_by = :me`: the fence in the delivery table. */
  predicate HeldBy(d: Delivery, worker: WorkerId) { d.state == InFlight && d.leasedBy == Some(worker) }

  predicate LeaseRanOut(d: Delivery, now: Time) {
    d.state == InFlight && d.leaseExpiresAt.Some? && d.leaseExpiresAt.value < now
  }

  predicate RowIsStale(d: Delivery, now: Time, policies: map<Stream, Policy>) {
    IsStale(now, d.createdAt, d.consumer, d.eventType, policies)
  }

  // ---- Statements ----

  ghost predicate Inside(db: Tables, rows: set<DeliveryId>) { forall d :: d in rows ==> d in db.deliveries }

  ghost predicate OnlyThese(db: Tables, db': Tables, rows: set<DeliveryId>) {
    && db'.events == db.events && db'.deliveries.Keys == db.deliveries.Keys
    && forall d :: d in db.deliveries && d !in rows ==> db'.deliveries[d] == db.deliveries[d]
  }

  ghost predicate FansOut(db: Tables, db': Tables, subs: set<Stream>, e: EventId, d: DeliveryId, consumer: ConsumerId) {
    && d in db'.deliveries && d !in db.deliveries && e in db'.events
    && Stream(consumer, db'.events[e].eventType) in subs
    && db'.deliveries[d] == PendingRow(e, db'.events[e], consumer)
  }

  /** The ledger write and the fan-out: one pending row for each subscriber of each new event. */
  ghost predicate Ingests(db: Tables, db': Tables, subs: set<Stream>) {
    && db'.attempts == db.attempts
    && (forall e :: e in db.events ==> e in db'.events && db'.events[e] == db.events[e])
    && (forall d :: d in db.deliveries ==> d in db'.deliveries && db'.deliveries[d] == db.deliveries[d])
    && (forall d :: d in db'.deliveries && d !in db.deliveries ==>
          && db'.deliveries[d].event !in db.events
          && FansOut(db, db', subs, db'.deliveries[d].event, d, db'.deliveries[d].consumer))
    && (forall d1, d2 :: (d1 in db'.deliveries && d1 !in db.deliveries && d2 in db'.deliveries && d2 !in db.deliveries
          && db'.deliveries[d1].event == db'.deliveries[d2].event
          && db'.deliveries[d1].consumer == db'.deliveries[d2].consumer) ==> d1 == d2)
    && (forall e, p :: e in db'.events && e !in db.events && p in subs && p.eventType == db'.events[e].eventType ==>
          exists d :: FansOut(db, db', subs, e, d, p.consumer))
  }

  /** The claimed rows still worth an attempt. */
  ghost function Live(db: Tables, rows: set<DeliveryId>, now: Time, policies: map<Stream, Policy>): set<DeliveryId>
    requires Inside(db, rows)
  {
    set d | d in rows && !RowIsStale(db.deliveries[d], now, policies)
  }

  /** New attempt ids: one each, unused, and later than any earlier attempt at the same delivery. */
  ghost predicate FreshIds(db: Tables, ids: map<DeliveryId, AttemptId>) {
    && Injective(ids)
    && (forall d :: d in ids ==> ids[d] !in db.attempts)
    && (forall d, a :: d in ids && a in db.attempts && db.attempts[a].delivery == d ==> a < ids[d])
  }

  ghost predicate Names(ids: map<DeliveryId, AttemptId>, a: AttemptId) { exists d :: d in ids && ids[d] == a }

  /**
    * The claim transaction on rows it holds locked: stale ones expire, the rest are leased with an open attempt
    * each.
    */
  ghost predicate Claims(
    db: Tables, db': Tables, worker: WorkerId, rows: set<DeliveryId>, ids: map<DeliveryId, AttemptId>, now: Time,
    policies: map<Stream, Policy>, s: Settings)
  {
    && Inside(db, rows) && FreshIds(db, ids) && ids.Keys == Live(db, rows, now, policies)
    && OnlyThese(db, db', rows)
    && (forall d :: d in rows ==>
          db'.deliveries[d] ==
          if d in ids then LeasedRow(db.deliveries[d], worker, now, s) else SettledRow(db.deliveries[d], Expired, now))
    && (forall a :: a in db.attempts ==> a in db'.attempts && db'.attempts[a] == db.attempts[a])
    && (forall d :: d in ids ==>
          ids[d] in db'.attempts && db'.attempts[ids[d]] == OpenAttempt(d, db.deliveries[d].consumer, worker, now))
    && (forall a :: a in db'.attempts ==> a in db.attempts || Names(ids, a))
  }

  ghost function BatchFrom(db: Tables, ids: map<DeliveryId, AttemptId>): set<Claimed>
    requires Inside(db, ids.Keys)
  {
    set d | d in ids :: Claimed(d, ids[d], db.deliveries[d].attemptCount + 1)
  }

  ghost predicate Distinct(cs: set<Completion>) {
    && (forall x, y :: x in cs && y in cs && x.claimed.delivery == y.claimed.delivery ==> x == y)
    && (forall x, y :: x in cs && y in cs && x.claimed.attempt == y.claimed.attempt ==> x == y)
    && (forall x :: x in cs ==> x.claimed.attemptNo >= 1)
  }

  ghost function DeliveriesOf(cs: set<Completion>): set<DeliveryId> { set c | c in cs :: c.claimed.delivery }

  ghost function AttemptsIn(cs: set<Completion>): set<AttemptId> { set c | c in cs :: c.claimed.attempt }

  /** The completion transaction: each outcome written where its fence still holds. */
  ghost predicate Completes(
    db: Tables, db': Tables, worker: WorkerId, cs: set<Completion>, now: Time, s: Settings)
  {
    && Distinct(cs)
    && OnlyThese(db, db', DeliveriesOf(cs))
    && (forall c :: c in cs && c.claimed.delivery in db.deliveries ==>
          var d := db.deliveries[c.claimed.delivery];
          db'.deliveries[c.claimed.delivery] == if HeldBy(d, worker) then CompletedRow(d, c, now, s) else d)
    && db'.attempts.Keys == db.attempts.Keys
    && (forall c :: c in cs && c.claimed.attempt in db.attempts ==>
          var a := db.attempts[c.claimed.attempt];
          db'.attempts[c.claimed.attempt] == if IsOpen(a) then ClosedAttempt(a, c.outcome, now) else a)
    && (forall a :: a in db.attempts && a !in AttemptsIn(cs) ==> db'.attempts[a] == db.attempts[a])
  }

  /** The reaper's sweep over the expired leases it could lock. */
  ghost predicate Reclaims(db: Tables, db': Tables, rows: set<DeliveryId>, now: Time, s: Settings) {
    && (forall d :: d in rows ==>
          d in db.deliveries && LeaseRanOut(db.deliveries[d], now) && db.deliveries[d].attemptCount >= 1)
    && OnlyThese(db, db', rows)
    && (forall d :: d in rows ==> db'.deliveries[d] == ReclaimedRow(db.deliveries[d], now, s))
    && db'.attempts.Keys == db.attempts.Keys
    && (forall a :: a in db.attempts ==>
          db'.attempts[a] ==
          if db.attempts[a].delivery in rows && IsOpen(db.attempts[a])
          then ClosedAttempt(db.attempts[a], LeaseExpired, now) else db.attempts[a])
  }

  /** `apply_drops`: by id alone, whatever state the row is in. */
  ghost predicate AppliesDrops(db: Tables, db': Tables, drops: map<DeliveryId, DeliveryState>, now: Time) {
    && db'.attempts == db.attempts
    && OnlyThese(db, db', drops.Keys)
    && forall d :: d in drops && d in db.deliveries ==> db'.deliveries[d] == SettledRow(db.deliveries[d], drops[d], now)
  }

  /** `mark_ready`: by id alone, whatever state the row is in. */
  ghost predicate MarksReady(db: Tables, db': Tables, ids: set<DeliveryId>, now: Time) {
    && db'.attempts == db.attempts
    && OnlyThese(db, db', ids)
    && forall d :: d in ids && d in db.deliveries ==> db'.deliveries[d] == ReadyRow(db.deliveries[d], now)
  }

  // ---- The statements, in columns ----

  /** A new row copies its event, waits from the event's time on, and has been through nothing yet. */
  lemma IngestMeans(db: Tables, db': Tables, subs: set<Stream>, d: DeliveryId)
    requires Ingests(db, db', subs) && d in db'.deliveries && d !in db.deliveries
    ensures var row := db'.deliveries[d];
            && row.event in db'.events && row.event !in db.events
            && Stream(row.consumer, db'.events[row.event].eventType) in subs
            && row.eventType == db'.events[row.event].eventType
            && row.entityKey == db'.events[row.event].entityKey
            && row.createdAt == row.nextAttemptAt == db'.events[row.event].occurredAt
            && row.state == Pending && row.attemptCount == 0
            && row.readyAt == row.leaseExpiresAt == row.completedAt == None && row.leasedBy == None
  {
    assert FansOut(db, db', subs, db'.deliveries[d].event, d, db'.deliveries[d].consumer);
  }

  /** A claimed row is leased until the claim's instant plus the lease, or expires for good past its bound. */
  lemma ClaimMeans(
    db: Tables, db': Tables, worker: WorkerId, rows: set<DeliveryId>, ids: map<DeliveryId, AttemptId>, now: Time,
    policies: map<Stream, Policy>, s: Settings, d: DeliveryId)
    requires Claims(db, db', worker, rows, ids, now, policies, s) && d in db.deliveries
    ensures d in db'.deliveries
    ensures var was, stream := db.deliveries[d], Stream(db.deliveries[d].consumer, db.deliveries[d].eventType);
            d in ids <==>
              && d in rows
              && !(&& stream in policies && policies[stream].maxStalenessS.Some?
                   && was.createdAt + policies[stream].maxStalenessS.value < now)
    ensures var was := db.deliveries[d];
            db'.deliveries[d] == if d in ids then
                                   was.(state := InFlight, attemptCount := was.attemptCount + 1,
                                        leasedBy := Some(worker), leaseExpiresAt := Some(now + s.leaseS))
                                 else if d in rows then was.(state := Expired, completedAt := Some(now))
                                 else was
    ensures d in ids ==>
              && ids[d] in db'.attempts && ids[d] !in db.attempts
              && db'.attempts[ids[d]] == Attempt(d, db.deliveries[d].consumer, worker, now, None, None)
  {
    StaleMeans(now, db.deliveries[d].createdAt, db.deliveries[d].consumer, db.deliveries[d].eventType, policies);
    hide IsStale;
  }

  /** A completion moves the row its worker still holds, and closes the attempt that is still open. */
  lemma CompletionMeans(
    db: Tables, db': Tables, worker: WorkerId, cs: set<Completion>, now: Time, s: Settings, c: Completion)
    requires Completes(db, db', worker, cs, now, s) && c in cs
    ensures c.claimed.attemptNo >= 1
    ensures c.claimed.delivery in db.deliveries ==>
              && c.claimed.delivery in db'.deliveries
              && var was := db.deliveries[c.claimed.delivery];
                 db'.deliveries[c.claimed.delivery]
                 == if was.state != InFlight || was.leasedBy != Some(worker) then was
                    else if c.outcome == Ok then was.(state := Delivered, completedAt := Some(now))
                    else if c.claimed.attemptNo >= s.maxAttempts then was.(state := Failed, completedAt := Some(now))
                    else was.(state := Pending, nextAttemptAt := now + BackoffS(c.claimed.attemptNo, s))
    ensures c.claimed.attempt in db.attempts ==>
              && c.claimed.attempt in db'.attempts
              && var was := db.attempts[c.claimed.attempt];
                 db'.attempts[c.claimed.attempt]
                 == if was.finishedAt.Some? then was
                    else was.(finishedAt := Some(now), outcome := Some(c.outcome))
  {
    hide BackoffS;
  }

  /** A reclaimed row loses its lease, back in the queue or failed at the cap, and its open attempt is closed. */
  lemma ReclaimMeans(db: Tables, db': Tables, rows: set<DeliveryId>, now: Time, s: Settings, d: DeliveryId)
    requires Reclaims(db, db', rows, now, s) && d in db.deliveries
    ensures d in rows ==>
              && db.deliveries[d].state == InFlight && db.deliveries[d].attemptCount >= 1
              && db.deliveries[d].leaseExpiresAt.Some? && db.deliveries[d].leaseExpiresAt.value < now
    ensures d in db'.deliveries
    ensures var was := db.deliveries[d];
            db'.deliveries[d]
            == if d !in rows then was
               else if was.attemptCount >= s.maxAttempts then
                 was.(state := Failed, completedAt := Some(now), leasedBy := None, leaseExpiresAt := None)
               else was.(state := Pending, nextAttemptAt := now + BackoffS(was.attemptCount, s),
                         leasedBy := None, leaseExpiresAt := None)
    ensures forall a :: a in db.attempts && db.attempts[a].delivery == d ==>
              && a in db'.attempts
              && db'.attempts[a] == if d in rows && db.attempts[a].finishedAt.None? then
                                      db.attempts[a].(finishedAt := Some(now), outcome := Some(LeaseExpired))
                                    else db.attempts[a]
  {
    hide BackoffS;
  }

  /** A drop settles a row and an admission makes one ready, whatever state it was in; the other columns stand. */
  lemma DropMeans(db: Tables, db': Tables, drops: map<DeliveryId, DeliveryState>, now: Time, d: DeliveryId)
    requires AppliesDrops(db, db', drops, now) && d in db.deliveries
    ensures d in db'.deliveries
    ensures db'.deliveries[d] == if d !in drops then db.deliveries[d]
                                 else db.deliveries[d].(state := drops[d], completedAt := Some(now))
  {
  }

  lemma AdmissionMeans(db: Tables, db': Tables, ids: set<DeliveryId>, now: Time, d: DeliveryId)
    requires MarksReady(db, db', ids, now) && d in db.deliveries
    ensures d in db'.deliveries
    ensures db'.deliveries[d] == if d !in ids then db.deliveries[d]
                                 else db.deliveries[d].(state := Ready, readyAt := Some(now))
  {
  }
}
