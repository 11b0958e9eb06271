/**
 * Retries wait their turn: over a whole run, no attempt at a delivery starts before the previous one ended and its
 * backoff passed, whoever ended it, worker or reaper (app/worker/claim.py, app/conductor/reaper.py).
 */
module Backoff {
  import opened Model
  import opened Sets
  import opened Policies
  import opened Lifecycle
  import opened Admission
  import opened Fences
  import opened Machine
  import opened Runs

  /** Which attempt at its delivery this was. */
  ghost function Ordinal(db: Tables, a: AttemptId): int
    requires a in db.attempts
  {
    |set x | x in AttemptsAt(db, db.attempts[a].delivery) && x <= a|
  }

  ghost predicate EndedBy(at: Attempt, backoff: real, start: Time) {
    at.finishedAt.Some? && at.finishedAt.value + backoff <= start
  }

  /** No attempt at the delivery came between these two. */
  ghost predicate Follows(db: Tables, a: AttemptId, b: AttemptId)
    requires a in db.attempts && b in db.attempts
  {
    && a < b && db.attempts[a].delivery == db.attempts[b].delivery
    && forall x :: x in AttemptsAt(db, db.attempts[a].delivery) ==> x <= a || b <= x
  }

  /**
    * An attempt ended, and its backoff passed, before the next at its delivery started; and it ended at all before
    * any later one.
    */
  ghost predicate SpacedAt(db: Tables, s: Settings, a: AttemptId, b: AttemptId)
    requires a in db.attempts && b in db.attempts
  {
    && (a < b && db.attempts[a].delivery == db.attempts[b].delivery ==> db.attempts[a].finishedAt.Some?)
    && (Follows(db, a, b) ==>
          Ordinal(db, a) >= 1 && EndedBy(db.attempts[a], BackoffS(Ordinal(db, a), s), db.attempts[b].startedAt))
  }

  ghost predicate Spaced(db: Tables, s: Settings) {
    forall a, b {:trigger SpacedAt(db, s, a, b)} :: a in db.attempts && b in db.attempts ==> SpacedAt(db, s, a, b)
  }

  /** A row back in the queue is due when its last attempt's end plus the backoff for that many attempts comes. */
  ghost predicate Waits(db: Tables, s: Settings, d: DeliveryId)
    requires d in db.deliveries
  {
    var row := db.deliveries[d];
    Queued(row) && row.attemptCount >= 1 ==>
      exists a :: Last(db, d, a) && db.attempts[a].finishedAt.Some?
                  && row.nextAttemptAt == db.attempts[a].finishedAt.value + BackoffS(row.attemptCount, s)
  }

  ghost predicate AllWait(db: Tables, s: Settings) {
    forall d {:trigger Waits(db, s, d)} :: d in db.deliveries ==> Waits(db, s, d)
  }

  ghost predicate EndsAfterStart(db: Tables) {
    forall a :: a in db.attempts && db.attempts[a].finishedAt.Some? ==>
        db.attempts[a].startedAt <= db.attempts[a].finishedAt.value
  }

  ghost predicate DueBy(db: Tables, d: DeliveryId, t: Time) {
    d in db.deliveries && db.deliveries[d].nextAttemptAt <= t
  }

  /** Nothing is ready, locked or about to be admitted before it is due. */
  ghost predicate NoneEarly(w: World) {
    && (forall d :: ReadyAt(w.db, d) ==> DueBy(w.db, d, Horizon(w)))
    && (forall k, d :: k in w.workers && w.workers[k].Claiming? && d in w.workers[k].rows ==>
        DueBy(w.db, d, w.workers[k].stamp))
    && match w.conductor
       case Fetched(pass, _, _, cs) => forall i :: 0 <= i < |cs| ==> DueBy(w.db, cs[i].id, pass.now)
       case Decided(pass, _, admit) => forall d :: d in admit ==> DueBy(w.db, d, pass.now)
       case Dropped(pass, admit) => forall d :: d in admit ==> DueBy(w.db, d, pass.now)
       case _ => true
  }

  ghost predicate BackoffInv(sim: Simulation, w: World) {
    Spaced(w.db, sim.settings) && AllWait(w.db, sim.settings) && NoneEarly(w)
  }

  lemma BackoffIsPositive(n: int, s: Settings)
    requires n >= 1
    ensures BackoffS(n, s) >= 0.0
  {
    BackoffDoubles(n, s);
  }

  // ---- Attempts are closed, never moved ----

  lemma OrdinalKept(db: Tables, db': Tables, a: AttemptId)
    requires SameAttempts(db, db') && a in db.attempts
    ensures Ordinal(db', a) == Ordinal(db, a)
    ensures forall b :: b in db.attempts ==> (Follows(db', a, b) <==> Follows(db, a, b))
  {
    LastKept(db, db', db.attempts[a].delivery);
  }

  /** Closing open attempts now keeps what was spaced: an earlier attempt was already closed. */
  lemma ClosingKeepsSpaced(db: Tables, db': Tables, s: Settings)
    requires Spaced(db, s) && SameAttempts(db, db')
    requires forall a :: a in db.attempts && !IsOpen(db.attempts[a]) ==> db'.attempts[a] == db.attempts[a]
    ensures Spaced(db', s)
  {
    hide Ordinal;
    forall a, b | a in db'.attempts && b in db'.attempts
      ensures SpacedAt(db', s, a, b)
    {
      assert SpacedAt(db, s, a, b);
      OrdinalKept(db, db', a);
    }
  }

  lemma WaitsKept(db: Tables, db': Tables, s: Settings, d: DeliveryId)
    requires d in db.deliveries && d in db'.deliveries && Waits(db, s, d)
    requires Queued(db'.deliveries[d]) ==>
               && Queued(db.deliveries[d]) && db'.deliveries[d].attemptCount == db.deliveries[d].attemptCount
               && db'.deliveries[d].nextAttemptAt == db.deliveries[d].nextAttemptAt
    requires forall a :: Last(db, d, a) && !IsOpen(db.attempts[a]) ==>
        Last(db', d, a) && db'.attempts[a] == db.attempts[a]
    ensures Waits(db', s, d)
  {
    hide BackoffS;
    if Queued(db'.deliveries[d]) && db'.deliveries[d].attemptCount >= 1 {
      var a :| Last(db, d, a) && db.attempts[a].finishedAt.Some?
               && db.deliveries[d].nextAttemptAt ==
                   db.attempts[a].finishedAt.value + BackoffS(db.deliveries[d].attemptCount, s);
      assert Last(db', d, a);
    }
  }

  lemma SameTablesWait(db: Tables, db': Tables, s: Settings)
    requires Spaced(db, s) && AllWait(db, s) && db'.attempts == db.attempts
    requires forall d :: d in db.deliveries ==> d in db'.deliveries
    requires forall d :: d in db'.deliveries && Queued(db'.deliveries[d]) ==>
               if d in db.deliveries then
                 Queued(db.deliveries[d]) && db'.deliveries[d].attemptCount == db.deliveries[d].attemptCount
                 && db'.deliveries[d].nextAttemptAt == db.deliveries[d].nextAttemptAt
               else db'.deliveries[d].attemptCount == 0
    ensures Spaced(db', s) && AllWait(db', s)
  {
    hide Ordinal;
    ClosingKeepsSpaced(db, db', s);
    forall d | d in db'.deliveries
      ensures Waits(db', s, d)
    {
      LastKept(db, db', d);
      if d in db.deliveries { assert Waits(db, s, d); WaitsKept(db, db', s, d); }
    }
  }

  // ---- Steps ----

  lemma ReadBackoff(sim: Simulation, w: World, a: Action, w': World)
    requires Inv(sim, w) && BackoffInv(sim, w) && Next(sim, w, a, w') && Reads(a)
    ensures BackoffInv(sim, w')
  {
    hide Spaced, AllWait, Sound, Next, WorkersOk;
    ReadsLeaveTables(sim, w, a, w');
    TimeGoesForward(sim, w, a, w');
    if a.Fetch? { FetchNoneEarly(sim, w, a, w'); }
  }

  lemma FetchNoneEarly(sim: Simulation, w: World, a: Action, w': World)
    requires a.Fetch? && Next(sim, w, a, w')
    ensures w.conductor != Away && w'.conductor.Fetched? && forall i :: 0 <= i < |a.fetched| ==>
        DueBy(w.db, a.fetched[i].id, w'.conductor.pass.now)
  {
    FetchedAreDue(sim, w, a, w');
    hide FairFetch, FifoFetch;
  }

  lemma StillBackoff(sim: Simulation, w: World, a: Action, w': World)
    requires Inv(sim, w) && BackoffInv(sim, w) && Next(sim, w, a, w') && (a.Tick? || a.Rewrite? || a.Abandon?)
    ensures BackoffInv(sim, w')
  {
    hide Spaced, AllWait, Sound, WorkersOk;
    TimeGoesForward(sim, w, a, w');
  }

  /** A ready row is due by the present instant, so by the stamp of any lock taken on it. */
  lemma LockBackoff(sim: Simulation, w: World, a: Action, w': World)
    requires Inv(sim, w) && BackoffInv(sim, w) && a.Lock? && Next(sim, w, a, w')
    ensures BackoffInv(sim, w')
  {
    hide Spaced, AllWait, Sound, WorkersOk;
    HorizonIsPast(sim, w);
    forall d | d in a.rows
      ensures DueBy(w.db, d, Now(w))
    {
      assert ReadyAt(w.db, d);
    }
  }

  lemma DecideBackoff(sim: Simulation, w: World, a: Action, w': World)
    requires Inv(sim, w) && BackoffInv(sim, w) && a.Decide? && Next(sim, w, a, w')
    ensures BackoffInv(sim, w')
  {
    hide Spaced, AllWait, Sound;
    forall d | d in w'.conductor.admit
      ensures DueBy(w.db, d, w.conductor.pass.now)
    {
      var i :| 0 <= i < |a.admitted| && a.admitted[i].id == d;
      AdmittedSurvived(w, sim, a, i);
      var j :| 0 <= j < |w.conductor.candidates| && w.conductor.candidates[j] == a.admitted[i];
    }
  }

  lemma IngestBackoff(sim: Simulation, w: World, a: Action, w': World)
    requires Inv(sim, w) && BackoffInv(sim, w) && a.Ingest? && Next(sim, w, a, w')
    ensures BackoffInv(sim, w')
  {
    hide Spaced, AllWait, Sound;
    forall d | d in w'.db.deliveries && d !in w.db.deliveries
      ensures w'.db.deliveries[d].attemptCount == 0 && w'.db.deliveries[d].state == Pending
    {
      assert FansOut(w.db, w'.db, sim.subscriptions, w'.db.deliveries[d].event, d, w'.db.deliveries[d].consumer);
    }
    SameTablesWait(w.db, w'.db, sim.settings);
    forall d | ReadyAt(w'.db, d)
      ensures DueBy(w'.db, d, Horizon(w'))
    {
      assert ReadyAt(w.db, d);
    }
  }

  lemma DropBackoff(sim: Simulation, w: World, a: Action, w': World)
    requires Inv(sim, w) && BackoffInv(sim, w) && a.DropCondemned? && Next(sim, w, a, w')
    ensures BackoffInv(sim, w')
  {
    hide Spaced, AllWait, Sound;
    assert forall d :: d in w.conductor.drops ==> w.conductor.drops[d] == Expired || w.conductor.drops[d] == Superseded;
    SameTablesWait(w.db, w'.db, sim.settings);
    DropNoneEarly(sim, w, a, w');
  }

  lemma DropNoneEarly(sim: Simulation, w: World, a: Action, w': World)
    requires ConductorOk(w) && NoneEarly(w) && a.DropCondemned? && Next(sim, w, a, w')
    ensures NoneEarly(w')
  {
    assert forall d :: d in w.conductor.drops ==> w.conductor.drops[d] == Expired || w.conductor.drops[d] == Superseded;
    assert forall d :: ReadyAt(w'.db, d) ==> ReadyAt(w.db, d);
  }

  lemma AdmitBackoff(sim: Simulation, w: World, a: Action, w': World)
    requires Inv(sim, w) && BackoffInv(sim, w) && a.Admit? && Next(sim, w, a, w')
    ensures BackoffInv(sim, w')
  {
    hide Spaced, AllWait, Sound;
    assert forall d :: d in w.conductor.admit ==> PendingAt(w.db, d) && DueBy(w.db, d, w.conductor.pass.now);
    SameTablesWait(w.db, w'.db, sim.settings);
    forall d | ReadyAt(w'.db, d)
      ensures DueBy(w'.db, d, Horizon(w'))
    {
      if d !in w.conductor.admit { assert ReadyAt(w.db, d); }
    }
  }

  /** A completion that requeues stamps the end it just wrote plus the backoff for the row's own count. */
  lemma CompleteWaits(sim: Simulation, w: World, a: Action, w': World, d: DeliveryId)
    requires Inv(sim, w) && BackoffInv(sim, w) && a.Complete? && Next(sim, w, a, w') && SameAttempts(w.db, w'.db)
    requires d in w'.db.deliveries
    ensures Waits(w'.db, sim.settings, d)
  {
    hide BackoffS, Spaced, NoneEarly;
    var worker := a.worker;
    assert Waits(w.db, sim.settings, d) && WorkerOk(w, worker);
    LastKept(w.db, w'.db, d);
    if d in DeliveriesOf(a.outcomes) && HeldBy(w.db.deliveries[d], worker) {
      var c :| c in a.outcomes && c.claimed.delivery == d;
      FencesAgree(w.db, sim.settings, worker, w.workers[worker].batch, c.claimed);
      assert Last(w'.db, d, c.claimed.attempt);
    } else {
      assert w'.db.deliveries[d] == w.db.deliveries[d];
      WaitsKept(w.db, w'.db, sim.settings, d);
    }
  }

  lemma CompleteBackoff(sim: Simulation, w: World, a: Action, w': World)
    requires Inv(sim, w) && BackoffInv(sim, w) && a.Complete? && Next(sim, w, a, w')
    ensures BackoffInv(sim, w')
  {
    CompleteStep(sim, w, a, w');
    forall x | x in w.db.attempts && !IsOpen(w.db.attempts[x])
      ensures w'.db.attempts[x] == w.db.attempts[x]
    {
      if x in AttemptsIn(a.outcomes) { var c :| c in a.outcomes && c.claimed.attempt == x; }
    }
    ClosingKeepsSpaced(w.db, w'.db, sim.settings);
    forall d | d in w'.db.deliveries
      ensures Waits(w'.db, sim.settings, d)
    {
      CompleteWaits(sim, w, a, w', d);
    }
    hide Spaced, AllWait, Sound, Waits;
    CompleteNoneEarly(sim, w, a, w');
  }

  lemma CompleteNoneEarly(sim: Simulation, w: World, a: Action, w': World)
    requires Inv(sim, w) && NoneEarly(w) && a.Complete? && Next(sim, w, a, w')
    ensures NoneEarly(w')
  {
    hide Sound, Completes;
    CompleteTouchesInFlight(w.db, w'.db, a.worker, a.outcomes, Now(w), sim.settings);
    forall k, d | k in w'.workers && w'.workers[k].Claiming? && d in w'.workers[k].rows
      ensures DueBy(w'.db, d, w'.workers[k].stamp)
    {
      assert WorkerOk(w, k) && ReadyAt(w.db, d);
    }
  }

  lemma ReclaimWaits(sim: Simulation, w: World, a: Action, w': World, d: DeliveryId)
    requires Inv(sim, w) && BackoffInv(sim, w) && a.Begin? && Next(sim, w, a, w') && SameAttempts(w.db, w'.db)
    requires d in w'.db.deliveries
    ensures Waits(w'.db, sim.settings, d)
  {
    hide BackoffS, Spaced, NoneEarly;
    assert Waits(w.db, sim.settings, d);
    LastKept(w.db, w'.db, d);
    if d in a.reclaimed {
      var x := LeasedIsOpen(w.db, sim.settings, d);
      assert Last(w'.db, d, x);
    } else {
      WaitsKept(w.db, w'.db, sim.settings, d);
    }
  }

  lemma ReclaimBackoff(sim: Simulation, w: World, a: Action, w': World)
    requires Inv(sim, w) && BackoffInv(sim, w) && a.Begin? && Next(sim, w, a, w')
    ensures BackoffInv(sim, w')
  {
    ReclaimStep(sim, w, a, w');
    ClosingKeepsSpaced(w.db, w'.db, sim.settings);
    forall d | d in w'.db.deliveries
      ensures Waits(w'.db, sim.settings, d)
    {
      ReclaimWaits(sim, w, a, w', d);
    }
    hide Spaced, AllWait, Sound, Waits;
    ReclaimNoneEarly(sim, w, a, w');
  }

  lemma ReclaimNoneEarly(sim: Simulation, w: World, a: Action, w': World)
    requires Inv(sim, w) && NoneEarly(w) && a.Begin? && Next(sim, w, a, w')
    ensures NoneEarly(w')
  {
    hide Sound;
    forall d | ReadyAt(w'.db, d)
      ensures ReadyAt(w.db, d)
    {
    }
    forall k, d | k in w'.workers && w'.workers[k].Claiming? && d in w'.workers[k].rows
      ensures DueBy(w'.db, d, w'.workers[k].stamp)
    {
      assert WorkerOk(w, k) && ReadyAt(w.db, d);
    }
  }

  lemma OrdinalsStand(sim: Simulation, w: World, a: Action, w': World, x: AttemptId)
    requires a.Commit? && Next(sim, w, a, w') && x in w.db.attempts
    ensures x in w'.db.attempts && Ordinal(w'.db, x) == Ordinal(w.db, x)
  {
    var d, k := w.db.attempts[x].delivery, a.worker;
    ClaimAddsOne(w.db, w'.db, k, w.workers[k].rows, a.ids, w.workers[k].stamp, sim.policies, sim.settings, d);
    assert forall y :: y in AttemptsAt(w'.db, d) && y <= x <==> y in AttemptsAt(w.db, d) && y <= x;
    assert (set y | y in AttemptsAt(w'.db, d) && y <= x) == (set y | y in AttemptsAt(w.db, d) && y <= x);
  }

  /** The attempt a commit opens comes after the last one's backoff: its row was due when it was locked. */
  lemma NewAttemptIsSpaced(db: Tables, s: Settings, d: DeliveryId, a: AttemptId, start: Time)
    requires Sound(db, s) && Spaced(db, s) && AllWait(db, s)
    requires ReadyAt(db, d) && DueBy(db, d, start) && a in AttemptsAt(db, d)
    ensures db.attempts[a].finishedAt.Some? && Ordinal(db, a) >= 1
    ensures Last(db, d, a) ==> EndedBy(db.attempts[a], BackoffS(Ordinal(db, a), s), start)
  {
    hide BackoffS;
    var row := db.deliveries[d];
    assert RowOk(db, s, d) && Waits(db, s, d);
    SubsetSize({a}, AttemptsAt(db, d));
    var last :| Last(db, d, last) && db.attempts[last].finishedAt.Some?
                && row.nextAttemptAt == db.attempts[last].finishedAt.value + BackoffS(row.attemptCount, s);
    assert (set x | x in AttemptsAt(db, d) && x <= last) == AttemptsAt(db, d);
    SubsetSize({a}, set x | x in AttemptsAt(db, d) && x <= a);
    assert a != last ==> SpacedAt(db, s, a, last);
  }

  lemma CommitSpaces(sim: Simulation, w: World, a: Action, w': World)
    requires Inv(sim, w) && BackoffInv(sim, w) && a.Commit? && Next(sim, w, a, w')
    ensures Spaced(w'.db, sim.settings)
  {
    forall x, y | x in w'.db.attempts && y in w'.db.attempts
      ensures SpacedAt(w'.db, sim.settings, x, y)
    {
      CommitSpacesPair(sim, w, a, w', x, y);
    }
  }

  lemma NewAttemptFacts(sim: Simulation, w: World, a: Action, w': World, y: AttemptId)
    requires Inv(sim, w) && NoneEarly(w) && a.Commit? && Next(sim, w, a, w') && y in w'.db.attempts
        && y !in w.db.attempts
    ensures a.worker in w.workers && w.workers[a.worker].Claiming?
    ensures var d, stamp := w'.db.attempts[y].delivery, w.workers[a.worker].stamp;
            w'.db.attempts[y].startedAt == stamp && ReadyAt(w.db, d) && DueBy(w.db, d, stamp)
    ensures forall x :: x in AttemptsAt(w'.db, w'.db.attempts[y].delivery) && x != y ==> x in w.db.attempts
  {
    hide Sound;
    assert WorkerOk(w, a.worker);
    assert Names(a.ids, y);
    forall x | x in w'.db.attempts && x !in w.db.attempts
      ensures Names(a.ids, x)
    {
    }
  }

  lemma AttemptStands(sim: Simulation, w: World, a: Action, w': World, x: AttemptId)
    requires a.Commit? && Next(sim, w, a, w') && x in w.db.attempts
    ensures x in w'.db.attempts && w'.db.attempts[x] == w.db.attempts[x]
  {
  }

  lemma NewIsLater(sim: Simulation, w: World, a: Action, w': World, x: AttemptId, y: AttemptId)
    requires a.Commit? && Next(sim, w, a, w') && x in w'.db.attempts && x !in w.db.attempts && y in w.db.attempts
    requires w'.db.attempts[x].delivery == w.db.attempts[y].delivery
    ensures y < x
  {
    assert Names(a.ids, x);
  }

  lemma OldPairStands(sim: Simulation, w: World, a: Action, w': World, x: AttemptId, y: AttemptId)
    requires a.Commit? && Next(sim, w, a, w') && x in w.db.attempts && y in w.db.attempts
        && SpacedAt(w.db, sim.settings, x, y)
    ensures x in w'.db.attempts && y in w'.db.attempts && SpacedAt(w'.db, sim.settings, x, y)
  {
    hide Next, BackoffS, Ordinal, Follows;
    OrdinalsStand(sim, w, a, w', x);
    AttemptStands(sim, w, a, w', x);
    AttemptStands(sim, w, a, w', y);
    FollowsStands(sim, w, a, w', x, y);
  }

  lemma NewPairIsSpaced(sim: Simulation, w: World, a: Action, w': World, x: AttemptId, y: AttemptId)
    requires Inv(sim, w) && BackoffInv(sim, w) && a.Commit? && Next(sim, w, a, w')
    requires x in w.db.attempts && y in w'.db.attempts && y !in w.db.attempts
    requires w.db.attempts[x].delivery == w'.db.attempts[y].delivery
    ensures x in w'.db.attempts && SpacedAt(w'.db, sim.settings, x, y)
  {
    hide Next, BackoffS, Ordinal, Follows, Sound, WorkersOk, ConductorOk, Spaced, AllWait, NoneEarly;
    var d := w.db.attempts[x].delivery;
    NewAttemptFacts(sim, w, a, w', y);
    OrdinalsStand(sim, w, a, w', x);
    AttemptStands(sim, w, a, w', x);
    NewAttemptIsSpaced(w.db, sim.settings, d, x, w.workers[a.worker].stamp);
    FollowsLast(sim, w, a, w', d, x, y);
  }

  lemma CommitSpacesPair(sim: Simulation, w: World, a: Action, w': World, x: AttemptId, y: AttemptId)
    requires Inv(sim, w) && BackoffInv(sim, w) && a.Commit? && Next(sim, w, a, w')
    requires x in w'.db.attempts && y in w'.db.attempts
    ensures SpacedAt(w'.db, sim.settings, x, y)
  {
    hide Next, Inv, BackoffS, Ordinal, Follows, AllWait, NoneEarly;
    if !(x < y && w'.db.attempts[x].delivery == w'.db.attempts[y].delivery) {
      NotFollowing(w'.db, x, y);
    } else if y in w.db.attempts {
      AttemptStands(sim, w, a, w', y);
      if x !in w.db.attempts { NewIsLater(sim, w, a, w', x, y); }
      assert SpacedAt(w.db, sim.settings, x, y);
      OldPairStands(sim, w, a, w', x, y);
    } else {
      NewAttemptFacts(sim, w, a, w', y);
      AttemptStands(sim, w, a, w', x);
      NewPairIsSpaced(sim, w, a, w', x, y);
    }
  }

  lemma NotFollowing(db: Tables, x: AttemptId, y: AttemptId)
    requires x in db.attempts && y in db.attempts && !(x < y && db.attempts[x].delivery == db.attempts[y].delivery)
    ensures !Follows(db, x, y)
  {
  }

  lemma FollowsStands(sim: Simulation, w: World, a: Action, w': World, x: AttemptId, y: AttemptId)
    requires a.Commit? && Next(sim, w, a, w') && x in w.db.attempts && y in w.db.attempts
    ensures x in w'.db.attempts && y in w'.db.attempts && (Follows(w'.db, x, y) ==> Follows(w.db, x, y))
  {
    var d, k := w.db.attempts[x].delivery, a.worker;
    ClaimAddsOne(w.db, w'.db, k, w.workers[k].rows, a.ids, w.workers[k].stamp, sim.policies, sim.settings, d);
  }

  lemma FollowsLast(sim: Simulation, w: World, a: Action, w': World, d: DeliveryId, x: AttemptId, y: AttemptId)
    requires a.Commit? && Next(sim, w, a, w') && x in AttemptsAt(w.db, d) && y in AttemptsAt(w'.db, d)
        && y !in w.db.attempts
    ensures x in w'.db.attempts && (Follows(w'.db, x, y) ==> Last(w.db, d, x))
  {
    forall z | z in AttemptsAt(w.db, d)
      ensures z < y && z in AttemptsAt(w'.db, d)
    {
      NewIsLater(sim, w, a, w', y, z);
      AttemptStands(sim, w, a, w', z);
    }
    hide Next;
    if Follows(w'.db, x, y) {
      assert forall z :: z in AttemptsAt(w.db, d) ==> z <= x;
      assert forall z :: z in w.db.attempts && w.db.attempts[z].delivery == d ==> z in AttemptsAt(w.db, d);
    }
  }

  lemma CommitWaits(sim: Simulation, w: World, a: Action, w': World, d: DeliveryId)
    requires Inv(sim, w) && BackoffInv(sim, w) && a.Commit? && Next(sim, w, a, w') && d in w'.db.deliveries
    ensures Waits(w'.db, sim.settings, d)
  {
    hide BackoffS, Sound, Spaced, NoneEarly;
    var k := a.worker;
    assert Waits(w.db, sim.settings, d);
    ClaimAddsOne(w.db, w'.db, k, w.workers[k].rows, a.ids, w.workers[k].stamp, sim.policies, sim.settings, d);
    if d !in w.workers[k].rows { WaitsKept(w.db, w'.db, sim.settings, d); }
  }

  lemma CommitNoneEarly(sim: Simulation, w: World, a: Action, w': World)
    requires Inv(sim, w) && NoneEarly(w) && a.Commit? && Next(sim, w, a, w')
    ensures NoneEarly(w')
  {
    hide Sound;
    forall d | ReadyAt(w'.db, d)
      ensures ReadyAt(w.db, d)
    {
    }
    assert WorkerOk(w, a.worker);
    forall d | d in w.workers[a.worker].rows
      ensures ReadyAt(w.db, d)
    {
    }
    forall k, d | k in w'.workers && w'.workers[k].Claiming? && d in w'.workers[k].rows
      ensures DueBy(w'.db, d, w'.workers[k].stamp)
    {
      assert k != a.worker && DueBy(w.db, d, w.workers[k].stamp);
    }
  }

  lemma CommitBackoff(sim: Simulation, w: World, a: Action, w': World)
    requires Inv(sim, w) && BackoffInv(sim, w) && a.Commit? && Next(sim, w, a, w')
    ensures BackoffInv(sim, w')
  {
    hide Inv, Next, Spaced, NoneEarly, Waits;
    CommitSpaces(sim, w, a, w');
    forall d | d in w'.db.deliveries
      ensures Waits(w'.db, sim.settings, d)
    {
      CommitWaits(sim, w, a, w', d);
    }
    CommitNoneEarly(sim, w, a, w');
  }

  lemma NextKeepsBackoff(sim: Simulation, w: World, a: Action, w': World)
    requires Inv(sim, w) && BackoffInv(sim, w) && Next(sim, w, a, w')
    ensures BackoffInv(sim, w')
  {
    hide *;
    Kinds(a);
    if a.Commit? {
      CommitBackoff(sim, w, a, w');
    } else if a.Complete? {
      CompleteBackoff(sim, w, a, w');
    } else if a.Begin? {
      ReclaimBackoff(sim, w, a, w');
    } else if a.Ingest? {
      IngestBackoff(sim, w, a, w');
    } else if a.Decide? {
      DecideBackoff(sim, w, a, w');
    } else if a.DropCondemned? {
      DropBackoff(sim, w, a, w');
    } else if a.Admit? {
      AdmitBackoff(sim, w, a, w');
    } else if Reads(a) {
      ReadBackoff(sim, w, a, w');
    } else if a.Lock? {
      LockBackoff(sim, w, a, w');
    } else {
      StillBackoff(sim, w, a, w');
    }
  }

  lemma InitialBackoff(sim: Simulation, w: World)
    requires Initial(w)
    ensures BackoffInv(sim, w)
  {
  }

  /** Where every attempt ended after it started, the spacing runs through any number of attempts in between. */
  lemma {:induction false} SpacedThroughout(db: Tables, s: Settings, a: AttemptId, b: AttemptId)
    requires Spaced(db, s) && EndsAfterStart(db) && a in db.attempts && b in db.attempts
    requires a < b && db.attempts[a].delivery == db.attempts[b].delivery
    ensures Ordinal(db, a) >= 1 && EndedBy(db.attempts[a], BackoffS(Ordinal(db, a), s), db.attempts[b].startedAt)
    decreases |AttemptsBetween(db, a, b)|
  {
    hide BackoffS, Ordinal;
    assert SpacedAt(db, s, a, b);
    if !Follows(db, a, b) {
      var x :| x in AttemptsAt(db, db.attempts[a].delivery) && a < x < b;
      FewerBetween(db, a, x, b);
      SpacedThroughout(db, s, a, x);
      SpacedThroughout(db, s, x, b);
      BackoffIsPositive(Ordinal(db, x), s);
    }
  }

  ghost function AttemptsBetween(db: Tables, a: AttemptId, b: AttemptId): set<AttemptId>
    requires a in db.attempts
  {
    set x | x in AttemptsAt(db, db.attempts[a].delivery) && a < x < b
  }

  lemma FewerBetween(db: Tables, a: AttemptId, x: AttemptId, b: AttemptId)
    requires a in db.attempts && x in AttemptsAt(db, db.attempts[a].delivery) && a < x < b
    ensures |AttemptsBetween(db, a, x)| < |AttemptsBetween(db, a, b)|
    ensures |AttemptsBetween(db, x, b)| < |AttemptsBetween(db, a, b)|
  {
    var all := AttemptsBetween(db, a, b);
    assert x in all;
    assert forall y :: y in AttemptsBetween(db, a, x) ==> y in all - {x};
    assert forall y :: y in AttemptsBetween(db, x, b) ==> y in all - {x};
    SubsetSize(AttemptsBetween(db, a, x), all - {x});
    SubsetSize(AttemptsBetween(db, x, b), all - {x});
  }

  // ---- Attempts end after they start, until a retirement sets the clock back ----

  ghost predicate StampedInPast(w: World) {
    && EndsAfterStart(w.db)
    && (forall a :: a in w.db.attempts ==> w.db.attempts[a].startedAt <= Now(w))
    && (forall k :: k in w.workers && w.workers[k].Claiming? ==> w.workers[k].stamp <= Now(w))
  }

  lemma CommitStamps(sim: Simulation, w: World, a: Action, w': World)
    requires StampedInPast(w) && a.Commit? && Next(sim, w, a, w')
    ensures StampedInPast(w')
  {
    forall x | x in w'.db.attempts && x !in w.db.attempts
      ensures IsOpen(w'.db.attempts[x]) && w'.db.attempts[x].startedAt <= Now(w)
    {
      assert Names(a.ids, x);
    }
  }

  lemma ClosingStamps(sim: Simulation, w: World, a: Action, w': World)
    requires StampedInPast(w) && (a.Complete? || a.Begin?) && Next(sim, w, a, w')
    ensures StampedInPast(w')
  {
    forall x | x in w'.db.attempts
      ensures w'.db.attempts[x].startedAt == w.db.attempts[x].startedAt
      ensures w'.db.attempts[x].finishedAt == w.db.attempts[x].finishedAt
          || w'.db.attempts[x].finishedAt == Some(Now(w))
    {
      if a.Complete? && x in AttemptsIn(a.outcomes) { var c :| c in a.outcomes && c.claimed.attempt == x; }
    }
  }

  lemma OtherStamps(sim: Simulation, w: World, a: Action, w': World)
    requires Inv(sim, w) && StampedInPast(w) && Next(sim, w, a, w')
        && !(a.Commit? || a.Complete? || a.Begin? || a.Finish?)
    ensures StampedInPast(w')
  {
    hide Sound, WorkersOk;
    TimeGoesForward(sim, w, a, w');
  }

  lemma NextKeepsStamps(sim: Simulation, w: World, a: Action, w': World)
    requires Inv(sim, w) && StampedInPast(w) && Next(sim, w, a, w') && !a.Finish?
    ensures StampedInPast(w')
  {
    hide *;
    if a.Commit? {
      CommitStamps(sim, w, a, w');
    } else if a.Complete? || a.Begin? {
      ClosingStamps(sim, w, a, w');
    } else {
      OtherStamps(sim, w, a, w');
    }
  }

  lemma {:induction false} EndsAfterStartUntilRetired(sim: Simulation, ws: seq<World>, acts: seq<Action>, n: nat)
    requires Run(sim, ws, acts) && Initial(ws[0]) && n <= |acts| && forall i :: 0 <= i < n ==> !acts[i].Finish?
    ensures StampedInPast(ws[n])
  {
    hide Inv, Next;
    if n > 0 {
      EndsAfterStartUntilRetired(sim, ws, acts, n - 1);
      RunKeepsInv(sim, ws, acts, n - 1);
      NextKeepsStamps(sim, ws[n - 1], acts[n - 1], ws[n]);
    }
  }

  /**
   * Retries wait: in every state of every run, of two attempts at one delivery the earlier has ended; the next starts
   * once the backoff for its ordinal has passed; and, until a retirement sets the clock back, so does every later one.
   */
  lemma {:induction false} RetriesWait(sim: Simulation, ws: seq<World>, acts: seq<Action>, n: nat, a: AttemptId,
      b: AttemptId)
    requires Run(sim, ws, acts) && Initial(ws[0]) && n <= |acts|
    requires a in ws[n].db.attempts && b in ws[n].db.attempts
    requires a < b && ws[n].db.attempts[a].delivery == ws[n].db.attempts[b].delivery
    ensures ws[n].db.attempts[a].finishedAt.Some?
    ensures Follows(ws[n].db, a, b) || (forall i :: 0 <= i < n ==> !acts[i].Finish?) ==>
              && Ordinal(ws[n].db, a) >= 1
              && ws[n].db.attempts[a].finishedAt.value + BackoffS(Ordinal(ws[n].db, a), sim.settings)
                 <= ws[n].db.attempts[b].startedAt
  {
    hide Inv, Next, Initial, AllWait, NoneEarly, Ordinal, BackoffS, Follows;
    RunKeepsBackoff(sim, ws, acts, n);
    assert SpacedAt(ws[n].db, sim.settings, a, b);
    if forall i :: 0 <= i < n ==> !acts[i].Finish? {
      EndsAfterStartUntilRetired(sim, ws, acts, n);
      SpacedThroughout(ws[n].db, sim.settings, a, b);
    }
  }

  lemma {:induction false} RunKeepsBackoff(sim: Simulation, ws: seq<World>, acts: seq<Action>, n: nat)
    requires Run(sim, ws, acts) && Initial(ws[0]) && n <= |acts|
    ensures BackoffInv(sim, ws[n])
  {
    hide Inv, Next, Initial, BackoffInv;
    if n == 0 {
      InitialBackoff(sim, ws[0]);
    } else {
      RunKeepsBackoff(sim, ws, acts, n - 1);
      RunKeepsInv(sim, ws, acts, n - 1);
      NextKeepsBackoff(sim, ws[n - 1], acts[n - 1], ws[n]);
    }
  }
}
