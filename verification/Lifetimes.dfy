/**
 * One delivery's life over a whole run: the moves it can make, how many, when they end, and how long a lease
 * protects a claim (app/worker/claim.py, app/conductor/reaper.py).
 */
module Lifetimes {
  import opened Model
  import opened Policies
  import opened Lifecycle
  import opened Fences
  import opened Machine
  import opened Runs

  /** The lifecycle, and nothing else ever rewritten but scheduling columns. */
  ghost predicate Move(was: Delivery, row: Delivery, s: Settings) {
    row == was || (
      && row.event == was.event && KeyOf(row) == KeyOf(was) && row.createdAt == was.createdAt
      && match was.state
         case Pending =>
           && row.attemptCount == was.attemptCount
           && (row.state == Ready || row.state == Expired || row.state == Superseded)
         case Ready =>
           || (row.state == InFlight && row.attemptCount == was.attemptCount + 1)
           || (row.state == Expired && row.attemptCount == was.attemptCount)
         case InFlight =>
           && row.attemptCount == was.attemptCount
           && (row.state == Delivered
               || (row.state == Pending && row.attemptCount < s.maxAttempts)
               || (row.state == Failed && row.attemptCount >= s.maxAttempts))
         case _ => false)
  }

  ghost predicate Moves(db: Tables, db': Tables, s: Settings) {
    forall d :: d in db.deliveries ==> d in db'.deliveries && Move(db.deliveries[d], db'.deliveries[d], s)
  }

  /** The worker's cap test on its own number and the reaper's on the row's count decide alike. */
  lemma CompleteMoves(sim: Simulation, w: World, a: Action, w': World)
    requires Inv(sim, w) && a.Complete? && Next(sim, w, a, w')
    ensures Moves(w.db, w'.db, sim.settings)
  {
    var worker, cs := a.worker, a.outcomes;
    assert WorkerOk(w, worker);
    var batch := w.workers[worker].batch;
    forall d | d in w.db.deliveries
      ensures Move(w.db.deliveries[d], w'.db.deliveries[d], sim.settings)
    {
      if d in DeliveriesOf(cs) {
        var c :| c in cs && c.claimed.delivery == d;
        FencesAgree(w.db, sim.settings, worker, batch, c.claimed);
      }
    }
  }

  lemma CommitMoves(sim: Simulation, w: World, a: Action, w': World)
    requires Inv(sim, w) && a.Commit? && Next(sim, w, a, w')
    ensures Moves(w.db, w'.db, sim.settings)
  {
    assert WorkerOk(w, a.worker);
    forall d | d in w.workers[a.worker].rows
      ensures ReadyAt(w.db, d)
    {
    }
  }

  lemma ConductorMoves(sim: Simulation, w: World, a: Action, w': World)
    requires Inv(sim, w) && (a.Begin? || a.DropCondemned? || a.Admit?) && Next(sim, w, a, w')
    ensures Moves(w.db, w'.db, sim.settings)
  {
    forall d | d in w.db.deliveries
      ensures Move(w.db.deliveries[d], w'.db.deliveries[d], sim.settings)
    {
      assert a.DropCondemned? && d in w.conductor.drops ==> PendingAt(w.db, d);
      assert a.Admit? && d in w.conductor.admit ==> PendingAt(w.db, d);
    }
  }

  lemma NoMoves(sim: Simulation, w: World, a: Action, w': World)
    requires Next(sim, w, a, w') && !(a.Complete? || a.Commit? || a.Begin? || a.DropCondemned? || a.Admit?)
    ensures Moves(w.db, w'.db, sim.settings)
  {
  }

  lemma NextMoves(sim: Simulation, w: World, a: Action, w': World)
    requires Inv(sim, w) && Next(sim, w, a, w')
    ensures Moves(w.db, w'.db, sim.settings)
  {
    hide *;
    if a.Complete? {
      CompleteMoves(sim, w, a, w');
    } else if a.Commit? {
      CommitMoves(sim, w, a, w');
    } else if a.Begin? || a.DropCondemned? || a.Admit? {
      ConductorMoves(sim, w, a, w');
    } else {
      NoMoves(sim, w, a, w');
    }
  }

  /** A settled row is never written again. */
  lemma SettledForGood(sim: Simulation, ws: seq<World>, acts: seq<Action>, m: nat, n: nat, d: DeliveryId)
    requires Run(sim, ws, acts) && Initial(ws[0]) && m <= n <= |acts|
    requires d in ws[m].db.deliveries && ws[m].db.deliveries[d].state.Terminal()
    ensures d in ws[n].db.deliveries && ws[n].db.deliveries[d] == ws[m].db.deliveries[d]
    decreases n
  {
    hide Next, Initial, Inv;
    if m < n {
      SettledForGood(sim, ws, acts, m, n - 1, d);
      RunKeepsInv(sim, ws, acts, n - 1);
      NextMoves(sim, ws[n - 1], acts[n - 1], ws[n]);
    }
  }

  // ---- Retries run out ----

  /** What is left of a delivery's life: three moves for each attempt it still has. */
  function Remaining(row: Delivery, s: Settings): int {
    match row.state
    case Pending => 3 * (s.maxAttempts - row.attemptCount)
    case Ready => 3 * (s.maxAttempts - row.attemptCount) - 1
    case InFlight => 3 * (s.maxAttempts - row.attemptCount) + 1
    case _ => 0
  }

  lemma MoveSpends(was: Delivery, row: Delivery, s: Settings)
    requires Move(was, row, s) && row != was
    requires was.attemptCount <= s.maxAttempts && (Queued(was) ==> was.attemptCount < s.maxAttempts)
    ensures 0 <= Remaining(row, s) < Remaining(was, s)
  {
  }

  /** How many of the first n steps changed the row. */
  ghost function MovesOf(ws: seq<World>, d: DeliveryId, n: nat): nat
    requires n < |ws|
  {
    if n == 0 then 0
    else
      MovesOf(ws, d, n - 1)
      + if && d in ws[n - 1].db.deliveries && d in ws[n].db.deliveries
           && ws[n].db.deliveries[d] != ws[n - 1].db.deliveries[d] then 1 else 0
  }

  ghost predicate Budgeted(sim: Simulation, ws: seq<World>, d: DeliveryId, n: nat)
    requires n < |ws|
  {
    if d in ws[n].db.deliveries
    then 0 <= Remaining(ws[n].db.deliveries[d], sim.settings)
         && MovesOf(ws, d, n) + Remaining(ws[n].db.deliveries[d], sim.settings) <= 3 * sim.settings.maxAttempts
    else MovesOf(ws, d, n) == 0
  }

  lemma NewRowsArePending(sim: Simulation, w: World, a: Action, w': World, d: DeliveryId)
    requires Next(sim, w, a, w') && d in w'.db.deliveries && d !in w.db.deliveries
    ensures a.Ingest? && w'.db.deliveries[d].state == Pending && w'.db.deliveries[d].attemptCount == 0
  {
    if a.Ingest? {
      assert FansOut(w.db, w'.db, sim.subscriptions, w'.db.deliveries[d].event, d, w'.db.deliveries[d].consumer);
    }
  }

  /** A delivery moves at most three times for each attempt it may have, and its attempts stay within the cap. */
  lemma {:induction false} RetriesRunOut(sim: Simulation, ws: seq<World>, acts: seq<Action>, n: nat, d: DeliveryId)
    requires Run(sim, ws, acts) && Initial(ws[0]) && n <= |acts|
    ensures Budgeted(sim, ws, d, n)
    ensures MovesOf(ws, d, n) <= 3 * sim.settings.maxAttempts
    ensures d in ws[n].db.deliveries ==>
              && ws[n].db.deliveries[d].attemptCount == |AttemptsAt(ws[n].db, d)| <= sim.settings.maxAttempts
  {
    hide Next;
    RunKeepsInv(sim, ws, acts, n);
    assert d in ws[n].db.deliveries ==> RowOk(ws[n].db, sim.settings, d);
    if n > 0 {
      RetriesRunOut(sim, ws, acts, n - 1, d);
      RunKeepsInv(sim, ws, acts, n - 1);
      NextMoves(sim, ws[n - 1], acts[n - 1], ws[n]);
      if d in ws[n - 1].db.deliveries {
        assert RowOk(ws[n - 1].db, sim.settings, d);
        if ws[n].db.deliveries[d] != ws[n - 1].db.deliveries[d] {
          MoveSpends(ws[n - 1].db.deliveries[d], ws[n].db.deliveries[d], sim.settings);
        }
      } else if d in ws[n].db.deliveries {
        NewRowsArePending(sim, ws[n - 1], acts[n - 1], ws[n], d);
      }
    }
  }

  // ---- Leases ----

  /** A claim in hand is still open, or its lease ran out strictly before any instant the clock can still read. */
  ghost predicate LeaseKept(sim: Simulation, w: World, k: WorkerId)
    requires k in w.workers
  {
    w.workers[k].Holding? ==> forall c :: c in w.workers[k].batch && c.attempt in w.db.attempts ==>
      IsOpen(w.db.attempts[c.attempt]) || w.db.attempts[c.attempt].startedAt + sim.settings.leaseS < Horizon(w)
  }

  ghost predicate LeasesKept(sim: Simulation, w: World) {
    forall k {:trigger LeaseKept(sim, w, k)} :: k in w.workers ==> LeaseKept(sim, w, k)
  }

  lemma LeaseUndisturbed(sim: Simulation, w: World, w': World)
    requires WorkersOk(w) && LeasesKept(sim, w) && Horizon(w) <= Horizon(w')
    requires forall k :: k in w'.workers && w'.workers[k].Holding? ==> k in w.workers && w'.workers[k] == w.workers[k]
    requires forall a :: a in w.db.attempts ==> a in w'.db.attempts && w'.db.attempts[a] == w.db.attempts[a]
    ensures LeasesKept(sim, w')
  {
    forall k | k in w'.workers
      ensures LeaseKept(sim, w', k)
    {
      if w'.workers[k].Holding? {
        assert WorkerOk(w, k) && LeaseKept(sim, w, k);
        forall c | c in w.workers[k].batch
          ensures c.attempt in w.db.attempts
        {
          assert ClaimOk(w.db, k, c);
        }
      }
    }
  }

  lemma CommitLeases(sim: Simulation, w: World, a: Action, w': World)
    requires Inv(sim, w) && LeasesKept(sim, w) && a.Commit? && Next(sim, w, a, w')
    ensures LeasesKept(sim, w')
  {
    forall k | k in w'.workers
      ensures LeaseKept(sim, w', k)
    {
      if k != a.worker && w'.workers[k].Holding? {
        assert WorkerOk(w, k) && LeaseKept(sim, w, k);
        forall c | c in w.workers[k].batch
          ensures c.attempt in w.db.attempts
        {
          assert ClaimOk(w.db, k, c);
        }
      }
    }
  }

  /** Completing closes the worker's own attempts only. */
  lemma CompleteLeases(sim: Simulation, w: World, a: Action, w': World)
    requires Inv(sim, w) && LeasesKept(sim, w) && a.Complete? && Next(sim, w, a, w')
    ensures LeasesKept(sim, w')
  {
    assert WorkerOk(w, a.worker);
    forall k | k in w'.workers
      ensures LeaseKept(sim, w', k)
    {
      if w'.workers[k].Holding? {
        assert WorkerOk(w, k) && LeaseKept(sim, w, k);
        forall c | c in w.workers[k].batch
          ensures c.attempt !in AttemptsIn(a.outcomes)
        {
          assert ClaimOk(w.db, k, c);
          forall x | x in a.outcomes
            ensures x.claimed.attempt != c.attempt
          {
            assert ClaimOk(w.db, a.worker, x.claimed);
          }
        }
      }
    }
  }

  /** The reaper closes an attempt only when its lease ended strictly before the sweep's instant. */
  lemma ReclaimLeases(sim: Simulation, w: World, a: Action, w': World)
    requires Inv(sim, w) && LeasesKept(sim, w) && a.Begin? && Next(sim, w, a, w')
    ensures LeasesKept(sim, w')
  {
    forall k | k in w'.workers
      ensures LeaseKept(sim, w', k)
    {
      assert LeaseKept(sim, w, k);
      if w'.workers[k].Holding? {
        forall c | c in w.workers[k].batch && c.attempt in w.db.attempts && !IsOpen(w'.db.attempts[c.attempt])
          ensures w.db.attempts[c.attempt].startedAt + sim.settings.leaseS < Now(w)
        {
          assert AttemptOk(w.db, sim.settings, c.attempt);
        }
      }
    }
  }

  lemma QuietLeases(sim: Simulation, w: World, a: Action, w': World)
    requires Inv(sim, w) && LeasesKept(sim, w) && Next(sim, w, a, w') && !(a.Commit? || a.Complete? || a.Begin?)
    ensures LeasesKept(sim, w')
  {
    hide Sound;
    TimeGoesForward(sim, w, a, w');
    LeaseUndisturbed(sim, w, w');
  }

  lemma NextKeepsLeases(sim: Simulation, w: World, a: Action, w': World)
    requires Inv(sim, w) && LeasesKept(sim, w) && Next(sim, w, a, w')
    ensures LeasesKept(sim, w')
  {
    hide *;
    if a.Commit? {
      CommitLeases(sim, w, a, w');
    } else if a.Complete? {
      CompleteLeases(sim, w, a, w');
    } else if a.Begin? {
      ReclaimLeases(sim, w, a, w');
    } else {
      QuietLeases(sim, w, a, w');
    }
  }

  lemma {:induction false} RunKeepsLeases(sim: Simulation, ws: seq<World>, acts: seq<Action>, n: nat)
    requires Run(sim, ws, acts) && Initial(ws[0]) && n <= |acts|
    ensures Inv(sim, ws[n]) && LeasesKept(sim, ws[n])
  {
    hide Inv, Next;
    RunKeepsInv(sim, ws, acts, n);
    if n > 0 {
      RunKeepsLeases(sim, ws, acts, n - 1);
      NextKeepsLeases(sim, ws[n - 1], acts[n - 1], ws[n]);
    }
  }

  /**
   * A worker that completes within its lease takes full effect, for any pauses, resumes and speed changes since
   * the claim: every answer closes its attempt and moves its row as the outcome says.
   */
  lemma LeaseProtectsCompletion(sim: Simulation, ws: seq<World>, acts: seq<Action>, n: nat, c: Completion)
    requires Run(sim, ws, acts) && Initial(ws[0]) && n < |acts|
    requires acts[n].Complete? && c in acts[n].outcomes
    requires c.claimed.attempt in ws[n].db.attempts
    requires Now(ws[n]) <= ws[n].db.attempts[c.claimed.attempt].startedAt + sim.settings.leaseS
    ensures ws[n + 1].db.attempts[c.claimed.attempt].outcome == Some(c.outcome)
    ensures c.claimed.delivery in ws[n + 1].db.deliveries
    ensures var row := ws[n + 1].db.deliveries[c.claimed.delivery];
            row.state == (if c.outcome == Ok then Delivered
                          else if |AttemptsAt(ws[n].db, c.claimed.delivery)| >= sim.settings.maxAttempts then Failed
                          else Pending)
  {
    hide Initial;
    RunKeepsLeases(sim, ws, acts, n);
    var w, worker := ws[n], acts[n].worker;
    assert Next(sim, w, acts[n], ws[n + 1]);
    assert WorkerOk(w, worker) && LeaseKept(sim, w, worker);
    assert c.claimed in w.workers[worker].batch;
    FencesAgree(w.db, sim.settings, worker, w.workers[worker].batch, c.claimed);
    assert RowOk(w.db, sim.settings, c.claimed.delivery);
  }
}
