/**
  * What every step of the machine keeps, and so every reachable state has: the fences, the locks, and who owns which
  * rows.
  */
module Runs {
  import opened Model
  import opened Policies
  import opened Lifecycle
  import opened Admission
  import opened Fences
  import opened Machine

  ghost predicate PendingAt(db: Tables, d: DeliveryId) { d in db.deliveries && db.deliveries[d].state == Pending }

  ghost predicate ReadyAt(db: Tables, d: DeliveryId) { d in db.deliveries && db.deliveries[d].state == Ready }

  ghost predicate WorkerOk(w: World, k: WorkerId)
    requires k in w.workers
  {
    match w.workers[k]
    case Resting => true
    case Claiming(_, rows) => forall d :: d in rows ==> ReadyAt(w.db, d)
    case Holding(batch) => Holds(w.db, k, batch)
  }

  /** Two claim transactions never hold the same row. */
  ghost predicate LocksDisjoint(w: World) {
    forall j, k :: j in w.workers && k in w.workers && j != k && w.workers[j].Claiming? && w.workers[k].Claiming? ==>
      w.workers[j].rows !! w.workers[k].rows
  }

  ghost predicate WorkersOk(w: World) {
    (forall k {:trigger WorkerOk(w, k)} :: k in w.workers ==> WorkerOk(w, k)) && LocksDisjoint(w)
  }

  ghost predicate CandidateOk(db: Tables, c: Candidate) {
    PendingAt(db, c.id) && c == CandidateOf(c.id, db.deliveries[c.id])
  }

  /** What the pass is about to write without a guard is still pending. */
  ghost predicate ConductorOk(w: World) {
    && Horizon(w) <= Now(w)
    && match w.conductor
       case Fetched(_, _, _, cs) => forall i :: 0 <= i < |cs| ==> CandidateOk(w.db, cs[i])
       case Decided(_, drops, admit) =>
         && (forall d :: d in drops ==> PendingAt(w.db, d) && (drops[d] == Expired || drops[d] == Superseded))
         && (forall d :: d in admit ==> PendingAt(w.db, d))
         && drops.Keys !! admit
       case Dropped(_, admit) => forall d :: d in admit ==> PendingAt(w.db, d)
       case _ => true
  }

  ghost predicate Inv(sim: Simulation, w: World) {
    && w.clock.speed > 0.0
    && Sound(w.db, sim.settings)
    && WorkersOk(w) && ConductorOk(w)
  }

  lemma HorizonIsPast(sim: Simulation, w: World)
    requires Inv(sim, w)
    ensures Horizon(w) <= Now(w)
  {
  }

  ghost predicate LeavesPending(db: Tables, db': Tables) {
    forall d :: PendingAt(db, d) ==> d in db'.deliveries && db'.deliveries[d] == db.deliveries[d]
  }

  lemma ConductorUndisturbed(w: World, w': World)
    requires ConductorOk(w) && w'.conductor == w.conductor && Now(w) <= Now(w')
    requires LeavesPending(w.db, w'.db)
    ensures ConductorOk(w')
  {
    forall d | PendingAt(w.db, d)
      ensures PendingAt(w'.db, d)
    {
    }
  }

  lemma WorkersUndisturbed(w: World, w': World)
    requires WorkersOk(w) && w'.workers == w.workers && w'.db == w.db
    ensures WorkersOk(w')
  {
    forall k | k in w'.workers
      ensures WorkerOk(w', k)
    {
      assert WorkerOk(w, k);
    }
  }

  lemma InitialInv(sim: Simulation, w: World)
    requires Initial(w)
    ensures Inv(sim, w)
  {
  }

  lemma TimeKeeps(sim: Simulation, w: World, a: Action, w': World)
    requires Inv(sim, w) && Next(sim, w, a, w') && (a.Tick? || a.Rewrite?)
    ensures Inv(sim, w')
  {
    TimeGoesForward(sim, w, a, w');
    WorkersUndisturbed(w, w');
  }

  lemma IngestStep(sim: Simulation, w: World, a: Action, w': World)
    requires Inv(sim, w) && a.Ingest? && Next(sim, w, a, w')
    ensures Inv(sim, w') && LeavesPending(w.db, w'.db)
  {
    IngestKeeps(w.db, w'.db, sim.subscriptions, sim.settings);
    forall k | k in w'.workers
      ensures WorkerOk(w', k)
    {
      assert WorkerOk(w, k);
      if w.workers[k].Holding? { RewriteKeepsHolds(w.db, w'.db, sim.settings, k, w.workers[k].batch); }
    }
    ConductorUndisturbed(w, w');
  }

  lemma LockStep(sim: Simulation, w: World, a: Action, w': World)
    requires Inv(sim, w) && a.Lock? && Next(sim, w, a, w')
    ensures Inv(sim, w')
  {
    var worker, rows := a.worker, a.rows;
    forall k | k in w'.workers
      ensures WorkerOk(w', k)
    {
      if k != worker { assert WorkerOk(w, k); }
    }
    forall k | k in w.workers && w.workers[k].Claiming?
      ensures w.workers[k].rows !! rows
    {
      forall d | d in w.workers[k].rows
        ensures d !in rows
      {
        assert LockedBySomeone(w, d);
      }
    }
  }

  lemma CommitStep(sim: Simulation, w: World, a: Action, w': World)
    requires Inv(sim, w) && a.Commit? && Next(sim, w, a, w')
    ensures Inv(sim, w') && LeavesPending(w.db, w'.db)
  {
    var worker, ids := a.worker, a.ids;
    var rows, stamp := w.workers[worker].rows, w.workers[worker].stamp;
    assert WorkerOk(w, worker);
    forall d | d in rows
      ensures w.db.deliveries[d].state == Ready
    {
      assert ReadyAt(w.db, d);
    }
    ClaimKeeps(w.db, w'.db, worker, rows, ids, stamp, sim.policies, sim.settings);
    forall k | k in w'.workers
      ensures WorkerOk(w', k)
    {
      if k == worker {
        ClaimIsHeld(w.db, w'.db, worker, rows, ids, stamp, sim.policies, sim.settings);
      } else {
        assert WorkerOk(w, k);
        match w.workers[k]
        case Holding(batch) =>
          ClaimKeepsOthers(w.db, w'.db, worker, rows, ids, stamp, sim.policies, sim.settings, k, batch);
        case Claiming(_, theirs) =>
          forall d | d in theirs
            ensures ReadyAt(w'.db, d)
          {
            assert ReadyAt(w.db, d) && d !in rows;
          }
        case Resting =>
      }
    }
    ConductorUndisturbed(w, w');
  }

  lemma AbandonStep(sim: Simulation, w: World, a: Action, w': World)
    requires Inv(sim, w) && a.Abandon? && Next(sim, w, a, w')
    ensures Inv(sim, w')
  {
    forall k | k in w'.workers
      ensures WorkerOk(w', k)
    {
      assert WorkerOk(w, k);
    }
  }

  /** A completion writes rows in flight only, and makes none ready. */
  lemma CompleteTouchesInFlight(
    db: Tables, db': Tables, worker: WorkerId, cs: set<Completion>, now: Time, s: Settings)
    requires Completes(db, db', worker, cs, now, s)
    ensures forall d :: d in db.deliveries && db.deliveries[d].state != InFlight ==>
              d in db'.deliveries && db'.deliveries[d] == db.deliveries[d]
    ensures forall d :: ReadyAt(db', d) ==> ReadyAt(db, d)
  {
    forall d | d in db.deliveries && d in DeliveriesOf(cs)
      ensures d in db'.deliveries && (db'.deliveries[d].state != Ready || db'.deliveries[d] == db.deliveries[d])
      ensures db.deliveries[d].state != InFlight ==> db'.deliveries[d] == db.deliveries[d]
    {
      var c :| c in cs && c.claimed.delivery == d;
    }
  }

  lemma CompleteStep(sim: Simulation, w: World, a: Action, w': World)
    requires Inv(sim, w) && a.Complete? && Next(sim, w, a, w')
    ensures Inv(sim, w') && LeavesPending(w.db, w'.db) && SameAttempts(w.db, w'.db)
  {
    var worker, cs := a.worker, a.outcomes;
    var batch := w.workers[worker].batch;
    assert WorkerOk(w, worker);
    CompleteKeeps(w.db, w'.db, worker, batch, cs, Now(w), sim.settings);
    forall d | d in w.db.deliveries && w.db.deliveries[d].state != InFlight
      ensures w'.db.deliveries[d] == w.db.deliveries[d]
    {
      if d in DeliveriesOf(cs) {
        var c :| c in cs && c.claimed.delivery == d;
      }
    }
    forall k | k in w'.workers
      ensures WorkerOk(w', k)
    {
      assert WorkerOk(w, k);
      if k != worker && w.workers[k].Holding? {
        CompleteKeepsOthers(w.db, w'.db, worker, cs, Now(w), sim.settings, k, w.workers[k].batch);
      } else if w.workers[k].Claiming? {
        assert forall d :: ReadyAt(w.db, d) ==> ReadyAt(w'.db, d);
      }
    }
    ConductorUndisturbed(w, w');
  }

  lemma ReclaimStep(sim: Simulation, w: World, a: Action, w': World)
    requires Inv(sim, w) && a.Begin? && Next(sim, w, a, w')
    ensures Inv(sim, w') && SameAttempts(w.db, w'.db)
  {
    ReclaimKeeps(w.db, w'.db, a.reclaimed, Now(w), sim.settings);
    forall k | k in w'.workers
      ensures WorkerOk(w', k)
    {
      assert WorkerOk(w, k);
      if w.workers[k].Holding? {
        ReclaimKeepsHolds(w.db, w'.db, a.reclaimed, Now(w), sim.settings, k, w.workers[k].batch);
      } else if w.workers[k].Claiming? {
        assert forall d :: ReadyAt(w.db, d) ==> ReadyAt(w'.db, d);
      }
    }
  }

  /** Whatever the query returned is due, and carries its row's own columns. */
  lemma FetchedAreDue(sim: Simulation, w: World, a: Action, w': World)
    requires a.Fetch? && Conducts(sim, w, a, w')
    ensures forall i :: 0 <= i < |a.fetched| ==>
        CandidateOk(w.db, a.fetched[i]) && IsDue(w.db.deliveries[a.fetched[i].id], w.conductor.pass.now)
  {
    var cs, allow, now := a.fetched, w.conductor.allow, w.conductor.pass.now;
    forall i | 0 <= i < |cs|
      ensures CandidateOk(w.db, cs[i]) && IsDue(w.db.deliveries[cs[i].id], now)
    {
      if w.conductor.pass.fair {
        var c := cs[i].consumer;
        OfConsumerHas(cs, cs[i]);
        assert c in allow;
        assert a.wanted > 0;
        assert Oldest(w.db, Due(w.db, Only(c), now), a.wanted * sim.settings.overfetch, OfConsumer(cs, c));
      }
    }
  }

  lemma SurveySays(sim: Simulation, w: World, a: Action, w': World)
    requires a.Survey? && Next(sim, w, a, w')
    ensures w.conductor.DemandRead? && w'.db == w.db
    ensures w'.conductor == Surveyed(w.conductor.pass, w.conductor.budget.Slots(), a.allowances)
    ensures var c := w.conductor;
            var used := Used(w.db, sim.consumers.Keys, c.pass.now - sim.settings.windowS);
            Allows(sim, Headrooms(sim, c.demand, used, c.gauges, !c.pass.fair), c.budget.Slots(), c.pass.fair,
                   a.allowances)
  {
    hide Allows, Headrooms, Used;
  }

  lemma {:induction false} DropMapMeans(drops: seq<Drop>, d: DeliveryId)
    ensures d in DropMap(drops) <==> exists i :: 0 <= i < |drops| && drops[i].delivery == d
    ensures d in DropMap(drops) ==> Drop(d, DropMap(drops)[d]) in drops
  {
    if drops != [] {
      DropMapMeans(drops[..|drops| - 1], d);
      assert drops == drops[..|drops| - 1] + [drops[|drops| - 1]];
    }
  }

  /** A verdict over rows that are still what the query saw condemns and admits disjoint sets of them. */
  lemma DecideStep(sim: Simulation, w: World, a: Action, w': World)
    requires Inv(sim, w) && a.Decide? && Next(sim, w, a, w')
    ensures Inv(sim, w')
    ensures forall d :: d in w'.conductor.drops && w'.conductor.drops[d] == Superseded ==>
              HasNewer(w.db, CandidateOf(d, w.db.deliveries[d]))
  {
    var cs, now := w.conductor.candidates, w.conductor.pass.now;
    var drops, admit := w'.conductor.drops, w'.conductor.admit;
    forall d | d in drops
      ensures PendingAt(w.db, d) && Fate(w.db, CandidateOf(d, w.db.deliveries[d]), sim.policies, now) == Some(drops[d])
      ensures drops[d] == Expired || drops[d] == Superseded
    {
      DropMapMeans(a.verdict.drops, d);
      var x := Drop(d, drops[d]);
      DroppedMeans(w.db, cs, sim.policies, now, Expired, x);
      DroppedMeans(w.db, cs, sim.policies, now, Superseded, x);
      var i :| 0 <= i < |cs| && cs[i].id == d && Fate(w.db, cs[i], sim.policies, now) == Some(drops[d]);
      assert CandidateOk(w.db, cs[i]);
    }
    forall d | d in admit
      ensures PendingAt(w.db, d) && Fate(w.db, CandidateOf(d, w.db.deliveries[d]), sim.policies, now) == None
    {
      var i :| 0 <= i < |a.admitted| && a.admitted[i].id == d;
      AdmittedSurvived(w, sim, a, i);
    }
    WorkersUndisturbed(w, w');
  }

  lemma AdmittedSurvived(w: World, sim: Simulation, a: Action, i: int)
    requires ConductorOk(w) && w.conductor.Fetched? && a.Decide? && 0 <= i < |a.admitted|
    requires Judged(w.db, w.conductor.candidates, sim.policies, w.conductor.pass.now, a.verdict)
    requires Rationed(a.verdict.admit, w.conductor.allow, w.conductor.slots, a.admitted)
    ensures CandidateOk(w.db, a.admitted[i]) && a.admitted[i] in w.conductor.candidates
    ensures Fate(w.db, a.admitted[i], sim.policies, w.conductor.pass.now) == None
  {
    var cs := w.conductor.candidates;
    var n :| 0 <= n <= |a.verdict.admit| && FullRation(a.verdict.admit[..n], w.conductor.allow, a.admitted);
    AdmittedAreAllowed(a.verdict.admit[..n], w.conductor.allow, a.admitted, a.admitted[i]);
    KeptMeans(w.db, cs, sim.policies, w.conductor.pass.now, a.admitted[i]);
    var j :| 0 <= j < |cs| && cs[j] == a.admitted[i];
  }

  lemma WorkersIgnorePolicyWrites(sim: Simulation, w: World, w': World)
    requires WorkersOk(w) && w'.workers == w.workers && w'.db.attempts == w.db.attempts
    requires forall d :: d in w.db.deliveries ==> d in w'.db.deliveries && Rewrites(w.db, w'.db, d)
    ensures WorkersOk(w')
  {
    forall k | k in w'.workers
      ensures WorkerOk(w', k)
    {
      assert WorkerOk(w, k);
      match w.workers[k]
      case Holding(batch) => RewriteKeepsHolds(w.db, w'.db, sim.settings, k, batch);
      case Claiming(_, rows) =>
        forall d | d in rows
          ensures ReadyAt(w'.db, d)
        {
          assert ReadyAt(w.db, d) && Rewrites(w.db, w'.db, d);
        }
      case Resting =>
    }
  }

  /** The unguarded drop lands on pending rows only. */
  lemma DropStep(sim: Simulation, w: World, a: Action, w': World)
    requires Inv(sim, w) && a.DropCondemned? && Next(sim, w, a, w')
    ensures Inv(sim, w')
    ensures forall d :: d in w.db.deliveries && w'.db.deliveries[d] != w.db.deliveries[d] ==> PendingAt(w.db, d)
  {
    assert forall d :: d in w.conductor.drops ==> PendingAt(w.db, d);
    DropsKeep(w.db, w'.db, w.conductor.drops, w.conductor.pass.now, sim.settings);
    WorkersIgnorePolicyWrites(sim, w, w');
  }

  /** The unguarded admission lands on pending rows only. */
  lemma AdmitStep(sim: Simulation, w: World, a: Action, w': World)
    requires Inv(sim, w) && a.Admit? && Next(sim, w, a, w')
    ensures Inv(sim, w')
    ensures forall d :: d in w.db.deliveries && w'.db.deliveries[d] != w.db.deliveries[d] ==> PendingAt(w.db, d)
  {
    forall d | d in w.conductor.admit
      ensures PendingAt(w.db, d) && w.db.deliveries[d].completedAt.None?
    {
      assert PendingAt(w.db, d) && RowOk(w.db, sim.settings, d);
    }
    MarksKeep(w.db, w'.db, w.conductor.admit, w.conductor.pass.now, sim.settings);
    WorkersIgnorePolicyWrites(sim, w, w');
  }

  predicate Reads(a: Action) {
    a.ReadGauges? || a.Finish? || a.CountReady? || a.CountAttempts? || a.ReadDemand? || a.Survey? || a.Fetch? || a.Quit?
  }

  lemma ReadsLeaveTables(sim: Simulation, w: World, a: Action, w': World)
    requires Reads(a) && Next(sim, w, a, w')
    ensures w'.db == w.db && w'.workers == w.workers && w'.wall == w.wall
    ensures w'.conductor != Away ==> w.conductor != Away && w'.conductor.pass == w.conductor.pass
    ensures !w'.conductor.Decided? && !w'.conductor.Dropped?
    ensures w'.conductor.Fetched? ==> a.Fetch? && w'.conductor.candidates == a.fetched
  {
  }

  lemma ReadStep(sim: Simulation, w: World, a: Action, w': World)
    requires Inv(sim, w) && Next(sim, w, a, w') && Reads(a)
    ensures Inv(sim, w')
  {
    TimeGoesForward(sim, w, a, w');
    ReadsLeaveTables(sim, w, a, w');
    if a.Fetch? { FetchedAreDue(sim, w, a, w'); }
    hide Next, Conducts;
    WorkersUndisturbed(w, w');
  }

  /** Everyone but the conductor. */
  predicate Outside(a: Action) {
    a.Tick? || a.Rewrite? || a.Ingest? || a.Lock? || a.Commit? || a.Abandon? || a.Complete?
  }

  lemma Kinds(a: Action)
    ensures Outside(a) ==> a.Tick? || a.Rewrite? || a.Ingest? || a.Lock? || a.Commit? || a.Abandon? || a.Complete?
    ensures !Outside(a) ==> Reads(a) || a.Begin? || a.Decide? || a.DropCondemned? || a.Admit?
  {
  }

  lemma OutsideLeavesConductor(sim: Simulation, w: World, a: Action, w': World)
    requires Next(sim, w, a, w') && Outside(a)
    ensures w'.conductor == w.conductor
    ensures !(a.Ingest? || a.Commit? || a.Complete?) ==> w'.db == w.db
  {
  }

  lemma SameTablesLeavePending(db: Tables)
    ensures LeavesPending(db, db)
  {
  }

  /** Nobody but the conductor moves a pending row. */
  lemma OutsideLeavesPending(sim: Simulation, w: World, a: Action, w': World)
    requires Inv(sim, w) && Next(sim, w, a, w') && Outside(a)
    ensures LeavesPending(w.db, w'.db) && w'.conductor == w.conductor
  {
    hide *;
    OutsideLeavesConductor(sim, w, a, w');
    if a.Ingest? {
      IngestStep(sim, w, a, w');
    } else if a.Commit? {
      CommitStep(sim, w, a, w');
    } else if a.Complete? {
      CompleteStep(sim, w, a, w');
    } else {
      SameTablesLeavePending(w.db);
    }
  }

  lemma WorkerKeepsInv(sim: Simulation, w: World, a: Action, w': World)
    requires Inv(sim, w) && Next(sim, w, a, w') && (a.Lock? || a.Commit? || a.Abandon? || a.Complete?)
    ensures Inv(sim, w')
  {
    hide *;
    if a.Lock? {
      LockStep(sim, w, a, w');
    } else if a.Commit? {
      CommitStep(sim, w, a, w');
    } else if a.Abandon? {
      AbandonStep(sim, w, a, w');
    } else {
      CompleteStep(sim, w, a, w');
    }
  }

  lemma OutsideKeepsInv(sim: Simulation, w: World, a: Action, w': World)
    requires Inv(sim, w) && Next(sim, w, a, w') && Outside(a)
    ensures Inv(sim, w')
  {
    hide *;
    Kinds(a);
    if a.Ingest? {
      IngestStep(sim, w, a, w');
    } else if a.Tick? || a.Rewrite? {
      TimeKeeps(sim, w, a, w');
    } else {
      WorkerKeepsInv(sim, w, a, w');
    }
  }

  lemma ConductorKeepsInv(sim: Simulation, w: World, a: Action, w': World)
    requires Inv(sim, w) && Next(sim, w, a, w') && !Outside(a)
    ensures Inv(sim, w')
  {
    hide *;
    Kinds(a);
    if a.Begin? {
      ReclaimStep(sim, w, a, w');
    } else if a.Decide? {
      DecideStep(sim, w, a, w');
    } else if a.DropCondemned? {
      DropStep(sim, w, a, w');
    } else if a.Admit? {
      AdmitStep(sim, w, a, w');
    } else {
      ReadStep(sim, w, a, w');
    }
  }

  lemma NextKeepsInv(sim: Simulation, w: World, a: Action, w': World)
    requires Inv(sim, w) && Next(sim, w, a, w')
    ensures Inv(sim, w')
  {
    hide *;
    if Outside(a) { OutsideKeepsInv(sim, w, a, w'); } else { ConductorKeepsInv(sim, w, a, w'); }
  }

  lemma {:induction false} RunKeepsInv(sim: Simulation, ws: seq<World>, acts: seq<Action>, n: nat)
    requires Run(sim, ws, acts) && Initial(ws[0]) && n <= |acts|
    ensures Inv(sim, ws[n])
  {
    hide Inv, Next;
    if n == 0 {
      InitialInv(sim, ws[0]);
    } else {
      RunKeepsInv(sim, ws, acts, n - 1);
      NextKeepsInv(sim, ws[n - 1], acts[n - 1], ws[n]);
    }
  }

  lemma HorizonRises(sim: Simulation, w: World, a: Action, w': World)
    requires Inv(sim, w) && Next(sim, w, a, w')
    ensures Horizon(w) <= Horizon(w')
  {
    hide Next, Sound, WorkersOk;
    TimeGoesForward(sim, w, a, w');
  }

  /** The earliest instant the clock can still read never falls. */
  lemma {:induction false} HorizonNeverFalls(sim: Simulation, ws: seq<World>, acts: seq<Action>, m: nat, n: nat)
    requires Run(sim, ws, acts) && Initial(ws[0]) && m <= n <= |acts|
    ensures Horizon(ws[m]) <= Horizon(ws[n])
    decreases n
  {
    hide Next, Inv, Horizon;
    if m < n {
      HorizonNeverFalls(sim, ws, acts, m, n - 1);
      RunKeepsInv(sim, ws, acts, n - 1);
      HorizonRises(sim, ws[n - 1], acts[n - 1], ws[n]);
    }
  }

  // ---- The fences, in every state of every run ----

  /**
   * In flight is having an open attempt: at most one, by the worker on the lease, numbered attempt_count. Delivered is
   * having an ok attempt: the last one.
   */
  lemma FencesInEveryState(sim: Simulation, ws: seq<World>, acts: seq<Action>, n: nat, d: DeliveryId)
    requires Run(sim, ws, acts) && Initial(ws[0]) && n <= |acts| && d in ws[n].db.deliveries
    ensures var db := ws[n].db;
            && (db.deliveries[d].state == InFlight <==> exists a :: a in AttemptsAt(db, d) && IsOpen(db.attempts[a]))
            && (forall a, b | a in AttemptsAt(db, d) && b in AttemptsAt(db, d) ::
                  IsOpen(db.attempts[a]) && IsOpen(db.attempts[b]) ==> a == b)
            && (forall a :: a in AttemptsAt(db, d) && IsOpen(db.attempts[a]) ==>
                  && db.deliveries[d].leasedBy == Some(db.attempts[a].worker)
                  && |set b | b in AttemptsAt(db, d) && b <= a| == db.deliveries[d].attemptCount)
            && (db.deliveries[d].state == Delivered <==> LastIs(db, d, Some(Ok)))
            && (forall a :: a in AttemptsAt(db, d) && db.attempts[a].outcome == Some(Ok) ==> Last(db, d, a))
  {
    hide Next, Initial, WorkersOk, ConductorOk, RowOk, AttemptOk, LastIs;
    RunKeepsInv(sim, ws, acts, n);
    InFlightIffOneOpenAttempt(ws[n].db, sim.settings, d);
    DeliveredIffLastOk(ws[n].db, sim.settings, d);
  }

  ghost predicate InHand(w: World, k: WorkerId, c: Claimed) {
    k in w.workers && w.workers[k].Holding? && c in w.workers[k].batch
  }

  lemma InHandIsHeld(sim: Simulation, w: World, k: WorkerId, c: Claimed)
    requires Inv(sim, w) && InHand(w, k, c)
    ensures Sound(w.db, sim.settings) && Holds(w.db, k, w.workers[k].batch)
  {
    hide Sound, ConductorOk;
    assert WorkerOk(w, k);
  }

  /**
    * Both fences of a completion agree for every claim in anyone's hands, and no two hold one delivery's open
    * attempt.
    */
  lemma ClaimsInEveryState(
    sim: Simulation, ws: seq<World>, acts: seq<Action>, n: nat, k: WorkerId, c: Claimed, j: WorkerId, e: Claimed)
    requires Run(sim, ws, acts) && Initial(ws[0]) && n <= |acts| && InHand(ws[n], k, c) && InHand(ws[n], j, e)
    ensures c.delivery in ws[n].db.deliveries && c.attempt in ws[n].db.attempts
    ensures IsOpen(ws[n].db.attempts[c.attempt]) <==> HeldBy(ws[n].db.deliveries[c.delivery], k)
    ensures IsOpen(ws[n].db.attempts[c.attempt]) ==> c.attemptNo == ws[n].db.deliveries[c.delivery].attemptCount
    ensures && c.delivery == e.delivery && e.attempt in ws[n].db.attempts
            && IsOpen(ws[n].db.attempts[c.attempt]) && IsOpen(ws[n].db.attempts[e.attempt])
            ==> k == j && c.attempt == e.attempt
  {
    hide Next, Initial, Inv, Sound, Holds;
    RunKeepsInv(sim, ws, acts, n);
    InHandIsHeld(sim, ws[n], k, c);
    InHandIsHeld(sim, ws[n], j, e);
    FencesAgree(ws[n].db, sim.settings, k, ws[n].workers[k].batch, c);
    if && c.delivery == e.delivery && e.attempt in ws[n].db.attempts
       && IsOpen(ws[n].db.attempts[c.attempt]) && IsOpen(ws[n].db.attempts[e.attempt])
    {
      OneLiveClaim(ws[n].db, sim.settings, k, ws[n].workers[k].batch, c, j, ws[n].workers[j].batch, e);
    }
  }
}
