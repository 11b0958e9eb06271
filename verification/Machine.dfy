/**
 * The delivery protocol as a step machine: ingest, workers (claim split into lock and commit, complete, abandon),
 * the conductor's pass split at its statements, and the clock, in any interleaving.
 */
module Machine {
  import opened Model
  import opened Sets
  import opened Policies
  import opened Lifecycle
  import opened Admission
  import Clock

  const SCENARIO_ENDS_AT_S := 900.0
  const SCENARIO_MAX_VIRTUAL_S := 1800.0
  const OUTAGE_STARTS_AT_S := 120.0
  const OUTAGE_ENDS_AT_S := 420.0

  predicate IsProducing(elapsed: Time) { elapsed < SCENARIO_ENDS_AT_S }

  predicate IsFinished(elapsed: Time, backlog: int) {
    elapsed >= SCENARIO_MAX_VIRTUAL_S || (!IsProducing(elapsed) && backlog == 0)
  }

  predicate IsOutage(elapsed: Time, override: Option<bool>) {
    if override.Some? then override.value else OUTAGE_STARTS_AT_S <= elapsed < OUTAGE_ENDS_AT_S
  }

  /**
   * A worker's iteration: nothing, a claim transaction holding row locks since `stamp`, or a committed batch.
   * One batch at a time (app/worker/service.py).
   */
  datatype WorkerState =
    | Resting
    | Claiming(stamp: Time, rows: set<DeliveryId>)
    | Holding(batch: set<Claimed>)

  /** The instant and the knobs a pass read when it began. */
  datatype Pass = Pass(now: Time, fair: bool, outage: Option<bool>)

  /** Where the leader is in its pass, with what it has read so far. */
  datatype Conductor =
    | Away
    | Swept(pass: Pass)
    | Gauged(pass: Pass, gauges: map<ConsumerId, Gauge>)
    | ReadyCounted(pass: Pass, gauges: map<ConsumerId, Gauge>, ready: int)
    | Budgeted(pass: Pass, gauges: map<ConsumerId, Gauge>, budget: Budget)
    | DemandRead(pass: Pass, gauges: map<ConsumerId, Gauge>, budget: Budget, demand: map<ConsumerId, int>)
    | Surveyed(pass: Pass, slots: int, allow: map<ConsumerId, int>)
    | Fetched(pass: Pass, slots: int, allow: map<ConsumerId, int>, candidates: seq<Candidate>)
    | Decided(pass: Pass, drops: map<DeliveryId, DeliveryState>, admit: set<DeliveryId>)
    | Dropped(pass: Pass, admit: set<DeliveryId>)

  datatype World = World(
    db: Tables,
    workers: map<WorkerId, WorkerState>,
    conductor: Conductor,
    clock: Clock.Config,
    wall: real)

  function Now(w: World): Time { Clock.NowAt(w.clock, w.wall) }

  /** The earliest the clock can still be made to read: a pass under way may retire the run at the instant it began. */
  function Horizon(w: World): Time { if w.conductor == Away then Now(w) else w.conductor.pass.now }

  function WorkerOf(w: World, worker: WorkerId): WorkerState {
    if worker in w.workers then w.workers[worker] else Resting
  }

  ghost predicate Initial(w: World) {
    && w.db == Tables(map[], map[], map[]) && w.workers == map[] && w.conductor == Away
    && w.clock.speed > 0.0
  }

  datatype Action =
    | Tick(wall: real)
    | Rewrite(body: Clock.PatchBody)
    | Ingest(tick: Time)
    | Lock(worker: WorkerId, rows: set<DeliveryId>)
    | Commit(worker: WorkerId, ids: map<DeliveryId, AttemptId>)
    | Abandon(worker: WorkerId)
    | Complete(worker: WorkerId, outcomes: set<Completion>)
    | Begin(fair: bool, outage: Option<bool>, reclaimed: set<DeliveryId>)
    | ReadGauges
    | Finish
    | CountReady
    | CountAttempts
    | ReadDemand
    | Survey(allowances: map<ConsumerId, int>)
    | Fetch(wanted: int, fetched: seq<Candidate>)
    | Decide(verdict: Verdict, admitted: seq<Candidate>)
    | DropCondemned
    | Admit
    | Quit

  // ---- Workers ----

  ghost predicate LockedBySomeone(w: World, d: DeliveryId) {
    exists k :: k in w.workers && w.workers[k].Claiming? && d in w.workers[k].rows
  }

  /** `FOR UPDATE SKIP LOCKED` over ready rows. */
  ghost predicate Locks(w: World, worker: WorkerId, rows: set<DeliveryId>, w': World) {
    && WorkerOf(w, worker).Resting?
    && (forall d :: d in rows ==>
          d in w.db.deliveries && w.db.deliveries[d].state == Ready && !LockedBySomeone(w, d))
    && w' == w.(workers := w.workers[worker := Claiming(Now(w), rows)])
  }

  ghost predicate Commits(sim: Simulation, w: World, worker: WorkerId, ids: map<DeliveryId, AttemptId>, w': World) {
    && WorkerOf(w, worker).Claiming?
    && Claims(w.db, w'.db, worker, WorkerOf(w, worker).rows, ids, WorkerOf(w, worker).stamp, sim.policies, sim.settings)
    && w' == w.(db := w'.db,
        workers := w.workers[worker := if ids == map[] then Resting else Holding(BatchFrom(w.db, ids))])
  }

  /** A crash, or a loop body that raised: locks roll back, a batch is dropped, and the id may go on claiming. */
  ghost predicate Abandons(w: World, worker: WorkerId, w': World) {
    worker in w.workers && w' == w.(workers := w.workers[worker := Resting])
  }

  ghost predicate Answers(batch: set<Claimed>, outcomes: set<Completion>) {
    && (forall c :: c in outcomes ==> c.claimed in batch && c.outcome != LeaseExpired)
    && (forall x, y :: x in outcomes && y in outcomes && x.claimed == y.claimed ==> x == y)
    && (forall c :: c in batch ==> exists x :: x in outcomes && x.claimed == c)
  }

  ghost predicate Finishes(sim: Simulation, w: World, worker: WorkerId, outcomes: set<Completion>, w': World) {
    && WorkerOf(w, worker).Holding?
    && Answers(WorkerOf(w, worker).batch, outcomes)
    && Completes(w.db, w'.db, worker, outcomes, Now(w), sim.settings)
    && w' == w.(db := w'.db, workers := w.workers[worker := Resting])
  }

  // ---- The conductor's statements ----

  ghost function DropMap(drops: seq<Drop>): map<DeliveryId, DeliveryState> {
    if drops == [] then map[]
    else DropMap(drops[..|drops| - 1])[drops[|drops| - 1].delivery := drops[|drops| - 1].state]
  }

  ghost function IdSet(cs: seq<Candidate>): set<DeliveryId> { set i | 0 <= i < |cs| :: cs[i].id }

  ghost function Backlog(gauges: map<ConsumerId, Gauge>): int {
    Total(gauges.Keys, map c | c in gauges :: gauges[c].pending + gauges[c].ready + gauges[c].inFlight)
  }

  ghost function Demand(db: Tables, consumers: set<ConsumerId>, now: Time): map<ConsumerId, int> {
    map c | c in consumers :: |Due(db, Only(c), now)|
  }

  ghost function Used(db: Tables, consumers: set<ConsumerId>, from: Time): map<ConsumerId, int> {
    map c | c in consumers :: |Window(db, Only(c), from)|
  }

  /** One statement of the pass: it reads the tables as they are now, whatever was committed since the last one. */
  ghost predicate Conducts(sim: Simulation, w: World, a: Action, w': World) {
    var c := w.conductor;
    match a
    case Begin(fair, outage, reclaimed) =>
      && c.Away? && w.clock.status == Clock.Running
      && Reclaims(w.db, w'.db, reclaimed, Now(w), sim.settings)
      && w' == w.(db := w'.db, conductor := Swept(Pass(Now(w), fair, outage)))
    case ReadGauges =>
      && c.Swept?
      && w' == w.(conductor := Gauged(c.pass, GaugesOf(w.db, sim.consumers.Keys)))
    case Finish =>
      && c.Gauged? && IsFinished(c.pass.now, Backlog(c.gauges))
      && w' == w.(conductor := Away, clock := Clock.Retire(w.clock, c.pass.now))
    case CountReady =>
      && c.Gauged? && !IsFinished(c.pass.now, Backlog(c.gauges)) && !IsOutage(c.pass.now, c.pass.outage)
      && w' == w.(conductor := ReadyCounted(c.pass, c.gauges, |InState(w.db, Everyone, Ready)|))
    case CountAttempts =>
      && c.ReadyCounted?
      && w' == w.(conductor := Budgeted(c.pass, c.gauges,
                    BudgetFrom(sim, c.ready, |Window(w.db, Everyone, c.pass.now - sim.settings.windowS)|)))
    case ReadDemand =>
      && c.Budgeted? && c.budget.Slots() > 0
      && w' == w.(conductor := DemandRead(c.pass, c.gauges, c.budget, Demand(w.db, sim.consumers.Keys, c.pass.now)))
    case Survey(allow) =>
      && c.DemandRead?
      && Allows(sim, Headrooms(sim, c.demand, Used(w.db, sim.consumers.Keys, c.pass.now - sim.settings.windowS),
                               c.gauges, !c.pass.fair), c.budget.Slots(), c.pass.fair, allow)
      && w' == w.(conductor := Surveyed(c.pass, c.budget.Slots(), allow))
    case Fetch(wanted, candidates) =>
      && c.Surveyed? && (exists x :: x in c.allow && c.allow[x] != 0)
      && (if c.pass.fair then FairFetch(w.db, c.pass.now, c.allow, wanted, sim.settings.overfetch, candidates)
          else FifoFetch(w.db, c.pass.now, c.slots, sim.settings.overfetch, candidates))
      && w' == w.(conductor := Fetched(c.pass, c.slots, c.allow, candidates))
    case Decide(verdict, admitted) =>
      && c.Fetched?
      && Judged(w.db, c.candidates, sim.policies, c.pass.now, verdict)
      && Rationed(verdict.admit, c.allow, c.slots, admitted)
      && w' == w.(conductor := Decided(c.pass, DropMap(verdict.drops), IdSet(admitted)))
    case DropCondemned =>
      && c.Decided?
      && AppliesDrops(w.db, w'.db, c.drops, c.pass.now)
      && w' == w.(db := w'.db, conductor := Dropped(c.pass, c.admit))
    case Admit =>
      && c.Dropped?
      && MarksReady(w.db, w'.db, c.admit, c.pass.now)
      && w' == w.(db := w'.db, conductor := Away)
    case Quit => w' == w.(conductor := Away)
    case _ => false
  }

  ghost predicate Next(sim: Simulation, w: World, a: Action, w': World) {
    match a
    case Tick(wall) => w.wall <= wall && w' == w.(wall := wall)
    case Rewrite(body) =>
      && !Clock.Reopens(w.clock, body)
      && w' == w.(clock := Clock.Apply(w.clock, Clock.Timed(w.wall, Clock.Patched(body))))
    case Ingest(_) => Ingests(w.db, w'.db, sim.subscriptions) && w' == w.(db := w'.db)
    case Lock(worker, rows) => Locks(w, worker, rows, w')
    case Commit(worker, ids) => Commits(sim, w, worker, ids, w')
    case Abandon(worker) => Abandons(w, worker, w')
    case Complete(worker, outcomes) => Finishes(sim, w, worker, outcomes, w')
    case _ => Conducts(sim, w, a, w')
  }

  ghost predicate Run(sim: Simulation, ws: seq<World>, acts: seq<Action>) {
    && |ws| == |acts| + 1
    && forall i :: 0 <= i < |acts| ==> Next(sim, ws[i], acts[i], ws[i + 1])
  }

  // ---- Time ----

  /**
   * Time moves when wall time does, forward; and it moves back in one way only, when a pass retires the run at the
   * instant it began. The earliest instant it can still be made to read never falls.
   */
  lemma TimeGoesForward(sim: Simulation, w: World, a: Action, w': World)
    requires Next(sim, w, a, w') && w.clock.speed > 0.0 && Horizon(w) <= Now(w)
    ensures w'.clock.speed > 0.0
    ensures Horizon(w) <= Horizon(w') <= Now(w')
    ensures if a.Tick? then Now(w) <= Now(w') else if a.Finish? then Now(w') == Horizon(w) else Now(w') == Now(w)
  {
    match a
    case Tick(wall) => Clock.RunsForward(w.clock, w.wall, wall);
    case Rewrite(body) => Clock.PatchIsContinuous(w.clock, body, w.wall);
    case _ =>
  }

  // ---- Which way a pass goes ----

  /** The rows still to be settled, of these consumers. */
  ghost function ActiveOf(db: Tables, consumers: set<ConsumerId>): set<DeliveryId> {
    set d | d in db.deliveries && db.deliveries[d].consumer in consumers
            && (db.deliveries[d].state == Pending || db.deliveries[d].state == Ready
                || db.deliveries[d].state == InFlight)
  }

  /** The backlog over the gauges is the number of rows pending, ready or in flight. */
  lemma BacklogIs(db: Tables, consumers: set<ConsumerId>)
    ensures Backlog(GaugesOf(db, consumers)) == |ActiveOf(db, consumers)|
  {
    var g := GaugesOf(db, consumers);
    var sums: map<ConsumerId, int> := map c | c in g :: g[c].pending + g[c].ready + g[c].inFlight;
    assert g.Keys == consumers && Backlog(g) == Total(consumers, sums);
    var parts: map<ConsumerId, set<DeliveryId>> := map c | c in consumers :: ActiveOf(db, {c});
    ActiveSplits(db, consumers);
    hide InState, ActiveOf;
    forall c | c in consumers
      ensures sums[c] == |parts[c]|
    {
      OnesBacklog(db, c);
    }
    PartitionSize(consumers, parts, sums, ActiveOf(db, consumers));
  }

  lemma ActiveSplits(db: Tables, consumers: set<ConsumerId>)
    ensures forall d :: d in ActiveOf(db, consumers) <==> exists c :: c in consumers && d in ActiveOf(db, {c})
    ensures forall b, c :: b != c ==> ActiveOf(db, {b}) !! ActiveOf(db, {c})
  {
    forall d | d in ActiveOf(db, consumers)
      ensures exists c :: c in consumers && d in ActiveOf(db, {c})
    {
      assert d in ActiveOf(db, {db.deliveries[d].consumer});
    }
  }

  lemma OnesBacklog(db: Tables, c: ConsumerId)
    ensures |InState(db, Only(c), Pending)| + |InState(db, Only(c), Ready)| + |InState(db, Only(c), InFlight)|
         == |ActiveOf(db, {c})|
  {
    var pending, ready, flying := InState(db, Only(c), Pending), InState(db, Only(c), Ready),
        InState(db, Only(c), InFlight);
    FourParts(pending, ready, flying, {}, ActiveOf(db, {c}));
  }

  /**
    * Past the gauges a pass retires the run if and only if 1800 s have gone by, or 900 s have and nothing is left to
    * settle; otherwise it goes on to admit if and only if it is outside the outage of 120 to 420 s, unless overridden.
    */
  lemma PassTurns(sim: Simulation, w: World)
    requires w.conductor.Gauged?
    ensures var now, backlog := w.conductor.pass.now, Backlog(w.conductor.gauges);
            var over := 1800.0 <= now || (900.0 <= now && backlog == 0);
            && (over <==> exists to :: Next(sim, w, Finish, to))
            && (!over && !(if w.conductor.pass.outage.Some? then w.conductor.pass.outage.value
                           else 120.0 <= now < 420.0)
                <==> exists to :: Next(sim, w, CountReady, to))
  {
    var c := w.conductor;
    var over := IsFinished(c.pass.now, Backlog(c.gauges));
    if over {
      assert Next(sim, w, Finish, w.(conductor := Away, clock := Clock.Retire(w.clock, c.pass.now)));
    } else if !IsOutage(c.pass.now, c.pass.outage) {
      assert Next(sim, w, CountReady,
                  w.(conductor := ReadyCounted(c.pass, c.gauges, |InState(w.db, Everyone, Ready)|)));
    }
  }

  /** A PATCH is a step whenever it is not the one that reopens a finished run: refused, it leaves the clock alone. */
  lemma PatchIsAStep(sim: Simulation, w: World, body: Clock.PatchBody)
    requires !Clock.Reopens(w.clock, body)
    ensures Next(sim, w, Rewrite(body), w.(clock := match Clock.Patch(w.clock, body, w.wall)
                                                    case None => w.clock
                                                    case Some(patched) => patched))
  {
  }
}
