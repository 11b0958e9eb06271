/**
 * The two services over one store: a conductor's pass (app/conductor/service.py) and a worker's iteration
 * (app/worker/service.py). Each leaves the trace of the machine run it performed.
 */
module Service {
  import opened Model
  import opened Sets
  import opened Policies
  import opened Lifecycle
  import opened Admission
  import opened Machine
  import opened Dispatch
  import opened Metrics
  import opened Store
  import Runs

  /** A run of the machine from one world to another. */
  ghost predicate Traces(sim: Simulation, ws: seq<World>, acts: seq<Action>, from: World, to: World) {
    Run(sim, ws, acts) && ws[0] == from && ws[|ws| - 1] == to
  }

  lemma Stay(sim: Simulation, w: World)
    ensures Traces(sim, [w], [], w, w)
  {
  }

  lemma Then(sim: Simulation, ws: seq<World>, acts: seq<Action>, from: World, w: World, a: Action, to: World)
    requires Traces(sim, ws, acts, from, w) && Next(sim, w, a, to)
    ensures Traces(sim, ws + [to], acts + [a], from, to)
  {
    hide Next;
  }

  // ---- Sums the pass takes ----

  method TotalBacklog(gauges: map<ConsumerId, Gauge>) returns (total: int)
    ensures total == Backlog(gauges)
  {
    ghost var each: map<ConsumerId, int> := map c | c in gauges ::
        gauges[c].pending + gauges[c].ready + gauges[c].inFlight;
    total := 0;
    var todo := gauges.Keys;
    while todo != {}
      invariant todo <= gauges.Keys && total + Total(todo, each) == Total(gauges.Keys, each)
    {
      ghost var some: ConsumerId := Member(todo);
      var c: ConsumerId :| c in todo;
      TotalPick(todo, each, c);
      total := total + gauges[c].pending + gauges[c].ready + gauges[c].inFlight;
      todo := todo - {c};
    }
  }

  method SumOfCaps(sim: Simulation) returns (caps: int)
    ensures caps == Total(sim.consumers.Keys, ConcurrencyCaps(sim))
  {
    caps := 0;
    var todo := sim.consumers.Keys;
    while todo != {}
      invariant todo <= sim.consumers.Keys
      invariant caps + Total(todo, ConcurrencyCaps(sim)) == Total(sim.consumers.Keys, ConcurrencyCaps(sim))
    {
      ghost var some: ConsumerId := Member(todo);
      var c: ConsumerId :| c in todo;
      TotalPick(todo, ConcurrencyCaps(sim), c);
      caps := caps + sim.consumers[c].concurrencyCap;
      todo := todo - {c};
    }
  }

  /**
    * The ready rows are read before the attempts of the window. The rate slots are the most that keep both within the
    * global rate over the window; the buffer slots are the fewest that bring the ready rows to the multiple of the
    * caps.
    */
  method ComputeBudget(sim: Simulation, db: Tables, now: Time) returns (budget: Budget)
    ensures budget == BudgetFrom(sim, |InState(db, Everyone, Ready)|,
        |Window(db, Everyone, now - sim.settings.windowS)|)
    ensures var ready := |set d | d in db.deliveries && db.deliveries[d].state == Ready|;
            var attempts := |set a | a in db.attempts && now - sim.settings.windowS <= db.attempts[a].startedAt|;
            var caps: map<int, int> := map c | c in sim.consumers :: sim.consumers[c].concurrencyCap;
            var rated := sim.globalAttemptsPerS * sim.settings.windowS;
            var wanted := sim.settings.bufferMultiplier * Total(sim.consumers.Keys, caps) as real;
            && (attempts + ready + budget.rateSlots) as real <= rated
            && rated < (attempts + ready + budget.rateSlots + 1) as real
            && (ready + budget.bufferSlots - 1) as real < wanted <= (ready + budget.bufferSlots) as real
  {
    hide RateCap, Window, InState, Total, ConcurrencyCaps;
    var caps := SumOfCaps(sim);
    var ready := |InState(db, Everyone, Ready)|;
    var attempts := |Window(db, Everyone, now - sim.settings.windowS)|;
    budget := Budget(Ceil(sim.settings.bufferMultiplier * caps as real) - ready,
        RateCap(sim, Everyone) - attempts - ready);
    ghost var each: map<int, int> := map c | c in sim.consumers :: sim.consumers[c].concurrencyCap;
    BudgetIs(sim, db, now, |set d | d in db.deliveries && db.deliveries[d].state == Ready|,
             |set a | a in db.attempts && now - sim.settings.windowS <= db.attempts[a].startedAt|,
             sim.settings.bufferMultiplier * Total(sim.consumers.Keys, each) as real,
             sim.globalAttemptsPerS * sim.settings.windowS);
  }

  lemma BudgetIs(sim: Simulation, db: Tables, now: Time, ready: int, attempts: int, wanted: real, rated: real)
    requires ready == |set d | d in db.deliveries && db.deliveries[d].state == Ready|
    requires attempts == |set a | a in db.attempts && now - sim.settings.windowS <= db.attempts[a].startedAt|
    requires var caps: map<int, int> := map c | c in sim.consumers :: sim.consumers[c].concurrencyCap;
             wanted == sim.settings.bufferMultiplier * Total(sim.consumers.Keys, caps) as real
    requires rated == sim.globalAttemptsPerS * sim.settings.windowS
    ensures |InState(db, Everyone, Ready)| == ready
    ensures |Window(db, Everyone, now - sim.settings.windowS)| == attempts
    ensures var budget := BudgetFrom(sim, ready, attempts);
            && (attempts + ready + budget.rateSlots) as real <= rated
            && rated < (attempts + ready + budget.rateSlots + 1) as real
            && (ready + budget.bufferSlots - 1) as real < wanted <= (ready + budget.bufferSlots) as real
  {
    InStateIs(db, 0, Ready);
    WindowIs(db, 0, now - sim.settings.windowS);
    RateCapIs(sim, RateCap(sim, Everyone));
    RateCapIs(sim, RateCap(sim, Everyone) + 1);
    BufferTargetIs(sim, BufferTarget(sim));
    BufferTargetIs(sim, BufferTarget(sim) - 1);
    hide RateCap, BufferTarget, Window, InState, Total;
  }

  // ---- One step each ----

  lemma ReadTheGauges(sim: Simulation, w: World)
    requires w.conductor.Swept?
    ensures Next(sim, w, ReadGauges, w.(conductor := Gauged(w.conductor.pass, GaugesOf(w.db, sim.consumers.Keys))))
  {
  }

  lemma QuitHere(sim: Simulation, w: World)
    ensures Next(sim, w, Quit, w.(conductor := Away))
  {
  }

  lemma BeginHere(sim: Simulation, w: World, w': World, fair: bool, outage: Option<bool>, reclaimed: set<DeliveryId>)
    requires w.conductor.Away? && w.clock.status == Clock.Running
        && Reclaims(w.db, w'.db, reclaimed, Now(w), sim.settings)
    requires w' == w.(db := w'.db, conductor := Swept(Pass(Now(w), fair, outage)))
    ensures Next(sim, w, Begin(fair, outage, reclaimed), w')
  {
    hide Reclaims;
  }

  lemma QuitAt(sim: Simulation, ws: seq<World>, acts: seq<Action>, from: World, w: World)
    returns (ws': seq<World>, acts': seq<Action>)
    requires Traces(sim, ws, acts, from, w)
    ensures Traces(sim, ws', acts', from, w.(conductor := Away)) && ws <= ws'
  {
    hide Run;
    QuitHere(sim, w);
    Then(sim, ws, acts, from, w, Quit, w.(conductor := Away));
    ws', acts' := ws + [w.(conductor := Away)], acts + [Quit];
  }

  lemma TurnIs(db: Tables, consumers: set<ConsumerId>, now: Time, outage: Option<bool>)
    ensures IsFinished(now, Backlog(GaugesOf(db, consumers)))
       <==> 1800.0 <= now || (900.0 <= now && ActiveOf(db, consumers) == {})
    ensures IsOutage(now, outage) <==> if outage.Some? then outage.value else 120.0 <= now < 420.0
  {
    BacklogIs(db, consumers);
    hide Backlog, GaugesOf, ActiveOf;
    SubsetSize({}, ActiveOf(db, consumers));
  }

  lemma FinishHere(sim: Simulation, w: World)
    requires w.conductor.Gauged? && IsFinished(w.conductor.pass.now, Backlog(w.conductor.gauges))
    ensures Next(sim, w, Finish, w.(conductor := Away, clock := Clock.Retire(w.clock, w.conductor.pass.now)))
  {
  }

  lemma CountBoth(sim: Simulation, ws: seq<World>, acts: seq<Action>, from: World, w: World, budget: Budget)
    returns (ws': seq<World>, acts': seq<Action>, to: World)
    requires Traces(sim, ws, acts, from, w) && w.conductor.Gauged?
    requires !IsFinished(w.conductor.pass.now, Backlog(w.conductor.gauges))
        && !IsOutage(w.conductor.pass.now, w.conductor.pass.outage)
    requires budget == BudgetFrom(sim, |InState(w.db, Everyone, Ready)|,
        |Window(w.db, Everyone, w.conductor.pass.now - sim.settings.windowS)|)
    ensures to == w.(conductor := Budgeted(w.conductor.pass, w.conductor.gauges, budget))
    ensures Traces(sim, ws', acts', from, to) && ws <= ws' && acts' == acts + [CountReady] + [CountAttempts]
  {
    hide Run, BudgetFrom, IsFinished, IsOutage, Backlog;
    var mid := w.(conductor := ReadyCounted(w.conductor.pass, w.conductor.gauges, |InState(w.db, Everyone, Ready)|));
    to := w.(conductor := Budgeted(w.conductor.pass, w.conductor.gauges, budget));
    assert Next(sim, w, CountReady, mid) && Next(sim, mid, CountAttempts, to);
    Then(sim, ws, acts, from, w, CountReady, mid);
    Then(sim, ws + [mid], acts + [CountReady], from, mid, CountAttempts, to);
    ws', acts' := ws + [mid] + [to], acts + [CountReady] + [CountAttempts];
  }

  lemma SurveyHere(sim: Simulation, ws: seq<World>, acts: seq<Action>, from: World, w: World,
      allow: map<ConsumerId, int>)
    returns (ws': seq<World>, acts': seq<Action>, to: World)
    requires Traces(sim, ws, acts, from, w) && w.conductor.Budgeted? && w.conductor.budget.Slots() > 0
    requires Allows(sim,
               Headrooms(sim, Demand(w.db, sim.consumers.Keys, w.conductor.pass.now),
                         Used(w.db, sim.consumers.Keys, w.conductor.pass.now - sim.settings.windowS),
                         w.conductor.gauges, !w.conductor.pass.fair),
               w.conductor.budget.Slots(), w.conductor.pass.fair, allow)
    ensures to == w.(conductor := Surveyed(w.conductor.pass, w.conductor.budget.Slots(), allow))
    ensures Traces(sim, ws', acts', from, to) && ws <= ws' && acts' == acts + [ReadDemand] + [Survey(allow)]
  {
    hide Run, Allows, Headrooms;
    var c := w.conductor;
    var mid := w.(conductor := DemandRead(c.pass, c.gauges, c.budget, Demand(w.db, sim.consumers.Keys, c.pass.now)));
    to := w.(conductor := Surveyed(c.pass, c.budget.Slots(), allow));
    assert Next(sim, w, ReadDemand, mid) && Next(sim, mid, Survey(allow), to);
    Then(sim, ws, acts, from, w, ReadDemand, mid);
    Then(sim, ws + [mid], acts + [ReadDemand], from, mid, Survey(allow), to);
    ws', acts' := ws + [mid] + [to], acts + [ReadDemand] + [Survey(allow)];
  }

  // ---- The verdict's drops are one per row ----

  lemma {:induction false} DroppedOnce(db: Tables, cs: seq<Candidate>, policies: map<Stream, Policy>, now: Time,
      state: DeliveryState)
    requires DistinctIds(cs)
    ensures OncePerRow(DroppedInto(db, cs, policies, now, state))
  {
    if cs != [] {
      var n := |cs| - 1;
      DroppedOnce(db, cs[..n], policies, now, state);
      forall x | x in DroppedInto(db, cs[..n], policies, now, state)
        ensures x.delivery != cs[n].id
      {
        DroppedMeans(db, cs[..n], policies, now, state, x);
        var i :| 0 <= i < n && cs[..n][i].id == x.delivery;
        assert cs[i].id != cs[n].id;
      }
    }
  }

  lemma VerdictDropsOnce(db: Tables, cs: seq<Candidate>, policies: map<Stream, Policy>, now: Time, v: Verdict)
    requires DistinctIds(cs) && Judged(db, cs, policies, now, v)
    ensures OncePerRow(v.drops) && forall i :: 0 <= i < |v.drops| ==> v.drops[i].state.Terminal()
  {
    var expired, superseded := DroppedInto(db, cs, policies, now, Expired),
        DroppedInto(db, cs, policies, now, Superseded);
    DroppedOnce(db, cs, policies, now, Expired);
    DroppedOnce(db, cs, policies, now, Superseded);
    forall x | x in expired
      ensures x.state == Expired && FatedIn(db, cs, policies, now, x)
    {
      DroppedMeans(db, cs, policies, now, Expired, x);
    }
    forall x | x in superseded
      ensures x.state == Superseded && FatedIn(db, cs, policies, now, x)
    {
      DroppedMeans(db, cs, policies, now, Superseded, x);
    }
    forall x, y | x in expired && y in superseded
      ensures x.delivery != y.delivery
    {
      if x.delivery == y.delivery { OneVerdict(db, cs, policies, now, x, y); }
    }
    forall i | 0 <= i < |v.drops|
      ensures v.drops[i] in expired || v.drops[i] in superseded
    {
      assert v.drops[i] == if i < |expired| then expired[i] else superseded[i - |expired|];
    }
    OnceJoin(expired, superseded);
  }

  lemma OneVerdict(db: Tables, cs: seq<Candidate>, policies: map<Stream, Policy>, now: Time, x: Drop, y: Drop)
    requires DistinctIds(cs) && FatedIn(db, cs, policies, now, x) && FatedIn(db, cs, policies, now, y)
        && x.delivery == y.delivery
    ensures x.state == y.state
  {
    var i :| 0 <= i < |cs| && cs[i].id == x.delivery && Fate(db, cs[i], policies, now) == Some(x.state);
    var j :| 0 <= j < |cs| && cs[j].id == y.delivery && Fate(db, cs[j], policies, now) == Some(y.state);
    assert i == j;
  }

  lemma OnceJoin(a: seq<Drop>, b: seq<Drop>)
    requires OncePerRow(a) && OncePerRow(b) && forall x, y :: x in a && y in b ==> x.delivery != y.delivery
    ensures OncePerRow(a + b)
  {
    var all := a + b;
    forall i, j | 0 <= i < j < |all|
      ensures all[i].delivery != all[j].delivery
    {
      if i < |a| && j >= |a| { assert a[i] in a && b[j - |a|] in b; }
    }
  }

  lemma DropMapIs(drops: seq<Drop>, written: map<DeliveryId, DeliveryState>)
    requires OncePerRow(drops)
    requires forall x :: x in drops <==> x.delivery in written && written[x.delivery] == x.state
    ensures written == DropMap(drops)
  {
    forall d
      ensures d in written <==> d in DropMap(drops)
      ensures d in written ==> written[d] == DropMap(drops)[d]
    {
      Runs.DropMapMeans(drops, d);
      if d in written {
        assert Drop(d, written[d]) in drops;
        var i :| 0 <= i < |drops| && drops[i] == Drop(d, written[d]);
        OneFate(drops, d, written[d]);
      }
    }
  }

  lemma DropHere(sim: Simulation, w: World, w': World)
    requires w.conductor.Decided? && AppliesDrops(w.db, w'.db, w.conductor.drops, w.conductor.pass.now)
    requires w' == w.(db := w'.db, conductor := Dropped(w.conductor.pass, w.conductor.admit))
    ensures Next(sim, w, DropCondemned, w')
  {
    hide AppliesDrops;
  }

  lemma AdmitHere(sim: Simulation, w: World, w': World)
    requires w.conductor.Dropped? && MarksReady(w.db, w'.db, w.conductor.admit, w.conductor.pass.now)
    requires w' == w.(db := w'.db, conductor := Away)
    ensures Next(sim, w, Admit, w')
  {
    hide MarksReady;
  }

  // ---- The conductor ----

  /** Every row in flight that nobody else holds has a lease that still runs. */
  ghost predicate NoLeaseLeft(db: Tables, locked: set<DeliveryId>, now: Time) {
    forall d :: (&& d in db.deliveries && db.deliveries[d].state == InFlight && d !in locked
                 && db.deliveries[d].leaseExpiresAt.Some?) ==>
      now <= db.deliveries[d].leaseExpiresAt.value
  }

  class Conductor {
    const metrics: MetricsWriter

    constructor ()
      ensures fresh(metrics) && metrics.lastWritten == None
    {
      metrics := new MetricsWriter();
    }

    /**
      * One pass, in the order the service takes it: reclaim, gauges, chart, retire, outage, budget, select, drop,
      * admit.
      */
    method Pass(
      sim: Simulation, store: Store, snapshots: Snapshots, clock: Clock.Config, wall: real, fair: bool,
      outage: Option<bool>,
      locked: set<DeliveryId>, ghost workers: map<WorkerId, WorkerState>)
      returns (after: Clock.Config, ghost ws: seq<World>, ghost acts: seq<Action>)
      requires store.Valid() && clock.status == Clock.Running
      modifies store, snapshots, metrics
      ensures store.Valid()
      ensures Traces(sim, ws, acts, World(old(store.Db()), workers, Away, clock, wall),
          World(store.Db(), workers, Away, after, wall))
      ensures |ws| >= 3 && ws[2].conductor.Gauged?
      ensures Writes(ws[2].db, sim.consumers.Keys, ws[2].conductor.gauges, Clock.NowAt(clock, wall), sim.settings,
                     old(metrics.lastWritten), old(snapshots.rows), metrics.lastWritten, snapshots.rows)
      ensures NoLeaseLeft(ws[1].db, locked, Clock.NowAt(clock, wall))
      ensures var now := Clock.NowAt(clock, wall);
              var over := 1800.0 <= now || (900.0 <= now && ActiveOf(ws[2].db, sim.consumers.Keys) == {});
              && after == (if over then clock.(status := Clock.Done, pausedAtVirtual := Some(now)) else clock)
              && (over || (if outage.Some? then outage.value else 120.0 <= now < 420.0) ==> store.Db() == ws[2].db)
    {
      hide Run, Writes, Reclaims, GaugesOf, BudgetFrom, ActiveOf, IsFinished, IsOutage, NoLeaseLeft, SlotIs;
      ghost var from := World(store.Db(), workers, Away, clock, wall);
      var now := Clock.NowAt(clock, wall);
      ghost var expired := Sweep(sim, store, now, locked);
      ghost var pass := Machine.Pass(now, fair, outage);
      ghost var swept := World(store.Db(), workers, Swept(pass), clock, wall);
      BeginHere(sim, from, swept, fair, outage, expired);
      Stay(sim, from);
      Then(sim, [from], [], from, from, Begin(fair, outage, expired), swept);

      var gauges := GaugesOf(store.Db(), sim.consumers.Keys);
      ghost var gauged := swept.(conductor := Gauged(pass, gauges));
      ReadTheGauges(sim, swept);
      Then(sim, [from] + [swept], [] + [Begin(fair, outage, expired)], from, swept, ReadGauges, gauged);
      ws, acts := [from] + [swept] + [gauged], [] + [Begin(fair, outage, expired)] + [ReadGauges];

      metrics.Write(snapshots, store.Db(), sim.consumers.Keys, gauges, now, sim.settings);

      var backlog := TotalBacklog(gauges);
      TurnIs(store.Db(), sim.consumers.Keys, now, outage);
      if IsFinished(now, backlog) {
        after := Clock.Retire(clock, now);
        FinishHere(sim, gauged);
        Then(sim, ws, acts, from, gauged, Finish, gauged.(conductor := Away, clock := after));
        ws, acts := ws + [gauged.(conductor := Away, clock := after)], acts + [Finish];
        return;
      }
      after := clock;
      if IsOutage(now, outage) {
        ws, acts := QuitAt(sim, ws, acts, from, gauged);
        return;
      }
      ws, acts := Dispense(sim, store, now, fair, gauges, ws, acts, from, gauged);
    }

    /** The reaper's half: afterwards no lease that ran out is left, but for rows other transactions hold. */
    method Sweep(sim: Simulation, store: Store, now: Time, locked: set<DeliveryId>)
      returns (ghost expired: set<DeliveryId>)
      requires store.Valid()
      modifies store
      ensures store.Valid() && Reclaims(old(store.Db()), store.Db(), expired, now, sim.settings)
      ensures NoLeaseLeft(store.Db(), locked, now)
    {
      expired := store.ExpiredLeases(now, locked);
      var requeued, exhausted := store.ReclaimExpiredLeases(now, locked, sim.settings);
    }

    /** The half of the pass that admits: budget, allowances, candidates. */
    method Dispense(
      sim: Simulation, store: Store, now: Time, fair: bool, gauges: map<ConsumerId, Gauge>,
      ghost ws: seq<World>, ghost acts: seq<Action>, ghost from: World, ghost w: World)
      returns (ghost ws': seq<World>, ghost acts': seq<Action>)
      requires store.Valid() && Traces(sim, ws, acts, from, w) && w.db == store.Db()
      requires w.conductor.Gauged? && w.conductor.pass.now == now && w.conductor.pass.fair == fair
          && w.conductor.gauges == gauges
      requires !IsFinished(now, Backlog(gauges)) && !IsOutage(now, w.conductor.pass.outage)
      modifies store
      ensures store.Valid() && Traces(sim, ws', acts', from, w.(db := store.Db(), conductor := Away)) && ws <= ws'
    {
      hide Run, BudgetFrom, Allows, Headrooms, Demand, Used, GaugesOf, IsFinished, IsOutage, Backlog;
      hide Total, InState, Window, Ceil;
      var db := store.Db();
      var budget := ComputeBudget(sim, db, now);
      ghost var at;
      ws', acts', at := CountBoth(sim, ws, acts, from, w, budget);
      if budget.Slots() <= 0 {
        ws', acts' := QuitAt(sim, ws', acts', from, at);
        return;
      }
      var allow := SetAllowances(sim, db, now, gauges, budget.Slots(), fair);
      ws', acts', at := SurveyHere(sim, ws', acts', from, at, allow);
      if forall c :: c in allow ==> allow[c] == 0 {
        ws', acts' := QuitAt(sim, ws', acts', from, at);
        return;
      }
      ws', acts' := Admit(sim, store, now, fair, budget.Slots(), allow, ws', acts', from, at);
    }

    /** Fetch, judge, ration, then drops before admissions. */
    method Admit(
      sim: Simulation, store: Store, now: Time, fair: bool, slots: int, allow: map<ConsumerId, int>,
      ghost ws: seq<World>, ghost acts: seq<Action>, ghost from: World, ghost w: World)
      returns (ghost ws': seq<World>, ghost acts': seq<Action>)
      requires store.Valid() && Traces(sim, ws, acts, from, w) && w.db == store.Db()
      requires w.conductor.Surveyed? && w.conductor.pass.now == now && w.conductor.pass.fair == fair
      requires w.conductor.slots == slots && w.conductor.allow == allow && exists x :: x in allow && allow[x] != 0
      modifies store
      ensures store.Valid() && Traces(sim, ws', acts', from, w.(db := store.Db(), conductor := Away)) && ws <= ws'
    {
      hide Run, FairFetch, Oldest, Judged, Rationed, AppliesDrops, MarksReady, DistinctIds, OncePerRow;
      ghost var pass := w.conductor.pass;
      var db := store.Db();
      var cs: seq<Candidate>;
      var wanted := 0;
      if fair {
        cs, wanted := FairCandidates(db, now, allow, sim.settings.overfetch);
      } else {
        cs := FifoCandidates(db, now, slots * sim.settings.overfetch);
      }
      ghost var fetched := w.(conductor := Fetched(pass, slots, allow, cs));
      assert Next(sim, w, Fetch(wanted, cs), fetched);
      Then(sim, ws, acts, from, w, Fetch(wanted, cs), fetched);
      var verdict := Evaluate(db, cs, sim.policies, now);
      VerdictDropsOnce(db, cs, sim.policies, now, verdict);
      var admitted := Ration(verdict.admit, allow, slots);
      ghost var decided := w.(conductor := Decided(pass, DropMap(verdict.drops), IdSet(admitted)));
      assert Next(sim, fetched, Decide(verdict, admitted), decided);
      Then(sim, ws + [fetched], acts + [Fetch(wanted, cs)], from, fetched, Decide(verdict, admitted), decided);
      ghost var soFar, did := ws + [fetched] + [decided], acts + [Fetch(wanted, cs)] + [Decide(verdict, admitted)];
      ws', acts' := Apply(sim, store, now, verdict.drops, admitted, soFar, did, from, decided);
    }

    method Apply(
      sim: Simulation, store: Store, now: Time, drops: seq<Drop>, admitted: seq<Candidate>,
      ghost ws: seq<World>, ghost acts: seq<Action>, ghost from: World, ghost w: World)
      returns (ghost ws': seq<World>, ghost acts': seq<Action>)
      requires store.Valid() && Traces(sim, ws, acts, from, w) && w.db == store.Db()
      requires OncePerRow(drops) && forall i :: 0 <= i < |drops| ==> drops[i].state.Terminal()
      requires w.conductor.Decided? && w.conductor.pass.now == now
      requires w.conductor.drops == DropMap(drops) && w.conductor.admit == IdSet(admitted)
      modifies store
      ensures store.Valid() && Traces(sim, ws', acts', from, w.(db := store.Db(), conductor := Away)) && ws <= ws'
    {
      hide Run, AppliesDrops, MarksReady, OncePerRow;
      ghost var pass := w.conductor.pass;
      ghost var written := store.ApplyDrops(drops, now);
      DropMapIs(drops, written);
      ghost var dropped := w.(db := store.Db(), conductor := Dropped(pass, IdSet(admitted)));
      DropHere(sim, w, dropped);
      Then(sim, ws, acts, from, w, DropCondemned, dropped);
      var count := store.MarkReady(set i | 0 <= i < |admitted| :: admitted[i].id, now);
      ghost var done := w.(db := store.Db(), conductor := Away);
      AdmitHere(sim, dropped, done);
      Then(sim, ws + [dropped], acts + [DropCondemned], from, dropped, Action.Admit, done);
      ws', acts' := ws + [dropped] + [done], acts + [DropCondemned] + [Action.Admit];
    }
  }

  // ---- The worker ----

  lemma LockHere(sim: Simulation, w: World, worker: WorkerId, rows: set<DeliveryId>, locked: set<DeliveryId>,
      limit: int)
    requires WorkerOf(w, worker).Resting? && Picks(w.db, locked, limit, rows)
    requires forall d :: LockedBySomeone(w, d) ==> d in locked
    ensures Next(sim, w, Lock(worker, rows), w.(workers := w.workers[worker := Claiming(Now(w), rows)]))
  {
  }

  lemma CommitHere(sim: Simulation, w: World, worker: WorkerId, ids: map<DeliveryId, AttemptId>, w': World)
    requires WorkerOf(w, worker).Claiming?
    requires Claims(w.db, w'.db, worker, WorkerOf(w, worker).rows, ids, WorkerOf(w, worker).stamp, sim.policies,
        sim.settings)
    requires w' == w.(db := w'.db,
        workers := w.workers[worker := if ids == map[] then Resting else Holding(BatchFrom(w.db, ids))])
    ensures Next(sim, w, Commit(worker, ids), w')
  {
    hide Claims, BatchFrom;
  }

  lemma CompleteHere(sim: Simulation, w: World, worker: WorkerId, outcomes: set<Completion>, w': World)
    requires WorkerOf(w, worker).Holding? && Answers(WorkerOf(w, worker).batch, outcomes)
    requires Completes(w.db, w'.db, worker, outcomes, Now(w), sim.settings)
    requires w' == w.(db := w'.db, workers := w.workers[worker := Resting])
    ensures Next(sim, w, Complete(worker, outcomes), w')
  {
    hide Completes, Answers;
  }

  /** One answer for each claim in hand. */
  method AnswerAll(claimed: seq<Claimed>, answer: Claimed -> Outcome) returns (completions: seq<Completion>)
    ensures |completions| == |claimed|
    ensures forall i :: 0 <= i < |claimed| ==> completions[i] == Completion(claimed[i], answer(claimed[i]))
  {
    completions := [];
    for i := 0 to |claimed|
      invariant |completions| == i
      invariant forall j :: 0 <= j < i ==> completions[j] == Completion(claimed[j], answer(claimed[j]))
    {
      completions := completions + [Completion(claimed[i], answer(claimed[i]))];
    }
  }

  lemma AnswersAreDistinct(
    db: Tables, ids: map<DeliveryId, AttemptId>, claimed: seq<Claimed>, answer: Claimed -> Outcome,
    completions: seq<Completion>)
    requires Injective(ids) && Inside(db, ids.Keys) && Those(claimed) == BatchFrom(db, ids) && NoRepeats(claimed)
    requires forall d :: d in ids ==> db.deliveries[d].attemptCount >= 0
    requires forall c :: answer(c) != LeaseExpired
    requires |completions| == |claimed| && forall i :: 0 <= i < |claimed| ==>
        completions[i] == Completion(claimed[i], answer(claimed[i]))
    ensures NoRepeats(completions) && Distinct(Those(completions)) && Answers(BatchFrom(db, ids), Those(completions))
  {
    forall c | c in Those(completions)
      ensures c.claimed in BatchFrom(db, ids) && c.outcome == answer(c.claimed)
    {
      var i :| 0 <= i < |completions| && completions[i] == c;
      assert claimed[i] in Those(claimed);
    }
    forall c | c in BatchFrom(db, ids)
      ensures exists x :: x in Those(completions) && x.claimed == c
    {
      assert c in Those(claimed);
      var i :| 0 <= i < |claimed| && claimed[i] == c;
      assert completions[i] in Those(completions);
    }
  }

  class Worker {
    const id: WorkerId

    constructor (id: WorkerId)
      ensures this.id == id
    {
      this.id := id;
    }

    /** Claim, attempt, complete: one batch in hand at a time, and a kill taken with it in hand leaves it unanswered. */
    method Drain(
      sim: Simulation, store: Store, clock: Clock.Config, claimedAt: real, completedAt: real, limit: int,
      locked: set<DeliveryId>, crash: bool, answer: Claimed -> Outcome,
      ghost workers: map<WorkerId, WorkerState>, ghost conductor: Machine.Conductor)
      returns (ghost ws: seq<World>, ghost acts: seq<Action>, ghost to: World)
      requires store.Valid() && claimedAt <= completedAt && forall c :: answer(c) != LeaseExpired
      requires WorkerOf(World(store.Db(), workers, conductor, clock, claimedAt), id).Resting?
      requires forall d :: LockedBySomeone(World(store.Db(), workers, conductor, clock, claimedAt), d) ==> d in locked
      modifies store
      ensures store.Valid()
      ensures Traces(sim, ws, acts, World(old(store.Db()), workers, conductor, clock, claimedAt), to)
      ensures to.db == store.Db() && to.conductor == conductor && to.clock == clock
      ensures to.workers == if clock.status == Clock.Paused then workers else workers[id := Resting]
    {
      hide Run, Claims, Picks, BatchFrom, Answers, Completes, Distinct, LockedBySomeone;
      ghost var from := World(store.Db(), workers, conductor, clock, claimedAt);
      Stay(sim, from);
      ws, acts, to := [from], [], from;
      if clock.status == Clock.Paused { return; }
      assert forall d :: d in from.db.deliveries ==> from.db.deliveries[d].attemptCount >= 0;
      var claimed: seq<Claimed>;
      ghost var ids: map<DeliveryId, AttemptId>;
      claimed, ids, ws, acts, to := Claim(sim, store, Clock.NowAt(clock, claimedAt), limit, locked, from);
      if claimed == [] { return; }
      if crash {
        ghost var dead := to.(workers := to.workers[id := Resting]);
        AbandonHere(sim, to, id);
        Then(sim, ws, acts, from, to, Abandon(id), dead);
        ws, acts, to := ws + [dead], acts + [Abandon(id)], dead;
        return;
      }
      var completions := AnswerAll(claimed, answer);
      AnswersAreDistinct(from.db, ids, claimed, answer, completions);
      ghost var later := to.(wall := completedAt);
      TickHere(sim, to, completedAt);
      Then(sim, ws, acts, from, to, Tick(completedAt), later);
      store.CompleteBatch(id, completions, Clock.NowAt(clock, completedAt), sim.settings);
      ghost var done := later.(db := store.Db(), workers := later.workers[id := Resting]);
      CompleteHere(sim, later, id, Those(completions), done);
      Then(sim, ws + [later], acts + [Tick(completedAt)], from, later, Complete(id, Those(completions)), done);
      ws, acts, to := ws + [later] + [done], acts + [Tick(completedAt)] + [Complete(id, Those(completions))], done;
    }

    /** The first transaction: locks, then the leases and attempts committed. */
    method Claim(sim: Simulation, store: Store, now: Time, limit: int, locked: set<DeliveryId>, ghost from: World)
      returns (claimed: seq<Claimed>, ghost ids: map<DeliveryId, AttemptId>, ghost ws: seq<World>,
          ghost acts: seq<Action>, ghost to: World)
      requires store.Valid() && from.db == store.Db() && WorkerOf(from, id).Resting? && now == Now(from)
      requires forall d :: LockedBySomeone(from, d) ==> d in locked
      modifies store
      ensures store.Valid() && Inside(from.db, ids.Keys) && Injective(ids)
      ensures Those(claimed) == BatchFrom(from.db, ids) && NoRepeats(claimed) && (claimed == [] <==> ids == map[])
      ensures Traces(sim, ws, acts, from, to)
      ensures to == from.(db := store.Db(),
          workers := from.workers[id := if ids == map[] then Resting else Holding(BatchFrom(from.db, ids))])
    {
      hide Run, Claims, Picks, BatchFrom, LockedBySomeone;
      ghost var rows;
      claimed, rows, ids := store.ClaimBatch(sim, id, now, limit, locked);
      ghost var locking := from.(workers := from.workers[id := Claiming(now, rows)]);
      LockHere(sim, from, id, rows, locked, limit);
      Stay(sim, from);
      Then(sim, [from], [], from, from, Lock(id, rows), locking);
      to := locking.(db := store.Db(),
          workers := locking.workers[id := if ids == map[] then Resting else Holding(BatchFrom(from.db, ids))]);
      CommitHere(sim, locking, id, ids, to);
      Then(sim, [from] + [locking], [] + [Lock(id, rows)], from, locking, Commit(id, ids), to);
      ws, acts := [from] + [locking] + [to], [] + [Lock(id, rows)] + [Commit(id, ids)];
      EmptyBatch(from.db, ids, claimed);
    }
  }

  lemma EmptyBatch(db: Tables, ids: map<DeliveryId, AttemptId>, claimed: seq<Claimed>)
    requires Inside(db, ids.Keys) && Those(claimed) == BatchFrom(db, ids)
    ensures claimed == [] <==> ids == map[]
  {
    if claimed != [] {
      assert claimed[0] in Those(claimed);
    }
    if ids != map[] {
      assert ids.Keys != {};
      var d := Member(ids.Keys);
      assert Claimed(d, ids[d], db.deliveries[d].attemptCount + 1) in Those(claimed);
    }
  }

  lemma AbandonHere(sim: Simulation, w: World, worker: WorkerId)
    requires worker in w.workers
    ensures Next(sim, w, Abandon(worker), w.(workers := w.workers[worker := Resting]))
  {
  }

  lemma TickHere(sim: Simulation, w: World, wall: real)
    requires w.wall <= wall
    ensures Next(sim, w, Tick(wall), w.(wall := wall))
  {
  }
}
