/** When a retired run is really over (app/core/scenario.py, app/conductor/service.py, app/api/producer.py). */
module Retirement {
  import opened Model
  import opened Sets
  import opened Admission
  import opened Machine
  import opened Runs
  import opened Lifetimes
  import opened Ledger

  ghost predicate Drained(db: Tables) { forall d :: d in db.deliveries ==> db.deliveries[d].state.Terminal() }

  lemma EmptyBacklogIsDrained(sim: Simulation, db: Tables)
    requires Fanned(sim, db) && Backlog(GaugesOf(db, sim.consumers.Keys)) == 0
    ensures Drained(db)
  {
    var g := GaugesOf(db, sim.consumers.Keys);
    var sums: map<ConsumerId, int> := map c | c in g :: g[c].pending + g[c].ready + g[c].inFlight;
    var zero: map<ConsumerId, int> := map c | c in g :: 0;
    TotalZero(g.Keys, zero);
    TotalAtMost(g.Keys, zero, sums);
    forall d | d in db.deliveries
      ensures db.deliveries[d].state.Terminal()
    {
      var c := db.deliveries[d].consumer;
      assert Stream(c, db.events[db.deliveries[d].event].eventType).consumer in sim.consumers;
      assert sums[c] == 0;
      assert d !in InState(db, Only(c), Pending) && d !in InState(db, Only(c), Ready)
          && d !in InState(db, Only(c), InFlight);
    }
  }

  /** Settled rows stay settled, so what was drained is drained until a row is added. */
  lemma DrainedStays(sim: Simulation, w: World, a: Action, w': World)
    requires Inv(sim, w) && Drained(w.db) && Next(sim, w, a, w') && w'.db.deliveries.Keys == w.db.deliveries.Keys
    ensures Drained(w'.db)
  {
    NextMoves(sim, w, a, w');
    hide Next, Inv;
  }

  lemma RowsStay(sim: Simulation, w: World, a: Action, w': World)
    requires Inv(sim, w) && Next(sim, w, a, w')
    ensures w.db.deliveries.Keys <= w'.db.deliveries.Keys
  {
    NextMoves(sim, w, a, w');
    hide Next, Inv;
    assert forall d :: d in w.db.deliveries.Keys ==> d in w'.db.deliveries.Keys;
  }

  /** Rows are never deleted. */
  lemma {:induction false} RowsOnlyGrow(sim: Simulation, ws: seq<World>, acts: seq<Action>, m: nat, n: nat)
    requires Run(sim, ws, acts) && Initial(ws[0]) && m <= n <= |acts|
    ensures ws[m].db.deliveries.Keys <= ws[n].db.deliveries.Keys
    decreases n
  {
    hide Next, Inv, Initial;
    if m < n {
      RowsOnlyGrow(sim, ws, acts, m, n - 1);
      RunKeepsInv(sim, ws, acts, n - 1);
      RowsStay(sim, ws[n - 1], acts[n - 1], ws[n]);
    }
  }

  // ---- The pass that reads an empty backlog ----

  /** The pass at state m read its gauges at step g, and has done nothing since. */
  ghost predicate ReadIn(sim: Simulation, ws: seq<World>, acts: seq<Action>, g: nat, m: nat)
    requires |ws| == |acts| + 1 && m < |ws|
  {
    && g < m && acts[g].ReadGauges? && ws[g].conductor.Swept?
    && forall i :: g < i <= m ==>
        ws[i].conductor == Gauged(ws[g].conductor.pass, GaugesOf(ws[g].db, sim.consumers.Keys))
  }

  lemma GaugedSince(sim: Simulation, w: World, a: Action, w': World)
    requires Next(sim, w, a, w') && w'.conductor.Gauged?
    ensures a.ReadGauges? ==>
        w.conductor.Swept? && w'.conductor == Gauged(w.conductor.pass, GaugesOf(w.db, sim.consumers.Keys))
    ensures !a.ReadGauges? ==> w'.conductor == w.conductor && Outside(a)
  {
  }

  lemma {:induction false} GaugesWereRead(sim: Simulation, ws: seq<World>, acts: seq<Action>, m: nat) returns (g: nat)
    requires Run(sim, ws, acts) && Initial(ws[0]) && m <= |acts| && ws[m].conductor.Gauged?
    ensures ReadIn(sim, ws, acts, g, m)
  {
    hide Next, GaugesOf;
    assert m > 0;
    GaugedSince(sim, ws[m - 1], acts[m - 1], ws[m]);
    if acts[m - 1].ReadGauges? {
      g := m - 1;
    } else {
      g := GaugesWereRead(sim, ws, acts, m - 1);
    }
  }

  /** Since the gauges were read, a row that was added is pending and the rest are as settled as they were. */
  lemma {:induction false} AddedRowsWait(sim: Simulation, ws: seq<World>, acts: seq<Action>, g: nat, m: nat,
      d: DeliveryId)
    requires Run(sim, ws, acts) && Initial(ws[0]) && m <= |acts| && ReadIn(sim, ws, acts, g, m)
    requires d in ws[m].db.deliveries && d !in ws[g].db.deliveries
    ensures ws[m].db.deliveries[d].state == Pending
    decreases m
  {
    hide Next, Inv, Initial, GaugesOf;
    assert Next(sim, ws[m - 1], acts[m - 1], ws[m]);
    RunKeepsInv(sim, ws, acts, m - 1);
    if d !in ws[m - 1].db.deliveries {
      NewRowsArePending(sim, ws[m - 1], acts[m - 1], ws[m], d);
    } else {
      assert m - 1 > g;
      AddedRowsWait(sim, ws, acts, g, m - 1, d);
      GaugedSince(sim, ws[m - 1], acts[m - 1], ws[m]);
      assert Outside(acts[m - 1]) by { NotAReadAgain(sim, ws, acts, g, m); }
      OutsideLeavesPending(sim, ws[m - 1], acts[m - 1], ws[m]);
      assert PendingAt(ws[m - 1].db, d);
    }
  }

  lemma NotAReadAgain(sim: Simulation, ws: seq<World>, acts: seq<Action>, g: nat, m: nat)
    requires Run(sim, ws, acts) && m <= |acts| && ReadIn(sim, ws, acts, g, m) && m - 1 > g
    ensures Outside(acts[m - 1])
  {
    hide Next, GaugesOf;
    GaugedSince(sim, ws[m - 1], acts[m - 1], ws[m]);
  }

  /**
    * After an empty backlog was read, the tables stay drained for as long as no row is added, through retirement and
    * beyond.
    */
  lemma {:induction false} EmptyStaysDrained(sim: Simulation, ws: seq<World>, acts: seq<Action>, g: nat, n: nat)
    requires Run(sim, ws, acts) && Initial(ws[0]) && g <= n <= |acts|
    requires Backlog(GaugesOf(ws[g].db, sim.consumers.Keys)) == 0
    requires ws[n].db.deliveries.Keys == ws[g].db.deliveries.Keys
    ensures Drained(ws[n].db)
    decreases n
  {
    hide Next, Inv, Initial, GaugesOf, Drained, Backlog;
    if n == g {
      RunKeepsFanned(sim, ws, acts, g);
      EmptyBacklogIsDrained(sim, ws[g].db);
    } else {
      RowsOnlyGrow(sim, ws, acts, g, n - 1);
      RowsOnlyGrow(sim, ws, acts, n - 1, n);
      EmptyStaysDrained(sim, ws, acts, g, n - 1);
      RunKeepsInv(sim, ws, acts, n - 1);
      DrainedStays(sim, ws[n - 1], acts[n - 1], ws[n]);
    }
  }

  lemma FinishReadEmpty(sim: Simulation, ws: seq<World>, acts: seq<Action>, g: nat, m: nat)
    requires Run(sim, ws, acts) && m < |acts| && ReadIn(sim, ws, acts, g, m)
    requires acts[m].Finish? && ws[m].conductor.pass.now < SCENARIO_MAX_VIRTUAL_S
    ensures Backlog(GaugesOf(ws[g].db, sim.consumers.Keys)) == 0 && !IsProducing(ws[m].conductor.pass.now)
  {
    hide GaugesOf, Backlog;
    assert Next(sim, ws[m], acts[m], ws[m + 1]);
  }

  /**
   * A run retired before the backstop is over if and only if no delivery was added between its pass's gauge read and
   * the retirement; and then it stays over for as long as none is added.
   */
  lemma RetiredIffNothingAdded(sim: Simulation, ws: seq<World>, acts: seq<Action>, m: nat) returns (g: nat)
    requires Run(sim, ws, acts) && Initial(ws[0]) && m < |acts| && acts[m].Finish? && ws[m].conductor.Gauged?
    requires ws[m].conductor.pass.now < SCENARIO_MAX_VIRTUAL_S
    ensures ReadIn(sim, ws, acts, g, m)
    ensures Drained(ws[m].db) <==> ws[m].db.deliveries.Keys == ws[g].db.deliveries.Keys
    ensures forall n :: m <= n <= |acts| && ws[n].db.deliveries.Keys == ws[g].db.deliveries.Keys ==> Drained(ws[n].db)
  {
    hide Next, Inv, Initial, GaugesOf, Backlog;
    g := GaugesWereRead(sim, ws, acts, m);
    FinishReadEmpty(sim, ws, acts, g, m);
    forall n | m <= n <= |acts| && ws[n].db.deliveries.Keys == ws[g].db.deliveries.Keys
      ensures Drained(ws[n].db)
    {
      EmptyStaysDrained(sim, ws, acts, g, n);
    }
    RowsOnlyGrow(sim, ws, acts, g, m);
    if ws[m].db.deliveries.Keys != ws[g].db.deliveries.Keys {
      var added := ws[m].db.deliveries.Keys - ws[g].db.deliveries.Keys;
      assert ws[m].db.deliveries.Keys == ws[g].db.deliveries.Keys + added;
      var d := Member(added);
      AddedRowsWait(sim, ws, acts, g, m, d);
    }
  }

  // ---- A producer that commits what it ticked ----

  /** The producer is the only source: every batch was ticked before the script's end. */
  ghost predicate ProducerOnly(acts: seq<Action>) {
    forall i :: 0 <= i < |acts| && acts[i].Ingest? ==> IsProducing(acts[i].tick)
  }

  /** No batch ticked before the script's end lands once a pass could have read past it. */
  ghost predicate NoStragglers(ws: seq<World>, acts: seq<Action>) {
    && |ws| == |acts| + 1
    && forall i :: 0 <= i < |acts| && acts[i].Ingest? && IsProducing(acts[i].tick) ==> IsProducing(Horizon(ws[i]))
  }

  lemma {:induction false} NothingAddedAfter(sim: Simulation, ws: seq<World>, acts: seq<Action>, g: nat, n: nat)
    requires Run(sim, ws, acts) && Initial(ws[0]) && g <= n <= |acts| && !IsProducing(Horizon(ws[g]))
    requires ProducerOnly(acts) && NoStragglers(ws, acts)
    ensures ws[n].db.deliveries.Keys == ws[g].db.deliveries.Keys && !IsProducing(Horizon(ws[n]))
    decreases n
  {
    hide Next, Inv, Initial, Horizon;
    HorizonNeverFalls(sim, ws, acts, g, n);
    if g < n {
      NothingAddedAfter(sim, ws, acts, g, n - 1);
      assert Next(sim, ws[n - 1], acts[n - 1], ws[n]);
      RowsOnlyGrowByIngest(sim, ws[n - 1], acts[n - 1], ws[n]);
    }
  }

  /**
    * With the producer as sole source and no straggling batch, a run retired before the backstop is over, and stays
    * over.
    */
  lemma RetirementIsStable(sim: Simulation, ws: seq<World>, acts: seq<Action>, m: nat, n: nat)
    requires Run(sim, ws, acts) && Initial(ws[0]) && m <= n <= |acts| && ProducerOnly(acts) && NoStragglers(ws, acts)
    requires m < |acts| && acts[m].Finish? && ws[m].conductor.Gauged?
        && ws[m].conductor.pass.now < SCENARIO_MAX_VIRTUAL_S
    ensures Drained(ws[n].db) && !IsProducing(Now(ws[n]))
  {
    hide Next, Inv, Initial, GaugesOf, Backlog, Drained;
    var g := RetiredIffNothingAdded(sim, ws, acts, m);
    FinishReadEmpty(sim, ws, acts, g, m);
    assert Horizon(ws[g]) == ws[m].conductor.pass.now;
    NothingAddedAfter(sim, ws, acts, g, n);
    RunKeepsInv(sim, ws, acts, n);
    HorizonIsPast(sim, ws[n]);
  }
}
