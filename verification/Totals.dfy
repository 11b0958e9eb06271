/**
  * What the chart adds up to (app/conductor/metrics.py): column by column, over everything written, the rows the
  * tables hold.
  */
module Totals {
  import opened Model
  import opened Sets
  import opened Policies
  import opened Fences
  import opened Machine
  import opened Runs
  import opened Metrics
  import opened Charts
  import Ledger

  // ---- Sums over slots ----

  ghost function SumOf(slots: set<Slot>, f: map<Slot, int>): int {
    if slots == {} then 0 else var x := Member(slots); (if x in f then f[x] else 0) + SumOf(slots - {x}, f)
  }

  /** Disjoint parts, counted slot by slot, add up to the whole. */
  lemma {:induction false} PartsAddUp(slots: set<Slot>, parts: map<Slot, set<int>>, f: map<Slot, int>, all: set<int>)
    requires slots <= parts.Keys && slots <= f.Keys && forall x :: x in slots ==> f[x] == |parts[x]|
    requires forall x, y, d :: x in slots && y in slots && d in parts[x] && d in parts[y] ==> x == y
    requires forall d :: d in all <==> exists x :: x in slots && d in parts[x]
    ensures SumOf(slots, f) == |all|
    decreases |slots|
  {
    if slots == {} {
      assert forall d :: d !in all;
      TwoParts({}, {}, all);
    } else {
      var x := Member(slots);
      var rest := all - parts[x];
      forall d
        ensures d in rest <==> exists y :: y in slots - {x} && d in parts[y]
      {
        if d in rest {
          var y :| y in slots && d in parts[y];
          assert y in slots - {x};
        }
      }
      PartsAddUp(slots - {x}, parts, f, rest);
      TwoParts(parts[x], rest, all);
    }
  }

  // ---- One column of a whole table ----

  /** Every row completed in the buckets of the table, in one state. */
  ghost function CompletedIn(db: Tables, state: DeliveryState, from: Time, to: Time): set<DeliveryId> {
    set d | d in db.deliveries && db.deliveries[d].state == state
            && db.deliveries[d].completedAt.Some? && from <= db.deliveries[d].completedAt.value < to
  }

  lemma InSomeBucket(t: Time, bucketS: real, top: int)
    requires bucketS > 0.0 && top >= -1
    ensures 0.0 <= t < (top + 1) as real * bucketS <==> 0 <= BucketIndex(t, bucketS) <= top
  {
    WindowIsBuckets(t, bucketS, 0, top);
  }

  /** Over a table without holes, what each slot settled in a state adds up to what everybody settled in it. */
  lemma ColumnAddsUp(
    db: Tables, table: Table, consumers: set<ConsumerId>, top: int, bucketS: real, end: Time, state: DeliveryState,
    f: map<Slot, int>)
    requires end == (top + 1) as real * bucketS
    requires bucketS > 0.0 && top >= -1 && NoHoles(table, consumers, top) && f.Keys == table.Keys
    requires forall d :: d in db.deliveries ==> db.deliveries[d].consumer in consumers
    requires forall slot :: slot in table ==> f[slot] == |SettledRows(db, slot, state, bucketS)|
    ensures SumOf(table.Keys, f) == |CompletedIn(db, state, 0.0, end)|
  {
    hide BucketIndex;
    var all := CompletedIn(db, state, 0.0, end);
    var parts: map<Slot, set<int>> := map slot | slot in table :: SettledRows(db, slot, state, bucketS);
    forall d
      ensures d in all <==> exists slot :: slot in table.Keys && d in parts[slot]
    {
      if d in db.deliveries && db.deliveries[d].completedAt.Some? {
        var row := db.deliveries[d];
        InSomeBucket(row.completedAt.value, bucketS, top);
        var slot := Slot(row.consumer, BucketIndex(row.completedAt.value, bucketS));
        if d in all { assert InSpan(slot, consumers, 0, top) && slot in table && d in parts[slot]; }
      }
    }
    PartsAddUp(table.Keys, parts, f, all);
  }

  // ---- The terminal columns no late claim can touch ----

  lemma OthersKept(sim: Simulation, w: World, a: Action, w': World, slot: Slot)
    requires Inv(sim, w) && Next(sim, w, a, w') && LagsAt(sim, w, slot)
    ensures var was, now := Recount(w.db, slot, sim.settings.bucketS), Recount(w'.db, slot, sim.settings.bucketS);
            now.delivered == was.delivered && now.superseded == was.superseded && now.failed == was.failed
  {
    hide Next, Inv, Recount, BucketIndex;
    HorizonIsPast(sim, w);
    if a.Commit? {
      CommitAdds(sim, w, a, w', slot);
    } else {
      RecountKept(sim, w, a, w', slot);
    }
  }

  lemma {:induction false} OthersSince(sim: Simulation, ws: seq<World>, acts: seq<Action>, m: nat, n: nat, slot: Slot)
    requires Run(sim, ws, acts) && Initial(ws[0]) && m <= n <= |acts| && LagsAt(sim, ws[m], slot)
    ensures var was, now := Recount(ws[m].db, slot, sim.settings.bucketS),
        Recount(ws[n].db, slot, sim.settings.bucketS);
            now.delivered == was.delivered && now.superseded == was.superseded && now.failed == was.failed
    decreases n
  {
    hide Next, Inv, Initial, Recount, LagsAt;
    if m < n {
      OthersSince(sim, ws, acts, m, n - 1, slot);
      LagsLater(sim, ws, acts, m, n - 1, slot);
      RunKeepsInv(sim, ws, acts, n - 1);
      OthersKept(sim, ws[n - 1], acts[n - 1], ws[n], slot);
    }
  }

  lemma OthersAreExact(
    sim: Simulation, ws: seq<World>, acts: seq<Action>, leaders: seq<Option<int>>, charts: seq<Chart>, n: nat,
    slot: Slot)
    requires Run(sim, ws, acts) && Initial(ws[0]) && Charted(sim, ws, leaders, charts)
    requires n <= |acts| && slot in charts[n].table
    ensures var counters := charts[n].table[slot].counters;
            && counters.delivered == |SettledRows(ws[n].db, slot, Delivered, sim.settings.bucketS)|
            && counters.superseded == |SettledRows(ws[n].db, slot, Superseded, sim.settings.bucketS)|
            && counters.failed == |SettledRows(ws[n].db, slot, Failed, sim.settings.bucketS)|
  {
    hide Next, Initial, LagsAt, WritesBy, CountedAt, SettledRows, Started;
    EveryCounterIsARecount(sim, ws, leaders, charts, n);
    var at := CountedAt(sim, ws, leaders, charts, n);
    assert CountedWhen(sim, ws, charts[n], at, n, slot);
    OthersSince(sim, ws, acts, at[slot], n, slot);
  }

  lemma RowsHaveConsumers(sim: Simulation, db: Tables)
    requires Ledger.Fanned(sim, db)
    ensures forall d :: d in db.deliveries ==> db.deliveries[d].consumer in sim.consumers.Keys
  {
    forall d | d in db.deliveries
      ensures db.deliveries[d].consumer in sim.consumers
    {
      assert Stream(db.deliveries[d].consumer, db.events[db.deliveries[d].event].eventType) in sim.subscriptions;
    }
  }

  lemma LengthOf(sim: Simulation, ws: seq<World>, leaders: seq<Option<int>>, charts: seq<Chart>)
    requires Charted(sim, ws, leaders, charts)
    ensures |charts| == |ws| == |leaders| + 1
  {
  }

  lemma WholeTable(sim: Simulation, ws: seq<World>, leaders: seq<Option<int>>, charts: seq<Chart>, n: nat)
    requires Charted(sim, ws, leaders, charts) && GapsFit(sim, ws, leaders, charts) && n < |charts|
    ensures Top(charts[n].table) >= -1 && NoHoles(charts[n].table, sim.consumers.Keys, Top(charts[n].table))
  {
    ChartIsWhole(sim, ws, leaders, charts, n);
    hide Top, NoHoles, Charted, GapsFit;
  }

  /** Where the last bucket of a table ends. */
  ghost function EndOf(table: Table, bucketS: real): Time { (Top(table) + 1) as real * bucketS }

  lemma ColumnToEnd(
    db: Tables, table: Table, consumers: set<ConsumerId>, bucketS: real, state: DeliveryState, f: map<Slot, int>)
    requires bucketS > 0.0 && Top(table) >= -1 && NoHoles(table, consumers, Top(table)) && f.Keys == table.Keys
    requires forall d :: d in db.deliveries ==> db.deliveries[d].consumer in consumers
    requires forall slot :: slot in table ==> f[slot] == |SettledRows(db, slot, state, bucketS)|
    ensures SumOf(table.Keys, f) == |CompletedIn(db, state, 0.0, EndOf(table, bucketS))|
  {
    hide Top, NoHoles, SettledRows, CompletedIn, SumOf;
    ColumnAddsUp(db, table, consumers, Top(table), bucketS, EndOf(table, bucketS), state, f);
  }

  /** A column that is right slot by slot adds up over the whole chart, however leadership changed hands. */
  lemma ColumnIsWhole(
    sim: Simulation, ws: seq<World>, acts: seq<Action>, leaders: seq<Option<int>>, charts: seq<Chart>, n: nat,
    state: DeliveryState, f: map<Slot, int>)
    requires Run(sim, ws, acts) && Initial(ws[0]) && n <= |acts|
    requires Charted(sim, ws, leaders, charts) && GapsFit(sim, ws, leaders, charts)
    requires f.Keys == charts[n].table.Keys
    requires forall slot :: slot in f ==> f[slot] == |SettledRows(ws[n].db, slot, state, sim.settings.bucketS)|
    ensures SumOf(charts[n].table.Keys, f) ==
        |CompletedIn(ws[n].db, state, 0.0, EndOf(charts[n].table, sim.settings.bucketS))|
  {
    LengthOf(sim, ws, leaders, charts);
    hide *;
    WholeTable(sim, ws, leaders, charts, n);
    Ledger.RunKeepsFanned(sim, ws, acts, n);
    RowsHaveConsumers(sim, ws[n].db);
    ColumnToEnd(ws[n].db, charts[n].table, sim.consumers.Keys, sim.settings.bucketS, state, f);
  }

  /**
    * Whoever led, and however late any claim was: the delivered, superseded and failed columns, added up over the
    * whole chart, are the rows in those states completed in its buckets.
    */
  lemma SettledAreCharted(
    sim: Simulation, ws: seq<World>, acts: seq<Action>, leaders: seq<Option<int>>, charts: seq<Chart>, n: nat)
    requires Run(sim, ws, acts) && Initial(ws[0]) && n <= |acts|
    requires Charted(sim, ws, leaders, charts) && GapsFit(sim, ws, leaders, charts)
    ensures var db, table := ws[n].db, charts[n].table;
            var end := EndOf(table, sim.settings.bucketS);
            && SumOf(table.Keys, map slot | slot in table :: table[slot].counters.delivered)
               == |CompletedIn(db, Delivered, 0.0, end)|
            && SumOf(table.Keys, map slot | slot in table :: table[slot].counters.superseded)
               == |CompletedIn(db, Superseded, 0.0, end)|
            && SumOf(table.Keys, map slot | slot in table :: table[slot].counters.failed)
               == |CompletedIn(db, Failed, 0.0, end)|
  {
    LengthOf(sim, ws, leaders, charts);
    hide *;
    var table := charts[n].table;
    var delivered: map<Slot, int> := map slot | slot in table :: table[slot].counters.delivered;
    var superseded: map<Slot, int> := map slot | slot in table :: table[slot].counters.superseded;
    var failed: map<Slot, int> := map slot | slot in table :: table[slot].counters.failed;
    forall slot | slot in table
      ensures delivered[slot] == |SettledRows(ws[n].db, slot, Delivered, sim.settings.bucketS)|
      ensures superseded[slot] == |SettledRows(ws[n].db, slot, Superseded, sim.settings.bucketS)|
      ensures failed[slot] == |SettledRows(ws[n].db, slot, Failed, sim.settings.bucketS)|
    {
      OthersAreExact(sim, ws, acts, leaders, charts, n, slot);
    }
    ColumnIsWhole(sim, ws, acts, leaders, charts, n, Delivered, delivered);
    ColumnIsWhole(sim, ws, acts, leaders, charts, n, Superseded, superseded);
    ColumnIsWhole(sim, ws, acts, leaders, charts, n, Failed, failed);
  }

  // ---- The expired column, which a late claim can outdate ----

  /** The stale rows of the slot's consumer that a claim expires with a stamp in its bucket. */
  ghost function Expiring(sim: Simulation, w: World, a: Action, slot: Slot): set<DeliveryId> {
    if a.Commit? then Landing(sim, w, a, slot) - a.ids.Keys else {}
  }

  lemma StepExpires(sim: Simulation, w: World, a: Action, w': World, slot: Slot)
    requires Inv(sim, w) && Next(sim, w, a, w') && LagsAt(sim, w, slot)
    ensures Recount(w'.db, slot, sim.settings.bucketS).expired
         == Recount(w.db, slot, sim.settings.bucketS).expired + |Expiring(sim, w, a, slot)|
  {
    hide Next, Inv, Recount, BucketIndex;
    HorizonIsPast(sim, w);
    if a.Commit? {
      CommitAdds(sim, w, a, w', slot);
    } else {
      RecountKept(sim, w, a, w', slot);
    }
  }

  /** No claim expires anything in the slot from state m up to state n. */
  ghost predicate NoneExpire(sim: Simulation, ws: seq<World>, acts: seq<Action>, m: nat, n: nat, slot: Slot)
    requires n <= |acts| < |ws|
  {
    forall i {:trigger Expiring(sim, ws[i], acts[i], slot)} :: m <= i < n ==> Expiring(sim, ws[i], acts[i], slot) == {}
  }

  lemma {:induction false} ExpiredSince(sim: Simulation, ws: seq<World>, acts: seq<Action>, m: nat, n: nat, slot: Slot)
    requires Run(sim, ws, acts) && Initial(ws[0]) && m <= n <= |acts| && LagsAt(sim, ws[m], slot)
    ensures var was, now := Recount(ws[m].db, slot, sim.settings.bucketS),
        Recount(ws[n].db, slot, sim.settings.bucketS);
            was.expired <= now.expired && (was.expired == now.expired <==> NoneExpire(sim, ws, acts, m, n, slot))
    decreases n
  {
    hide Next, Inv, Initial, Recount, Expiring, LagsAt;
    if m < n {
      ExpiredSince(sim, ws, acts, m, n - 1, slot);
      LagsLater(sim, ws, acts, m, n - 1, slot);
      RunKeepsInv(sim, ws, acts, n - 1);
      StepExpires(sim, ws[n - 1], acts[n - 1], ws[n], slot);
      assert NoneExpire(sim, ws, acts, m, n, slot)
        <==> NoneExpire(sim, ws, acts, m, n - 1, slot) && Expiring(sim, ws[n - 1], acts[n - 1], slot) == {};
    }
  }

  lemma ExpiredAgainst(
    sim: Simulation, ws: seq<World>, acts: seq<Action>, leaders: seq<Option<int>>, charts: seq<Chart>, n: nat,
    slot: Slot)
    requires Run(sim, ws, acts) && Initial(ws[0]) && Charted(sim, ws, leaders, charts)
    requires n <= |acts| && slot in charts[n].table
    ensures slot in CountedAt(sim, ws, leaders, charts, n)
    ensures var expired, rows := charts[n].table[slot].counters.expired,
                                 |SettledRows(ws[n].db, slot, Expired, sim.settings.bucketS)|;
            && expired <= rows
            && (expired == rows
                <==> NoneExpire(sim, ws, acts, CountedAt(sim, ws, leaders, charts, n)[slot], n, slot))
  {
    hide Next, Initial, LagsAt, WritesBy, CountedAt, NoneExpire, SettledRows, Started;
    EveryCounterIsARecount(sim, ws, leaders, charts, n);
    var at := CountedAt(sim, ws, leaders, charts, n);
    assert CountedWhen(sim, ws, charts[n], at, n, slot);
    ExpiredSince(sim, ws, acts, at[slot], n, slot);
  }

  lemma {:induction false} SumAtMost(slots: set<Slot>, f: map<Slot, int>, g: map<Slot, int>)
    requires slots <= f.Keys && slots <= g.Keys && forall x :: x in slots ==> f[x] <= g[x]
    ensures SumOf(slots, f) <= SumOf(slots, g)
    ensures SumOf(slots, f) == SumOf(slots, g) <==> forall x :: x in slots ==> f[x] == g[x]
    decreases |slots|
  {
    if slots != {} {
      var x := Member(slots);
      SumAtMost(slots - {x}, f, g);
      assert forall y :: y in slots <==> y == x || y in slots - {x};
    }
  }

  /** A column that is nowhere more than its rows adds up to at most all of them, and to all if it is short nowhere. */
  lemma ColumnAgainst(
    sim: Simulation, ws: seq<World>, acts: seq<Action>, leaders: seq<Option<int>>, charts: seq<Chart>, n: nat,
    state: DeliveryState, f: map<Slot, int>, rows: map<Slot, int>)
    requires Run(sim, ws, acts) && Initial(ws[0]) && n <= |acts|
    requires Charted(sim, ws, leaders, charts) && GapsFit(sim, ws, leaders, charts)
    requires f.Keys == rows.Keys == charts[n].table.Keys
    requires forall slot :: slot in rows ==> rows[slot] == |SettledRows(ws[n].db, slot, state, sim.settings.bucketS)|
    requires forall slot :: slot in rows ==> f[slot] <= rows[slot]
    ensures var all := |CompletedIn(ws[n].db, state, 0.0, EndOf(charts[n].table, sim.settings.bucketS))|;
            && SumOf(charts[n].table.Keys, f) <= all
            && (SumOf(charts[n].table.Keys, f) == all <==> forall slot :: slot in rows ==> f[slot] == rows[slot])
  {
    LengthOf(sim, ws, leaders, charts);
    hide *;
    SumAtMost(charts[n].table.Keys, f, rows);
    ColumnIsWhole(sim, ws, acts, leaders, charts, n, state, rows);
  }

  /**
    * The expired column, added up over the whole chart, is never more than the rows that expired in its buckets, and
    * is all of them if and only if no claim has expired anything in a slot since that slot was counted.
    */
  lemma ExpiredAreCharted(
    sim: Simulation, ws: seq<World>, acts: seq<Action>, leaders: seq<Option<int>>, charts: seq<Chart>, n: nat)
    requires Run(sim, ws, acts) && Initial(ws[0]) && n <= |acts|
    requires Charted(sim, ws, leaders, charts) && GapsFit(sim, ws, leaders, charts)
    ensures charts[n].table.Keys <= CountedAt(sim, ws, leaders, charts, n).Keys
    ensures var table, at := charts[n].table, CountedAt(sim, ws, leaders, charts, n);
            var charted := SumOf(table.Keys, map slot | slot in table :: table[slot].counters.expired);
            var expired := |CompletedIn(ws[n].db, Expired, 0.0, EndOf(table, sim.settings.bucketS))|;
            && charted <= expired
            && (charted == expired
                <==> forall slot {:trigger NoneExpire(sim, ws, acts, at[slot], n, slot)} :: slot in table ==>
                       NoneExpire(sim, ws, acts, at[slot], n, slot))
  {
    LengthOf(sim, ws, leaders, charts);
    hide *;
    var table := charts[n].table;
    var column: map<Slot, int> := map slot | slot in table :: table[slot].counters.expired;
    var rows: map<Slot, int> :=
      map slot | slot in table :: |SettledRows(ws[n].db, slot, Expired, sim.settings.bucketS)|;
    var at := CountedAt(sim, ws, leaders, charts, n);
    forall slot | slot in table
      ensures slot in at && column[slot] <= rows[slot]
      ensures column[slot] == rows[slot] <==> NoneExpire(sim, ws, acts, at[slot], n, slot)
    {
      ExpiredAgainst(sim, ws, acts, leaders, charts, n, slot);
    }
    ColumnAgainst(sim, ws, acts, leaders, charts, n, Expired, column, rows);
  }
}
