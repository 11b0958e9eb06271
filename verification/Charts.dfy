/**
 * The chart over a whole run, whoever leads: every conductor that takes over writes with its own cache, or none,
 * between the gauge read and the rest of its pass (app/conductor/metrics.py, app/conductor/service.py).
 */
module Charts {
  import opened Model
  import opened Sets
  import opened Lifecycle
  import opened Fences
  import opened Machine
  import opened Runs
  import opened Lifetimes
  import opened Metrics

  /** The snapshot table, and what each conductor process remembers having written. */
  datatype Chart = Chart(table: Table, caches: map<int, int>)

  function CacheOf(chart: Chart, leader: int): Option<int> {
    if leader in chart.caches then Some(chart.caches[leader]) else None
  }

  ghost predicate WritesBy(sim: Simulation, w: World, leader: int, chart: Chart, chart': Chart) {
    && w.conductor.Gauged?
    && Writes(w.db, sim.consumers.Keys, w.conductor.gauges, w.conductor.pass.now, sim.settings,
              CacheOf(chart, leader), chart.table, CacheOf(chart', leader), chart'.table)
    && forall k :: k != leader ==> CacheOf(chart', k) == CacheOf(chart, k)
  }

  /** At each state of a run nothing is written, or the leader of the day writes from what it finds there. */
  ghost predicate Charted(sim: Simulation, ws: seq<World>, leaders: seq<Option<int>>, charts: seq<Chart>) {
    && |charts| == |ws| == |leaders| + 1
    && charts[0] == Chart(map[], map[])
    && forall i :: 0 <= i < |leaders| ==>
         if leaders[i].None? then charts[i + 1] == charts[i]
         else WritesBy(sim, ws[i], leaders[i].value, charts[i], charts[i + 1])
  }

  // ---- No holes ----

  ghost predicate GapFits(sim: Simulation, w: World, chart: Chart) {
    w.conductor.Gauged? && EndBucket(w.conductor.pass.now, sim.settings) - Top(chart.table) <= sim.settings.maxBackfill
  }

  ghost predicate GapsFit(sim: Simulation, ws: seq<World>, leaders: seq<Option<int>>, charts: seq<Chart>)
    requires |charts| == |ws| == |leaders| + 1
  {
    forall i :: 0 <= i < |leaders| && leaders[i].Some? ==> GapFits(sim, ws[i], charts[i])
  }

  ghost predicate ChartOk(sim: Simulation, chart: Chart) {
    && Top(chart.table) >= -1
    && NoHoles(chart.table, sim.consumers.Keys, Top(chart.table))
    && forall k :: k in chart.caches ==> -1 <= chart.caches[k] <= Top(chart.table)
  }

  lemma WriteKeepsChart(sim: Simulation, w: World, leader: int, chart: Chart, chart': Chart)
    requires ChartOk(sim, chart) && WritesBy(sim, w, leader, chart, chart') && GapFits(sim, w, chart)
    ensures ChartOk(sim, chart')
  {
    hide Fresh, EndBucket, Top;
    var consumers, top, last := sim.consumers.Keys, Top(chart.table), EndBucket(w.conductor.pass.now, sim.settings);
    assert forall k :: k in chart'.caches ==> CacheOf(chart', k) == Some(chart'.caches[k]);
    assert CacheOf(chart, leader).Some? ==> CacheOf(chart, leader).value <= top;
    if consumers != {} && FirstBucket(CacheOf(chart, leader), chart.table) <= last {
      WriteExtendsWhole(w.db, consumers, w.conductor.gauges, w.conductor.pass.now, sim.settings,
        CacheOf(chart, leader), chart.table, CacheOf(chart', leader), chart'.table, top);
      TopOfWhole(chart'.table, consumers, Max(top, last));
    }
  }

  /**
    * However often leadership changes hands, gaps within the bound leave no hole: the written buckets are 0 to the
    * last, for everyone.
    */
  lemma {:induction false} ChartIsWhole(
    sim: Simulation, ws: seq<World>, leaders: seq<Option<int>>, charts: seq<Chart>, n: nat)
    requires Charted(sim, ws, leaders, charts) && GapsFit(sim, ws, leaders, charts) && n < |charts|
    ensures ChartOk(sim, charts[n])
    ensures NoHoles(charts[n].table, sim.consumers.Keys, Top(charts[n].table))
  {
    hide Writes, Top;
    if n == 0 {
      StartsWhole(sim, charts[0]);
    } else {
      ChartIsWhole(sim, ws, leaders, charts, n - 1);
      if leaders[n - 1].Some? {
        WriteKeepsChart(sim, ws[n - 1], leaders[n - 1].value, charts[n - 1], charts[n]);
      }
    }
  }

  lemma StartsWhole(sim: Simulation, chart: Chart)
    requires chart == Chart(map[], map[])
    ensures ChartOk(sim, chart)
  {
  }

  // ---- What a step does to a recount ----

  /** The bucket is past every instant a step could still stamp, other than a claim with the stamp of its lock. */
  ghost predicate BehindHorizon(sim: Simulation, w: World, b: int) {
    b < BucketIndex(Horizon(w), sim.settings.bucketS) && Horizon(w) <= Now(w)
  }

  ghost predicate CompletedPast(d: Delivery, b: int, bucketS: real)
    requires bucketS > 0.0
  {
    d.completedAt.Some? ==> b < BucketIndex(d.completedAt.value, bucketS)
  }

  lemma NowIsPast(sim: Simulation, w: World, b: int)
    requires BehindHorizon(sim, w, b)
    ensures b < BucketIndex(Now(w), sim.settings.bucketS)
  {
    BucketsGrow(Horizon(w), Now(w), sim.settings.bucketS);
  }

  lemma CompleteSettlesLate(sim: Simulation, w: World, a: Action, w': World, b: int, d: DeliveryId)
    requires Inv(sim, w) && a.Complete? && Next(sim, w, a, w') && BehindHorizon(sim, w, b)
    requires d in w'.db.deliveries && (d in w.db.deliveries ==> w.db.deliveries[d].completedAt.None?)
    ensures CompletedPast(w'.db.deliveries[d], b, sim.settings.bucketS)
  {
    NowIsPast(sim, w, b);
    hide BucketIndex;
    if d in DeliveriesOf(a.outcomes) {
      var c :| c in a.outcomes && c.claimed.delivery == d;
    }
  }

  lemma ConductorSettlesLate(sim: Simulation, w: World, a: Action, w': World, b: int, d: DeliveryId)
    requires Inv(sim, w) && (a.Begin? || a.DropCondemned? || a.Admit?) && Next(sim, w, a, w')
        && BehindHorizon(sim, w, b)
    requires d in w'.db.deliveries && (d in w.db.deliveries ==> w.db.deliveries[d].completedAt.None?)
    ensures CompletedPast(w'.db.deliveries[d], b, sim.settings.bucketS)
  {
    NowIsPast(sim, w, b);
    hide BucketIndex;
  }

  lemma OthersSettleNothing(sim: Simulation, w: World, a: Action, w': World, b: int, d: DeliveryId)
    requires Next(sim, w, a, w') && !(a.Commit? || a.Complete? || a.Begin? || a.DropCondemned? || a.Admit?)
    requires d in w'.db.deliveries && (d in w.db.deliveries ==> w.db.deliveries[d].completedAt.None?)
    ensures CompletedPast(w'.db.deliveries[d], b, sim.settings.bucketS)
  {
    hide BucketIndex;
    if d !in w.db.deliveries {
      assert a.Ingest?;
      assert FansOut(w.db, w'.db, sim.subscriptions, w'.db.deliveries[d].event, d, w'.db.deliveries[d].consumer);
    }
  }

  lemma NewlySettledLate(sim: Simulation, w: World, a: Action, w': World, b: int, d: DeliveryId)
    requires Inv(sim, w) && !a.Commit? && Next(sim, w, a, w') && BehindHorizon(sim, w, b)
    requires d in w'.db.deliveries && (d in w.db.deliveries ==> w.db.deliveries[d].completedAt.None?)
    ensures CompletedPast(w'.db.deliveries[d], b, sim.settings.bucketS)
  {
    hide *;
    if a.Complete? {
      CompleteSettlesLate(sim, w, a, w', b, d);
    } else if a.Begin? || a.DropCondemned? || a.Admit? {
      ConductorSettlesLate(sim, w, a, w', b, d);
    } else {
      OthersSettleNothing(sim, w, a, w', b, d);
    }
  }

  lemma NothingStarts(sim: Simulation, w: World, a: Action, w': World)
    requires Inv(sim, w) && !a.Commit? && Next(sim, w, a, w')
    ensures SameAttempts(w.db, w'.db)
  {
    hide Inv;
    if a.Complete? {
      CompleteStep(sim, w, a, w');
    } else if a.Begin? {
      ReclaimStep(sim, w, a, w');
    } else {
      SameAttemptRows(sim, w, a, w');
    }
  }

  lemma SameAttemptRows(sim: Simulation, w: World, a: Action, w': World)
    requires Next(sim, w, a, w') && !(a.Commit? || a.Complete? || a.Begin?)
    ensures w'.db.attempts == w.db.attempts
  {
  }

  lemma SettledRowKept(sim: Simulation, w: World, a: Action, w': World, b: int, d: DeliveryId)
    requires Inv(sim, w) && !a.Commit? && Next(sim, w, a, w') && BehindHorizon(sim, w, b)
    ensures d in w.db.deliveries ==> d in w'.db.deliveries
    ensures d in w.db.deliveries && w.db.deliveries[d].completedAt.Some? ==> w'.db.deliveries[d] == w.db.deliveries[d]
    ensures d in w'.db.deliveries && (d in w.db.deliveries ==> w.db.deliveries[d].completedAt.None?) ==>
              CompletedPast(w'.db.deliveries[d], b, sim.settings.bucketS)
  {
    NextMoves(sim, w, a, w');
    hide Next;
    assert d in w.db.deliveries ==> RowOk(w.db, sim.settings, d);
    if d in w'.db.deliveries && (d in w.db.deliveries ==> w.db.deliveries[d].completedAt.None?) {
      NewlySettledLate(sim, w, a, w', b, d);
    }
  }

  lemma SettledKept(sim: Simulation, w: World, a: Action, w': World, slot: Slot, state: DeliveryState)
    requires Inv(sim, w) && !a.Commit? && Next(sim, w, a, w') && BehindHorizon(sim, w, slot.bucket)
    ensures SettledRows(w'.db, slot, state, sim.settings.bucketS) ==
        SettledRows(w.db, slot, state, sim.settings.bucketS)
  {
    hide BucketIndex, Next, Inv, BehindHorizon;
    var was := SettledRows(w.db, slot, state, sim.settings.bucketS);
    var now := SettledRows(w'.db, slot, state, sim.settings.bucketS);
    forall d
      ensures d in now <==> d in was
    {
      SettledRowKept(sim, w, a, w', slot.bucket, d);
    }
  }

  /** Short of a claim, no step changes a recount of a bucket behind the horizon. */
  lemma RecountKept(sim: Simulation, w: World, a: Action, w': World, slot: Slot)
    requires Inv(sim, w) && !a.Commit? && Next(sim, w, a, w') && BehindHorizon(sim, w, slot.bucket)
    ensures Recount(w'.db, slot, sim.settings.bucketS) == Recount(w.db, slot, sim.settings.bucketS)
  {
    hide BucketIndex, Next, Inv, BehindHorizon;
    var bucketS := sim.settings.bucketS;
    NothingStarts(sim, w, a, w');
    assert forall x :: x in Started(w'.db, slot, bucketS) <==> x in Started(w.db, slot, bucketS);
    assert Started(w'.db, slot, bucketS) == Started(w.db, slot, bucketS);
    forall state: DeliveryState | state.Terminal()
      ensures SettledRows(w'.db, slot, state, bucketS) == SettledRows(w.db, slot, state, bucketS)
    {
      SettledKept(sim, w, a, w', slot, state);
    }
  }

  // ---- What a claim does to a recount ----

  /** The rows of the slot's consumer that a claim stamped in its bucket holds locked. */
  ghost function Landing(sim: Simulation, w: World, a: Action, slot: Slot): set<DeliveryId> {
    if && a.Commit? && WorkerOf(w, a.worker).Claiming?
       && BucketIndex(WorkerOf(w, a.worker).stamp, sim.settings.bucketS) == slot.bucket
    then
      set d | d in WorkerOf(w, a.worker).rows && d in w.db.deliveries && w.db.deliveries[d].consumer == slot.consumer
    else {}
  }

  lemma ClaimStarts(sim: Simulation, w: World, a: Action, w': World, slot: Slot)
    requires a.Commit? && Next(sim, w, a, w')
    ensures |Started(w'.db, slot, sim.settings.bucketS)|
         == |Started(w.db, slot, sim.settings.bucketS)| + |Landing(sim, w, a, slot) * a.ids.Keys|
  {
    hide BucketIndex, RowIsStale;
    var bucketS := sim.settings.bucketS;
    var mine := Landing(sim, w, a, slot) * a.ids.Keys;
    var added := Image(mine, a.ids);
    forall x
      ensures x in Started(w'.db, slot, bucketS) <==> x in Started(w.db, slot, bucketS) || x in added
      ensures x in Started(w.db, slot, bucketS) ==> x !in added
    {
      if x in w'.db.attempts && x !in w.db.attempts {
        assert Names(a.ids, x);
        var d :| d in a.ids && a.ids[d] == x;
        assert d in mine <==> x in Started(w'.db, slot, bucketS);
      }
      if x in added {
        var d :| d in mine && a.ids[d] == x;
        assert d in a.ids;
      }
    }
    TwoParts(Started(w.db, slot, bucketS), added, Started(w'.db, slot, bucketS));
    ImageSize(mine, a.ids);
  }

  lemma LockedAreUnsettled(sim: Simulation, w: World, a: Action, d: DeliveryId)
    requires Inv(sim, w) && a.Commit? && WorkerOf(w, a.worker).Claiming? && d in WorkerOf(w, a.worker).rows
    ensures d in w.db.deliveries && w.db.deliveries[d].completedAt.None? && w.db.deliveries[d].state == Ready
  {
    assert WorkerOk(w, a.worker);
    assert ReadyAt(w.db, d) && RowOk(w.db, sim.settings, d);
  }

  lemma ClaimSettles(sim: Simulation, w: World, a: Action, w': World, slot: Slot, state: DeliveryState)
    requires Inv(sim, w) && a.Commit? && Next(sim, w, a, w') && state.Terminal()
    ensures |SettledRows(w'.db, slot, state, sim.settings.bucketS)|
         == |SettledRows(w.db, slot, state, sim.settings.bucketS)|
            + if state == Expired then |Landing(sim, w, a, slot) - a.ids.Keys| else 0
  {
    hide BucketIndex, RowIsStale, Sound, WorkersOk, ConductorOk;
    var bucketS := sim.settings.bucketS;
    var added: set<DeliveryId> := if state == Expired then Landing(sim, w, a, slot) - a.ids.Keys else {};
    var was, now := SettledRows(w.db, slot, state, bucketS), SettledRows(w'.db, slot, state, bucketS);
    forall d
      ensures d in now <==> d in was || d in added
      ensures d in was ==> d !in added
    {
      if d in WorkerOf(w, a.worker).rows { LockedAreUnsettled(sim, w, a, d); }
    }
    TwoParts(was, added, now);
  }

  /**
    * What a claim adds to a bucket, exactly: an attempt for each live row it stamped there, an expiry for each stale
    * one.
    */
  lemma CommitAdds(sim: Simulation, w: World, a: Action, w': World, slot: Slot)
    requires Inv(sim, w) && a.Commit? && Next(sim, w, a, w')
    ensures var was, now := Recount(w.db, slot, sim.settings.bucketS), Recount(w'.db, slot, sim.settings.bucketS);
            var landing := Landing(sim, w, a, slot);
            && now == was.(attempts := was.attempts + |landing * a.ids.Keys|,
                expired := was.expired + |landing - a.ids.Keys|)
            && now.attempts + now.expired == was.attempts + was.expired + |landing|
  {
    hide Next, Inv, Landing, Started, SettledRows;
    ClaimStarts(sim, w, a, w', slot);
    ClaimSettles(sim, w, a, w', slot, Delivered);
    ClaimSettles(sim, w, a, w', slot, Expired);
    ClaimSettles(sim, w, a, w', slot, Superseded);
    ClaimSettles(sim, w, a, w', slot, Failed);
    var landing := Landing(sim, w, a, slot);
    assert landing == landing * a.ids.Keys + (landing - a.ids.Keys);
  }

  // ---- Counters against recounts, over runs ----

  ghost predicate LagsAt(sim: Simulation, w: World, slot: Slot) {
    slot.bucket + COMPLETE_BUCKET_LAG <= BucketIndex(Horizon(w), sim.settings.bucketS)
  }

  ghost function CountsOf(c: Counters): int { c.attempts + c.expired }

  /** A step changes the recount of a bucket behind the horizon if and only if it is a claim landing there. */
  lemma StepRecounts(sim: Simulation, w: World, a: Action, w': World, slot: Slot)
    requires Inv(sim, w) && Next(sim, w, a, w') && LagsAt(sim, w, slot)
    ensures var was, now := Recount(w.db, slot, sim.settings.bucketS), Recount(w'.db, slot, sim.settings.bucketS);
            (now == was <==> Landing(sim, w, a, slot) == {}) && CountsOf(was) <= CountsOf(now)
            && (now != was ==> CountsOf(was) < CountsOf(now))
  {
    hide Next, Inv, Recount, BucketIndex;
    HorizonIsPast(sim, w);
    if a.Commit? {
      CommitAdds(sim, w, a, w', slot);
    } else {
      RecountKept(sim, w, a, w', slot);
    }
  }

  lemma LagsLater(sim: Simulation, ws: seq<World>, acts: seq<Action>, m: nat, n: nat, slot: Slot)
    requires Run(sim, ws, acts) && Initial(ws[0]) && m <= n <= |acts| && LagsAt(sim, ws[m], slot)
    ensures LagsAt(sim, ws[n], slot)
  {
    hide Next, Initial, BucketIndex, Horizon;
    HorizonNeverFalls(sim, ws, acts, m, n);
    BucketsGrow(Horizon(ws[m]), Horizon(ws[n]), sim.settings.bucketS);
  }

  /** No claim lands on the slot from state m up to state n. */
  ghost predicate NoneLand(sim: Simulation, ws: seq<World>, acts: seq<Action>, m: nat, n: nat, slot: Slot)
    requires n <= |acts| < |ws|
  {
    forall i {:trigger Landing(sim, ws[i], acts[i], slot)} :: m <= i < n ==> Landing(sim, ws[i], acts[i], slot) == {}
  }

  lemma {:induction false} RecountSince(sim: Simulation, ws: seq<World>, acts: seq<Action>, m: nat, n: nat, slot: Slot)
    requires Run(sim, ws, acts) && Initial(ws[0]) && m <= n <= |acts| && LagsAt(sim, ws[m], slot)
    ensures CountsOf(Recount(ws[m].db, slot, sim.settings.bucketS)) <=
        CountsOf(Recount(ws[n].db, slot, sim.settings.bucketS))
    ensures Recount(ws[n].db, slot, sim.settings.bucketS) == Recount(ws[m].db, slot, sim.settings.bucketS)
       <==> NoneLand(sim, ws, acts, m, n, slot)
    decreases n
  {
    hide Next, Inv, Initial, Recount, Landing, LagsAt;
    if m < n {
      RecountSince(sim, ws, acts, m, n - 1, slot);
      LagsLater(sim, ws, acts, m, n - 1, slot);
      RunKeepsInv(sim, ws, acts, n - 1);
      StepRecounts(sim, ws[n - 1], acts[n - 1], ws[n], slot);
      assert NoneLand(sim, ws, acts, m, n, slot)
        <==> NoneLand(sim, ws, acts, m, n - 1, slot) && Landing(sim, ws[n - 1], acts[n - 1], slot) == {};
    }
  }

  /** The slots the leader counts afresh at a state, if it writes there. */
  ghost function CountedBy(sim: Simulation, w: World, leader: Option<int>, chart: Chart): set<Slot> {
    if leader.None? || !w.conductor.Gauged? then {}
    else Rewritten(sim.consumers.Keys, w.conductor.pass.now, sim.settings, CacheOf(chart, leader.value), chart.table)
  }

  ghost function Stamped(slots: set<Slot>, m: nat): map<Slot, nat> { map slot | slot in slots :: m }

  /** The state each slot of the chart was last counted at. */
  ghost function CountedAt(
    sim: Simulation, ws: seq<World>, leaders: seq<Option<int>>, charts: seq<Chart>, n: nat): map<Slot, nat>
    requires n < |ws| && |leaders| + 1 == |ws| == |charts|
  {
    if n == 0 then map[]
    else
      CountedAt(sim, ws, leaders, charts, n - 1)
      + Stamped(CountedBy(sim, ws[n - 1], leaders[n - 1], charts[n - 1]), n - 1)
  }

  ghost predicate CountedWhen(sim: Simulation, ws: seq<World>, chart: Chart, at: map<Slot, nat>, n: nat, slot: Slot)
    requires slot in chart.table
  {
    && slot in at && at[slot] < n && n <= |ws|
    && chart.table[slot].counters == Recount(ws[at[slot]].db, slot, sim.settings.bucketS)
    && LagsAt(sim, ws[at[slot]], slot)
  }

  ghost predicate AllCounted(sim: Simulation, ws: seq<World>, chart: Chart, at: map<Slot, nat>, n: nat) {
    && at.Keys == chart.table.Keys
    && forall slot {:trigger CountedWhen(sim, ws, chart, at, n, slot)} :: slot in chart.table ==>
        CountedWhen(sim, ws, chart, at, n, slot)
  }

  /** Every counter in the chart is a recount as of the state it was written at, whoever wrote it. */
  lemma {:induction false} EveryCounterIsARecount(
    sim: Simulation, ws: seq<World>, leaders: seq<Option<int>>, charts: seq<Chart>, n: nat)
    requires Charted(sim, ws, leaders, charts) && n < |ws|
    ensures AllCounted(sim, ws, charts[n], CountedAt(sim, ws, leaders, charts, n), n)
  {
    hide AllCounted, CountedBy, WritesBy;
    if n == 0 {
      NothingCounted(sim, ws, charts[0]);
    } else {
      EveryCounterIsARecount(sim, ws, leaders, charts, n - 1);
      var before := CountedAt(sim, ws, leaders, charts, n - 1);
      if leaders[n - 1].Some? {
        WriteCounts(sim, ws, leaders[n - 1].value, charts[n - 1], charts[n], before, n);
      } else {
        NoLeaderNoCount(sim, ws[n - 1], leaders[n - 1], charts[n - 1], before, n - 1);
        CountsStay(sim, ws, charts[n], before, n);
      }
    }
  }

  lemma NothingCounted(sim: Simulation, ws: seq<World>, chart: Chart)
    requires chart.table == map[]
    ensures AllCounted(sim, ws, chart, map[], 0)
  {
  }

  lemma NoLeaderNoCount(sim: Simulation, w: World, leader: Option<int>, chart: Chart, before: map<Slot, nat>, m: nat)
    requires leader.None?
    ensures before + Stamped(CountedBy(sim, w, leader, chart), m) == before
  {
  }

  lemma CountsStay(sim: Simulation, ws: seq<World>, chart: Chart, at: map<Slot, nat>, n: nat)
    requires 0 < n <= |ws| && AllCounted(sim, ws, chart, at, n - 1)
    ensures AllCounted(sim, ws, chart, at, n)
  {
    hide Recount, LagsAt;
    forall slot | slot in chart.table
      ensures CountedWhen(sim, ws, chart, at, n, slot)
    {
      assert CountedWhen(sim, ws, chart, at, n - 1, slot);
    }
  }

  lemma WriteCounts(sim: Simulation, ws: seq<World>, leader: int, chart: Chart, chart': Chart,
      before: map<Slot, nat>, n: nat)
    requires 0 < n <= |ws| && WritesBy(sim, ws[n - 1], leader, chart, chart')
        && AllCounted(sim, ws, chart, before, n - 1)
    ensures AllCounted(sim, ws, chart', before + Stamped(CountedBy(sim, ws[n - 1], Some(leader), chart), n - 1), n)
  {
    hide Recount, Rewritten, Writes, Top, BucketIndex, LagsAt;
    var w := ws[n - 1];
    var now := w.conductor.pass.now;
    WritesAfresh(w.db, sim.consumers.Keys, w.conductor.gauges, now, sim.settings,
                 CacheOf(chart, leader), chart.table, CacheOf(chart', leader), chart'.table);
    var again := CountedBy(sim, w, Some(leader), chart);
    var at := before + Stamped(again, n - 1);
    forall slot | slot in chart'.table
      ensures CountedWhen(sim, ws, chart', at, n, slot)
    {
      if slot in again {
        AfreshLags(sim, w, slot);
      } else {
        assert CountedWhen(sim, ws, chart, before, n - 1, slot);
      }
    }
  }

  /** A slot just counted is two buckets behind the pass that counted it. */
  lemma AfreshLags(sim: Simulation, w: World, slot: Slot)
    requires w.conductor.Gauged? && slot.bucket <= EndBucket(w.conductor.pass.now, sim.settings)
    ensures LagsAt(sim, w, slot)
  {
    hide BucketIndex;
  }

  /** A counter is the recount of its bucket, now, if and only if no claim has landed there since it was written. */
  lemma CounterIsExactIff(
    sim: Simulation, ws: seq<World>, acts: seq<Action>, leaders: seq<Option<int>>, charts: seq<Chart>, n: nat,
    slot: Slot)
    requires Run(sim, ws, acts) && Initial(ws[0]) && Charted(sim, ws, leaders, charts)
    requires n <= |acts| && slot in charts[n].table
    ensures slot in CountedAt(sim, ws, leaders, charts, n) && CountedAt(sim, ws, leaders, charts, n)[slot] < n
    ensures charts[n].table[slot].counters == Recount(ws[n].db, slot, sim.settings.bucketS)
       <==> NoneLand(sim, ws, acts, CountedAt(sim, ws, leaders, charts, n)[slot], n, slot)
  {
    hide Next, Initial, Recount, Landing, LagsAt, WritesBy, CountedAt, NoneLand;
    EveryCounterIsARecount(sim, ws, leaders, charts, n);
    var at := CountedAt(sim, ws, leaders, charts, n);
    assert CountedWhen(sim, ws, charts[n], at, n, slot);
    RecountSince(sim, ws, acts, at[slot], n, slot);
  }

  ghost predicate ExactAt(sim: Simulation, w: World, chart: Chart, slot: Slot)
    requires slot in chart.table
  {
    chart.table[slot].counters == Recount(w.db, slot, sim.settings.bucketS)
  }

  ghost predicate Exact(sim: Simulation, w: World, chart: Chart) {
    forall slot {:trigger ExactAt(sim, w, chart, slot)} :: slot in chart.table ==> ExactAt(sim, w, chart, slot)
  }

  /** No claim lands on a slot already written: what a late one would do. */
  ghost predicate NoneLate(sim: Simulation, ws: seq<World>, acts: seq<Action>, charts: seq<Chart>, n: nat)
    requires n <= |acts| && |acts| + 1 == |ws| == |charts|
  {
    forall i, slot {:trigger Landing(sim, ws[i], acts[i], slot)} ::
      0 <= i < n && slot in charts[i + 1].table ==> Landing(sim, ws[i], acts[i], slot) == {}
  }

  lemma {:induction false} SlotsStay(
    sim: Simulation, ws: seq<World>, leaders: seq<Option<int>>, charts: seq<Chart>, m: nat, n: nat)
    requires Charted(sim, ws, leaders, charts) && m <= n < |ws|
    ensures charts[m].table.Keys <= charts[n].table.Keys
    decreases n
  {
    if m < n {
      SlotsStay(sim, ws, leaders, charts, m, n - 1);
      if leaders[n - 1].Some? { WriteGrows(sim, ws[n - 1], leaders[n - 1].value, charts[n - 1], charts[n]); }
    }
  }

  lemma WriteGrows(sim: Simulation, w: World, leader: int, chart: Chart, chart': Chart)
    requires WritesBy(sim, w, leader, chart, chart')
    ensures chart.table.Keys <= chart'.table.Keys
  {
    hide EndBucket, Top;
  }

  ghost predicate WrittenBy(charts: seq<Chart>, slot: Slot, i: nat)
    requires i + 1 < |charts|
  {
    slot in charts[i + 1].table
  }

  lemma SlotIsWritten(
    sim: Simulation, ws: seq<World>, leaders: seq<Option<int>>, charts: seq<Chart>, n: nat, slot: Slot)
    requires Charted(sim, ws, leaders, charts) && n < |ws| && slot in charts[n].table
    ensures slot in CountedAt(sim, ws, leaders, charts, n)
    ensures forall i :: CountedAt(sim, ws, leaders, charts, n)[slot] <= i < n ==> WrittenBy(charts, slot, i)
  {
    hide CountedBy, WritesBy, AllCounted;
    EveryCounterIsARecount(sim, ws, leaders, charts, n);
    SlotIsCounted(sim, ws, charts[n], CountedAt(sim, ws, leaders, charts, n), n, slot);
    if n > 0 {
      EveryCounterIsARecount(sim, ws, leaders, charts, n - 1);
      SlotIsCounted(sim, ws, charts[n - 1], CountedAt(sim, ws, leaders, charts, n - 1), n - 1, slot);
      assert WrittenBy(charts, slot, n - 1);
      if slot in charts[n - 1].table { SlotIsWritten(sim, ws, leaders, charts, n - 1, slot); }
    }
  }

  lemma SlotIsCounted(sim: Simulation, ws: seq<World>, chart: Chart, at: map<Slot, nat>, n: nat, slot: Slot)
    requires AllCounted(sim, ws, chart, at, n)
    ensures slot in at <==> slot in chart.table
    ensures slot in at ==> at[slot] < n
  {
    hide CountedWhen;
    if slot in chart.table { CountedBefore(sim, ws, chart, at, n, slot); }
  }

  lemma CountedBefore(sim: Simulation, ws: seq<World>, chart: Chart, at: map<Slot, nat>, n: nat, slot: Slot)
    requires AllCounted(sim, ws, chart, at, n) && slot in chart.table
    ensures slot in at && at[slot] < n
  {
    hide Recount, LagsAt;
    assert CountedWhen(sim, ws, chart, at, n, slot);
  }

  lemma LateMakesInexact(
    sim: Simulation, ws: seq<World>, acts: seq<Action>, leaders: seq<Option<int>>, charts: seq<Chart>, i: nat,
    slot: Slot)
    requires Run(sim, ws, acts) && Initial(ws[0]) && Charted(sim, ws, leaders, charts)
    requires i < |acts| && slot in charts[i + 1].table && Landing(sim, ws[i], acts[i], slot) != {}
    ensures !ExactAt(sim, ws[i + 1], charts[i + 1], slot)
  {
    hide Next, Initial, Recount, Landing, WritesBy, CountedAt;
    CounterIsExactIff(sim, ws, acts, leaders, charts, i + 1, slot);
  }

  /**
    * Every counter equals its recount at every state up to n if and only if no claim up to then lands on a slot
    * already written.
    */
  lemma ChartIsExactIff(
    sim: Simulation, ws: seq<World>, acts: seq<Action>, leaders: seq<Option<int>>, charts: seq<Chart>, n: nat)
    requires Run(sim, ws, acts) && Initial(ws[0]) && Charted(sim, ws, leaders, charts) && n <= |acts|
    ensures (forall k :: 0 <= k <= n ==> Exact(sim, ws[k], charts[k])) <==> NoneLate(sim, ws, acts, charts, n)
  {
    hide Next, Initial, Recount, Landing, WritesBy, CountedAt;
    if NoneLate(sim, ws, acts, charts, n) {
      forall k, slot | 0 <= k <= n && slot in charts[k].table
        ensures ExactAt(sim, ws[k], charts[k], slot)
      {
        SlotIsWritten(sim, ws, leaders, charts, k, slot);
        CounterIsExactIff(sim, ws, acts, leaders, charts, k, slot);
        var at := CountedAt(sim, ws, leaders, charts, k);
        forall i | at[slot] <= i < k
          ensures Landing(sim, ws[i], acts[i], slot) == {}
        {
          assert WrittenBy(charts, slot, i);
        }
      }
    }
    if forall k :: 0 <= k <= n ==> Exact(sim, ws[k], charts[k]) {
      forall i, slot | 0 <= i < n && slot in charts[i + 1].table
        ensures Landing(sim, ws[i], acts[i], slot) == {}
      {
        assert Exact(sim, ws[i + 1], charts[i + 1]);
        assert ExactAt(sim, ws[i + 1], charts[i + 1], slot);
        if Landing(sim, ws[i], acts[i], slot) != {} { LateMakesInexact(sim, ws, acts, leaders, charts, i, slot); }
      }
    }
  }

  ghost predicate PromptAt(sim: Simulation, w: World, a: Action) {
    a.Commit? && WorkerOf(w, a.worker).Claiming? ==>
      BucketIndex(Horizon(w), sim.settings.bucketS) <=
          BucketIndex(WorkerOf(w, a.worker).stamp, sim.settings.bucketS) + 1
  }

  /** Commits are prompt: a claim lands no later than the bucket after the one it is stamped in. */
  ghost predicate Prompt(sim: Simulation, ws: seq<World>, acts: seq<Action>)
    requires |ws| == |acts| + 1
  {
    forall i :: 0 <= i < |acts| ==> PromptAt(sim, ws[i], acts[i])
  }

  /** What the lag of two buckets is for: prompt commits are never late. */
  lemma PromptIsNeverLate(
    sim: Simulation, ws: seq<World>, acts: seq<Action>, leaders: seq<Option<int>>, charts: seq<Chart>, n: nat)
    requires Run(sim, ws, acts) && Initial(ws[0]) && Charted(sim, ws, leaders, charts) && n <= |acts|
        && Prompt(sim, ws, acts)
    ensures NoneLate(sim, ws, acts, charts, n)
  {
    hide Next, Initial, Recount, WritesBy, CountedAt, BucketIndex, Horizon;
    forall i, slot | 0 <= i < n && slot in charts[i + 1].table
      ensures Landing(sim, ws[i], acts[i], slot) == {}
    {
      EveryCounterIsARecount(sim, ws, leaders, charts, i + 1);
      var at := CountedAt(sim, ws, leaders, charts, i + 1);
      assert CountedWhen(sim, ws, charts[i + 1], at, i + 1, slot);
      LagsLater(sim, ws, acts, at[slot], i, slot);
      assert PromptAt(sim, ws[i], acts[i]);
    }
  }

  /**
    * Failover is invisible: with prompt commits and any succession of leaders every counter equals its recount at
    * every state.
    */
  lemma CountersStayExact(
    sim: Simulation, ws: seq<World>, acts: seq<Action>, leaders: seq<Option<int>>, charts: seq<Chart>, n: nat)
    requires Run(sim, ws, acts) && Initial(ws[0]) && Prompt(sim, ws, acts)
    requires Charted(sim, ws, leaders, charts) && n <= |acts|
    ensures Exact(sim, ws[n], charts[n])
  {
    hide Next, Initial, WritesBy, PromptAt, NoneLate, Exact;
    PromptIsNeverLate(sim, ws, acts, leaders, charts, n);
    ChartIsExactIff(sim, ws, acts, leaders, charts, n);
  }
}
