/**
 * Two runs in which a commit lands just too late: a batch ticked before the script's end and committed after a pass has
 * read an empty backlog, and a claim committed after its bucket has been charted.
 */
module Races {
  import opened Model
  import opened Sets
  import opened Lifecycle
  import opened Policies
  import opened Admission
  import opened Machine
  import opened Metrics
  import opened Charts
  import opened Retirement
  import opened Service
  import opened Overshoot

  /** The clock at speed one, at a wall time. */
  function When(db: Tables, workers: map<WorkerId, WorkerState>, c: Machine.Conductor, wall: real): World {
    World(db, workers, c, Clock.Start(1.0, 0.0), wall)
  }

  lemma TickTo(w: World, wall: real)
    requires w.wall <= wall
    ensures Next(SIM, w, Tick(wall), w.(wall := wall))
  {
  }

  lemma BeginNow(w: World)
    requires w.conductor.Away? && w.clock.status == Clock.Running
    ensures Next(SIM, w, Begin(true, None, {}), w.(conductor := Swept(Pass(Now(w), true, None))))
  {
    NothingSwept(w.db, Now(w));
    hide Reclaims;
    BeginHere(SIM, w, w.(conductor := Swept(Pass(Now(w), true, None))), true, None, {});
  }

  lemma NothingSwept(db: Tables, now: Time)
    ensures Reclaims(db, db, {}, now, SETTINGS)
  {
  }

  // ---- A straggling batch ----

  const LAST_PASS := Pass(900.0, true, None)

  lemma NothingToDo()
    ensures GaugesOf(EMPTY, {1}) == map[1 := Gauge(0, 0, 0)] && Backlog(map[1 := Gauge(0, 0, 0)]) == 0
    ensures SIM.consumers.Keys == {1}
  {
    assert InState(EMPTY, Only(1), Pending) == {} && InState(EMPTY, Only(1), Ready) == {}
        && InState(EMPTY, Only(1), InFlight) == {};
    var g: map<ConsumerId, Gauge> := map[1 := Gauge(0, 0, 0)];
    var sums: map<ConsumerId, int> := map c | c in g :: g[c].pending + g[c].ready + g[c].inFlight;
    TotalZero(g.Keys, sums);
  }

  lemma IngestLate(w: World)
    requires w.db == EMPTY
    ensures Next(SIM, w, Ingest(899.9), w.(db := INGESTED))
  {
    Ingested();
    hide Ingests;
  }

  lemma FinishEmpty(w: World)
    requires w.conductor == Gauged(LAST_PASS, map[1 := Gauge(0, 0, 0)])
    ensures Next(SIM, w, Finish, w.(conductor := Away, clock := Clock.Retire(w.clock, 900.0)))
  {
    NothingToDo();
    hide Backlog;
    FinishHere(SIM, w);
  }

  /** Every batch was ticked before the script's end, and the run is retired with two deliveries still pending. */
  lemma RetiredWithWork() returns (ws: seq<World>, acts: seq<Action>)
    ensures Run(SIM, ws, acts) && Initial(ws[0]) && |acts| == 5
    ensures forall i :: 0 <= i < |acts| && acts[i].Ingest? ==> IsProducing(acts[i].tick)
    ensures acts[4].Finish? && ws[4].conductor.Gauged? && ws[4].conductor.pass.now < SCENARIO_MAX_VIRTUAL_S
    ensures !Drained(ws[4].db) && !Drained(ws[5].db) && ws[5].clock.status == Clock.Done
  {
    hide Next, Drained, Backlog, GaugesOf;
    NothingToDo();
    var w0, w1 := When(EMPTY, map[], Away, 0.0), When(EMPTY, map[], Away, 900.0);
    var w2 := When(EMPTY, map[], Swept(LAST_PASS), 900.0);
    var w3 := When(EMPTY, map[], Gauged(LAST_PASS, map[1 := Gauge(0, 0, 0)]), 900.0);
    var w4 := w3.(db := INGESTED);
    var w5 := w4.(conductor := Away, clock := Clock.Retire(w4.clock, 900.0));
    TickTo(w0, 900.0);
    BeginNow(w1);
    ReadTheGauges(SIM, w2);
    IngestLate(w3);
    FinishEmpty(w4);
    ws := [w0, w1, w2, w3, w4, w5];
    acts := [Tick(900.0), Begin(true, None, {}), ReadGauges, Ingest(899.9), Finish];
    StillPending();
  }

  lemma StillPending()
    ensures !Drained(INGESTED)
  {
    assert INGESTED.deliveries[1].state == Pending;
  }

  // ---- A late claim ----

  const LATER_PASS := Pass(2.0, true, None)

  const LATE_SLOT := Slot(1, 0)

  function Untouched(): Chart { Chart(map[], map[]) }

  ghost function WrittenChart(g: map<ConsumerId, Gauge>): Chart {
    Chart(map[LATE_SLOT := Counted(BUFFERED, g, LATE_SLOT, 1.0)], map[0 := 0])
  }

  lemma FirstWrite(w: World)
    requires w.db == BUFFERED && w.conductor.Gauged? && w.conductor.pass == LATER_PASS
    ensures WritesBy(SIM, w, 0, Untouched(), WrittenChart(w.conductor.gauges))
  {
    var g := w.conductor.gauges;
    assert SIM.consumers.Keys == {1};
    assert BucketIndex(2.0, 1.0) == 2;
    assert FirstBucket(None, map[]) == 0;
    assert forall slot :: slot in Cross({1}, 0, 0) <==> slot == LATE_SLOT;
    assert Fresh(BUFFERED, {1}, g, 0, 0, 1.0) == map[LATE_SLOT := Counted(BUFFERED, g, LATE_SLOT, 1.0)];
    assert CacheOf(WrittenChart(g), 0) == Some(0);
    hide Counted;
  }

  lemma CountedTooSoon(g: map<ConsumerId, Gauge>)
    ensures Counted(BUFFERED, g, LATE_SLOT, 1.0).counters.attempts == 0
    ensures Recount(CLAIMED, LATE_SLOT, 1.0).attempts == 1
  {
    assert Started(BUFFERED, LATE_SLOT, 1.0) == {};
    assert BucketIndex(0.0, 1.0) == 0;
    assert forall a :: a in Started(CLAIMED, LATE_SLOT, 1.0) <==> a in {1};
    assert Started(CLAIMED, LATE_SLOT, 1.0) == {1};
  }

  lemma CommitLate(w: World)
    requires w.db == BUFFERED && w.workers == map[7 := Claiming(0.0, {1})]
    ensures Next(SIM, w, Commit(7, map[1 := 1]), w.(db := CLAIMED, workers := map[7 := Holding({Claimed(1, 1, 1)})]))
  {
    Taken();
    hide Claims, BatchFrom;
    assert 1 in map[1 := 1];
    CommitHere(SIM, w, 7, map[1 := 1], w.(db := CLAIMED, workers := map[7 := Holding({Claimed(1, 1, 1)})]));
  }

  /**
    * The claim is stamped in bucket 0, the bucket is charted in bucket 2, and then the claim commits: an attempt no
    * row ever counts.
    */
  lemma LateClaimIsLost() returns (ws: seq<World>, acts: seq<Action>, leaders: seq<Option<int>>, charts: seq<Chart>)
    ensures Run(SIM, ws, acts) && Initial(ws[0]) && Charted(SIM, ws, leaders, charts)
    ensures LATE_SLOT in charts[|acts|].table
    ensures charts[|acts|].table[LATE_SLOT].counters.attempts == 0
    ensures Recount(ws[|acts|].db, LATE_SLOT, SIM.settings.bucketS).attempts == 1
  {
    hide Next, Run, WritesBy, Recount, Counted, GaugesOf, Claims;
    ws, acts := LockedAtZero();
    var from := ws[0];
    var locked := When(BUFFERED, map[7 := Claiming(0.0, {1})], Away, 0.0);
    var w1 := locked.(wall := 2.0);
    var w2 := w1.(conductor := Swept(LATER_PASS));
    var g := GaugesOf(BUFFERED, SIM.consumers.Keys);
    var w3 := w1.(conductor := Gauged(LATER_PASS, g));
    var w4 := w3.(db := CLAIMED, workers := map[7 := Holding({Claimed(1, 1, 1)})]);
    TickTo(locked, 2.0);
    BeginNow(w1);
    ReadTheGauges(SIM, w2);
    CommitLate(w3);
    Then(SIM, ws, acts, from, locked, Tick(2.0), w1);
    Then(SIM, ws + [w1], acts + [Tick(2.0)], from, w1, Begin(true, None, {}), w2);
    ws, acts := ws + [w1] + [w2], acts + [Tick(2.0)] + [Begin(true, None, {})];
    Then(SIM, ws, acts, from, w2, ReadGauges, w3);
    ws, acts := ws + [w3], acts + [ReadGauges];
    var n := |acts|;
    EndsAt(ws, acts, from, w3);
    TraceLength(ws, acts, from, w3);
    Then(SIM, ws, acts, from, w3, Commit(7, map[1 := 1]), w4);
    leaders := seq(n, i => None) + [Some(0)];
    charts := seq(n + 1, i => Untouched()) + [WrittenChart(g)];
    FirstWrite(w3);
    ws, acts := ws + [w4], acts + [Commit(7, map[1 := 1])];
    EndsAt(ws, acts, from, w4);
    TraceLength(ws, acts, from, w4);
    CountedTooSoon(g);
  }

  lemma TraceLength(ws: seq<World>, acts: seq<Action>, from: World, to: World)
    requires Traces(SIM, ws, acts, from, to)
    ensures |ws| == |acts| + 1
  {
    hide Next;
  }

  /** Up to a lock taken at time zero on the one row the first pass made ready. */
  lemma LockedAtZero() returns (ws: seq<World>, acts: seq<Action>)
    ensures |ws| > 0 && Initial(ws[0])
    ensures Traces(SIM, ws, acts, ws[0], When(BUFFERED, map[7 := Claiming(0.0, {1})], Away, 0.0))
  {
    hide Run, EmptyBuffer, LooksOpen, MarksReady, Ingests, Next, GaugesOf;
    Ingested();
    Buffered();
    var from := At(EMPTY, map[], Away);
    Stay(SIM, from);
    IngestHere(from);
    Then(SIM, [from], [], from, from, Ingest(0.0), At(INGESTED, map[], Away));
    ws, acts := StartPass([from] + [At(INGESTED, map[], Away)], [] + [Ingest(0.0)], from, INGESTED, map[]);
    ws, acts := PassAdmitsFirst(ws, acts, from, INGESTED, map[], GaugesOf(INGESTED, {1}),
                                [CandidateOf(1, FIRST), CandidateOf(2, SECOND)], {1, 2}, BUFFERED);
    var locking := At(BUFFERED, map[7 := Claiming(0.0, {1})], Away);
    LockTheRow(locking);
    Then(SIM, ws, acts, from, At(BUFFERED, map[], Away), Lock(7, {1}), locking);
    ws, acts := ws + [locking], acts + [Lock(7, {1})];
  }
}
