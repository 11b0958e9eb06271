/**
 * A run in which a claim commits between a pass's gauge read and its ready count, and one consumer ends up with its
 * cap, less one, plus two whole ready buffers: past what one buffer of lag would allow (app/conductor/admission.py).
 */
module Overshoot {
  import opened Model
  import opened Sets
  import opened Policies
  import opened Lifecycle
  import opened Allocator
  import opened Admission
  import opened Machine
  import opened Service
  import opened Store

  const SETTINGS: Settings := SettingsRow(5.0, 1.0, 8, 30.0, 1.0, 60.0, 5, 1.0, 300)

  /** One consumer allowed one delivery at a time, and a buffer of one. */
  const SIM: Simulation := SimulationRow(SETTINGS, 30.0, map[1 := Consumer(1.0, 1, 30.0)], {Stream(1, "order")}, map[])

  const PASS := Pass(0.0, true, None)

  const FIRST := PendingRow(1, Event("order", "a", 0.0), 1)
  const SECOND := PendingRow(2, Event("order", "b", 0.0), 1)

  function At(db: Tables, workers: map<WorkerId, WorkerState>, c: Machine.Conductor): World {
    World(db, workers, c, Clock.Start(1.0, 0.0), 0.0)
  }

  const EVENTS := map[1 := Event("order", "a", 0.0), 2 := Event("order", "b", 0.0)]

  const EMPTY := Tables(map[], map[], map[])
  const INGESTED := Tables(EVENTS, map[1 := FIRST, 2 := SECOND], map[])
  const BUFFERED := Tables(EVENTS, map[1 := ReadyRow(FIRST, 0.0), 2 := SECOND], map[])
  const CLAIMED :=
    Tables(EVENTS, map[1 := LeasedRow(ReadyRow(FIRST, 0.0), 7, 0.0, SETTINGS), 2 := SECOND],
        map[1 := OpenAttempt(1, 1, 7, 0.0)])
  const REFILLED := CLAIMED.(deliveries := CLAIMED.deliveries[2 := ReadyRow(SECOND, 0.0)])

  lemma BufferIsOne()
    ensures BufferTarget(SIM) == 1
  {
    TotalPick({1}, ConcurrencyCaps(SIM), 1);
    assert {1} - {1} == {};
    assert SIM.consumers.Keys == {1};
    assert Total({1}, ConcurrencyCaps(SIM)) == 1;
  }

  /** Fair drain stays on. */
  ghost predicate AllFair(acts: seq<Action>) { forall i :: 0 <= i < |acts| && acts[i].Begin? ==> acts[i].fair }

  // ---- A pass over an empty buffer ----

  lemma {:induction false} NothingCondemned(db: Tables, cs: seq<Candidate>, now: Time)
    ensures Kept(db, cs, map[], now) == cs
    ensures DroppedInto(db, cs, map[], now, Expired) == [] && DroppedInto(db, cs, map[], now, Superseded) == []
  {
    if cs != [] {
      var n := |cs| - 1;
      NothingCondemned(db, cs[..n], now);
      assert cs == cs[..n] + [cs[n]];
      PoliciesAreOptIn(db, cs[n], map[], now);
    }
  }

  lemma FirstIsRationed(cs: seq<Candidate>)
    requires cs != [] && cs[0].consumer == 1
    ensures Rationed(cs, map[1 := 1], 1, [cs[0]])
  {
    assert cs[..1] == [cs[0]];
    forall c
      ensures RationAt(cs[..1], map[1 := 1], [cs[0]], c)
    {
      OfConsumerSnoc([], cs[0], c);
      assert [] + [cs[0]] == [cs[0]];
    }
    assert FullRation(cs[..1], map[1 := 1], [cs[0]]);
  }

  lemma OneSlotEach(room: int)
    requires room >= 1
    ensures FairShare(map[1 := 1.0], map[1 := room], 1, map[1 := 1])
  {
    TotalPick({1}, map[1 := 1], 1);
    TotalPick({1}, map[1 := room], 1);
    assert {1} - {1} == {};
    assert map[1 := 1].Keys == {1} && map[1 := room].Keys == {1};
  }

  /** Gauges read before the worker took the buffer's row: the gate looks open. */
  ghost predicate LooksOpen(g: map<ConsumerId, Gauge>) { g.Keys == {1} && g[1].inFlight == 0 && 0 <= g[1].ready <= 1 }

  lemma AllowsOne(demand: map<ConsumerId, int>, used: map<ConsumerId, int>, g: map<ConsumerId, Gauge>)
    requires LooksOpen(g) && Get(demand, 1) >= 1 && 0 <= Get(used, 1) <= 1
    ensures Allows(SIM, Headrooms(SIM, demand, used, g, false), 1, true, map[1 := 1])
  {
    var st := StateOf(1, SIM.consumers[1], demand, used, g);
    assert CapOf(30.0, 5.0) == 150;
    var h := Headroom(st, 5.0, false);
    assert h >= 1;
    assert SIM.consumers.Keys == {1};
    assert Headrooms(SIM, demand, used, g, false) == map[1 := h];
    assert Weights(SIM) == map[1 := 1.0];
    assert Rooms(map[1 := 1.0], map[1 := h]) == map[1 := h];
    OneSlotEach(h);
  }

  ghost predicate EmptyBuffer(db: Tables, cs: seq<Candidate>, due: set<DeliveryId>) {
    && InState(db, Everyone, Ready) == {} && Due(db, Only(1), 0.0) == due && due != {}
    && db.attempts.Keys <= {1}
    && Oldest(db, due, 8, cs) && forall i :: 0 <= i < |cs| ==> cs[i].consumer == 1
  }

  lemma OneSlot(db: Tables, cs: seq<Candidate>, due: set<DeliveryId>)
    requires EmptyBuffer(db, cs, due)
    ensures BudgetFrom(SIM, 0, |Window(db, Everyone, -5.0)|).Slots() == 1
    ensures |InState(db, Everyone, Ready)| == 0
    ensures 0 <= |Window(db, Only(1), -5.0)| <= 1 && cs != []
  {
    BufferIsOne();
    SubsetSize(Window(db, Everyone, -5.0), {1});
    SubsetSize(Window(db, Only(1), -5.0), {1});
    assert CapOf(30.0, 5.0) == 150;
  }

  /** From gauges that look open to one more row admitted. */
  lemma PassAdmitsFirst(
    ws: seq<World>, acts: seq<Action>, from: World, db: Tables, workers: map<WorkerId, WorkerState>,
    g: map<ConsumerId, Gauge>,
    cs: seq<Candidate>, due: set<DeliveryId>, db': Tables)
    returns (ws': seq<World>, acts': seq<Action>)
    requires Traces(SIM, ws, acts, from, At(db, workers, Gauged(PASS, g)))
    requires LooksOpen(g) && EmptyBuffer(db, cs, due) && cs != [] && MarksReady(db, db', {cs[0].id}, 0.0)
    ensures Traces(SIM, ws', acts', from, At(db', workers, Away)) && (AllFair(acts) ==> AllFair(acts'))
  {
    hide Run, EmptyBuffer, MarksReady, Next;
    OneSlot(db, cs, due);
    var w1, w2, w3;
    ws', acts', w1 := CountIt(ws, acts, from, db, workers, g, cs, due);
    ws', acts', w2 := SurveyIt(ws', acts', from, db, workers, g, cs, due, w1);
    ws', acts', w3 := FetchAndDecide(ws', acts', from, w2, cs, due);
    DropNothing(w3);
    var w4 := w3.(conductor := Dropped(PASS, {cs[0].id}));
    Then(SIM, ws', acts', from, w3, DropCondemned, w4);
    AdmitHere(SIM, w4, At(db', workers, Away));
    Then(SIM, ws' + [w4], acts' + [DropCondemned], from, w4, Admit, At(db', workers, Away));
    ws', acts' := ws' + [w4] + [At(db', workers, Away)], acts' + [DropCondemned] + [Admit];
  }

  lemma NeitherFinishedNorOut(g: map<ConsumerId, Gauge>)
    ensures !IsFinished(PASS.now, Backlog(g)) && !IsOutage(PASS.now, PASS.outage)
  {
    hide Backlog;
  }

  lemma CountIt(
    ws: seq<World>, acts: seq<Action>, from: World, db: Tables, workers: map<WorkerId, WorkerState>,
    g: map<ConsumerId, Gauge>,
    cs: seq<Candidate>, due: set<DeliveryId>)
    returns (ws': seq<World>, acts': seq<Action>, to: World)
    requires Traces(SIM, ws, acts, from, At(db, workers, Gauged(PASS, g))) && EmptyBuffer(db, cs, due)
    ensures to == At(db, workers, Budgeted(PASS, g, BudgetFrom(SIM, 0, |Window(db, Everyone, -5.0)|)))
    ensures Traces(SIM, ws', acts', from, to) && (AllFair(acts) ==> AllFair(acts'))
  {
    hide Run, EmptyBuffer, BudgetFrom, Next, IsFinished, IsOutage, Backlog, InState, Window;
    OneSlot(db, cs, due);
    NeitherFinishedNorOut(g);
    ws', acts', to := CountBoth(SIM, ws, acts, from, At(db, workers, Gauged(PASS, g)),
        BudgetFrom(SIM, 0, |Window(db, Everyone, -5.0)|));
  }

  lemma SurveyIt(
    ws: seq<World>, acts: seq<Action>, from: World, db: Tables, workers: map<WorkerId, WorkerState>,
    g: map<ConsumerId, Gauge>,
    cs: seq<Candidate>, due: set<DeliveryId>, w: World)
    returns (ws': seq<World>, acts': seq<Action>, to: World)
    requires Traces(SIM, ws, acts, from, w) && EmptyBuffer(db, cs, due) && LooksOpen(g)
    requires w == At(db, workers, Budgeted(PASS, g, BudgetFrom(SIM, 0, |Window(db, Everyone, -5.0)|)))
    ensures to == At(db, workers, Surveyed(PASS, 1, map[1 := 1]))
    ensures Traces(SIM, ws', acts', from, to) && (AllFair(acts) ==> AllFair(acts'))
  {
    hide Run, EmptyBuffer, BudgetFrom, Allows, Headrooms, Next, Demand, Used;
    OneSlot(db, cs, due);
    DemandIsMet(db, cs, due);
    AllowsOne(Demand(db, {1}, 0.0), Used(db, {1}, -5.0), g);
    assert SIM.consumers.Keys == {1};
    ws', acts', to := SurveyHere(SIM, ws, acts, from, w, map[1 := 1]);
  }

  lemma DropNothing(w: World)
    requires w.conductor.Decided? && w.conductor.drops == map[]
    ensures Next(SIM, w, DropCondemned, w.(conductor := Dropped(w.conductor.pass, w.conductor.admit)))
  {
  }

  lemma DemandIsMet(db: Tables, cs: seq<Candidate>, due: set<DeliveryId>)
    requires EmptyBuffer(db, cs, due)
    ensures Get(Demand(db, {1}, 0.0), 1) >= 1 && 0 <= Get(Used(db, {1}, -5.0), 1) <= 1
  {
    OneSlot(db, cs, due);
  }

  lemma FetchAndDecide(ws: seq<World>, acts: seq<Action>, from: World, w: World, cs: seq<Candidate>,
      due: set<DeliveryId>)
    returns (ws': seq<World>, acts': seq<Action>, to: World)
    requires Traces(SIM, ws, acts, from, w) && EmptyBuffer(w.db, cs, due) && cs != []
    requires w.conductor == Surveyed(PASS, 1, map[1 := 1])
    ensures to == w.(conductor := Decided(PASS, map[], {cs[0].id}))
    ensures Traces(SIM, ws', acts', from, to) && (AllFair(acts) ==> AllFair(acts'))
  {
    var mid := w.(conductor := Fetched(PASS, 1, map[1 := 1], cs));
    to := w.(conductor := Decided(PASS, map[], {cs[0].id}));
    FetchTheDue(w, mid, cs, due);
    DecideOnFirst(mid, to, cs);
    hide Next, Run, EmptyBuffer;
    Then(SIM, ws, acts, from, w, Fetch(1, cs), mid);
    Then(SIM, ws + [mid], acts + [Fetch(1, cs)], from, mid, Decide(Verdict(cs, []), [cs[0]]), to);
    ws', acts' := ws + [mid] + [to], acts + [Fetch(1, cs)] + [Decide(Verdict(cs, []), [cs[0]])];
  }

  lemma FetchTheDue(w: World, mid: World, cs: seq<Candidate>, due: set<DeliveryId>)
    requires EmptyBuffer(w.db, cs, due) && w.conductor == Surveyed(PASS, 1, map[1 := 1])
    requires mid == w.(conductor := Fetched(PASS, 1, map[1 := 1], cs))
    ensures Next(SIM, w, Fetch(1, cs), mid)
  {
    hide Oldest, Due, InState;
    Dispatch.OfConsumerAll(cs, 1, 1);
    assert map[1 := 1][1] == 1;
    assert FairFetch(w.db, 0.0, map[1 := 1], 1, 8, cs);
  }

  lemma DecideOnFirst(w: World, to: World, cs: seq<Candidate>)
    requires cs != [] && cs[0].consumer == 1 && w.conductor == Fetched(PASS, 1, map[1 := 1], cs)
    requires to == w.(conductor := Decided(PASS, map[], {cs[0].id}))
    ensures Next(SIM, w, Decide(Verdict(cs, []), [cs[0]]), to)
  {
    NothingCondemned(w.db, cs, 0.0);
    FirstIsRationed(cs);
    hide Judged, Rationed;
    OneId(cs[0]);
    hide IdSet;
    assert DropMap([]) == map[];
    hide DropMap;
  }

  lemma OneId(c: Candidate)
    ensures IdSet([c]) == {c.id}
  {
    assert [c][0] == c;
    assert forall d :: d in IdSet([c]) <==> d == c.id;
  }

  lemma StartPass(ws: seq<World>, acts: seq<Action>, from: World, db: Tables, workers: map<WorkerId, WorkerState>)
    returns (ws': seq<World>, acts': seq<Action>)
    requires Traces(SIM, ws, acts, from, At(db, workers, Away))
    ensures Traces(SIM, ws', acts', from, At(db, workers, Gauged(PASS, GaugesOf(db, {1}))))
        && (AllFair(acts) ==> AllFair(acts'))
  {
    hide Run;
    var w, swept := At(db, workers, Away), At(db, workers, Swept(PASS));
    NothingReclaimed(db, 0.0, SETTINGS);
    BeginHere(SIM, w, swept, true, None, {});
    Then(SIM, ws, acts, from, w, Begin(true, None, {}), swept);
    ReadTheGauges(SIM, swept);
    assert SIM.consumers.Keys == {1};
    Then(SIM, ws + [swept], acts + [Begin(true, None, {})], from, swept, ReadGauges,
        At(db, workers, Gauged(PASS, GaugesOf(db, {1}))));
    ws', acts' := ws + [swept] + [At(db, workers, Gauged(PASS, GaugesOf(db, {1})))],
        acts + [Begin(true, None, {})] + [ReadGauges];
  }

  // ---- The tables along the way ----

  lemma Ingested()
    ensures Ingests(EMPTY, INGESTED, SIM.subscriptions)
    ensures EmptyBuffer(INGESTED, [CandidateOf(1, FIRST), CandidateOf(2, SECOND)], {1, 2})
    ensures LooksOpen(GaugesOf(INGESTED, {1}))
  {
    BothFannedOut();
    BothDue();
    hide Ingests, EmptyBuffer;
    assert InState(INGESTED, Only(1), InFlight) == {} && InState(INGESTED, Only(1), Ready) == {};
  }

  lemma BothFannedOut()
    ensures Ingests(EMPTY, INGESTED, SIM.subscriptions)
  {
    assert FansOut(EMPTY, INGESTED, SIM.subscriptions, 1, 1, 1);
    assert FansOut(EMPTY, INGESTED, SIM.subscriptions, 2, 2, 1);
  }

  lemma BothDue()
    ensures EmptyBuffer(INGESTED, [CandidateOf(1, FIRST), CandidateOf(2, SECOND)], {1, 2})
  {
    assert Due(INGESTED, Only(1), 0.0) == {1, 2};
    var cs := [CandidateOf(1, FIRST), CandidateOf(2, SECOND)];
    assert cs[0].id == 1 && cs[1].id == 2;
    assert Ids(cs, 1) && Ids(cs, 2);
  }

  lemma Buffered()
    ensures MarksReady(INGESTED, BUFFERED, {1}, 0.0)
    ensures LooksOpen(GaugesOf(BUFFERED, {1}))
  {
    assert InState(BUFFERED, Only(1), InFlight) == {};
    assert forall d :: d in InState(BUFFERED, Only(1), Ready) <==> d in {1};
    assert InState(BUFFERED, Only(1), Ready) == {1};
  }

  lemma Taken()
    ensures Claims(BUFFERED, CLAIMED, 7, {1}, map[1 := 1], 0.0, SIM.policies, SETTINGS)
    ensures BatchFrom(BUFFERED, map[1 := 1]) == {Claimed(1, 1, 1)}
  {
    assert !RowIsStale(ReadyRow(FIRST, 0.0), 0.0, SIM.policies);
    assert forall d :: d in Live(BUFFERED, {1}, 0.0, SIM.policies) <==> d in {1};
    assert Live(BUFFERED, {1}, 0.0, SIM.policies) == {1};
    var ids: map<DeliveryId, AttemptId> := map[1 := 1];
    assert ids.Keys == {1};
    assert Names(ids, 1);
  }

  lemma TakenLeaves()
    ensures EmptyBuffer(CLAIMED, [CandidateOf(2, SECOND)], {2})
    ensures MarksReady(CLAIMED, REFILLED, {2}, 0.0)
  {
    assert forall d :: d in Due(CLAIMED, Only(1), 0.0) <==> d in {2};
    assert Due(CLAIMED, Only(1), 0.0) == {2};
    var cs := [CandidateOf(2, SECOND)];
    assert cs[0].id == 2;
    assert Ids(cs, 2);
  }

  lemma Refilled()
    ensures |InState(REFILLED, Only(1), InFlight)| == 1 && |InState(REFILLED, Only(1), Ready)| == 1
  {
    assert forall d :: d in InState(REFILLED, Only(1), InFlight) <==> d in {1};
    assert InState(REFILLED, Only(1), InFlight) == {1};
    assert forall d :: d in InState(REFILLED, Only(1), Ready) <==> d in {2};
    assert InState(REFILLED, Only(1), Ready) == {2};
  }

  /** The run: fair throughout, and at its end the consumer holds two buffers past the gate. */
  lemma OneBufferIsNotEnough() returns (ws: seq<World>, acts: seq<Action>)
    ensures Run(SIM, ws, acts) && Initial(ws[0])
    ensures forall i :: 0 <= i < |acts| && acts[i].Begin? ==> acts[i].fair
    ensures var db := ws[|acts|].db;
            && |InState(db, Only(1), InFlight)| + |InState(db, Only(1), Ready)|
               == SIM.consumers[1].concurrencyCap - 1 + 2 * BufferTarget(SIM)
            && |InState(db, Only(1), InFlight)| + |InState(db, Only(1), Ready)|
               > SIM.consumers[1].concurrencyCap - 1 + BufferTarget(SIM)
  {
    hide Run, EmptyBuffer, LooksOpen, Claims, MarksReady, Ingests, Next, GaugesOf, BatchFrom;
    Ingested();
    Buffered();
    Taken();
    TakenLeaves();
    Refilled();
    BufferIsOne();
    var from := At(EMPTY, map[], Away);
    Stay(SIM, from);
    IngestHere(from);
    Then(SIM, [from], [], from, from, Ingest(0.0), At(INGESTED, map[], Away));
    ws, acts := StartPass([from] + [At(INGESTED, map[], Away)], [] + [Ingest(0.0)], from, INGESTED, map[]);
    ws, acts := PassAdmitsFirst(ws, acts, from, INGESTED, map[], GaugesOf(INGESTED, {1}),
                                [CandidateOf(1, FIRST), CandidateOf(2, SECOND)], {1, 2}, BUFFERED);
    var locking := At(BUFFERED, map[7 := Claiming(0.0, {1})], Away);
    LockTheRow(locking);
    Then(SIM, ws, acts, from, At(BUFFERED, map[], Away), Lock(7, {1}), locking);
    ws, acts := StartPass(ws + [locking], acts + [Lock(7, {1})], from, BUFFERED, map[7 := Claiming(0.0, {1})]);
    var before := At(BUFFERED, map[7 := Claiming(0.0, {1})], Gauged(PASS, GaugesOf(BUFFERED, {1})));
    var after := At(CLAIMED, map[7 := Holding({Claimed(1, 1, 1)})], Gauged(PASS, GaugesOf(BUFFERED, {1})));
    CommitTheRow(before, after);
    Then(SIM, ws, acts, from, before, Commit(7, map[1 := 1]), after);
    ws, acts := PassAdmitsFirst(ws + [after], acts + [Commit(7, map[1 := 1])], from, CLAIMED,
        map[7 := Holding({Claimed(1, 1, 1)})],
                                GaugesOf(BUFFERED, {1}), [CandidateOf(2, SECOND)], {2}, REFILLED);
    EndsAt(ws, acts, from, At(REFILLED, map[7 := Holding({Claimed(1, 1, 1)})], Away));
  }

  lemma EndsAt(ws: seq<World>, acts: seq<Action>, from: World, to: World)
    requires Traces(SIM, ws, acts, from, to)
    ensures Run(SIM, ws, acts) && ws[0] == from && ws[|acts|] == to
  {
    hide Next;
  }

  lemma IngestHere(w: World)
    requires w == At(EMPTY, map[], Away) && Ingests(EMPTY, INGESTED, SIM.subscriptions)
    ensures Next(SIM, w, Ingest(0.0), At(INGESTED, map[], Away)) && Initial(w)
  {
    hide Ingests;
  }

  lemma LockTheRow(w: World)
    requires w == At(BUFFERED, map[7 := Claiming(0.0, {1})], Away)
    ensures Next(SIM, At(BUFFERED, map[], Away), Lock(7, {1}), w)
  {
  }

  lemma CommitTheRow(w: World, w': World)
    requires w == At(BUFFERED, map[7 := Claiming(0.0, {1})], Gauged(PASS, GaugesOf(BUFFERED, {1})))
    requires w' == At(CLAIMED, map[7 := Holding({Claimed(1, 1, 1)})], Gauged(PASS, GaugesOf(BUFFERED, {1})))
    requires Claims(BUFFERED, CLAIMED, 7, {1}, map[1 := 1], 0.0, SIM.policies, SETTINGS)
    requires BatchFrom(BUFFERED, map[1 := 1]) == {Claimed(1, 1, 1)}
    ensures Next(SIM, w, Commit(7, map[1 := 1]), w')
  {
    hide Claims, GaugesOf, BatchFrom;
    assert 1 in map[1 := 1];
    CommitHere(SIM, w, 7, map[1 := 1], w');
  }
}
