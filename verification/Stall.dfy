/**
  * A run of the first-come arm that fetches only a full consumer's row while another, with a slot to use, has one
  * due.
  */
module Stall {
  import opened Model
  import opened Sets
  import opened Policies
  import opened Lifecycle
  import opened Admission
  import opened Machine
  import opened Service

  const SETTINGS: Settings := SettingsRow(5.0, 0.5, 1, 30.0, 1.0, 60.0, 5, 1.0, 300)

  /** Consumer 1 may not attempt anything within a window; consumer 2 may; the buffer holds one. */
  const SIM: Simulation :=
    SimulationRow(SETTINGS, 30.0, map[1 := Consumer(1.0, 1, 0.1), 2 := Consumer(1.0, 1, 30.0)],
                  {Stream(1, "order"), Stream(2, "refund")}, map[])

  const PASS := Pass(2.0, false, None)

  const EVENTS := map[1 := Event("order", "a", 0.0), 2 := Event("refund", "b", 1.0)]
  const HELD_BACK := PendingRow(1, EVENTS[1], 1)
  const WAITING := PendingRow(2, EVENTS[2], 2)

  const EMPTY := Tables(map[], map[], map[])
  const INGESTED := Tables(EVENTS, map[1 := HELD_BACK, 2 := WAITING], map[])

  function At(db: Tables, c: Machine.Conductor, wall: real): World { World(db, map[], c, Clock.Start(1.0, 0.0), wall) }

  lemma BothIngested()
    ensures Ingests(EMPTY, INGESTED, SIM.subscriptions)
  {
    assert FansOut(EMPTY, INGESTED, SIM.subscriptions, 1, 1, 1);
    assert FansOut(EMPTY, INGESTED, SIM.subscriptions, 2, 2, 2);
  }

  lemma BufferIsOne()
    ensures BufferTarget(SIM) == 1 && SIM.consumers.Keys == {1, 2}
  {
    var caps := ConcurrencyCaps(SIM);
    assert SIM.consumers.Keys == {1, 2};
    TotalPick({1, 2}, caps, 1);
    assert {1, 2} - {1} == {2};
    TotalPick({2}, caps, 2);
    assert {2} - {2} == {};
    assert Total({1, 2}, caps) == 2;
  }

  lemma OneSlot()
    ensures |InState(INGESTED, Everyone, Ready)| == 0 && |Window(INGESTED, Everyone, -3.0)| == 0
    ensures BudgetFrom(SIM, 0, 0).Slots() == 1
  {
    BufferIsOne();
    assert InState(INGESTED, Everyone, Ready) == {} && Window(INGESTED, Everyone, -3.0) == {};
    assert CapOf(30.0, 5.0) == 150;
  }

  lemma OneDueEach()
    ensures |Due(INGESTED, Only(1), 2.0)| == 1 && |Due(INGESTED, Only(2), 2.0)| == 1
    ensures |Window(INGESTED, Only(1), -3.0)| == 0 && |Window(INGESTED, Only(2), -3.0)| == 0
    ensures |InState(INGESTED, Only(1), Ready)| == 0 && |InState(INGESTED, Only(2), Ready)| == 0
  {
    assert forall d :: d in Due(INGESTED, Only(1), 2.0) <==> d in {1};
    assert Due(INGESTED, Only(1), 2.0) == {1};
    assert forall d :: d in Due(INGESTED, Only(2), 2.0) <==> d in {2};
    assert Due(INGESTED, Only(2), 2.0) == {2};
    assert Window(INGESTED, Only(1), -3.0) == {} && Window(INGESTED, Only(2), -3.0) == {};
    assert InState(INGESTED, Only(1), Ready) == {} && InState(INGESTED, Only(2), Ready) == {};
  }

  const ALLOWED: map<ConsumerId, int> := map[1 := 0, 2 := 1]

  ghost function RoomLeft(): map<ConsumerId, int> {
    var cs := SIM.consumers.Keys;
    Headrooms(SIM, Demand(INGESTED, cs, 2.0), Used(INGESTED, cs, -3.0), GaugesOf(INGESTED, cs), true)
  }

  lemma RoomForTheSecond()
    ensures RoomLeft() == ALLOWED
  {
    OneDueEach();
    hide Due, Window, InState;
    var gauges := GaugesOf(INGESTED, SIM.consumers.Keys);
    var demand, used := Demand(INGESTED, SIM.consumers.Keys, 2.0), Used(INGESTED, SIM.consumers.Keys, -3.0);
    assert CapOf(0.1, 5.0) == 0 && CapOf(30.0, 5.0) == 150;
    assert Headroom(StateOf(1, SIM.consumers[1], demand, used, gauges), 5.0, true) == 0;
    assert Headroom(StateOf(2, SIM.consumers[2], demand, used, gauges), 5.0, true) == 1;
    assert SIM.consumers.Keys == {1, 2};
  }

  lemma OnlyTheSecondIsAllowed()
    ensures Allows(SIM, RoomLeft(), 1, false, ALLOWED)
  {
    hide RoomLeft;
    RoomForTheSecond();
  }

  const FETCHED := [CandidateOf(1, HELD_BACK)]

  lemma OldestIsHeldBack()
    ensures FifoFetch(INGESTED, 2.0, 1, 1, FETCHED)
  {
    assert forall d :: d in Due(INGESTED, Everyone, 2.0) <==> d in {1, 2};
    assert Due(INGESTED, Everyone, 2.0) == {1, 2};
    assert FETCHED[0].id == 1 && Ids(FETCHED, 1);
  }

  lemma NothingComesOfIt()
    ensures Judged(INGESTED, FETCHED, map[], 2.0, Verdict(FETCHED, [])) && Rationed(FETCHED, ALLOWED, 1, [])
  {
    PoliciesAreOptIn(INGESTED, FETCHED[0], map[], 2.0);
    assert FETCHED[..0] == [] && [] + [FETCHED[0]] == FETCHED && FETCHED[..1] == FETCHED;
    assert Kept(INGESTED, FETCHED, map[], 2.0) == FETCHED;
    assert DroppedInto(INGESTED, FETCHED, map[], 2.0, Expired) == [];
    assert DroppedInto(INGESTED, FETCHED, map[], 2.0, Superseded) == [];
    hide Fate;
    forall c
      ensures RationAt(FETCHED, ALLOWED, [], c)
    {
      OfConsumerSnoc([], FETCHED[0], c);
    }
    assert FullRation(FETCHED[..1], ALLOWED, []);
  }

  lemma FetchHere(w: World)
    requires w.db == INGESTED && w.conductor == Surveyed(PASS, 1, ALLOWED)
    ensures Next(SIM, w, Fetch(0, FETCHED), w.(conductor := Fetched(PASS, 1, ALLOWED, FETCHED)))
  {
    OldestIsHeldBack();
    hide FifoFetch;
    assert ALLOWED[2] != 0;
  }

  lemma DecideHere(w: World)
    requires w.db == INGESTED && w.conductor == Fetched(PASS, 1, ALLOWED, FETCHED)
    ensures Next(SIM, w, Decide(Verdict(FETCHED, []), []), w.(conductor := Decided(PASS, map[], {})))
  {
    NothingComesOfIt();
    hide Judged, Rationed;
    assert IdSet([]) == {};
  }

  lemma BeginUnfair(w: World)
    requires w == At(INGESTED, Away, 2.0)
    ensures Next(SIM, w, Begin(false, None, {}), w.(conductor := Swept(PASS)))
  {
    assert Reclaims(INGESTED, INGESTED, {}, 2.0, SETTINGS);
    hide Reclaims;
    BeginHere(SIM, w, w.(conductor := Swept(PASS)), false, None, {});
  }

  lemma IngestHere(w: World)
    requires w == At(EMPTY, Away, 2.0)
    ensures Next(SIM, w, Ingest(2.0), w.(db := INGESTED))
  {
    BothIngested();
    hide Ingests;
  }

  lemma TickHere(w: World)
    requires w == At(EMPTY, Away, 0.0)
    ensures Initial(w) && Next(SIM, w, Tick(2.0), At(EMPTY, Away, 2.0))
  {
  }

  /** The first-come arm stalls: the pass decides nothing though consumer 2 is allowed a slot and has a row due. */
  lemma FirstComeStalls() returns (ws: seq<World>, acts: seq<Action>)
    ensures Run(SIM, ws, acts) && Initial(ws[0]) && |ws| == |acts| + 1 && |acts| >= 2
    ensures ws[|acts|].conductor == Decided(PASS, map[], {})
    ensures ws[|acts| - 2].conductor == Surveyed(PASS, 1, ALLOWED)
    ensures 2 in Due(ws[|acts|].db, Only(2), PASS.now)
  {
    hide Next, Run, GaugesOf, BudgetFrom, Demand, Used, Allows, Headrooms, IsFinished, IsOutage, Backlog;
    var from := At(EMPTY, Away, 0.0);
    TickHere(from);
    IngestHere(At(EMPTY, Away, 2.0));
    BeginUnfair(At(INGESTED, Away, 2.0));
    Stay(SIM, from);
    Then(SIM, [from], [], from, from, Tick(2.0), At(EMPTY, Away, 2.0));
    ws, acts := [from] + [At(EMPTY, Away, 2.0)], [] + [Tick(2.0)];
    Then(SIM, ws, acts, from, At(EMPTY, Away, 2.0), Ingest(2.0), At(INGESTED, Away, 2.0));
    ws, acts := ws + [At(INGESTED, Away, 2.0)], acts + [Ingest(2.0)];
    Then(SIM, ws, acts, from, At(INGESTED, Away, 2.0), Begin(false, None, {}), At(INGESTED, Swept(PASS), 2.0));
    ws, acts := ws + [At(INGESTED, Swept(PASS), 2.0)], acts + [Begin(false, None, {})];
    var g := GaugesOf(INGESTED, SIM.consumers.Keys);
    ReadTheGauges(SIM, At(INGESTED, Swept(PASS), 2.0));
    Then(SIM, ws, acts, from, At(INGESTED, Swept(PASS), 2.0), ReadGauges, At(INGESTED, Gauged(PASS, g), 2.0));
    ws, acts := ws + [At(INGESTED, Gauged(PASS, g), 2.0)], acts + [ReadGauges];
    NotFinished(g);
    OneSlot();
    var at;
    ws, acts, at := CountBoth(SIM, ws, acts, from, At(INGESTED, Gauged(PASS, g), 2.0), BudgetFrom(SIM, 0, 0));
    OnlyTheSecondIsAllowed();
    ws, acts, at := SurveyHere(SIM, ws, acts, from, at, ALLOWED);
    FetchHere(at);
    DecideHere(at.(conductor := Fetched(PASS, 1, ALLOWED, FETCHED)));
    ws, acts := LastTwo(ws, acts, from, at);
    OneDueEach();
  }

  lemma NotFinished(g: map<ConsumerId, Gauge>)
    ensures !IsFinished(PASS.now, Backlog(g)) && !IsOutage(PASS.now, PASS.outage)
  {
    hide Backlog;
  }

  lemma LastTwo(ws: seq<World>, acts: seq<Action>, from: World, w: World) returns (ws': seq<World>, acts': seq<Action>)
    requires Traces(SIM, ws, acts, from, w) && w.db == INGESTED && w.conductor == Surveyed(PASS, 1, ALLOWED)
    ensures Run(SIM, ws', acts') && ws'[0] == from && |ws'| == |acts'| + 1 && |acts'| >= 2
    ensures ws'[|acts'|] == w.(conductor := Decided(PASS, map[], {})) && ws'[|acts'| - 2] == w
  {
    hide Next;
    var mid := w.(conductor := Fetched(PASS, 1, ALLOWED, FETCHED));
    var to := w.(conductor := Decided(PASS, map[], {}));
    FetchHere(w);
    DecideHere(mid);
    Then(SIM, ws, acts, from, w, Fetch(0, FETCHED), mid);
    Then(SIM, ws + [mid], acts + [Fetch(0, FETCHED)], from, mid, Decide(Verdict(FETCHED, []), []), to);
    ws', acts' := ws + [mid] + [to], acts + [Fetch(0, FETCHED)] + [Decide(Verdict(FETCHED, []), [])];
  }
}
