/** When a pass gets something done, on either arm of the toggle (app/conductor/admission.py, select_candidates). */
module Progress {
  import opened Model
  import opened Sets
  import opened Policies
  import opened Lifecycle
  import opened Allocator
  import opened Admission
  import opened Machine
  import opened Runs

  /** A slot to give and somebody with room: somebody is given one. */
  lemma SomeoneIsAllowed(weights: map<ConsumerId, real>, room: map<ConsumerId, int>, slots: int,
      g: map<ConsumerId, int>, c: ConsumerId)
    requires FairShare(weights, room, slots, g) && slots >= 1 && c in room && room[c] >= 1
    ensures exists x :: x in g && g[x] >= 1
  {
    hide Balanced, Total;
    var zero: map<ConsumerId, int> := map x | x in room :: 0;
    TotalPick(room.Keys, room, c);
    TotalZero(room.Keys, zero);
    TotalAtMost(room.Keys - {c}, zero, room);
    TotalZero(room.Keys - {c}, zero);
    if forall x :: x in g ==> g[x] == 0 {
      TotalZero(g.Keys, g);
    }
  }

  // ---- The fair arm ----

  ghost predicate Promises(db: Tables, now: Time, allow: map<ConsumerId, int>) {
    forall c :: c in allow ==> 0 <= allow[c] && (allow[c] > 0 ==> Due(db, Only(c), now) != {})
  }

  ghost predicate Represents(cs: seq<Candidate>, allow: map<ConsumerId, int>) {
    forall c :: c in allow ==> 0 <= allow[c] && (allow[c] > 0 ==> OfConsumer(cs, c) != [])
  }

  /** What a fair pass has allowed or fetched is still there to be admitted or dropped. */
  ghost predicate Hopeful(sim: Simulation, w: World) {
    match w.conductor
    case DemandRead(pass, g, b, demand) => forall c :: c in demand ==> 0 <= demand[c] <= |Due(w.db, Only(c), pass.now)|
    case Surveyed(pass, slots, allow) => pass.fair ==> Promises(w.db, pass.now, allow)
    case Fetched(pass, slots, allow, cs) =>
      pass.fair ==> slots >= 1 && Represents(cs, allow) && exists c :: c in allow && allow[c] > 0
    case Decided(pass, drops, admit) => pass.fair ==> drops.Keys + admit != {}
    case _ => true
  }

  lemma DueStays(db: Tables, db': Tables, c: ConsumerId, now: Time)
    requires LeavesPending(db, db')
    ensures Due(db, Only(c), now) <= Due(db', Only(c), now)
    ensures |Due(db, Only(c), now)| <= |Due(db', Only(c), now)|
  {
    forall d | d in Due(db, Only(c), now)
      ensures d in Due(db', Only(c), now)
    {
      assert PendingAt(db, d);
    }
    SubsetSize(Due(db, Only(c), now), Due(db', Only(c), now));
  }

  lemma StillHopeful(sim: Simulation, w: World, w': World)
    requires Hopeful(sim, w) && w'.conductor == w.conductor && LeavesPending(w.db, w'.db)
    ensures Hopeful(sim, w')
  {
    forall c, now
      ensures |Due(w.db, Only(c), now)| <= |Due(w'.db, Only(c), now)|
      ensures Due(w.db, Only(c), now) != {} ==> Due(w'.db, Only(c), now) != {}
    {
      DueStays(w.db, w'.db, c, now);
    }
    hide Due, LeavesPending;
  }

  /** An allowance is never negative, and a positive one means demand. */
  lemma AllowedHaveDemand(
    sim: Simulation, demand: map<ConsumerId, int>, used: map<ConsumerId, int>, gauges: map<ConsumerId, Gauge>,
    slots: int,
    allow: map<ConsumerId, int>, c: ConsumerId)
    requires Allows(sim, Headrooms(sim, demand, used, gauges, false), slots, true, allow) && c in allow
        && Get(demand, c) >= 0
    ensures 0 <= allow[c] && (allow[c] > 0 ==> Get(demand, c) > 0)
  {
    hide CapOf, Total, Balanced;
    var st := StateOf(c, sim.consumers[c], demand, used, gauges);
    HeadroomFits(st, sim.settings.windowS, false);
    hide Headroom;
    assert Headrooms(sim, demand, used, gauges, false)[c] == Headroom(st, sim.settings.windowS, false);
  }

  lemma AllowedAreDue(
    sim: Simulation, db: Tables, now: Time, demand: map<ConsumerId, int>, used: map<ConsumerId, int>,
    gauges: map<ConsumerId, Gauge>,
    slots: int, allow: map<ConsumerId, int>)
    requires Allows(sim, Headrooms(sim, demand, used, gauges, false), slots, true, allow)
    requires forall c :: c in demand ==> 0 <= demand[c] <= |Due(db, Only(c), now)|
    ensures Promises(db, now, allow)
  {
    hide Allows, Headrooms, Due;
    forall x | x in allow
      ensures 0 <= allow[x] && (allow[x] > 0 ==> Due(db, Only(x), now) != {})
    {
      AllowedHaveDemand(sim, demand, used, gauges, slots, allow, x);
    }
  }

  lemma SurveyPromises(sim: Simulation, w: World, a: Action, w': World)
    requires Hopeful(sim, w) && a.Survey? && Next(sim, w, a, w')
    ensures Hopeful(sim, w')
  {
    hide Next, Allows, Headrooms, Due, Used, Promises;
    SurveySays(sim, w, a, w');
    var c := w.conductor;
    if c.pass.fair {
      AllowedAreDue(sim, w.db, c.pass.now, c.demand,
                    Used(w.db, sim.consumers.Keys, c.pass.now - sim.settings.windowS), c.gauges,
                    c.budget.Slots(), a.allowances);
    }
  }

  lemma FetchRepresents(sim: Simulation, w: World, a: Action, w': World)
    requires Hopeful(sim, w) && a.Fetch? && Next(sim, w, a, w') && SlotsPositive(w)
    ensures Hopeful(sim, w')
  {
    hide Due;
    var c := w.conductor;
    if c.pass.fair {
      forall x | x in c.allow && c.allow[x] > 0
        ensures OfConsumer(a.fetched, x) != []
      {
        assert a.wanted >= 1 && a.wanted * sim.settings.overfetch >= 1;
        assert Oldest(w.db, Due(w.db, Only(x), c.pass.now), a.wanted * sim.settings.overfetch,
            OfConsumer(a.fetched, x));
      }
      var x :| x in c.allow && c.allow[x] != 0;
      assert c.allow[x] > 0;
    }
  }

  ghost predicate SlotsPositive(w: World) {
    match w.conductor
    case DemandRead(_, _, b, _) => b.Slots() > 0
    case Surveyed(_, slots, _) => slots > 0
    case Fetched(_, slots, _, _) => slots > 0
    case _ => true
  }

  /** Of what was fetched for a consumer with slots, the first is admitted or dropped. */
  lemma DecideProgresses(sim: Simulation, w: World, a: Action, w': World)
    requires Hopeful(sim, w) && a.Decide? && Next(sim, w, a, w')
    ensures Hopeful(sim, w')
  {
    var c, v := w.conductor, a.verdict;
    if c.pass.fair && a.admitted == [] {
      var x :| x in c.allow && c.allow[x] > 0;
      var mine := OfConsumer(c.candidates, x);
      OfConsumerOnly(c.candidates, x);
      var first := mine[0];
      RationEmptyIff(v.admit, c.allow, c.slots, a.admitted);
      KeptMeans(w.db, c.candidates, sim.policies, c.pass.now, first);
      var fate := Fate(w.db, first, sim.policies, c.pass.now);
      assert fate.Some?;
      CondemnedIsDropped(w.db, c.candidates, sim.policies, c.pass.now, v, first);
      assert first.id in DropMap(v.drops);
    } else if c.pass.fair {
      assert a.admitted[0].id in IdSet(a.admitted);
    }
  }

  lemma CondemnedIsDropped(db: Tables, cs: seq<Candidate>, policies: map<Stream, Policy>, now: Time, v: Verdict,
      c: Candidate)
    requires Judged(db, cs, policies, now, v) && c in cs && Fate(db, c, policies, now).Some?
    ensures c.id in DropMap(v.drops)
  {
    var state := Fate(db, c, policies, now).value;
    var x := Drop(c.id, state);
    var i :| 0 <= i < |cs| && cs[i] == c;
    assert FatedIn(db, cs, policies, now, x);
    DroppedMeans(db, cs, policies, now, state, x);
    assert x in DroppedInto(db, cs, policies, now, state) && (state == Expired || state == Superseded);
    assert x in v.drops;
    var j :| 0 <= j < |v.drops| && v.drops[j] == x;
    DropMapMeans(v.drops, c.id);
  }

  lemma OutsideStaysHopeful(sim: Simulation, w: World, a: Action, w': World)
    requires Inv(sim, w) && Hopeful(sim, w) && Next(sim, w, a, w') && Outside(a)
    ensures Hopeful(sim, w')
  {
    hide *;
    OutsideLeavesPending(sim, w, a, w');
    StillHopeful(sim, w, w');
  }

  lemma OthersStayHopeful(sim: Simulation, w: World, a: Action, w': World)
    requires Hopeful(sim, w) && Next(sim, w, a, w') && !Outside(a) && !(a.Survey? || a.Fetch? || a.Decide?)
    ensures Hopeful(sim, w')
  {
    hide Due, Reclaims, AppliesDrops, MarksReady;
  }

  lemma NextKeepsSlots(sim: Simulation, w: World, a: Action, w': World)
    requires SlotsPositive(w) && Next(sim, w, a, w')
    ensures SlotsPositive(w')
  {
  }

  lemma NextKeepsHope(sim: Simulation, w: World, a: Action, w': World)
    requires Inv(sim, w) && Hopeful(sim, w) && SlotsPositive(w) && Next(sim, w, a, w')
    ensures Hopeful(sim, w') && SlotsPositive(w')
  {
    hide *;
    NextKeepsSlots(sim, w, a, w');
    if a.Survey? {
      SurveyPromises(sim, w, a, w');
    } else if a.Fetch? {
      FetchRepresents(sim, w, a, w');
    } else if a.Decide? {
      DecideProgresses(sim, w, a, w');
    } else if Outside(a) {
      OutsideStaysHopeful(sim, w, a, w');
    } else {
      OthersStayHopeful(sim, w, a, w');
    }
  }

  lemma {:induction false} RunStaysHopeful(sim: Simulation, ws: seq<World>, acts: seq<Action>, n: nat)
    requires Run(sim, ws, acts) && Initial(ws[0]) && n <= |acts|
    ensures Hopeful(sim, ws[n]) && SlotsPositive(ws[n])
  {
    hide Inv, Next;
    if n > 0 {
      RunStaysHopeful(sim, ws, acts, n - 1);
      RunKeepsInv(sim, ws, acts, n - 1);
      NextKeepsHope(sim, ws[n - 1], acts[n - 1], ws[n]);
    }
  }

  /** Somebody has headroom by what the pass has read. */
  ghost predicate RoomSomewhere(sim: Simulation, w: World)
    requires w.conductor.DemandRead?
  {
    var c := w.conductor;
    var used := Used(w.db, sim.consumers.Keys, c.pass.now - sim.settings.windowS);
    var h := Headrooms(sim, c.demand, used, c.gauges, !c.pass.fair);
    exists x :: x in h && h[x] > 0
  }

  /**
   * Fair-arm progress: in any run, whatever is committed meanwhile, a fair pass surveyed with headroom anywhere allows
   * somebody something, and a fair pass that decides admits or drops at least one delivery, whatever policy condemns.
   */
  lemma FairPassesProgress(sim: Simulation, ws: seq<World>, acts: seq<Action>, n: nat)
    requires Run(sim, ws, acts) && Initial(ws[0]) && n < |acts| && ws[n].conductor != Away && ws[n].conductor.pass.fair
    ensures acts[n].Survey? && ws[n].conductor.DemandRead? && RoomSomewhere(sim, ws[n]) ==>
              exists x :: x in acts[n].allowances && acts[n].allowances[x] != 0
    ensures acts[n].Decide? ==>
              ws[n + 1].conductor.Decided? && ws[n + 1].conductor.drops.Keys + ws[n + 1].conductor.admit != {}
  {
    RunStaysHopeful(sim, ws, acts, n);
    RunStaysHopeful(sim, ws, acts, n + 1);
    assert Next(sim, ws[n], acts[n], ws[n + 1]);
    hide Initial, Next, SlotsPositive, RoomSomewhere;
    if acts[n].Survey? { SurveyAllows(sim, ws[n], acts[n], ws[n + 1]); }
    if acts[n].Decide? { DecidedFair(sim, ws[n], acts[n], ws[n + 1]); }
  }

  lemma DecidedFair(sim: Simulation, w: World, a: Action, w': World)
    requires a.Decide? && Next(sim, w, a, w')
    ensures w.conductor != Away && w'.conductor.Decided? && w'.conductor.pass == w.conductor.pass
  {
    hide Judged, Rationed;
  }

  lemma SurveyAllows(sim: Simulation, w: World, a: Action, w': World)
    requires a.Survey? && Next(sim, w, a, w') && w.conductor != Away && w.conductor.pass.fair && SlotsPositive(w)
    ensures w.conductor.DemandRead? && RoomSomewhere(sim, w) ==> exists x :: x in a.allowances && a.allowances[x] != 0
  {
    hide Next, Allows, Headrooms, Used;
    SurveySays(sim, w, a, w');
    if w.conductor.DemandRead? && RoomSomewhere(sim, w) {
      var c := w.conductor;
      var used := Used(w.db, sim.consumers.Keys, c.pass.now - sim.settings.windowS);
      var h := Headrooms(sim, c.demand, used, c.gauges, false);
      var x :| x in h && h[x] > 0;
      HeadroomForAll(sim, c.demand, used, c.gauges);
      AllowedSome(sim, h, c.budget.Slots(), a.allowances, x);
    }
  }

  lemma HeadroomForAll(sim: Simulation, demand: map<ConsumerId, int>, used: map<ConsumerId, int>,
      gauges: map<ConsumerId, Gauge>)
    ensures Headrooms(sim, demand, used, gauges, false).Keys == sim.consumers.Keys
  {
  }

  lemma AllowedSome(sim: Simulation, h: map<ConsumerId, int>, slots: int, allow: map<ConsumerId, int>, x: ConsumerId)
    requires Allows(sim, h, slots, true, allow) && slots >= 1 && h.Keys == sim.consumers.Keys && x in h && h[x] > 0
    ensures exists c :: c in allow && allow[c] != 0
  {
    hide FairShare;
    assert Get(h, x) == h[x];
    SomeoneIsAllowed(Weights(sim), Rooms(Weights(sim), h), slots, allow, x);
  }

  // ---- The outage ----

  /** A pass past its outage check began outside the outage. */
  ghost predicate PipelineUp(w: World) {
    match w.conductor
    case Away => true
    case Swept(_) => true
    case Gauged(_, _) => true
    case _ => !IsOutage(w.conductor.pass.now, w.conductor.pass.outage)
  }

  lemma NextKeepsPipelineUp(sim: Simulation, w: World, a: Action, w': World)
    requires PipelineUp(w) && Next(sim, w, a, w')
    ensures PipelineUp(w')
  {
    hide IsOutage, IsFinished, Reclaims, AppliesDrops, MarksReady, Judged, Rationed, FairFetch, FifoFetch, Allows;
  }

  lemma {:induction false} RunKeepsPipelineUp(sim: Simulation, ws: seq<World>, acts: seq<Action>, n: nat)
    requires Run(sim, ws, acts) && Initial(ws[0]) && n <= |acts|
    ensures PipelineUp(ws[n])
  {
    hide Next;
    if n > 0 {
      RunKeepsPipelineUp(sim, ws, acts, n - 1);
      NextKeepsPipelineUp(sim, ws[n - 1], acts[n - 1], ws[n]);
    }
  }

  /**
    * While the pipeline is down nothing is admitted and nothing dropped by the conductor, and an override decides it
    * either way.
    */
  lemma OutageStopsAdmission(sim: Simulation, ws: seq<World>, acts: seq<Action>, n: nat)
    requires Run(sim, ws, acts) && Initial(ws[0]) && n < |acts| && (acts[n].Admit? || acts[n].DropCondemned?)
    ensures ws[n].conductor != Away
    ensures var pass := ws[n].conductor.pass;
            pass.outage == Some(false) || (pass.outage == None && !(OUTAGE_STARTS_AT_S <= pass.now < OUTAGE_ENDS_AT_S))
  {
    RunKeepsPipelineUp(sim, ws, acts, n);
    assert Next(sim, ws[n], acts[n], ws[n + 1]);
    hide Initial, AppliesDrops, MarksReady;
  }

  // ---- The naive arm ----

  /**
    * With slots to give, a decision comes to nothing exactly when no candidate is condemned and none belongs to
    * anyone allowed anything.
    */
  lemma NothingDecidedIff(
    db: Tables, cs: seq<Candidate>, policies: map<Stream, Policy>, now: Time, v: Verdict,
    allow: map<ConsumerId, int>, slots: int,
    admitted: seq<Candidate>)
    requires Judged(db, cs, policies, now, v) && Rationed(v.admit, allow, slots, admitted) && slots >= 1
    ensures v.drops == [] && admitted == []
       <==> forall c :: c in cs ==> Fate(db, c, policies, now).None? && Get(allow, c.consumer) <= 0
  {
    RationEmptyIff(v.admit, allow, slots, admitted);
    forall c | c in cs
      ensures Fate(db, c, policies, now).None? <==> c in v.admit
      ensures Fate(db, c, policies, now).Some? ==> v.drops != []
    {
      KeptMeans(db, cs, policies, now, c);
      if Fate(db, c, policies, now).Some? { CondemnedIsDropped(db, cs, policies, now, v, c); }
    }
    forall c | c in v.admit
      ensures c in cs && Fate(db, c, policies, now).None?
    {
      KeptMeans(db, cs, policies, now, c);
    }
    if v.drops != [] {
      var x := v.drops[0];
      assert x in v.drops;
      DroppedMeans(db, cs, policies, now, Expired, x);
      DroppedMeans(db, cs, policies, now, Superseded, x);
      var i :| 0 <= i < |cs| && cs[i].id == x.delivery && Fate(db, cs[i], policies, now) == Some(x.state);
      assert cs[i] in cs;
    }
  }
}
