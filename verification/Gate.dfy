/**
 * How far past its concurrency cap a consumer can get: the gate is checked against gauges read at the start of a
 * pass, not against what the pass then adds (app/conductor/admission.py, ConsumerState.headroom).
 */
module Gate {
  import opened Model
  import opened Sets
  import opened Lifecycle
  import opened Admission
  import opened Fences
  import opened Machine
  import opened Runs
  import opened Caps

  ghost function FlyingIn(db: Tables, c: ConsumerId): set<DeliveryId> { InState(db, Only(c), InFlight) }

  /** In flight or about to be. */
  ghost function Occupied(db: Tables, c: ConsumerId): int { |FlyingIn(db, c)| + |ReadyIn(db, Only(c))| }

  /** One buffer past the gate, and whatever was claimed between the gauge read and the ready count. */
  ghost function Lag(sim: Simulation, slack: nat): int { BufferTarget(sim) + slack }

  ghost predicate OccupiedFalls(db: Tables, db': Tables) {
    forall c {:trigger Occupied(db', c)} :: Occupied(db', c) <= Occupied(db, c)
  }

  // ---- Steps outside the conductor ----

  lemma ClaimKeepsOccupied(sim: Simulation, w: World, a: Action, w': World, c: ConsumerId)
    requires Inv(sim, w) && a.Commit? && Next(sim, w, a, w')
    ensures Occupied(w'.db, c) <= Occupied(w.db, c)
  {
    assert WorkerOk(w, a.worker);
    var mine := Rows(w.db, Only(c), w.workers[a.worker].rows);
    forall d | d in mine
      ensures d in ReadyIn(w.db, Only(c))
    {
      assert ReadyAt(w.db, d);
    }
    forall d | d in FlyingIn(w'.db, c)
      ensures d in FlyingIn(w.db, c) + mine
    {
    }
    forall d | d in ReadyIn(w'.db, Only(c))
      ensures d in ReadyIn(w.db, Only(c)) - mine
    {
    }
    SubsetSize(FlyingIn(w'.db, c), FlyingIn(w.db, c) + mine);
    SubsetSize(ReadyIn(w'.db, Only(c)), ReadyIn(w.db, Only(c)) - mine);
  }

  /** A step that makes nothing ready and nothing in flight. */
  lemma NothingEnters(db: Tables, db': Tables)
    requires forall d :: (&& d in db'.deliveries
                          && (db'.deliveries[d].state == Ready || db'.deliveries[d].state == InFlight)) ==>
               d in db.deliveries && db'.deliveries[d].state == db.deliveries[d].state
               && db'.deliveries[d].consumer == db.deliveries[d].consumer
    ensures OccupiedFalls(db, db')
  {
    forall c
      ensures |FlyingIn(db', c)| <= |FlyingIn(db, c)| && |ReadyIn(db', Only(c))| <= |ReadyIn(db, Only(c))|
    {
      assert forall d :: d in FlyingIn(db', c) ==> d in FlyingIn(db, c);
      assert forall d :: d in ReadyIn(db', Only(c)) ==> d in ReadyIn(db, Only(c));
      SubsetSize(FlyingIn(db', c), FlyingIn(db, c));
      SubsetSize(ReadyIn(db', Only(c)), ReadyIn(db, Only(c)));
    }
  }

  lemma CompleteEntersNothing(sim: Simulation, w: World, a: Action, w': World)
    requires a.Complete? && Next(sim, w, a, w')
    ensures OccupiedFalls(w.db, w'.db)
  {
    forall d | d in w.db.deliveries && w'.db.deliveries[d].state != Pending && !w'.db.deliveries[d].state.Terminal()
      ensures w'.db.deliveries[d] == w.db.deliveries[d]
    {
      if d in DeliveriesOf(a.outcomes) { var c :| c in a.outcomes && c.claimed.delivery == d; }
    }
    NothingEnters(w.db, w'.db);
  }

  lemma OthersEnterNothing(sim: Simulation, w: World, a: Action, w': World)
    requires Next(sim, w, a, w') && !(a.Commit? || a.Complete? || a.Admit? || a.DropCondemned?)
    ensures OccupiedFalls(w.db, w'.db)
  {
    if a.Ingest? {
      forall d | d in w'.db.deliveries && d !in w.db.deliveries
        ensures w'.db.deliveries[d].state == Pending
      {
        assert FansOut(w.db, w'.db, sim.subscriptions, w'.db.deliveries[d].event, d, w'.db.deliveries[d].consumer);
      }
    }
    NothingEnters(w.db, w'.db);
  }

  lemma DropsEnterNothing(sim: Simulation, w: World, a: Action, w': World)
    requires ConductorOk(w) && a.DropCondemned? && Next(sim, w, a, w')
    ensures OccupiedFalls(w.db, w'.db)
  {
    assert forall d :: d in w.conductor.drops ==> w.conductor.drops[d] == Expired || w.conductor.drops[d] == Superseded;
    NothingEnters(w.db, w'.db);
  }

  lemma ConductorIsOk(sim: Simulation, w: World)
    requires Inv(sim, w)
    ensures ConductorOk(w)
  {
  }

  lemma StepsLowerOccupied(sim: Simulation, w: World, a: Action, w': World)
    requires Inv(sim, w) && Next(sim, w, a, w') && !a.Admit?
    ensures OccupiedFalls(w.db, w'.db)
  {
    hide *;
    if a.Commit? {
      CommitLowers(sim, w, a, w');
    } else if a.Complete? {
      CompleteEntersNothing(sim, w, a, w');
    } else if a.DropCondemned? {
      ConductorIsOk(sim, w);
      DropsEnterNothing(sim, w, a, w');
    } else {
      OthersEnterNothing(sim, w, a, w');
    }
  }

  lemma CommitLowers(sim: Simulation, w: World, a: Action, w': World)
    requires Inv(sim, w) && a.Commit? && Next(sim, w, a, w')
    ensures OccupiedFalls(w.db, w'.db)
  {
    hide Inv, Next;
    forall c
      ensures Occupied(w'.db, c) <= Occupied(w.db, c)
    {
      ClaimKeepsOccupied(sim, w, a, w', c);
    }
  }

  // ---- What a pass has yet to add ----

  /** An open gate leaves room for `more` under the bound. */
  ghost predicate RoomFor(sim: Simulation, db: Tables, slack: nat, c: ConsumerId, more: int) {
    c in sim.consumers && Occupied(db, c) + more <= sim.consumers[c].concurrencyCap - 1 + Lag(sim, slack)
  }

  ghost predicate GaugeOk(sim: Simulation, db: Tables, slack: nat, g: map<ConsumerId, Gauge>, c: ConsumerId)
    requires c in g
  {
    && Occupied(db, c) <= g[c].inFlight + g[c].ready
    && g[c].ready <= BufferTarget(sim)
  }

  ghost predicate OpenGatesFit(sim: Simulation, db: Tables, slack: nat, g: map<ConsumerId, Gauge>, more: int) {
    && g.Keys == sim.consumers.Keys
    && forall c {:trigger RoomFor(sim, db, slack, c, more)} ::
         c in g && g[c].inFlight < sim.consumers[c].concurrencyCap ==> RoomFor(sim, db, slack, c, more)
  }

  ghost predicate AllowedFit(sim: Simulation, db: Tables, slack: nat, slots: int, allow: map<ConsumerId, int>) {
    forall c {:trigger RoomFor(sim, db, slack, c, slots)} :: c in allow && allow[c] > 0 ==>
        RoomFor(sim, db, slack, c, slots)
  }

  ghost predicate AdmittedFit(sim: Simulation, db: Tables, slack: nat, admit: set<DeliveryId>) {
    forall c {:trigger Rows(db, Only(c), admit)} ::
      Rows(db, Only(c), admit) != {} ==> RoomFor(sim, db, slack, c, |Rows(db, Only(c), admit)|)
  }

  ghost predicate PassGated(sim: Simulation, w: World, slack: nat) {
    w.conductor != Away ==>
      w.conductor.pass.fair
      && match w.conductor
         case Gauged(_, g) => g.Keys == sim.consumers.Keys
             && forall c {:trigger GaugeOk(sim, w.db, slack, g, c)} :: c in g ==> GaugeOk(sim, w.db, slack, g, c)
         case ReadyCounted(_, g, ready) => OpenGatesFit(sim, w.db, slack, g, BufferTarget(sim) - ready)
         case Budgeted(_, g, b) => b.Slots() > 0 ==> OpenGatesFit(sim, w.db, slack, g, b.Slots())
         case DemandRead(_, g, b, _) => OpenGatesFit(sim, w.db, slack, g, b.Slots())
         case Surveyed(_, slots, allow) => AllowedFit(sim, w.db, slack, slots, allow)
         case Fetched(_, slots, allow, _) => AllowedFit(sim, w.db, slack, slots, allow)
         case Decided(_, _, admit) => AdmittedFit(sim, w.db, slack, admit)
         case Dropped(_, admit) => AdmittedFit(sim, w.db, slack, admit)
         case _ => true
  }

  ghost predicate Bounded(sim: Simulation, db: Tables, slack: nat, c: ConsumerId) {
    c in sim.consumers ==> Occupied(db, c) <= sim.consumers[c].concurrencyCap - 1 + Lag(sim, slack)
  }

  ghost predicate GateInv(sim: Simulation, w: World, slack: nat) {
    && (forall c {:trigger Bounded(sim, w.db, slack, c)} :: Bounded(sim, w.db, slack, c))
    && PassGated(sim, w, slack)
  }

  /** Since the gauges were read, no more than `slack` of the consumer's rows went in flight on balance. */
  ghost predicate GapWithin(w: World, slack: nat, c: ConsumerId) {
    w.conductor.Gauged? && c in w.conductor.gauges ==> |FlyingIn(w.db, c)| <= w.conductor.gauges[c].inFlight + slack
  }

  /** Fair drain stays on, and at each ready count the gap since the gauge read is within the slack. */
  ghost predicate GateStep(w: World, a: Action, slack: nat) {
    && (a.Begin? ==> a.fair)
    && (a.CountReady? ==> forall c {:trigger GapWithin(w, slack, c)} :: GapWithin(w, slack, c))
  }

  lemma AdmitRowsSame(db: Tables, db': Tables, admit: set<DeliveryId>, c: ConsumerId)
    requires forall d :: d in admit ==>
        d in db.deliveries && d in db'.deliveries && db'.deliveries[d].consumer == db.deliveries[d].consumer
    ensures Rows(db', Only(c), admit) == Rows(db, Only(c), admit)
  {
    assert forall d :: d in Rows(db', Only(c), admit) <==> d in Rows(db, Only(c), admit);
  }

  /** A step that admits nothing and leaves the conductor where it is keeps what it has yet to add in bounds. */
  lemma StillGated(sim: Simulation, w: World, w': World, slack: nat)
    requires GateInv(sim, w, slack) && ConductorOk(w) && w'.conductor == w.conductor
    requires OccupiedFalls(w.db, w'.db) && LeavesPending(w.db, w'.db)
    ensures GateInv(sim, w', slack)
  {
    hide BufferTarget, Occupied, FlyingIn, Lag;
    forall c
      ensures Bounded(sim, w'.db, slack, c)
    {
      assert Bounded(sim, w.db, slack, c);
      assert Occupied(w'.db, c) <= Occupied(w.db, c);
    }
    match w.conductor
    case Gauged(_, g) =>
      forall c | c in g
        ensures GaugeOk(sim, w'.db, slack, g, c)
      {
        assert GaugeOk(sim, w.db, slack, g, c) && Occupied(w'.db, c) <= Occupied(w.db, c);
      }
    case ReadyCounted(_, g, ready) => GatesStillFit(sim, w.db, w'.db, slack, g, BufferTarget(sim) - ready);
    case Budgeted(_, g, b) => if b.Slots() > 0 { GatesStillFit(sim, w.db, w'.db, slack, g, b.Slots()); }
    case DemandRead(_, g, b, _) => GatesStillFit(sim, w.db, w'.db, slack, g, b.Slots());
    case Surveyed(_, slots, allow) => AllowedStillFit(sim, w.db, w'.db, slack, slots, allow);
    case Fetched(_, slots, allow, _) => AllowedStillFit(sim, w.db, w'.db, slack, slots, allow);
    case Decided(_, _, admit) => PendingStillFit(sim, w, w', slack, admit);
    case Dropped(_, admit) => PendingStillFit(sim, w, w', slack, admit);
    case _ =>
  }

  lemma GatesStillFit(sim: Simulation, db: Tables, db': Tables, slack: nat, g: map<ConsumerId, Gauge>, more: int)
    requires OpenGatesFit(sim, db, slack, g, more) && OccupiedFalls(db, db')
    ensures OpenGatesFit(sim, db', slack, g, more)
  {
    hide Occupied, Lag;
    forall c | c in g && g[c].inFlight < sim.consumers[c].concurrencyCap
      ensures RoomFor(sim, db', slack, c, more)
    {
      assert RoomFor(sim, db, slack, c, more) && Occupied(db', c) <= Occupied(db, c);
    }
  }

  lemma AllowedStillFit(sim: Simulation, db: Tables, db': Tables, slack: nat, slots: int, allow: map<ConsumerId, int>)
    requires AllowedFit(sim, db, slack, slots, allow) && OccupiedFalls(db, db')
    ensures AllowedFit(sim, db', slack, slots, allow)
  {
    hide Occupied, Lag;
    forall c | c in allow && allow[c] > 0
      ensures RoomFor(sim, db', slack, c, slots)
    {
      assert RoomFor(sim, db, slack, c, slots) && Occupied(db', c) <= Occupied(db, c);
    }
  }

  lemma PendingStillFit(sim: Simulation, w: World, w': World, slack: nat, admit: set<DeliveryId>)
    requires AdmittedFit(sim, w.db, slack, admit) && OccupiedFalls(w.db, w'.db)
    requires LeavesPending(w.db, w'.db) && forall d :: d in admit ==> PendingAt(w.db, d)
    ensures AdmittedFit(sim, w'.db, slack, admit)
  {
    hide Occupied, Lag;
    assert forall d :: d in admit ==> PendingAt(w.db, d);
    forall c | Rows(w'.db, Only(c), admit) != {}
      ensures RoomFor(sim, w'.db, slack, c, |Rows(w'.db, Only(c), admit)|)
    {
      AdmitRowsSame(w.db, w'.db, admit, c);
      assert Rows(w.db, Only(c), admit) != {} && Occupied(w'.db, c) <= Occupied(w.db, c);
    }
  }

  // ---- The conductor's own steps ----

  lemma GaugesGate(sim: Simulation, w: World, a: Action, w': World, slack: nat)
    requires GateInv(sim, w, slack) && RateInv(sim, w) && a.ReadGauges? && Next(sim, w, a, w')
    ensures PassGated(sim, w', slack)
  {
    hide BufferTarget, RateCap, Lag, PassFits;
    var g := w'.conductor.gauges;
    forall c | c in g
      ensures GaugeOk(sim, w.db, slack, g, c)
    {
      assert forall d :: d in ReadyIn(w.db, Only(c)) ==> d in ReadyIn(w.db, Everyone);
      SubsetSize(ReadyIn(w.db, Only(c)), ReadyIn(w.db, Everyone));
    }
  }

  /** What the open gates leave once the ready rows are counted. */
  lemma ReadyGate(sim: Simulation, w: World, a: Action, w': World, slack: nat)
    requires GateInv(sim, w, slack) && a.CountReady? && Next(sim, w, a, w') && GateStep(w, a, slack)
    ensures PassGated(sim, w', slack)
  {
    hide BufferTarget, IsFinished, IsOutage, Backlog;
    var g, ready := w.conductor.gauges, |ReadyIn(w.db, Everyone)|;
    forall c | c in g && g[c].inFlight < sim.consumers[c].concurrencyCap
      ensures RoomFor(sim, w.db, slack, c, BufferTarget(sim) - ready)
    {
      assert GaugeOk(sim, w.db, slack, g, c) && GapWithin(w, slack, c);
      assert forall d :: d in ReadyIn(w.db, Only(c)) ==> d in ReadyIn(w.db, Everyone);
      SubsetSize(ReadyIn(w.db, Only(c)), ReadyIn(w.db, Everyone));
    }
  }

  lemma BudgetSays(sim: Simulation, w: World, a: Action, w': World)
    requires a.CountAttempts? && Next(sim, w, a, w')
    ensures w.conductor.ReadyCounted? && w'.db == w.db && w'.conductor.Budgeted?
    ensures w'.conductor.pass == w.conductor.pass && w'.conductor.gauges == w.conductor.gauges
    ensures w'.conductor.budget.bufferSlots == BufferTarget(sim) - w.conductor.ready
  {
    hide BufferTarget, RateCap, Window;
  }

  lemma BudgetGate(sim: Simulation, w: World, a: Action, w': World, slack: nat)
    requires GateInv(sim, w, slack) && a.CountAttempts? && Next(sim, w, a, w')
    ensures PassGated(sim, w', slack)
  {
    hide Next, BufferTarget, RateCap, Occupied, Lag;
    BudgetSays(sim, w, a, w');
    var g, b := w.conductor.gauges, w'.conductor.budget;
    if b.Slots() > 0 {
      forall c | c in g && g[c].inFlight < sim.consumers[c].concurrencyCap
        ensures RoomFor(sim, w.db, slack, c, b.Slots())
      {
        assert RoomFor(sim, w.db, slack, c, BufferTarget(sim) - w.conductor.ready);
      }
    }
  }

  lemma SurveyGate(sim: Simulation, w: World, a: Action, w': World, slack: nat)
    requires GateInv(sim, w, slack) && PassFits(sim, w) && a.Survey? && Next(sim, w, a, w')
    ensures PassGated(sim, w', slack)
  {
    hide Next, BufferTarget, RateCap, Occupied, Lag, Headrooms, Allows, Used, SlotsFit, AllowFits, RoomFor;
    SurveySays(sim, w, a, w');
    GatedSurvey(sim, w, a.allowances, slack);
  }

  lemma GatedSurvey(sim: Simulation, w: World, allow: map<ConsumerId, int>, slack: nat)
    requires w.conductor.DemandRead? && PassGated(sim, w, slack) && PassFits(sim, w)
    requires var c := w.conductor;
             var used := Used(w.db, sim.consumers.Keys, c.pass.now - sim.settings.windowS);
             Allows(sim, Headrooms(sim, c.demand, used, c.gauges, !c.pass.fair), c.budget.Slots(), c.pass.fair, allow)
    ensures AllowedFit(sim, w.db, slack, w.conductor.budget.Slots(), allow)
  {
    hide BufferTarget, RateCap, Occupied, Lag, Headrooms, Allows, Used, SlotsFit, RoomFor;
    var c, from := w.conductor, w.conductor.pass.now - sim.settings.windowS;
    forall x | x in allow && allow[x] > 0
      ensures RoomFor(sim, w.db, slack, x, c.budget.Slots())
    {
      AllowanceFits(sim, c.demand, Used(w.db, sim.consumers.Keys, from), c.gauges, c.pass.fair, c.budget.Slots(),
          allow, x);
      assert RoomFor(sim, w.db, slack, x, c.budget.Slots());
    }
  }

  lemma DecideGate(sim: Simulation, w: World, a: Action, w': World, slack: nat)
    requires GateInv(sim, w, slack) && ConductorOk(w) && a.Decide? && Next(sim, w, a, w')
    ensures PassGated(sim, w', slack)
  {
    hide BufferTarget, Occupied, Lag;
    var admit := IdSet(a.admitted);
    IdSetSize(a.admitted);
    forall c | Rows(w.db, Only(c), admit) != {}
      ensures RoomFor(sim, w.db, slack, c, |Rows(w.db, Only(c), admit)|)
    {
      AdmittedOf(sim, w, a, c);
      SubsetSize(Rows(w.db, Only(c), admit), admit);
      var d := Member(Rows(w.db, Only(c), admit));
      assert |Rows(w.db, Only(c), admit)| > 0;
      assert RoomFor(sim, w.db, slack, c, w.conductor.slots);
    }
  }

  lemma AdmitGate(sim: Simulation, w: World, a: Action, w': World, slack: nat)
    requires GateInv(sim, w, slack) && ConductorOk(w) && a.Admit? && Next(sim, w, a, w')
    ensures GateInv(sim, w', slack)
  {
    hide BufferTarget, Lag;
    var admit := w.conductor.admit;
    assert forall d :: d in admit ==> PendingAt(w.db, d);
    forall c
      ensures Bounded(sim, w'.db, slack, c)
    {
      assert Bounded(sim, w.db, slack, c);
      MarkFillsBuffer(w.db, w'.db, admit, w.conductor.pass.now, Only(c));
      FlyingUntouched(w.db, w'.db, admit, w.conductor.pass.now, c);
      assert Rows(w.db, Only(c), admit) != {} ==> RoomFor(sim, w.db, slack, c, |Rows(w.db, Only(c), admit)|);
    }
  }

  lemma FlyingUntouched(db: Tables, db': Tables, admit: set<DeliveryId>, now: Time, c: ConsumerId)
    requires MarksReady(db, db', admit, now) && forall d :: d in admit ==> PendingAt(db, d)
    ensures FlyingIn(db', c) == FlyingIn(db, c)
  {
    forall d
      ensures d in FlyingIn(db', c) <==> d in FlyingIn(db, c)
    {
      assert d in admit ==> PendingAt(db, d);
    }
  }

  lemma OtherReadsGate(sim: Simulation, w: World, a: Action, w': World, slack: nat)
    requires GateInv(sim, w, slack) && Next(sim, w, a, w') && (a.Finish? || a.ReadDemand? || a.Fetch? || a.Quit?)
    ensures PassGated(sim, w', slack)
  {
    hide BufferTarget, Occupied, Lag, FairFetch, FifoFetch;
  }

  lemma ReadsGate(sim: Simulation, w: World, a: Action, w': World, slack: nat)
    requires Inv(sim, w) && RateInv(sim, w) && GateInv(sim, w, slack) && Next(sim, w, a, w')
        && (Reads(a) || a.Decide?) && GateStep(w, a, slack)
    ensures GateInv(sim, w', slack)
  {
    hide BufferTarget, RateCap, Occupied, Lag, Next, Sound;
    ReadKeepsTables(sim, w, a, w');
    if a.ReadGauges? {
      GaugesGate(sim, w, a, w', slack);
    } else if a.CountReady? {
      ReadyGate(sim, w, a, w', slack);
    } else if a.CountAttempts? {
      BudgetGate(sim, w, a, w', slack);
    } else if a.Survey? {
      SurveyGate(sim, w, a, w', slack);
    } else if a.Decide? {
      DecideGate(sim, w, a, w', slack);
    } else {
      OtherReadsGate(sim, w, a, w', slack);
    }
    forall c
      ensures Bounded(sim, w'.db, slack, c)
    {
      assert Bounded(sim, w.db, slack, c);
    }
  }

  lemma BeginGate(sim: Simulation, w: World, a: Action, w': World, slack: nat)
    requires GateInv(sim, w, slack) && a.Begin? && a.fair && Next(sim, w, a, w') && OccupiedFalls(w.db, w'.db)
    ensures GateInv(sim, w', slack)
  {
    hide BufferTarget, Occupied, Lag, Reclaims;
    forall c
      ensures Bounded(sim, w'.db, slack, c)
    {
      assert Bounded(sim, w.db, slack, c) && Occupied(w'.db, c) <= Occupied(w.db, c);
    }
  }

  lemma DropGate(sim: Simulation, w: World, a: Action, w': World, slack: nat)
    requires GateInv(sim, w, slack) && ConductorOk(w) && a.DropCondemned? && Next(sim, w, a, w')
        && OccupiedFalls(w.db, w'.db)
    ensures GateInv(sim, w', slack)
  {
    hide BufferTarget, Occupied, Lag;
    var admit := w.conductor.admit;
    forall c
      ensures Bounded(sim, w'.db, slack, c)
    {
      assert Bounded(sim, w.db, slack, c) && Occupied(w'.db, c) <= Occupied(w.db, c);
    }
    assert forall d :: d in admit ==> PendingAt(w.db, d);
    forall c | Rows(w'.db, Only(c), admit) != {}
      ensures RoomFor(sim, w'.db, slack, c, |Rows(w'.db, Only(c), admit)|)
    {
      AdmitRowsSame(w.db, w'.db, admit, c);
      assert Rows(w.db, Only(c), admit) != {} && Occupied(w'.db, c) <= Occupied(w.db, c);
    }
  }

  lemma NextKeepsGate(sim: Simulation, w: World, a: Action, w': World, slack: nat)
    requires Inv(sim, w) && RateInv(sim, w) && GateInv(sim, w, slack) && Next(sim, w, a, w') && GateStep(w, a, slack)
    ensures GateInv(sim, w', slack)
  {
    hide *;
    Kinds(a);
    ConductorIsOk(sim, w);
    FairBegins(w, a, slack);
    if a.Admit? {
      AdmitGate(sim, w, a, w', slack);
    } else {
      StepsLowerOccupied(sim, w, a, w');
      if Outside(a) {
        OutsideLeavesPending(sim, w, a, w');
        StillGated(sim, w, w', slack);
      } else if a.Begin? {
        BeginGate(sim, w, a, w', slack);
      } else if a.DropCondemned? {
        DropGate(sim, w, a, w', slack);
      } else {
        ReadsGate(sim, w, a, w', slack);
      }
    }
  }

  lemma FairBegins(w: World, a: Action, slack: nat)
    requires GateStep(w, a, slack)
    ensures a.Begin? ==> a.fair
  {
  }

  lemma InitialGate(sim: Simulation, w: World, slack: nat)
    requires Initial(w)
    ensures GateInv(sim, w, slack)
  {
    CapsAreNotNegative(sim, Everyone);
    forall c
      ensures Bounded(sim, w.db, slack, c)
    {
      assert FlyingIn(w.db, c) == {} && ReadyIn(w.db, Only(c)) == {};
    }
  }

  /**
    * While fair drain stays on, no consumer ever holds more than its cap, less one, plus one ready buffer, plus
    * what went in flight between a pass's gauge read and its ready count.
    */
  lemma {:induction false} GateLagIsBounded(sim: Simulation, ws: seq<World>, acts: seq<Action>, n: nat, slack: nat)
    requires Run(sim, ws, acts) && Initial(ws[0]) && n <= |acts|
    requires forall i :: 0 <= i < n ==> GateStep(ws[i], acts[i], slack)
    ensures GateInv(sim, ws[n], slack)
    ensures forall c :: c in sim.consumers ==>
              |InState(ws[n].db, Only(c), InFlight)| + |InState(ws[n].db, Only(c), Ready)|
              <= sim.consumers[c].concurrencyCap - 1 + BufferTarget(sim) + slack
  {
    hide Inv, RateInv, Next, Initial, GateStep, BufferTarget, PassGated;
    if n == 0 {
      InitialGate(sim, ws[0], slack);
    } else {
      GateLagIsBounded(sim, ws, acts, n - 1, slack);
      RunKeepsRate(sim, ws, acts, n - 1);
      NextKeepsGate(sim, ws[n - 1], acts[n - 1], ws[n], slack);
    }
    forall c | c in sim.consumers
      ensures |InState(ws[n].db, Only(c), InFlight)| + |InState(ws[n].db, Only(c), Ready)|
           <= sim.consumers[c].concurrencyCap - 1 + BufferTarget(sim) + slack
    {
      assert Bounded(sim, ws[n].db, slack, c);
    }
  }

  /** The gap is never wider than the buffer, so two buffers are a bound for every fair run. */
  lemma {:induction false} GateLagIsTwoBuffers(sim: Simulation, ws: seq<World>, acts: seq<Action>, n: nat,
      c: ConsumerId)
    requires Run(sim, ws, acts) && Initial(ws[0]) && n <= |acts| && c in sim.consumers
    requires forall i :: 0 <= i < n && acts[i].Begin? ==> acts[i].fair
    ensures BufferTarget(sim) >= 0
    ensures |InState(ws[n].db, Only(c), InFlight)| + |InState(ws[n].db, Only(c), Ready)|
         <= sim.consumers[c].concurrencyCap - 1 + 2 * BufferTarget(sim)
  {
    hide Next, Initial, BufferTarget, GateInv;
    CapsAreNotNegative(sim, Everyone);
    var slack: nat := BufferTarget(sim);
    GapsFitBuffer(sim, ws, acts, n, slack);
    GateLagIsBounded(sim, ws, acts, n, slack);
  }

  lemma {:induction false} GapsFitBuffer(sim: Simulation, ws: seq<World>, acts: seq<Action>, n: nat, slack: nat)
    requires Run(sim, ws, acts) && Initial(ws[0]) && n <= |acts| && slack == BufferTarget(sim)
    requires forall i :: 0 <= i < n && acts[i].Begin? ==> acts[i].fair
    ensures forall i :: 0 <= i < n ==> GateStep(ws[i], acts[i], slack)
  {
    hide Next, Initial, BufferTarget, GateInv;
    if n > 0 {
      GapsFitBuffer(sim, ws, acts, n - 1, slack);
      GateLagIsBounded(sim, ws, acts, n - 1, slack);
      GaugesBoundGap(sim, ws[n - 1], acts[n - 1], slack);
    }
  }

  lemma GaugesBoundGap(sim: Simulation, w: World, a: Action, slack: nat)
    requires GateInv(sim, w, slack) && slack == BufferTarget(sim) && (a.Begin? ==> a.fair)
    ensures GateStep(w, a, slack)
  {
    hide BufferTarget;
    if w.conductor.Gauged? {
      forall c | c in w.conductor.gauges
        ensures GapWithin(w, slack, c)
      {
        assert GaugeOk(sim, w.db, slack, w.conductor.gauges, c);
      }
    }
  }
}
