/**
 * The sliding-window caps over whole runs, whatever is committed between the statements of a pass
 * (app/conductor/admission.py, app/conductor/service.py).
 */
module Caps {
  import opened Model
  import opened Sets
  import opened Policies
  import opened Lifecycle
  import opened Allocator
  import opened Admission
  import opened Fences
  import opened Machine
  import opened Runs

  ghost function ReadyIn(db: Tables, scope: Scope): set<DeliveryId> { InState(db, scope, Ready) }

  /** Attempts since `from`, and admissions that have not become attempts yet. */
  ghost function Load(db: Tables, scope: Scope, from: Time): int {
    |Window(db, scope, from)| + |ReadyIn(db, scope)|
  }

  ghost function Between(db: Tables, scope: Scope, lo: Time, hi: Time): set<AttemptId> {
    set a | a in db.attempts && scope.Covers(db.attempts[a].consumer) && lo <= db.attempts[a].startedAt <= hi
  }

  ghost predicate LockedDuring(w: World, d: DeliveryId, lo: Time, hi: Time) {
    exists k :: k in w.workers && w.workers[k].Claiming? && lo <= w.workers[k].stamp <= hi && d in w.workers[k].rows
  }

  /** Rows locked by claim transactions whose attempts will carry a start in [lo, hi]. */
  ghost function Locked(w: World, scope: Scope, lo: Time, hi: Time): set<DeliveryId> {
    set d | d in w.db.deliveries && scope.Covers(w.db.deliveries[d].consumer) && LockedDuring(w, d, lo, hi)
  }

  ghost function Rows(db: Tables, scope: Scope, rows: set<DeliveryId>): set<DeliveryId> {
    set d | d in rows && d in db.deliveries && scope.Covers(db.deliveries[d].consumer)
  }

  // ---- A claim spends exactly what it takes from the ready buffer ----

  lemma ClaimSpends(
    db: Tables, db': Tables, worker: WorkerId, rows: set<DeliveryId>, ids: map<DeliveryId, AttemptId>, now: Time,
    policies: map<Stream, Policy>, s: Settings, scope: Scope) returns (started: set<AttemptId>)
    requires Claims(db, db', worker, rows, ids, now, policies, s)
    requires forall d :: d in rows ==> ReadyAt(db, d)
    ensures started !! db.attempts.Keys && |started| <= |Rows(db, scope, rows)|
    ensures forall a :: a in db'.attempts && a !in db.attempts && scope.Covers(db'.attempts[a].consumer) ==>
              a in started && db'.attempts[a].startedAt == now
    ensures Rows(db, scope, rows) <= ReadyIn(db, scope)
    ensures ReadyIn(db', scope) == ReadyIn(db, scope) - Rows(db, scope, rows)
  {
    var live := Rows(db, scope, ids.Keys);
    started := Image(live, ids);
    ImageSize(live, ids);
    assert live <= Rows(db, scope, rows);
    SubsetSize(live, Rows(db, scope, rows));
    forall a | a in started
      ensures a !in db.attempts
    {
      var d :| d in live && ids[d] == a;
      assert d in ids;
    }
    forall a | a in db'.attempts && a !in db.attempts && scope.Covers(db'.attempts[a].consumer)
      ensures a in started && db'.attempts[a].startedAt == now
    {
      assert Names(ids, a);
      var d :| d in ids && ids[d] == a;
      assert d in live;
    }
    assert forall d :: d in Rows(db, scope, rows) ==> d in ReadyIn(db, scope);
    assert forall d :: d in ReadyIn(db', scope) <==> d in ReadyIn(db, scope) - Rows(db, scope, rows);
  }

  lemma ClaimKeepsLoad(
    db: Tables, db': Tables, worker: WorkerId, rows: set<DeliveryId>, ids: map<DeliveryId, AttemptId>, now: Time,
    policies: map<Stream, Policy>, s: Settings, scope: Scope, from: Time)
    requires Claims(db, db', worker, rows, ids, now, policies, s)
    requires forall d :: d in rows ==> ReadyAt(db, d)
    ensures Load(db', scope, from) <= Load(db, scope, from)
  {
    var started := ClaimSpends(db, db', worker, rows, ids, now, policies, s, scope);
    assert forall a :: a in Window(db', scope, from) ==> a in Window(db, scope, from) + started;
    SubsetSize(Window(db', scope, from), Window(db, scope, from) + started);
  }

  // ---- What steps outside the conductor may do between its statements ----

  ghost predicate LoadFalls(db: Tables, db': Tables) {
    && (forall scope {:trigger ReadyIn(db', scope)} :: ReadyIn(db', scope) <= ReadyIn(db, scope))
    && (forall scope, from {:trigger Load(db', scope, from)} :: Load(db', scope, from) <= Load(db, scope, from))
  }

  lemma SameStartsSameLoad(db: Tables, db': Tables)
    requires SameAttempts(db, db')
    requires forall d :: ReadyAt(db', d) <==> ReadyAt(db, d)
    requires forall d :: ReadyAt(db, d) && ReadyAt(db', d) ==> db'.deliveries[d].consumer == db.deliveries[d].consumer
    ensures LoadFalls(db, db')
  {
    forall scope
      ensures ReadyIn(db', scope) == ReadyIn(db, scope)
    {
      forall d
        ensures d in ReadyIn(db', scope) <==> d in ReadyIn(db, scope)
      {
        assert ReadyAt(db', d) <==> ReadyAt(db, d);
      }
    }
    forall scope, from
      ensures Load(db', scope, from) <= Load(db, scope, from)
    {
      assert forall a :: a in Window(db', scope, from) <==> a in Window(db, scope, from);
      assert Window(db', scope, from) == Window(db, scope, from);
      assert ReadyIn(db', scope) == ReadyIn(db, scope);
    }
  }

  lemma CommitLoadFalls(sim: Simulation, w: World, a: Action, w': World)
    requires Inv(sim, w) && a.Commit? && Next(sim, w, a, w')
    ensures LoadFalls(w.db, w'.db)
  {
    assert WorkerOk(w, a.worker);
    var rows, stamp := w.workers[a.worker].rows, w.workers[a.worker].stamp;
    forall scope
      ensures ReadyIn(w'.db, scope) <= ReadyIn(w.db, scope)
    {
      var started := ClaimSpends(w.db, w'.db, a.worker, rows, a.ids, stamp, sim.policies, sim.settings, scope);
    }
    forall scope, from
      ensures Load(w'.db, scope, from) <= Load(w.db, scope, from)
    {
      ClaimKeepsLoad(w.db, w'.db, a.worker, rows, a.ids, stamp, sim.policies, sim.settings, scope, from);
    }
  }

  lemma CompleteLoadFalls(sim: Simulation, w: World, a: Action, w': World)
    requires Inv(sim, w) && a.Complete? && Next(sim, w, a, w')
    ensures LoadFalls(w.db, w'.db)
  {
    CompleteStep(sim, w, a, w');
    forall d
      ensures ReadyAt(w'.db, d) <==> ReadyAt(w.db, d)
      ensures ReadyAt(w.db, d) ==> w'.db.deliveries[d] == w.db.deliveries[d]
    {
      if d in DeliveriesOf(a.outcomes) {
        var c :| c in a.outcomes && c.claimed.delivery == d;
      }
    }
    SameStartsSameLoad(w.db, w'.db);
  }

  lemma IngestLoadFalls(sim: Simulation, w: World, a: Action, w': World)
    requires Inv(sim, w) && a.Ingest? && Next(sim, w, a, w')
    ensures LoadFalls(w.db, w'.db)
  {
    forall d
      ensures ReadyAt(w'.db, d) <==> ReadyAt(w.db, d)
    {
      if d in w'.db.deliveries && d !in w.db.deliveries {
        assert FansOut(w.db, w'.db, sim.subscriptions, w'.db.deliveries[d].event, d, w'.db.deliveries[d].consumer);
      }
    }
    SameStartsSameLoad(w.db, w'.db);
  }

  lemma ReclaimLoadFalls(sim: Simulation, w: World, a: Action, w': World)
    requires Inv(sim, w) && a.Begin? && Next(sim, w, a, w')
    ensures LoadFalls(w.db, w'.db)
  {
    ReclaimStep(sim, w, a, w');
    forall d
      ensures ReadyAt(w'.db, d) <==> ReadyAt(w.db, d)
    {
    }
    SameStartsSameLoad(w.db, w'.db);
  }

  lemma DropLoadFalls(sim: Simulation, w: World, a: Action, w': World)
    requires Inv(sim, w) && a.DropCondemned? && Next(sim, w, a, w')
    ensures LoadFalls(w.db, w'.db)
  {
    forall d
      ensures ReadyAt(w'.db, d) <==> ReadyAt(w.db, d)
    {
      assert d in w.conductor.drops ==> PendingAt(w.db, d);
    }
    SameStartsSameLoad(w.db, w'.db);
  }

  // ---- What the pass has read still covers what is there ----

  ghost predicate GaugesCover(sim: Simulation, db: Tables, gauges: map<ConsumerId, Gauge>) {
    gauges.Keys == sim.consumers.Keys && forall c :: c in gauges ==> |ReadyIn(db, Only(c))| <= gauges[c].ready
  }

  ghost predicate SlotsFit(sim: Simulation, db: Tables, slots: int, from: Time) {
    slots > 0 ==>
      && slots + Load(db, Everyone, from) <= RateCap(sim, Everyone)
      && slots + |ReadyIn(db, Everyone)| <= BufferTarget(sim)
  }

  ghost predicate AllowFits(sim: Simulation, db: Tables, allow: map<ConsumerId, int>, from: Time) {
    forall c :: c in allow && allow[c] > 0 ==> allow[c] + Load(db, Only(c), from) <= RateCap(sim, Only(c))
  }

  ghost predicate AdmitFitsIn(sim: Simulation, db: Tables, admit: set<DeliveryId>, from: Time, scope: Scope) {
    Rows(db, scope, admit) != {} ==> |Rows(db, scope, admit)| + Load(db, scope, from) <= RateCap(sim, scope)
  }

  ghost predicate AdmitFits(sim: Simulation, db: Tables, admit: set<DeliveryId>, from: Time) {
    && (forall scope {:trigger AdmitFitsIn(sim, db, admit, from, scope)} :: AdmitFitsIn(sim, db, admit, from, scope))
    && (admit != {} ==> |admit| + |ReadyIn(db, Everyone)| <= BufferTarget(sim))
  }

  ghost predicate PassFits(sim: Simulation, w: World) {
    w.conductor != Away ==>
      var from := w.conductor.pass.now - sim.settings.windowS;
      match w.conductor
      case Gauged(_, g) => GaugesCover(sim, w.db, g)
      case ReadyCounted(_, g, ready) => GaugesCover(sim, w.db, g) && |ReadyIn(w.db, Everyone)| <= ready
      case Budgeted(_, g, b) => GaugesCover(sim, w.db, g) && SlotsFit(sim, w.db, b.Slots(), from)
      case DemandRead(_, g, b, _) => GaugesCover(sim, w.db, g) && SlotsFit(sim, w.db, b.Slots(), from) && b.Slots() > 0
      case Surveyed(_, slots, allow) => SlotsFit(sim, w.db, slots, from) && AllowFits(sim, w.db, allow, from)
      case Fetched(_, slots, allow, _) => SlotsFit(sim, w.db, slots, from) && AllowFits(sim, w.db, allow, from)
      case Decided(_, _, admit) => AdmitFits(sim, w.db, admit, from)
      case Dropped(_, admit) => AdmitFits(sim, w.db, admit, from)
      case _ => true
  }

  lemma LoadFallsAt(db: Tables, db': Tables, scope: Scope, from: Time)
    requires LoadFalls(db, db')
    ensures |ReadyIn(db', scope)| <= |ReadyIn(db, scope)| && Load(db', scope, from) <= Load(db, scope, from)
  {
    SubsetSize(ReadyIn(db', scope), ReadyIn(db, scope));
  }

  lemma AdmitStillFits(sim: Simulation, db: Tables, db': Tables, admit: set<DeliveryId>, from: Time)
    requires AdmitFits(sim, db, admit, from) && LoadFalls(db, db')
    requires forall d :: d in admit ==>
        d in db.deliveries && d in db'.deliveries && db'.deliveries[d].consumer == db.deliveries[d].consumer
    ensures AdmitFits(sim, db', admit, from)
  {
    hide RateCap, BufferTarget;
    forall scope
      ensures AdmitFitsIn(sim, db', admit, from, scope)
    {
      assert AdmitFitsIn(sim, db, admit, from, scope);
      assert forall d :: d in Rows(db', scope, admit) <==> d in Rows(db, scope, admit);
      assert Rows(db', scope, admit) == Rows(db, scope, admit);
      LoadFallsAt(db, db', scope, from);
    }
    LoadFallsAt(db, db', Everyone, from);
  }

  /** Nothing outside the conductor makes what it has read an underestimate. */
  lemma PassStillFits(sim: Simulation, w: World, w': World)
    requires PassFits(sim, w) && ConductorOk(w) && w'.conductor == w.conductor
    requires LoadFalls(w.db, w'.db) && LeavesPending(w.db, w'.db)
    ensures PassFits(sim, w')
  {
    hide RateCap, BufferTarget;
    if w.conductor != Away {
      var from := w.conductor.pass.now - sim.settings.windowS;
      forall scope
        ensures |ReadyIn(w'.db, scope)| <= |ReadyIn(w.db, scope)| && Load(w'.db, scope, from) <= Load(w.db, scope, from)
      {
        LoadFallsAt(w.db, w'.db, scope, from);
      }
      match w.conductor
      case Decided(_, _, admit) =>
        assert forall d :: d in admit ==> PendingAt(w.db, d);
        AdmitStillFits(sim, w.db, w'.db, admit, from);
      case Dropped(_, admit) =>
        assert forall d :: d in admit ==> PendingAt(w.db, d);
        AdmitStillFits(sim, w.db, w'.db, admit, from);
      case _ =>
    }
  }

  // ---- The conductor's own statements ----

  /** An allowance on either arm leaves room under the consumer's cap. */
  lemma AllowanceFits(
    sim: Simulation, demand: map<ConsumerId, int>, used: map<ConsumerId, int>, gauges: map<ConsumerId, Gauge>,
    fair: bool, slots: int, allow: map<ConsumerId, int>, c: ConsumerId)
    requires slots > 0
    requires Allows(sim, Headrooms(sim, demand, used, gauges, !fair), slots, fair, allow)
    requires c in allow && allow[c] > 0 && gauges.Keys == sim.consumers.Keys
    ensures c in sim.consumers
    ensures allow[c] + Get(used, c) + gauges[c].ready <= RateCap(sim, Only(c))
    ensures fair ==> gauges[c].inFlight < sim.consumers[c].concurrencyCap
  {
    var st := StateOf(c, sim.consumers[c], demand, used, gauges);
    var h := Headroom(st, sim.settings.windowS, !fair);
    assert Headrooms(sim, demand, used, gauges, !fair)[c] == h;
    assert allow[c] <= Max(0, h);
  }

  lemma AllowancesFit(
    sim: Simulation, db: Tables, demand: map<ConsumerId, int>, gauges: map<ConsumerId, Gauge>, fair: bool, slots: int,
    allow: map<ConsumerId, int>, from: Time)
    requires slots > 0 && GaugesCover(sim, db, gauges)
    requires Allows(sim, Headrooms(sim, demand, Used(db, sim.consumers.Keys, from), gauges, !fair), slots, fair, allow)
    ensures AllowFits(sim, db, allow, from)
  {
    hide Allows, Headrooms, RateCap, BufferTarget;
    forall x | x in allow && allow[x] > 0
      ensures allow[x] + Load(db, Only(x), from) <= RateCap(sim, Only(x))
    {
      AllowanceFits(sim, demand, Used(db, sim.consumers.Keys, from), gauges, fair, slots, allow, x);
    }
  }

  lemma SurveyFits(sim: Simulation, w: World, a: Action, w': World)
    requires a.Survey? && Next(sim, w, a, w') && PassFits(sim, w)
    ensures PassFits(sim, w')
  {
    hide Next, Allows, Headrooms, RateCap, BufferTarget, Used, AllowFits, SlotsFit, GaugesCover;
    SurveySays(sim, w, a, w');
    var c := w.conductor;
    AllowancesFit(sim, w.db, c.demand, c.gauges, c.pass.fair, c.budget.Slots(), a.allowances,
        c.pass.now - sim.settings.windowS);
  }

  lemma {:induction false} IdSetSize(cs: seq<Candidate>)
    ensures |IdSet(cs)| <= |cs|
  {
    if cs == [] {
      assert IdSet(cs) == {};
    } else {
      var init := cs[..|cs| - 1];
      IdSetSize(init);
      assert forall d :: d in IdSet(cs) <==> d in IdSet(init) + {cs[|cs| - 1].id};
      assert IdSet(cs) == IdSet(init) + {cs[|cs| - 1].id};
    }
  }

  lemma AdmittedOf(sim: Simulation, w: World, a: Action, c: ConsumerId)
    requires ConductorOk(w) && w.conductor.Fetched? && a.Decide?
    requires Judged(w.db, w.conductor.candidates, sim.policies, w.conductor.pass.now, a.verdict)
    requires Rationed(a.verdict.admit, w.conductor.allow, w.conductor.slots, a.admitted)
    ensures |Rows(w.db, Only(c), IdSet(a.admitted))| <= Max(0, Get(w.conductor.allow, c))
  {
    var mine := OfConsumer(a.admitted, c);
    forall d | d in Rows(w.db, Only(c), IdSet(a.admitted))
      ensures d in IdSet(mine)
    {
      var i :| 0 <= i < |a.admitted| && a.admitted[i].id == d;
      AdmittedSurvived(w, sim, a, i);
      OfConsumerHas(a.admitted, a.admitted[i]);
      var j :| 0 <= j < |mine| && mine[j] == a.admitted[i];
    }
    SubsetSize(Rows(w.db, Only(c), IdSet(a.admitted)), IdSet(mine));
    IdSetSize(mine);
    var n :| 0 <= n <= |a.verdict.admit| && FullRation(a.verdict.admit[..n], w.conductor.allow, a.admitted);
    assert RationAt(a.verdict.admit[..n], w.conductor.allow, a.admitted, c);
  }

  lemma DecideFits(sim: Simulation, w: World, a: Action, w': World)
    requires a.Decide? && Conducts(sim, w, a, w') && PassFits(sim, w) && ConductorOk(w)
    ensures PassFits(sim, w')
  {
    hide RateCap, BufferTarget;
    var admit := IdSet(a.admitted);
    var from := w.conductor.pass.now - sim.settings.windowS;
    IdSetSize(a.admitted);
    forall scope
      ensures AdmitFitsIn(sim, w.db, admit, from, scope)
    {
      match scope
      case Everyone => SubsetSize(Rows(w.db, Everyone, admit), admit);
      case Only(c) => AdmittedOf(sim, w, a, c);
    }
  }

  /** The reads keep the pass covered. */
  lemma ReadFits(sim: Simulation, w: World, a: Action, w': World)
    requires Reads(a) && !a.Survey? && Next(sim, w, a, w') && PassFits(sim, w)
    ensures PassFits(sim, w')
  {
    hide RateCap, BufferTarget;
  }

  // ---- The invariant ----

  ghost predicate Capped(sim: Simulation, w: World, scope: Scope) {
    Load(w.db, scope, Horizon(w) - sim.settings.windowS) <= RateCap(sim, scope)
  }

  /** No window ending at t holds more starts than the cap, counting claims that will be stamped inside it. */
  ghost predicate SpanCapped(sim: Simulation, w: World, scope: Scope, t: Time) {
    |Between(w.db, scope, t - sim.settings.windowS, t)| + |Locked(w, scope, t - sim.settings.windowS, t)| <=
        RateCap(sim, scope)
  }

  ghost predicate RateInv(sim: Simulation, w: World) {
    && (forall scope {:trigger Capped(sim, w, scope)} :: Capped(sim, w, scope))
    && (forall scope, t {:trigger SpanCapped(sim, w, scope, t)} :: SpanCapped(sim, w, scope, t))
    && |ReadyIn(w.db, Everyone)| <= BufferTarget(sim)
    && PassFits(sim, w)
  }

  lemma WindowShrinks(db: Tables, scope: Scope, from: Time, later: Time)
    requires from <= later
    ensures Load(db, scope, later) <= Load(db, scope, from)
  {
    assert forall a :: a in Window(db, scope, later) ==> a in Window(db, scope, from);
    SubsetSize(Window(db, scope, later), Window(db, scope, from));
  }

  /** Steps that start nothing and lock nothing: the caps survive if the load falls and time does not run back. */
  lemma QuietStepCaps(sim: Simulation, w: World, w': World)
    requires RateInv(sim, w) && Horizon(w) <= Horizon(w')
    requires LoadFalls(w.db, w'.db)
    requires forall scope, lo, hi :: |Between(w'.db, scope, lo, hi)| <= |Between(w.db, scope, lo, hi)|
    requires forall scope, lo, hi :: |Locked(w', scope, lo, hi)| <= |Locked(w, scope, lo, hi)|
    ensures forall scope :: Capped(sim, w', scope)
    ensures forall scope, t :: SpanCapped(sim, w', scope, t)
    ensures |ReadyIn(w'.db, Everyone)| <= BufferTarget(sim)
  {
    hide RateCap, BufferTarget;
    forall scope
      ensures Capped(sim, w', scope)
    {
      assert Capped(sim, w, scope);
      WindowShrinks(w'.db, scope, Horizon(w) - sim.settings.windowS, Horizon(w') - sim.settings.windowS);
      LoadFallsAt(w.db, w'.db, scope, Horizon(w) - sim.settings.windowS);
    }
    forall scope, t
      ensures SpanCapped(sim, w', scope, t)
    {
      assert SpanCapped(sim, w, scope, t);
    }
    LoadFallsAt(w.db, w'.db, Everyone, Horizon(w));
  }

  lemma BetweenKept(db: Tables, db': Tables, scope: Scope, lo: Time, hi: Time)
    requires SameAttempts(db, db')
    ensures Between(db', scope, lo, hi) == Between(db, scope, lo, hi)
  {
    assert forall a :: a in Between(db', scope, lo, hi) <==> a in Between(db, scope, lo, hi);
  }

  /** Rows claimed under a lock are ready, so nothing but their own claim changes what is locked. */
  lemma LockedKept(w: World, w': World, scope: Scope, lo: Time, hi: Time)
    requires WorkersOk(w)
    requires forall k :: k in w'.workers && w'.workers[k].Claiming? ==> k in w.workers && w'.workers[k] == w.workers[k]
    requires forall d :: ReadyAt(w.db, d) && d in w'.db.deliveries ==>
        w'.db.deliveries[d].consumer == w.db.deliveries[d].consumer
    ensures |Locked(w', scope, lo, hi)| <= |Locked(w, scope, lo, hi)|
  {
    forall d | d in Locked(w', scope, lo, hi)
      ensures d in Locked(w, scope, lo, hi)
    {
      var k :| k in w'.workers && w'.workers[k].Claiming? && lo <= w'.workers[k].stamp <= hi && d in w'.workers[k].rows;
      assert WorkerOk(w, k);
      assert ReadyAt(w.db, d);
    }
    SubsetSize(Locked(w', scope, lo, hi), Locked(w, scope, lo, hi));
  }

  lemma QuietStep(sim: Simulation, w: World, w': World)
    requires RateInv(sim, w) && WorkersOk(w) && Horizon(w) <= Horizon(w')
    requires LoadFalls(w.db, w'.db) && SameAttempts(w.db, w'.db)
    requires forall k :: k in w'.workers && w'.workers[k].Claiming? ==> k in w.workers && w'.workers[k] == w.workers[k]
    requires forall d :: ReadyAt(w.db, d) && d in w'.db.deliveries ==>
        w'.db.deliveries[d].consumer == w.db.deliveries[d].consumer
    ensures PassFits(sim, w') ==> RateInv(sim, w')
  {
    hide RateCap, BufferTarget;
    forall scope, lo, hi
      ensures |Between(w'.db, scope, lo, hi)| <= |Between(w.db, scope, lo, hi)|
    {
      BetweenKept(w.db, w'.db, scope, lo, hi);
    }
    forall scope, lo, hi
      ensures |Locked(w', scope, lo, hi)| <= |Locked(w, scope, lo, hi)|
    {
      LockedKept(w, w', scope, lo, hi);
    }
    QuietStepCaps(sim, w, w');
  }

  lemma SameTablesQuiet(db: Tables, db': Tables)
    requires db == db'
    ensures LoadFalls(db, db') && SameAttempts(db, db') && LeavesPending(db, db')
  {
  }

  // ---- Every step keeps it ----

  lemma StillStep(sim: Simulation, w: World, a: Action, w': World)
    requires Inv(sim, w) && RateInv(sim, w) && Next(sim, w, a, w') && (a.Tick? || a.Rewrite? || a.Abandon?)
    ensures RateInv(sim, w')
  {
    hide RateCap, BufferTarget;
    TimeGoesForward(sim, w, a, w');
    SameTablesQuiet(w.db, w'.db);
    PassStillFits(sim, w, w');
    QuietStep(sim, w, w');
  }

  lemma ReadKeepsTables(sim: Simulation, w: World, a: Action, w': World)
    requires Next(sim, w, a, w') && (Reads(a) || a.Decide?)
    ensures w'.db == w.db && w'.workers == w.workers
  {
  }

  lemma ReadPassFits(sim: Simulation, w: World, a: Action, w': World)
    requires PassFits(sim, w) && ConductorOk(w) && Next(sim, w, a, w') && (Reads(a) || a.Decide?)
    ensures PassFits(sim, w')
  {
    hide PassFits, ConductorOk, RateCap, BufferTarget;
    if a.Survey? {
      SurveyFits(sim, w, a, w');
    } else if a.Decide? {
      DecideFits(sim, w, a, w');
    } else {
      ReadFits(sim, w, a, w');
    }
  }

  lemma ReadRate(sim: Simulation, w: World, a: Action, w': World)
    requires Inv(sim, w) && RateInv(sim, w) && Next(sim, w, a, w') && (Reads(a) || a.Decide?)
    ensures RateInv(sim, w')
  {
    hide RateCap, BufferTarget, PassFits, ConductorOk, WorkersOk, LoadFalls, SameAttempts;
    HorizonIsPast(sim, w);
    TimeGoesForward(sim, w, a, w');
    ReadPassFits(sim, w, a, w');
    ReadKeepsTables(sim, w, a, w');
    hide Next;
    SameTablesQuiet(w.db, w'.db);
    QuietStep(sim, w, w');
  }

  lemma IngestRate(sim: Simulation, w: World, a: Action, w': World)
    requires Inv(sim, w) && RateInv(sim, w) && a.Ingest? && Next(sim, w, a, w')
    ensures RateInv(sim, w')
  {
    hide RateCap, BufferTarget;
    TimeGoesForward(sim, w, a, w');
    IngestLoadFalls(sim, w, a, w');
    IngestStep(sim, w, a, w');
    PassStillFits(sim, w, w');
    QuietStep(sim, w, w');
  }

  lemma PartsOf(sim: Simulation, w: World)
    requires Inv(sim, w)
    ensures ConductorOk(w) && WorkersOk(w)
  {
  }

  lemma CompleteWrites(sim: Simulation, w: World, a: Action, w': World)
    requires a.Complete? && Next(sim, w, a, w')
    ensures w'.conductor == w.conductor
    ensures forall k :: k in w'.workers && w'.workers[k].Claiming? ==> k in w.workers && w'.workers[k] == w.workers[k]
    ensures forall d :: ReadyAt(w.db, d) ==> d in w'.db.deliveries && w'.db.deliveries[d] == w.db.deliveries[d]
  {
    hide Completes;
    CompleteTouchesInFlight(w.db, w'.db, a.worker, a.outcomes, Now(w), sim.settings);
  }

  lemma CompleteRate(sim: Simulation, w: World, a: Action, w': World)
    requires Inv(sim, w) && RateInv(sim, w) && a.Complete? && Next(sim, w, a, w')
    ensures RateInv(sim, w')
  {
    hide RateCap, BufferTarget, PassFits, LoadFalls, SameAttempts, Inv, Next, Horizon;
    HorizonRises(sim, w, a, w');
    CompleteLoadFalls(sim, w, a, w');
    CompleteStep(sim, w, a, w');
    CompleteWrites(sim, w, a, w');
    PartsOf(sim, w);
    hide ConductorOk, WorkersOk;
    PassStillFits(sim, w, w');
    QuietStep(sim, w, w');
  }

  lemma ReclaimWrites(sim: Simulation, w: World, a: Action, w': World)
    requires a.Begin? && Next(sim, w, a, w')
    ensures w'.workers == w.workers && PassFits(sim, w')
    ensures forall d :: ReadyAt(w.db, d) ==> d in w'.db.deliveries && w'.db.deliveries[d] == w.db.deliveries[d]
  {
  }

  lemma ReclaimRate(sim: Simulation, w: World, a: Action, w': World)
    requires Inv(sim, w) && RateInv(sim, w) && a.Begin? && Next(sim, w, a, w')
    ensures RateInv(sim, w')
  {
    hide RateCap, BufferTarget, LoadFalls, SameAttempts, Inv, Next, Horizon;
    HorizonRises(sim, w, a, w');
    ReclaimLoadFalls(sim, w, a, w');
    ReclaimStep(sim, w, a, w');
    ReclaimWrites(sim, w, a, w');
    PartsOf(sim, w);
    hide ConductorOk, WorkersOk;
    QuietStep(sim, w, w');
  }

  lemma DropFits(sim: Simulation, w: World, a: Action, w': World)
    requires ConductorOk(w) && PassFits(sim, w) && a.DropCondemned? && Next(sim, w, a, w') && LoadFalls(w.db, w'.db)
    ensures PassFits(sim, w')
  {
    hide RateCap, BufferTarget, LoadFalls;
    assert forall d :: d in w.conductor.admit ==> PendingAt(w.db, d);
    AdmitStillFits(sim, w.db, w'.db, w.conductor.admit, w.conductor.pass.now - sim.settings.windowS);
  }

  lemma DropWrites(sim: Simulation, w: World, a: Action, w': World)
    requires a.DropCondemned? && Next(sim, w, a, w')
    ensures w'.workers == w.workers && SameAttempts(w.db, w'.db)
    ensures forall d :: ReadyAt(w.db, d) && d in w'.db.deliveries ==>
              w'.db.deliveries[d].consumer == w.db.deliveries[d].consumer
  {
  }

  lemma DropRate(sim: Simulation, w: World, a: Action, w': World)
    requires Inv(sim, w) && RateInv(sim, w) && a.DropCondemned? && Next(sim, w, a, w')
    ensures RateInv(sim, w')
  {
    hide RateCap, BufferTarget, PassFits, LoadFalls, SameAttempts, Inv, Next, Horizon;
    HorizonRises(sim, w, a, w');
    DropLoadFalls(sim, w, a, w');
    PartsOf(sim, w);
    DropFits(sim, w, a, w');
    DropWrites(sim, w, a, w');
    hide ConductorOk, WorkersOk;
    QuietStep(sim, w, w');
  }

  /** A lock taken now covers ready rows, which the cap at this instant already counts. */
  lemma LockSpan(sim: Simulation, w: World, worker: WorkerId, rows: set<DeliveryId>, w': World, scope: Scope, t: Time)
    requires WorkersOk(w) && Horizon(w) <= Now(w) && Locks(w, worker, rows, w')
    requires SpanCapped(sim, w, scope, t) && Capped(sim, w, scope)
    ensures SpanCapped(sim, w', scope, t)
  {
    hide RateCap, BufferTarget;
    var lo := t - sim.settings.windowS;
    if t < Now(w) {
      forall d | d in Locked(w', scope, lo, t)
        ensures d in Locked(w, scope, lo, t)
      {
        var k :| k in w'.workers && w'.workers[k].Claiming? && lo <= w'.workers[k].stamp <= t
            && d in w'.workers[k].rows;
        assert k != worker;
      }
      SubsetSize(Locked(w', scope, lo, t), Locked(w, scope, lo, t));
    } else {
      var from := Horizon(w) - sim.settings.windowS;
      assert forall x :: x in Between(w.db, scope, lo, t) ==> x in Window(w.db, scope, from);
      SubsetSize(Between(w.db, scope, lo, t), Window(w.db, scope, from));
      forall d | d in Locked(w', scope, lo, t)
        ensures d in ReadyIn(w.db, scope)
      {
        var k :| k in w'.workers && w'.workers[k].Claiming? && lo <= w'.workers[k].stamp <= t
            && d in w'.workers[k].rows;
        if k != worker { assert WorkerOk(w, k); }
        assert ReadyAt(w.db, d);
      }
      SubsetSize(Locked(w', scope, lo, t), ReadyIn(w.db, scope));
    }
  }

  lemma LockRate(sim: Simulation, w: World, a: Action, w': World)
    requires Inv(sim, w) && RateInv(sim, w) && a.Lock? && Next(sim, w, a, w')
    ensures RateInv(sim, w')
  {
    hide RateCap, BufferTarget;
    forall scope
      ensures Capped(sim, w', scope)
    {
      assert Capped(sim, w, scope);
    }
    forall scope, t
      ensures SpanCapped(sim, w', scope, t)
    {
      assert SpanCapped(sim, w, scope, t) && Capped(sim, w, scope);
      LockSpan(sim, w, a.worker, a.rows, w', scope, t);
    }
    SameTablesQuiet(w.db, w'.db);
    PassStillFits(sim, w, w');
  }

  /** The rows a commit releases were its own: no other claim transaction holds them. */
  lemma CommitUnlocks(
    sim: Simulation, w: World, worker: WorkerId, ids: map<DeliveryId, AttemptId>, w': World, scope: Scope, lo: Time,
    hi: Time)
    requires WorkersOk(w) && Commits(sim, w, worker, ids, w')
    ensures |Locked(w', scope, lo, hi)| <= |Locked(w, scope, lo, hi)|
    ensures lo <= w.workers[worker].stamp <= hi ==>
              |Locked(w', scope, lo, hi)| + |Rows(w.db, scope, w.workers[worker].rows)| <= |Locked(w, scope, lo, hi)|
  {
    var rows, stamp := w.workers[worker].rows, w.workers[worker].stamp;
    var was, mine := Locked(w, scope, lo, hi), Rows(w.db, scope, rows);
    forall d | d in Locked(w', scope, lo, hi)
      ensures d in was - mine
    {
      var k :| k in w'.workers && w'.workers[k].Claiming? && lo <= w'.workers[k].stamp <= hi && d in w'.workers[k].rows;
      assert k != worker && WorkerOk(w, k);
      assert d !in rows && ReadyAt(w.db, d);
    }
    SubsetSize(Locked(w', scope, lo, hi), was - mine);
    SubsetSize(was - mine, was);
    if lo <= stamp <= hi {
      assert forall d :: d in mine ==> d in was;
    }
  }

  /** A commit turns locked rows into starts carrying the lock's stamp, never more of them. */
  lemma CommitSpan(
    sim: Simulation, w: World, worker: WorkerId, ids: map<DeliveryId, AttemptId>, w': World, scope: Scope, t: Time)
    requires WorkersOk(w) && Commits(sim, w, worker, ids, w') && SpanCapped(sim, w, scope, t)
    ensures SpanCapped(sim, w', scope, t)
  {
    hide RateCap, BufferTarget, Locked, ReadyIn;
    var lo := t - sim.settings.windowS;
    var rows, stamp := w.workers[worker].rows, w.workers[worker].stamp;
    assert WorkerOk(w, worker);
    var started := ClaimSpends(w.db, w'.db, worker, rows, ids, stamp, sim.policies, sim.settings, scope);
    CommitUnlocks(sim, w, worker, ids, w', scope, lo, t);
    var before, after := Between(w.db, scope, lo, t), Between(w'.db, scope, lo, t);
    if lo <= stamp <= t {
      assert forall x :: x in after ==> x in before + started;
      SubsetSize(after, before + started);
    } else {
      assert forall x :: x in after ==> x in before;
      SubsetSize(after, before);
    }
  }

  lemma CommitRate(sim: Simulation, w: World, a: Action, w': World)
    requires Inv(sim, w) && RateInv(sim, w) && a.Commit? && Next(sim, w, a, w')
    ensures RateInv(sim, w')
  {
    hide RateCap, BufferTarget, PassFits, LoadFalls, Sound;
    CommitLoadFalls(sim, w, a, w');
    CommitStep(sim, w, a, w');
    PassStillFits(sim, w, w');
    forall scope
      ensures Capped(sim, w', scope)
    {
      assert Capped(sim, w, scope);
      LoadFallsAt(w.db, w'.db, scope, Horizon(w) - sim.settings.windowS);
    }
    LoadFallsAt(w.db, w'.db, Everyone, Horizon(w));
    forall scope, t
      ensures SpanCapped(sim, w', scope, t)
    {
      assert SpanCapped(sim, w, scope, t);
      CommitSpan(sim, w, a.worker, a.ids, w', scope, t);
    }
  }

  lemma MarkFillsBuffer(db: Tables, db': Tables, admit: set<DeliveryId>, now: Time, scope: Scope)
    requires MarksReady(db, db', admit, now) && forall d :: d in admit ==> PendingAt(db, d)
    ensures ReadyIn(db', scope) == ReadyIn(db, scope) + Rows(db, scope, admit)
    ensures |ReadyIn(db', scope)| == |ReadyIn(db, scope)| + |Rows(db, scope, admit)|
  {
    forall d
      ensures d in ReadyIn(db', scope) <==> d in ReadyIn(db, scope) + Rows(db, scope, admit)
    {
      if d in admit { assert PendingAt(db, d); }
    }
    assert ReadyIn(db', scope) == ReadyIn(db, scope) + Rows(db, scope, admit);
    forall d | d in Rows(db, scope, admit)
      ensures d !in ReadyIn(db, scope)
    {
      assert PendingAt(db, d);
    }
    assert ReadyIn(db, scope) !! Rows(db, scope, admit);
  }

  lemma SameWindow(db: Tables, db': Tables, scope: Scope, from: Time)
    requires db'.attempts == db.attempts
    ensures Window(db', scope, from) == Window(db, scope, from)
  {
    assert forall a :: a in Window(db', scope, from) <==> a in Window(db, scope, from);
  }

  /** Admission adds to the load what the pass kept room for. */
  lemma AdmitLoad(
    sim: Simulation, db: Tables, db': Tables, admit: set<DeliveryId>, now: Time, from: Time, later: Time, scope: Scope)
    requires MarksReady(db, db', admit, now) && AdmitFits(sim, db, admit, from) && from <= later
    requires forall d :: d in admit ==> PendingAt(db, d)
    requires Load(db, scope, later) <= RateCap(sim, scope)
    ensures Load(db', scope, later) <= RateCap(sim, scope)
  {
    MarkFillsBuffer(db, db', admit, now, scope);
    SameWindow(db, db', scope, from);
    SameWindow(db, db', scope, later);
    WindowShrinks(db', scope, from, later);
    assert AdmitFitsIn(sim, db, admit, from, scope);
    hide RateCap, BufferTarget, Window, ReadyIn, Rows, MarksReady;
  }

  lemma AdmitCaps(sim: Simulation, w: World, a: Action, w': World)
    requires Inv(sim, w) && RateInv(sim, w) && a.Admit? && Next(sim, w, a, w')
    ensures forall scope :: Capped(sim, w', scope)
    ensures |ReadyIn(w'.db, Everyone)| <= BufferTarget(sim)
  {
    hide RateCap, BufferTarget, Sound, WorkersOk, SpanCapped;
    var admit, now := w.conductor.admit, w.conductor.pass.now;
    var from, later := now - sim.settings.windowS, Now(w) - sim.settings.windowS;
    assert forall d :: d in admit ==> PendingAt(w.db, d);
    forall scope
      ensures Capped(sim, w', scope)
    {
      assert Capped(sim, w, scope);
      WindowShrinks(w.db, scope, from, later);
      AdmitLoad(sim, w.db, w'.db, admit, now, from, later, scope);
    }
    assert Capped(sim, w, Everyone);
    MarkFillsBuffer(w.db, w'.db, admit, now, Everyone);
    assert forall d :: d in Rows(w.db, Everyone, admit) <==> d in admit;
    assert Rows(w.db, Everyone, admit) == admit;
  }

  lemma AdmitRate(sim: Simulation, w: World, a: Action, w': World)
    requires Inv(sim, w) && RateInv(sim, w) && a.Admit? && Next(sim, w, a, w')
    ensures RateInv(sim, w')
  {
    hide RateCap, BufferTarget, Sound, ConductorOk;
    AdmitCaps(sim, w, a, w');
    forall scope, t
      ensures SpanCapped(sim, w', scope, t)
    {
      assert SpanCapped(sim, w, scope, t);
      BetweenKept(w.db, w'.db, scope, t - sim.settings.windowS, t);
      LockedKept(w, w', scope, t - sim.settings.windowS, t);
    }
  }

  lemma NextKeepsRate(sim: Simulation, w: World, a: Action, w': World)
    requires Inv(sim, w) && RateInv(sim, w) && Next(sim, w, a, w')
    ensures RateInv(sim, w')
  {
    hide *;
    Kinds(a);
    if Outside(a) {
      OutsideKeepsRate(sim, w, a, w');
    } else if a.Begin? {
      ReclaimRate(sim, w, a, w');
    } else if a.DropCondemned? {
      DropRate(sim, w, a, w');
    } else if a.Admit? {
      AdmitRate(sim, w, a, w');
    } else {
      ReadRate(sim, w, a, w');
    }
  }

  lemma OutsideKeepsRate(sim: Simulation, w: World, a: Action, w': World)
    requires Inv(sim, w) && RateInv(sim, w) && Next(sim, w, a, w') && Outside(a)
    ensures RateInv(sim, w')
  {
    hide *;
    Kinds(a);
    if a.Ingest? {
      IngestRate(sim, w, a, w');
    } else if a.Complete? {
      CompleteRate(sim, w, a, w');
    } else if a.Lock? {
      LockRate(sim, w, a, w');
    } else if a.Commit? {
      CommitRate(sim, w, a, w');
    } else {
      StillStep(sim, w, a, w');
    }
  }

  lemma CapsAreNotNegative(sim: Simulation, scope: Scope)
    ensures RateCap(sim, scope) >= 0 && BufferTarget(sim) >= 0
  {
    var zero: map<ConsumerId, int> := map c | c in sim.consumers :: 0;
    TotalZero(sim.consumers.Keys, zero);
    TotalAtMost(sim.consumers.Keys, zero, ConcurrencyCaps(sim));
    assert sim.settings.bufferMultiplier * Total(sim.consumers.Keys, ConcurrencyCaps(sim)) as real >= 0.0;
  }

  lemma InitialRate(sim: Simulation, w: World)
    requires Initial(w)
    ensures RateInv(sim, w)
  {
    forall scope
      ensures Capped(sim, w, scope)
    {
      CapsAreNotNegative(sim, scope);
      assert Window(w.db, scope, Horizon(w) - sim.settings.windowS) == {} && ReadyIn(w.db, scope) == {};
    }
    forall scope, t
      ensures SpanCapped(sim, w, scope, t)
    {
      CapsAreNotNegative(sim, scope);
      var lo := t - sim.settings.windowS;
      assert Between(w.db, scope, lo, t) == {} && Locked(w, scope, lo, t) == {};
    }
    CapsAreNotNegative(sim, Everyone);
    assert ReadyIn(w.db, Everyone) == {};
  }

  lemma {:induction false} RunKeepsRate(sim: Simulation, ws: seq<World>, acts: seq<Action>, n: nat)
    requires Run(sim, ws, acts) && Initial(ws[0]) && n <= |acts|
    ensures Inv(sim, ws[n]) && RateInv(sim, ws[n])
  {
    hide Inv, RateInv, Next, Initial;
    RunKeepsInv(sim, ws, acts, n);
    if n == 0 {
      InitialRate(sim, ws[0]);
    } else {
      RunKeepsRate(sim, ws, acts, n - 1);
      NextKeepsRate(sim, ws[n - 1], acts[n - 1], ws[n]);
    }
  }

  /** No window, wherever it ends, has ever held more starts than its cap, and the load outstanding fits it too. */
  lemma ScopesStayCapped(sim: Simulation, ws: seq<World>, acts: seq<Action>, n: nat, scope: Scope, t: Time)
    requires Run(sim, ws, acts) && Initial(ws[0]) && n <= |acts|
    ensures |Between(ws[n].db, scope, t - sim.settings.windowS, t)| <= RateCap(sim, scope)
    ensures |Window(ws[n].db, scope, Now(ws[n]) - sim.settings.windowS)| + |InState(ws[n].db, scope, Ready)| <=
        RateCap(sim, scope)
    ensures |InState(ws[n].db, Everyone, Ready)| <= BufferTarget(sim)
  {
    hide RateCap, BufferTarget, Inv, Next, Initial, PassFits;
    RunKeepsRate(sim, ws, acts, n);
    assert Capped(sim, ws[n], scope) && SpanCapped(sim, ws[n], scope, t);
    HorizonIsPast(sim, ws[n]);
    WindowShrinks(ws[n].db, scope, Horizon(ws[n]) - sim.settings.windowS, Now(ws[n]) - sim.settings.windowS);
  }

  /** The attempts a consumer, or anyone, started in [lo, hi]. */
  lemma BetweenIs(db: Tables, c: ConsumerId, lo: Time, hi: Time)
    ensures var all := set a | a in db.attempts && lo <= db.attempts[a].startedAt <= hi;
            && Between(db, Everyone, lo, hi) == all
            && Between(db, Only(c), lo, hi) == set a | a in all && db.attempts[a].consumer == c
  {
    var all := set a | a in db.attempts && lo <= db.attempts[a].startedAt <= hi;
    assert forall a :: a in Between(db, Everyone, lo, hi) <==> a in all;
    assert forall a :: a in Between(db, Only(c), lo, hi) <==> a in all && db.attempts[a].consumer == c;
  }

  /**
   * In every state of every run, on either arm and under any toggling, with anything committed between the
   * statements of a pass: no window, wherever it ends, holds more started attempts than the rate allows in it, over
   * everyone and for each consumer.
   */
  lemma RateCapsHold(sim: Simulation, ws: seq<World>, acts: seq<Action>, n: nat, c: ConsumerId, t: Time)
    requires Run(sim, ws, acts) && Initial(ws[0]) && n <= |acts|
    ensures var db, windowS := ws[n].db, sim.settings.windowS;
            var inWindow := set a | a in db.attempts && t - windowS <= db.attempts[a].startedAt <= t;
            && |inWindow| as real <= sim.globalAttemptsPerS * windowS
            && (c in sim.consumers ==>
                  |set a | a in inWindow && db.attempts[a].consumer == c| as real
                  <= sim.consumers[c].maxAttemptsPerS * windowS)
  {
    hide Next, Initial, RateCap, Between, Window, InState, BufferTarget;
    var windowS := sim.settings.windowS;
    ScopesStayCapped(sim, ws, acts, n, Everyone, t);
    ScopesStayCapped(sim, ws, acts, n, Only(c), t);
    BetweenIs(ws[n].db, c, t - windowS, t);
    RateCapIs(sim, |Between(ws[n].db, Everyone, t - windowS, t)|);
    RateCapIs(sim, |Between(ws[n].db, Only(c), t - windowS, t)|);
  }

  /**
   * And what is admitted but not started fits too: the starts of the present window and the ready rows stay within
   * the rate together.
   */
  lemma LoadsFit(sim: Simulation, ws: seq<World>, acts: seq<Action>, n: nat, c: ConsumerId)
    requires Run(sim, ws, acts) && Initial(ws[0]) && n <= |acts|
    ensures var db, from := ws[n].db, Now(ws[n]) - sim.settings.windowS;
            var recent := set a | a in db.attempts && from <= db.attempts[a].startedAt;
            var ready := set d | d in db.deliveries && db.deliveries[d].state == Ready;
            && (|recent| + |ready|) as real <= sim.globalAttemptsPerS * sim.settings.windowS
            && (c in sim.consumers ==>
                  (|set a | a in recent && db.attempts[a].consumer == c|
                   + |set d | d in ready && db.deliveries[d].consumer == c|) as real
                  <= sim.consumers[c].maxAttemptsPerS * sim.settings.windowS)
  {
    hide Next, Initial, RateCap, Window, InState, BufferTarget, Now;
    var db, from := ws[n].db, Now(ws[n]) - sim.settings.windowS;
    ScopesStayCapped(sim, ws, acts, n, Everyone, 0.0);
    ScopesStayCapped(sim, ws, acts, n, Only(c), 0.0);
    WindowIs(db, c, from);
    InStateIs(db, c, Ready);
    RateCapIs(sim, |Window(db, Everyone, from)| + |InState(db, Everyone, Ready)|);
    RateCapIs(sim, |Window(db, Only(c), from)| + |InState(db, Only(c), Ready)|);
  }

  /** Nor do the ready rows ever pass the fewest that reach the multiple of the summed caps. */
  lemma BufferFits(sim: Simulation, ws: seq<World>, acts: seq<Action>, n: nat)
    requires Run(sim, ws, acts) && Initial(ws[0]) && n <= |acts|
    ensures var caps: map<int, int> := map x | x in sim.consumers :: sim.consumers[x].concurrencyCap;
            var ready := |set d | d in ws[n].db.deliveries && ws[n].db.deliveries[d].state == Ready|;
            || ready == 0
            || (ready - 1) as real < sim.settings.bufferMultiplier * Total(sim.consumers.Keys, caps) as real
  {
    hide Next, Initial, RateCap, InState, BufferTarget;
    ScopesStayCapped(sim, ws, acts, n, Everyone, 0.0);
    InStateIs(ws[n].db, 0, Ready);
    BufferTargetIs(sim, |InState(ws[n].db, Everyone, Ready)| - 1);
  }
}
