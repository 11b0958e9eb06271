/** Which pending deliveries become ready, and how many (app/conductor/admission.py). */
module Admission {
  import opened Model
  import opened Sets
  import opened Policies
  import opened Allocator

  /** The whole provider, or one consumer: what a cap is over. */
  datatype Scope = Everyone | Only(consumer: ConsumerId) {
    predicate Covers(c: ConsumerId) { Everyone? || consumer == c }
  }

  datatype Gauge = Gauge(pending: int, ready: int, inFlight: int)

  datatype Budget = Budget(bufferSlots: int, rateSlots: int) {
    function Slots(): int { Max(0, Min(bufferSlots, rateSlots)) }
  }

  // ---- Reads ----

  function InState(db: Tables, scope: Scope, state: DeliveryState): set<DeliveryId> {
    set d | d in db.deliveries && db.deliveries[d].state == state && scope.Covers(db.deliveries[d].consumer)
  }

  /** Attempts started at or after `from`. */
  function Window(db: Tables, scope: Scope, from: Time): set<AttemptId> {
    set a | a in db.attempts && scope.Covers(db.attempts[a].consumer) && db.attempts[a].startedAt >= from
  }

  predicate IsDue(d: Delivery, now: Time) { d.state == Pending && d.nextAttemptAt <= now }

  function Due(db: Tables, scope: Scope, now: Time): set<DeliveryId> {
    set d | d in db.deliveries && IsDue(db.deliveries[d], now) && scope.Covers(db.deliveries[d].consumer)
  }

  function GaugesOf(db: Tables, consumers: set<ConsumerId>): map<ConsumerId, Gauge> {
    map c | c in consumers ::
      Gauge(|InState(db, Only(c), Pending)|, |InState(db, Only(c), Ready)|, |InState(db, Only(c), InFlight)|)
  }

  // ---- Ceilings ----

  function CapOf(rate: real, windowS: real): int
    requires rate >= 0.0 && windowS >= 0.0
  {
    assert rate * windowS >= 0.0;
    Whole(rate * windowS)
  }

  /** The most attempts a window may hold. */
  function RateCap(sim: Simulation, scope: Scope): int {
    match scope
    case Everyone => CapOf(sim.globalAttemptsPerS, sim.settings.windowS)
    case Only(c) => if c in sim.consumers then CapOf(sim.consumers[c].maxAttemptsPerS, sim.settings.windowS) else 0
  }

  ghost function ConcurrencyCaps(sim: Simulation): map<ConsumerId, int> {
    map c | c in sim.consumers :: sim.consumers[c].concurrencyCap
  }

  ghost function BufferTarget(sim: Simulation): int {
    Ceil(sim.settings.bufferMultiplier * Total(sim.consumers.Keys, ConcurrencyCaps(sim)) as real)
  }

  ghost function BudgetFrom(sim: Simulation, ready: int, attemptsInWindow: int): Budget {
    Budget(BufferTarget(sim) - ready, RateCap(sim, Everyone) - attemptsInWindow - ready)
  }

  function Headroom(st: ConsumerState, windowS: real, pooled: bool): int
    requires st.maxAttemptsPerS >= 0.0 && windowS >= 0.0
  {
    if !pooled && st.inFlight >= st.concurrencyCap then 0
    else Max(0, Min(st.demand, CapOf(st.maxAttemptsPerS, windowS) - (st.attemptsInWindow + st.ready)))
  }

  /** Headroom that is there at all fits demand and the rate cap, and off the pooled arm passes the concurrency gate. */
  lemma HeadroomFits(st: ConsumerState, windowS: real, pooled: bool)
    requires st.maxAttemptsPerS >= 0.0 && windowS >= 0.0 && st.demand >= 0
    ensures var h := Headroom(st, windowS, pooled);
            && 0 <= h <= st.demand
            && (h > 0 ==> h + st.attemptsInWindow + st.ready <= CapOf(st.maxAttemptsPerS, windowS))
            && (h > 0 && !pooled ==> st.inFlight < st.concurrencyCap)
            && (h < st.demand && (pooled || st.inFlight < st.concurrencyCap) ==>
                  h + st.attemptsInWindow + st.ready >= CapOf(st.maxAttemptsPerS, windowS))
  {
  }

  /**
    * A rate cap is the most whole attempts the rate allows in the window; the buffer target the fewest that reach
    * the multiple.
    */
  lemma CapsAreTight(rate: real, windowS: real, n: int)
    requires rate >= 0.0 && windowS >= 0.0
    ensures n <= CapOf(rate, windowS) <==> n as real <= rate * windowS
    ensures Ceil(rate) <= n <==> rate <= n as real
  {
  }

  /** A rate cap, in the rates of the settings: n attempts fit it if and only if the rate allows them in a window. */
  lemma RateCapIs(sim: Simulation, n: int)
    ensures n <= RateCap(sim, Everyone) <==> n as real <= sim.globalAttemptsPerS * sim.settings.windowS
    ensures forall c :: c in sim.consumers ==>
              (n <= RateCap(sim, Only(c)) <==> n as real <= sim.consumers[c].maxAttemptsPerS * sim.settings.windowS)
    ensures forall c :: c !in sim.consumers ==> RateCap(sim, Only(c)) == 0
  {
  }

  /** The buffer target: n ready rows reach it if and only if they reach the multiple of the summed caps. */
  lemma BufferTargetIs(sim: Simulation, n: int)
    ensures var caps: map<int, int> := map c | c in sim.consumers :: sim.consumers[c].concurrencyCap;
            BufferTarget(sim) <= n <==>
              sim.settings.bufferMultiplier * Total(sim.consumers.Keys, caps) as real <= n as real
  {
  }

  /**
    * n slots are available exactly when all but the last of n more ready rows fall short of the buffer multiple, and
    * n more attempts fit the global rate.
    */
  lemma SlotsAreTight(sim: Simulation, ready: int, attemptsInWindow: int, n: int)
    requires n >= 1
    ensures var caps: map<int, int> := map c | c in sim.consumers :: sim.consumers[c].concurrencyCap;
            n <= BudgetFrom(sim, ready, attemptsInWindow).Slots() <==>
              && (ready + n - 1) as real < sim.settings.bufferMultiplier * Total(sim.consumers.Keys, caps) as real
              && (attemptsInWindow + ready + n) as real <= sim.globalAttemptsPerS * sim.settings.windowS
  {
    RateCapIs(sim, attemptsInWindow + ready + n);
    BufferTargetIs(sim, ready + n - 1);
    hide BufferTarget, RateCap;
  }

  /** n slots fit a consumer exactly when its gate is open or pooled, it has n due, and n more attempts fit its rate. */
  lemma HeadroomIsTight(st: ConsumerState, windowS: real, pooled: bool, n: int)
    requires st.maxAttemptsPerS >= 0.0 && windowS >= 0.0 && n >= 1
    ensures n <= Headroom(st, windowS, pooled)
       <==> && (pooled || st.inFlight < st.concurrencyCap) && n <= st.demand
            && (st.attemptsInWindow + st.ready + n) as real <= st.maxAttemptsPerS * windowS
  {
    CapsAreTight(st.maxAttemptsPerS, windowS, st.attemptsInWindow + st.ready + n);
    hide CapOf;
  }

  // ---- The reads, in columns ----

  /** What is due: every pending row whose time has come, and no other. */
  lemma DueIs(db: Tables, c: ConsumerId, now: Time)
    ensures var due := set d | d in db.deliveries && db.deliveries[d].state == Pending
                               && db.deliveries[d].nextAttemptAt <= now;
            && Due(db, Everyone, now) == due
            && Due(db, Only(c), now) == set d | d in due && db.deliveries[d].consumer == c
  {
    var due := set d | d in db.deliveries && db.deliveries[d].state == Pending
                       && db.deliveries[d].nextAttemptAt <= now;
    assert forall d :: d in Due(db, Everyone, now) <==> d in due;
    assert forall d :: d in Due(db, Only(c), now) <==> d in due && db.deliveries[d].consumer == c;
  }

  /** What a window holds: every attempt started at its lower end or later, and no older one. */
  lemma WindowIs(db: Tables, c: ConsumerId, from: Time)
    ensures var recent := set a | a in db.attempts && from <= db.attempts[a].startedAt;
            && Window(db, Everyone, from) == recent
            && Window(db, Only(c), from) == set a | a in recent && db.attempts[a].consumer == c
  {
    var recent := set a | a in db.attempts && from <= db.attempts[a].startedAt;
    assert forall a :: a in Window(db, Everyone, from) <==> a in recent;
    assert forall a :: a in Window(db, Only(c), from) <==> a in recent && db.attempts[a].consumer == c;
  }

  lemma InStateIs(db: Tables, c: ConsumerId, state: DeliveryState)
    ensures var rows := set d | d in db.deliveries && db.deliveries[d].state == state;
            && InState(db, Everyone, state) == rows
            && InState(db, Only(c), state) == set d | d in rows && db.deliveries[d].consumer == c
  {
    var rows := set d | d in db.deliveries && db.deliveries[d].state == state;
    assert forall d :: d in InState(db, Everyone, state) <==> d in rows;
    assert forall d :: d in InState(db, Only(c), state) <==> d in rows && db.deliveries[d].consumer == c;
  }

  lemma GaugesAre(db: Tables, consumers: set<ConsumerId>, c: ConsumerId)
    requires c in consumers
    ensures var rows := set d | d in db.deliveries && db.deliveries[d].consumer == c;
            GaugesOf(db, consumers)[c] == Gauge(|set d | d in rows && db.deliveries[d].state == Pending|,
                                                |set d | d in rows && db.deliveries[d].state == Ready|,
                                                |set d | d in rows && db.deliveries[d].state == InFlight|)
  {
    var rows := set d | d in db.deliveries && db.deliveries[d].consumer == c;
    forall state: DeliveryState
      ensures InState(db, Only(c), state) == set d | d in rows && db.deliveries[d].state == state
    {
      InStateIs(db, c, state);
    }
  }

  function StateOf(
    c: ConsumerId, row: Consumer, demand: map<ConsumerId, int>, used: map<ConsumerId, int>,
    gauges: map<ConsumerId, Gauge>): ConsumerState
  {
    var g := if c in gauges then gauges[c] else Gauge(0, 0, 0);
    ConsumerState(c, row.weight, row.concurrencyCap, row.maxAttemptsPerS, Get(demand, c), Get(used, c), g.inFlight,
        g.ready)
  }

  ghost function Headrooms(
    sim: Simulation, demand: map<ConsumerId, int>, used: map<ConsumerId, int>, gauges: map<ConsumerId, Gauge>,
    pooled: bool)
    : map<ConsumerId, int>
  {
    map c | c in sim.consumers ::
      Headroom(StateOf(c, sim.consumers[c], demand, used, gauges), sim.settings.windowS, pooled)
  }

  ghost function Weights(sim: Simulation): map<ConsumerId, real> {
    map c | c in sim.consumers :: sim.consumers[c].weight
  }

  /** Weighted round-robin, or each consumer up to its own headroom from one shared pool. */
  ghost predicate Allows(
    sim: Simulation, headroom: map<ConsumerId, int>, slots: int, fair: bool, allow: map<ConsumerId, int>)
  {
    if fair then FairShare(Weights(sim), Rooms(Weights(sim), headroom), slots, allow)
    else allow.Keys == headroom.Keys && forall c :: c in allow ==> allow[c] == Min(headroom[c], slots)
  }

  // ---- Candidates ----

  ghost function OfConsumer(cs: seq<Candidate>, c: ConsumerId): seq<Candidate> {
    if cs == [] then []
    else OfConsumer(cs[..|cs| - 1], c) + if cs[|cs| - 1].consumer == c then [cs[|cs| - 1]] else []
  }

  function DueAt(db: Tables, c: Candidate): Time {
    if c.id in db.deliveries then db.deliveries[c.id].nextAttemptAt else 0.0
  }

  ghost predicate Ids(cs: seq<Candidate>, d: DeliveryId) { exists i :: 0 <= i < |cs| && cs[i].id == d }

  /** `ORDER BY next_attempt_at LIMIT n` over a pool of rows; the order among equal times is the database's. */
  ghost predicate Oldest(db: Tables, pool: set<DeliveryId>, limit: int, cs: seq<Candidate>) {
    && |cs| == Min(Max(0, limit), |pool|)
    && (forall i :: 0 <= i < |cs| ==>
          cs[i].id in pool && cs[i].id in db.deliveries && cs[i] == CandidateOf(cs[i].id, db.deliveries[cs[i].id]))
    && (forall i, j :: 0 <= i < j < |cs| ==> cs[i].id != cs[j].id && DueAt(db, cs[i]) <= DueAt(db, cs[j]))
    && (forall i, d :: 0 <= i < |cs| && d in pool && d in db.deliveries && !Ids(cs, d) ==>
          DueAt(db, cs[i]) <= db.deliveries[d].nextAttemptAt)
  }

  ghost predicate IsLargest(allow: map<ConsumerId, int>, wanted: int) {
    && (forall c :: c in allow ==> allow[c] <= wanted)
    && (if allow == map[] then wanted == 0 else exists c :: c in allow && allow[c] == wanted)
  }

  /** The oldest due rows of each consumer, up to the largest allowance times the over-fetch, in consumer order. */
  ghost predicate FairFetch(db: Tables, now: Time, allow: map<ConsumerId, int>, wanted: int, overfetch: int,
      cs: seq<Candidate>) {
    && IsLargest(allow, wanted)
    && (forall i :: 0 <= i < |cs| ==> cs[i].consumer in allow)
    && (forall i, j :: 0 <= i < j < |cs| ==> cs[i].consumer <= cs[j].consumer)
    && (forall c :: c in allow ==>
          if wanted > 0 then Oldest(db, Due(db, Only(c), now), wanted * overfetch, OfConsumer(cs, c))
          else OfConsumer(cs, c) == [])
  }

  ghost predicate FifoFetch(db: Tables, now: Time, slots: int, overfetch: int, cs: seq<Candidate>) {
    Oldest(db, Due(db, Everyone, now), slots * overfetch, cs)
  }

  // ---- Rationing ----

  ghost function Take(cs: seq<Candidate>, k: int): seq<Candidate> {
    if k <= 0 then [] else if k >= |cs| then cs else cs[..k]
  }

  ghost predicate RationAt(cs: seq<Candidate>, allow: map<ConsumerId, int>, admitted: seq<Candidate>, c: ConsumerId) {
    OfConsumer(admitted, c) == Take(OfConsumer(cs, c), Get(allow, c))
  }

  /** Each consumer has exactly its first few, as many as it is allowed. */
  ghost predicate FullRation(cs: seq<Candidate>, allow: map<ConsumerId, int>, admitted: seq<Candidate>) {
    forall c {:trigger RationAt(cs, allow, admitted, c)} :: RationAt(cs, allow, admitted, c)
  }

  /** First come, first served by allowance, and the walk stops at the first candidate met with every slot gone. */
  ghost predicate Rationed(cs: seq<Candidate>, allow: map<ConsumerId, int>, slots: int, admitted: seq<Candidate>) {
    && |admitted| <= Max(0, slots)
    && exists n :: 0 <= n <= |cs| && FullRation(cs[..n], allow, admitted) && (n == |cs| || |admitted| >= slots)
  }

  lemma OfConsumerSnoc(cs: seq<Candidate>, x: Candidate, c: ConsumerId)
    ensures OfConsumer(cs + [x], c) == OfConsumer(cs, c) + if x.consumer == c then [x] else []
  {
    assert (cs + [x])[..|cs|] == cs;
  }

  /** Either the walk passes a candidate over, its consumer being full, or takes it. */
  lemma RationStep(
    cs: seq<Candidate>, x: Candidate, allow: map<ConsumerId, int>, admitted: seq<Candidate>, after: seq<Candidate>)
    requires FullRation(cs, allow, admitted)
    requires after == if |OfConsumer(admitted, x.consumer)| < Get(allow, x.consumer) then admitted + [x] else admitted
    ensures FullRation(cs + [x], allow, after)
  {
    forall c
      ensures RationAt(cs + [x], allow, after, c)
    {
      assert RationAt(cs, allow, admitted, c);
      OfConsumerSnoc(cs, x, c);
      OfConsumerSnoc(admitted, x, c);
    }
  }

  ghost predicate Tallies(taken: map<ConsumerId, int>, admitted: seq<Candidate>) {
    forall c {:trigger Get(taken, c)} :: Get(taken, c) == |OfConsumer(admitted, c)|
  }

  lemma TallyStep(taken: map<ConsumerId, int>, admitted: seq<Candidate>, x: Candidate)
    requires Tallies(taken, admitted)
    ensures Tallies(taken[x.consumer := Get(taken, x.consumer) + 1], admitted + [x])
  {
    forall c
      ensures Get(taken[x.consumer := Get(taken, x.consumer) + 1], c) == |OfConsumer(admitted + [x], c)|
    {
      OfConsumerSnoc(admitted, x, c);
      assert Get(taken, c) == |OfConsumer(admitted, c)|;
    }
  }

  method Ration(cs: seq<Candidate>, allow: map<ConsumerId, int>, slots: int) returns (admitted: seq<Candidate>)
    ensures Rationed(cs, allow, slots, admitted)
  {
    hide FullRation, Tallies, OfConsumer;
    admitted := [];
    var taken: map<ConsumerId, int> := map[];
    assert FullRation(cs[..0], allow, admitted) && Tallies(taken, admitted) by { StartRation(cs[..0], allow, taken); }
    var i := 0;
    while i < |cs| && |admitted| < slots
      invariant 0 <= i <= |cs| && |admitted| <= Max(0, slots)
      invariant FullRation(cs[..i], allow, admitted)
      invariant Tallies(taken, admitted)
    {
      var x := cs[i];
      ghost var before := admitted;
      assert cs[..i + 1] == cs[..i] + [x];
      TallyAt(taken, admitted, x.consumer);
      if Get(taken, x.consumer) < Get(allow, x.consumer) {
        TallyStep(taken, admitted, x);
        taken := taken[x.consumer := Get(taken, x.consumer) + 1];
        admitted := admitted + [x];
      }
      RationStep(cs[..i], x, allow, before, admitted);
      i := i + 1;
    }
  }

  lemma StartRation(cs: seq<Candidate>, allow: map<ConsumerId, int>, taken: map<ConsumerId, int>)
    requires cs == [] && taken == map[]
    ensures FullRation(cs, allow, []) && Tallies(taken, [])
  {
  }

  lemma TallyAt(taken: map<ConsumerId, int>, admitted: seq<Candidate>, c: ConsumerId)
    requires Tallies(taken, admitted)
    ensures Get(taken, c) == |OfConsumer(admitted, c)|
  {
  }

  ghost function Counts(cs: seq<Candidate>, consumers: set<ConsumerId>): map<ConsumerId, int> {
    map c | c in consumers :: |OfConsumer(cs, c)|
  }

  lemma {:induction false} CountByConsumer(cs: seq<Candidate>, consumers: set<ConsumerId>)
    requires forall i :: 0 <= i < |cs| ==> cs[i].consumer in consumers
    ensures Total(consumers, Counts(cs, consumers)) == |cs|
  {
    var counts := Counts(cs, consumers);
    if cs == [] {
      TotalZero(consumers, counts);
    } else {
      var n := |cs| - 1;
      CountByConsumer(cs[..n], consumers);
      var before := Counts(cs[..n], consumers);
      var c := cs[n].consumer;
      TotalUpdate(consumers, before, c, before[c] + 1);
      TotalAgree(consumers, counts, before[c := before[c] + 1]);
    }
  }

  lemma {:induction false} OfConsumerHas(cs: seq<Candidate>, x: Candidate)
    ensures x in cs <==> x in OfConsumer(cs, x.consumer)
  {
    if cs != [] {
      OfConsumerHas(cs[..|cs| - 1], x);
      assert cs == cs[..|cs| - 1] + [cs[|cs| - 1]];
    }
  }

  lemma {:induction false} OfConsumerOnly(cs: seq<Candidate>, c: ConsumerId)
    ensures forall i :: 0 <= i < |OfConsumer(cs, c)| ==>
        OfConsumer(cs, c)[i].consumer == c && OfConsumer(cs, c)[i] in cs
  {
    if cs != [] {
      OfConsumerOnly(cs[..|cs| - 1], c);
      assert cs == cs[..|cs| - 1] + [cs[|cs| - 1]];
    }
  }

  lemma {:induction false} OfConsumerPrefix(cs: seq<Candidate>, n: nat, c: ConsumerId)
    requires n <= |cs|
    ensures OfConsumer(cs[..n], c) <= OfConsumer(cs, c)
  {
    if n < |cs| {
      var init := cs[..|cs| - 1];
      OfConsumerPrefix(init, n, c);
      assert init[..n] == cs[..n];
    } else {
      assert cs[..n] == cs;
    }
  }

  lemma AdmittedAreAllowed(cs: seq<Candidate>, allow: map<ConsumerId, int>, admitted: seq<Candidate>, x: Candidate)
    requires FullRation(cs, allow, admitted) && x in admitted
    ensures x in cs && x.consumer in allow && allow[x.consumer] >= 1
  {
    OfConsumerHas(admitted, x);
    OfConsumerHas(cs, x);
    assert RationAt(cs, allow, admitted, x.consumer);
  }

  lemma CountsFitAllowances(cs: seq<Candidate>, allow: map<ConsumerId, int>, admitted: seq<Candidate>)
    requires FullRation(cs, allow, admitted) && forall c :: c in allow ==> allow[c] >= 0
    ensures Total(allow.Keys, Counts(admitted, allow.Keys)) == |admitted|
    ensures forall c :: c in allow ==> |OfConsumer(admitted, c)| <= allow[c]
    ensures |admitted| <= Total(allow.Keys, allow)
    ensures |admitted| == Total(allow.Keys, allow) ==> forall c :: c in allow ==> |OfConsumer(admitted, c)| == allow[c]
  {
    forall i | 0 <= i < |admitted|
      ensures admitted[i].consumer in allow.Keys
    {
      AdmittedAreAllowed(cs, allow, admitted, admitted[i]);
    }
    CountByConsumer(admitted, allow.Keys);
    forall c | c in allow
      ensures |OfConsumer(admitted, c)| <= allow[c]
    {
      assert RationAt(cs, allow, admitted, c);
    }
    TotalAtMost(allow.Keys, Counts(admitted, allow.Keys), allow);
  }

  /**
    * On the fair arm the early stop costs nobody: everyone gets the whole of what its allowance and survivors
    * permit.
    */
  lemma FairArmRationsInFull(
    weights: map<ConsumerId, real>, room: map<ConsumerId, int>, slots: int,
    cs: seq<Candidate>, allow: map<ConsumerId, int>, admitted: seq<Candidate>)
    requires FairShare(weights, room, slots, allow) && Rationed(cs, allow, slots, admitted)
    ensures FullRation(cs, allow, admitted)
  {
    hide Total, Balanced, OfConsumer;
    var n :| 0 <= n <= |cs| && FullRation(cs[..n], allow, admitted) && (n == |cs| || |admitted| >= slots);
    if n == |cs| {
      assert cs[..n] == cs;
    } else {
      CountsFitAllowances(cs[..n], allow, admitted);
      forall c
        ensures RationAt(cs, allow, admitted, c)
      {
        OfConsumerPrefix(cs, n, c);
        assert RationAt(cs[..n], allow, admitted, c);
      }
    }
  }

  /** With slots to give, rationing comes back empty exactly when no survivor belongs to a consumer allowed anything. */
  lemma RationEmptyIff(cs: seq<Candidate>, allow: map<ConsumerId, int>, slots: int, admitted: seq<Candidate>)
    requires Rationed(cs, allow, slots, admitted) && slots >= 1
    ensures admitted == [] <==> forall x :: x in cs ==> Get(allow, x.consumer) <= 0
  {
    var n :| 0 <= n <= |cs| && FullRation(cs[..n], allow, admitted) && (n == |cs| || |admitted| >= slots);
    if admitted == [] {
      assert cs[..n] == cs;
      forall x | x in cs
        ensures Get(allow, x.consumer) <= 0
      {
        OfConsumerHas(cs, x);
        assert RationAt(cs[..n], allow, admitted, x.consumer);
      }
    } else {
      AdmittedAreAllowed(cs[..n], allow, admitted, admitted[0]);
    }
  }
}
