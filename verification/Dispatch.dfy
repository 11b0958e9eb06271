/** The queries and the loop of `select_candidates` (app/conductor/admission.py), over the tables one pass reads. */
module Dispatch {
  import opened Model
  import opened Sets
  import opened Policies
  import opened Allocator
  import opened Admission
  import opened Machine

  // ---- Candidate queries ----

  method OldestOf(db: Tables, left: set<DeliveryId>) returns (oldest: DeliveryId)
    requires left != {} && forall d :: d in left ==> d in db.deliveries
    ensures oldest in left
    ensures forall d :: d in left ==> db.deliveries[oldest].nextAttemptAt <= db.deliveries[d].nextAttemptAt
  {
    ghost var some: DeliveryId := Member(left);
    oldest :| oldest in left;
    var rest := left - {oldest};
    while rest != {}
      invariant rest <= left && oldest in left
      invariant forall d :: d in left && d !in rest ==>
          db.deliveries[oldest].nextAttemptAt <= db.deliveries[d].nextAttemptAt
    {
      ghost var another: DeliveryId := Member(rest);
      var d: DeliveryId :| d in rest;
      if db.deliveries[d].nextAttemptAt < db.deliveries[oldest].nextAttemptAt { oldest := d; }
      rest := rest - {d};
    }
  }

  /** What is in hand so far: the oldest of the pool, none of what is left being older. */
  ghost predicate Taking(db: Tables, pool: set<DeliveryId>, left: set<DeliveryId>, cs: seq<Candidate>) {
    && left <= pool && |cs| + |left| == |pool|
    && (forall i :: 0 <= i < |cs| ==>
          cs[i].id in pool && cs[i].id !in left && cs[i].id in db.deliveries
              && cs[i] == CandidateOf(cs[i].id, db.deliveries[cs[i].id]))
    && (forall i, j :: 0 <= i < j < |cs| ==> cs[i].id != cs[j].id && DueAt(db, cs[i]) <= DueAt(db, cs[j]))
    && (forall i, d :: 0 <= i < |cs| && d in left && d in db.deliveries ==>
        DueAt(db, cs[i]) <= db.deliveries[d].nextAttemptAt)
    && (forall d :: d in pool && !Ids(cs, d) ==> d in left)
  }

  lemma TakeOneMore(db: Tables, pool: set<DeliveryId>, left: set<DeliveryId>, cs: seq<Candidate>, d: DeliveryId)
    requires Taking(db, pool, left, cs) && forall e :: e in pool ==> e in db.deliveries
    requires d in left && forall e :: e in left ==> db.deliveries[d].nextAttemptAt <= db.deliveries[e].nextAttemptAt
    ensures Taking(db, pool, left - {d}, cs + [CandidateOf(d, db.deliveries[d])])
  {
    var more := cs + [CandidateOf(d, db.deliveries[d])];
    assert more[|cs|].id == d;
    forall e | Ids(cs, e)
      ensures Ids(more, e)
    {
      var i :| 0 <= i < |cs| && cs[i].id == e;
      assert more[i].id == e;
    }
  }

  /** `ORDER BY next_attempt_at LIMIT n`. */
  method TakeOldest(db: Tables, pool: set<DeliveryId>, limit: int) returns (cs: seq<Candidate>)
    requires forall d :: d in pool ==> d in db.deliveries
    ensures Oldest(db, pool, limit, cs)
  {
    cs := [];
    var left := pool;
    while left != {} && |cs| < limit
      invariant Taking(db, pool, left, cs) && |cs| <= Max(0, limit)
      decreases |left|
    {
      hide Taking;
      assert left <= pool by { TakingIs(db, pool, left, cs); }
      var d := OldestOf(db, left);
      TakeOneMore(db, pool, left, cs, d);
      cs := cs + [CandidateOf(d, db.deliveries[d])];
      left := left - {d};
    }
  }

  lemma TakingIs(db: Tables, pool: set<DeliveryId>, left: set<DeliveryId>, cs: seq<Candidate>)
    requires Taking(db, pool, left, cs)
    ensures left <= pool
  {
  }

  method FifoCandidates(db: Tables, now: Time, limit: int) returns (cs: seq<Candidate>)
    ensures Oldest(db, Due(db, Everyone, now), limit, cs) && DistinctIds(cs)
  {
    cs := TakeOldest(db, Due(db, Everyone, now), limit);
  }

  method Largest(allow: map<ConsumerId, int>) returns (wanted: int)
    ensures IsLargest(allow, wanted)
  {
    wanted := 0;
    var todo := allow.Keys;
    var found := false;
    while todo != {}
      invariant todo <= allow.Keys && (found <==> todo != allow.Keys)
      invariant found ==> exists c :: c in allow && allow[c] == wanted
      invariant forall c :: c in allow && c !in todo ==> allow[c] <= wanted
      invariant !found ==> wanted == 0
    {
      ghost var some: ConsumerId := Member(todo);
      var c: ConsumerId :| c in todo;
      if !found || allow[c] > wanted { wanted := allow[c]; }
      found := true;
      todo := todo - {c};
    }
    if allow != map[] { assert allow.Keys != {}; }
  }

  method Smallest(left: set<ConsumerId>) returns (least: ConsumerId)
    requires left != {}
    ensures least in left && forall c :: c in left ==> least <= c
  {
    ghost var some: ConsumerId := Member(left);
    least :| least in left;
    var rest := left - {least};
    while rest != {}
      invariant rest <= left && least in left
      invariant forall c :: c in left && c !in rest ==> least <= c
    {
      ghost var another: ConsumerId := Member(rest);
      var c: ConsumerId :| c in rest;
      if c < least { least := c; }
      rest := rest - {c};
    }
  }

  lemma {:induction false} OfConsumerJoin(a: seq<Candidate>, b: seq<Candidate>, c: ConsumerId)
    ensures OfConsumer(a + b, c) == OfConsumer(a, c) + OfConsumer(b, c)
  {
    if b == [] {
      assert a + b == a;
    } else {
      var n := |b| - 1;
      OfConsumerJoin(a, b[..n], c);
      assert a + b == (a + b[..n]) + [b[n]];
      OfConsumerSnoc(a + b[..n], b[n], c);
    }
  }

  lemma {:induction false} OfConsumerAll(cs: seq<Candidate>, c: ConsumerId, d: ConsumerId)
    requires forall i :: 0 <= i < |cs| ==> cs[i].consumer == c
    ensures OfConsumer(cs, d) == if d == c then cs else []
  {
    if cs != [] {
      var n := |cs| - 1;
      OfConsumerAll(cs[..n], c, d);
      assert cs == cs[..n] + [cs[n]];
    }
  }

  ghost predicate DistinctIds(cs: seq<Candidate>) { forall i, j :: 0 <= i < j < |cs| ==> cs[i].id != cs[j].id }

  ghost predicate GroupedByConsumer(db: Tables, done: set<ConsumerId>, cs: seq<Candidate>) {
    && DistinctIds(cs)
    && (forall i :: 0 <= i < |cs| ==>
          && cs[i].consumer in done
          && cs[i].id in db.deliveries && db.deliveries[cs[i].id].consumer == cs[i].consumer)
    && (forall i, j :: 0 <= i < j < |cs| ==> cs[i].consumer <= cs[j].consumer)
  }

  ghost predicate OldestEach(db: Tables, now: Time, done: set<ConsumerId>, limit: int, cs: seq<Candidate>) {
    forall c :: c in done ==> Oldest(db, Due(db, Only(c), now), limit, OfConsumer(cs, c))
  }

  /** Consumer by consumer in ascending order, each with its own oldest. */
  ghost predicate FetchedFor(db: Tables, now: Time, done: set<ConsumerId>, limit: int, cs: seq<Candidate>) {
    GroupedByConsumer(db, done, cs) && OldestEach(db, now, done, limit, cs)
  }

  /** One consumer's rows, all on record as its own. */
  ghost predicate MineAlone(db: Tables, c: ConsumerId, mine: seq<Candidate>) {
    forall i :: 0 <= i < |mine| ==>
      mine[i].consumer == c && mine[i].id in db.deliveries && db.deliveries[mine[i].id].consumer == c
  }

  lemma NoneTwice(db: Tables, done: set<ConsumerId>, cs: seq<Candidate>, c: ConsumerId, mine: seq<Candidate>)
    requires GroupedByConsumer(db, done, cs) && c !in done && DistinctIds(mine) && MineAlone(db, c, mine)
    ensures DistinctIds(cs + mine)
  {
    var all := cs + mine;
    forall i, j | 0 <= i < j < |all|
      ensures all[i].id != all[j].id
    {
      if j < |cs| {
        assert cs[i].id != cs[j].id;
      } else if i < |cs| {
        assert db.deliveries[cs[i].id].consumer in done && db.deliveries[mine[j - |cs|].id].consumer == c;
      } else {
        assert mine[i - |cs|].id != mine[j - |cs|].id;
      }
    }
  }

  lemma GroupJoins(db: Tables, done: set<ConsumerId>, cs: seq<Candidate>, c: ConsumerId, mine: seq<Candidate>)
    requires GroupedByConsumer(db, done, cs) && (forall x :: x in done ==> x < c)
    requires DistinctIds(mine) && MineAlone(db, c, mine)
    ensures GroupedByConsumer(db, done + {c}, cs + mine)
  {
    NoneTwice(db, done, cs, c, mine);
    hide DistinctIds;
    var all := cs + mine;
    forall i | 0 <= i < |all|
      ensures && all[i].consumer in done + {c}
              && all[i].id in db.deliveries && db.deliveries[all[i].id].consumer == all[i].consumer
    {
      if i >= |cs| { assert all[i] == mine[i - |cs|]; }
    }
  }

  lemma OwnRows(cs: seq<Candidate>, c: ConsumerId, mine: seq<Candidate>, x: ConsumerId)
    requires forall i :: 0 <= i < |cs| ==> cs[i].consumer != c
    requires forall i :: 0 <= i < |mine| ==> mine[i].consumer == c
    ensures OfConsumer(cs + mine, x) == if x == c then mine else OfConsumer(cs, x)
  {
    OfConsumerJoin(cs, mine, x);
    OfConsumerAll(mine, c, x);
    if x == c { NoneOf(cs, c); }
    hide OfConsumer;
  }

  lemma GroupOneMore(db: Tables, now: Time, done: set<ConsumerId>, limit: int, cs: seq<Candidate>, c: ConsumerId,
      mine: seq<Candidate>)
    requires GroupedByConsumer(db, done, cs) && forall x :: x in done ==> x < c
    requires Oldest(db, Due(db, Only(c), now), limit, mine)
    ensures GroupedByConsumer(db, done + {c}, cs + mine)
    ensures forall x :: x in done + {c} ==> OfConsumer(cs + mine, x) == if x == c then mine else OfConsumer(cs, x)
  {
    hide OfConsumer;
    OldestAreMine(db, now, limit, c, mine);
    hide Oldest, Due;
    GroupJoins(db, done, cs, c, mine);
    forall x | x in done + {c}
      ensures OfConsumer(cs + mine, x) == if x == c then mine else OfConsumer(cs, x)
    {
      OwnRows(cs, c, mine, x);
    }
  }

  lemma FetchOneMore(
    db: Tables, now: Time, done: set<ConsumerId>, limit: int, cs: seq<Candidate>, c: ConsumerId, mine: seq<Candidate>)
    requires FetchedFor(db, now, done, limit, cs) && forall x :: x in done ==> x < c
    requires Oldest(db, Due(db, Only(c), now), limit, mine)
    ensures FetchedFor(db, now, done + {c}, limit, cs + mine)
  {
    hide Oldest, Due, OfConsumer, GroupedByConsumer;
    GroupOneMore(db, now, done, limit, cs, c, mine);
  }

  lemma OldestAreMine(db: Tables, now: Time, limit: int, c: ConsumerId, mine: seq<Candidate>)
    requires Oldest(db, Due(db, Only(c), now), limit, mine)
    ensures DistinctIds(mine) && MineAlone(db, c, mine)
  {
  }

  lemma {:induction false} NoneOf(cs: seq<Candidate>, c: ConsumerId)
    requires forall i :: 0 <= i < |cs| ==> cs[i].consumer != c
    ensures OfConsumer(cs, c) == []
  {
    if cs != [] { NoneOf(cs[..|cs| - 1], c); }
  }

  /** `ROW_NUMBER() OVER (PARTITION BY consumer_id ORDER BY next_attempt_at)`, bounded. */
  method FairCandidates(db: Tables, now: Time, allow: map<ConsumerId, int>, overfetch: int)
    returns (cs: seq<Candidate>, wanted: int)
    ensures FairFetch(db, now, allow, wanted, overfetch, cs) && DistinctIds(cs)
  {
    hide IsLargest, Oldest, FetchedFor, FairFetch, OfConsumer, DistinctIds;
    cs := [];
    wanted := Largest(allow);
    FetchedNothing(db, now, allow, wanted, overfetch);
    if wanted <= 0 { return; }
    var todo := allow.Keys;
    assert allow.Keys - todo == {};
    while todo != {}
      invariant todo <= allow.Keys
      invariant FetchedFor(db, now, allow.Keys - todo, wanted * overfetch, cs)
      invariant forall x, y :: x in allow.Keys - todo && y in todo ==> x < y
    {
      var c := Smallest(todo);
      var mine := TakeOldest(db, Due(db, Only(c), now), wanted * overfetch);
      FetchOneMore(db, now, allow.Keys - todo, wanted * overfetch, cs, c, mine);
      cs := cs + mine;
      assert allow.Keys - (todo - {c}) == allow.Keys - todo + {c};
      todo := todo - {c};
    }
    assert allow.Keys - {} == allow.Keys;
    FetchedAll(db, now, allow, wanted, overfetch, cs);
  }

  lemma FetchedNothing(db: Tables, now: Time, allow: map<ConsumerId, int>, wanted: int, overfetch: int)
    requires IsLargest(allow, wanted)
    ensures FetchedFor(db, now, {}, wanted * overfetch, [])
    ensures wanted <= 0 ==> FairFetch(db, now, allow, wanted, overfetch, []) && DistinctIds([])
  {
  }

  lemma FetchedAll(db: Tables, now: Time, allow: map<ConsumerId, int>, wanted: int, overfetch: int, cs: seq<Candidate>)
    requires IsLargest(allow, wanted) && wanted > 0 && FetchedFor(db, now, allow.Keys, wanted * overfetch, cs)
    ensures FairFetch(db, now, allow, wanted, overfetch, cs) && DistinctIds(cs)
  {
    hide Oldest, Due, OfConsumer, IsLargest;
  }

  // ---- What a fetch brings, in columns ----

  /** What is fetched is pending and due, with the row's own columns. */
  lemma OldestMeans(db: Tables, now: Time, scope: Scope, limit: int, cs: seq<Candidate>, c: Candidate)
    requires Oldest(db, Due(db, scope, now), limit, cs) && c in cs
    ensures c.id in db.deliveries
    ensures var row := db.deliveries[c.id];
            && row.state == Pending && row.nextAttemptAt <= now && (scope.Only? ==> row.consumer == scope.consumer)
            && c == Candidate(c.id, row.consumer, row.eventType, row.entityKey, row.createdAt)
  {
  }

  /** A due row is left behind only for as many others as were asked for, none of them due later. */
  lemma OldestLeaves(db: Tables, now: Time, scope: Scope, limit: int, cs: seq<Candidate>, d: DeliveryId)
    requires Oldest(db, Due(db, scope, now), limit, cs)
    requires d in db.deliveries && db.deliveries[d].state == Pending && db.deliveries[d].nextAttemptAt <= now
    requires scope.Only? ==> scope.consumer == db.deliveries[d].consumer
    requires forall i :: 0 <= i < |cs| ==> cs[i].id != d
    ensures |cs| == if limit > 0 then limit else 0
    ensures forall c :: c in cs ==>
              c.id in db.deliveries && db.deliveries[c.id].nextAttemptAt <= db.deliveries[d].nextAttemptAt
  {
    var pool := Due(db, scope, now);
    assert d in pool && !Ids(cs, d);
    var taken := set i | 0 <= i < |cs| :: cs[i].id;
    TakenSize(cs);
    assert taken <= pool - {d};
    SubsetSize(taken, pool - {d});
  }

  lemma {:induction false} TakenSize(cs: seq<Candidate>)
    requires DistinctIds(cs)
    ensures |set i | 0 <= i < |cs| :: cs[i].id| == |cs|
  {
    var taken := set i | 0 <= i < |cs| :: cs[i].id;
    if cs != [] {
      var n := |cs| - 1;
      var init := cs[..n];
      TakenSize(init);
      var before := set i | 0 <= i < |init| :: init[i].id;
      assert forall x :: x in taken <==> x in before + {cs[n].id};
      assert taken == before + {cs[n].id};
    } else {
      assert taken == {};
    }
  }

  /** Each consumer allowed anything gets its own oldest due rows; a row of another is never fetched. */
  lemma FairFetchMeans(
    db: Tables, now: Time, allow: map<ConsumerId, int>, wanted: int, overfetch: int, cs: seq<Candidate>, c: Candidate)
    requires FairFetch(db, now, allow, wanted, overfetch, cs) && c in cs
    ensures wanted > 0 && c.id in db.deliveries && c.consumer in allow
    ensures var row := db.deliveries[c.id];
            && row.state == Pending && row.nextAttemptAt <= now
            && c == Candidate(c.id, row.consumer, row.eventType, row.entityKey, row.createdAt)
  {
    hide Oldest, Due;
    OfConsumerHas(cs, c);
    OldestMeans(db, now, Only(c.consumer), wanted * overfetch, OfConsumer(cs, c.consumer), c);
  }

  /** A due row of an allowed consumer is left behind only once that consumer's own share of the fetch is full. */
  lemma FairFetchLeaves(
    db: Tables, now: Time, allow: map<ConsumerId, int>, wanted: int, overfetch: int, cs: seq<Candidate>, d: DeliveryId)
    requires FairFetch(db, now, allow, wanted, overfetch, cs) && wanted > 0 && overfetch > 0
    requires d in db.deliveries && db.deliveries[d].state == Pending && db.deliveries[d].nextAttemptAt <= now
    requires db.deliveries[d].consumer in allow && forall c :: c in cs ==> c.id != d
    ensures forall x :: x in allow ==> allow[x] <= wanted
    ensures var c := db.deliveries[d].consumer;
            && |OfConsumer(cs, c)| == wanted * overfetch
            && forall x :: x in OfConsumer(cs, c) ==>
                 x.id in db.deliveries && db.deliveries[x.id].nextAttemptAt <= db.deliveries[d].nextAttemptAt
  {
    hide Oldest, Due;
    var c := db.deliveries[d].consumer;
    OfConsumerOnly(cs, c);
    OldestLeaves(db, now, Only(c), wanted * overfetch, OfConsumer(cs, c), d);
  }

  /** First come, first served: a due row is left behind only once the whole fetch is full of earlier ones. */
  lemma FifoFetchLeaves(
    db: Tables, now: Time, slots: int, overfetch: int, cs: seq<Candidate>, d: DeliveryId)
    requires FifoFetch(db, now, slots, overfetch, cs) && slots > 0 && overfetch > 0
    requires d in db.deliveries && db.deliveries[d].state == Pending && db.deliveries[d].nextAttemptAt <= now
    requires forall c :: c in cs ==> c.id != d
    ensures |cs| == slots * overfetch
    ensures forall c :: c in cs ==>
              && c.id in db.deliveries && db.deliveries[c.id].state == Pending
              && db.deliveries[c.id].nextAttemptAt <= db.deliveries[d].nextAttemptAt
  {
    hide Oldest, Due;
    OldestLeaves(db, now, Everyone, slots * overfetch, cs, d);
    forall c | c in cs {
      OldestMeans(db, now, Everyone, slots * overfetch, cs, c);
    }
  }

  // ---- Allowances ----

  /** One state for each consumer, by id: the knobs, the demand and the window usage, zero where there is nothing. */
  ghost predicate StatesFor(
    sim: Simulation, demand: map<ConsumerId, int>, used: map<ConsumerId, int>, gauges: map<ConsumerId, Gauge>,
    done: set<ConsumerId>, states: seq<ConsumerState>)
  {
    && done <= sim.consumers.Keys
    && (forall i :: 0 <= i < |states| ==>
          && states[i].id in done
          && states[i] == StateOf(states[i].id, sim.consumers[states[i].id], demand, used, gauges))
    && (forall c :: c in done ==> exists i :: 0 <= i < |states| && states[i].id == c)
  }

  lemma StateOneMore(
    sim: Simulation, demand: map<ConsumerId, int>, used: map<ConsumerId, int>, gauges: map<ConsumerId, Gauge>,
    done: set<ConsumerId>, states: seq<ConsumerState>, c: ConsumerId)
    requires StatesFor(sim, demand, used, gauges, done, states) && c in sim.consumers
    ensures StatesFor(sim, demand, used, gauges, done + {c},
        states + [StateOf(c, sim.consumers[c], demand, used, gauges)])
  {
    var more := states + [StateOf(c, sim.consumers[c], demand, used, gauges)];
    forall x | x in done + {c}
      ensures exists i :: 0 <= i < |more| && more[i].id == x
    {
      if x in done {
        var i :| 0 <= i < |states| && states[i].id == x;
        assert more[i].id == x;
      } else {
        assert more[|states|].id == x;
      }
    }
  }

  /** The demand query and the window query, joined on the consumers. */
  method ReadConsumerStates(sim: Simulation, db: Tables, now: Time, gauges: map<ConsumerId, Gauge>)
    returns (states: seq<ConsumerState>)
    ensures StatesFor(sim, Demand(db, sim.consumers.Keys, now),
                      Used(db, sim.consumers.Keys, now - sim.settings.windowS),
                      gauges, sim.consumers.Keys, states)
    ensures forall i :: 0 <= i < |states| ==>
              var c, from := states[i].id, now - sim.settings.windowS;
              && c in sim.consumers
              && states[i].weight == sim.consumers[c].weight
              && states[i].concurrencyCap == sim.consumers[c].concurrencyCap
              && states[i].maxAttemptsPerS == sim.consumers[c].maxAttemptsPerS
              && states[i].demand == |set d | d in db.deliveries && db.deliveries[d].consumer == c
                                              && db.deliveries[d].state == Pending
                                              && db.deliveries[d].nextAttemptAt <= now|
              && states[i].attemptsInWindow
                 == |set a | a in db.attempts && db.attempts[a].consumer == c && from <= db.attempts[a].startedAt|
              && states[i].inFlight == (if c in gauges then gauges[c].inFlight else 0)
              && states[i].ready == (if c in gauges then gauges[c].ready else 0)
  {
    hide StateOf;
    var demand := map c | c in sim.consumers :: |Due(db, Only(c), now)|;
    var used := map c | c in sim.consumers :: |Window(db, Only(c), now - sim.settings.windowS)|;
    assert demand == Demand(db, sim.consumers.Keys, now);
    assert used == Used(db, sim.consumers.Keys, now - sim.settings.windowS);
    states := [];
    var todo := sim.consumers.Keys;
    while todo != {}
      invariant todo <= sim.consumers.Keys
      invariant StatesFor(sim, demand, used, gauges, sim.consumers.Keys - todo, states)
    {
      hide StatesFor, StateOf;
      var c := Smallest(todo);
      StateOneMore(sim, demand, used, gauges, sim.consumers.Keys - todo, states, c);
      states := states + [StateOf(c, sim.consumers[c], demand, used, gauges)];
      assert sim.consumers.Keys - (todo - {c}) == sim.consumers.Keys - todo + {c};
      todo := todo - {c};
    }
    assert sim.consumers.Keys - {} == sim.consumers.Keys;
    StatesAre(sim, db, now, gauges, states);
  }

  lemma StatesAre(sim: Simulation, db: Tables, now: Time, gauges: map<ConsumerId, Gauge>, states: seq<ConsumerState>)
    requires StatesFor(sim, Demand(db, sim.consumers.Keys, now),
                       Used(db, sim.consumers.Keys, now - sim.settings.windowS),
                       gauges, sim.consumers.Keys, states)
    ensures forall i :: 0 <= i < |states| ==>
              var c, from := states[i].id, now - sim.settings.windowS;
              && c in sim.consumers
              && states[i].weight == sim.consumers[c].weight
              && states[i].concurrencyCap == sim.consumers[c].concurrencyCap
              && states[i].maxAttemptsPerS == sim.consumers[c].maxAttemptsPerS
              && states[i].demand == |set d | d in db.deliveries && db.deliveries[d].consumer == c
                                              && db.deliveries[d].state == Pending
                                              && db.deliveries[d].nextAttemptAt <= now|
              && states[i].attemptsInWindow
                 == |set a | a in db.attempts && db.attempts[a].consumer == c && from <= db.attempts[a].startedAt|
              && states[i].inFlight == (if c in gauges then gauges[c].inFlight else 0)
              && states[i].ready == (if c in gauges then gauges[c].ready else 0)
  {
    hide Due, Window;
    var demand := Demand(db, sim.consumers.Keys, now);
    var used := Used(db, sim.consumers.Keys, now - sim.settings.windowS);
    forall i | 0 <= i < |states|
      ensures states[i].id in sim.consumers
      ensures states[i] == StateOf(states[i].id, sim.consumers[states[i].id], demand, used, gauges)
      ensures demand[states[i].id]
           == |set d | d in db.deliveries && db.deliveries[d].consumer == states[i].id
                       && db.deliveries[d].state == Pending && db.deliveries[d].nextAttemptAt <= now|
      ensures used[states[i].id]
           == |set a | a in db.attempts && db.attempts[a].consumer == states[i].id
                       && now - sim.settings.windowS <= db.attempts[a].startedAt|
    {
      ReadsOf(db, states[i].id, now, now - sim.settings.windowS);
    }
  }

  lemma ReadsOf(db: Tables, c: ConsumerId, now: Time, from: Time)
    ensures |Due(db, Only(c), now)| == |set d | d in db.deliveries && db.deliveries[d].consumer == c
                                                && db.deliveries[d].state == Pending
                                                && db.deliveries[d].nextAttemptAt <= now|
    ensures |Window(db, Only(c), from)|
         == |set a | a in db.attempts && db.attempts[a].consumer == c && from <= db.attempts[a].startedAt|
  {
    DueIs(db, c, now);
    WindowIs(db, c, from);
    var due := set d | d in db.deliveries && db.deliveries[d].consumer == c
                       && db.deliveries[d].state == Pending && db.deliveries[d].nextAttemptAt <= now;
    assert forall d :: d in Due(db, Only(c), now) <==> d in due;
    assert Due(db, Only(c), now) == due;
    var recent := set a | a in db.attempts && db.attempts[a].consumer == c && from <= db.attempts[a].startedAt;
    assert forall a :: a in Window(db, Only(c), from) <==> a in recent;
    assert Window(db, Only(c), from) == recent;
  }

  method HeadroomEach(states: seq<ConsumerState>, windowS: real, pooled: bool) returns (headroom: map<ConsumerId, int>)
    requires windowS >= 0.0 && forall i :: 0 <= i < |states| ==> states[i].maxAttemptsPerS >= 0.0
    ensures forall c :: c in headroom ==>
        exists i :: 0 <= i < |states| && states[i].id == c && headroom[c] == Headroom(states[i], windowS, pooled)
    ensures forall i :: 0 <= i < |states| ==> states[i].id in headroom
  {
    hide Headroom;
    headroom := map[];
    for i := 0 to |states|
      invariant forall c :: c in headroom ==>
          exists j :: 0 <= j < i && states[j].id == c && headroom[c] == Headroom(states[j], windowS, pooled)
      invariant forall j :: 0 <= j < i ==> states[j].id in headroom
    {
      headroom := headroom[states[i].id := Headroom(states[i], windowS, pooled)];
    }
  }

  lemma HeadroomIs(
    sim: Simulation, demand: map<ConsumerId, int>, used: map<ConsumerId, int>, gauges: map<ConsumerId, Gauge>,
    pooled: bool,
    states: seq<ConsumerState>, headroom: map<ConsumerId, int>)
    requires StatesFor(sim, demand, used, gauges, sim.consumers.Keys, states)
    requires forall i :: 0 <= i < |states| ==> states[i].maxAttemptsPerS >= 0.0
    requires forall c :: c in headroom ==>
               exists i :: 0 <= i < |states| && states[i].id == c
                   && headroom[c] == Headroom(states[i], sim.settings.windowS, pooled)
    requires forall i :: 0 <= i < |states| ==> states[i].id in headroom
    ensures headroom == Headrooms(sim, demand, used, gauges, pooled)
  {
    hide Headroom;
    forall c
      ensures c in headroom <==> c in sim.consumers
    {
      if c in sim.consumers {
        var i :| 0 <= i < |states| && states[i].id == c;
        assert states[i].id in headroom;
      }
    }
    forall c | c in headroom
      ensures headroom[c] == Headrooms(sim, demand, used, gauges, pooled)[c]
    {
      var i :| 0 <= i < |states| && states[i].id == c
          && headroom[c] == Headroom(states[i], sim.settings.windowS, pooled);
    }
  }

  lemma WeightsAre(
    sim: Simulation, demand: map<ConsumerId, int>, used: map<ConsumerId, int>, gauges: map<ConsumerId, Gauge>,
    states: seq<ConsumerState>, weights: map<ConsumerId, real>)
    requires StatesFor(sim, demand, used, gauges, sim.consumers.Keys, states) && WeightsFrom(states, weights)
    ensures weights == Weights(sim)
  {
    forall c
      ensures c in weights <==> c in sim.consumers
    {
      if c in sim.consumers {
        var i :| 0 <= i < |states| && states[i].id == c;
        assert states[i].id in weights;
      }
    }
    forall c | c in weights
      ensures weights[c] == sim.consumers[c].weight
    {
      var i :| 0 <= i < |states| && states[i].id == c && states[i].weight == weights[c];
    }
  }

  lemma KnobsArePositive(
    sim: Simulation, demand: map<ConsumerId, int>, used: map<ConsumerId, int>, gauges: map<ConsumerId, Gauge>,
    states: seq<ConsumerState>)
    requires StatesFor(sim, demand, used, gauges, sim.consumers.Keys, states)
    ensures forall i :: 0 <= i < |states| ==> states[i].weight > 0.0 && states[i].maxAttemptsPerS > 0.0
  {
  }

  /** Weighted fair shares, or one shared pool: the toggle. */
  method SetAllowances(sim: Simulation, db: Tables, now: Time, gauges: map<ConsumerId, Gauge>, slots: int, fair: bool)
    returns (allow: map<ConsumerId, int>)
    ensures Allows(sim,
              Headrooms(sim, Demand(db, sim.consumers.Keys, now),
                        Used(db, sim.consumers.Keys, now - sim.settings.windowS),
                        gauges, !fair),
              slots, fair, allow)
  {
    hide StatesFor, Headrooms, FairShare, Rooms, WeightsFrom, Weights, Demand, Used;
    ghost var demand := Demand(db, sim.consumers.Keys, now);
    ghost var used := Used(db, sim.consumers.Keys, now - sim.settings.windowS);
    var states := ReadConsumerStates(sim, db, now, gauges);
    KnobsArePositive(sim, demand, used, gauges, states);
    var headroom := HeadroomEach(states, sim.settings.windowS, !fair);
    HeadroomIs(sim, demand, used, gauges, !fair, states, headroom);
    if fair {
      ghost var weights;
      allow, weights := Allocate(states, headroom, slots);
      WeightsAre(sim, demand, used, gauges, states, weights);
    } else {
      allow := map c | c in headroom :: Min(headroom[c], slots);
    }
  }
}
