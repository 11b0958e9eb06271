/** Weighted round-robin over indivisible slots (app/conductor/admission.py, allocate). */
module Allocator {
  import opened Model
  import opened Sets

  datatype ConsumerState = ConsumerState(
    id: ConsumerId,
    weight: real,
    concurrencyCap: int,
    maxAttemptsPerS: real,
    demand: int,
    attemptsInWindow: int,
    inFlight: int,
    ready: int)

  function Get(m: map<ConsumerId, int>, c: ConsumerId): int { if c in m then m[c] else 0 }

  function Share(granted: int, weight: real): real
    requires weight > 0.0
  {
    granted as real / weight
  }

  /** Furthest behind first; equal shares go to the smaller id. */
  predicate Ahead(x: real, i: ConsumerId, y: real, j: ConsumerId) { x < y || (x == y && i < j) }

  ghost predicate Positive(weights: map<ConsumerId, real>) { forall c :: c in weights ==> weights[c] > 0.0 }

  /** What each consumer may take: its headroom, never negative, zero when it has none recorded. */
  ghost function Rooms(weights: map<ConsumerId, real>, headroom: map<ConsumerId, int>): map<ConsumerId, int> {
    map c | c in weights :: Max(0, Get(headroom, c))
  }

  ghost predicate Fits(weights: map<ConsumerId, real>, room: map<ConsumerId, int>, g: map<ConsumerId, int>) {
    && Positive(weights) && g.Keys == weights.Keys == room.Keys
    && forall c :: c in g ==> 0 <= g[c] <= room[c]
  }

  /** When j was given its last slot, i at its present grant was not further behind. */
  ghost predicate NotOvertaken(weights: map<ConsumerId, real>, g: map<ConsumerId, int>, j: ConsumerId, i: ConsumerId)
    requires Positive(weights) && g.Keys == weights.Keys && i in g && j in g
  {
    Ahead(Share(g[j] - 1, weights[j]), j, Share(g[i], weights[i]), i)
  }

  /** Weighted max-min to within one slot: no slot is held past a consumer that still has room. */
  ghost predicate Balanced(weights: map<ConsumerId, real>, room: map<ConsumerId, int>, g: map<ConsumerId, int>)
    requires Fits(weights, room, g)
  {
    forall i, j {:trigger NotOvertaken(weights, g, j, i)} ::
      i in g && j in g && i != j && g[i] < room[i] && g[j] >= 1 ==> NotOvertaken(weights, g, j, i)
  }

  ghost predicate FairShare(
    weights: map<ConsumerId, real>, room: map<ConsumerId, int>, budget: int, g: map<ConsumerId, int>)
  {
    && Fits(weights, room, g)
    && Total(g.Keys, g) == Min(Max(0, budget), Total(room.Keys, room))
    && Balanced(weights, room, g)
  }

  ghost predicate Neediest(
    weights: map<ConsumerId, real>, room: map<ConsumerId, int>, g: map<ConsumerId, int>, w: ConsumerId)
    requires Fits(weights, room, g)
  {
    && w in g && g[w] < room[w]
    && forall i :: i in g && g[i] < room[i] && i != w ==>
         Ahead(Share(g[w], weights[w]), w, Share(g[i], weights[i]), i)
  }

  lemma ShareGrows(m: int, n: int, weight: real)
    requires weight > 0.0 && m <= n
    ensures Share(m, weight) <= Share(n, weight)
    ensures m < n ==> Share(m, weight) < Share(n, weight)
  {
    assert Share(n, weight) - Share(m, weight) == (n - m) as real / weight;
    if m < n { assert (n - m) as real / weight > 0.0; }
  }

  /** One more slot to the neediest is the fair share of one more slot. */
  lemma NextSlot(
    weights: map<ConsumerId, real>, room: map<ConsumerId, int>, budget: nat, g: map<ConsumerId, int>, w: ConsumerId)
    requires FairShare(weights, room, budget, g) && Neediest(weights, room, g, w)
    ensures FairShare(weights, room, budget + 1, g[w := g[w] + 1])
  {
    var h := g[w := g[w] + 1];
    TotalUpdate(g.Keys, g, w, g[w] + 1);
    assert h.Keys == g.Keys;
    TotalAtMost(g.Keys, g, room);
    TotalAtMost(g.Keys, h, room);
    forall i, j | i in h && j in h && i != j && h[i] < room[i] && h[j] >= 1
      ensures NotOvertaken(weights, h, j, i)
    {
      assert i != w && j != w ==> NotOvertaken(weights, g, j, i);
      if i == w {
        assert NotOvertaken(weights, g, j, i);
        ShareGrows(g[w], h[w], weights[w]);
      }
    }
  }

  /** No room left: handing out more slots changes nothing. */
  lemma Saturated(weights: map<ConsumerId, real>, room: map<ConsumerId, int>, budget: nat, more: nat,
      g: map<ConsumerId, int>)
    requires FairShare(weights, room, budget, g) && budget <= more
    requires forall c :: c in g ==> g[c] == room[c]
    ensures FairShare(weights, room, more, g)
  {
    TotalAgree(g.Keys, g, room);
  }

  lemma NothingYet(weights: map<ConsumerId, real>, room: map<ConsumerId, int>, g: map<ConsumerId, int>)
    requires Fits(weights, room, g) && forall c :: c in g ==> g[c] == 0
    ensures FairShare(weights, room, 0, g)
  {
    TotalZero(g.Keys, g);
    TotalAtMost(g.Keys, g, room);
  }

  /** `min(active, key=...)`. */
  method PickWinner(
    ghost room: map<ConsumerId, int>, weights: map<ConsumerId, real>, granted: map<ConsumerId, int>,
    active: set<ConsumerId>)
    returns (w: ConsumerId)
    requires Fits(weights, room, granted)
    requires active != {} && Unsaturated(weights, room, granted, active)
    ensures w in active && Neediest(weights, room, granted, w)
    ensures forall c :: c in active && c != w ==>
              var mine, other := granted[w] as real / weights[w], granted[c] as real / weights[c];
              mine < other || (mine == other && w < c)
  {
    ghost var some: ConsumerId := Member(active);
    w :| w in active;
    var todo := active - {w};
    while todo != {}
      invariant todo <= active && w in active && w !in todo
      invariant forall i :: i in active - todo && i != w ==>
                  Ahead(Share(granted[w], weights[w]), w, Share(granted[i], weights[i]), i)
    {
      ghost var other: ConsumerId := Member(todo);
      var c: ConsumerId :| c in todo;
      if Ahead(Share(granted[c], weights[c]), c, Share(granted[w], weights[w]), w) { w := c; }
      todo := todo - {c};
    }
  }

  /** Every listed consumer has one of its listed weights. */
  ghost predicate WeightsFrom(states: seq<ConsumerState>, weights: map<ConsumerId, real>) {
    && (forall i :: 0 <= i < |states| ==> states[i].id in weights)
    && (forall c :: c in weights ==>
        exists i :: 0 <= i < |states| && states[i].id == c && states[i].weight == weights[c])
  }

  /** `granted`, `weights` and `active` before any slot is handed out. */
  method StartAllocation(states: seq<ConsumerState>, headroom: map<ConsumerId, int>)
    returns (granted: map<ConsumerId, int>, weights: map<ConsumerId, real>, active: set<ConsumerId>)
    requires forall i :: 0 <= i < |states| ==> states[i].weight > 0.0
    ensures WeightsFrom(states, weights)
    ensures granted == map c | c in weights :: 0
    ensures Positive(weights)
    ensures active == set c | c in weights && Get(headroom, c) > 0
  {
    granted, weights, active := map[], map[], {};
    for i := 0 to |states|
      invariant WeightsFrom(states[..i], weights)
      invariant granted == map c | c in weights :: 0
      invariant Positive(weights)
      invariant active == set c | c in weights && Get(headroom, c) > 0
    {
      granted := granted[states[i].id := 0];
      weights := weights[states[i].id := states[i].weight];
      if Get(headroom, states[i].id) > 0 { active := active + {states[i].id}; }
      assert states[..i + 1] == states[..i] + [states[i]];
    }
    assert states[..|states|] == states;
  }

  ghost predicate Unsaturated(
    weights: map<ConsumerId, real>, room: map<ConsumerId, int>, g: map<ConsumerId, int>, active: set<ConsumerId>)
    requires Fits(weights, room, g)
  {
    forall c :: c in active <==> c in g && g[c] < room[c]
  }

  lemma AllUnsaturated(
    weights: map<ConsumerId, real>, headroom: map<ConsumerId, int>, g: map<ConsumerId, int>, active: set<ConsumerId>)
    requires Positive(weights) && g == map c | c in weights :: 0
    requires active == set c | c in weights && Get(headroom, c) > 0
    ensures Fits(weights, Rooms(weights, headroom), g) && Unsaturated(weights, Rooms(weights, headroom), g, active)
  {
  }

  /** The winner leaves the loop once its room is gone; everybody else is as they were. */
  lemma OneSlotLess(
    weights: map<ConsumerId, real>, room: map<ConsumerId, int>, g: map<ConsumerId, int>, active: set<ConsumerId>,
    w: ConsumerId)
    requires Fits(weights, room, g) && Unsaturated(weights, room, g, active) && w in active
    ensures w in g && g[w] < room[w] && Fits(weights, room, g[w := g[w] + 1])
    ensures Unsaturated(weights, room, g[w := g[w] + 1], if g[w] + 1 >= room[w] then active - {w} else active)
  {
  }

  lemma NobodyLeft(
    weights: map<ConsumerId, real>, room: map<ConsumerId, int>, g: map<ConsumerId, int>, active: set<ConsumerId>)
    requires Fits(weights, room, g) && Unsaturated(weights, room, g, active) && active == {}
    ensures forall c :: c in g ==> g[c] == room[c]
  {
  }

  /** The consumer could have taken another slot. */
  ghost predicate LeftWanting(headroom: map<ConsumerId, int>, g: map<ConsumerId, int>, i: ConsumerId) {
    i in g && i in headroom && g[i] < headroom[i]
  }

  /** Somebody else was given one. */
  ghost predicate Served(g: map<ConsumerId, int>, i: ConsumerId, j: ConsumerId) { j in g && j != i && g[j] >= 1 }

  /** Slots go one at a time to the neediest consumer until the budget or the room runs out. */
  method Allocate(states: seq<ConsumerState>, headroom: map<ConsumerId, int>, budget: int)
    returns (granted: map<ConsumerId, int>, weights: map<ConsumerId, real>)
    requires forall i :: 0 <= i < |states| ==> states[i].weight > 0.0
    ensures WeightsFrom(states, weights)
    ensures FairShare(weights, Rooms(weights, headroom), budget, granted)
    ensures forall c :: c in granted ==> 0 <= granted[c] <= if c in headroom && headroom[c] > 0 then headroom[c] else 0
    ensures forall i, j :: (&& i in granted && j in granted
                            && LeftWanting(headroom, granted, i) && Served(granted, i, j)) ==>
              var last, next := (granted[j] - 1) as real / weights[j], granted[i] as real / weights[i];
              last < next || (last == next && j < i)
  {
    hide Total, Balanced, WeightsFrom, LeftWanting, Served, Unsaturated, Neediest;
    var active;
    granted, weights, active := StartAllocation(states, headroom);
    ghost var room := Rooms(weights, headroom);
    NothingYet(weights, room, granted);
    AllUnsaturated(weights, headroom, granted, active);
    var step := 0;
    while step < budget && active != {}
      invariant 0 <= step <= Max(0, budget)
      invariant FairShare(weights, room, step, granted)
      invariant Unsaturated(weights, room, granted, active)
      decreases budget - step
    {
      var winner := PickWinner(room, weights, granted, active);
      NextSlot(weights, room, step, granted, winner);
      OneSlotLess(weights, room, granted, active, winner);
      granted := granted[winner := granted[winner] + 1];
      if granted[winner] >= Get(headroom, winner) { active := active - {winner}; }
      step := step + 1;
    }
    if step < budget {
      NobodyLeft(weights, room, granted, active);
      Saturated(weights, room, step, budget, granted);
    }
    ShareInNumbers(weights, headroom, budget, granted);
  }

  /**
    * No slot is held past a consumer that still has room: when j was given its last one it was further behind than i
    * is now, or level with it and of the smaller id.
    */
  lemma LastSlot(
    weights: map<ConsumerId, real>, room: map<ConsumerId, int>, budget: int, g: map<ConsumerId, int>,
    i: ConsumerId, j: ConsumerId)
    requires FairShare(weights, room, budget, g)
    requires i in g && j in g && i != j && g[i] < room[i] && g[j] >= 1
    ensures var last, next := (g[j] - 1) as real / weights[j], g[i] as real / weights[i];
            last < next || (last == next && j < i)
  {
    hide Total;
    assert NotOvertaken(weights, g, j, i);
  }

  lemma ShareInNumbers(
    weights: map<ConsumerId, real>, headroom: map<ConsumerId, int>, budget: int, g: map<ConsumerId, int>)
    requires FairShare(weights, Rooms(weights, headroom), budget, g)
    ensures forall c :: c in g ==> 0 <= g[c] <= if c in headroom && headroom[c] > 0 then headroom[c] else 0
    ensures forall i, j :: i in g && j in g && LeftWanting(headroom, g, i) && Served(g, i, j) ==>
              var last, next := (g[j] - 1) as real / weights[j], g[i] as real / weights[i];
              last < next || (last == next && j < i)
  {
    hide Total, Balanced;
    forall i, j | i in g && j in g && LeftWanting(headroom, g, i) && Served(g, i, j)
      ensures var last, next := (g[j] - 1) as real / weights[j], g[i] as real / weights[i];
              last < next || (last == next && j < i)
    {
      LastSlot(weights, Rooms(weights, headroom), budget, g, i, j);
    }
  }

  /** Under equal weights a consumer with room left has at least what any later one has, and one less than any other. */
  lemma EqualWeightsInOrder(
    weights: map<ConsumerId, real>, room: map<ConsumerId, int>, budget: int, g: map<ConsumerId, int>,
    i: ConsumerId, j: ConsumerId)
    requires FairShare(weights, room, budget, g)
    requires i in g && j in g && i != j && g[i] < room[i] && weights[i] == weights[j]
    ensures g[j] <= g[i] + if i < j then 0 else 1
  {
    hide Total, Balanced;
    if g[j] >= 1 {
      LastSlot(weights, room, budget, g, i, j);
      if g[j] - 1 > g[i] { ShareGrows(g[i], g[j] - 1, weights[i]); }
      if g[j] - 1 == g[i] { assert (g[j] - 1) as real / weights[j] == g[i] as real / weights[i]; }
    }
  }

  // ---- What the split promises ----

  lemma {:induction false} SomeoneGains(s: set<ConsumerId>, f: map<ConsumerId, int>, g: map<ConsumerId, int>)
    returns (i: ConsumerId, j: ConsumerId)
    requires s <= f.Keys && s <= g.Keys && Total(s, f) == Total(s, g)
    requires exists c :: c in s && f[c] != g[c]
    ensures i in s && j in s && f[i] < g[i] && f[j] > g[j]
  {
    if forall c :: c in s ==> f[c] <= g[c] { TotalAtMost(s, f, g); }
    if forall c :: c in s ==> f[c] >= g[c] { TotalAtMost(s, g, f); }
    i :| i in s && f[i] < g[i];
    j :| j in s && f[j] > g[j];
  }

  /** There is one fair share: the split depends on neither the order of consumers nor the loop. */
  lemma FairShareIsUnique(
    weights: map<ConsumerId, real>, room: map<ConsumerId, int>, budget: int,
    f: map<ConsumerId, int>, g: map<ConsumerId, int>)
    requires FairShare(weights, room, budget, f) && FairShare(weights, room, budget, g)
    ensures f == g
  {
    if exists c :: c in f && f[c] != g[c] {
      var i, j := SomeoneGains(f.Keys, f, g);
      // i holds less under f, j holds less under g: each would have had to be ahead of the other.
      assert NotOvertaken(weights, f, j, i) && NotOvertaken(weights, g, i, j);
      ShareGrows(f[i], g[i] - 1, weights[i]);
      ShareGrows(g[j], f[j] - 1, weights[j]);
      assert false;
    }
  }

  lemma {:induction false} NeediestExists(
    weights: map<ConsumerId, real>, room: map<ConsumerId, int>, g: map<ConsumerId, int>, s: set<ConsumerId>)
    returns (w: ConsumerId)
    requires Fits(weights, room, g)
    requires s != {} && s <= set c | c in g && g[c] < room[c]
    ensures w in s
    ensures forall i :: i in s && i != w ==> Ahead(Share(g[w], weights[w]), w, Share(g[i], weights[i]), i)
    decreases |s|
  {
    var x := Member(s);
    w := x;
    if s - {x} != {} {
      var v := NeediestExists(weights, room, g, s - {x});
      if Ahead(Share(g[v], weights[v]), v, Share(g[x], weights[x]), x) { w := v; }
    }
    assert forall i :: i in s ==> i == x || i in s - {x};
  }

  /** One more slot of budget moves nobody else: it is handed to one consumer, or nobody has room for it. */
  lemma BudgetGrowsBySlots(
    weights: map<ConsumerId, real>, room: map<ConsumerId, int>, budget: nat,
    f: map<ConsumerId, int>, g: map<ConsumerId, int>)
    requires FairShare(weights, room, budget, f) && FairShare(weights, room, budget + 1, g)
    ensures if budget < Total(room.Keys, room)
            then exists w :: w in f && f[w] < room[w] && g == f[w := f[w] + 1]
            else g == f
  {
    var open := set c | c in f && f[c] < room[c];
    TotalAtMost(f.Keys, f, room);
    if open == {} {
      assert forall c :: c in f && f[c] < room[c] ==> c in open;
      TotalAgree(f.Keys, f, room);
      Saturated(weights, room, budget, budget + 1, f);
      FairShareIsUnique(weights, room, budget + 1, f, g);
    } else {
      var w := NeediestExists(weights, room, f, open);
      NextSlot(weights, room, budget, f, w);
      FairShareIsUnique(weights, room, budget + 1, f[w := f[w] + 1], g);
    }
  }

  ghost function TotalWeight(s: set<ConsumerId>, weights: map<ConsumerId, real>): real
    requires s <= weights.Keys
  {
    if s == {} then 0.0 else var x := Member(s); weights[x] + TotalWeight(s - {x}, weights)
  }

  lemma {:induction false} TotalWeightPick(s: set<ConsumerId>, weights: map<ConsumerId, real>, x: ConsumerId)
    requires s <= weights.Keys && x in s
    ensures TotalWeight(s, weights) == weights[x] + TotalWeight(s - {x}, weights)
    decreases |s|
  {
    var y := Member(s);
    if y != x {
      TotalWeightPick(s - {y}, weights, x);
      TotalWeightPick(s - {x}, weights, y);
      assert s - {y} - {x} == s - {x} - {y};
    }
  }

  /** If nobody is more than one slot past the level x, the total is within one slot each of the weighted level. */
  lemma {:induction false} LevelBoundsTotal(
    s: set<ConsumerId>, weights: map<ConsumerId, real>, g: map<ConsumerId, int>, x: real)
    requires s <= weights.Keys && s <= g.Keys
    requires forall j :: j in s ==> g[j] as real <= weights[j] * x + 1.0
    ensures Total(s, g) as real <= TotalWeight(s, weights) * x + |s| as real
  {
    if s != {} {
      var j := Member(s);
      TotalPick(s, g, j);
      TotalWeightPick(s, weights, j);
      LevelBoundsTotal(s - {j}, weights, g, x);
      assert (weights[j] + TotalWeight(s - {j}, weights)) * x == weights[j] * x + TotalWeight(s - {j}, weights) * x;
    }
  }

  lemma LevelFromShare(n: int, w: real, x: real)
    requires w > 0.0 && n >= 0 && x >= 0.0
    requires n >= 1 ==> Share(n - 1, w) <= x
    ensures n as real <= w * x + 1.0
  {
    assert w * x >= 0.0;
    if n >= 1 {
      assert Share(n - 1, w) * w == (n - 1) as real;
      assert Share(n - 1, w) * w <= x * w;
    }
  }

  lemma ScaleLevel(mine: real, w: real, x: real, others: real, budget: real, slack: real, all: real, net: real)
    requires w > 0.0 && x * w == mine
    requires budget <= mine + (others * x + slack)
    requires all == w + others && net == budget - slack
    ensures mine * all >= w * net
  {
    assert w * (others * x) == others * mine;
    assert net <= mine + others * x;
    assert w * net <= w * (mine + others * x);
    assert w * (mine + others * x) == w * mine + w * (others * x);
    assert mine * all == mine * w + mine * others;
  }

  lemma OthersWithinLevel(
    weights: map<ConsumerId, real>, room: map<ConsumerId, int>, g: map<ConsumerId, int>, i: ConsumerId, x: real)
    requires Fits(weights, room, g) && Balanced(weights, room, g) && i in g && g[i] < room[i]
    requires x == Share(g[i], weights[i]) >= 0.0
    ensures forall j :: j in g && j != i ==> g[j] as real <= weights[j] * x + 1.0
  {
    forall j | j in g && j != i
      ensures g[j] as real <= weights[j] * x + 1.0
    {
      assert g[j] >= 1 ==> NotOvertaken(weights, g, j, i);
      LevelFromShare(g[j], weights[j], x);
    }
  }

  lemma LevelIsolates(
    weights: map<ConsumerId, real>, g: map<ConsumerId, int>, i: ConsumerId, x: real, others: set<ConsumerId>,
    budget: int)
    requires i in g && g.Keys == weights.Keys && weights[i] > 0.0 && x * weights[i] == g[i] as real
    requires others == g.Keys - {i} && Total(g.Keys, g) == budget
    requires Total(others, g) as real <= TotalWeight(others, weights) * x + |others| as real
    ensures g[i] as real * TotalWeight(g.Keys, weights) >= weights[i] * (budget as real - (|g.Keys| - 1) as real)
  {
    hide TotalWeight, Total;
    TotalPick(g.Keys, g, i);
    TotalWeightPick(g.Keys, weights, i);
    assert |g.Keys| - 1 == |others|;
    ScaleLevel(g[i] as real, weights[i], x, TotalWeight(others, weights), budget as real, |others| as real,
               TotalWeight(g.Keys, weights), budget as real - (|g.Keys| - 1) as real);
  }

  /**
   * Isolation: a consumer left wanting was given its weighted part of the budget, less one slot for each
   * other consumer, whatever the others asked for.
   */
  lemma Isolation(
    weights: map<ConsumerId, real>, room: map<ConsumerId, int>, budget: nat, g: map<ConsumerId, int>, i: ConsumerId)
    requires FairShare(weights, room, budget, g) && i in g && g[i] < room[i]
    ensures g[i] as real * TotalWeight(g.Keys, weights) >= weights[i] * (budget as real - (|g.Keys| - 1) as real)
  {
    hide TotalWeight, Total, Balanced;
    var x := Share(g[i], weights[i]);
    var others := g.Keys - {i};
    ShareGrows(0, g[i], weights[i]);
    assert x * weights[i] == g[i] as real;
    OthersWithinLevel(weights, room, g, i, x);
    LevelBoundsTotal(others, weights, g, x);
    TotalAtMost(g.Keys, g, room);
    LevelIsolates(weights, g, i, x, others, budget);
  }

  lemma ProductPositive(a: real, b: real)
    requires a > 0.0 && b > 0.0
    ensures a * b > 0.0
  {
  }

  lemma {:induction false} EqualWeights(s: set<ConsumerId>, weights: map<ConsumerId, real>, each: real)
    requires s <= weights.Keys && forall c :: c in s ==> weights[c] == each
    ensures TotalWeight(s, weights) == each * |s| as real
  {
    if s != {} {
      var x := Member(s);
      TotalWeightPick(s, weights, x);
      EqualWeights(s - {x}, weights, each);
    }
  }

  /** Equal weights and at least one slot each: nobody with room is starved in a pass. */
  lemma EqualWeightsNeverStarve(
    weights: map<ConsumerId, real>, room: map<ConsumerId, int>, budget: nat, g: map<ConsumerId, int>, i: ConsumerId)
    requires FairShare(weights, room, budget, g) && i in g && room[i] > 0
    requires forall c :: c in weights ==> weights[c] == weights[i]
    requires budget >= |g.Keys|
    ensures g[i] >= 1
  {
    hide TotalWeight, Total, Balanced;
    if g[i] < room[i] {
      Isolation(weights, room, budget, g, i);
      ProductPositive(weights[i], budget as real - (|g.Keys| - 1) as real);
    }
  }
}
