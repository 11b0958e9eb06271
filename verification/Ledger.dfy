/**
 * What the tables add up to over a whole run: coalescing never loses a key's newest event (policy.py), and every
 * event reaches each subscriber once (app/api/ingest.py).
 */
module Ledger {
  import opened Model
  import opened Sets
  import opened Policies
  import opened Lifecycle
  import opened Admission
  import opened Machine
  import opened Runs
  import opened Lifetimes

  lemma RowsOnlyGrowByIngest(sim: Simulation, w: World, a: Action, w': World)
    requires Next(sim, w, a, w') && !a.Ingest?
    ensures w'.db.deliveries.Keys == w.db.deliveries.Keys && w'.db.events == w.db.events
  {
  }

  // ---- Coalescing over a run ----

  ghost predicate SiblingAfter(db: Tables, d: DeliveryId, e: DeliveryId) {
    && d in db.deliveries && e in db.deliveries && KeyOf(db.deliveries[e]) == KeyOf(db.deliveries[d])
    && RankIn(db, d).Before(RankIn(db, e))
  }

  ghost predicate HasSibling(db: Tables, d: DeliveryId) { exists e :: SiblingAfter(db, d, e) }

  ghost predicate Coalesced(w: World) {
    && (forall d :: d in w.db.deliveries && w.db.deliveries[d].state == Superseded ==> HasSibling(w.db, d))
    && (w.conductor.Decided? ==> forall d :: d in w.conductor.drops && w.conductor.drops[d] == Superseded ==>
        HasSibling(w.db, d))
  }

  lemma SiblingKept(db: Tables, db': Tables, s: Settings, d: DeliveryId)
    requires Moves(db, db', s) && HasSibling(db, d)
    ensures HasSibling(db', d)
  {
    var e :| SiblingAfter(db, d, e);
    assert SiblingAfter(db', d, e);
  }

  lemma OnlyDropsSupersede(sim: Simulation, w: World, a: Action, w': World, d: DeliveryId)
    requires Inv(sim, w) && Next(sim, w, a, w') && d in w'.db.deliveries && w'.db.deliveries[d].state == Superseded
    ensures d in w.db.deliveries
    ensures w.db.deliveries[d].state == Superseded
         || (a.DropCondemned? && w.conductor.Decided? && d in w.conductor.drops && w.conductor.drops[d] == Superseded)
  {
    if d !in w.db.deliveries { NewRowsArePending(sim, w, a, w', d); }
    if a.Complete? && d in DeliveriesOf(a.outcomes) {
      var c :| c in a.outcomes && c.claimed.delivery == d;
    }
  }

  lemma DecidedHaveSiblings(sim: Simulation, w: World, a: Action, w': World)
    requires Inv(sim, w) && a.Decide? && Next(sim, w, a, w')
    ensures forall d :: d in w'.conductor.drops && w'.conductor.drops[d] == Superseded ==> HasSibling(w'.db, d)
  {
    DecideStep(sim, w, a, w');
    forall d | d in w'.conductor.drops && w'.conductor.drops[d] == Superseded
      ensures HasSibling(w'.db, d)
    {
      var c := CandidateOf(d, w.db.deliveries[d]);
      var e :| InQueue(w.db, e, CandidateKey(c)) && RankOf(c).Before(RankIn(w.db, e));
      assert SiblingAfter(w'.db, d, e);
    }
  }

  lemma DecidedOnlyByDecide(sim: Simulation, w: World, a: Action, w': World)
    requires Next(sim, w, a, w') && w'.conductor.Decided?
    ensures a.Decide? || w'.conductor == w.conductor
  {
  }

  lemma NextKeepsCoalesced(sim: Simulation, w: World, a: Action, w': World)
    requires Inv(sim, w) && Coalesced(w) && Next(sim, w, a, w')
    ensures Coalesced(w')
  {
    hide Next, Inv;
    NextMoves(sim, w, a, w');
    forall d | d in w'.db.deliveries && w'.db.deliveries[d].state == Superseded
      ensures HasSibling(w'.db, d)
    {
      OnlyDropsSupersede(sim, w, a, w', d);
      SiblingKept(w.db, w'.db, sim.settings, d);
    }
    if w'.conductor.Decided? {
      if a.Decide? {
        DecidedHaveSiblings(sim, w, a, w');
      } else {
        DecidedOnlyByDecide(sim, w, a, w');
        forall d | d in w'.conductor.drops && w'.conductor.drops[d] == Superseded
          ensures HasSibling(w'.db, d)
        {
          SiblingKept(w.db, w'.db, sim.settings, d);
        }
      }
    }
  }

  lemma {:induction false} RunKeepsCoalesced(sim: Simulation, ws: seq<World>, acts: seq<Action>, n: nat)
    requires Run(sim, ws, acts) && Initial(ws[0]) && n <= |acts|
    ensures Coalesced(ws[n])
  {
    hide Next, Inv;
    if n > 0 {
      RunKeepsCoalesced(sim, ws, acts, n - 1);
      RunKeepsInv(sim, ws, acts, n - 1);
      NextKeepsCoalesced(sim, ws[n - 1], acts[n - 1], ws[n]);
    }
  }

  /** The newest delivery ever ingested for a key is never superseded. */
  lemma NewestIsNeverSuperseded(sim: Simulation, ws: seq<World>, acts: seq<Action>, n: nat, d: DeliveryId)
    requires Run(sim, ws, acts) && Initial(ws[0]) && n <= |acts| && d in ws[n].db.deliveries
    requires forall e :: !SiblingAfter(ws[n].db, d, e)
    ensures ws[n].db.deliveries[d].state != Superseded
  {
    RunKeepsCoalesced(sim, ws, acts, n);
  }

  /** Whatever was superseded stands behind a newer delivery of its key that was not. */
  lemma SupersededForSomethingKept(sim: Simulation, ws: seq<World>, acts: seq<Action>, n: nat, d: DeliveryId)
    returns (e: DeliveryId)
    requires Run(sim, ws, acts) && Initial(ws[0]) && n <= |acts|
    requires d in ws[n].db.deliveries && ws[n].db.deliveries[d].state == Superseded
    ensures SiblingAfter(ws[n].db, d, e) && ws[n].db.deliveries[e].state != Superseded
    ensures var dropped, kept := ws[n].db.deliveries[d], ws[n].db.deliveries[e];
            && kept.consumer == dropped.consumer && kept.eventType == dropped.eventType
                && kept.entityKey == dropped.entityKey
            && (dropped.createdAt < kept.createdAt || (dropped.createdAt == kept.createdAt && d < e))
  {
    hide Next, Inv;
    RunKeepsCoalesced(sim, ws, acts, n);
    var db := ws[n].db;
    var newer := set x | x in db.deliveries && SiblingAfter(db, d, x);
    var x :| SiblingAfter(db, d, x);
    assert x in newer;
    e := NewestAmong(db, newer);
    assert forall y :: SiblingAfter(db, e, y) ==> y in newer;
  }

  // ---- One delivery for each event and subscriber ----

  ghost predicate Delivers(db: Tables, d: DeliveryId, e: EventId, consumer: ConsumerId) {
    d in db.deliveries && db.deliveries[d].event == e && db.deliveries[d].consumer == consumer
  }

  ghost predicate Fanned(sim: Simulation, db: Tables) {
    && (forall d :: d in db.deliveries ==>
          && db.deliveries[d].event in db.events
          && Stream(db.deliveries[d].consumer, db.events[db.deliveries[d].event].eventType) in sim.subscriptions)
    && (forall d1, d2 | d1 in db.deliveries && d2 in db.deliveries ::
          db.deliveries[d1].event == db.deliveries[d2].event && db.deliveries[d1].consumer == db.deliveries[d2].consumer
          ==> d1 == d2)
    && (forall e, p :: e in db.events && p in sim.subscriptions && p.eventType == db.events[e].eventType ==>
          exists d :: Delivers(db, d, e, p.consumer))
  }

  lemma IngestFans(sim: Simulation, db: Tables, db': Tables)
    requires Fanned(sim, db) && Ingests(db, db', sim.subscriptions)
    ensures Fanned(sim, db')
  {
    forall d | d in db'.deliveries && d !in db.deliveries
      ensures FansOut(db, db', sim.subscriptions, db'.deliveries[d].event, d, db'.deliveries[d].consumer)
    {
    }
    forall e, p | e in db'.events && p in sim.subscriptions && p.eventType == db'.events[e].eventType
      ensures exists d :: Delivers(db', d, e, p.consumer)
    {
      if e in db.events {
        var d :| Delivers(db, d, e, p.consumer);
        assert Delivers(db', d, e, p.consumer);
      } else {
        var d :| FansOut(db, db', sim.subscriptions, e, d, p.consumer);
        assert Delivers(db', d, e, p.consumer);
      }
    }
  }

  lemma NextKeepsFanned(sim: Simulation, w: World, a: Action, w': World)
    requires Inv(sim, w) && Fanned(sim, w.db) && Next(sim, w, a, w')
    ensures Fanned(sim, w'.db)
  {
    if a.Ingest? {
      IngestFans(sim, w.db, w'.db);
    } else {
      NextMoves(sim, w, a, w');
      RowsOnlyGrowByIngest(sim, w, a, w');
      hide Next, Inv;
      forall d | d in w.db.deliveries
        ensures w'.db.deliveries[d].event == w.db.deliveries[d].event
            && w'.db.deliveries[d].consumer == w.db.deliveries[d].consumer
      {
        assert Move(w.db.deliveries[d], w'.db.deliveries[d], sim.settings);
        assert KeyOf(w'.db.deliveries[d]) == KeyOf(w.db.deliveries[d]);
      }
      forall e, p | e in w'.db.events && p in sim.subscriptions && p.eventType == w'.db.events[e].eventType
        ensures exists d :: Delivers(w'.db, d, e, p.consumer)
      {
        var d :| Delivers(w.db, d, e, p.consumer);
        assert Delivers(w'.db, d, e, p.consumer);
      }
    }
  }

  lemma {:induction false} RunKeepsFanned(sim: Simulation, ws: seq<World>, acts: seq<Action>, n: nat)
    requires Run(sim, ws, acts) && Initial(ws[0]) && n <= |acts|
    ensures Fanned(sim, ws[n].db)
  {
    hide Next, Inv;
    if n > 0 {
      RunKeepsFanned(sim, ws, acts, n - 1);
      RunKeepsInv(sim, ws, acts, n - 1);
      NextKeepsFanned(sim, ws[n - 1], acts[n - 1], ws[n]);
    }
  }

  // ---- What a row says of its event ----

  ghost predicate Copies(db: Tables, d: DeliveryId)
    requires d in db.deliveries
  {
    var row := db.deliveries[d];
    && row.event in db.events
    && row.eventType == db.events[row.event].eventType
    && row.entityKey == db.events[row.event].entityKey
    && row.createdAt == db.events[row.event].occurredAt
  }

  lemma NextKeepsCopies(sim: Simulation, w: World, a: Action, w': World, d: DeliveryId)
    requires Inv(sim, w) && Next(sim, w, a, w') && d in w'.db.deliveries
    requires d in w.db.deliveries ==> Copies(w.db, d)
    ensures Copies(w'.db, d)
  {
    if d !in w.db.deliveries {
      NewRowsArePending(sim, w, a, w', d);
      IngestMeans(w.db, w'.db, sim.subscriptions, d);
    } else {
      NextMoves(sim, w, a, w');
      EventsStay(sim, w, a, w', w.db.deliveries[d].event);
      hide Next, Inv;
      assert Move(w.db.deliveries[d], w'.db.deliveries[d], sim.settings);
    }
  }

  lemma EventsStay(sim: Simulation, w: World, a: Action, w': World, e: EventId)
    requires Next(sim, w, a, w') && e in w.db.events
    ensures e in w'.db.events && w'.db.events[e] == w.db.events[e]
  {
  }

  /** In every state of every run a delivery has the type, the entity and the time of its event, whatever befell it. */
  lemma {:induction false} RowsCopyTheirEvents(
    sim: Simulation, ws: seq<World>, acts: seq<Action>, n: nat, d: DeliveryId)
    requires Run(sim, ws, acts) && Initial(ws[0]) && n <= |acts| && d in ws[n].db.deliveries
    ensures var row := ws[n].db.deliveries[d];
            && row.event in ws[n].db.events
            && row.eventType == ws[n].db.events[row.event].eventType
            && row.entityKey == ws[n].db.events[row.event].entityKey
            && row.createdAt == ws[n].db.events[row.event].occurredAt
  {
    hide Next, Inv;
    assert Copies(ws[n].db, d) by {
      assert n > 0;
      if d in ws[n - 1].db.deliveries { RowsCopyTheirEvents(sim, ws, acts, n - 1, d); }
      RunKeepsInv(sim, ws, acts, n - 1);
      NextKeepsCopies(sim, ws[n - 1], acts[n - 1], ws[n], d);
    }
  }

  ghost function Subscribers(subs: set<Stream>, eventType: string): set<ConsumerId> {
    set p | p in subs && p.eventType == eventType :: p.consumer
  }

  ghost function DeliveriesOfEvent(db: Tables, e: EventId): set<DeliveryId> {
    set d | d in db.deliveries && db.deliveries[d].event == e
  }

  ghost function FanOuts(sim: Simulation, db: Tables): map<EventId, int> {
    map e | e in db.events :: |Subscribers(sim.subscriptions, db.events[e].eventType)|
  }

  lemma EventReachesItsSubscribers(sim: Simulation, db: Tables, e: EventId)
    requires Fanned(sim, db) && e in db.events
    ensures |DeliveriesOfEvent(db, e)| == |Subscribers(sim.subscriptions, db.events[e].eventType)|
  {
    var mine := DeliveriesOfEvent(db, e);
    var consumerOf: map<int, int> := map d | d in mine :: db.deliveries[d].consumer;
    var subs := Subscribers(sim.subscriptions, db.events[e].eventType);
    ImageSize(mine, consumerOf);
    forall c
      ensures c in Image(mine, consumerOf) <==> c in subs
    {
      if c in subs {
        var p :| p in sim.subscriptions && p.eventType == db.events[e].eventType && p.consumer == c;
        var d :| Delivers(db, d, e, p.consumer);
        assert d in mine && consumerOf[d] == c;
      }
      if c in Image(mine, consumerOf) {
        var d :| d in mine && consumerOf[d] == c;
        assert Stream(c, db.events[e].eventType) in sim.subscriptions;
      }
    }
    assert Image(mine, consumerOf) == subs;
  }

  ghost function ActiveCount(db: Tables): int {
    |InState(db, Everyone, Pending)| + |InState(db, Everyone, Ready)| + |InState(db, Everyone, InFlight)|
  }

  ghost function Settled(db: Tables): set<DeliveryId> {
    set d | d in db.deliveries && db.deliveries[d].state.Terminal()
  }

  lemma SettledPartition(db: Tables)
    ensures |Settled(db)| == |InState(db, Everyone, Delivered)| + |InState(db, Everyone, Expired)|
                           + |InState(db, Everyone, Superseded)| + |InState(db, Everyone, Failed)|
  {
    FourParts(InState(db, Everyone, Delivered), InState(db, Everyone, Expired),
              InState(db, Everyone, Superseded), InState(db, Everyone, Failed), Settled(db));
  }

  lemma StatesPartition(db: Tables)
    ensures |db.deliveries.Keys| == ActiveCount(db) + |Settled(db)|
  {
    FourParts(InState(db, Everyone, Pending), InState(db, Everyone, Ready), InState(db, Everyone, InFlight),
              Settled(db), db.deliveries.Keys);
  }

  /** Fan-out is conserved: what was owed to subscribers is active, delivered, expired, superseded or failed. */
  lemma FanOutIsConserved(sim: Simulation, ws: seq<World>, acts: seq<Action>, n: nat)
    requires Run(sim, ws, acts) && Initial(ws[0]) && n <= |acts|
    ensures var db := ws[n].db;
            Total(db.events.Keys, FanOuts(sim, db)) == ActiveCount(db)
            + |InState(db, Everyone, Delivered)| + |InState(db, Everyone, Expired)|
            + |InState(db, Everyone, Superseded)| + |InState(db, Everyone, Failed)|
  {
    hide Next, Inv;
    RunKeepsFanned(sim, ws, acts, n);
    var db := ws[n].db;
    var members: map<int, set<DeliveryId>> := map e | e in db.events :: DeliveriesOfEvent(db, e);
    forall e | e in db.events
      ensures FanOuts(sim, db)[e] == |members[e]|
    {
      EventReachesItsSubscribers(sim, db, e);
    }
    forall d
      ensures d in db.deliveries.Keys <==> exists e :: e in db.events.Keys && d in members[e]
    {
      if d in db.deliveries { assert d in members[db.deliveries[d].event]; }
    }
    PartitionSize(db.events.Keys, members, FanOuts(sim, db), db.deliveries.Keys);
    StatesPartition(db);
    SettledPartition(db);
  }
}
