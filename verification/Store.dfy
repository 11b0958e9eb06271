/**
 * The tables as the processes rewrite them, statement by statement: ingest (app/api/ingest.py), claim and complete
 * (app/worker/claim.py), reclaim (app/conductor/reaper.py), drops and admissions (policy.py, admission.py).
 */
module Store {
  import opened Model
  import opened Sets
  import opened Policies
  import opened Lifecycle

  datatype EventSpec = EventSpec(eventType: string, entityKey: string, occurredAt: Option<Time>)

  function Ledgered(spec: EventSpec, now: Time): Event {
    Event(spec.eventType, spec.entityKey, if spec.occurredAt.Some? then spec.occurredAt.value else now)
  }

  /** The ledger after a batch: what was there, and one event for each spec under the next ids. */
  ghost predicate Appends(was: map<EventId, Event>, now: map<EventId, Event>, first: EventId, specs: seq<EventSpec>,
      at: Time) {
    && (forall e :: e in was ==> e in now && now[e] == was[e])
    && (forall e :: e in now && e !in was ==> first <= e < first + |specs|)
    && (forall i {:trigger AppendedAt(was, now, first, specs, at, i)} :: 0 <= i < |specs| ==>
        AppendedAt(was, now, first, specs, at, i))
  }

  ghost predicate AppendedAt(
    was: map<EventId, Event>, now: map<EventId, Event>, first: EventId, specs: seq<EventSpec>, at: Time, i: nat)
    requires i < |specs|
  {
    first + i !in was && first + i in now && now[first + i] == Ledgered(specs[i], at)
  }

  lemma AppendOneMore(was: map<EventId, Event>, now: map<EventId, Event>, first: EventId, specs: seq<EventSpec>,
      spec: EventSpec, at: Time)
    requires Appends(was, now, first, specs, at) && forall e :: e in was ==> e < first
    ensures Appends(was, now[first + |specs| := Ledgered(spec, at)], first, specs + [spec], at)
  {
    var more, later := specs + [spec], now[first + |specs| := Ledgered(spec, at)];
    forall i | 0 <= i < |more|
      ensures AppendedAt(was, later, first, more, at, i)
    {
      if i < |specs| { assert AppendedAt(was, now, first, specs, at, i); }
    }
  }

  lemma AppendsMean(was: map<EventId, Event>, now: map<EventId, Event>, first: EventId, specs: seq<EventSpec>,
      at: Time, i: nat)
    requires Appends(was, now, first, specs, at) && i < |specs|
    ensures first + i !in was && first + i in now
    ensures now[first + i].eventType == specs[i].eventType && now[first + i].entityKey == specs[i].entityKey
    ensures now[first + i].occurredAt == if specs[i].occurredAt.Some? then specs[i].occurredAt.value else at
  {
    assert AppendedAt(was, now, first, specs, at, i);
  }

  // ---- Fan-out, one pair at a time ----

  datatype Sending = Sending(event: EventId, consumer: ConsumerId)

  function Listed(byType: map<string, seq<ConsumerId>>, eventType: string): seq<ConsumerId> {
    if eventType in byType then byType[eventType] else []
  }

  ghost predicate Lists(subs: set<Stream>, eventType: string, cs: seq<ConsumerId>) {
    && (forall i, j :: 0 <= i < j < |cs| ==> cs[i] != cs[j])
    && (forall c :: c in cs <==> Stream(c, eventType) in subs)
  }

  ghost predicate ListsAll(subs: set<Stream>, types: set<string>, byType: map<string, seq<ConsumerId>>) {
    forall t {:trigger Listed(byType, t)} :: t in types ==> Lists(subs, t, Listed(byType, t))
  }

  lemma ListOneMore(
    subs: set<Stream>, types: set<string>, byType: map<string, seq<ConsumerId>>, after: map<string, seq<ConsumerId>>,
    p: Stream)
    requires ListsAll(subs, types, byType) && p !in subs
    requires after == if p.eventType in types then byType[p.eventType := Listed(byType, p.eventType) + [p.consumer]]
        else byType
    ensures ListsAll(subs + {p}, types, after)
  {
    forall t | t in types
      ensures Lists(subs + {p}, t, Listed(after, t))
    {
      var was, cs := Listed(byType, t), Listed(after, t);
      assert Lists(subs, t, was);
      if t == p.eventType {
        assert cs == was + [p.consumer];
      }
      forall c
        ensures c in cs <==> Stream(c, t) in subs + {p}
      {
      }
    }
  }

  method SubscribersByType(subs: set<Stream>, types: set<string>) returns (byType: map<string, seq<ConsumerId>>)
    ensures ListsAll(subs, types, byType)
  {
    byType := map[];
    var todo := subs;
    assert ListsAll({}, types, byType);
    hide ListsAll;
    while todo != {}
      invariant todo <= subs
      invariant ListsAll(subs - todo, types, byType)
    {
      ghost var some: Stream := Member(todo);
      var p: Stream :| p in todo;
      ghost var was, done := byType, subs - todo;
      if p.eventType in types { byType := byType[p.eventType := Listed(byType, p.eventType) + [p.consumer]]; }
      ListOneMore(done, types, was, byType, p);
      todo := todo - {p};
      assert subs - todo == done + {p};
    }
    assert subs - {} == subs;
  }

  /** The new deliveries are one for each pair sent so far. */
  ghost predicate Sent(db: Tables, db': Tables, subs: set<Stream>, sent: set<Sending>) {
    && db'.attempts == db.attempts
    && (forall e :: e in db.events ==> e in db'.events && db'.events[e] == db.events[e])
    && (forall d :: d in db.deliveries ==> d in db'.deliveries && db'.deliveries[d] == db.deliveries[d])
    && (forall d :: d in db'.deliveries && d !in db.deliveries ==>
          && db'.deliveries[d].event !in db.events
          && Sending(db'.deliveries[d].event, db'.deliveries[d].consumer) in sent
          && FansOut(db, db', subs, db'.deliveries[d].event, d, db'.deliveries[d].consumer))
    && (forall d1, d2 :: (d1 in db'.deliveries && d1 !in db.deliveries && d2 in db'.deliveries && d2 !in db.deliveries
          && db'.deliveries[d1].event == db'.deliveries[d2].event
          && db'.deliveries[d1].consumer == db'.deliveries[d2].consumer) ==> d1 == d2)
    && (forall s :: s in sent ==> SentAs(db, db', subs, s))
  }

  ghost predicate SentAs(db: Tables, db': Tables, subs: set<Stream>, s: Sending) {
    exists d :: FansOut(db, db', subs, s.event, d, s.consumer)
  }

  lemma SendOneMore(db: Tables, was: Tables, now: Tables, subs: set<Stream>, sent: set<Sending>, s: Sending,
      d: DeliveryId)
    requires Sent(db, was, subs, sent) && s !in sent
    requires s.event in was.events && s.event !in db.events && Stream(s.consumer, was.events[s.event].eventType) in subs
    requires d !in was.deliveries
    requires now == was.(deliveries := was.deliveries[d := PendingRow(s.event, was.events[s.event], s.consumer)])
    ensures Sent(db, now, subs, sent + {s})
  {
    assert FansOut(db, now, subs, s.event, d, s.consumer);
    forall x | x in now.deliveries && x !in db.deliveries
      ensures now.deliveries[x].event !in db.events
      ensures Sending(now.deliveries[x].event, now.deliveries[x].consumer) in sent + {s}
      ensures x != d ==> Sending(now.deliveries[x].event, now.deliveries[x].consumer) in sent
      ensures FansOut(db, now, subs, now.deliveries[x].event, x, now.deliveries[x].consumer)
    {
      assert x != d ==> FansOut(db, was, subs, was.deliveries[x].event, x, was.deliveries[x].consumer);
    }
    forall t | t in sent + {s}
      ensures SentAs(db, now, subs, t)
    {
      if t in sent {
        assert SentAs(db, was, subs, t);
        var x :| FansOut(db, was, subs, t.event, x, t.consumer);
        assert FansOut(db, now, subs, t.event, x, t.consumer);
      }
    }
  }

  /** Once every subscriber of every new event was sent to, that is the whole ingest. */
  lemma AllSent(db: Tables, db': Tables, subs: set<Stream>, sent: set<Sending>)
    requires Sent(db, db', subs, sent)
    requires forall e, p :: (&& e in db'.events && e !in db.events && p in subs
                             && p.eventType == db'.events[e].eventType) ==>
               Sending(e, p.consumer) in sent
    ensures Ingests(db, db', subs)
  {
    forall e, p | e in db'.events && e !in db.events && p in subs && p.eventType == db'.events[e].eventType
      ensures exists d :: FansOut(db, db', subs, e, d, p.consumer)
    {
      assert SentAs(db, db', subs, Sending(e, p.consumer));
    }
  }

  // ---- Claiming ----

  /** `ORDER BY ready_at`, nulls last. */
  predicate ReadyBefore(x: Delivery, y: Delivery) {
    x.readyAt.Some? && (y.readyAt.None? || x.readyAt.value < y.readyAt.value)
  }

  ghost predicate NoRepeats<T>(s: seq<T>) { forall i, j :: 0 <= i < j < |s| ==> s[i] != s[j] }

  ghost function Those<T>(s: seq<T>): set<T> { set x | x in s }

  function ReadyPool(db: Tables, locked: set<DeliveryId>): set<DeliveryId> {
    set d | d in db.deliveries && db.deliveries[d].state == Ready && d !in locked
  }

  /** The oldest ready rows nobody else holds, as many as asked for. */
  ghost predicate Picks(db: Tables, locked: set<DeliveryId>, limit: int, rows: set<DeliveryId>) {
    var pool := ReadyPool(db, locked);
    && rows <= pool && |rows| == Min(Max(0, limit), |pool|)
    && forall d, e :: d in rows && e in pool && e !in rows ==> !ReadyBefore(db.deliveries[e], db.deliveries[d])
  }

  /** What is picked so far: none of what is left is older. */
  ghost predicate PicksSoFar(all: map<DeliveryId, Delivery>, pool: set<DeliveryId>, left: set<DeliveryId>,
      rows: seq<DeliveryId>) {
    && NoRepeats(rows) && |rows| + |left| == |pool|
    && (forall d :: d in pool ==> d in all)
    && (forall d :: d in pool <==> d in left || d in rows)
    && (forall d :: d in rows ==> d !in left)
    && (forall d, e :: d in rows && d in all && e in left && e in all ==> !ReadyBefore(all[e], all[d]))
  }

  lemma PickOneMore(all: map<DeliveryId, Delivery>, pool: set<DeliveryId>, left: set<DeliveryId>,
      rows: seq<DeliveryId>, oldest: DeliveryId)
    requires PicksSoFar(all, pool, left, rows) && oldest in left
    requires forall d :: d in left ==> d in all && !ReadyBefore(all[d], all[oldest])
    ensures PicksSoFar(all, pool, left - {oldest}, rows + [oldest])
  {
    hide ReadyBefore;
  }

  lemma PicksDone(db: Tables, locked: set<DeliveryId>, limit: int, left: set<DeliveryId>, rows: seq<DeliveryId>)
    requires PicksSoFar(db.deliveries, ReadyPool(db, locked), left, rows) && |rows| <= Max(0, limit)
    requires left == {} || |rows| >= limit
    ensures NoRepeats(rows) && Picks(db, locked, limit, Those(rows))
  {
    hide ReadyBefore, ReadyPool;
    var pool := ReadyPool(db, locked);
    ThoseSize(rows);
    assert forall d :: d in Those(rows) ==> d in pool;
    forall d, e | d in Those(rows) && e in pool && e !in Those(rows)
      ensures !ReadyBefore(db.deliveries[e], db.deliveries[d])
    {
      assert d in rows && e in left;
    }
    if left == {} { assert |left| == 0; }
  }

  /** The order of the pick: a row is left behind only for rows that became ready no later than it did. */
  lemma PicksMean(db: Tables, locked: set<DeliveryId>, limit: int, rows: seq<DeliveryId>)
    requires NoRepeats(rows) && Picks(db, locked, limit, Those(rows))
    ensures forall i, e :: && 0 <= i < |rows| && e in db.deliveries && db.deliveries[e].state == Ready && e !in locked
                           && e !in rows && db.deliveries[e].readyAt.Some? ==>
              && rows[i] in db.deliveries && db.deliveries[rows[i]].readyAt.Some?
              && db.deliveries[rows[i]].readyAt.value <= db.deliveries[e].readyAt.value
    ensures |rows| == Min(Max(0, limit),
                          |set d | d in db.deliveries && db.deliveries[d].state == Ready && d !in locked|)
    ensures forall i :: 0 <= i < |rows| ==>
              rows[i] in db.deliveries && db.deliveries[rows[i]].state == Ready && rows[i] !in locked
  {
    ThoseSize(rows);
    var pool := set d | d in db.deliveries && db.deliveries[d].state == Ready && d !in locked;
    assert forall d :: d in ReadyPool(db, locked) <==> d in pool;
    assert ReadyPool(db, locked) == pool;
    forall i | 0 <= i < |rows|
      ensures rows[i] in Those(rows) && rows[i] in pool
    {
    }
    forall e | e !in rows
      ensures e !in Those(rows)
    {
    }
  }

  ghost predicate Splits(
    rows: map<DeliveryId, Delivery>, picked: seq<DeliveryId>, now: Time, policies: map<Stream, Policy>,
    live: seq<DeliveryId>, expired: seq<DeliveryId>)
  {
    && (forall d :: d in live <==> d in picked && d in rows && !RowIsStale(rows[d], now, policies))
    && (forall d :: d in expired <==> d in picked && d in rows && RowIsStale(rows[d], now, policies))
  }

  ghost predicate Expires(was: map<DeliveryId, Delivery>, now: map<DeliveryId, Delivery>, expired: seq<DeliveryId>,
      at: Time) {
    && now.Keys == was.Keys
    && forall d :: d in was ==> now[d] == if d in expired then SettledRow(was[d], Expired, at) else was[d]
  }

  ghost predicate Leases(
    was: map<DeliveryId, Delivery>, now: map<DeliveryId, Delivery>, live: seq<DeliveryId>, worker: WorkerId,
    at: Time, s: Settings)
  {
    && now.Keys == was.Keys
    && forall d :: d in was ==> now[d] == if d in live then LeasedRow(was[d], worker, at, s) else was[d]
  }

  // ---- The tables ----

  predicate Countable(d: Delivery) { d.attemptCount >= 0 && (d.state == InFlight ==> d.attemptCount >= 1) }

  class Store {
    var events: map<EventId, Event>
    var deliveries: map<DeliveryId, Delivery>
    var attempts: map<AttemptId, Attempt>
    var nextEvent: EventId
    var nextDelivery: DeliveryId
    var nextAttempt: AttemptId

    function Db(): Tables
      reads this
    {
      Tables(events, deliveries, attempts)
    }

    /** Ids are handed out in ascending order, and a row in flight has been attempted. */
    ghost predicate Valid()
      reads this
    {
      && (forall e :: e in events ==> e < nextEvent)
      && (forall d :: d in deliveries ==> d < nextDelivery && Countable(deliveries[d]))
      && (forall a :: a in attempts ==> a < nextAttempt)
    }

    constructor ()
      ensures Valid() && Db() == Tables(map[], map[], map[])
    {
      events, deliveries, attempts := map[], map[], map[];
      nextEvent, nextDelivery, nextAttempt := 1, 1, 1;
    }

    // ---- Ingest ----

    method IngestEvents(subs: set<Stream>, specs: seq<EventSpec>, now: Time)
      requires Valid()
      modifies this
      ensures Valid() && Ingests(old(Db()), Db(), subs)
      ensures Appends(old(events), events, old(nextEvent), specs, now)
      ensures forall i :: 0 <= i < |specs| ==>
                && old(nextEvent) + i !in old(events) && old(nextEvent) + i in events
                && var event := events[old(nextEvent) + i];
                   && event.eventType == specs[i].eventType && event.entityKey == specs[i].entityKey
                   && event.occurredAt == if specs[i].occurredAt.Some? then specs[i].occurredAt.value else now
    {
      hide Ingests, Ledgered, FansOut, ListsAll;
      ghost var before := Db();
      var first := nextEvent;
      var types := AppendEvents(specs, now);
      var byType := SubscribersByType(subs, types);
      forall e | first <= e < nextEvent
        ensures e in events && e !in before.events && events[e].eventType in types
      {
        assert AppendedAt(before.events, events, first, specs, now, e - first);
      }
      FanOut(before, subs, types, byType, first, nextEvent);
      forall i | 0 <= i < |specs| {
        AppendsMean(before.events, events, first, specs, now, i);
      }
    }

    method AppendEvents(specs: seq<EventSpec>, now: Time) returns (types: set<string>)
      requires Valid()
      modifies this`events, this`nextEvent
      ensures Valid() && Appends(old(events), events, old(nextEvent), specs, now)
      ensures nextEvent == old(nextEvent) + |specs|
      ensures forall i :: 0 <= i < |specs| ==> specs[i].eventType in types && Ledgered(specs[i], now).eventType in types
    {
      ghost var before := events;
      var first := nextEvent;
      types := {};
      for i := 0 to |specs|
        invariant Valid() && nextEvent == first + i
        invariant Appends(before, events, first, specs[..i], now)
        invariant forall j :: 0 <= j < i ==> specs[j].eventType in types
      {
        AppendOneMore(before, events, first, specs[..i], specs[i], now);
        assert specs[..i + 1] == specs[..i] + [specs[i]];
        events := events[nextEvent := Ledgered(specs[i], now)];
        types := types + {specs[i].eventType};
        nextEvent := nextEvent + 1;
      }
      assert specs[..|specs|] == specs;
    }

    /** One pending row for each subscriber of each new event. */
    method FanOut(
      ghost before: Tables, subs: set<Stream>, ghost types: set<string>, byType: map<string, seq<ConsumerId>>,
      first: EventId, last: EventId)
      requires Valid() && ListsAll(subs, types, byType) && first <= last
      requires deliveries == before.deliveries && attempts == before.attempts
      requires forall e :: e in before.events ==> e in events && events[e] == before.events[e]
      requires forall e :: e in events && e !in before.events <==> first <= e < last
      requires forall e :: first <= e < last ==> events[e].eventType in types
      modifies this`deliveries, this`nextDelivery
      ensures Valid() && Ingests(before, Db(), subs)
    {
      ghost var sent: set<Sending> := {};
      assert Sent(before, Db(), subs, sent);
      hide Sent, ListsAll;
      for e := first to last
        invariant Valid() && Sent(before, Db(), subs, sent)
        invariant forall s :: s in sent ==> s.event < e
        invariant forall x, p :: first <= x < e && p in subs && p.eventType == events[x].eventType ==>
            Sending(x, p.consumer) in sent
      {
        ListsAt(subs, types, byType, events[e].eventType);
        sent := SendTo(before, subs, e, Listed(byType, events[e].eventType), sent);
      }
      AllSent(before, Db(), subs, sent);
    }

    method SendTo(ghost before: Tables, ghost subs: set<Stream>, e: EventId, consumers: seq<ConsumerId>,
        ghost sent: set<Sending>)
      returns (ghost more: set<Sending>)
      requires Valid() && Sent(before, Db(), subs, sent) && forall s :: s in sent ==> s.event < e
      requires e in events && e !in before.events && Lists(subs, events[e].eventType, consumers)
      modifies this`deliveries, this`nextDelivery
      ensures Valid() && Sent(before, Db(), subs, more)
      ensures sent <= more && forall s :: s in more && s !in sent ==> s.event == e
      ensures forall p :: p in subs && p.eventType == events[e].eventType ==> Sending(e, p.consumer) in more
    {
      hide Sent;
      var ev := events[e];
      more := sent;
      for k := 0 to |consumers|
        invariant Valid() && Sent(before, Db(), subs, more) && sent <= more
        invariant forall s :: s in more && s !in sent ==> s.event == e && s.consumer in consumers[..k]
        invariant forall j :: 0 <= j < k ==> Sending(e, consumers[j]) in more
      {
        assert consumers[k] in consumers;
        assert consumers[k] !in consumers[..k];
        ghost var was := Db();
        deliveries := deliveries[nextDelivery := PendingRow(e, ev, consumers[k])];
        SendOneMore(before, was, Db(), subs, more, Sending(e, consumers[k]), nextDelivery);
        nextDelivery := nextDelivery + 1;
        more := more + {Sending(e, consumers[k])};
      }
      forall p | p in subs && p.eventType == ev.eventType
        ensures Sending(e, p.consumer) in more
      {
        assert p == Stream(p.consumer, ev.eventType);
        assert p.consumer in consumers;
      }
    }

    // ---- Claim ----

    /** SELECT ... FOR UPDATE SKIP LOCKED ... ORDER BY ready_at LIMIT n. */
    method SelectReady(limit: int, locked: set<DeliveryId>) returns (rows: seq<DeliveryId>)
      ensures NoRepeats(rows) && Picks(Db(), locked, limit, Those(rows))
      ensures forall i, e :: && 0 <= i < |rows| && e in deliveries && deliveries[e].state == Ready && e !in locked
                             && e !in rows && deliveries[e].readyAt.Some? ==>
                && rows[i] in deliveries && deliveries[rows[i]].readyAt.Some?
                && deliveries[rows[i]].readyAt.value <= deliveries[e].readyAt.value
      ensures |rows| == Min(Max(0, limit), |set d | d in deliveries && deliveries[d].state == Ready && d !in locked|)
      ensures forall i :: 0 <= i < |rows| ==>
                rows[i] in deliveries && deliveries[rows[i]].state == Ready && rows[i] !in locked
    {
      ghost var pool := ReadyPool(Db(), locked);
      var left := ReadyPool(Db(), locked);
      rows := [];
      while left != {} && |rows| < limit
        invariant |rows| <= Max(0, limit) && PicksSoFar(deliveries, pool, left, rows)
        decreases |left|
      {
        var oldest := OldestReady(left);
        PickOneMore(deliveries, pool, left, rows, oldest);
        rows := rows + [oldest];
        left := left - {oldest};
      }
      PicksDone(Db(), locked, limit, left, rows);
      PicksMean(Db(), locked, limit, rows);
    }

    method OldestReady(left: set<DeliveryId>) returns (oldest: DeliveryId)
      requires left != {} && forall d :: d in left ==> d in deliveries
      ensures oldest in left && forall d :: d in left ==> !ReadyBefore(deliveries[d], deliveries[oldest])
    {
      ghost var some: DeliveryId := Member(left);
      oldest :| oldest in left;
      var rest := left - {oldest};
      while rest != {}
        invariant rest <= left && oldest in left
        invariant forall d :: d in left && d !in rest ==> !ReadyBefore(deliveries[d], deliveries[oldest])
      {
        ghost var another: DeliveryId := Member(rest);
        var d: DeliveryId :| d in rest;
        if ReadyBefore(deliveries[d], deliveries[oldest]) { oldest := d; }
        rest := rest - {d};
      }
    }

    /** The repeat of the staleness check, just before the attempt. */
    method SplitStale(rows: seq<DeliveryId>, now: Time, policies: map<Stream, Policy>)
      returns (live: seq<DeliveryId>, expired: seq<DeliveryId>)
      requires NoRepeats(rows) && forall i :: 0 <= i < |rows| ==> rows[i] in deliveries
      ensures NoRepeats(live)
      ensures forall i :: 0 <= i < |live| ==> live[i] in deliveries
      ensures forall i :: 0 <= i < |expired| ==> expired[i] in deliveries
      ensures Splits(deliveries, rows, now, policies, live, expired)
    {
      live, expired := [], [];
      for i := 0 to |rows|
        invariant NoRepeats(live)
        invariant forall i :: 0 <= i < |live| ==> live[i] in deliveries
        invariant forall i :: 0 <= i < |expired| ==> expired[i] in deliveries
        invariant Splits(deliveries, rows[..i], now, policies, live, expired)
      {
        var row := deliveries[rows[i]];
        assert rows[..i + 1] == rows[..i] + [rows[i]];
        assert rows[i] !in rows[..i];
        if StaleBy(now, row.createdAt, PolicyOf(policies, row.consumer, row.eventType).maxStalenessS).None? {
          live := live + [rows[i]];
        } else {
          expired := expired + [rows[i]];
        }
      }
      assert rows[..|rows|] == rows;
    }

    method Expire(expired: seq<DeliveryId>, now: Time)
      requires Valid() && forall i :: 0 <= i < |expired| ==> expired[i] in deliveries
      modifies this`deliveries
      ensures Valid() && Expires(old(deliveries), deliveries, expired, now)
    {
      ghost var before := deliveries;
      for i := 0 to |expired|
        invariant Valid() && Expires(before, deliveries, expired[..i], now)
      {
        assert expired[i] in expired && expired[..i + 1] == expired[..i] + [expired[i]];
        deliveries := deliveries[expired[i] := SettledRow(deliveries[expired[i]], Expired, now)];
      }
      assert expired[..|expired|] == expired;
    }

    /** One open attempt for each live row, under the next ids. */
    method InsertAttempts(worker: WorkerId, live: seq<DeliveryId>, now: Time) returns (ids: map<DeliveryId, AttemptId>)
      requires Valid() && NoRepeats(live) && forall i :: 0 <= i < |live| ==> live[i] in deliveries
      modifies this`attempts, this`nextAttempt
      ensures Valid() && AttemptsAdded(old(Db()), Db(), worker, live, ids, now)
    {
      hide AttemptsAdded, OpenAttempt, Countable;
      ghost var before := Db();
      ids := map[];
      NothingAdded(before, worker, now);
      assert live[..0] == [];
      for i := 0 to |live|
        invariant Valid() && (forall a :: a in before.attempts ==> a < nextAttempt) && forall d :: d in ids ==>
            ids[d] < nextAttempt
        invariant AttemptsAdded(before, Db(), worker, live[..i], ids, now)
      {
        var d := live[i];
        assert d !in live[..i];
        assert live[..i + 1] == live[..i] + [d];
        ghost var was := Db();
        attempts := attempts[nextAttempt := OpenAttempt(d, deliveries[d].consumer, worker, now)];
        AddOneMore(before, was, Db(), worker, live[..i], ids, now, d, nextAttempt);
        ids := ids[d := nextAttempt];
        nextAttempt := nextAttempt + 1;
      }
      assert live[..|live|] == live;
    }

    /** The claim transaction; `locked` are the rows other transactions hold. */
    method ClaimBatch(sim: Simulation, worker: WorkerId, now: Time, limit: int, locked: set<DeliveryId>)
      returns (claimed: seq<Claimed>, ghost rows: set<DeliveryId>, ghost ids: map<DeliveryId, AttemptId>)
      requires Valid()
      modifies this
      ensures Valid() && Picks(old(Db()), locked, limit, rows)
      ensures Inside(old(Db()), ids.Keys) && Injective(ids)
      ensures Claims(old(Db()), Db(), worker, rows, ids, now, sim.policies, sim.settings)
      ensures Those(claimed) == BatchFrom(old(Db()), ids) && NoRepeats(claimed)
    {
      hide Picks, AttemptsAdded, Splits, Expires, Leases, Claims, BatchFrom;
      ghost var before := Db();
      var asRead := deliveries;
      var picked := SelectReady(limit, locked);
      rows, ids, claimed := Those(picked), map[], [];
      PickedAreReady(before, locked, limit, picked);
      var live, expired := SplitStale(picked, now, sim.policies);
      Expire(expired, now);
      ghost var mid := Db();
      NoneAdded(mid, worker, now, sim.settings);
      LiveInside(before, mid, picked, live, expired, now, sim.policies);
      if live != [] {
        var issued := Lease(live, worker, now, sim.settings);
        AddedFor(mid, Db(), worker, live, issued, now);
        ids := issued;
        claimed := ListClaims(asRead, live, issued);
      }
      ClaimWritten(before, mid, Db(), worker, picked, live, expired, ids, now, sim.policies, sim.settings);
      BatchListed(before, live, ids, claimed);
    }

    /** The lease and its attempt rows. */
    method Lease(live: seq<DeliveryId>, worker: WorkerId, now: Time, s: Settings)
        returns (ids: map<DeliveryId, AttemptId>)
      requires Valid() && NoRepeats(live) && forall i :: 0 <= i < |live| ==> live[i] in deliveries
      modifies this`deliveries, this`attempts, this`nextAttempt
      ensures Valid() && Leases(old(deliveries), deliveries, live, worker, now, s)
      ensures AttemptsAdded(old(Db()), Db(), worker, live, ids, now)
    {
      hide LeasedRow;
      LeasedCount(worker, now, s);
      deliveries := map d | d in deliveries :: if d in live then LeasedRow(deliveries[d], worker, now, s)
          else deliveries[d];
      ids := InsertAttempts(worker, live, now);
    }

    // ---- Complete ----

    /**
      * The completion transaction: attempts first, then the rows by what the outcome makes of them, each write
      * fenced.
      */
    method CompleteBatch(worker: WorkerId, completions: seq<Completion>, now: Time, s: Settings)
      requires Valid() && Distinct(Those(completions)) && NoRepeats(completions)
      modifies this`deliveries, this`attempts
      ensures Valid() && Completes(old(Db()), Db(), worker, Those(completions), now, s)
    {
      hide Answered, Closed;
      CloseAttempts(completions, now);
      SettleRows(worker, completions, now, s);
      CompletionWritten(old(Db()), Db(), worker, Those(completions), now, s);
    }

    method SettleRows(worker: WorkerId, completions: seq<Completion>, now: Time, s: Settings)
      requires Valid() && Distinct(Those(completions)) && NoRepeats(completions)
      modifies this`deliveries
      ensures Valid() && Answered(old(deliveries), deliveries, Those(completions), worker, now, s)
    {
      ghost var was := deliveries;
      var delivered, failed, retry := SplitByOutcome(completions, s);
      hide Answered, PartOf, Distinct, Those, NoRepeats, Countable;
      PartIs(delivered, completions, Done, s);
      PartIs(failed, completions, GivenUp, s);
      PartIs(retry, completions, TriedAgain, s);
      SettleDelivered(worker, delivered, now, s);
      ghost var first := deliveries;
      SettleFailed(worker, failed, now, s);
      ghost var second := deliveries;
      Requeue(worker, retry, now, s);
      AnswersJoin(was, first, second, deliveries, completions, delivered, failed, retry, worker, now, s);
    }

    /** UPDATE attempt ... WHERE id = ? AND finished_at IS NULL, once for each completion. */
    method CloseAttempts(completions: seq<Completion>, now: Time)
      requires Valid() && Distinct(Those(completions)) && NoRepeats(completions)
      modifies this`attempts
      ensures Valid() && Closed(old(attempts), attempts, Those(completions), now)
    {
      hide ClosedAttempt;
      ghost var was := attempts;
      for i := 0 to |completions|
        invariant Valid() && Closed(was, attempts, Those(completions[..i]), now)
      {
        var c := completions[i];
        assert completions[..i + 1] == completions[..i] + [c];
        CloseOneMore(was, attempts, completions, i, now);
        if c.claimed.attempt in attempts && IsOpen(attempts[c.claimed.attempt]) {
          attempts := attempts[c.claimed.attempt := ClosedAttempt(attempts[c.claimed.attempt], c.outcome, now)];
        }
      }
      assert completions[..|completions|] == completions;
    }

    method SettleDelivered(worker: WorkerId, delivered: seq<Completion>, now: Time, s: Settings)
      requires Valid() && Distinct(Those(delivered)) && NoRepeats(delivered)
      requires forall i :: 0 <= i < |delivered| ==> DestinyOf(delivered[i], s) == Done
      modifies this`deliveries
      ensures Valid() && Answered(old(deliveries), deliveries, Those(delivered), worker, now, s)
    {
      hide Answered, NoRepeats, Distinct, Those, CompletedRow, BackoffS;
      ghost var was := deliveries;
      AnswerNone(was, worker, now, s);
      assert delivered[..0] == [];
      for i := 0 to |delivered|
        invariant Valid() && Answered(was, deliveries, Those(delivered[..i]), worker, now, s)
      {
        var d := delivered[i].claimed.delivery;
        assert delivered[..i + 1] == delivered[..i] + [delivered[i]];
        AnswerOneMore(was, deliveries, delivered, i, worker, now, s);
        if d in deliveries { CompletedAs(deliveries[d], delivered[i], now, s); }
        if d in deliveries && HeldBy(deliveries[d], worker) {
          deliveries := deliveries[d := SettledRow(deliveries[d], Delivered, now)];
        }
      }
      assert delivered[..|delivered|] == delivered;
    }

    method SettleFailed(worker: WorkerId, failed: seq<Completion>, now: Time, s: Settings)
      requires Valid() && Distinct(Those(failed)) && NoRepeats(failed)
      requires forall i :: 0 <= i < |failed| ==> DestinyOf(failed[i], s) == GivenUp
      modifies this`deliveries
      ensures Valid() && Answered(old(deliveries), deliveries, Those(failed), worker, now, s)
    {
      hide Answered, NoRepeats, Distinct, Those, CompletedRow, BackoffS;
      ghost var was := deliveries;
      AnswerNone(was, worker, now, s);
      assert failed[..0] == [];
      for i := 0 to |failed|
        invariant Valid() && Answered(was, deliveries, Those(failed[..i]), worker, now, s)
      {
        var d := failed[i].claimed.delivery;
        assert failed[..i + 1] == failed[..i] + [failed[i]];
        AnswerOneMore(was, deliveries, failed, i, worker, now, s);
        if d in deliveries { CompletedAs(deliveries[d], failed[i], now, s); }
        if d in deliveries && HeldBy(deliveries[d], worker) {
          deliveries := deliveries[d := SettledRow(deliveries[d], Failed, now)];
        }
      }
      assert failed[..|failed|] == failed;
    }

    method Requeue(worker: WorkerId, retry: seq<Completion>, now: Time, s: Settings)
      requires Valid() && Distinct(Those(retry)) && NoRepeats(retry)
      requires forall i :: 0 <= i < |retry| ==> DestinyOf(retry[i], s) == TriedAgain && retry[i].claimed.attemptNo >= 1
      modifies this`deliveries
      ensures Valid() && Answered(old(deliveries), deliveries, Those(retry), worker, now, s)
    {
      hide Answered, NoRepeats, Distinct, Those, CompletedRow, BackoffS;
      ghost var was := deliveries;
      AnswerNone(was, worker, now, s);
      assert retry[..0] == [];
      for i := 0 to |retry|
        invariant Valid() && Answered(was, deliveries, Those(retry[..i]), worker, now, s)
      {
        var d := retry[i].claimed.delivery;
        assert retry[..i + 1] == retry[..i] + [retry[i]];
        AnswerOneMore(was, deliveries, retry, i, worker, now, s);
        if d in deliveries { CompletedAs(deliveries[d], retry[i], now, s); }
        if d in deliveries && HeldBy(deliveries[d], worker) {
          deliveries := deliveries[d :=
              deliveries[d].(state := Pending, nextAttemptAt := now + BackoffS(retry[i].claimed.attemptNo, s))];
        }
      }
      assert retry[..|retry|] == retry;
    }

    // ---- Reclaim ----

    /** Every lease that ran out, less the rows other transactions hold. */
    function ExpiredLeases(now: Time, locked: set<DeliveryId>): set<DeliveryId>
      reads this
    {
      set d | d in deliveries && LeaseRanOut(deliveries[d], now) && d !in locked
    }

    method ReclaimExpiredLeases(now: Time, locked: set<DeliveryId>, s: Settings) returns (requeued: nat, exhausted: nat)
      requires Valid()
      modifies this`deliveries, this`attempts
      ensures Valid() && Reclaims(old(Db()), Db(), old(ExpiredLeases(now, locked)), now, s)
      ensures forall d :: d in old(deliveries) ==>
                var was := old(deliveries)[d];
                && d in deliveries
                && if && was.state == InFlight && d !in locked
                      && was.leaseExpiresAt.Some? && was.leaseExpiresAt.value < now
                   then
                     && deliveries[d].state == (if was.attemptCount >= s.maxAttempts then Failed else Pending)
                     && deliveries[d].leasedBy == None && deliveries[d].leaseExpiresAt == None
                   else deliveries[d] == was
      ensures forall a :: a in old(attempts) && old(attempts)[a].delivery in old(deliveries) ==>
                var was, row := old(attempts)[a], old(deliveries)[old(attempts)[a].delivery];
                && a in attempts
                && attempts[a]
                   == if && row.state == InFlight && was.delivery !in locked && was.finishedAt.None?
                         && row.leaseExpiresAt.Some? && row.leaseExpiresAt.value < now
                      then was.(finishedAt := Some(now), outcome := Some(LeaseExpired)) else was
      ensures requeued == |set d | d in old(deliveries) && old(deliveries)[d].state == InFlight && d !in locked
                                   && old(deliveries)[d].leaseExpiresAt.Some?
                                   && old(deliveries)[d].leaseExpiresAt.value < now
                                   && old(deliveries)[d].attemptCount < s.maxAttempts|
      ensures exhausted == |set d | d in old(deliveries) && old(deliveries)[d].state == InFlight && d !in locked
                                    && old(deliveries)[d].leaseExpiresAt.Some?
                                    && old(deliveries)[d].leaseExpiresAt.value < now
                                    && old(deliveries)[d].attemptCount >= s.maxAttempts|
    {
      hide LeaseRanOut, Reclaims, SpentSplit, ReclaimedRows;
      ghost var was := Db();
      var rows := ExpiredLeases(now, locked);
      RanOutMeans(was, rows, now, locked, s);
      if rows == {} {
        NothingReclaimed(was, now, s);
        SweepMeans(was, Db(), rows, now, s);
        return 0, 0;
      }
      var requeue, exhaust := SplitExpired(rows, s);
      LeasedAreCounted(was, rows, now);
      ghost var mid := FreeLeases(rows, requeue, exhaust, now, s);
      attempts := map a | a in attempts ::
        if attempts[a].delivery in rows && IsOpen(attempts[a]) then ClosedAttempt(attempts[a], LeaseExpired, now)
            else attempts[a];
      ReclaimWritten(was, mid, Db(), rows, requeue, exhaust, now, s);
      SweepMeans(was, Db(), rows, now, s);
      requeued, exhausted := |requeue|, |exhaust|;
    }

    /** Back to the queue, or out of retries, with the lease cleared either way. */
    method FreeLeases(ghost rows: set<DeliveryId>, requeue: seq<DeliveryId>, exhaust: seq<DeliveryId>, now: Time,
        s: Settings)
      returns (ghost mid: map<DeliveryId, Delivery>)
      requires Valid() && SpentSplit(deliveries, rows, requeue, exhaust, s)
      requires forall d :: d in rows ==> d in deliveries && deliveries[d].attemptCount >= 1
      modifies this`deliveries
      ensures Valid() && ReclaimedRows(old(deliveries), mid, Those(requeue), now, s)
      ensures ReclaimedRows(mid, deliveries, Those(exhaust), now, s)
    {
      hide ReclaimedRow;
      SpentIs(deliveries, rows, requeue, exhaust, s);
      ghost var was := deliveries;
      RequeueExpired(requeue, now, s);
      mid := deliveries;
      forall i | 0 <= i < |exhaust|
        ensures exhaust[i] in deliveries && deliveries[exhaust[i]] == was[exhaust[i]]
      {
        var d := exhaust[i];
        assert d in exhaust && d !in requeue && d in was;
      }
      ExhaustExpired(exhaust, now, s);
    }

    method SplitExpired(rows: set<DeliveryId>, s: Settings) returns (requeue: seq<DeliveryId>, exhaust: seq<DeliveryId>)
      requires forall d :: d in rows ==> d in deliveries
      ensures SpentSplit(deliveries, rows, requeue, exhaust, s)
    {
      requeue, exhaust := [], [];
      var todo := rows;
      while todo != {}
        invariant todo <= rows && SpentSplit(deliveries, rows - todo, requeue, exhaust, s)
      {
        ghost var some: DeliveryId := Member(todo);
        var d: DeliveryId :| d in todo;
        assert rows - (todo - {d}) == rows - todo + {d};
        if deliveries[d].attemptCount >= s.maxAttempts { exhaust := exhaust + [d]; } else { requeue := requeue + [d]; }
        todo := todo - {d};
      }
      assert rows - {} == rows;
    }

    method RequeueExpired(requeue: seq<DeliveryId>, now: Time, s: Settings)
      requires Valid() && NoRepeats(requeue)
      requires forall i :: 0 <= i < |requeue| ==>
          requeue[i] in deliveries && 1 <= deliveries[requeue[i]].attemptCount < s.maxAttempts
      modifies this`deliveries
      ensures Valid() && ReclaimedRows(old(deliveries), deliveries, Those(requeue), now, s)
    {
      hide BackoffS;
      ghost var was := deliveries;
      for i := 0 to |requeue|
        invariant Valid() && ReclaimedRows(was, deliveries, Those(requeue[..i]), now, s)
      {
        var d := requeue[i];
        assert requeue[..i + 1] == requeue[..i] + [d];
        assert d !in requeue[..i];
        deliveries := deliveries[d := deliveries[d].(
          state := Pending, nextAttemptAt := now + BackoffS(deliveries[d].attemptCount, s), leasedBy := None,
              leaseExpiresAt := None)];
      }
      assert requeue[..|requeue|] == requeue;
    }

    method ExhaustExpired(exhaust: seq<DeliveryId>, now: Time, s: Settings)
      requires Valid() && NoRepeats(exhaust)
      requires forall i :: 0 <= i < |exhaust| ==>
          exhaust[i] in deliveries && deliveries[exhaust[i]].attemptCount >= s.maxAttempts
      modifies this`deliveries
      ensures Valid() && ReclaimedRows(old(deliveries), deliveries, Those(exhaust), now, s)
    {
      ghost var was := deliveries;
      for i := 0 to |exhaust|
        invariant Valid() && ReclaimedRows(was, deliveries, Those(exhaust[..i]), now, s)
      {
        var d := exhaust[i];
        assert exhaust[..i + 1] == exhaust[..i] + [d];
        assert d !in exhaust[..i];
        deliveries := deliveries[d := deliveries[d].(
          state := Failed, completedAt := Some(now), leasedBy := None, leaseExpiresAt := None)];
      }
      assert exhaust[..|exhaust|] == exhaust;
    }

    // ---- The conductor's unguarded writes ----

    /** Grouped by terminal state, one statement for each. */
    method ApplyDrops(drops: seq<Drop>, now: Time) returns (ghost written: map<DeliveryId, DeliveryState>)
      requires Valid() && OncePerRow(drops) && forall i :: 0 <= i < |drops| ==> drops[i].state.Terminal()
      modifies this`deliveries
      ensures Valid() && AppliesDrops(old(Db()), Db(), written, now)
      ensures forall x :: x in drops <==> x.delivery in written && written[x.delivery] == x.state
    {
      ghost var was := deliveries;
      var byState := GroupDrops(drops);
      written := map[];
      var todo := byState.Keys;
      while todo != {}
        invariant todo <= byState.Keys && Valid() && DroppedRows(was, deliveries, written, now)
        invariant forall x: Drop :: x in drops && x.state !in todo <==>
            x.delivery in written && written[x.delivery] == x.state
      {
        ghost var some: DeliveryState := Member(todo);
        var state: DeliveryState :| state in todo;
        assert Drop(Group(byState, state)[0], state) in drops;
        written := DropInto(drops, byState[state], state, now, written, was);
        todo := todo - {state};
      }
      forall x | x in drops
        ensures x.state in byState
      {
        assert x.delivery in Group(byState, x.state);
      }
    }

    method DropInto(
      ghost drops: seq<Drop>, rows: seq<DeliveryId>, state: DeliveryState, now: Time,
      ghost written: map<DeliveryId, DeliveryState>,
      ghost was: map<DeliveryId, Delivery>)
      returns (ghost more: map<DeliveryId, DeliveryState>)
      requires Valid() && DroppedRows(was, deliveries, written, now) && OncePerRow(drops) && state.Terminal()
      requires forall d :: d in rows <==> Drop(d, state) in drops
      requires forall d :: d in written ==> Drop(d, written[d]) in drops && written[d] != state
      modifies this`deliveries
      ensures Valid() && DroppedRows(was, deliveries, more, now)
      ensures forall x: Drop :: x.delivery in more && more[x.delivery] == x.state <==>
                || (x.delivery in written && written[x.delivery] == x.state)
                || (x.state == state && x.delivery in rows)
    {
      more := written;
      for i := 0 to |rows|
        invariant Valid() && DroppedRows(was, deliveries, more, now)
        invariant forall d :: d in more <==> d in written || d in rows[..i]
        invariant forall d :: d in more ==> more[d] == if d in written then written[d] else state
      {
        var d := rows[i];
        assert rows[..i + 1] == rows[..i] + [d];
        assert d in rows;
        OneFate(drops, d, state);
        if d in deliveries { deliveries := deliveries[d := SettledRow(deliveries[d], state, now)]; }
        more := more[d := state];
      }
      assert rows[..|rows|] == rows;
      forall d | d in rows
        ensures d !in written
      {
        OneFate(drops, d, state);
      }
    }

    /** `ready_at` is the order workers claim in. */
    method MarkReady(ids: set<DeliveryId>, now: Time) returns (count: nat)
      requires Valid()
      modifies this`deliveries
      ensures Valid() && MarksReady(old(Db()), Db(), ids, now)
      ensures count == |ids * old(deliveries).Keys|
    {
      count := |ids * deliveries.Keys|;
      deliveries := map d | d in deliveries :: if d in ids then ReadyRow(deliveries[d], now) else deliveries[d];
    }
  }

  // ---- Reclaimed rows ----

  ghost predicate SpentSplit(
    rows: map<DeliveryId, Delivery>, all: set<DeliveryId>, requeue: seq<DeliveryId>, exhaust: seq<DeliveryId>,
    s: Settings)
  {
    && NoRepeats(requeue) && NoRepeats(exhaust)
    && (forall d :: d in requeue <==> d in all && d in rows && rows[d].attemptCount < s.maxAttempts)
    && (forall d :: d in exhaust <==> d in all && d in rows && rows[d].attemptCount >= s.maxAttempts)
  }

  ghost predicate ReclaimedRows(was: map<DeliveryId, Delivery>, now: map<DeliveryId, Delivery>,
      rows: set<DeliveryId>, at: Time, s: Settings) {
    && now.Keys == was.Keys
    && forall d :: d in was ==>
         (d in rows ==> was[d].attemptCount >= 1) && now[d] == if d in rows then ReclaimedRow(was[d], at, s) else was[d]
  }

  lemma SpentIs(rows: map<DeliveryId, Delivery>, all: set<DeliveryId>, requeue: seq<DeliveryId>,
      exhaust: seq<DeliveryId>, s: Settings)
    requires SpentSplit(rows, all, requeue, exhaust, s)
    requires forall d :: d in all ==> d in rows && rows[d].attemptCount >= 1
    ensures NoRepeats(requeue) && NoRepeats(exhaust)
    ensures forall i :: 0 <= i < |requeue| ==> requeue[i] in rows && 1 <= rows[requeue[i]].attemptCount < s.maxAttempts
    ensures forall i :: 0 <= i < |exhaust| ==> exhaust[i] in rows && rows[exhaust[i]].attemptCount >= s.maxAttempts
    ensures forall d :: d in exhaust ==> d !in requeue
  {
    forall i | 0 <= i < |requeue|
      ensures requeue[i] in rows && 1 <= rows[requeue[i]].attemptCount < s.maxAttempts
    {
      var d := requeue[i];
      assert d in requeue && d in all;
    }
    forall i | 0 <= i < |exhaust|
      ensures exhaust[i] in rows && rows[exhaust[i]].attemptCount >= s.maxAttempts
    {
      var d := exhaust[i];
      assert d in exhaust;
    }
  }

  lemma LeasedAreCounted(db: Tables, rows: set<DeliveryId>, now: Time)
    requires forall d :: d in rows ==> d in db.deliveries && LeaseRanOut(db.deliveries[d], now)
    requires forall d :: d in db.deliveries ==> Countable(db.deliveries[d])
    ensures forall d :: d in rows ==> d in db.deliveries && db.deliveries[d].attemptCount >= 1
  {
  }

  /** The sweep's own query: the rows it takes, and how many of them are out of retries. */
  lemma RanOutMeans(db: Tables, rows: set<DeliveryId>, now: Time, locked: set<DeliveryId>, s: Settings)
    requires rows == set d | d in db.deliveries && LeaseRanOut(db.deliveries[d], now) && d !in locked
    ensures forall d :: d in rows <==>
              && d in db.deliveries && db.deliveries[d].state == InFlight && d !in locked
              && db.deliveries[d].leaseExpiresAt.Some? && db.deliveries[d].leaseExpiresAt.value < now
    ensures (set d | d in rows && db.deliveries[d].attemptCount < s.maxAttempts)
         == set d | d in db.deliveries && db.deliveries[d].state == InFlight && d !in locked
                    && db.deliveries[d].leaseExpiresAt.Some? && db.deliveries[d].leaseExpiresAt.value < now
                    && db.deliveries[d].attemptCount < s.maxAttempts
    ensures (set d | d in rows && db.deliveries[d].attemptCount >= s.maxAttempts)
         == set d | d in db.deliveries && db.deliveries[d].state == InFlight && d !in locked
                    && db.deliveries[d].leaseExpiresAt.Some? && db.deliveries[d].leaseExpiresAt.value < now
                    && db.deliveries[d].attemptCount >= s.maxAttempts
  {
  }

  lemma SweepMeans(db: Tables, db': Tables, rows: set<DeliveryId>, now: Time, s: Settings)
    requires Reclaims(db, db', rows, now, s)
    ensures forall d :: d in db.deliveries ==>
              && d in db'.deliveries
              && if d in rows then
                   && db'.deliveries[d].state == (if db.deliveries[d].attemptCount >= s.maxAttempts then Failed
                                                  else Pending)
                   && db'.deliveries[d].leasedBy == None && db'.deliveries[d].leaseExpiresAt == None
                 else db'.deliveries[d] == db.deliveries[d]
    ensures forall a :: a in db.attempts && db.attempts[a].delivery in db.deliveries ==>
              && a in db'.attempts
              && db'.attempts[a] == if db.attempts[a].delivery in rows && db.attempts[a].finishedAt.None? then
                                      db.attempts[a].(finishedAt := Some(now), outcome := Some(LeaseExpired))
                                    else db.attempts[a]
  {
    hide Reclaims;
    forall d | d in db.deliveries {
      ReclaimMeans(db, db', rows, now, s, d);
    }
    forall a | a in db.attempts && db.attempts[a].delivery in db.deliveries
      ensures a in db'.attempts
      ensures db'.attempts[a] == if db.attempts[a].delivery in rows && db.attempts[a].finishedAt.None? then
                                   db.attempts[a].(finishedAt := Some(now), outcome := Some(LeaseExpired))
                                 else db.attempts[a]
    {
      ReclaimMeans(db, db', rows, now, s, db.attempts[a].delivery);
    }
  }

  lemma NothingReclaimed(db: Tables, now: Time, s: Settings)
    ensures Reclaims(db, db, {}, now, s)
  {
  }

  // ---- Dropped rows ----

  ghost predicate OncePerRow(drops: seq<Drop>) {
    forall i, j :: 0 <= i < j < |drops| ==> drops[i].delivery != drops[j].delivery
  }

  lemma OneFate(drops: seq<Drop>, d: DeliveryId, state: DeliveryState)
    requires OncePerRow(drops) && Drop(d, state) in drops
    ensures forall x :: x in drops && x.delivery == d ==> x.state == state
  {
  }

  ghost predicate DroppedRows(was: map<DeliveryId, Delivery>, now: map<DeliveryId, Delivery>,
      drops: map<DeliveryId, DeliveryState>, at: Time) {
    && now.Keys == was.Keys
    && forall d :: d in was ==> now[d] == if d in drops then SettledRow(was[d], drops[d], at) else was[d]
  }

  function Group(byState: map<DeliveryState, seq<DeliveryId>>, state: DeliveryState): seq<DeliveryId> {
    if state in byState then byState[state] else []
  }

  method GroupDrops(drops: seq<Drop>) returns (byState: map<DeliveryState, seq<DeliveryId>>)
    ensures forall x: Drop :: x in drops <==> x.delivery in Group(byState, x.state)
    ensures forall state :: state in byState ==> byState[state] != []
  {
    byState := map[];
    for i := 0 to |drops|
      invariant forall state :: state in byState ==> byState[state] != []
      invariant forall x: Drop :: x in drops[..i] <==> x.delivery in Group(byState, x.state)
    {
      assert drops[..i + 1] == drops[..i] + [drops[i]];
      byState := byState[drops[i].state := Group(byState, drops[i].state) + [drops[i].delivery]];
    }
    assert drops[..|drops|] == drops;
  }

  lemma ReclaimWritten(
    db: Tables, mid: map<DeliveryId, Delivery>, db': Tables, rows: set<DeliveryId>, requeue: seq<DeliveryId>,
    exhaust: seq<DeliveryId>,
    now: Time, s: Settings)
    requires forall d :: d in rows ==> d in db.deliveries && LeaseRanOut(db.deliveries[d], now)
    requires SpentSplit(db.deliveries, rows, requeue, exhaust, s)
    requires ReclaimedRows(db.deliveries, mid, Those(requeue), now, s)
        && ReclaimedRows(mid, db'.deliveries, Those(exhaust), now, s)
    requires db'.events == db.events && db'.attempts.Keys == db.attempts.Keys
    requires forall a :: a in db.attempts ==>
               db'.attempts[a] == if db.attempts[a].delivery in rows && IsOpen(db.attempts[a])
                                  then ClosedAttempt(db.attempts[a], LeaseExpired, now) else db.attempts[a]
    ensures Reclaims(db, db', rows, now, s)
    ensures |requeue| == |set d | d in rows && db.deliveries[d].attemptCount < s.maxAttempts|
    ensures |exhaust| == |set d | d in rows && db.deliveries[d].attemptCount >= s.maxAttempts|
  {
    hide ReclaimedRow, ClosedAttempt, LeaseRanOut;
    ThoseSize(requeue);
    ThoseSize(exhaust);
    var unspent := set d | d in rows && db.deliveries[d].attemptCount < s.maxAttempts;
    assert forall d :: d in unspent <==> d in Those(requeue);
    assert unspent == Those(requeue);
    var spent := set d | d in rows && db.deliveries[d].attemptCount >= s.maxAttempts;
    assert forall d :: d in spent <==> d in Those(exhaust);
    assert spent == Those(exhaust);
  }

  /** Attempts after some completions: closed where still open. */
  ghost predicate Closed(was: map<AttemptId, Attempt>, now: map<AttemptId, Attempt>, cs: set<Completion>, at: Time) {
    && now.Keys == was.Keys
    && (forall c :: c in cs && c.claimed.attempt in was ==>
          now[c.claimed.attempt] ==
          if IsOpen(was[c.claimed.attempt]) then ClosedAttempt(was[c.claimed.attempt], c.outcome, at)
              else was[c.claimed.attempt])
    && (forall a :: a in was && a !in AttemptsIn(cs) ==> now[a] == was[a])
  }

  lemma CloseOneMore(was: map<AttemptId, Attempt>, now: map<AttemptId, Attempt>, cs: seq<Completion>, i: nat, at: Time)
    requires i < |cs| && NoRepeats(cs) && Distinct(Those(cs)) && Closed(was, now, Those(cs[..i]), at)
    ensures var a := cs[i].claimed.attempt;
            Closed(was, if a in now && IsOpen(now[a]) then now[a := ClosedAttempt(now[a], cs[i].outcome, at)] else now,
                   Those(cs[..i] + [cs[i]]), at)
  {
    hide ClosedAttempt, IsOpen;
    NotAnsweredYet(cs, i);
    assert forall c :: c in Those(cs[..i] + [cs[i]]) <==> c in Those(cs[..i]) || c == cs[i];
  }

  lemma NotAnsweredYet(cs: seq<Completion>, i: nat)
    requires i < |cs| && NoRepeats(cs) && Distinct(Those(cs))
    ensures cs[i].claimed.attempt !in AttemptsIn(Those(cs[..i]))
        && cs[i].claimed.delivery !in DeliveriesOf(Those(cs[..i]))
    ensures cs[i].claimed.attemptNo >= 1
  {
    forall c | c in Those(cs[..i])
      ensures c.claimed.attempt != cs[i].claimed.attempt && c.claimed.delivery != cs[i].claimed.delivery
    {
      var j :| 0 <= j < i && cs[j] == c;
      assert c in Those(cs) && cs[i] in Those(cs);
    }
    assert cs[i] in Those(cs);
  }

  /** Rows after some completions: moved on where the worker still holds them. */
  ghost predicate Answered(
    was: map<DeliveryId, Delivery>, now: map<DeliveryId, Delivery>, cs: set<Completion>, worker: WorkerId, at: Time,
    s: Settings)
  {
    && now.Keys == was.Keys
    && (forall c :: c in cs && c.claimed.delivery in was ==>
          && c.claimed.attemptNo >= 1
          && now[c.claimed.delivery] ==
             if HeldBy(was[c.claimed.delivery], worker) then CompletedRow(was[c.claimed.delivery], c, at, s)
             else was[c.claimed.delivery])
    && (forall d :: d in was && d !in DeliveriesOf(cs) ==> now[d] == was[d])
  }

  lemma AnswerNone(was: map<DeliveryId, Delivery>, worker: WorkerId, at: Time, s: Settings)
    ensures Answered(was, was, Those([]), worker, at, s)
  {
  }

  lemma CompletedAs(d: Delivery, c: Completion, at: Time, s: Settings)
    requires c.claimed.attemptNo >= 1
    ensures CompletedRow(d, c, at, s) == match DestinyOf(c, s)
                                         case Done => SettledRow(d, Delivered, at)
                                         case GivenUp => SettledRow(d, Failed, at)
                                         case TriedAgain => d.(state := Pending,
                                             nextAttemptAt := at + BackoffS(c.claimed.attemptNo, s))
  {
  }

  lemma AnswerOneMore(
    was: map<DeliveryId, Delivery>, now: map<DeliveryId, Delivery>, cs: seq<Completion>, i: nat, worker: WorkerId,
    at: Time, s: Settings)
    requires i < |cs| && NoRepeats(cs) && Distinct(Those(cs)) && Answered(was, now, Those(cs[..i]), worker, at, s)
    ensures cs[i].claimed.attemptNo >= 1
    ensures var d := cs[i].claimed.delivery;
            Answered(was, if d in now && HeldBy(now[d], worker) then now[d := CompletedRow(now[d], cs[i], at, s)]
                else now,
                     Those(cs[..i] + [cs[i]]), worker, at, s)
  {
    hide CompletedRow, HeldBy;
    NotAnsweredYet(cs, i);
    assert forall c :: c in Those(cs[..i] + [cs[i]]) <==> c in Those(cs[..i]) || c == cs[i];
  }

  lemma AnsweredJoin(
    was: map<DeliveryId, Delivery>, mid: map<DeliveryId, Delivery>, now: map<DeliveryId, Delivery>,
    first: set<Completion>, second: set<Completion>, worker: WorkerId, at: Time, s: Settings)
    requires Answered(was, mid, first, worker, at, s) && Answered(mid, now, second, worker, at, s)
    requires Distinct(first + second) && forall c :: c in first ==> c !in second
    ensures Answered(was, now, first + second, worker, at, s)
  {
    hide CompletedRow, HeldBy;
    forall c | c in first
      ensures c.claimed.delivery !in DeliveriesOf(second)
    {
      forall x | x in second
        ensures x.claimed.delivery != c.claimed.delivery
      {
        assert x in first + second && c in first + second;
      }
    }
    forall c | c in second
      ensures c.claimed.delivery !in DeliveriesOf(first)
    {
      forall x | x in first
        ensures x.claimed.delivery != c.claimed.delivery
      {
        assert x in first + second && c in first + second;
      }
    }
  }

  lemma AnswersJoin(
    was: map<DeliveryId, Delivery>, first: map<DeliveryId, Delivery>, second: map<DeliveryId, Delivery>,
    now: map<DeliveryId, Delivery>,
    all: seq<Completion>, delivered: seq<Completion>, failed: seq<Completion>, retry: seq<Completion>,
    worker: WorkerId, at: Time, s: Settings)
    requires PartOf(delivered, all, Done, s) && PartOf(failed, all, GivenUp, s) && PartOf(retry, all, TriedAgain, s)
    requires Distinct(Those(all))
    requires Answered(was, first, Those(delivered), worker, at, s)
        && Answered(first, second, Those(failed), worker, at, s)
    requires Answered(second, now, Those(retry), worker, at, s)
    ensures Answered(was, now, Those(all), worker, at, s)
  {
    hide Answered, PartOf, Distinct, Those;
    PartsCover(all, delivered, failed, retry, s);
    AnsweredJoin(was, first, second, Those(delivered), Those(failed), worker, at, s);
    AnsweredJoin(was, second, now, Those(delivered) + Those(failed), Those(retry), worker, at, s);
  }

  lemma CompletionWritten(db: Tables, db': Tables, worker: WorkerId, cs: set<Completion>, now: Time, s: Settings)
    requires Distinct(cs) && db'.events == db.events
    requires Closed(db.attempts, db'.attempts, cs, now) && Answered(db.deliveries, db'.deliveries, cs, worker, now, s)
    ensures Completes(db, db', worker, cs, now, s)
  {
    hide CompletedRow, HeldBy, ClosedAttempt, IsOpen;
  }

  datatype Destiny = Done | GivenUp | TriedAgain

  function DestinyOf(c: Completion, s: Settings): Destiny {
    if c.outcome == Ok then Done else if c.claimed.attemptNo >= s.maxAttempts then GivenUp else TriedAgain
  }

  ghost predicate PartOf(part: seq<Completion>, all: seq<Completion>, destiny: Destiny, s: Settings) {
    NoRepeats(part) && forall c :: c in part <==> c in all && DestinyOf(c, s) == destiny
  }

  lemma PartGrows(part: seq<Completion>, all: seq<Completion>, destiny: Destiny, s: Settings, c: Completion)
    requires PartOf(part, all, destiny, s) && c !in all
    ensures PartOf(if DestinyOf(c, s) == destiny then part + [c] else part, all + [c], destiny, s)
  {
    hide DestinyOf;
  }

  method SplitByOutcome(completions: seq<Completion>, s: Settings)
    returns (delivered: seq<Completion>, failed: seq<Completion>, retry: seq<Completion>)
    requires NoRepeats(completions)
    ensures PartOf(delivered, completions, Done, s) && PartOf(failed, completions, GivenUp, s)
        && PartOf(retry, completions, TriedAgain, s)
  {
    delivered, failed, retry := [], [], [];
    hide PartOf;
    assert completions[..0] == [];
    assert PartOf([], [], Done, s) && PartOf([], [], GivenUp, s) && PartOf([], [], TriedAgain, s) by { EmptyParts(s); }
    for i := 0 to |completions|
      invariant PartOf(delivered, completions[..i], Done, s)
      invariant PartOf(failed, completions[..i], GivenUp, s)
      invariant PartOf(retry, completions[..i], TriedAgain, s)
    {
      var c := completions[i];
      assert completions[..i + 1] == completions[..i] + [c];
      assert c !in completions[..i];
      PartGrows(delivered, completions[..i], Done, s, c);
      PartGrows(failed, completions[..i], GivenUp, s, c);
      PartGrows(retry, completions[..i], TriedAgain, s, c);
      if c.outcome == Ok {
        delivered := delivered + [c];
      } else if c.claimed.attemptNo >= s.maxAttempts {
        failed := failed + [c];
      } else {
        retry := retry + [c];
      }
    }
    assert completions[..|completions|] == completions;
  }

  lemma EmptyParts(s: Settings)
    ensures PartOf([], [], Done, s) && PartOf([], [], GivenUp, s) && PartOf([], [], TriedAgain, s)
  {
  }

  lemma PartIs(part: seq<Completion>, all: seq<Completion>, destiny: Destiny, s: Settings)
    requires PartOf(part, all, destiny, s) && Distinct(Those(all))
    ensures NoRepeats(part) && Distinct(Those(part))
    ensures forall i :: 0 <= i < |part| ==> DestinyOf(part[i], s) == destiny && part[i].claimed.attemptNo >= 1
  {
    hide DestinyOf;
    forall c | c in part
      ensures c in Those(all) && DestinyOf(c, s) == destiny
    {
    }
    assert forall c :: c in Those(part) ==> c in Those(all);
    assert forall i :: 0 <= i < |part| ==> part[i] in part;
  }

  lemma PartsCover(
    all: seq<Completion>, delivered: seq<Completion>, failed: seq<Completion>, retry: seq<Completion>, s: Settings)
    requires PartOf(delivered, all, Done, s) && PartOf(failed, all, GivenUp, s) && PartOf(retry, all, TriedAgain, s)
    requires Distinct(Those(all))
    ensures Those(delivered) + Those(failed) + Those(retry) == Those(all)
    ensures forall c :: c in Those(delivered) ==> c !in Those(failed)
    ensures forall c :: c in Those(delivered) + Those(failed) ==> c !in Those(retry)
    ensures Distinct(Those(delivered) + Those(failed))
  {
    hide DestinyOf;
    assert forall c :: c in Those(delivered) + Those(failed) + Those(retry) <==> c in Those(all);
    assert forall c :: c in Those(delivered) + Those(failed) ==> c in Those(all);
  }

  lemma LeasedCount(worker: WorkerId, now: Time, s: Settings)
    ensures forall d :: Countable(d) ==>
        Countable(LeasedRow(d, worker, now, s)) && LeasedRow(d, worker, now, s).consumer == d.consumer
  {
  }

  ghost predicate LaterThanAll(attempts: map<AttemptId, Attempt>, a: AttemptId) { forall b :: b in attempts ==> b < a }

  /** Attempts only grow, by an open one under a later id for each live row. */
  ghost predicate AttemptsAdded(
    db: Tables, db': Tables, worker: WorkerId, live: seq<DeliveryId>, ids: map<DeliveryId, AttemptId>, now: Time)
  {
    && ids.Keys == Those(live) && Injective(ids)
    && (forall d :: d in ids ==> LaterThanAll(db.attempts, ids[d]))
    && (forall d :: d in ids ==>
          && ids[d] in db'.attempts && d in db.deliveries
          && db'.attempts[ids[d]] == OpenAttempt(d, db.deliveries[d].consumer, worker, now))
    && (forall a :: a in db.attempts ==> a in db'.attempts && db'.attempts[a] == db.attempts[a])
    && (forall a :: a in db'.attempts && a !in db.attempts ==> Names(ids, a))
  }

  lemma NothingAdded(db: Tables, worker: WorkerId, now: Time)
    ensures AttemptsAdded(db, db, worker, [], map[], now)
  {
  }

  lemma NoneAdded(db: Tables, worker: WorkerId, now: Time, s: Settings)
    ensures AttemptsAdded(db, db, worker, [], map[], now) && Leases(db.deliveries, db.deliveries, [], worker, now, s)
  {
  }

  lemma LiveInside(
    db: Tables, mid: Tables, picked: seq<DeliveryId>, live: seq<DeliveryId>, expired: seq<DeliveryId>, now: Time,
    policies: map<Stream, Policy>)
    requires Splits(db.deliveries, picked, now, policies, live, expired)
        && Expires(db.deliveries, mid.deliveries, expired, now)
    ensures forall i :: 0 <= i < |live| ==> live[i] in db.deliveries && live[i] in mid.deliveries
  {
    assert forall d :: d in live ==> d in db.deliveries && d in mid.deliveries;
  }

  lemma AddedFor(db: Tables, db': Tables, worker: WorkerId, live: seq<DeliveryId>, ids: map<DeliveryId, AttemptId>,
      now: Time)
    requires AttemptsAdded(db, db', worker, live, ids, now)
    ensures ids.Keys == Those(live) && forall i :: 0 <= i < |live| ==> live[i] in ids
  {
    forall d | d in live
      ensures d in ids
    {
      assert d in Those(live);
    }
  }

  lemma AddOneMore(
    db: Tables, was: Tables, now: Tables, worker: WorkerId, live: seq<DeliveryId>, ids: map<DeliveryId, AttemptId>,
    at: Time,
    d: DeliveryId, a: AttemptId)
    requires AttemptsAdded(db, was, worker, live, ids, at) && d !in live && d in db.deliveries
    requires a !in was.attempts && forall b :: b in db.attempts ==> b < a
    requires forall x :: x in ids ==> ids[x] < a
    requires now == was.(attempts := was.attempts[a := OpenAttempt(d, db.deliveries[d].consumer, worker, at)])
    ensures AttemptsAdded(db, now, worker, live + [d], ids[d := a], at)
  {
    hide OpenAttempt;
    var more := ids[d := a];
    assert forall x :: x in more <==> x in live + [d];
    forall b | b in now.attempts && b !in db.attempts
      ensures Names(more, b)
    {
      if b == a {
        assert d in more && more[d] == a;
      } else {
        assert Names(ids, b);
        var x :| x in ids && ids[x] == b;
        assert x in more && more[x] == b;
      }
    }
  }

  /** What a worker takes away from its claim. */
  method ListClaims(asRead: map<DeliveryId, Delivery>, live: seq<DeliveryId>, ids: map<DeliveryId, AttemptId>)
      returns (claimed: seq<Claimed>)
    requires forall i :: 0 <= i < |live| ==> live[i] in ids && live[i] in asRead
    ensures |claimed| == |live|
    ensures forall i :: 0 <= i < |live| ==>
        claimed[i] == Claimed(live[i], ids[live[i]], asRead[live[i]].attemptCount + 1)
  {
    claimed := [];
    for i := 0 to |live|
      invariant |claimed| == i
      invariant forall j :: 0 <= j < i ==>
          claimed[j] == Claimed(live[j], ids[live[j]], asRead[live[j]].attemptCount + 1)
    {
      assert live[i] in live;
      claimed := claimed + [Claimed(live[i], ids[live[i]], asRead[live[i]].attemptCount + 1)];
    }
  }

  lemma BatchListed(db: Tables, live: seq<DeliveryId>, ids: map<DeliveryId, AttemptId>, claimed: seq<Claimed>)
    requires NoRepeats(live) && ids.Keys == Those(live) && |claimed| == |live| && Inside(db, ids.Keys)
    requires forall i :: 0 <= i < |live| ==>
        live[i] in ids && live[i] in db.deliveries
        && claimed[i] == Claimed(live[i], ids[live[i]], db.deliveries[live[i]].attemptCount + 1)
    ensures Those(claimed) == BatchFrom(db, ids) && NoRepeats(claimed)
  {
    forall c | c in BatchFrom(db, ids)
      ensures c in Those(claimed)
    {
      var i :| 0 <= i < |live| && live[i] == c.delivery;
      assert claimed[i] == c;
    }
  }

  lemma PickedAreReady(db: Tables, locked: set<DeliveryId>, limit: int, picked: seq<DeliveryId>)
    requires Picks(db, locked, limit, Those(picked))
    ensures forall i :: 0 <= i < |picked| ==> picked[i] in db.deliveries && db.deliveries[picked[i]].state == Ready
    ensures forall d :: d in picked ==> d in db.deliveries
  {
    forall d | d in picked
      ensures d in db.deliveries && db.deliveries[d].state == Ready
    {
      assert d in Those(picked);
    }
  }

  lemma IdsAreFresh(db: Tables, db': Tables, worker: WorkerId, live: seq<DeliveryId>,
      ids: map<DeliveryId, AttemptId>, now: Time)
    requires AttemptsAdded(db, db', worker, live, ids, now)
    ensures FreshIds(db, ids)
  {
    hide OpenAttempt;
    forall d | d in ids
      ensures LaterThanAll(db.attempts, ids[d])
    {
    }
  }

  /** The statements of the claim add up to the claim. */
  lemma ClaimWritten(
    db: Tables, mid: Tables, db': Tables, worker: WorkerId, picked: seq<DeliveryId>, live: seq<DeliveryId>,
    expired: seq<DeliveryId>, ids: map<DeliveryId, AttemptId>, now: Time, policies: map<Stream, Policy>, s: Settings)
    requires forall i :: 0 <= i < |picked| ==> picked[i] in db.deliveries
    requires Splits(db.deliveries, picked, now, policies, live, expired)
    requires mid.events == db.events && mid.attempts == db.attempts
        && Expires(db.deliveries, mid.deliveries, expired, now)
    requires db'.events == db.events && Leases(mid.deliveries, db'.deliveries, live, worker, now, s)
    requires AttemptsAdded(mid, db', worker, live, ids, now)
    ensures Inside(db, ids.Keys) && Injective(ids) && Claims(db, db', worker, Those(picked), ids, now, policies, s)
  {
    LiveIds(db, picked, live, expired, ids, now, policies);
    RowsWritten(db, mid, db', worker, picked, live, expired, now, policies, s);
    hide RowIsStale, SettledRow, LeasedRow, Expires, Leases, Splits;
    IdsAreFresh(mid, db', worker, live, ids, now);
    forall d | d in ids
      ensures ids[d] in db'.attempts && db'.attempts[ids[d]] == OpenAttempt(d, db.deliveries[d].consumer, worker, now)
    {
      assert d in live;
    }
  }

  lemma LiveIds(
    db: Tables, picked: seq<DeliveryId>, live: seq<DeliveryId>, expired: seq<DeliveryId>,
    ids: map<DeliveryId, AttemptId>,
    now: Time, policies: map<Stream, Policy>)
    requires forall i :: 0 <= i < |picked| ==> picked[i] in db.deliveries
    requires Splits(db.deliveries, picked, now, policies, live, expired) && ids.Keys == Those(live)
    ensures Inside(db, Those(picked)) && ids.Keys == Live(db, Those(picked), now, policies)
    ensures forall d :: d in ids <==> d in live
  {
    hide RowIsStale;
    assert forall d :: d in Those(live) <==> d in live;
    assert forall d :: d in ids <==> d in Those(live);
    assert forall d :: d in ids <==> d in Live(db, Those(picked), now, policies);
  }

  lemma RowsWritten(
    db: Tables, mid: Tables, db': Tables, worker: WorkerId, picked: seq<DeliveryId>, live: seq<DeliveryId>,
    expired: seq<DeliveryId>, now: Time, policies: map<Stream, Policy>, s: Settings)
    requires forall i :: 0 <= i < |picked| ==> picked[i] in db.deliveries
    requires Splits(db.deliveries, picked, now, policies, live, expired)
    requires Expires(db.deliveries, mid.deliveries, expired, now)
        && Leases(mid.deliveries, db'.deliveries, live, worker, now, s)
    ensures db'.deliveries.Keys == db.deliveries.Keys
    ensures forall d :: d in live ==> d in db.deliveries && d in mid.deliveries && mid.deliveries[d] == db.deliveries[d]
    ensures forall d :: d in db.deliveries ==>
              db'.deliveries[d] == if d !in Those(picked) then db.deliveries[d]
                                   else if d in live then LeasedRow(db.deliveries[d], worker, now, s)
                                   else SettledRow(db.deliveries[d], Expired, now)
  {
    hide RowIsStale, SettledRow, LeasedRow;
  }

  lemma ListsAt(subs: set<Stream>, types: set<string>, byType: map<string, seq<ConsumerId>>, t: string)
    requires ListsAll(subs, types, byType) && t in types
    ensures Lists(subs, t, Listed(byType, t))
  {
  }

  lemma {:induction false} ThoseSize<T>(s: seq<T>)
    requires NoRepeats(s)
    ensures |Those(s)| == |s|
  {
    if s != [] {
      var n := |s| - 1;
      ThoseSize(s[..n]);
      assert Those(s) == Those(s[..n]) + {s[n]};
    }
  }
}
