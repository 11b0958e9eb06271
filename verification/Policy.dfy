/** Staleness and latest-by-key coalescing, decided at dispatch time (app/conductor/policy.py). */
module Policies {
  import opened Model
  import opened Sets

  datatype Candidate = Candidate(
    id: DeliveryId,
    consumer: ConsumerId,
    eventType: string,
    entityKey: string,
    createdAt: Time)

  datatype Drop = Drop(delivery: DeliveryId, state: DeliveryState)

  datatype Verdict = Verdict(admit: seq<Candidate>, drops: seq<Drop>)

  /** The order coalescing uses: creation time, and id between equal times. */
  datatype Rank = Rank(createdAt: Time, id: DeliveryId) {
    predicate Before(other: Rank) {
      createdAt < other.createdAt || (createdAt == other.createdAt && id < other.id)
    }
  }

  function CandidateOf(id: DeliveryId, d: Delivery): Candidate {
    Candidate(id, d.consumer, d.eventType, d.entityKey, d.createdAt)
  }

  function CandidateKey(c: Candidate): Key { Key(c.consumer, c.eventType, c.entityKey) }

  function RankOf(c: Candidate): Rank { Rank(c.createdAt, c.id) }

  /** Virtual seconds past the bound, or None: no bound, or still inside it. */
  function StaleBy(now: Time, createdAt: Time, bound: Option<real>): Option<real> {
    if bound.None? then None
    else
      var overage := now - createdAt - bound.value;
      if overage > 0.0 then Some(overage) else None
  }

  predicate IsStale(now: Time, createdAt: Time, consumer: ConsumerId, eventType: string,
      policies: map<Stream, Policy>) {
    StaleBy(now, createdAt, PolicyOf(policies, consumer, eventType).maxStalenessS).Some?
  }

  predicate Coalesces(c: Candidate, policies: map<Stream, Policy>) {
    PolicyOf(policies, c.consumer, c.eventType).coalesce == LatestByKey
  }

  /** Not attempted yet, so still something a newer event can replace. */
  predicate Queued(d: Delivery) { d.state == Pending || d.state == Ready }

  predicate InQueue(db: Tables, d: DeliveryId, key: Key) {
    d in db.deliveries && Queued(db.deliveries[d]) && KeyOf(db.deliveries[d]) == key
  }

  function RankIn(db: Tables, d: DeliveryId): Rank
    requires d in db.deliveries
  {
    Rank(db.deliveries[d].createdAt, d)
  }

  // ---- The definition ----

  ghost predicate HasNewer(db: Tables, c: Candidate) {
    exists d :: InQueue(db, d, CandidateKey(c)) && RankOf(c).Before(RankIn(db, d))
  }

  /** What becomes of a candidate: dropped into a terminal state, or None to let it be rationed. */
  ghost function Fate(db: Tables, c: Candidate, policies: map<Stream, Policy>, now: Time): Option<DeliveryState> {
    if IsStale(now, c.createdAt, c.consumer, c.eventType, policies) then Some(Expired)
    else if Coalesces(c, policies) && HasNewer(db, c) then Some(Superseded)
    else None
  }

  ghost function Kept(db: Tables, cs: seq<Candidate>, policies: map<Stream, Policy>, now: Time): seq<Candidate> {
    if cs == [] then []
    else
      var c := cs[|cs| - 1];
      Kept(db, cs[..|cs| - 1], policies, now) + if Fate(db, c, policies, now).None? then [c] else []
  }

  ghost function DroppedInto(
    db: Tables, cs: seq<Candidate>, policies: map<Stream, Policy>, now: Time, state: DeliveryState): seq<Drop>
  {
    if cs == [] then []
    else
      var c := cs[|cs| - 1];
      DroppedInto(db, cs[..|cs| - 1], policies, now, state)
      + if Fate(db, c, policies, now) == Some(state) then [Drop(c.id, state)] else []
  }

  ghost predicate Judged(db: Tables, cs: seq<Candidate>, policies: map<Stream, Policy>, now: Time, v: Verdict) {
    && v.admit == Kept(db, cs, policies, now)
    && v.drops == DroppedInto(db, cs, policies, now, Expired) + DroppedInto(db, cs, policies, now, Superseded)
  }

  // ---- The implementation ----

  ghost function KeysOf(cs: seq<Candidate>): set<Key> {
    set i | 0 <= i < |cs| :: CandidateKey(cs[i])
  }

  /** One row per asked-for key with a queued delivery: the newest. */
  ghost predicate NewestTable(db: Tables, keys: set<Key>, scanned: set<DeliveryId>, newest: map<Key, Rank>) {
    && (forall k :: k in newest ==>
          k in keys && newest[k].id in scanned && InQueue(db, newest[k].id, k) && RankIn(db, newest[k].id) == newest[k])
    && (forall d, k :: d in scanned && k in keys && InQueue(db, d, k) ==>
          k in newest && !newest[k].Before(RankIn(db, d)))
  }

  method NewestByKey(db: Tables, cs: seq<Candidate>) returns (newest: map<Key, Rank>)
    ensures NewestTable(db, KeysOf(cs), db.deliveries.Keys, newest)
  {
    var keys := {};
    for i := 0 to |cs|
      invariant keys == set j | 0 <= j < i :: CandidateKey(cs[j])
    {
      keys := keys + {CandidateKey(cs[i])};
    }
    newest := map[];
    var todo := db.deliveries.Keys;
    while todo != {}
      invariant todo <= db.deliveries.Keys
      invariant NewestTable(db, keys, db.deliveries.Keys - todo, newest)
    {
      ghost var some: DeliveryId := Member(todo);
      var d: DeliveryId :| d in todo;
      var k := KeyOf(db.deliveries[d]);
      if Queued(db.deliveries[d]) && k in keys && (k in newest ==> newest[k].Before(RankIn(db, d))) {
        newest := newest[k := RankIn(db, d)];
      }
      todo := todo - {d};
    }
    assert db.deliveries.Keys - {} == db.deliveries.Keys;
  }

  /** Looking a fresh candidate up in the table decides the existential. */
  lemma TableDecides(
    db: Tables, coalescing: seq<Candidate>, policies: map<Stream, Policy>, newest: map<Key, Rank>, c: Candidate)
    requires NewestTable(db, KeysOf(coalescing), db.deliveries.Keys, newest)
    requires forall x :: x in coalescing ==> Coalesces(x, policies)
    requires Coalesces(c, policies) ==> c in coalescing
    ensures CandidateKey(c) in newest && RankOf(c).Before(newest[CandidateKey(c)])
        <==> Coalesces(c, policies) && HasNewer(db, c)
  {
    var k := CandidateKey(c);
    if k in newest {
      var i :| 0 <= i < |coalescing| && CandidateKey(coalescing[i]) == k;
      assert coalescing[i] in coalescing && coalescing[i].consumer == k.consumer
          && coalescing[i].eventType == k.eventType;
      assert Coalesces(c, policies);
      if RankOf(c).Before(newest[k]) {
        assert InQueue(db, newest[k].id, k) && RankOf(c).Before(RankIn(db, newest[k].id));
      }
    }
    if Coalesces(c, policies) && HasNewer(db, c) {
      var i :| 0 <= i < |coalescing| && coalescing[i] == c;
      assert k in KeysOf(coalescing);
      var d :| InQueue(db, d, k) && RankOf(c).Before(RankIn(db, d));
    }
  }

  ghost predicate AllFresh(cs: seq<Candidate>, policies: map<Stream, Policy>, now: Time) {
    forall j :: 0 <= j < |cs| ==> !IsStale(now, cs[j].createdAt, cs[j].consumer, cs[j].eventType, policies)
  }

  /** The pure half: what is stale leaves, and what coalesces is set aside to be looked up. */
  method SplitStale(ghost db: Tables, cs: seq<Candidate>, policies: map<Stream, Policy>, now: Time)
    returns (drops: seq<Drop>, survived: seq<Candidate>, coalescing: seq<Candidate>)
    ensures drops == DroppedInto(db, cs, policies, now, Expired)
    ensures Kept(db, survived, policies, now) == Kept(db, cs, policies, now)
    ensures DroppedInto(db, survived, policies, now, Superseded) == DroppedInto(db, cs, policies, now, Superseded)
    ensures AllFresh(survived, policies, now)
    ensures forall c :: c in coalescing <==> c in survived && Coalesces(c, policies)
  {
    drops, survived, coalescing := [], [], [];
    for i := 0 to |cs|
      invariant drops == DroppedInto(db, cs[..i], policies, now, Expired)
      invariant Kept(db, survived, policies, now) == Kept(db, cs[..i], policies, now)
      invariant DroppedInto(db, survived, policies, now, Superseded) ==
          DroppedInto(db, cs[..i], policies, now, Superseded)
      invariant AllFresh(survived, policies, now)
      invariant forall c :: c in coalescing <==> c in survived && Coalesces(c, policies)
    {
      var c := cs[i];
      assert cs[..i + 1][..i] == cs[..i];
      if StaleBy(now, c.createdAt, PolicyOf(policies, c.consumer, c.eventType).maxStalenessS).Some? {
        drops := drops + [Drop(c.id, Expired)];
      } else {
        assert (survived + [c])[..|survived|] == survived;
        survived := survived + [c];
        if Coalesces(c, policies) { coalescing := coalescing + [c]; }
      }
    }
    assert cs[..|cs|] == cs;
  }

  lemma NoneJudged(db: Tables, policies: map<Stream, Policy>, now: Time)
    ensures Kept(db, [], policies, now) == [] && DroppedInto(db, [], policies, now, Superseded) == []
  {
  }

  lemma FreshOneMore(db: Tables, cs: seq<Candidate>, policies: map<Stream, Policy>, now: Time, i: nat)
    requires AllFresh(cs, policies, now) && i < |cs|
    ensures var newer := Coalesces(cs[i], policies) && HasNewer(db, cs[i]);
            && Kept(db, cs[..i + 1], policies, now)
               == Kept(db, cs[..i], policies, now) + (if newer then [] else [cs[i]])
            && DroppedInto(db, cs[..i + 1], policies, now, Superseded)
               == DroppedInto(db, cs[..i], policies, now, Superseded)
                  + (if newer then [Drop(cs[i].id, Superseded)] else [])
  {
    assert cs[..i + 1][..i] == cs[..i];
    hide HasNewer;
  }

  /** No two candidates name one row. */
  ghost predicate OneRowEach(cs: seq<Candidate>) {
    forall x, y :: x in cs && y in cs && x.id == y.id ==> x == y
  }

  /** Staleness first, then coalescing over what survived, through the per-key table. */
  method Evaluate(db: Tables, cs: seq<Candidate>, policies: map<Stream, Policy>, now: Time) returns (v: Verdict)
    ensures Judged(db, cs, policies, now, v)
    ensures OneRowEach(cs) ==>
              forall c :: c in cs ==>
                var stream := Stream(c.consumer, c.eventType);
                && (Drop(c.id, Superseded) in v.drops <==>
                      && stream in policies && policies[stream].coalesce == LatestByKey
                      && (policies[stream].maxStalenessS.Some? ==>
                            now <= c.createdAt + policies[stream].maxStalenessS.value)
                      && exists d :: && d in db.deliveries
                                     && (db.deliveries[d].state == Pending || db.deliveries[d].state == Ready)
                                     && db.deliveries[d].consumer == c.consumer
                                     && db.deliveries[d].eventType == c.eventType
                                     && db.deliveries[d].entityKey == c.entityKey
                                     && (|| c.createdAt < db.deliveries[d].createdAt
                                         || (c.createdAt == db.deliveries[d].createdAt && c.id < d)))
                && (Drop(c.id, Expired) in v.drops <==>
                      && stream in policies && policies[stream].maxStalenessS.Some?
                      && c.createdAt + policies[stream].maxStalenessS.value < now)
  {
    hide Kept, DroppedInto, NewestTable, HasNewer, AllFresh, OneRowEach;
    var expired, survived, coalescing := SplitStale(db, cs, policies, now);
    var newest := NewestByKey(db, coalescing);
    var superseded: seq<Drop>, admit: seq<Candidate> := [], [];
    NoneJudged(db, policies, now);
    for i := 0 to |survived|
      invariant admit == Kept(db, survived[..i], policies, now)
      invariant superseded == DroppedInto(db, survived[..i], policies, now, Superseded)
    {
      var c := survived[i];
      FreshOneMore(db, survived, policies, now, i);
      TableDecides(db, coalescing, policies, newest, c);
      if CandidateKey(c) in newest && RankOf(c).Before(newest[CandidateKey(c)]) {
        superseded := superseded + [Drop(c.id, Superseded)];
      } else {
        admit := admit + [c];
      }
    }
    assert survived[..|survived|] == survived;
    v := Verdict(admit, expired + superseded);
    hide Judged;
    if OneRowEach(cs) {
      forall c | c in cs {
        VerdictMeans(db, cs, policies, now, v, c);
      }
    }
  }

  // ---- What policy promises ----

  lemma {:induction false} KeptMeans(db: Tables, cs: seq<Candidate>, policies: map<Stream, Policy>, now: Time,
      c: Candidate)
    ensures c in Kept(db, cs, policies, now) <==> c in cs && Fate(db, c, policies, now).None?
  {
    if cs != [] {
      var n := |cs| - 1;
      KeptMeans(db, cs[..n], policies, now, c);
      assert cs == cs[..n] + [cs[n]];
    }
  }

  ghost predicate FatedIn(db: Tables, cs: seq<Candidate>, policies: map<Stream, Policy>, now: Time, x: Drop) {
    exists i :: 0 <= i < |cs| && cs[i].id == x.delivery && Fate(db, cs[i], policies, now) == Some(x.state)
  }

  lemma {:induction false} DroppedMeans(
    db: Tables, cs: seq<Candidate>, policies: map<Stream, Policy>, now: Time, state: DeliveryState, x: Drop)
    ensures x in DroppedInto(db, cs, policies, now, state) <==> x.state == state && FatedIn(db, cs, policies, now, x)
  {
    if cs != [] {
      var n := |cs| - 1;
      DroppedMeans(db, cs[..n], policies, now, state, x);
      assert forall i :: 0 <= i < n ==> cs[..n][i] == cs[i];
      if FatedIn(db, cs, policies, now, x) && !FatedIn(db, cs[..n], policies, now, x) {
        assert cs[n].id == x.delivery && Fate(db, cs[n], policies, now) == Some(x.state);
      }
    }
  }

  /** Every candidate is kept, expired or superseded, once. */
  lemma {:induction false} VerdictLosesNothing(db: Tables, cs: seq<Candidate>, policies: map<Stream, Policy>, now: Time)
    ensures |Kept(db, cs, policies, now)| + |DroppedInto(db, cs, policies, now, Expired)|
          + |DroppedInto(db, cs, policies, now, Superseded)| == |cs|
  {
    if cs != [] {
      VerdictLosesNothing(db, cs[..|cs| - 1], policies, now);
    }
  }

  ghost predicate NewerInQueue(db: Tables, c: Candidate, d: DeliveryId) {
    InQueue(db, d, CandidateKey(c)) && RankOf(c).Before(RankIn(db, d))
  }

  lemma {:induction false} NewestAmong(db: Tables, s: set<DeliveryId>) returns (m: DeliveryId)
    requires s != {} && s <= db.deliveries.Keys
    ensures m in s && forall d :: d in s ==> !RankIn(db, m).Before(RankIn(db, d))
  {
    var x := Member(s);
    m := x;
    if s - {x} != {} {
      var n := NewestAmong(db, s - {x});
      if RankIn(db, x).Before(RankIn(db, n)) { m := n; }
    }
    assert forall d :: d in s ==> d == x || d in s - {x};
  }

  /** Coalescing never empties a key: a superseded candidate leaves a newer one that the same pass would keep. */
  lemma CoalescingKeepsAWinner(db: Tables, c: Candidate, policies: map<Stream, Policy>, now: Time)
      returns (w: DeliveryId)
    requires Fate(db, c, policies, now) == Some(Superseded)
    ensures NewerInQueue(db, c, w)
    ensures Fate(db, CandidateOf(w, db.deliveries[w]), policies, now) == None
  {
    var newer := set d | d in db.deliveries && NewerInQueue(db, c, d);
    var d :| InQueue(db, d, CandidateKey(c)) && RankOf(c).Before(RankIn(db, d));
    assert d in newer;
    w := NewestAmong(db, newer);
    var winner := CandidateOf(w, db.deliveries[w]);
    assert forall e :: InQueue(db, e, CandidateKey(winner)) && RankOf(winner).Before(RankIn(db, e)) ==> e in newer;
  }

  /** Stale means past a bound that somebody set: without a policy row, or a bound in it, an event keeps. */
  lemma StaleMeans(now: Time, createdAt: Time, consumer: ConsumerId, eventType: string, policies: map<Stream, Policy>)
    ensures IsStale(now, createdAt, consumer, eventType, policies)
       <==> && Stream(consumer, eventType) in policies
            && policies[Stream(consumer, eventType)].maxStalenessS.Some?
            && createdAt + policies[Stream(consumer, eventType)].maxStalenessS.value < now
    ensures forall later :: now <= later && IsStale(now, createdAt, consumer, eventType, policies) ==>
              IsStale(later, createdAt, consumer, eventType, policies)
    ensures forall earlier :: earlier <= createdAt && IsStale(now, createdAt, consumer, eventType, policies) ==>
              IsStale(now, earlier, consumer, eventType, policies)
  {
  }

  /** Coalescing is on for a stream whose policy row says so, whatever else that row says, and off for any other. */
  lemma CoalescesMeans(c: Candidate, policies: map<Stream, Policy>)
    ensures Coalesces(c, policies)
       <==> && Stream(c.consumer, c.eventType) in policies
            && policies[Stream(c.consumer, c.eventType)].coalesce == LatestByKey
  {
  }

  /** What makes a row newer: it waits, for the same consumer, type and entity, and comes later by time and then id. */
  lemma NewerMeans(db: Tables, c: Candidate, d: DeliveryId)
    ensures NewerInQueue(db, c, d)
       <==> && d in db.deliveries
            && (db.deliveries[d].state == Pending || db.deliveries[d].state == Ready)
            && db.deliveries[d].consumer == c.consumer
            && db.deliveries[d].eventType == c.eventType
            && db.deliveries[d].entityKey == c.entityKey
            && (c.createdAt < db.deliveries[d].createdAt || (c.createdAt == db.deliveries[d].createdAt && c.id < d))
  {
  }

  /**
   * The verdict on each candidate: expired if and only if past the bound of its policy row; superseded if and only if
   * not, its policy row asks for the latest by key, and a later row of its consumer, type and entity is pending or
   * ready; admitted if and only if neither.
   */
  lemma VerdictMeans(db: Tables, cs: seq<Candidate>, policies: map<Stream, Policy>, now: Time, v: Verdict, c: Candidate)
    requires Judged(db, cs, policies, now, v) && c in cs
    requires OneRowEach(cs)
    ensures Drop(c.id, Expired) in v.drops
       <==> var stream := Stream(c.consumer, c.eventType);
            && stream in policies && policies[stream].maxStalenessS.Some?
            && c.createdAt + policies[stream].maxStalenessS.value < now
    ensures Drop(c.id, Superseded) in v.drops
       <==> var stream := Stream(c.consumer, c.eventType);
            && stream in policies && policies[stream].coalesce == LatestByKey
            && (policies[stream].maxStalenessS.Some? ==> now <= c.createdAt + policies[stream].maxStalenessS.value)
            && exists d :: && d in db.deliveries
                           && (db.deliveries[d].state == Pending || db.deliveries[d].state == Ready)
                           && db.deliveries[d].consumer == c.consumer
                           && db.deliveries[d].eventType == c.eventType
                           && db.deliveries[d].entityKey == c.entityKey
                           && (|| c.createdAt < db.deliveries[d].createdAt
                               || (c.createdAt == db.deliveries[d].createdAt && c.id < d))
    ensures c in v.admit <==> Drop(c.id, Expired) !in v.drops && Drop(c.id, Superseded) !in v.drops
  {
    VerdictIsFate(db, cs, policies, now, v, c);
    StaleMeans(now, c.createdAt, c.consumer, c.eventType, policies);
    CoalescesMeans(c, policies);
    forall d
      ensures NewerInQueue(db, c, d)
         <==> && d in db.deliveries
              && (db.deliveries[d].state == Pending || db.deliveries[d].state == Ready)
              && db.deliveries[d].consumer == c.consumer
              && db.deliveries[d].eventType == c.eventType
              && db.deliveries[d].entityKey == c.entityKey
              && (|| c.createdAt < db.deliveries[d].createdAt
                  || (c.createdAt == db.deliveries[d].createdAt && c.id < d))
    {
      NewerMeans(db, c, d);
    }
    hide IsStale, Coalesces, NewerInQueue, Judged;
  }

  lemma VerdictIsFate(
    db: Tables, cs: seq<Candidate>, policies: map<Stream, Policy>, now: Time, v: Verdict, c: Candidate)
    requires Judged(db, cs, policies, now, v) && c in cs
    requires OneRowEach(cs)
    ensures Drop(c.id, Expired) in v.drops <==> IsStale(now, c.createdAt, c.consumer, c.eventType, policies)
    ensures Drop(c.id, Superseded) in v.drops
       <==> && !IsStale(now, c.createdAt, c.consumer, c.eventType, policies)
            && Coalesces(c, policies) && exists d :: NewerInQueue(db, c, d)
    ensures c in v.admit <==> Drop(c.id, Expired) !in v.drops && Drop(c.id, Superseded) !in v.drops
  {
    KeptMeans(db, cs, policies, now, c);
    var i :| 0 <= i < |cs| && cs[i] == c;
    var expired, superseded := Drop(c.id, Expired), Drop(c.id, Superseded);
    DroppedMeans(db, cs, policies, now, Expired, expired);
    DroppedMeans(db, cs, policies, now, Expired, superseded);
    DroppedMeans(db, cs, policies, now, Superseded, expired);
    DroppedMeans(db, cs, policies, now, Superseded, superseded);
    FatedByItself(db, cs, policies, now, c, expired);
    FatedByItself(db, cs, policies, now, c, superseded);
    assert HasNewer(db, c) <==> exists d :: NewerInQueue(db, c, d) by {
      if HasNewer(db, c) {
        var d :| InQueue(db, d, CandidateKey(c)) && RankOf(c).Before(RankIn(db, d));
        assert NewerInQueue(db, c, d);
      }
    }
  }

  lemma FatedByItself(db: Tables, cs: seq<Candidate>, policies: map<Stream, Policy>, now: Time, c: Candidate, x: Drop)
    requires c in cs && x.delivery == c.id && forall a, b :: a in cs && b in cs && a.id == b.id ==> a == b
    ensures FatedIn(db, cs, policies, now, x) <==> Fate(db, c, policies, now) == Some(x.state)
  {
    var i :| 0 <= i < |cs| && cs[i] == c;
    if FatedIn(db, cs, policies, now, x) {
      var j :| 0 <= j < |cs| && cs[j].id == x.delivery && Fate(db, cs[j], policies, now) == Some(x.state);
      assert cs[j] in cs;
    }
  }

  /** Without latest-by-key nothing is ever superseded; with no bound nothing expires. */
  lemma PoliciesAreOptIn(db: Tables, c: Candidate, policies: map<Stream, Policy>, now: Time)
    ensures PolicyOf(policies, c.consumer, c.eventType) == DELIVER_EVERYTHING ==> Fate(db, c, policies, now) == None
    ensures Fate(db, c, policies, now) == Some(Superseded) ==> Coalesces(c, policies)
  {
  }

  // ---- What coalescing does not promise ----

  const NEWER := Delivery(1, 1, "order", "a", InFlight, 1, 1.0, Some(1.0), Some(7), Some(31.0), 1.0, None)
  const OLDER := Delivery(2, 1, "order", "a", Pending, 1, 3.0, Some(0.5), Some(7), Some(30.5), 0.5, None)

  /** A retry of an older event is admitted once the newer event of its key has left the queue for its attempt. */
  lemma OlderMayFollowNewer(db: Tables, v: Verdict)
    requires db.deliveries == map[1 := NEWER, 2 := OLDER]
    requires Judged(db, [CandidateOf(2, OLDER)], map[Stream(1, "order") := Policy(None, LatestByKey)], 3.0, v)
    ensures KeyOf(NEWER) == KeyOf(OLDER) && RankIn(db, 2).Before(RankIn(db, 1)) && NEWER.state == InFlight
    ensures v.admit == [CandidateOf(2, OLDER)] && v.drops == []
  {
    var policies: map<Stream, Policy> := map[Stream(1, "order") := Policy(None, LatestByKey)];
    var c := CandidateOf(2, OLDER);
    var cs := [c];
    assert !HasNewer(db, c);
    assert Fate(db, c, policies, 3.0) == None;
    assert cs[..0] == [] && [] + [c] == cs;
    assert Kept(db, cs, policies, 3.0) == cs;
    assert DroppedInto(db, cs, policies, 3.0, Expired) == [] && DroppedInto(db, cs, policies, 3.0, Superseded) == [];
  }
}
