/** The chart series: one row per consumer and bucket, counted from the tables (app/conductor/metrics.py). */
module Metrics {
  import opened Model
  import opened Sets
  import opened Admission

  /** How far behind the current bucket writing stops. */
  const COMPLETE_BUCKET_LAG := 2

  datatype Slot = Slot(consumer: ConsumerId, bucket: int)

  datatype Counters = Counters(attempts: int, delivered: int, expired: int, superseded: int, failed: int)

  datatype Snapshot = Snapshot(backlog: int, ready: int, inFlight: int, counters: Counters)

  type Table = map<Slot, Snapshot>

  function BucketIndex(t: Time, bucketS: real): int
    requires bucketS > 0.0
  {
    (t / bucketS).Floor
  }

  /** A half-open window of instants is a closed range of buckets. */
  lemma WindowIsBuckets(t: Time, bucketS: real, first: int, last: int)
    requires bucketS > 0.0
    ensures first as real * bucketS <= t < (last + 1) as real * bucketS <==> first <= BucketIndex(t, bucketS) <= last
  {
    var q := t / bucketS;
    assert q * bucketS == t;
    Scaled(first as real, q, bucketS);
    Scaled((last + 1) as real, q, bucketS);
  }

  lemma Scaled(x: real, y: real, unit: real)
    requires unit > 0.0
    ensures x * unit <= y * unit <==> x <= y
  {
    assert y * unit - x * unit == (y - x) * unit;
    if x <= y { assert (y - x) * unit >= 0.0; } else { assert (x - y) * unit > 0.0; }
  }

  lemma BucketsGrow(t: Time, u: Time, bucketS: real)
    requires bucketS > 0.0 && t <= u
    ensures BucketIndex(t, bucketS) <= BucketIndex(u, bucketS)
  {
    Scaled(t / bucketS, u / bucketS, bucketS);
    assert t / bucketS * bucketS == t && u / bucketS * bucketS == u;
  }

  // ---- The definition: a recount of the tables ----

  predicate StartedIn(a: Attempt, slot: Slot, bucketS: real)
    requires bucketS > 0.0
  {
    a.consumer == slot.consumer && BucketIndex(a.startedAt, bucketS) == slot.bucket
  }

  predicate SettledIn(d: Delivery, slot: Slot, state: DeliveryState, bucketS: real)
    requires bucketS > 0.0
  {
    && d.consumer == slot.consumer && d.state == state
    && d.completedAt.Some? && BucketIndex(d.completedAt.value, bucketS) == slot.bucket
  }

  ghost function Started(db: Tables, slot: Slot, bucketS: real): set<AttemptId>
    requires bucketS > 0.0
  {
    set a | a in db.attempts && StartedIn(db.attempts[a], slot, bucketS)
  }

  ghost function SettledRows(db: Tables, slot: Slot, state: DeliveryState, bucketS: real): set<DeliveryId>
    requires bucketS > 0.0
  {
    set d | d in db.deliveries && SettledIn(db.deliveries[d], slot, state, bucketS)
  }

  ghost function Recount(db: Tables, slot: Slot, bucketS: real): Counters
    requires bucketS > 0.0
  {
    Counters(|Started(db, slot, bucketS)|,
             |SettledRows(db, slot, Delivered, bucketS)|, |SettledRows(db, slot, Expired, bucketS)|,
             |SettledRows(db, slot, Superseded, bucketS)|, |SettledRows(db, slot, Failed, bucketS)|)
  }

  function SampleOf(gauges: map<ConsumerId, Gauge>, c: ConsumerId): Gauge {
    if c in gauges then gauges[c] else Gauge(0, 0, 0)
  }

  ghost function Counted(db: Tables, gauges: map<ConsumerId, Gauge>, slot: Slot, bucketS: real): Snapshot
    requires bucketS > 0.0
  {
    var g := SampleOf(gauges, slot.consumer);
    Snapshot(g.pending + g.ready + g.inFlight, g.ready, g.inFlight, Recount(db, slot, bucketS))
  }

  /** A bucket is a half-open span of instants. */
  lemma BucketSpan(t: Time, bucketS: real, b: int)
    requires bucketS > 0.0
    ensures BucketIndex(t, bucketS) == b <==> b as real * bucketS <= t < (b + 1) as real * bucketS
  {
    WindowIsBuckets(t, bucketS, b, b);
  }

  /** The rows of a consumer completed in [from, to), in one state. */
  ghost function CompletedAs(db: Tables, c: ConsumerId, state: DeliveryState, from: Time, to: Time): set<DeliveryId> {
    set d | d in db.deliveries && db.deliveries[d].consumer == c && db.deliveries[d].state == state
            && db.deliveries[d].completedAt.Some? && from <= db.deliveries[d].completedAt.value < to
  }

  /** The attempts a consumer started in [from, to). */
  ghost function StartedBy(db: Tables, c: ConsumerId, from: Time, to: Time): set<AttemptId> {
    set a | a in db.attempts && db.attempts[a].consumer == c && from <= db.attempts[a].startedAt < to
  }

  lemma StartedIs(db: Tables, slot: Slot, bucketS: real, from: Time, to: Time)
    requires bucketS > 0.0 && from == slot.bucket as real * bucketS && to == (slot.bucket + 1) as real * bucketS
    ensures Started(db, slot, bucketS) == StartedBy(db, slot.consumer, from, to)
  {
    hide BucketIndex;
    forall a
      ensures a in Started(db, slot, bucketS) <==> a in StartedBy(db, slot.consumer, from, to)
    {
      if a in db.attempts { BucketSpan(db.attempts[a].startedAt, bucketS, slot.bucket); }
    }
  }

  lemma SettledRowsAre(db: Tables, slot: Slot, state: DeliveryState, bucketS: real, from: Time, to: Time)
    requires bucketS > 0.0 && from == slot.bucket as real * bucketS && to == (slot.bucket + 1) as real * bucketS
    ensures SettledRows(db, slot, state, bucketS) == CompletedAs(db, slot.consumer, state, from, to)
  {
    hide BucketIndex;
    forall d
      ensures d in SettledRows(db, slot, state, bucketS) <==> d in CompletedAs(db, slot.consumer, state, from, to)
    {
      if d in db.deliveries && db.deliveries[d].completedAt.Some? {
        BucketSpan(db.deliveries[d].completedAt.value, bucketS, slot.bucket);
      }
    }
  }

  /** A consumer's row over [from, to), in columns: each counter by its own state, each gauge by its own. */
  ghost predicate RowIs(
    db: Tables, gauges: map<ConsumerId, Gauge>, c: ConsumerId, from: Time, to: Time, row: Snapshot)
  {
    && row.counters.attempts == |StartedBy(db, c, from, to)|
    && row.counters.delivered == |CompletedAs(db, c, Delivered, from, to)|
    && row.counters.expired == |CompletedAs(db, c, Expired, from, to)|
    && row.counters.superseded == |CompletedAs(db, c, Superseded, from, to)|
    && row.counters.failed == |CompletedAs(db, c, Failed, from, to)|
    && if c in gauges then
         && row.backlog == gauges[c].pending + gauges[c].ready + gauges[c].inFlight
         && row.ready == gauges[c].ready && row.inFlight == gauges[c].inFlight
       else row.backlog == row.ready == row.inFlight == 0
  }

  lemma CountedMeans(
    db: Tables, gauges: map<ConsumerId, Gauge>, slot: Slot, bucketS: real, from: Time, to: Time)
    requires bucketS > 0.0 && from == slot.bucket as real * bucketS && to == (slot.bucket + 1) as real * bucketS
    ensures RowIs(db, gauges, slot.consumer, from, to, Counted(db, gauges, slot, bucketS))
  {
    StartedIs(db, slot, bucketS, from, to);
    SettledRowsAre(db, slot, Delivered, bucketS, from, to);
    SettledRowsAre(db, slot, Expired, bucketS, from, to);
    SettledRowsAre(db, slot, Superseded, bucketS, from, to);
    SettledRowsAre(db, slot, Failed, bucketS, from, to);
    hide Started, SettledRows, StartedBy, CompletedAs;
  }

  ghost function BucketStart(b: int, bucketS: real): Time { b as real * bucketS }

  /** The chart's row for a slot, in columns. */
  ghost predicate SlotIs(db: Tables, gauges: map<ConsumerId, Gauge>, slot: Slot, bucketS: real, row: Snapshot) {
    RowIs(db, gauges, slot.consumer, BucketStart(slot.bucket, bucketS), BucketStart(slot.bucket + 1, bucketS), row)
  }

  lemma CountedSlot(db: Tables, gauges: map<ConsumerId, Gauge>, slot: Slot, bucketS: real)
    requires bucketS > 0.0
    ensures SlotIs(db, gauges, slot, bucketS, Counted(db, gauges, slot, bucketS))
  {
    CountedMeans(db, gauges, slot, bucketS, BucketStart(slot.bucket, bucketS), BucketStart(slot.bucket + 1, bucketS));
    hide RowIs, Counted, BucketStart;
  }

  /** `MAX(bucket)`, or -1 over no rows. */
  ghost function Top(table: Table): (top: int)
    ensures forall slot :: slot in table ==> slot.bucket <= top
    ensures if table == map[] then top == -1 else exists slot :: slot in table && slot.bucket == top
  {
    if table == map[] then -1
    else
      var buckets := set slot | slot in table :: slot.bucket;
      assert buckets != {} by {
        var slot :| slot in table;
        assert slot.bucket in buckets;
      }
      TopExists(buckets);
      var top :| top in buckets && forall b :: b in buckets ==> b <= top;
      assert forall slot :: slot in table ==> slot.bucket in buckets;
      top
  }

  lemma TopExists(s: set<int>)
    requires s != {}
    ensures exists m :: m in s && forall x :: x in s ==> x <= m
  {
    var m := LargestExists(s);
  }

  ghost predicate InSpan(slot: Slot, consumers: set<ConsumerId>, first: int, last: int) {
    slot.consumer in consumers && first <= slot.bucket <= last
  }

  ghost function Cross(consumers: set<ConsumerId>, first: int, last: int): set<Slot> {
    set c, b | c in consumers && first <= b <= last :: Slot(c, b)
  }

  ghost function Fresh(
    db: Tables, consumers: set<ConsumerId>, gauges: map<ConsumerId, Gauge>, first: int, last: int, bucketS: real): Table
    requires bucketS > 0.0
  {
    map slot | slot in Cross(consumers, first, last) :: Counted(db, gauges, slot, bucketS)
  }

  function EndBucket(now: Time, s: Settings): int { BucketIndex(now, s.bucketS) - COMPLETE_BUCKET_LAG }

  /** Where a writer resumes: after its own cache, or after the table it inherits. */
  ghost function FirstBucket(cache: Option<int>, table: Table): int {
    (if cache.Some? then cache.value else Top(table)) + 1
  }

  /** The slots a write counts afresh: nothing, or everybody's buckets up to two behind the present. */
  ghost function Rewritten(consumers: set<ConsumerId>, now: Time, s: Settings, cache: Option<int>,
      table: Table): set<Slot> {
    var last := EndBucket(now, s);
    var first := FirstBucket(cache, table);
    if first > last || consumers == {} then {} else Cross(consumers, Max(first, last - s.maxBackfill + 1), last)
  }

  lemma WritesAfresh(
    db: Tables, consumers: set<ConsumerId>, gauges: map<ConsumerId, Gauge>, now: Time, s: Settings,
    cache: Option<int>, table: Table, cache': Option<int>, table': Table)
    requires Writes(db, consumers, gauges, now, s, cache, table, cache', table')
    ensures table'.Keys == table.Keys + Rewritten(consumers, now, s, cache, table)
    ensures forall slot :: slot in table' ==>
              table'[slot] == if slot in Rewritten(consumers, now, s, cache, table) then
                  Counted(db, gauges, slot, s.bucketS)
                              else table[slot]
    ensures forall slot :: slot in Rewritten(consumers, now, s, cache, table) ==> slot.bucket <= EndBucket(now, s)
  {
    hide EndBucket, FirstBucket, Counted;
  }

  /** The table and cache a write leaves. */
  ghost predicate Writes(
    db: Tables, consumers: set<ConsumerId>, gauges: map<ConsumerId, Gauge>, now: Time, s: Settings,
    cache: Option<int>, table: Table, cache': Option<int>, table': Table)
  {
    var last := EndBucket(now, s);
    var first := FirstBucket(cache, table);
    if first > last || consumers == {} then cache' == cache && table' == table
    else
      && cache' == Some(last)
      && table' == table + Fresh(db, consumers, gauges, Max(first, last - s.maxBackfill + 1), last, s.bucketS)
  }

  // ---- The writer ----

  function CountAt<K>(m: map<K, int>, k: K): int { if k in m then m[k] else 0 }

  ghost function StartedAmong(db: Tables, seen: set<AttemptId>, slot: Slot, from: Time, to: Time,
      bucketS: real): set<AttemptId>
    requires bucketS > 0.0
  {
    set a | a in seen && a in db.attempts && from <= db.attempts[a].startedAt < to
        && StartedIn(db.attempts[a], slot, bucketS)
  }

  ghost predicate TalliesStarted(
    counts: map<Slot, int>, db: Tables, seen: set<AttemptId>, from: Time, to: Time, bucketS: real)
    requires bucketS > 0.0
  {
    forall slot {:trigger CountAt(counts, slot)} ::
      CountAt(counts, slot) == |StartedAmong(db, seen, slot, from, to, bucketS)|
  }

  lemma TallyStarted(
    counts: map<Slot, int>, after: map<Slot, int>, db: Tables, seen: set<AttemptId>, a: AttemptId,
    from: Time, to: Time, bucketS: real)
    requires bucketS > 0.0 && TalliesStarted(counts, db, seen, from, to, bucketS)
    requires a in db.attempts && a !in seen
    requires var row := db.attempts[a];
             var slot := Slot(row.consumer, BucketIndex(row.startedAt, bucketS));
             after == if from <= row.startedAt < to then counts[slot := CountAt(counts, slot) + 1] else counts
    ensures TalliesStarted(after, db, seen + {a}, from, to, bucketS)
  {
    hide BucketIndex;
    forall slot
      ensures CountAt(after, slot) == |StartedAmong(db, seen + {a}, slot, from, to, bucketS)|
    {
      var was := StartedAmong(db, seen, slot, from, to, bucketS);
      var row := db.attempts[a];
      assert CountAt(counts, slot) == |was|;
      var counted := if from <= row.startedAt < to && StartedIn(row, slot, bucketS) then {a} else {};
      assert forall x :: x in StartedAmong(db, seen + {a}, slot, from, to, bucketS) <==> x in was + counted;
      assert StartedAmong(db, seen + {a}, slot, from, to, bucketS) == was + counted;
    }
  }

  /** Attempts in a window, grouped by consumer and bucket. */
  method CountStarted(db: Tables, bucketS: real, from: Time, to: Time) returns (counts: map<Slot, int>)
    requires bucketS > 0.0
    ensures TalliesStarted(counts, db, db.attempts.Keys, from, to, bucketS)
  {
    counts := map[];
    var todo := db.attempts.Keys;
    assert TalliesStarted(counts, db, {}, from, to, bucketS);
    hide TalliesStarted, BucketIndex;
    while todo != {}
      invariant todo <= db.attempts.Keys
      invariant TalliesStarted(counts, db, db.attempts.Keys - todo, from, to, bucketS)
      decreases |todo|
    {
      ghost var some: AttemptId := Member(todo);
      var a: AttemptId :| a in todo;
      ghost var was, seen := counts, db.attempts.Keys - todo;
      var row := db.attempts[a];
      if from <= row.startedAt < to {
        var slot := Slot(row.consumer, BucketIndex(row.startedAt, bucketS));
        counts := counts[slot := CountAt(counts, slot) + 1];
      }
      TallyStarted(was, counts, db, seen, a, from, to, bucketS);
      todo := todo - {a};
      assert db.attempts.Keys - todo == seen + {a};
    }
    assert db.attempts.Keys - {} == db.attempts.Keys;
  }

  datatype Terminal = Terminal(slot: Slot, state: DeliveryState)

  ghost function SettledAmong(db: Tables, seen: set<DeliveryId>, key: Terminal, from: Time, to: Time,
      bucketS: real): set<DeliveryId>
    requires bucketS > 0.0
  {
    set d | d in seen && d in db.deliveries && SettledBetween(db.deliveries[d], from, to)
            && SettledIn(db.deliveries[d], key.slot, key.state, bucketS)
  }

  ghost predicate TalliesSettled(
    counts: map<Terminal, int>, db: Tables, seen: set<DeliveryId>, from: Time, to: Time, bucketS: real)
    requires bucketS > 0.0
  {
    forall key {:trigger CountAt(counts, key)} ::
      CountAt(counts, key) == |SettledAmong(db, seen, key, from, to, bucketS)|
  }

  predicate SettledBetween(d: Delivery, from: Time, to: Time) {
    d.state.Terminal() && d.completedAt.Some? && from <= d.completedAt.value < to
  }

  lemma TallySettled(
    counts: map<Terminal, int>, after: map<Terminal, int>, db: Tables, seen: set<DeliveryId>, d: DeliveryId,
    from: Time, to: Time, bucketS: real)
    requires bucketS > 0.0 && TalliesSettled(counts, db, seen, from, to, bucketS)
    requires d in db.deliveries && d !in seen
    requires var row := db.deliveries[d];
             if SettledBetween(row, from, to) then
               var key := Terminal(Slot(row.consumer, BucketIndex(row.completedAt.value, bucketS)), row.state);
               after == counts[key := CountAt(counts, key) + 1]
             else after == counts
    ensures TalliesSettled(after, db, seen + {d}, from, to, bucketS)
  {
    hide BucketIndex;
    forall key
      ensures CountAt(after, key) == |SettledAmong(db, seen + {d}, key, from, to, bucketS)|
    {
      var was := SettledAmong(db, seen, key, from, to, bucketS);
      var row := db.deliveries[d];
      assert CountAt(counts, key) == |was|;
      var counted := if SettledBetween(row, from, to) && SettledIn(row, key.slot, key.state, bucketS) then {d} else {};
      assert forall x :: x in SettledAmong(db, seen + {d}, key, from, to, bucketS) <==> x in was + counted;
      assert SettledAmong(db, seen + {d}, key, from, to, bucketS) == was + counted;
    }
  }

  /** Rows settled in a window, grouped by consumer, bucket and terminal state. */
  method CountSettled(db: Tables, bucketS: real, from: Time, to: Time) returns (counts: map<Terminal, int>)
    requires bucketS > 0.0
    ensures TalliesSettled(counts, db, db.deliveries.Keys, from, to, bucketS)
  {
    counts := map[];
    var todo := db.deliveries.Keys;
    assert TalliesSettled(counts, db, {}, from, to, bucketS);
    hide TalliesSettled, BucketIndex;
    while todo != {}
      invariant todo <= db.deliveries.Keys
      invariant TalliesSettled(counts, db, db.deliveries.Keys - todo, from, to, bucketS)
      decreases |todo|
    {
      ghost var some: DeliveryId := Member(todo);
      var d: DeliveryId :| d in todo;
      ghost var was, seen := counts, db.deliveries.Keys - todo;
      var row := db.deliveries[d];
      if SettledBetween(row, from, to) {
        var key := Terminal(Slot(row.consumer, BucketIndex(row.completedAt.value, bucketS)), row.state);
        counts := counts[key := CountAt(counts, key) + 1];
      }
      TallySettled(was, counts, db, seen, d, from, to, bucketS);
      todo := todo - {d};
      assert db.deliveries.Keys - todo == seen + {d};
    }
    assert db.deliveries.Keys - {} == db.deliveries.Keys;
  }

  /** The row a pair of grouped counts gives. */
  function Grouped(
    attempts: map<Slot, int>, terminals: map<Terminal, int>, gauges: map<ConsumerId, Gauge>, slot: Slot): Snapshot
  {
    var g := SampleOf(gauges, slot.consumer);
    Snapshot(g.pending + g.ready + g.inFlight, g.ready, g.inFlight,
      Counters(CountAt(attempts, slot),
               CountAt(terminals, Terminal(slot, Delivered)), CountAt(terminals, Terminal(slot, Expired)),
               CountAt(terminals, Terminal(slot, Superseded)), CountAt(terminals, Terminal(slot, Failed))))
  }

  /** Inside the window a grouped count is the recount. */
  lemma GroupedIsRecount(
    db: Tables, slot: Slot, first: int, last: int, bucketS: real,
    attempts: map<Slot, int>, terminals: map<Terminal, int>, gauges: map<ConsumerId, Gauge>)
    requires bucketS > 0.0 && first <= slot.bucket <= last
    requires TalliesStarted(attempts, db, db.attempts.Keys, first as real * bucketS, (last + 1) as real * bucketS,
        bucketS)
    requires TalliesSettled(terminals, db, db.deliveries.Keys, first as real * bucketS, (last + 1) as real * bucketS,
        bucketS)
    ensures Grouped(attempts, terminals, gauges, slot) == Counted(db, gauges, slot, bucketS)
  {
    var from, to := first as real * bucketS, (last + 1) as real * bucketS;
    forall a | a in Started(db, slot, bucketS)
      ensures from <= db.attempts[a].startedAt < to
    {
      WindowIsBuckets(db.attempts[a].startedAt, bucketS, first, last);
    }
    assert forall a :: a in StartedAmong(db, db.attempts.Keys, slot, from, to, bucketS) <==>
        a in Started(db, slot, bucketS);
    assert StartedAmong(db, db.attempts.Keys, slot, from, to, bucketS) == Started(db, slot, bucketS);
    forall state: DeliveryState | state.Terminal()
      ensures CountAt(terminals, Terminal(slot, state)) == |SettledRows(db, slot, state, bucketS)|
    {
      var key := Terminal(slot, state);
      assert CountAt(terminals, key) == |SettledAmong(db, db.deliveries.Keys, key, from, to, bucketS)|;
      forall d | d in SettledRows(db, slot, state, bucketS)
        ensures from <= db.deliveries[d].completedAt.value < to
      {
        WindowIsBuckets(db.deliveries[d].completedAt.value, bucketS, first, last);
      }
      assert forall d :: d in SettledAmong(db, db.deliveries.Keys, key, from, to, bucketS) <==>
          d in SettledRows(db, slot, state, bucketS);
      assert SettledAmong(db, db.deliveries.Keys, key, from, to, bucketS) == SettledRows(db, slot, state, bucketS);
    }
  }

  datatype Row = Row(slot: Slot, snapshot: Snapshot)

  /** The rows written so far: every bucket of the finished consumers, and the first few of the current one. */
  ghost predicate RowsAre(rows: seq<Row>, slots: set<Slot>, db: Tables, gauges: map<ConsumerId, Gauge>, bucketS: real)
    requires bucketS > 0.0
  {
    && (forall i :: 0 <= i < |rows| ==>
        rows[i].slot in slots && rows[i].snapshot == Counted(db, gauges, rows[i].slot, bucketS))
    && (forall slot :: slot in slots ==> exists i :: 0 <= i < |rows| && rows[i].slot == slot)
  }

  lemma RowsGrow(rows: seq<Row>, slots: set<Slot>, db: Tables, gauges: map<ConsumerId, Gauge>, bucketS: real, row: Row)
    requires bucketS > 0.0 && RowsAre(rows, slots, db, gauges, bucketS)
    requires row.snapshot == Counted(db, gauges, row.slot, bucketS)
    ensures RowsAre(rows + [row], slots + {row.slot}, db, gauges, bucketS)
  {
    var after := rows + [row];
    forall slot | slot in slots + {row.slot}
      ensures exists i :: 0 <= i < |after| && after[i].slot == slot
    {
      if slot in slots {
        var i :| 0 <= i < |rows| && rows[i].slot == slot;
        assert after[i].slot == slot;
      } else {
        assert after[|rows|].slot == slot;
      }
    }
  }

  lemma NoRows(db: Tables, gauges: map<ConsumerId, Gauge>, bucketS: real)
    requires bucketS > 0.0
    ensures RowsAre([], {}, db, gauges, bucketS)
  {
  }

  /** The full cross product, so that nothing happening is a zero and never a hole. */
  method BuildRows(
    db: Tables, consumers: set<ConsumerId>, gauges: map<ConsumerId, Gauge>, first: int, last: int, bucketS: real)
    returns (rows: seq<Row>)
    requires bucketS > 0.0 && first <= last
    ensures RowsAre(rows, Cross(consumers, first, last), db, gauges, bucketS)
    ensures forall i :: 0 <= i < |rows| ==> SlotIs(db, gauges, rows[i].slot, bucketS, rows[i].snapshot)
  {
    hide TalliesStarted, TalliesSettled, Counted, Grouped, RowsAre, SlotIs;
    var from, to := first as real * bucketS, (last + 1) as real * bucketS;
    var attempts := CountStarted(db, bucketS, from, to);
    var terminals := CountSettled(db, bucketS, from, to);
    rows := [];
    assert RowsAre(rows, {}, db, gauges, bucketS) by { NoRows(db, gauges, bucketS); }
    var todo := consumers;
    ghost var slots: set<Slot> := {};
    while todo != {}
      invariant todo <= consumers
      invariant slots == Cross(consumers - todo, first, last)
      invariant RowsAre(rows, slots, db, gauges, bucketS)
    {
      ghost var some: ConsumerId := Member(todo);
      var c: ConsumerId :| c in todo;
      ghost var before := slots;
      for b := first to last + 1
        invariant slots == before + Cross({c}, first, b - 1)
        invariant RowsAre(rows, slots, db, gauges, bucketS)
      {
        var slot := Slot(c, b);
        GroupedIsRecount(db, slot, first, last, bucketS, attempts, terminals, gauges);
        var row := Row(slot, Grouped(attempts, terminals, gauges, slot));
        RowsGrow(rows, slots, db, gauges, bucketS, row);
        rows := rows + [row];
        assert Cross({c}, first, b) == Cross({c}, first, b - 1) + {slot};
        slots := slots + {slot};
      }
      assert Cross(consumers - (todo - {c}), first, last) ==
          Cross(consumers - todo, first, last) + Cross({c}, first, last);
      todo := todo - {c};
    }
    assert consumers - {} == consumers;
    RowsMean(rows, Cross(consumers, first, last), db, gauges, bucketS);
  }

  lemma RowsMean(rows: seq<Row>, slots: set<Slot>, db: Tables, gauges: map<ConsumerId, Gauge>, bucketS: real)
    requires bucketS > 0.0 && RowsAre(rows, slots, db, gauges, bucketS)
    ensures forall i :: 0 <= i < |rows| ==> SlotIs(db, gauges, rows[i].slot, bucketS, rows[i].snapshot)
  {
    hide Counted, SlotIs;
    forall i | 0 <= i < |rows| {
      CountedSlot(db, gauges, rows[i].slot, bucketS);
    }
  }

  /** The snapshot table, shared by every conductor that ever leads. */
  class Snapshots {
    var rows: Table

    constructor ()
      ensures rows == map[]
    {
      rows := map[];
    }

    /** INSERT ... ON CONFLICT DO UPDATE. */
    method Upsert(
      batch: seq<Row>, ghost db: Tables, ghost consumers: set<ConsumerId>, ghost gauges: map<ConsumerId, Gauge>,
      ghost first: int, ghost last: int, ghost bucketS: real)
      requires bucketS > 0.0 && RowsAre(batch, Cross(consumers, first, last), db, gauges, bucketS)
      modifies this
      ensures rows == old(rows) + Fresh(db, consumers, gauges, first, last, bucketS)
    {
      hide Counted, Cross;
      ghost var done: set<Slot> := {};
      for i := 0 to |batch|
        invariant done == set j | 0 <= j < i :: batch[j].slot
        invariant rows.Keys == old(rows).Keys + done
        invariant forall slot :: slot in done ==> rows[slot] == Counted(db, gauges, slot, bucketS)
        invariant forall slot :: slot in old(rows) && slot !in done ==> rows[slot] == old(rows)[slot]
      {
        rows := rows[batch[i].slot := batch[i].snapshot];
        done := done + {batch[i].slot};
      }
      assert done == Cross(consumers, first, last);
    }

    method RecoverCursor() returns (highest: Option<int>)
      ensures (if highest.Some? then highest.value else -1) == Top(rows)
    {
      highest := None;
      var todo := rows.Keys;
      while todo != {}
        invariant todo <= rows.Keys
        invariant highest.None? ==> todo == rows.Keys
        invariant highest.Some? ==> exists slot :: slot in rows && slot.bucket == highest.value
        invariant highest.Some? ==> forall slot :: slot in rows && slot !in todo ==> slot.bucket <= highest.value
      {
        ghost var some: Slot := Member(todo);
        var slot: Slot :| slot in todo;
        if highest.None? || highest.value < slot.bucket { highest := Some(slot.bucket); }
        todo := todo - {slot};
      }
    }
  }

  class MetricsWriter {
    var lastWritten: Option<int>

    constructor ()
      ensures lastWritten == None
    {
      lastWritten := None;
    }

    method Write(
      table: Snapshots, db: Tables, consumers: set<ConsumerId>, gauges: map<ConsumerId, Gauge>, now: Time, s: Settings)
      modifies this, table
      ensures Writes(db, consumers, gauges, now, s, old(lastWritten), old(table.rows), lastWritten, table.rows)
      ensures forall slot :: slot in old(table.rows) ==> slot in table.rows
      ensures forall slot :: (&& slot in table.rows
                              && !(slot in old(table.rows) && table.rows[slot] == old(table.rows)[slot])) ==>
                && slot.consumer in consumers && slot.bucket + 2 <= (now / s.bucketS).Floor
                && SlotIs(db, gauges, slot, s.bucketS, table.rows[slot])
    {
      hide Fresh, Top, BucketIndex, RowsAre, Cross, SlotIs;
      var last := BucketIndex(now, s.bucketS) - COMPLETE_BUCKET_LAG;
      var cursor := lastWritten;
      if cursor.None? { cursor := table.RecoverCursor(); }
      var first := if cursor.Some? then cursor.value + 1 else 0;
      if first > last { return; }
      first := Max(first, last - s.maxBackfill + 1);
      if consumers == {} { return; }
      var rows := BuildRows(db, consumers, gauges, first, last, s.bucketS);
      table.Upsert(rows, db, consumers, gauges, first, last, s.bucketS);
      lastWritten := Some(last);
      WrittenMeans(db, consumers, gauges, now, s, old(lastWritten), old(table.rows), lastWritten, table.rows);
    }
  }

  /** Whatever slot a write changes is somebody's, two whole buckets behind the present, and right in every column. */
  lemma WrittenMeans(
    db: Tables, consumers: set<ConsumerId>, gauges: map<ConsumerId, Gauge>, now: Time, s: Settings,
    cache: Option<int>, table: Table, cache': Option<int>, table': Table)
    requires Writes(db, consumers, gauges, now, s, cache, table, cache', table')
    ensures forall slot :: slot in table ==> slot in table'
    ensures forall slot :: slot in table' && !(slot in table && table'[slot] == table[slot]) ==>
              && slot.consumer in consumers && slot.bucket + 2 <= (now / s.bucketS).Floor
              && SlotIs(db, gauges, slot, s.bucketS, table'[slot])
  {
    hide SlotIs, Counted, Top, Writes;
    WritesAfresh(db, consumers, gauges, now, s, cache, table, cache', table');
    forall slot | slot in table' && !(slot in table && table'[slot] == table[slot])
      ensures SlotIs(db, gauges, slot, s.bucketS, table'[slot])
    {
      CountedSlot(db, gauges, slot, s.bucketS);
    }
  }

  // ---- What a write does to the series ----

  /** Every consumer has a row for every bucket from zero, and for no other. */
  ghost predicate NoHoles(table: Table, consumers: set<ConsumerId>, top: int) {
    forall slot :: slot in table <==> InSpan(slot, consumers, 0, top)
  }

  /**
   * A write that happens extends a whole series to a whole series exactly when it resumes no later than the
   * bucket after the last committed one and the gap since then fits the backfill bound.
   */
  lemma WriteExtendsWhole(
    db: Tables, consumers: set<ConsumerId>, gauges: map<ConsumerId, Gauge>, now: Time, s: Settings,
    cache: Option<int>, table: Table, cache': Option<int>, table': Table, top: int)
    requires Writes(db, consumers, gauges, now, s, cache, table, cache', table')
    requires NoHoles(table, consumers, top) && top >= -1 && consumers != {}
    requires cache.Some? ==> cache.value >= -1
    requires FirstBucket(cache, table) <= EndBucket(now, s)
    ensures NoHoles(table', consumers, Max(top, EndBucket(now, s)))
       <==> (cache.Some? ==> cache.value <= top) && EndBucket(now, s) - top <= s.maxBackfill
  {
    var last := EndBucket(now, s);
    var first := Max(FirstBucket(cache, table), last - s.maxBackfill + 1);
    TopOfWhole(table, consumers, top);
    SlotsWritten(db, consumers, gauges, now, s, cache, table, cache', table');
    hide Writes, EndBucket, Top;
    SpansJoin(consumers, table, table', top, first, last);
  }

  lemma SlotsWritten(
    db: Tables, consumers: set<ConsumerId>, gauges: map<ConsumerId, Gauge>, now: Time, s: Settings,
    cache: Option<int>, table: Table, cache': Option<int>, table': Table)
    requires Writes(db, consumers, gauges, now, s, cache, table, cache', table')
    requires FirstBucket(cache, table) <= EndBucket(now, s)
    ensures var last := EndBucket(now, s);
            var first := Max(FirstBucket(cache, table), last - s.maxBackfill + 1);
            forall slot :: slot in table' <==> slot in table || InSpan(slot, consumers, first, last)
  {
    hide EndBucket, Top;
  }

  lemma SpansJoin(consumers: set<ConsumerId>, table: Table, table': Table, top: int, first: int, last: int)
    requires NoHoles(table, consumers, top) && consumers != {} && 0 <= first <= last && top >= -1
    requires forall slot :: slot in table' <==> slot in table || InSpan(slot, consumers, first, last)
    ensures NoHoles(table', consumers, Max(top, last)) <==> first <= top + 1
  {
    if first > top + 1 {
      var c := Member(consumers);
      assert Slot(c, top + 1) !in table' && InSpan(Slot(c, top + 1), consumers, 0, Max(top, last));
    }
  }

  lemma TopOfWhole(table: Table, consumers: set<ConsumerId>, top: int)
    requires NoHoles(table, consumers, top) && top >= -1 && consumers != {}
    ensures Top(table) == top
  {
    var c := Member(consumers);
    if top >= 0 { assert Slot(c, top) in table; }
    if table != map[] {
      var slot :| slot in table && slot.bucket == Top(table);
    }
  }

  /** A hole is never gone back to: a writer leaves every bucket up to its cursor as it was. */
  lemma HolesStay(
    db: Tables, consumers: set<ConsumerId>, gauges: map<ConsumerId, Gauge>, now: Time, s: Settings,
    cache: Option<int>, table: Table, cache': Option<int>, table': Table, slot: Slot)
    requires Writes(db, consumers, gauges, now, s, cache, table, cache', table')
    requires slot.bucket < FirstBucket(cache, table)
    ensures slot in table' <==> slot in table
    ensures slot in table ==> table'[slot] == table[slot]
  {
  }
}
