/**
  * Paging, merging and windowing the chart series (app/api/routes.py, frontend/src/hooks/useRun.ts,
  * transform/series.ts).
  */
module Series {
  import opened Model
  import opened Sets
  import opened Metrics

  /** Already-read buckets asked for again on each poll. */
  const CURSOR_OVERLAP := 2

  predicate SlotBefore(x: Slot, y: Slot) { x.bucket < y.bucket || (x.bucket == y.bucket && x.consumer < y.consumer) }

  ghost predicate Ordered(rows: seq<Row>) {
    forall i, j :: 0 <= i < j < |rows| ==> SlotBefore(rows[i].slot, rows[j].slot)
  }

  /** What a list of rows says about each slot: the last row for it wins. */
  ghost function TableOf(rows: seq<Row>): Table {
    if rows == [] then map[] else TableOf(rows[..|rows| - 1])[rows[|rows| - 1].slot := rows[|rows| - 1].snapshot]
  }

  lemma TableOfSnoc(rows: seq<Row>, row: Row)
    ensures TableOf(rows + [row]) == TableOf(rows)[row.slot := row.snapshot]
  {
    assert (rows + [row])[..|rows|] == rows;
  }

  lemma {:induction false} TableOfHas(rows: seq<Row>, slot: Slot)
    ensures slot in TableOf(rows) <==> exists i :: 0 <= i < |rows| && rows[i].slot == slot
  {
    if rows != [] {
      var n := |rows| - 1;
      TableOfHas(rows[..n], slot);
      assert forall i :: 0 <= i < n ==> rows[..n][i] == rows[i];
      if slot in TableOf(rows) && slot != rows[n].slot {
        var i :| 0 <= i < n && rows[..n][i].slot == slot;
        assert rows[i].slot == slot;
      }
    }
  }

  lemma {:induction false} TableOfOrdered(rows: seq<Row>, i: nat)
    requires Ordered(rows) && i < |rows|
    ensures rows[i].slot in TableOf(rows) && TableOf(rows)[rows[i].slot] == rows[i].snapshot
  {
    var n := |rows| - 1;
    if i < n {
      TableOfOrdered(rows[..n], i);
    }
  }

  /** An ordered list is determined by what it says, so merging cannot depend on how pages overlapped. */
  lemma {:induction false} OrderedIsUnique(a: seq<Row>, b: seq<Row>)
    requires Ordered(a) && Ordered(b) && TableOf(a) == TableOf(b)
    ensures a == b
  {
    if a == [] {
      if b != [] { TableOfOrdered(b, 0); }
    } else {
      var m, n := |a| - 1, |b| - 1;
      TableOfOrdered(a, m);
      TableOfHas(b, a[m].slot);
      TableOfOrdered(b, n);
      TableOfHas(a, b[n].slot);
      var i :| 0 <= i < |a| && a[i].slot == b[n].slot;
      var j :| 0 <= j < |b| && b[j].slot == a[m].slot;
      assert i == m && j == n;
      InitSays(a);
      InitSays(b);
      OrderedIsUnique(a[..m], b[..n]);
      assert a == a[..m] + [a[m]] && b == b[..n] + [b[n]];
    }
  }

  lemma InitSays(rows: seq<Row>)
    requires Ordered(rows) && rows != []
    ensures TableOf(rows[..|rows| - 1]) == TableOf(rows) - {rows[|rows| - 1].slot}
  {
    var n := |rows| - 1;
    TableOfHas(rows[..n], rows[n].slot);
    assert forall i :: 0 <= i < n ==> rows[..n][i] == rows[i];
    assert forall i :: 0 <= i < n ==> SlotBefore(rows[i].slot, rows[n].slot);
    NoneAgain(rows, n);
  }

  lemma NoneAgain(rows: seq<Row>, n: nat)
    requires rows != [] && n == |rows| - 1 && rows[n].slot !in TableOf(rows[..n])
    ensures TableOf(rows[..n]) == TableOf(rows) - {rows[n].slot}
  {
    var init := TableOf(rows[..n]);
    assert TableOf(rows) == init[rows[n].slot := rows[n].snapshot];
    hide TableOf;
  }

  /** The slot that comes first. */
  method Earliest(slots: set<Slot>) returns (first: Slot)
    requires slots != {}
    ensures first in slots && forall x :: x in slots && x != first ==> SlotBefore(first, x)
  {
    ghost var some: Slot := Member(slots);
    first :| first in slots;
    var todo := slots - {first};
    while todo != {}
      invariant todo <= slots && first in slots && first !in todo
      invariant forall x :: x in slots - todo && x != first ==> SlotBefore(first, x)
    {
      ghost var another: Slot := Member(todo);
      var x: Slot :| x in todo;
      if SlotBefore(x, first) {
        assert forall y :: SlotBefore(first, y) ==> SlotBefore(x, y);
        first := x;
      }
      assert slots - (todo - {x}) == slots - todo + {x};
      todo := todo - {x};
    }
    assert slots - {} == slots;
  }

  method InOrder(table: Table) returns (rows: seq<Row>)
    ensures Ordered(rows) && TableOf(rows) == table
  {
    rows := [];
    var todo := table.Keys;
    while todo != {}
      invariant todo <= table.Keys
      invariant forall i, x :: 0 <= i < |rows| && x in todo ==> SlotBefore(rows[i].slot, x)
      invariant Ordered(rows)
      invariant TableOf(rows) == table - todo
    {
      var slot := Earliest(todo);
      TableOfSnoc(rows, Row(slot, table[slot]));
      rows := rows + [Row(slot, table[slot])];
      todo := todo - {slot};
    }
  }

  ghost function After(table: Table, since: int): Table {
    map slot | slot in table && slot.bucket > since :: table[slot]
  }

  /** `next_since_bucket`: the page's last bucket, or the cursor it was given when the page is empty. */
  ghost function NextSince(table: Table, since: int): int {
    if After(table, since) == map[] then since else Top(After(table, since))
  }

  method ReadPage(table: Table, since: int) returns (page: seq<Row>, next: int)
    ensures Ordered(page) && TableOf(page) == After(table, since)
    ensures next == NextSince(table, since)
    ensures forall i :: 0 <= i < |page| ==>
              page[i].slot in table && since < page[i].slot.bucket <= next && page[i].snapshot == table[page[i].slot]
    ensures forall slot :: slot in table && since < slot.bucket ==> exists i :: 0 <= i < |page| && page[i].slot == slot
    ensures forall i, j :: 0 <= i < j < |page| ==>
              || page[i].slot.bucket < page[j].slot.bucket
              || (page[i].slot.bucket == page[j].slot.bucket && page[i].slot.consumer < page[j].slot.consumer)
    ensures next == since || exists i :: 0 <= i < |page| && page[i].slot.bucket == next
  {
    page := InOrder(map slot | slot in table && slot.bucket > since :: table[slot]);
    next := if page == [] then since else page[|page| - 1].slot.bucket;
    if page != [] {
      TableOfOrdered(page, |page| - 1);
      forall slot | slot in TableOf(page)
        ensures slot.bucket <= next
      {
        TableOfHas(page, slot);
      }
    }
    PageMeans(table, since, page);
  }

  lemma PageMeans(table: Table, since: int, page: seq<Row>)
    requires Ordered(page) && TableOf(page) == After(table, since)
    ensures forall i :: 0 <= i < |page| ==>
              && page[i].slot in table && since < page[i].slot.bucket && page[i].snapshot == table[page[i].slot]
              && page[i].slot in After(table, since)
    ensures forall slot :: slot in table && since < slot.bucket ==> exists i :: 0 <= i < |page| && page[i].slot == slot
    ensures forall i, j :: 0 <= i < j < |page| ==>
              || page[i].slot.bucket < page[j].slot.bucket
              || (page[i].slot.bucket == page[j].slot.bucket && page[i].slot.consumer < page[j].slot.consumer)
  {
    forall i | 0 <= i < |page|
      ensures page[i].slot in TableOf(page) && TableOf(page)[page[i].slot] == page[i].snapshot
    {
      TableOfOrdered(page, i);
    }
    forall slot | slot in table && since < slot.bucket
      ensures exists i :: 0 <= i < |page| && page[i].slot == slot
    {
      assert slot in TableOf(page);
      TableOfHas(page, slot);
    }
  }

  /** Keyed on consumer and bucket, later rows winning, back in order. */
  method MergeBuckets(existing: seq<Row>, incoming: seq<Row>) returns (merged: seq<Row>)
    ensures if incoming == [] then merged == existing
            else Ordered(merged) && TableOf(merged) == TableOf(existing) + TableOf(incoming)
  {
    if incoming == [] { return existing; }
    var byKey: Table := map[];
    for i := 0 to |existing|
      invariant byKey == TableOf(existing[..i])
    {
      assert existing[..i + 1] == existing[..i] + [existing[i]];
      TableOfSnoc(existing[..i], existing[i]);
      byKey := byKey[existing[i].slot := existing[i].snapshot];
    }
    assert existing[..|existing|] == existing;
    for i := 0 to |incoming|
      invariant byKey == TableOf(existing) + TableOf(incoming[..i])
    {
      assert incoming[..i + 1] == incoming[..i] + [incoming[i]];
      TableOfSnoc(incoming[..i], incoming[i]);
      byKey := byKey[incoming[i].slot := incoming[i].snapshot];
    }
    assert incoming[..|incoming|] == incoming;
    merged := InOrder(byKey);
  }

  /** Merging a page that says nothing new is a no-op. */
  lemma RereadingChangesNothing(existing: seq<Row>, incoming: seq<Row>, merged: seq<Row>)
    requires Ordered(existing)
    requires if incoming == [] then merged == existing
             else Ordered(merged) && TableOf(merged) == TableOf(existing) + TableOf(incoming)
    requires forall slot :: slot in TableOf(incoming) ==>
        slot in TableOf(existing) && TableOf(incoming)[slot] == TableOf(existing)[slot]
    ensures merged == existing
  {
    hide TableOf, SlotBefore, Ordered;
    if incoming != [] {
      assert TableOf(existing) + TableOf(incoming) == TableOf(existing);
      OrderedIsUnique(merged, existing);
    }
  }

  // ---- The poller ----

  /** What one poll does to the cursor and the buffer. */
  ghost predicate Polls(table: Table, cursor: int, rows: seq<Row>, cursor': int, rows': seq<Row>) {
    var since := Max(-1, cursor - CURSOR_OVERLAP);
    && cursor' == Max(cursor, NextSince(table, since))
    && (Ordered(rows) ==> Ordered(rows'))
    && TableOf(rows') == TableOf(rows) + After(table, since)
  }

  /**
    * A poll reads again from two buckets behind the cursor, leaves the rest, and moves on to the last bucket there
    * is.
    */
  lemma PollMeans(table: Table, cursor: int, rows: seq<Row>, cursor': int, rows': seq<Row>)
    requires Polls(table, cursor, rows, cursor', rows')
    ensures forall slot :: slot in table && slot.bucket > cursor - 2 && slot.bucket >= 0 ==>
              slot in TableOf(rows') && TableOf(rows')[slot] == table[slot]
    ensures forall slot: Slot :: slot.bucket <= cursor - 2 || slot.bucket < 0 ==>
              (slot in TableOf(rows') <==> slot in TableOf(rows))
              && (slot in TableOf(rows') ==> TableOf(rows')[slot] == TableOf(rows)[slot])
    ensures cursor' >= cursor && (cursor' <= Max(-1, cursor) || exists slot :: slot in table && slot.bucket == cursor')
    ensures forall slot :: slot in table ==> slot.bucket <= Max(-1, cursor')
  {
    hide TableOf;
    var page := After(table, Max(-1, cursor - CURSOR_OVERLAP));
    if page != map[] {
      var slot :| slot in page && slot.bucket == Top(page);
      assert slot in table;
    }
    forall slot | slot in table
      ensures slot.bucket <= Max(-1, cursor')
    {
      if slot.bucket > Max(-1, cursor - CURSOR_OVERLAP) { assert slot in page; }
    }
  }

  class Viewer {
    var cursor: int
    var buckets: seq<Row>

    constructor ()
      ensures cursor == -1 && buckets == []
    {
      cursor := -1;
      buckets := [];
    }

    method Poll(table: Table)
      modifies this
      ensures Polls(table, old(cursor), old(buckets), cursor, buckets)
      ensures forall slot :: slot in table && slot.bucket > old(cursor) - 2 && slot.bucket >= 0 ==>
                slot in TableOf(buckets) && TableOf(buckets)[slot] == table[slot]
      ensures forall slot: Slot :: slot.bucket <= old(cursor) - 2 || slot.bucket < 0 ==>
                (slot in TableOf(buckets) <==> slot in TableOf(old(buckets)))
                && (slot in TableOf(buckets) ==> TableOf(buckets)[slot] == TableOf(old(buckets))[slot])
      ensures cursor >= old(cursor)
      ensures cursor <= Max(-1, old(cursor)) || exists slot :: slot in table && slot.bucket == cursor
      ensures forall slot :: slot in table ==> slot.bucket <= Max(-1, cursor)
    {
      var page, next := ReadPage(table, Max(-1, cursor - CURSOR_OVERLAP));
      cursor := Max(cursor, next);
      if page == [] {
        PollMeans(table, old(cursor), buckets, cursor, buckets);
        return;
      }
      buckets := MergeBuckets(buckets, page);
      PollMeans(table, old(cursor), old(buckets), cursor, buckets);
    }
  }

  /** Following a whole series, the buffer covers every bucket up to the cursor, which is the table's last. */
  lemma PollCoversWhole(table: Table, consumers: set<ConsumerId>, top: int, cursor: int, rows: seq<Row>,
      cursor': int, rows': seq<Row>)
    requires Polls(table, cursor, rows, cursor', rows')
    requires NoHoles(table, consumers, top) && -1 <= cursor <= top
    requires NoHoles(TableOf(rows), consumers, cursor)
    ensures cursor <= cursor' <= top && NoHoles(TableOf(rows'), consumers, cursor')
    ensures consumers != {} ==> cursor' == top
    ensures forall slot :: slot in TableOf(rows') ==>
              TableOf(rows')[slot] == if slot.bucket > Max(-1, cursor - CURSOR_OVERLAP) then table[slot]
                  else TableOf(rows)[slot]
  {
    var since := Max(-1, cursor - CURSOR_OVERLAP);
    var page := After(table, since);
    if page != map[] {
      var slot :| slot in page && slot.bucket == Top(page);
      assert Slot(slot.consumer, top) in table && Slot(slot.consumer, top) in page;
    } else if consumers != {} {
      var c := Member(consumers);
      assert top >= 0 ==> Slot(c, top) in table;
      assert top > since ==> Slot(c, top) in page;
    }
  }

  // ---- Share windows ----

  datatype SharePoint = SharePoint(t: int, total: int, shares: map<ConsumerId, Option<real>>)

  function WindowOf(bucket: int, windowS: int): int
    requires windowS > 0
  {
    bucket / windowS * windowS
  }

  /** Each bucket falls in the one window, aligned on a multiple of the width, that spans it. */
  lemma WindowSpans(bucket: int, windowS: int, t: int)
    requires windowS > 0
    ensures WindowOf(bucket, windowS) == t <==> t % windowS == 0 && t <= bucket < t + windowS
  {
    if t % windowS == 0 && t <= bucket < t + windowS {
      var k := t / windowS;
      assert t == k * windowS;
      assert bucket == k * windowS + (bucket - t);
      assert bucket / windowS == k by { Quotient(bucket, windowS, k, bucket - t); }
    } else {
      assert (bucket / windowS * windowS) % windowS == 0 by { MultipleOf(bucket / windowS, windowS); }
    }
  }

  lemma Quotient(n: int, d: int, k: int, r: int)
    requires d > 0 && n == k * d + r && 0 <= r < d
    ensures n / d == k
  {
    OneQuotient(n / d, n % d, k, r, d);
  }

  lemma OneQuotient(q: int, m: int, k: int, r: int, d: int)
    requires d > 0 && q * d + m == k * d + r && 0 <= m < d && 0 <= r < d
    ensures q == k
  {
    assert (q - k) * d == q * d - k * d;
    AtLeast(q - k, d);
    AtLeast(k - q, d);
  }

  lemma AtLeast(k: int, d: int)
    requires d > 0
    ensures k >= 1 ==> k * d >= d
    ensures k * d == -((-k) * d)
  {
    if k >= 1 { assert k * d == d + (k - 1) * d; }
  }

  lemma MultipleOf(k: int, d: int)
    requires d > 0
    ensures (k * d) % d == 0
  {
    Quotient(k * d, d, k, 0);
  }

  function AttemptsOf(row: Row): int { row.snapshot.counters.attempts }

  ghost function SumAll(rows: seq<Row>): int {
    if rows == [] then 0 else SumAll(rows[..|rows| - 1]) + AttemptsOf(rows[|rows| - 1])
  }

  ghost function SumIn(rows: seq<Row>, windowS: int, t: int): int
    requires windowS > 0
  {
    if rows == [] then 0
    else
      var row := rows[|rows| - 1];
      SumIn(rows[..|rows| - 1], windowS, t) + if WindowOf(row.slot.bucket, windowS) == t then AttemptsOf(row) else 0
  }

  ghost function SumOf(rows: seq<Row>, windowS: int, t: int, c: ConsumerId): int
    requires windowS > 0
  {
    if rows == [] then 0
    else
      var row := rows[|rows| - 1];
      SumOf(rows[..|rows| - 1], windowS, t, c)
      + if WindowOf(row.slot.bucket, windowS) == t && row.slot.consumer == c then AttemptsOf(row) else 0
  }

  ghost function ByConsumer(rows: seq<Row>, windowS: int, t: int, cs: set<ConsumerId>): map<ConsumerId, int>
    requires windowS > 0
  {
    map c | c in cs :: SumOf(rows, windowS, t, c)
  }

  ghost function ByWindow(rows: seq<Row>, windowS: int, ts: set<int>): map<int, int>
    requires windowS > 0
  {
    map t | t in ts :: SumIn(rows, windowS, t)
  }

  /** A window's attempts, consumer by consumer. */
  lemma {:induction false} SumByConsumer(rows: seq<Row>, windowS: int, t: int, cs: set<ConsumerId>)
    requires windowS > 0
    requires forall i :: 0 <= i < |rows| && WindowOf(rows[i].slot.bucket, windowS) == t ==> rows[i].slot.consumer in cs
    ensures Total(cs, ByConsumer(rows, windowS, t, cs)) == SumIn(rows, windowS, t)
  {
    hide WindowOf;
    var all := ByConsumer(rows, windowS, t, cs);
    if rows == [] {
      TotalZero(cs, all);
    } else {
      var n, row := |rows| - 1, rows[|rows| - 1];
      SumByConsumer(rows[..n], windowS, t, cs);
      var before := ByConsumer(rows[..n], windowS, t, cs);
      if WindowOf(row.slot.bucket, windowS) == t {
        var c := row.slot.consumer;
        TotalUpdate(cs, before, c, before[c] + AttemptsOf(row));
        TotalAgree(cs, all, before[c := before[c] + AttemptsOf(row)]);
      } else {
        TotalAgree(cs, all, before);
      }
    }
  }

  /** All attempts, window by window. */
  lemma {:induction false} SumByWindow(rows: seq<Row>, windowS: int, ts: set<int>)
    requires windowS > 0
    requires forall i :: 0 <= i < |rows| ==> WindowOf(rows[i].slot.bucket, windowS) in ts
    ensures Total(ts, ByWindow(rows, windowS, ts)) == SumAll(rows)
  {
    hide WindowOf;
    var all := ByWindow(rows, windowS, ts);
    if rows == [] {
      TotalZero(ts, all);
    } else {
      var n, row := |rows| - 1, rows[|rows| - 1];
      SumByWindow(rows[..n], windowS, ts);
      var before := ByWindow(rows[..n], windowS, ts);
      var t := WindowOf(row.slot.bucket, windowS);
      TotalUpdate(ts, before, t, before[t] + AttemptsOf(row));
      TotalAgree(ts, all, before[t := before[t] + AttemptsOf(row)]);
    }
  }

  /** One map of counts for each window that has a row, keyed by the consumers seen in it. */
  ghost predicate TabulatedAt(rows: seq<Row>, windowS: int, windows: map<int, map<ConsumerId, int>>, t: int,
      c: ConsumerId)
    requires windowS > 0
  {
    CountAt(if t in windows then windows[t] else map[], c) == SumOf(rows, windowS, t, c)
  }

  ghost predicate Tabulated(rows: seq<Row>, windowS: int, windows: map<int, map<ConsumerId, int>>)
    requires windowS > 0
  {
    && (forall t, c {:trigger TabulatedAt(rows, windowS, windows, t, c)} :: TabulatedAt(rows, windowS, windows, t, c))
    && (forall i :: 0 <= i < |rows| ==>
          var t := WindowOf(rows[i].slot.bucket, windowS);
          t in windows && rows[i].slot.consumer in windows[t])
    && (forall t :: t in windows ==> HasRow(rows, windowS, t))
  }

  lemma TabulateStep(
    rows: seq<Row>, row: Row, windowS: int, windows: map<int, map<ConsumerId, int>>,
    after: map<int, map<ConsumerId, int>>)
    requires windowS > 0 && Tabulated(rows, windowS, windows)
    requires var t := WindowOf(row.slot.bucket, windowS);
             var counts := if t in windows then windows[t] else map[];
             after == windows[t := counts[row.slot.consumer := CountAt(counts, row.slot.consumer) + AttemptsOf(row)]]
    ensures Tabulated(rows + [row], windowS, after)
  {
    hide WindowOf;
    var grown := rows + [row];
    assert grown[..|rows|] == rows;
    forall t, c
      ensures TabulatedAt(grown, windowS, after, t, c)
    {
      assert TabulatedAt(rows, windowS, windows, t, c);
    }
    forall t | t in after
      ensures HasRow(grown, windowS, t)
    {
      if t == WindowOf(row.slot.bucket, windowS) {
        assert grown[|rows|] == row;
      } else {
        var i :| 0 <= i < |rows| && WindowOf(rows[i].slot.bucket, windowS) == t;
        assert grown[i] == rows[i];
      }
    }
  }

  method CountWindows(rows: seq<Row>, windowS: int) returns (windows: map<int, map<ConsumerId, int>>)
    requires windowS > 0
    ensures Tabulated(rows, windowS, windows)
  {
    windows := map[];
    assert Tabulated([], windowS, windows);
    hide Tabulated, WindowOf;
    assert rows[..0] == [];
    for i := 0 to |rows|
      invariant Tabulated(rows[..i], windowS, windows)
    {
      ghost var was := windows;
      var start := WindowOf(rows[i].slot.bucket, windowS);
      var counts := if start in windows then windows[start] else map[];
      counts := counts[rows[i].slot.consumer := CountAt(counts, rows[i].slot.consumer) + AttemptsOf(rows[i])];
      windows := windows[start := counts];
      TabulateStep(rows[..i], rows[i], windowS, was, windows);
      assert rows[..i + 1] == rows[..i] + [rows[i]];
    }
    assert rows[..|rows|] == rows;
  }

  method SumValues(counts: map<ConsumerId, int>) returns (total: int)
    ensures total == Total(counts.Keys, counts)
  {
    total := 0;
    var todo := counts.Keys;
    while todo != {}
      invariant todo <= counts.Keys
      invariant total + Total(todo, counts) == Total(counts.Keys, counts)
    {
      ghost var some: ConsumerId := Member(todo);
      var c: ConsumerId :| c in todo;
      TotalPick(todo, counts, c);
      total := total + counts[c];
      todo := todo - {c};
    }
  }

  method Ascending(keys: set<int>) returns (s: seq<int>)
    ensures forall i, j :: 0 <= i < j < |s| ==> s[i] < s[j]
    ensures forall x :: x in s <==> x in keys
  {
    s := [];
    var todo := keys;
    while todo != {}
      invariant todo <= keys
      invariant forall i, j :: 0 <= i < j < |s| ==> s[i] < s[j]
      invariant forall i, x :: 0 <= i < |s| && x in todo ==> s[i] < x
      invariant forall x :: x in s <==> x in keys - todo
    {
      ghost var some: int := Member(todo);
      var least: int :| least in todo;
      var rest := todo - {least};
      ghost var passed: set<int> := {least};
      while rest != {}
        invariant rest <= todo && least in todo && least !in rest
        invariant todo == passed + rest
        invariant forall x :: x in passed ==> least <= x
      {
        ghost var another: int := Member(rest);
        var x: int :| x in rest;
        if x < least { least := x; }
        passed := passed + {x};
        rest := rest - {x};
      }
      assert forall x :: x in keys - (todo - {least}) <==> x in keys - todo || x == least;
      s := s + [least];
      todo := todo - {least};
    }
  }

  ghost predicate PointOk(rows: seq<Row>, consumers: set<ConsumerId>, windowS: int, p: SharePoint)
    requires windowS > 0
  {
    && p.total == SumIn(rows, windowS, p.t)
    && p.shares == map c | c in consumers ::
         if p.total == 0 then None else Some(SumOf(rows, windowS, p.t, c) as real / p.total as real)
  }

  ghost predicate PointedAt(points: seq<SharePoint>, t: int) { exists k :: 0 <= k < |points| && points[k].t == t }

  ghost predicate HasRow(rows: seq<Row>, windowS: int, t: int)
    requires windowS > 0
  {
    exists i :: 0 <= i < |rows| && WindowOf(rows[i].slot.bucket, windowS) == t
  }

  /** One point for each window with a row, in order: its attempts, and each consumer's share of them. */
  ghost predicate SharesOf(rows: seq<Row>, consumers: set<ConsumerId>, windowS: int, points: seq<SharePoint>)
    requires windowS > 0
  {
    && (forall i, j :: 0 <= i < j < |points| ==> points[i].t < points[j].t)
    && (forall i :: 0 <= i < |points| ==> PointOk(rows, consumers, windowS, points[i]))
    && (forall i :: 0 <= i < |rows| ==> PointedAt(points, WindowOf(rows[i].slot.bucket, windowS)))
    && (forall k :: 0 <= k < |points| ==> HasRow(rows, windowS, points[k].t))
  }

  lemma WindowTotal(rows: seq<Row>, windowS: int, windows: map<int, map<ConsumerId, int>>, t: int)
    requires windowS > 0 && Tabulated(rows, windowS, windows) && t in windows
    ensures Total(windows[t].Keys, windows[t]) == SumIn(rows, windowS, t)
  {
    hide WindowOf;
    SumByConsumer(rows, windowS, t, windows[t].Keys);
    forall c | c in windows[t]
      ensures windows[t][c] == SumOf(rows, windowS, t, c)
    {
      assert TabulatedAt(rows, windowS, windows, t, c);
    }
    TotalAgree(windows[t].Keys, windows[t], ByConsumer(rows, windowS, t, windows[t].Keys));
  }

  method MakePoint(
    ghost rows: seq<Row>, consumers: set<ConsumerId>, ghost windowS: int, windows: map<int, map<ConsumerId, int>>,
    start: int)
    returns (p: SharePoint)
    requires windowS > 0 && Tabulated(rows, windowS, windows) && start in windows
    ensures p.t == start && PointOk(rows, consumers, windowS, p)
  {
    hide WindowOf, TabulatedAt, Tabulated, SumIn, SumOf;
    var counts := windows[start];
    var total := SumValues(counts);
    WindowTotal(rows, windowS, windows, start);
    forall c
      ensures CountAt(counts, c) == SumOf(rows, windowS, start, c)
    {
      TabulatedSays(rows, windowS, windows, start, c);
    }
    p := SharePoint(start, total, map c | c in consumers ::
           if total == 0 then None else Some(CountAt(counts, c) as real / total as real));
  }

  method ToShareWindows(rows: seq<Row>, consumers: set<ConsumerId>, windowS: int) returns (points: seq<SharePoint>)
    requires windowS > 0
    ensures SharesOf(rows, consumers, windowS, points)
  {
    hide Tabulated, PointOk, SharesOf;
    var windows := CountWindows(rows, windowS);
    var starts := Ascending(windows.Keys);
    points := [];
    for i := 0 to |starts|
      invariant |points| == i
      invariant forall k :: 0 <= k < i ==> points[k].t == starts[k] && PointOk(rows, consumers, windowS, points[k])
    {
      assert starts[i] in starts;
      var p := MakePoint(rows, consumers, windowS, windows, starts[i]);
      points := points + [p];
    }
    PointsInOrder(rows, consumers, windowS, windows, starts, points);
  }

  lemma PointsInOrder(
    rows: seq<Row>, consumers: set<ConsumerId>, windowS: int, windows: map<int, map<ConsumerId, int>>, starts: seq<int>,
    points: seq<SharePoint>)
    requires windowS > 0 && Tabulated(rows, windowS, windows) && |points| == |starts|
    requires forall i, j :: 0 <= i < j < |starts| ==> starts[i] < starts[j]
    requires forall t :: t in starts <==> t in windows
    requires forall k :: 0 <= k < |points| ==> points[k].t == starts[k] && PointOk(rows, consumers, windowS, points[k])
    ensures SharesOf(rows, consumers, windowS, points)
  {
    hide WindowOf, TabulatedAt, PointOk;
    forall i | 0 <= i < |rows|
      ensures PointedAt(points, WindowOf(rows[i].slot.bucket, windowS))
    {
      var t := WindowOf(rows[i].slot.bucket, windowS);
      assert t in starts;
      var k :| 0 <= k < |starts| && starts[k] == t;
      assert points[k].t == t;
    }
    forall k | 0 <= k < |points|
      ensures HasRow(rows, windowS, points[k].t)
    {
      assert starts[k] in starts;
    }
  }

  lemma TabulatedSays(rows: seq<Row>, windowS: int, windows: map<int, map<ConsumerId, int>>, t: int, c: ConsumerId)
    requires windowS > 0 && Tabulated(rows, windowS, windows) && t in windows
    ensures CountAt(windows[t], c) == SumOf(rows, windowS, t, c)
  {
    assert TabulatedAt(rows, windowS, windows, t, c);
  }

  // ---- What the windows conserve ----

  ghost function TotalOf(points: seq<SharePoint>): int {
    if points == [] then 0 else TotalOf(points[..|points| - 1]) + points[|points| - 1].total
  }

  ghost function StartsOf(points: seq<SharePoint>): set<int> { set i | 0 <= i < |points| :: points[i].t }

  lemma {:induction false} PointsAddUp(points: seq<SharePoint>, sums: map<int, int>)
    requires forall i, j :: 0 <= i < j < |points| ==> points[i].t < points[j].t
    requires StartsOf(points) <= sums.Keys && forall i :: 0 <= i < |points| ==> points[i].total == sums[points[i].t]
    ensures TotalOf(points) == Total(StartsOf(points), sums)
  {
    if points != [] {
      var n := |points| - 1;
      PointsAddUp(points[..n], sums);
      StartsGrow(points);
      hide Total, StartsOf;
      TotalPick(StartsOf(points), sums, points[n].t);
    }
  }

  lemma StartsGrow(points: seq<SharePoint>)
    requires points != [] && forall i, j :: 0 <= i < j < |points| ==> points[i].t < points[j].t
    ensures points[|points| - 1].t in StartsOf(points)
    ensures StartsOf(points) - {points[|points| - 1].t} == StartsOf(points[..|points| - 1])
  {
    var n := |points| - 1;
    assert forall t :: t in StartsOf(points) - {points[n].t} <==> t in StartsOf(points[..n]);
  }

  /** Windowing loses nothing and counts nothing twice. */
  lemma WindowsConserve(rows: seq<Row>, consumers: set<ConsumerId>, windowS: int, points: seq<SharePoint>)
    requires windowS > 0 && SharesOf(rows, consumers, windowS, points)
    ensures TotalOf(points) == SumAll(rows)
  {
    hide WindowOf;
    var ts := StartsOf(points);
    forall i | 0 <= i < |rows|
      ensures WindowOf(rows[i].slot.bucket, windowS) in ts
    {
      var k :| 0 <= k < |points| && points[k].t == WindowOf(rows[i].slot.bucket, windowS);
    }
    forall i | 0 <= i < |points|
      ensures points[i].total == SumIn(rows, windowS, points[i].t)
    {
      assert PointOk(rows, consumers, windowS, points[i]);
    }
    SumByWindow(rows, windowS, ts);
    PointsAddUp(points, ByWindow(rows, windowS, ts));
  }

  ghost function ShareSum(cs: set<ConsumerId>, shares: map<ConsumerId, Option<real>>): real
    requires cs <= shares.Keys && forall c :: c in cs ==> shares[c].Some?
  {
    if cs == {} then 0.0 else var c := Member(cs); shares[c].value + ShareSum(cs - {c}, shares)
  }

  lemma {:induction false} SharesAddUp(cs: set<ConsumerId>, shares: map<ConsumerId, Option<real>>,
      counts: map<ConsumerId, int>, total: int)
    requires cs <= shares.Keys && cs <= counts.Keys && total != 0
    requires forall c :: c in cs ==> shares[c] == Some(counts[c] as real / total as real)
    ensures ShareSum(cs, shares) == Total(cs, counts) as real / total as real
  {
    if cs != {} {
      var c := Member(cs);
      SharesAddUp(cs - {c}, shares, counts, total);
      TotalPick(cs, counts, c);
    }
  }

  /** A window somebody used is drawn whole: the shares of the consumers in it add up to one. */
  lemma SharesFillTheWindow(rows: seq<Row>, consumers: set<ConsumerId>, windowS: int, p: SharePoint)
    requires windowS > 0 && PointOk(rows, consumers, windowS, p) && p.total != 0
    requires forall i :: 0 <= i < |rows| ==> rows[i].slot.consumer in consumers
    ensures ShareSum(consumers, p.shares) == 1.0
  {
    hide WindowOf, SumIn, SumOf, Total, ShareSum;
    SumByConsumer(rows, windowS, p.t, consumers);
    SharesAddUp(consumers, p.shares, ByConsumer(rows, windowS, p.t, consumers), p.total);
    WholeOfItself(p.total);
  }

  lemma WholeOfItself(n: int)
    requires n != 0
    ensures n as real / n as real == 1.0
  {
  }
}
