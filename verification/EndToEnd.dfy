/**
 * From attempt rows to the share chart: machine, metrics writers under any leaders, and a client that polls whenever
 * it likes (app/conductor/metrics.py, app/api/routes.py, frontend/src/transform/series.ts).
 */
module EndToEnd {
  import opened Model
  import opened Sets
  import opened Fences
  import opened Machine
  import opened Runs
  import opened Metrics
  import opened Charts
  import Ledger
  import S = Series

  datatype View = View(cursor: int, rows: seq<Row>)

  /** At each state of a run the client may poll the snapshots as they are. */
  ghost predicate Viewed(charts: seq<Chart>, polls: seq<bool>, views: seq<View>) {
    && |views| == |charts| == |polls| + 1
    && views[0] == View(-1, [])
    && forall i :: 0 <= i < |polls| ==>
         if polls[i] then S.Polls(charts[i].table, views[i].cursor, views[i].rows, views[i + 1].cursor,
             views[i + 1].rows)
         else views[i + 1] == views[i]
  }

  /** The buffer holds each consumer's buckets from zero to the cursor, in order, none past the table. */
  ghost predicate Covers(sim: Simulation, chart: Chart, view: View) {
    && -1 <= view.cursor <= Top(chart.table)
    && S.Ordered(view.rows)
    && NoHoles(S.TableOf(view.rows), sim.consumers.Keys, view.cursor)
  }

  lemma PollCovers(sim: Simulation, chart: Chart, view: View, view': View)
    requires ChartOk(sim, chart) && Covers(sim, chart, view)
    requires S.Polls(chart.table, view.cursor, view.rows, view'.cursor, view'.rows)
    ensures Covers(sim, chart, view')
  {
    S.PollCoversWhole(chart.table, sim.consumers.Keys, Top(chart.table), view.cursor, view.rows, view'.cursor,
        view'.rows);
  }

  lemma TopGrows(table: Table, table': Table)
    requires table.Keys <= table'.Keys && Top(table') >= -1
    ensures Top(table) <= Top(table')
  {
    if table != map[] {
      var slot :| slot in table && slot.bucket == Top(table);
      assert slot in table';
    }
  }

  /** Whoever leads, gaps within the bound leave the client's buffer whole up to its cursor, in order. */
  lemma {:induction false} ViewIsWhole(
    sim: Simulation, ws: seq<World>, leaders: seq<Option<int>>, charts: seq<Chart>, polls: seq<bool>,
    views: seq<View>, n: nat)
    requires Charted(sim, ws, leaders, charts) && GapsFit(sim, ws, leaders, charts)
    requires Viewed(charts, polls, views) && n < |ws|
    ensures Covers(sim, charts[n], views[n])
  {
    hide WritesBy, Covers, Top, ChartOk, GapFits, S.Polls;
    if n == 0 {
      NothingFetched(sim, charts[0], views[0]);
    } else {
      ViewIsWhole(sim, ws, leaders, charts, polls, views, n - 1);
      ChartIsWhole(sim, ws, leaders, charts, n - 1);
      if polls[n - 1] { PollCovers(sim, charts[n - 1], views[n - 1], views[n]); }
      ChartIsWhole(sim, ws, leaders, charts, n);
      if leaders[n - 1].Some? { WriteGrows(sim, ws[n - 1], leaders[n - 1].value, charts[n - 1], charts[n]); }
      StillCovers(sim, charts[n - 1], charts[n], views[n]);
    }
  }

  lemma NothingFetched(sim: Simulation, chart: Chart, view: View)
    requires chart.table == map[] && view == View(-1, [])
    ensures Covers(sim, chart, view)
  {
  }

  lemma StillCovers(sim: Simulation, chart: Chart, chart': Chart, view: View)
    requires ChartOk(sim, chart') && Covers(sim, chart, view) && chart.table.Keys <= chart'.table.Keys
    ensures Covers(sim, chart', view)
  {
    TopGrows(chart.table, chart'.table);
  }

  // ---- Fetched rows against recounts ----

  ghost function Taken(at: map<Slot, nat>, page: Table): map<Slot, nat> {
    map slot | slot in page && slot in at :: at[slot]
  }

  /** The state each slot of the client's buffer was counted at, by whoever wrote the row it fetched. */
  ghost function FetchedAt(
    sim: Simulation, ws: seq<World>, leaders: seq<Option<int>>, charts: seq<Chart>, polls: seq<bool>,
    views: seq<View>, n: nat)
    : map<Slot, nat>
    requires n < |ws| && |leaders| + 1 == |ws| == |charts| == |views| == |polls| + 1
  {
    if n == 0 then map[]
    else
      FetchedAt(sim, ws, leaders, charts, polls, views, n - 1)
      + if !polls[n - 1] then map[]
        else Taken(CountedAt(sim, ws, leaders, charts, n - 1),
                   S.After(charts[n - 1].table, Max(-1, views[n - 1].cursor - S.CURSOR_OVERLAP)))
  }

  ghost predicate FetchedWhen(
    sim: Simulation, ws: seq<World>, charts: seq<Chart>, view: View, at: map<Slot, nat>, n: nat, slot: Slot)
    requires slot in S.TableOf(view.rows) && n < |ws| == |charts|
  {
    && slot in at && at[slot] < n
    && S.TableOf(view.rows)[slot].counters == Recount(ws[at[slot]].db, slot, sim.settings.bucketS)
    && LagsAt(sim, ws[at[slot]], slot)
    && forall i :: at[slot] <= i < n ==> WrittenBy(charts, slot, i)
  }

  ghost predicate AllFetched(sim: Simulation, ws: seq<World>, charts: seq<Chart>, view: View, at: map<Slot, nat>,
      n: nat)
    requires n < |ws| == |charts|
  {
    && at.Keys == S.TableOf(view.rows).Keys
    && forall slot {:trigger FetchedWhen(sim, ws, charts, view, at, n, slot)} :: slot in S.TableOf(view.rows) ==>
         FetchedWhen(sim, ws, charts, view, at, n, slot)
  }

  lemma StillFetched(
    sim: Simulation, ws: seq<World>, leaders: seq<Option<int>>, charts: seq<Chart>, view: View, at: map<Slot, nat>,
    n: nat, slot: Slot)
    requires Charted(sim, ws, leaders, charts) && 0 < n < |ws| && slot in S.TableOf(view.rows)
    requires FetchedWhen(sim, ws, charts, view, at, n - 1, slot)
    ensures FetchedWhen(sim, ws, charts, view, at, n, slot)
  {
    hide Recount, LagsAt, WritesBy;
    SlotsStay(sim, ws, leaders, charts, at[slot] + 1, n);
    assert at[slot] < n - 1 ==> WrittenBy(charts, slot, at[slot]);
  }

  lemma JustFetched(
    sim: Simulation, ws: seq<World>, leaders: seq<Option<int>>, charts: seq<Chart>, n: nat, slot: Slot)
    requires Charted(sim, ws, leaders, charts) && 0 < n < |ws| && slot in charts[n - 1].table
    ensures var at := CountedAt(sim, ws, leaders, charts, n - 1);
            && slot in at && at[slot] < n - 1
            && charts[n - 1].table[slot].counters == Recount(ws[at[slot]].db, slot, sim.settings.bucketS)
            && LagsAt(sim, ws[at[slot]], slot)
            && forall i :: at[slot] <= i < n ==> WrittenBy(charts, slot, i)
  {
    hide Recount, LagsAt, WritesBy, CountedAt;
    EveryCounterIsARecount(sim, ws, leaders, charts, n - 1);
    var at := CountedAt(sim, ws, leaders, charts, n - 1);
    assert CountedWhen(sim, ws, charts[n - 1], at, n - 1, slot);
    SlotIsWritten(sim, ws, leaders, charts, n - 1, slot);
    SlotsStay(sim, ws, leaders, charts, n - 1, n);
  }

  /** Every row the client holds is a recount as of the state it was counted at. */
  lemma {:induction false} EveryRowIsARecount(
    sim: Simulation, ws: seq<World>, leaders: seq<Option<int>>, charts: seq<Chart>, polls: seq<bool>,
    views: seq<View>, n: nat)
    requires Charted(sim, ws, leaders, charts) && Viewed(charts, polls, views) && n < |ws|
    ensures AllFetched(sim, ws, charts, views[n], FetchedAt(sim, ws, leaders, charts, polls, views, n), n)
  {
    hide AllFetched, CountedAt, Charted, S.Polls, S.After, S.TableOf;
    LengthsOf(sim, ws, leaders, charts);
    if n == 0 {
      NothingToCount(sim, ws, charts, views[0]);
    } else {
      EveryRowIsARecount(sim, ws, leaders, charts, polls, views, n - 1);
      var before := FetchedAt(sim, ws, leaders, charts, polls, views, n - 1);
      if polls[n - 1] {
        PollFetches(sim, ws, leaders, charts, views[n - 1], views[n], before, n);
      } else {
        assert FetchedAt(sim, ws, leaders, charts, polls, views, n) == before;
        RowsStayFetched(sim, ws, leaders, charts, views[n], before, n);
      }
    }
  }

  lemma NothingToCount(sim: Simulation, ws: seq<World>, charts: seq<Chart>, view: View)
    requires 0 < |ws| == |charts| && view == View(-1, [])
    ensures AllFetched(sim, ws, charts, view, map[], 0)
  {
  }

  lemma RowsStayFetched(
    sim: Simulation, ws: seq<World>, leaders: seq<Option<int>>, charts: seq<Chart>, view: View, at: map<Slot, nat>,
    n: nat)
    requires Charted(sim, ws, leaders, charts) && 0 < n < |ws| && AllFetched(sim, ws, charts, view, at, n - 1)
    ensures AllFetched(sim, ws, charts, view, at, n)
  {
    hide FetchedWhen, WritesBy, S.TableOf;
    forall slot | slot in S.TableOf(view.rows)
      ensures FetchedWhen(sim, ws, charts, view, at, n, slot)
    {
      assert FetchedWhen(sim, ws, charts, view, at, n - 1, slot);
      StillFetched(sim, ws, leaders, charts, view, at, n, slot);
    }
  }

  lemma LengthsOf(sim: Simulation, ws: seq<World>, leaders: seq<Option<int>>, charts: seq<Chart>)
    requires Charted(sim, ws, leaders, charts)
    ensures |charts| == |ws| == |leaders| + 1
  {
    hide WritesBy;
  }

  lemma PollFetches(
    sim: Simulation, ws: seq<World>, leaders: seq<Option<int>>, charts: seq<Chart>, view: View, view': View,
    before: map<Slot, nat>, n: nat)
    requires Charted(sim, ws, leaders, charts) && 0 < n < |ws| && AllFetched(sim, ws, charts, view, before, n - 1)
    requires S.Polls(charts[n - 1].table, view.cursor, view.rows, view'.cursor, view'.rows)
    ensures var page := S.After(charts[n - 1].table, Max(-1, view.cursor - S.CURSOR_OVERLAP));
            AllFetched(sim, ws, charts, view', before + Taken(CountedAt(sim, ws, leaders, charts, n - 1), page), n)
  {
    hide FetchedWhen, LagsAt, WritesBy, CountedAt, CountedWhen, S.TableOf, S.After;
    var page := S.After(charts[n - 1].table, Max(-1, view.cursor - S.CURSOR_OVERLAP));
    var at := before + Taken(CountedAt(sim, ws, leaders, charts, n - 1), page);
    EveryCounterIsARecount(sim, ws, leaders, charts, n - 1);
    assert forall slot :: slot in page ==> slot in charts[n - 1].table
        by { PageIsOfTable(charts[n - 1].table, view.cursor); }
    forall slot | slot in S.TableOf(view'.rows)
      ensures FetchedWhen(sim, ws, charts, view', at, n, slot)
    {
      PolledSlot(sim, ws, leaders, charts, view, view', before, n, slot);
    }
  }

  lemma PageIsOfTable(table: Table, cursor: int)
    ensures var page := S.After(table, Max(-1, cursor - S.CURSOR_OVERLAP));
            forall slot :: slot in page ==> slot in table && page[slot] == table[slot]
  {
  }

  lemma PolledSlot(
    sim: Simulation, ws: seq<World>, leaders: seq<Option<int>>, charts: seq<Chart>, view: View, view': View,
    before: map<Slot, nat>, n: nat, slot: Slot)
    requires Charted(sim, ws, leaders, charts) && 0 < n < |ws| && AllFetched(sim, ws, charts, view, before, n - 1)
    requires S.Polls(charts[n - 1].table, view.cursor, view.rows, view'.cursor, view'.rows)
        && slot in S.TableOf(view'.rows)
    ensures var page := S.After(charts[n - 1].table, Max(-1, view.cursor - S.CURSOR_OVERLAP));
            FetchedWhen(sim, ws, charts, view', before + Taken(CountedAt(sim, ws, leaders, charts, n - 1), page),
                n, slot)
  {
    hide Recount, LagsAt, WritesBy, CountedAt, S.TableOf, S.After, Charted, AllFetched;
    LengthsOf(sim, ws, leaders, charts);
    var page := S.After(charts[n - 1].table, Max(-1, view.cursor - S.CURSOR_OVERLAP));
    PageIsOfTable(charts[n - 1].table, view.cursor);
    if slot in page {
      JustFetched(sim, ws, leaders, charts, n, slot);
    } else {
      FetchedSays(sim, ws, charts, view, before, n - 1, slot);
      StillFetched(sim, ws, leaders, charts, view, before, n, slot);
    }
  }

  lemma FetchedSays(
    sim: Simulation, ws: seq<World>, charts: seq<Chart>, view: View, at: map<Slot, nat>, n: nat, slot: Slot)
    requires n < |ws| == |charts| && AllFetched(sim, ws, charts, view, at, n) && slot in S.TableOf(view.rows)
    ensures FetchedWhen(sim, ws, charts, view, at, n, slot)
  {
    hide FetchedWhen;
  }

  /** A row the client holds is right, now, if and only if no claim has landed in its bucket since it was counted. */
  lemma RowIsExactIff(
    sim: Simulation, ws: seq<World>, acts: seq<Action>, leaders: seq<Option<int>>, charts: seq<Chart>,
    polls: seq<bool>, views: seq<View>, n: nat, slot: Slot)
    requires Run(sim, ws, acts) && Initial(ws[0]) && Charted(sim, ws, leaders, charts) && Viewed(charts, polls, views)
    requires n <= |acts| && slot in S.TableOf(views[n].rows)
    ensures var at := FetchedAt(sim, ws, leaders, charts, polls, views, n);
            && slot in at && at[slot] < n
            && (S.TableOf(views[n].rows)[slot].counters == Recount(ws[n].db, slot, sim.settings.bucketS)
                <==> NoneLand(sim, ws, acts, at[slot], n, slot))
  {
    hide Next, Initial, Recount, LagsAt, WritesBy, FetchedAt, NoneLand;
    EveryRowIsARecount(sim, ws, leaders, charts, polls, views, n);
    var at := FetchedAt(sim, ws, leaders, charts, polls, views, n);
    assert FetchedWhen(sim, ws, charts, views[n], at, n, slot);
    RecountSince(sim, ws, acts, at[slot], n, slot);
  }

  // ---- Conservation ----

  /** The attempts of the slot's consumer that a claim starts with a stamp in its bucket. */
  ghost function Starting(sim: Simulation, w: World, a: Action, slot: Slot): set<DeliveryId> {
    if a.Commit? then Landing(sim, w, a, slot) * a.ids.Keys else {}
  }

  lemma StepStarts(sim: Simulation, w: World, a: Action, w': World, slot: Slot)
    requires Inv(sim, w) && Next(sim, w, a, w') && LagsAt(sim, w, slot)
    ensures |Started(w'.db, slot, sim.settings.bucketS)|
         == |Started(w.db, slot, sim.settings.bucketS)| + |Starting(sim, w, a, slot)|
  {
    hide Next, Inv, BucketIndex, Started, SettledRows, Landing;
    HorizonIsPast(sim, w);
    if a.Commit? {
      ClaimStarts(sim, w, a, w', slot);
    } else {
      RecountKept(sim, w, a, w', slot);
    }
  }

  /** No claim starts an attempt in the slot from state m up to state n. */
  ghost predicate NoneStart(sim: Simulation, ws: seq<World>, acts: seq<Action>, m: nat, n: nat, slot: Slot)
    requires n <= |acts| < |ws|
  {
    forall i {:trigger Starting(sim, ws[i], acts[i], slot)} :: m <= i < n ==> Starting(sim, ws[i], acts[i], slot) == {}
  }

  lemma {:induction false} StartedSince(sim: Simulation, ws: seq<World>, acts: seq<Action>, m: nat, n: nat, slot: Slot)
    requires Run(sim, ws, acts) && Initial(ws[0]) && m <= n <= |acts| && LagsAt(sim, ws[m], slot)
    ensures |Started(ws[m].db, slot, sim.settings.bucketS)| <= |Started(ws[n].db, slot, sim.settings.bucketS)|
    ensures |Started(ws[m].db, slot, sim.settings.bucketS)| == |Started(ws[n].db, slot, sim.settings.bucketS)|
       <==> NoneStart(sim, ws, acts, m, n, slot)
    decreases n
  {
    hide Next, Inv, Initial, Started, Starting, LagsAt;
    if m < n {
      StartedSince(sim, ws, acts, m, n - 1, slot);
      LagsLater(sim, ws, acts, m, n - 1, slot);
      RunKeepsInv(sim, ws, acts, n - 1);
      StepStarts(sim, ws[n - 1], acts[n - 1], ws[n], slot);
      assert NoneStart(sim, ws, acts, m, n, slot)
        <==> NoneStart(sim, ws, acts, m, n - 1, slot) && Starting(sim, ws[n - 1], acts[n - 1], slot) == {};
    }
  }

  ghost predicate StartedInSome(a: Attempt, rows: seq<Row>, bucketS: real)
    requires bucketS > 0.0
  {
    exists i :: 0 <= i < |rows| && StartedIn(a, rows[i].slot, bucketS)
  }

  ghost function StartedInRows(db: Tables, rows: seq<Row>, bucketS: real): set<AttemptId>
    requires bucketS > 0.0
  {
    set a | a in db.attempts && StartedInSome(db.attempts[a], rows, bucketS)
  }

  ghost predicate RowFull(db: Tables, row: Row, bucketS: real)
    requires bucketS > 0.0
  {
    S.AttemptsOf(row) == |Started(db, row.slot, bucketS)|
  }

  lemma {:induction false} RowsCountAttempts(db: Tables, rows: seq<Row>, bucketS: real)
    requires bucketS > 0.0 && S.Ordered(rows)
    requires forall i :: 0 <= i < |rows| ==> S.AttemptsOf(rows[i]) <= |Started(db, rows[i].slot, bucketS)|
    ensures S.SumAll(rows) <= |StartedInRows(db, rows, bucketS)|
    ensures S.SumAll(rows) == |StartedInRows(db, rows, bucketS)|
       <==> forall i {:trigger RowFull(db, rows[i], bucketS)} :: 0 <= i < |rows| ==> RowFull(db, rows[i], bucketS)
  {
    hide BucketIndex;
    if rows == [] {
      assert forall a :: a !in StartedInRows(db, rows, bucketS);
      TwoParts({}, {}, StartedInRows(db, rows, bucketS));
    } else {
      var n := |rows| - 1;
      var init := rows[..n];
      assert forall i :: 0 <= i < n ==> init[i] == rows[i];
      RowsCountAttempts(db, init, bucketS);
      forall a
        ensures a in StartedInRows(db, rows, bucketS)
           <==> a in StartedInRows(db, init, bucketS) || a in Started(db, rows[n].slot, bucketS)
        ensures a in StartedInRows(db, init, bucketS) ==> a !in Started(db, rows[n].slot, bucketS)
      {
        StartedSplit(db, rows, bucketS, a);
      }
      TwoParts(StartedInRows(db, init, bucketS), Started(db, rows[n].slot, bucketS), StartedInRows(db, rows, bucketS));
      hide StartedInRows, Started;
      LastRowToo(db, rows, init, bucketS);
    }
  }

  lemma LastRowToo(db: Tables, rows: seq<Row>, init: seq<Row>, bucketS: real)
    requires bucketS > 0.0 && rows != [] && init == rows[..|rows| - 1]
    ensures (forall i {:trigger RowFull(db, rows[i], bucketS)} :: 0 <= i < |rows| ==> RowFull(db, rows[i], bucketS))
       <==> && (forall i {:trigger RowFull(db, init[i], bucketS)} :: 0 <= i < |init| ==> RowFull(db, init[i], bucketS))
            && RowFull(db, rows[|rows| - 1], bucketS)
  {
    hide RowFull;
    if forall i {:trigger RowFull(db, rows[i], bucketS)} :: 0 <= i < |rows| ==> RowFull(db, rows[i], bucketS) {
      forall i | 0 <= i < |init|
        ensures RowFull(db, init[i], bucketS)
      {
        assert RowFull(db, rows[i], bucketS);
      }
    }
    if && (forall i {:trigger RowFull(db, init[i], bucketS)} :: 0 <= i < |init| ==> RowFull(db, init[i], bucketS))
       && RowFull(db, rows[|rows| - 1], bucketS)
    {
      forall i | 0 <= i < |rows|
        ensures RowFull(db, rows[i], bucketS)
      {
        assert i < |init| ==> RowFull(db, init[i], bucketS);
      }
    }
  }

  lemma StartedSplit(db: Tables, rows: seq<Row>, bucketS: real, a: AttemptId)
    requires bucketS > 0.0 && S.Ordered(rows) && rows != []
    ensures a in StartedInRows(db, rows, bucketS)
       <==> a in StartedInRows(db, rows[..|rows| - 1], bucketS) || a in Started(db, rows[|rows| - 1].slot, bucketS)
    ensures a in StartedInRows(db, rows[..|rows| - 1], bucketS) ==> a !in Started(db, rows[|rows| - 1].slot, bucketS)
  {
    hide BucketIndex;
    var n := |rows| - 1;
    if a in db.attempts {
      var at := db.attempts[a];
      if StartedInSome(at, rows, bucketS) {
        var i :| 0 <= i < |rows| && StartedIn(at, rows[i].slot, bucketS);
        assert i < n ==> rows[..n][i] == rows[i];
      }
      if StartedInSome(at, rows[..n], bucketS) {
        var i :| 0 <= i < n && StartedIn(at, rows[..n][i].slot, bucketS);
        assert rows[i] == rows[..n][i];
        assert S.SlotBefore(rows[i].slot, rows[n].slot);
      }
      assert StartedIn(at, rows[n].slot, bucketS) ==> StartedInSome(at, rows, bucketS);
    }
  }

  ghost function StartedUpTo(db: Tables, cursor: int, bucketS: real): set<AttemptId>
    requires bucketS > 0.0
  {
    set a | a in db.attempts && 0 <= BucketIndex(db.attempts[a].startedAt, bucketS) <= cursor
  }

  lemma AttemptsHaveConsumers(sim: Simulation, db: Tables, a: AttemptId)
    requires Sound(db, sim.settings) && Ledger.Fanned(sim, db) && a in db.attempts
    ensures db.attempts[a].consumer in sim.consumers
  {
    assert AttemptOk(db, sim.settings, a);
    var d := db.deliveries[db.attempts[a].delivery];
    assert Stream(d.consumer, db.events[d.event].eventType) in sim.subscriptions;
  }

  lemma CoveredAttempts(sim: Simulation, db: Tables, chart: Chart, view: View)
    requires Covers(sim, chart, view) && Sound(db, sim.settings) && Ledger.Fanned(sim, db)
    ensures StartedInRows(db, view.rows, sim.settings.bucketS) == StartedUpTo(db, view.cursor, sim.settings.bucketS)
  {
    hide Top, BucketIndex, Sound, Ledger.Fanned;
    var bucketS := sim.settings.bucketS;
    forall a
      ensures a in StartedInRows(db, view.rows, bucketS) <==> a in StartedUpTo(db, view.cursor, bucketS)
    {
      if a in db.attempts {
        var at := db.attempts[a];
        var slot := Slot(at.consumer, BucketIndex(at.startedAt, bucketS));
        AttemptsHaveConsumers(sim, db, a);
        S.TableOfHas(view.rows, slot);
        assert slot in S.TableOf(view.rows) <==> InSpan(slot, sim.consumers.Keys, 0, view.cursor);
        if slot in S.TableOf(view.rows) {
          var i :| 0 <= i < |view.rows| && view.rows[i].slot == slot;
          assert StartedIn(at, view.rows[i].slot, bucketS);
        }
        if StartedInSome(at, view.rows, bucketS) {
          var i :| 0 <= i < |view.rows| && StartedIn(at, view.rows[i].slot, bucketS);
          assert view.rows[i].slot == slot;
        }
      }
    }
  }

  lemma RowAgainstStarts(
    sim: Simulation, ws: seq<World>, acts: seq<Action>, leaders: seq<Option<int>>, charts: seq<Chart>,
    polls: seq<bool>, views: seq<View>, n: nat, i: nat)
    requires Run(sim, ws, acts) && Initial(ws[0]) && Charted(sim, ws, leaders, charts) && Viewed(charts, polls, views)
    requires n <= |acts| && i < |views[n].rows| && S.Ordered(views[n].rows)
    ensures var row, at := views[n].rows[i], FetchedAt(sim, ws, leaders, charts, polls, views, n);
            && row.slot in at && at[row.slot] < n
            && S.AttemptsOf(row) <= |Started(ws[n].db, row.slot, sim.settings.bucketS)|
            && (RowFull(ws[n].db, row, sim.settings.bucketS) <==> NoneStart(sim, ws, acts, at[row.slot], n, row.slot))
  {
    hide Next, Initial, LagsAt, WritesBy, FetchedAt, NoneStart, Started, SettledRows;
    EveryRowIsARecount(sim, ws, leaders, charts, polls, views, n);
    var row, at := views[n].rows[i], FetchedAt(sim, ws, leaders, charts, polls, views, n);
    S.TableOfOrdered(views[n].rows, i);
    assert FetchedWhen(sim, ws, charts, views[n], at, n, row.slot);
    StartedSince(sim, ws, acts, at[row.slot], n, row.slot);
  }

  /** Nothing was started late in any bucket the client holds. */
  ghost predicate NoneMissed(
    sim: Simulation, ws: seq<World>, acts: seq<Action>, at: map<Slot, nat>, n: nat)
    requires n <= |acts| < |ws|
  {
    forall slot {:trigger NoneStart(sim, ws, acts, at[slot], n, slot)} :: slot in at ==>
        NoneStart(sim, ws, acts, at[slot], n, slot)
  }

  lemma RowsFullIff(
    sim: Simulation, ws: seq<World>, acts: seq<Action>, leaders: seq<Option<int>>, charts: seq<Chart>,
    polls: seq<bool>, views: seq<View>, n: nat)
    requires Run(sim, ws, acts) && Initial(ws[0]) && Charted(sim, ws, leaders, charts) && Viewed(charts, polls, views)
    requires n <= |acts| && S.Ordered(views[n].rows)
    ensures forall i :: 0 <= i < |views[n].rows| ==>
              S.AttemptsOf(views[n].rows[i]) <= |Started(ws[n].db, views[n].rows[i].slot, sim.settings.bucketS)|
    ensures var rows, bucketS := views[n].rows, sim.settings.bucketS;
            (forall i {:trigger RowFull(ws[n].db, rows[i], bucketS)} :: 0 <= i < |rows| ==>
                RowFull(ws[n].db, rows[i], bucketS))
            <==> NoneMissed(sim, ws, acts, FetchedAt(sim, ws, leaders, charts, polls, views, n), n)
  {
    hide Next, Initial, Charted, FetchedAt, NoneStart, Started, RowFull;
    LengthsOf(sim, ws, leaders, charts);
    var rows, at := views[n].rows, FetchedAt(sim, ws, leaders, charts, polls, views, n);
    forall i | 0 <= i < |rows|
      ensures S.AttemptsOf(rows[i]) <= |Started(ws[n].db, rows[i].slot, sim.settings.bucketS)|
      ensures rows[i].slot in at
      ensures RowFull(ws[n].db, rows[i], sim.settings.bucketS) <==>
          NoneStart(sim, ws, acts, at[rows[i].slot], n, rows[i].slot)
    {
      RowAgainstStarts(sim, ws, acts, leaders, charts, polls, views, n, i);
    }
    forall slot | slot in at
      ensures exists i :: 0 <= i < |rows| && rows[i].slot == slot
    {
      FetchedIsHeld(sim, ws, leaders, charts, polls, views, n, slot);
    }
  }

  lemma FetchedIsHeld(
    sim: Simulation, ws: seq<World>, leaders: seq<Option<int>>, charts: seq<Chart>, polls: seq<bool>, views: seq<View>,
    n: nat, slot: Slot)
    requires Charted(sim, ws, leaders, charts) && Viewed(charts, polls, views) && n < |ws|
    requires slot in FetchedAt(sim, ws, leaders, charts, polls, views, n)
    ensures exists i :: 0 <= i < |views[n].rows| && views[n].rows[i].slot == slot
  {
    hide WritesBy, FetchedAt, FetchedWhen;
    EveryRowIsARecount(sim, ws, leaders, charts, polls, views, n);
    S.TableOfHas(views[n].rows, slot);
  }

  /**
    * Conservation: whoever led, however the pages overlapped, the share windows drawn from what has been fetched
    * count no attempt twice, and total exactly the attempts started in those buckets if and only if no attempt has
    * been committed late into one of them.
    */
  lemma ShareChartConservesIff(
    sim: Simulation, ws: seq<World>, acts: seq<Action>, leaders: seq<Option<int>>, charts: seq<Chart>,
    polls: seq<bool>, views: seq<View>, n: nat, shown: set<ConsumerId>, windowS: int, points: seq<S.SharePoint>)
    requires Run(sim, ws, acts) && Initial(ws[0])
    requires Charted(sim, ws, leaders, charts) && GapsFit(sim, ws, leaders, charts) && Viewed(charts, polls, views)
    requires n <= |acts| && windowS > 0 && S.SharesOf(views[n].rows, shown, windowS, points)
    ensures S.TotalOf(points) <= |StartedUpTo(ws[n].db, views[n].cursor, sim.settings.bucketS)|
    ensures S.TotalOf(points) == |StartedUpTo(ws[n].db, views[n].cursor, sim.settings.bucketS)|
       <==> NoneMissed(sim, ws, acts, FetchedAt(sim, ws, leaders, charts, polls, views, n), n)
  {
    hide Next, Initial, Charted, Inv, GapFits, S.Polls, S.SharesOf, FetchedAt, NoneStart, Started, RowFull, Top;
    LengthsOf(sim, ws, leaders, charts);
    ViewIsWhole(sim, ws, leaders, charts, polls, views, n);
    RunKeepsInv(sim, ws, acts, n);
    Ledger.RunKeepsFanned(sim, ws, acts, n);
    RowsFullIff(sim, ws, acts, leaders, charts, polls, views, n);
    RowsCountAttempts(ws[n].db, views[n].rows, sim.settings.bucketS);
    SoundIn(sim, ws[n]);
    CoveredAttempts(sim, ws[n].db, charts[n], views[n]);
    S.WindowsConserve(views[n].rows, shown, windowS, points);
  }

  lemma SoundIn(sim: Simulation, w: World)
    requires Inv(sim, w)
    ensures Sound(w.db, sim.settings)
  {
  }

  lemma NoneLateMissesNone(
    sim: Simulation, ws: seq<World>, acts: seq<Action>, leaders: seq<Option<int>>, charts: seq<Chart>,
    polls: seq<bool>, views: seq<View>, n: nat)
    requires Run(sim, ws, acts) && Charted(sim, ws, leaders, charts) && Viewed(charts, polls, views) && n <= |acts|
    requires NoneLate(sim, ws, acts, charts, n)
    ensures NoneMissed(sim, ws, acts, FetchedAt(sim, ws, leaders, charts, polls, views, n), n)
    ensures forall slot :: slot in FetchedAt(sim, ws, leaders, charts, polls, views, n) ==>
              NoneLand(sim, ws, acts, FetchedAt(sim, ws, leaders, charts, polls, views, n)[slot], n, slot)
  {
    hide Next, Recount, LagsAt, WritesBy, FetchedAt, Landing;
    EveryRowIsARecount(sim, ws, leaders, charts, polls, views, n);
    var at := FetchedAt(sim, ws, leaders, charts, polls, views, n);
    forall slot, i | slot in at && at[slot] <= i < n
      ensures Landing(sim, ws[i], acts[i], slot) == {}
    {
      assert FetchedWhen(sim, ws, charts, views[n], at, n, slot);
      assert WrittenBy(charts, slot, i);
    }
  }

  /** With prompt commits the client's buffer is exact at any point of any run. */
  lemma ViewIsExact(
    sim: Simulation, ws: seq<World>, acts: seq<Action>, leaders: seq<Option<int>>, charts: seq<Chart>,
    polls: seq<bool>, views: seq<View>, n: nat, slot: Slot)
    requires Run(sim, ws, acts) && Initial(ws[0]) && Prompt(sim, ws, acts)
    requires Charted(sim, ws, leaders, charts) && Viewed(charts, polls, views)
    requires n <= |acts| && slot in S.TableOf(views[n].rows)
    ensures S.TableOf(views[n].rows)[slot].counters == Recount(ws[n].db, slot, sim.settings.bucketS)
  {
    hide Next, Initial, Charted, PromptAt, Recount, FetchedAt, NoneLand, NoneLate, NoneMissed;
    LengthsOf(sim, ws, leaders, charts);
    PromptIsNeverLate(sim, ws, acts, leaders, charts, n);
    NoneLateMissesNone(sim, ws, acts, leaders, charts, polls, views, n);
    RowIsExactIff(sim, ws, acts, leaders, charts, polls, views, n, slot);
  }

  /** With prompt commits the share windows total exactly the attempts started in the buckets fetched. */
  lemma ShareChartConservesAttempts(
    sim: Simulation, ws: seq<World>, acts: seq<Action>, leaders: seq<Option<int>>, charts: seq<Chart>,
    polls: seq<bool>, views: seq<View>, n: nat, shown: set<ConsumerId>, windowS: int, points: seq<S.SharePoint>)
    requires Run(sim, ws, acts) && Initial(ws[0]) && Prompt(sim, ws, acts)
    requires Charted(sim, ws, leaders, charts) && GapsFit(sim, ws, leaders, charts) && Viewed(charts, polls, views)
    requires n <= |acts| && windowS > 0 && S.SharesOf(views[n].rows, shown, windowS, points)
    ensures S.TotalOf(points) == |StartedUpTo(ws[n].db, views[n].cursor, sim.settings.bucketS)|
  {
    hide Next, Initial, Charted, PromptAt, GapFits, S.Polls, S.SharesOf, FetchedAt, NoneLate, NoneMissed;
    LengthsOf(sim, ws, leaders, charts);
    PromptIsNeverLate(sim, ws, acts, leaders, charts, n);
    NoneLateMissesNone(sim, ws, acts, leaders, charts, polls, views, n);
    ShareChartConservesIff(sim, ws, acts, leaders, charts, polls, views, n, shown, windowS, points);
  }
}
