/**
 One run of the backfill job (chic/history/snapshot.py): which days a capture
 fetches, and what it leaves behind however early it is cut short.
 */
module Snapshot {
  import opened Basics
  import opened HistoryStore

  /** What the API answers within one capture. */
  datatype Feed = Feed(stock: seq<Row>, sales: Day -> seq<Row>)

  datatype End = Completed | Interrupted | SavedUnmarked(day: Day)
  datatype Outcome = Outcome(db: Db, fetched: seq<Day>, written: nat, end: End)

  function Max(a: int, b: int): int { if a < b then b else a }

  function Window(maxBackfillDays: int): (n: nat)
    ensures n >= 1
    ensures maxBackfillDays >= 1 ==> n == maxBackfillDays
    ensures maxBackfillDays < 1 ==> n == 1
  {
    Max(maxBackfillDays, 1)
  }

  /** The first day to fetch: after the last day with rows, but within the window. */
  function FirstDay(today: Day, maxBackfillDays: int, last: Option<Day>): Day {
    var floor := today - Window(maxBackfillDays);
    if last.None? then floor else Max(last.value + 1, floor)
  }

  function Days(first: Day, end: Day): seq<Day> {
    seq(if first <= end then end + 1 - first else 0, i => first + i)
  }

  function Distinct(rows: seq<Row>): nat { |Latest(rows)| }

  /**
   The sales half of a capture. `budget` counts the fetches, saves and marks that
   still succeed; the step after them raises, or the process dies before it.
   */
  function CaptureSales(db: Db, days: seq<Day>, feed: Feed, budget: nat): Outcome
    decreases |days|
  {
    if days == [] then Outcome(db, [], 0, Completed)
    else if budget == 0 then Outcome(db, [], 0, Interrupted)
    else
      var day, rows := days[0], feed.sales(days[0]);
      var saved := SaveSales(db, day, rows);
      if budget == 1 then Outcome(db, [day], 0, Interrupted)
      else if budget == 2 then Outcome(saved, [day], 0, SavedUnmarked(day))
      else
        var rest := CaptureSales(Mark(saved, day, Distinct(rows)), days[1..], feed, budget - 3);
        Outcome(rest.db, [day] + rest.fetched, Distinct(rows) + rest.written, rest.end)
  }

  ghost function SalesDays(db: Db, today: Day, maxBackfillDays: int): seq<Day> {
    Days(FirstDay(today, maxBackfillDays, LatestSales(db)), today - 1)
  }

  ghost function Capture(db: Db, today: Day, maxBackfillDays: int, feed: Feed, budget: nat): Outcome {
    var days := SalesDays(db, today, maxBackfillDays);
    if HasStock(db, today) then CaptureSales(db, days, feed, budget)
    else if budget < 2 then Outcome(db, [], 0, Interrupted)
    else
      var rest := CaptureSales(SaveStock(db, today, feed.stock), days, feed, budget - 2);
      rest.(written := Distinct(feed.stock) + rest.written)
  }

  // ---- the job itself ----------------------------------------------------------

  ghost predicate OneRowEach(rows: seq<Row>) {
    forall i, j :: 0 <= i < j < |rows| ==> rows[i].href != rows[j].href
  }

  /** The dict under construction: each product's slot holds its latest row. */
  ghost predicate Holds(slots: map<string, nat>, out: seq<Row>, latest: map<string, Columns>) {
    && slots.Keys == latest.Keys
    && (forall href :: href in slots ==> slots[href] < |out| && out[slots[href]] == Row(href, latest[href]))
    && (forall k :: 0 <= k < |out| ==> out[k].href in slots && slots[out[k].href] == k)
  }

  lemma HoldsNothing()
    ensures Holds(map[], [], Latest([]))
  {
  }

  lemma LatestSnoc(rows: seq<Row>, i: nat)
    requires i < |rows|
    ensures Latest(rows[..i + 1]) == Latest(rows[..i])[rows[i].href := rows[i].columns]
  {
    assert rows[..i + 1][..i] == rows[..i];
  }

  /** One more row overwrites its product's slot, or opens one. */
  lemma HoldsNext(slots: map<string, nat>, out: seq<Row>, latest: map<string, Columns>, row: Row)
    requires Holds(slots, out, latest)
    ensures row.href in slots ==> slots[row.href] < |out|
    ensures row.href in slots ==> Holds(slots, out[slots[row.href] := row], latest[row.href := row.columns])
    ensures row.href !in slots ==> Holds(slots[row.href := |out|], out + [row], latest[row.href := row.columns])
  {
  }

  /** `_dedupe`: a dict filled in place; the last row of a product wins its slot. */
  method Dedupe(rows: seq<Row>) returns (out: seq<Row>)
    ensures Latest(out) == Latest(rows)
    ensures OneRowEach(out) && |out| == Distinct(rows)
  {
    hide Holds, Latest;
    out := [];
    var slots: map<string, nat> := map[];
    HoldsNothing();
    for i := 0 to |rows|
      invariant Holds(slots, out, Latest(rows[..i]))
    {
      var row := rows[i];
      LatestSnoc(rows, i);
      HoldsNext(slots, out, Latest(rows[..i]), row);
      if row.href in slots {
        out := out[slots[row.href] := row];
      } else {
        slots := slots[row.href := |out|];
        out := out + [row];
      }
    }
    assert rows[..|rows|] == rows;
    HoldsLatest(slots, out, Latest(rows));
  }

  lemma HoldsLatest(slots: map<string, nat>, out: seq<Row>, latest: map<string, Columns>)
    requires Holds(slots, out, latest)
    ensures OneRowEach(out) && Latest(out) == latest && |out| == |latest|
  {
    hide Latest;
    LatestWithoutRepeats(out);
    LatestKeys(out);
    forall href | href in latest
      ensures href in Latest(out) && Latest(out)[href] == latest[href]
    {
      var row := out[slots[href]];
      assert Latest(out)[row.href := row.columns] == Latest(out);
    }
    assert Latest(out).Keys == latest.Keys;
  }

  lemma {:induction false} LatestKeys(rows: seq<Row>)
    ensures Latest(rows).Keys == set row | row in rows :: row.href
  {
    if rows != [] {
      var before, last := rows[..|rows| - 1], rows[|rows| - 1];
      LatestKeys(before);
      assert forall row :: row in rows <==> row in before || row == last;
    }
  }

  lemma {:induction false} LatestWithoutRepeats(rows: seq<Row>)
    requires OneRowEach(rows)
    ensures |Latest(rows)| == |rows|
    ensures forall k :: 0 <= k < |rows| ==> Latest(rows)[rows[k].href := rows[k].columns] == Latest(rows)
  {
    if rows != [] {
      var before, last := rows[..|rows| - 1], rows[|rows| - 1];
      LatestWithoutRepeats(before);
      LatestKeys(before);
      assert last.href !in Latest(before);
      forall k | 0 <= k < |rows|
        ensures Latest(rows)[rows[k].href := rows[k].columns] == Latest(rows)
      {
        if k < |before| {
          assert before[k] == rows[k];
          assert Latest(before)[before[k].href := before[k].columns] == Latest(before);
        }
      }
    }
  }

  /** `_sales_days`: the loop over the calendar. */
  method ListSalesDays(today: Day, maxBackfillDays: int, last: Option<Day>) returns (days: seq<Day>)
    ensures days == Days(FirstDay(today, maxBackfillDays, last), today - 1)
  {
    var n := if maxBackfillDays < 1 then 1 else maxBackfillDays;
    var end := today - 1;
    var floor := end - (n - 1);
    var start := floor;
    if last.Some? && last.value + 1 > floor {
      start := last.value + 1;
    }
    days := [];
    var day := start;
    while day <= end
      invariant start <= day
      invariant day <= end + 1 || day == start
      invariant days == Days(start, day - 1)
    {
      days := days + [day];
      day := day + 1;
    }
  }

  lemma NoMoreDays(db: Db, feed: Feed, budget: nat)
    ensures CaptureSales(db, [], feed, budget) == Outcome(db, [], 0, Completed)
  {
  }

  /** What is left of a capture before its next day. */
  lemma NextDay(db: Db, days: seq<Day>, feed: Feed, budget: nat)
    requires days != []
    ensures var day, rows := days[0], feed.sales(days[0]);
            var saved := SaveSales(db, day, rows);
            && (budget == 0 ==> CaptureSales(db, days, feed, budget) == Outcome(db, [], 0, Interrupted))
            && (budget == 1 ==> CaptureSales(db, days, feed, budget) == Outcome(db, [day], 0, Interrupted))
            && (budget == 2 ==> CaptureSales(db, days, feed, budget) == Outcome(saved, [day], 0, SavedUnmarked(day)))
            && (budget >= 3 ==>
                  var rest := CaptureSales(Mark(saved, day, Distinct(rows)), days[1..], feed, budget - 3);
                  CaptureSales(db, days, feed, budget)
                    == Outcome(rest.db, [day] + rest.fetched, Distinct(rows) + rest.written, rest.end))
  {
    hide SaveSales, Mark, Distinct;
  }

  /** Rows that agree product by product are saved alike. */
  lemma SavedAlike(db: Db, day: Day, rows: seq<Row>, deduped: seq<Row>)
    requires Latest(deduped) == Latest(rows)
    ensures SaveSales(db, day, deduped) == SaveSales(db, day, rows)
  {
  }

  class Service {
    const history: Store

    constructor (history: Store)
      ensures this.history == history
    {
      this.history := history;
    }

    /** The loop over the missing days; `_capture_sales` is its body. */
    method CaptureDays(days: seq<Day>, feed: Feed, budget: nat)
      returns (written: nat, ghost fetched: seq<Day>, ghost end: End)
      modifies history
      ensures Outcome(history.View(), fetched, written, end)
           == CaptureSales(old(history.View()), days, feed, budget)
    {
      hide CaptureSales, SaveSales, Mark, Distinct;
      written, fetched, end := 0, [], Interrupted;
      var left := budget;
      for i := 0 to |days|
        invariant CaptureSales(old(history.View()), days, feed, budget)
               == (var rest := CaptureSales(history.View(), days[i..], feed, left);
                   Outcome(rest.db, fetched + rest.fetched, written + rest.written, rest.end))
      {
        var day := days[i];
        assert days[i..][0] == day && days[i..][1..] == days[i + 1..];
        NextDay(history.View(), days[i..], feed, left);
        if left == 0 {
          return;
        }
        fetched := fetched + [day];
        if left == 1 {
          return;
        }
        var rows := Dedupe(feed.sales(day));
        SavedAlike(history.View(), day, feed.sales(day), rows);
        var n := history.SaveSalesRows(day, rows);
        if left == 2 {
          end := SavedUnmarked(day);
          return;
        }
        history.MarkSalesCaptured(day, n);
        left := left - 3;
        written := written + n;
      }
      NoMoreDays(history.View(), feed, left);
      end := Completed;
    }

    /**
     `capture`, with the steps that still succeed given as `budget`. A failing read
     has the effect of a failure in the step after it.
     */
    method CaptureToday(today: Day, maxBackfillDays: int, feed: Feed, budget: nat)
      returns (written: nat, ghost fetched: seq<Day>, ghost end: End)
      modifies history
      ensures Outcome(history.View(), fetched, written, end)
           == Capture(old(history.View()), today, maxBackfillDays, feed, budget)
    {
      hide CaptureSales, Upserted, Latest;
      var left := budget;
      var stocked := 0;
      if !HasStock(Db(history.stock, history.sales, history.captures), today) {
        if left < 2 {
          return 0, [], Interrupted;
        }
        var rows := Dedupe(feed.stock);
        stocked := history.SaveStockRows(today, rows);
        left := left - 2;
      }
      var last := history.LatestSalesDate();
      var days := ListSalesDays(today, maxBackfillDays, last);
      written, fetched, end := CaptureDays(days, feed, left);
      written := stocked + written;
    }
  }
}
