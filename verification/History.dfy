/**
 The durable snapshot store (chic/history/store.py). Days are integers; a table
 maps its primary key `(day, href)` to the other columns.
 */
module HistoryStore {
  import opened Basics
  import opened Sorting

  type Day = int
  datatype Columns = Columns(name: string, code: string, amounts: seq<real>)
  datatype Row = Row(href: string, columns: Columns)
  type Table = map<(Day, string), Columns>

  datatype Db = Db(stock: Table, sales: Table, captures: map<Day, nat>)

  const EMPTY := Db(map[], map[], map[])

  /** The columns an upsert of `rows`, one after another, leaves per product. */
  function Latest(rows: seq<Row>): map<string, Columns> {
    if rows == [] then map[] else Latest(rows[..|rows| - 1])[rows[|rows| - 1].href := rows[|rows| - 1].columns]
  }

  function Upserted(table: Table, day: Day, latest: map<string, Columns>): Table {
    map key | key in table.Keys + (set href | href in latest :: (day, href)) ::
      if key.0 == day && key.1 in latest then latest[key.1] else table[key]
  }

  function SaveSales(db: Db, day: Day, rows: seq<Row>): Db {
    db.(sales := Upserted(db.sales, day, Latest(rows)))
  }

  function SaveStock(db: Db, day: Day, rows: seq<Row>): Db {
    db.(stock := Upserted(db.stock, day, Latest(rows)))
  }

  function Mark(db: Db, day: Day, rows: nat): Db { db.(captures := db.captures[day := rows]) }

  function RowDays(db: Db): set<Day> { set key | key in db.sales :: key.0 }

  predicate HasStock(db: Db, day: Day) { exists key :: key in db.stock && key.0 == day }

  /** `_chunks`: consecutive slices of at most `size` items. */
  function Chunks<T>(items: seq<T>, size: nat): seq<seq<T>>
    requires size >= 1
    decreases |items|
  {
    if items == [] then []
    else if |items| <= size then [items]
    else [items[..size]] + Chunks(items[size..], size)
  }

  function Flatten<T>(chunks: seq<seq<T>>): seq<T> {
    if chunks == [] then [] else Flatten(chunks[..|chunks| - 1]) + chunks[|chunks| - 1]
  }

  lemma {:induction false} FlattenCons<T>(first: seq<T>, chunks: seq<seq<T>>)
    ensures Flatten([first] + chunks) == first + Flatten(chunks)
    decreases |chunks|
  {
    var all := [first] + chunks;
    if chunks == [] {
      assert all[..0] == [];
    } else {
      FlattenCons(first, chunks[..|chunks| - 1]);
      assert all[..|all| - 1] == [first] + chunks[..|chunks| - 1];
    }
  }

  /** Chunking loses nothing, and no statement exceeds the variable cap. */
  lemma {:induction false} ChunksCover<T>(items: seq<T>, size: nat)
    requires size >= 1
    ensures Flatten(Chunks(items, size)) == items
    ensures forall c :: c in Chunks(items, size) ==> 0 < |c| <= size
    decreases |items|
  {
    if |items| > size {
      ChunksCover(items[size..], size);
      FlattenCons(items[..size], Chunks(items[size..], size));
    } else if items != [] {
      assert [items][..0] == [];
    }
  }

  lemma {:induction false} LatestConcat(a: seq<Row>, b: seq<Row>)
    ensures Latest(a + b) == Latest(a) + Latest(b)
    decreases |b|
  {
    if b == [] {
      assert a + b == a;
    } else {
      LatestConcat(a, b[..|b| - 1]);
      assert (a + b)[..|a + b| - 1] == a + b[..|b| - 1];
    }
  }

  lemma UpsertedTwice(table: Table, day: Day, a: map<string, Columns>, b: map<string, Columns>)
    ensures Upserted(Upserted(table, day, a), day, b) == Upserted(table, day, a + b)
  {
    assert Upserted(Upserted(table, day, a), day, b).Keys == Upserted(table, day, a + b).Keys;
  }

  lemma UpsertedNothing(table: Table, day: Day)
    ensures Upserted(table, day, map[]) == table
  {
    assert Upserted(table, day, map[]).Keys == table.Keys;
  }

  /** Saving a day's rows adds that day, if there are any, and forgets no day. */
  lemma RowDaysAfterSave(db: Db, day: Day, rows: seq<Row>)
    ensures RowDays(SaveSales(db, day, rows)) == RowDays(db) + if rows == [] then {} else {day}
  {
    var after := SaveSales(db, day, rows);
    if rows == [] {
      UpsertedNothing(db.sales, day);
    } else {
      var href := rows[|rows| - 1].href;
      assert (day, href) in after.sales;
      assert forall key :: key in db.sales ==> key in after.sales;
    }
  }

  /** The same save again changes nothing. */
  lemma SaveIdempotent(db: Db, day: Day, rows: seq<Row>)
    ensures SaveSales(SaveSales(db, day, rows), day, rows) == SaveSales(db, day, rows)
  {
    UpsertedTwice(db.sales, day, Latest(rows), Latest(rows));
    assert Latest(rows) + Latest(rows) == Latest(rows);
  }

  // ---- coverage --------------------------------------------------------------

  datatype Coverage = Coverage(
    capturedDays: nat,
    gapDays: nat,
    first: Option<Day>,
    last: Option<Day>,
    gaps: seq<Day>)

  /** The days of `[first, last]` that are not in `captured`, in calendar order. */
  function Missing(captured: set<Day>, first: Day, last: Day): seq<Day>
    decreases last + 1 - first
  {
    if first > last then []
    else Missing(captured, first, last - 1) + if last in captured then [] else [last]
  }

  ghost predicate Spans(days: set<Day>, first: Day, last: Day) {
    && first in days && last in days
    && forall d :: d in days ==> first <= d <= last
  }

  /** The report over these marks lists `day` as a gap (before it is cut to `maxGaps`). */
  ghost predicate Reported(captured: set<Day>, day: Day) {
    exists first, last :: Spans(captured, first, last) && day in Missing(captured, first, last)
  }

  ghost predicate MarkBelow(captured: set<Day>, day: Day) { exists d :: d in captured && d < day }

  ghost predicate MarkAbove(captured: set<Day>, day: Day) { exists d :: d in captured && day < d }

  lemma {:induction false} SpanExists(days: set<Day>) returns (first: Day, last: Day)
    requires days != {}
    ensures Spans(days, first, last)
    decreases |days|
  {
    var d := Any(days);
    var others := days - {d};
    assert forall e :: e in days <==> e == d || e in others;
    first, last := d, d;
    if others != {} {
      var lo, hi := SpanExists(others);
      first, last := if d < lo then d else lo, if d > hi then d else hi;
    }
  }

  /** The report walks from the first mark to the last, so an unmarked day outside them is not in it. */
  lemma ReportedIff(captured: set<Day>, day: Day)
    requires day !in captured
    ensures Reported(captured, day) <==> MarkBelow(captured, day) && MarkAbove(captured, day)
  {
    hide Missing;
    if Reported(captured, day) {
      var first, last :| Spans(captured, first, last) && day in Missing(captured, first, last);
      MissingExactly(captured, first, last);
    }
    if MarkBelow(captured, day) && MarkAbove(captured, day) {
      var first, last := SpanExists(captured);
      MissingExactly(captured, first, last);
    }
  }

  lemma {:induction false} MissingExactly(captured: set<Day>, first: Day, last: Day)
    ensures forall d :: d in Missing(captured, first, last) <==> first <= d <= last && d !in captured
    ensures forall i, j :: 0 <= i < j < |Missing(captured, first, last)| ==>
              Missing(captured, first, last)[i] < Missing(captured, first, last)[j]
    decreases last + 1 - first
  {
    if first <= last {
      MissingExactly(captured, first, last - 1);
      var before, all := Missing(captured, first, last - 1), Missing(captured, first, last);
      forall i, j | 0 <= i < j < |all|
        ensures all[i] < all[j]
      {
        assert before[i] in before;
      }
    }
  }

  /** Captured and missing days partition the calendar between the two ends. */
  lemma {:induction false} MissingCount(captured: set<Day>, first: Day, last: Day)
    requires forall d :: d in captured ==> first <= d <= last
    requires first <= last + 1
    ensures |captured| + |Missing(captured, first, last)| == last + 1 - first
    decreases last + 1 - first
  {
    if first > last {
      assert forall d :: d !in captured;
      assert captured == {};
    } else {
      MissingCount(captured - {last}, first, last - 1);
      MissingSame(captured, captured - {last}, first, last - 1);
    }
  }

  lemma {:induction false} MissingSame(a: set<Day>, b: set<Day>, first: Day, last: Day)
    requires forall d :: first <= d <= last ==> (d in a <==> d in b)
    ensures Missing(a, first, last) == Missing(b, first, last)
    decreases last + 1 - first
  {
    if first <= last {
      MissingSame(a, b, first, last - 1);
    }
  }

  class Store {
    var stock: Table
    var sales: Table
    var captures: map<Day, nat>

    ghost function View(): Db
      reads this
    {
      Db(stock, sales, captures)
    }

    constructor ()
      ensures View() == EMPTY
    {
      stock, sales, captures := map[], map[], map[];
    }

    /** `_upsert`, for either table: one transaction of 500-row statements. */
    method Upsert(table: Table, day: Day, rows: seq<Row>) returns (result: Table, n: nat)
      ensures result == Upserted(table, day, Latest(rows))
      ensures n == |rows|
    {
      result, n := table, |rows|;
      if rows == [] {
        UpsertedNothing(table, day);
        return;
      }
      var chunks := Chunks(rows, 500);
      ChunksCover(rows, 500);
      UpsertedNothing(table, day);
      assert chunks[..0] == [];
      for i := 0 to |chunks|
        invariant result == Upserted(table, day, Latest(Flatten(chunks[..i])))
      {
        assert chunks[..i + 1][..i] == chunks[..i];
        LatestConcat(Flatten(chunks[..i]), chunks[i]);
        UpsertedTwice(table, day, Latest(Flatten(chunks[..i])), Latest(chunks[i]));
        result := Upserted(result, day, Latest(chunks[i]));
      }
      assert chunks[..|chunks|] == chunks;
    }

    method SaveSalesRows(day: Day, rows: seq<Row>) returns (n: nat)
      modifies this
      ensures View() == SaveSales(old(View()), day, rows) && n == |rows|
    {
      sales, n := Upsert(sales, day, rows);
    }

    method SaveStockRows(day: Day, rows: seq<Row>) returns (n: nat)
      modifies this
      ensures View() == SaveStock(old(View()), day, rows) && n == |rows|
    {
      stock, n := Upsert(stock, day, rows);
    }

    method MarkSalesCaptured(day: Day, rows: nat)
      modifies this
      ensures View() == Mark(old(View()), day, rows)
    {
      captures := captures[day := rows];
    }

    /** `select max(snapshot_date)` over the rows, not over the marks. */
    method LatestSalesDate() returns (last: Option<Day>)
      ensures last == LatestSales(View())
    {
      var keys := sales.Keys;
      last := None;
      ghost var done: set<Day> := {};
      while keys != {}
        invariant keys <= sales.Keys
        invariant done <= RowDays(View())
        invariant forall key :: key in sales && key !in keys ==> key.0 in done
        invariant last == LatestOf(done)
      {
        var key := Pick(keys);
        keys := keys - {key};
        assert key.0 in RowDays(View());
        LatestOfAdd(done, key.0);
        done := done + {key.0};
        if last == None || key.0 > last.value {
          last := Some(key.0);
        }
      }
      assert done == RowDays(View());
    }

    /** `sales_coverage`: the calendar walked from the first mark to the last. */
    method SalesCoverage(maxGaps: int) returns (c: Coverage)
      ensures captures == map[] ==> c == Coverage(0, 0, None, None, [])
      ensures captures != map[] ==>
                && c.first.Some? && c.last.Some? && Spans(captures.Keys, c.first.value, c.last.value)
                && c.capturedDays == |captures|
                && c.gapDays == |Missing(captures.Keys, c.first.value, c.last.value)|
                && c.gaps == Prefix(Missing(captures.Keys, c.first.value, c.last.value), maxGaps)
    {
      if captures == map[] {
        return Coverage(0, 0, None, None, []);
      }
      var days := captures.Keys;
      var first := Pick(days);
      var last := first;
      days := days - {first};
      while days != {}
        invariant days < captures.Keys
        invariant Spans(captures.Keys - days, first, last)
      {
        var d := Pick(days);
        assert forall e :: e in captures.Keys - (days - {d}) <==> e in captures.Keys - days || e == d;
        days := days - {d};
        first, last := if d < first then d else first, if d > last then d else last;
      }
      assert captures.Keys - days == captures.Keys;
      var gaps: seq<Day> := [];
      var day := first;
      while day <= last
        invariant first <= day <= last + 1
        invariant gaps == Missing(captures.Keys, first, day - 1)
      {
        if day !in captures {
          gaps := gaps + [day];
        }
        day := day + 1;
      }
      return Coverage(|captures.Keys|, |gaps|, Some(first), Some(last), Prefix(gaps, maxGaps));
    }
  }

  // ---- the latest day with rows ------------------------------------------------

  ghost function MaxOf(days: set<Day>): (m: Day)
    requires days != {}
    ensures m in days && forall d :: d in days ==> d <= m
    decreases |days|
  {
    var d := Any(days);
    var others := days - {d};
    assert forall e :: e in days <==> e == d || e in others;
    if others == {} then d else var m := MaxOf(others); if d > m then d else m
  }

  ghost function LatestOf(days: set<Day>): (last: Option<Day>)
    ensures last == None <==> days == {}
    ensures last.Some? ==> last.value in days && forall d :: d in days ==> d <= last.value
  {
    if days == {} then None else Some(MaxOf(days))
  }

  ghost function LatestSales(db: Db): Option<Day> { LatestOf(RowDays(db)) }

  lemma LatestOfAdd(days: set<Day>, d: Day)
    ensures LatestOf(days + {d}) == Some(if days == {} || d > LatestOf(days).value then d else LatestOf(days).value)
  {
    var last := LatestOf(days + {d});
    assert d in days + {d};
  }
}
