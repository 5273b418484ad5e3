/**
 What any run of captures adds up to: exactly which days are marked when every
 capture completes, and what survives captures that are cut short anywhere.
 */
module Backfill {
  import opened Basics
  import opened Sums
  import opened HistoryStore
  import opened Snapshot

  /** One firing of the job; `budget` says how far it gets. */
  datatype Event = Event(today: Day, feed: Feed, budget: nat)

  ghost function Run(maxBackfillDays: int, events: seq<Event>): Db {
    if events == [] then EMPTY
    else
      var e := events[|events| - 1];
      Capture(Run(maxBackfillDays, events[..|events| - 1]), e.today, maxBackfillDays, e.feed, e.budget).db
  }

  ghost function OutcomeAt(maxBackfillDays: int, events: seq<Event>, i: nat): Outcome
    requires i < |events|
  {
    var e := events[i];
    Capture(Run(maxBackfillDays, events[..i]), e.today, maxBackfillDays, e.feed, e.budget)
  }

  ghost predicate Forward(events: seq<Event>) {
    forall i, j :: 0 <= i < j < |events| ==> events[i].today <= events[j].today
  }

  ghost predicate AllComplete(maxBackfillDays: int, events: seq<Event>) {
    forall i :: 0 <= i < |events| ==> OutcomeAt(maxBackfillDays, events, i).end == Completed
  }

  /** Days with rows but without a mark. */
  ghost function Orphans(db: Db): set<Day> { RowDays(db) - db.captures.Keys }

  lemma DaysAre(first: Day, end: Day)
    ensures forall d :: d in Days(first, end) <==> first <= d <= end
    ensures forall i, j :: 0 <= i < j < |Days(first, end)| ==> Days(first, end)[i] < Days(first, end)[j]
  {
    forall d | first <= d <= end
      ensures d in Days(first, end)
    {
      assert Days(first, end)[d - first] == d;
    }
  }

  /** What a capture may do to the store: grow it on the days it fetches. */
  ghost predicate Grows(db: Db, out: Outcome, days: seq<Day>) {
    && out.fetched <= days
    && (out.end == Completed ==> out.fetched == days)
    && RowsGrow(RowDays(db), RowDays(out.db), out.fetched)
    && MarksGrow(db.captures.Keys, out.db.captures.Keys, out.fetched, out.end)
    && Orphans(out.db) <= Orphans(db) + JustSaved(out.end)
  }

  ghost predicate RowsGrow(was: set<Day>, now: set<Day>, fetched: seq<Day>) {
    was <= now && forall d :: d in now ==> d in was || d in fetched
  }

  ghost predicate MarksGrow(was: set<Day>, now: set<Day>, fetched: seq<Day>, end: End) {
    RowsGrow(was, now, fetched) && (end == Completed ==> forall d :: d in fetched ==> d in now)
  }

  function JustSaved(end: End): set<Day> { if end.SavedUnmarked? then {end.day} else {} }

  lemma OnlySalesHoldRows(db: Db, today: Day, rows: seq<Row>, n: nat)
    ensures RowDays(SaveStock(db, today, rows)) == RowDays(db)
    ensures RowDays(Mark(db, today, n)) == RowDays(db)
    ensures RowDays(EMPTY) == {} && Latest([]) == map[]
  {
  }

  lemma {:induction false} RowsDoGrow(db: Db, days: seq<Day>, feed: Feed, budget: nat)
    ensures var out := CaptureSales(db, days, feed, budget);
            RowsGrow(RowDays(db), RowDays(out.db), out.fetched)
    decreases |days|
  {
    hide Upserted, Latest, RowDays, Distinct;
    if days != [] && budget >= 2 {
      var day, rows := days[0], feed.sales(days[0]);
      RowDaysAfterSave(db, day, rows);
      if budget >= 3 {
        var saved := SaveSales(db, day, rows);
        OnlySalesHoldRows(saved, day, rows, Distinct(rows));
        RowsDoGrow(Mark(saved, day, Distinct(rows)), days[1..], feed, budget - 3);
      }
    }
  }

  lemma {:induction false} OrphansGrow(db: Db, days: seq<Day>, feed: Feed, budget: nat)
    ensures var out := CaptureSales(db, days, feed, budget);
            Orphans(out.db) <= Orphans(db) + JustSaved(out.end)
    decreases |days|
  {
    hide Upserted, Latest, RowDays;
    if days != [] && budget >= 2 {
      var day, rows := days[0], feed.sales(days[0]);
      RowDaysAfterSave(db, day, rows);
      if budget >= 3 {
        var saved := SaveSales(db, day, rows);
        OnlySalesHoldRows(saved, day, rows, Distinct(rows));
        OrphansGrow(Mark(saved, day, Distinct(rows)), days[1..], feed, budget - 3);
      }
    }
  }

  // ---- how far a capture gets -------------------------------------------------

  function Least(a: int, b: int): int { if a < b then a else b }

  ghost predicate Ascending(days: seq<Day>) { forall a, b :: 0 <= a < b < |days| ==> days[a] < days[b] }

  /** The first `n` of the days, or all of them. */
  function First(days: seq<Day>, n: nat): seq<Day> { days[..Least(|days|, n)] }

  /** The steps left for the sales days: fetch, save and mark for each of them. */
  function SalesSteps(db: Db, today: Day, budget: nat): nat {
    if HasStock(db, today) then budget else if budget < 2 then 0 else budget - 2
  }

  function EndOf(days: seq<Day>, steps: nat): End {
    if 3 * |days| <= steps then Completed
    else if steps % 3 == 2 then SavedUnmarked(days[steps / 3])
    else Interrupted
  }

  lemma FirstCons(days: seq<Day>, n: nat)
    requires days != [] && n >= 1
    ensures First(days, n) == [days[0]] + First(days[1..], n - 1)
    ensures Elements(First(days, n)) == {days[0]} + Elements(First(days[1..], n - 1))
  {
    assert First(days, n) == [days[0]] + First(days[1..], n - 1);
  }

  lemma MarkedAfterSave(db: Db, day: Day, rows: seq<Row>, n: nat)
    ensures Mark(SaveSales(db, day, rows), day, n).captures.Keys == db.captures.Keys + {day}
    ensures SaveSales(db, day, rows).captures == db.captures
  {
  }

  /** Three steps a day: where the capture ends … */
  lemma {:induction false} SalesEnd(db: Db, days: seq<Day>, feed: Feed, steps: nat)
    ensures CaptureSales(db, days, feed, steps).end == EndOf(days, steps)
    decreases |days|
  {
    hide SaveSales, Distinct, Mark;
    if days != [] && steps >= 3 {
      var day, rows := days[0], feed.sales(days[0]);
      SalesEnd(Mark(SaveSales(db, day, rows), day, Distinct(rows)), days[1..], feed, steps - 3);
    }
  }

  /** … what it fetches … */
  lemma {:induction false} SalesFetched(db: Db, days: seq<Day>, feed: Feed, steps: nat)
    ensures CaptureSales(db, days, feed, steps).fetched == First(days, (steps + 2) / 3)
    decreases |days|
  {
    hide SaveSales, Distinct, Mark, First, Elements;
    NoneFirst(days);
    if days != [] && steps >= 1 {
      FirstCons(days, (steps + 2) / 3);
      NoneFirst(days[1..]);
      if steps >= 3 {
        var day, rows := days[0], feed.sales(days[0]);
        SalesFetched(Mark(SaveSales(db, day, rows), day, Distinct(rows)), days[1..], feed, steps - 3);
      }
    }
  }

  /** … what it marks … */
  lemma {:induction false} SalesMarks(db: Db, days: seq<Day>, feed: Feed, steps: nat)
    ensures CaptureSales(db, days, feed, steps).db.captures.Keys
         == db.captures.Keys + Elements(First(days, steps / 3))
    decreases |days|
  {
    hide SaveSales, Distinct, Mark, First, Elements;
    NoneFirst(days);
    NoElements();
    if days != [] {
      var day, rows := days[0], feed.sales(days[0]);
      MarkedAfterSave(db, day, rows, Distinct(rows));
      if steps >= 3 {
        SalesMarks(Mark(SaveSales(db, day, rows), day, Distinct(rows)), days[1..], feed, steps - 3);
        FirstCons(days, steps / 3);
      }
    }
  }

  lemma NoElements()
    ensures Elements<Day>([]) == {}
  {
  }

  /** `now` is `was` with exactly the fed rows of the saved days added. */
  ghost predicate Adds(was: Table, now: Table, saved: seq<Day>, feed: Feed) {
    && Kept(was, now)
    && (forall day, href :: (day, href) in now && (day, href) !in was ==>
          day in saved && href in Latest(feed.sales(day)))
    && (forall day, href :: day in saved && href in Latest(feed.sales(day)) ==>
          (day, href) in now && now[(day, href)] == Latest(feed.sales(day))[href])
  }

  ghost predicate Kept(was: Table, now: Table) { forall key :: key in was ==> key in now && now[key] == was[key] }

  lemma SaveAdds(db: Db, day: Day, rows: seq<Row>)
    requires day !in RowDays(db)
    ensures var now := SaveSales(db, day, rows).sales;
            && Kept(db.sales, now)
            && (forall key :: key in now && key !in db.sales ==> key.0 == day && key.1 in Latest(rows))
            && (forall href :: href in Latest(rows) ==> (day, href) in now && now[(day, href)] == Latest(rows)[href])
  {
    hide Latest;
  }

  /** One more saved day before the others. */
  lemma AddsCons(was: Table, mid: Table, now: Table, day: Day, rest: seq<Day>, feed: Feed)
    requires Kept(was, mid)
    requires forall key :: key in mid && key !in was ==> key.0 == day && key.1 in Latest(feed.sales(day))
    requires forall href :: href in Latest(feed.sales(day)) ==>
               (day, href) in mid && mid[(day, href)] == Latest(feed.sales(day))[href]
    requires Adds(mid, now, rest, feed)
    ensures Adds(was, now, [day] + rest, feed)
  {
    hide Latest;
    assert forall d :: d in [day] + rest <==> d == day || d in rest;
  }

  lemma AddsNothing(table: Table, feed: Feed)
    ensures Adds(table, table, [], feed)
  {
  }

  /** … and which rows it adds. */
  lemma {:induction false} SalesAdd(db: Db, days: seq<Day>, feed: Feed, steps: nat)
    requires Ascending(days) && forall d :: d in days ==> d !in RowDays(db)
    ensures Adds(db.sales, CaptureSales(db, days, feed, steps).db.sales, First(days, (steps + 1) / 3), feed)
    decreases |days|
  {
    hide SaveSales, Mark, Distinct, RowDays, Latest, First, Elements, Adds;
    NoneFirst(days);
    AddsNothing(db.sales, feed);
    if days != [] && steps >= 2 {
      var day, rows := days[0], feed.sales(days[0]);
      var saved := SaveSales(db, day, rows);
      assert day in days;
      SaveAdds(db, day, rows);
      FirstCons(days, (steps + 1) / 3);
      NoneFirst(days[1..]);
      AddsNothing(saved.sales, feed);
      var rest := CaptureSales(Mark(saved, day, Distinct(rows)), days[1..], feed, if steps > 2 then steps - 3 else 0);
      MarkKeepsRows(saved, day, Distinct(rows));
      if steps > 2 {
        SaveOrphans(db, day, rows, Distinct(rows));
        assert forall d :: d in days[1..] ==> d in days && d != day;
        SalesAdd(Mark(saved, day, Distinct(rows)), days[1..], feed, steps - 3);
        AddsCons(db.sales, saved.sales, rest.db.sales, day, First(days[1..], (steps - 2) / 3), feed);
      } else {
        AddsCons(db.sales, saved.sales, saved.sales, day, [], feed);
      }
    }
  }

  lemma MarkKeepsRows(db: Db, day: Day, n: nat)
    ensures Mark(db, day, n).sales == db.sales
  {
  }

  lemma NoneFirst(days: seq<Day>)
    ensures First(days, 0) == [] && forall n: nat :: First([], n) == []
  {
  }

  lemma FirstGrows(days: seq<Day>, n: nat, m: nat)
    requires n <= m
    ensures First(days, m) <= days
    ensures forall d :: d in First(days, n) ==> d in First(days, m)
    ensures |days| <= n ==> First(days, n) == days
  {
    assert First(days, n) <= First(days, m);
  }

  lemma SalesGrow(db: Db, days: seq<Day>, feed: Feed, budget: nat)
    ensures Grows(db, CaptureSales(db, days, feed, budget), days)
  {
    hide CaptureSales, RowDays;
    SalesEnd(db, days, feed, budget);
    SalesFetched(db, days, feed, budget);
    RowsDoGrow(db, days, feed, budget);
    SalesMarks(db, days, feed, budget);
    FirstGrows(days, budget / 3, (budget + 2) / 3);
    OrphansGrow(db, days, feed, budget);
  }

  lemma CaptureGrows(db: Db, today: Day, maxBackfillDays: int, feed: Feed, budget: nat)
    ensures Grows(db, Capture(db, today, maxBackfillDays, feed, budget), SalesDays(db, today, maxBackfillDays))
  {
    hide CaptureSales, RowDays, Upserted, Latest, LatestOf, Days, RowsGrow, MarksGrow;
    var days := SalesDays(db, today, maxBackfillDays);
    OnlySalesHoldRows(db, today, feed.stock, 0);
    if HasStock(db, today) {
      SalesGrow(db, days, feed, budget);
    } else if budget >= 2 {
      SalesGrow(SaveStock(db, today, feed.stock), days, feed, budget - 2);
    } else {
      NothingGrows(db);
    }
  }

  lemma NothingGrows(db: Db)
    ensures RowsGrow(RowDays(db), RowDays(db), []) && MarksGrow(db.captures.Keys, db.captures.Keys, [], Interrupted)
  {
  }

  lemma StepGrows(maxBackfillDays: int, events: seq<Event>, i: nat)
    requires i < |events|
    ensures var before := Run(maxBackfillDays, events[..i]);
            var out := OutcomeAt(maxBackfillDays, events, i);
            && Run(maxBackfillDays, events[..i + 1]) == out.db
            && Grows(before, out, SalesDays(before, events[i].today, maxBackfillDays))
  {
    assert events[..i + 1][..i] == events[..i];
    var e := events[i];
    CaptureGrows(Run(maxBackfillDays, events[..i]), e.today, maxBackfillDays, e.feed, e.budget);
  }

  /** A capture only fetches days after every day with rows, in order. */
  lemma FreshDays(db: Db, today: Day, maxBackfillDays: int)
    ensures Ascending(SalesDays(db, today, maxBackfillDays))
    ensures forall d :: d in SalesDays(db, today, maxBackfillDays) ==> d !in RowDays(db)
  {
    hide RowDays, Days;
    DaysAre(FirstDay(today, maxBackfillDays, LatestSales(db)), today - 1);
  }

  /** `out` is what `steps` steps over `days` do to the store. */
  ghost predicate GoesAsFar(db: Db, days: seq<Day>, feed: Feed, steps: nat, out: Outcome) {
    && out.end == EndOf(days, steps)
    && out.fetched == First(days, (steps + 2) / 3)
    && out.db.captures.Keys == db.captures.Keys + Elements(First(days, steps / 3))
    && Adds(db.sales, out.db.sales, First(days, (steps + 1) / 3), feed)
  }

  lemma SalesGoAsFar(db: Db, days: seq<Day>, feed: Feed, steps: nat)
    requires Ascending(days) && forall d :: d in days ==> d !in RowDays(db)
    ensures GoesAsFar(db, days, feed, steps, CaptureSales(db, days, feed, steps))
  {
    hide CaptureSales, RowDays, Ascending, First, EndOf, Elements, Adds;
    SalesEnd(db, days, feed, steps);
    SalesFetched(db, days, feed, steps);
    SalesMarks(db, days, feed, steps);
    SalesAdd(db, days, feed, steps);
  }

  /** Neither today's stock nor the number of rows written matters to it. */
  lemma SameFar(db: Db, today: Day, rows: seq<Row>, days: seq<Day>, feed: Feed, steps: nat, out: Outcome, n: nat)
    requires GoesAsFar(SaveStock(db, today, rows), days, feed, steps, out)
    ensures GoesAsFar(db, days, feed, steps, out.(written := n))
  {
    hide EndOf, First, Elements, Adds;
  }

  /**
   What a capture does, from its inputs alone: where it ends, which of the missing days
   it fetches, marks and saves, and that it adds the fed rows and changes no other.
   */
  lemma CaptureExactly(db: Db, today: Day, maxBackfillDays: int, feed: Feed, budget: nat)
    ensures var out := Capture(db, today, maxBackfillDays, feed, budget);
            if HasStock(db, today) || budget >= 2 then
              GoesAsFar(db, SalesDays(db, today, maxBackfillDays), feed, SalesSteps(db, today, budget), out)
            else out == Outcome(db, [], 0, Interrupted)
  {
    hide CaptureSales, RowDays, Upserted, Latest, SalesDays, Ascending, GoesAsFar;
    var days, steps := SalesDays(db, today, maxBackfillDays), SalesSteps(db, today, budget);
    FreshDays(db, today, maxBackfillDays);
    OnlySalesHoldRows(db, today, feed.stock, 0);
    if HasStock(db, today) {
      SalesGoAsFar(db, days, feed, steps);
    } else if budget >= 2 {
      var rest := CaptureSales(SaveStock(db, today, feed.stock), days, feed, steps);
      SalesGoAsFar(SaveStock(db, today, feed.stock), days, feed, steps);
      SameFar(db, today, feed.stock, days, feed, steps, rest, Distinct(feed.stock) + rest.written);
    }
  }

  // ---- completed captures ---------------------------------------------------

  /** `d` lies in the window of one of the captures: the `N` days before it. */
  ghost predicate InSomeWindow(maxBackfillDays: int, events: seq<Event>, d: Day) {
    exists i :: 0 <= i < |events| && events[i].today - Window(maxBackfillDays) <= d < events[i].today
  }

  /** One completed capture, in terms of the marks alone. */
  lemma WindowsStep(maxBackfillDays: int, events: seq<Event>, was: set<Day>, now: set<Day>, last: Option<Day>)
    requires events != [] && Forward(events)
    requires forall d :: d in was <==> InSomeWindow(maxBackfillDays, events[..|events| - 1], d)
    requires last.Some? ==> last.value in was
    requires var today := events[|events| - 1].today;
             forall d :: d in now <==> d in was || FirstDay(today, maxBackfillDays, last) <= d < today
    ensures forall d :: d in now <==> InSomeWindow(maxBackfillDays, events, d)
  {
    var n, k := Window(maxBackfillDays), |events| - 1;
    var before, today := events[..k], events[k].today;
    forall d
      ensures d in now <==> InSomeWindow(maxBackfillDays, events, d)
    {
      if last.Some? && today - n <= d <= last.value {
        // Skipped as not after the latest row day, which lies in an earlier window.
        var j :| 0 <= j < k && before[j].today - n <= last.value < before[j].today;
        assert events[j].today <= today;
        assert before[j].today - n <= d < before[j].today;
        assert d in was;
      }
      if d in was {
        var i :| 0 <= i < k && before[i].today - n <= d < before[i].today;
        assert events[i] == before[i];
      } else if d in now {
        assert events[k].today - n <= d < events[k].today;
      } else {
        assert forall i :: 0 <= i < k ==> before[i] == events[i];
      }
    }
  }

  /**
   Whatever days had no sales, the marked days are exactly the union of the windows:
   `[D1 - N, Dm - 1]` less every stretch `[Dk, Dk+1 - N - 1]` between two captures.
   */
  lemma {:induction false} MarkedAreWindows(maxBackfillDays: int, events: seq<Event>)
    requires Forward(events) && AllComplete(maxBackfillDays, events)
    ensures var db := Run(maxBackfillDays, events);
            && (forall d :: d in db.captures.Keys <==> InSomeWindow(maxBackfillDays, events, d))
            && RowDays(db) <= db.captures.Keys
    decreases |events|
  {
    hide Upserted, Latest, RowDays, Capture, InSomeWindow, FirstDay, Days;
    OnlySalesHoldRows(EMPTY, 0, [], 0);
    if events == [] {
      NoWindows(maxBackfillDays);
    } else {
      var k := |events| - 1;
      var before, today := events[..k], events[k].today;
      ForwardPrefix(maxBackfillDays, events);
      MarkedAreWindows(maxBackfillDays, before);
      StepGrows(maxBackfillDays, events, k);
      assert events[..k + 1] == events;
      var was, db := Run(maxBackfillDays, before), Run(maxBackfillDays, events);
      var last := LatestSales(was);
      DaysAre(FirstDay(today, maxBackfillDays, last), today - 1);
      assert OutcomeAt(maxBackfillDays, events, k).end == Completed;
      WindowsStep(maxBackfillDays, events, was.captures.Keys, db.captures.Keys, last);
    }
  }

  lemma NoWindows(maxBackfillDays: int)
    ensures forall d :: !InSomeWindow(maxBackfillDays, [], d)
  {
  }

  lemma ForwardPrefix(maxBackfillDays: int, events: seq<Event>)
    requires events != [] && Forward(events) && AllComplete(maxBackfillDays, events)
    ensures Forward(events[..|events| - 1]) && AllComplete(maxBackfillDays, events[..|events| - 1])
  {
    var before := events[..|events| - 1];
    forall i | 0 <= i < |before|
      ensures OutcomeAt(maxBackfillDays, before, i).end == Completed
    {
      assert before[..i] == events[..i];
      assert OutcomeAt(maxBackfillDays, before, i) == OutcomeAt(maxBackfillDays, events, i);
    }
  }

  /** The days between consecutive captures that the window could not reach. */
  function Unreached(maxBackfillDays: int, events: seq<Event>): nat {
    if |events| <= 1 then 0
    else
      Unreached(maxBackfillDays, events[..|events| - 1])
      + Max(0, events[|events| - 1].today - events[|events| - 2].today - Window(maxBackfillDays))
  }

  ghost function Range(first: Day, end: Day): set<Day> { set d {:trigger d - first} | first <= d <= end }

  lemma {:induction false} RangeSize(first: Day, end: Day)
    requires first <= end + 1
    ensures |Range(first, end)| == end + 1 - first
    decreases end + 1 - first
  {
    if first <= end {
      RangeSize(first, end - 1);
      assert Range(first, end) == Range(first, end - 1) + {end};
    } else {
      assert Range(first, end) == {};
    }
  }

  lemma {:induction false} MarkedCount(maxBackfillDays: int, events: seq<Event>)
    requires events != [] && Forward(events) && AllComplete(maxBackfillDays, events)
    ensures |Run(maxBackfillDays, events).captures| + Unreached(maxBackfillDays, events)
         == events[|events| - 1].today - events[0].today + Window(maxBackfillDays)
    decreases |events|
  {
    hide Upserted, Latest, RowDays, Capture, Run, AllComplete, OutcomeAt, InSomeWindow, Forward;
    var n, k := Window(maxBackfillDays), |events| - 1;
    var e, captures := events[k], Run(maxBackfillDays, events).captures;
    MarkedAreWindows(maxBackfillDays, events);
    if k == 0 {
      assert events[0] == e;
      forall d
        ensures d in captures.Keys <==> e.today - n <= d <= e.today - 1
      {
        OneWindow(maxBackfillDays, events, d);
      }
      AddRange({}, captures.Keys, e.today - n, e.today - 1);
    } else {
      var before := events[..k];
      ForwardPrefix(maxBackfillDays, events);
      MarkedCount(maxBackfillDays, before);
      MarkedAreWindows(maxBackfillDays, before);
      var was := Run(maxBackfillDays, before).captures;
      var from := Max(e.today - n, events[k - 1].today);
      assert from <= e.today by {
        WindowsSnoc(maxBackfillDays, events, 0);
      }
      forall d
        ensures d in captures.Keys <==> d in was.Keys || from <= d <= e.today - 1
        ensures !(d in was.Keys && from <= d <= e.today - 1)
      {
        WindowsSnoc(maxBackfillDays, events, d);
      }
      AddRange(was.Keys, captures.Keys, from, e.today - 1);
    }
  }

  lemma AddRange(was: set<Day>, now: set<Day>, first: Day, end: Day)
    requires first <= end + 1
    requires forall d :: d in now <==> d in was || first <= d <= end
    requires forall d :: !(d in was && first <= d <= end)
    ensures |now| == |was| + end + 1 - first
  {
    RangeSize(first, end);
    assert now == was + Range(first, end);
  }

  lemma OneWindow(maxBackfillDays: int, events: seq<Event>, d: Day)
    requires |events| == 1
    ensures InSomeWindow(maxBackfillDays, events, d)
       <==> events[0].today - Window(maxBackfillDays) <= d < events[0].today
  {
  }

  lemma WindowsSnoc(maxBackfillDays: int, events: seq<Event>, d: Day)
    requires |events| >= 2 && Forward(events)
    ensures var n, k := Window(maxBackfillDays), |events| - 1;
            var added := Max(events[k].today - n, events[k - 1].today) <= d < events[k].today;
            && (InSomeWindow(maxBackfillDays, events, d) <==> InSomeWindow(maxBackfillDays, events[..k], d) || added)
            && !(InSomeWindow(maxBackfillDays, events[..k], d) && added)
            && events[k - 1].today <= events[k].today
  {
    var n, k := Window(maxBackfillDays), |events| - 1;
    var before := events[..k];
    if InSomeWindow(maxBackfillDays, before, d) {
      var i :| 0 <= i < k && before[i].today - n <= d < before[i].today;
      assert events[i] == before[i] && before[i].today <= events[k - 1].today;
    }
    if events[k].today - n <= d < events[k].today && d < events[k - 1].today {
      assert before[k - 1].today - n <= d < before[k - 1].today;
    }
    if InSomeWindow(maxBackfillDays, events, d) {
      var i :| 0 <= i <= k && events[i].today - n <= d < events[i].today;
      assert i < k ==> before[i] == events[i];
    }
  }

  lemma WindowsSpan(maxBackfillDays: int, events: seq<Event>, days: set<Day>)
    requires events != [] && Forward(events)
    requires forall d :: d in days <==> InSomeWindow(maxBackfillDays, events, d)
    ensures Spans(days, events[0].today - Window(maxBackfillDays), events[|events| - 1].today - 1)
  {
    var n, k := Window(maxBackfillDays), |events| - 1;
    var first, last := events[0].today - n, events[k].today - 1;
    assert events[0].today - n <= first < events[0].today;
    assert events[k].today - n <= last < events[k].today;
    forall d | d in days
      ensures first <= d <= last
    {
      var i :| 0 <= i < |events| && events[i].today - n <= d < events[i].today;
    }
  }

  /** The coverage report after such a run, in closed form. */
  lemma CoverageAfterRun(maxBackfillDays: int, events: seq<Event>)
    requires events != [] && Forward(events) && AllComplete(maxBackfillDays, events)
    ensures var captured := Run(maxBackfillDays, events).captures.Keys;
            var first, last := events[0].today - Window(maxBackfillDays), events[|events| - 1].today - 1;
            && Spans(captured, first, last)
            && |Missing(captured, first, last)| == Unreached(maxBackfillDays, events)
            && |captured| + |Missing(captured, first, last)| == last - first + 1
  {
    hide RowDays, Run, AllComplete, InSomeWindow, Forward, Missing, Unreached;
    var captured := Run(maxBackfillDays, events).captures.Keys;
    MarkedAreWindows(maxBackfillDays, events);
    WindowsSpan(maxBackfillDays, events, captured);
    MissingCount(captured, events[0].today - Window(maxBackfillDays), events[|events| - 1].today - 1);
    MarkedCount(maxBackfillDays, events);
  }

  // ---- any mix of completed and interrupted captures ------------------------------

  lemma {:induction false} RowDaysGrow(maxBackfillDays: int, events: seq<Event>, i: nat, j: nat)
    requires i <= j <= |events|
    ensures RowDays(Run(maxBackfillDays, events[..i])) <= RowDays(Run(maxBackfillDays, events[..j]))
    decreases j
  {
    hide Upserted, Latest, RowDays, Capture;
    if i < j {
      RowDaysGrow(maxBackfillDays, events, i, j - 1);
      StepGrows(maxBackfillDays, events, j - 1);
    }
  }

  lemma FetchesFollowRows(maxBackfillDays: int, events: seq<Event>, j: nat)
    requires j < |events|
    ensures forall row, day ::
              row in RowDays(Run(maxBackfillDays, events[..j])) && day in OutcomeAt(maxBackfillDays, events, j).fetched
              ==> day > row
  {
    hide Upserted, Latest, RowDays, Capture;
    StepGrows(maxBackfillDays, events, j);
    var was := Run(maxBackfillDays, events[..j]);
    DaysAre(FirstDay(events[j].today, maxBackfillDays, LatestSales(was)), events[j].today - 1);
  }

  /** Once a day has rows, neither it nor any earlier day is ever fetched again. */
  lemma NeverRefetched(maxBackfillDays: int, events: seq<Event>, i: nat, j: nat)
    requires i <= j < |events|
    ensures forall row, day ::
              row in RowDays(Run(maxBackfillDays, events[..i])) && day in OutcomeAt(maxBackfillDays, events, j).fetched
              ==> day > row
  {
    hide RowDays, OutcomeAt;
    RowDaysGrow(maxBackfillDays, events, i, j);
    FetchesFollowRows(maxBackfillDays, events, j);
  }

  /** Within one capture the days come in order, so none is fetched twice there either. */
  lemma FetchedInOrder(maxBackfillDays: int, events: seq<Event>, j: nat)
    requires j < |events|
    ensures Ascending(OutcomeAt(maxBackfillDays, events, j).fetched)
  {
    hide Upserted, Latest, RowDays, Capture;
    StepGrows(maxBackfillDays, events, j);
    var was := Run(maxBackfillDays, events[..j]);
    DaysAre(FirstDay(events[j].today, maxBackfillDays, LatestSales(was)), events[j].today - 1);
  }

  /** How many captures were cut between a save and its mark. */
  ghost function UnmarkedSaves(maxBackfillDays: int, events: seq<Event>): nat {
    if events == [] then 0
    else
      UnmarkedSaves(maxBackfillDays, events[..|events| - 1])
      + if OutcomeAt(maxBackfillDays, events, |events| - 1).end.SavedUnmarked? then 1 else 0
  }

  lemma {:induction false} OrphansBounded(maxBackfillDays: int, events: seq<Event>)
    ensures |Orphans(Run(maxBackfillDays, events))| <= UnmarkedSaves(maxBackfillDays, events)
    decreases |events|
  {
    hide Upserted, Latest, RowDays, Capture;
    OnlySalesHoldRows(EMPTY, 0, [], 0);
    if events != [] {
      var k := |events| - 1;
      OrphansBounded(maxBackfillDays, events[..k]);
      StepGrows(maxBackfillDays, events, k);
      assert events[..k + 1] == events;
      var bound := Orphans(Run(maxBackfillDays, events[..k])) + JustSaved(OutcomeAt(maxBackfillDays, events, k).end);
      SubsetSize(Orphans(Run(maxBackfillDays, events)), bound);
    }
  }

  /** What is saved is frozen: no later capture changes or removes a row. */
  lemma {:induction false} RowsFrozen(maxBackfillDays: int, events: seq<Event>, i: nat, j: nat)
    requires i <= j <= |events|
    ensures Kept(Run(maxBackfillDays, events[..i]).sales, Run(maxBackfillDays, events[..j]).sales)
    decreases j
  {
    hide Capture, SalesDays, First, EndOf, Elements;
    if i < j {
      RowsFrozen(maxBackfillDays, events, i, j - 1);
      assert events[..j][..j - 1] == events[..j - 1];
      var e := events[j - 1];
      CaptureExactly(Run(maxBackfillDays, events[..j - 1]), e.today, maxBackfillDays, e.feed, e.budget);
    }
  }

  /**
   An orphan is never repaired: its day has rows, so it is not fetched again, so no
   later capture marks it.
   */
  lemma {:induction false} OrphansStay(maxBackfillDays: int, events: seq<Event>, i: nat, j: nat)
    requires i <= j <= |events|
    ensures Orphans(Run(maxBackfillDays, events[..i])) <= Orphans(Run(maxBackfillDays, events[..j]))
    decreases j
  {
    hide Upserted, Latest, RowDays, Capture;
    if i < j {
      OrphansStay(maxBackfillDays, events, i, j - 1);
      StepGrows(maxBackfillDays, events, j - 1);
      FetchesFollowRows(maxBackfillDays, events, j - 1);
    }
  }

  /** Capture `k` gets as far as marking a day. */
  ghost predicate MarksADay(maxBackfillDays: int, events: seq<Event>, k: nat)
    requires k < |events|
  {
    var db, e := Run(maxBackfillDays, events[..k]), events[k];
    SalesDays(db, e.today, maxBackfillDays) != [] && SalesSteps(db, e.today, e.budget) >= 3
  }

  ghost predicate SomeMarksADay(maxBackfillDays: int, events: seq<Event>, i: nat, j: nat)
    requires j <= |events|
  {
    exists k :: i <= k < j && MarksADay(maxBackfillDays, events, k)
  }

  /** One capture's marks around a day that already has rows. */
  lemma MarksAround(db: Db, today: Day, maxBackfillDays: int, feed: Feed, budget: nat, day: Day)
    requires day in RowDays(db)
    ensures var now := Capture(db, today, maxBackfillDays, feed, budget).db.captures.Keys;
            && (MarkBelow(now, day) <==> MarkBelow(db.captures.Keys, day))
            && (MarkAbove(now, day) <==>
                  MarkAbove(db.captures.Keys, day)
                  || (SalesDays(db, today, maxBackfillDays) != [] && SalesSteps(db, today, budget) >= 3))
  {
    hide Capture, RowDays, EndOf, Adds, Days, FirstDay, LatestSales;
    var days, steps := SalesDays(db, today, maxBackfillDays), SalesSteps(db, today, budget);
    var marked := First(days, steps / 3);
    var now := Capture(db, today, maxBackfillDays, feed, budget).db.captures.Keys;
    CaptureExactly(db, today, maxBackfillDays, feed, budget);
    DaysFollowRows(db, today, maxBackfillDays, day);
    assert forall d :: d in marked ==> d in days;
    assert forall d :: d in now <==> d in db.captures.Keys || d in marked;
    if days != [] && steps >= 3 {
      assert marked[0] in marked && marked[0] in days;
      assert marked[0] in now && day < marked[0];
    }
  }

  lemma DaysFollowRows(db: Db, today: Day, maxBackfillDays: int, day: Day)
    requires day in RowDays(db)
    ensures forall d :: d in SalesDays(db, today, maxBackfillDays) ==> d > day
  {
    hide RowDays, Days;
    DaysAre(FirstDay(today, maxBackfillDays, LatestSales(db)), today - 1);
  }

  lemma {:induction false} MarksAroundRun(maxBackfillDays: int, events: seq<Event>, i: nat, j: nat, day: Day)
    requires i <= j <= |events| && day in RowDays(Run(maxBackfillDays, events[..i]))
    ensures var was := Run(maxBackfillDays, events[..i]).captures.Keys;
            var now := Run(maxBackfillDays, events[..j]).captures.Keys;
            && (MarkBelow(now, day) <==> MarkBelow(was, day))
            && (MarkAbove(now, day) <==> MarkAbove(was, day) || SomeMarksADay(maxBackfillDays, events, i, j))
    decreases j
  {
    hide Capture, RowDays, MarkBelow, MarkAbove, SalesDays;
    if i < j {
      MarksAroundRun(maxBackfillDays, events, i, j - 1, day);
      RowDaysGrow(maxBackfillDays, events, i, j - 1);
      assert events[..j][..j - 1] == events[..j - 1];
      var e := events[j - 1];
      MarksAround(Run(maxBackfillDays, events[..j - 1]), e.today, maxBackfillDays, e.feed, e.budget, day);
      assert SomeMarksADay(maxBackfillDays, events, i, j)
        <==> SomeMarksADay(maxBackfillDays, events, i, j - 1) || MarksADay(maxBackfillDays, events, j - 1);
    }
  }

  /**
   The coverage report lists an orphan exactly when some earlier day was marked by the
   time it was orphaned, and some later day was by then or a later capture got as far as
   marking one. Without an earlier mark it is never listed.
   */
  lemma OrphanReportedIff(maxBackfillDays: int, events: seq<Event>, i: nat, day: Day)
    requires i <= |events| && day in Orphans(Run(maxBackfillDays, events[..i]))
    ensures var was := Run(maxBackfillDays, events[..i]).captures.Keys;
            var listed := Reported(Run(maxBackfillDays, events).captures.Keys, day);
            listed <==>
              MarkBelow(was, day) && (MarkAbove(was, day) || SomeMarksADay(maxBackfillDays, events, i, |events|))
  {
    hide RowDays, Run, Reported, MarkBelow, MarkAbove, SomeMarksADay;
    assert events[..|events|] == events;
    OrphansStay(maxBackfillDays, events, i, |events|);
    MarksAroundRun(maxBackfillDays, events, i, |events|, day);
    ReportedIff(Run(maxBackfillDays, events).captures.Keys, day);
  }

  /**
   The day that a run of `steps` steps over `days` is cut behind, if it has sales and
   no mark: two steps into a day its rows are saved and its mark is not.
   */
  ghost function CutBehind(db: Db, days: seq<Day>, feed: Feed, steps: nat): set<Day> {
    if steps % 3 == 2 && steps / 3 < |days|
       && feed.sales(days[steps / 3]) != [] && days[steps / 3] !in db.captures
    then {days[steps / 3]}
    else {}
  }

  /** The day a capture leaves behind with rows and no mark, if any, told before it starts. */
  ghost function LeftUnmarked(db: Db, today: Day, maxBackfillDays: int, feed: Feed, budget: nat): set<Day> {
    CutBehind(db, SalesDays(db, today, maxBackfillDays), feed, SalesSteps(db, today, budget))
  }

  lemma {:induction false} SalesOrphans(db: Db, days: seq<Day>, feed: Feed, budget: nat)
    requires Ascending(days) && forall d :: d in days ==> d !in RowDays(db)
    ensures Orphans(CaptureSales(db, days, feed, budget).db) == Orphans(db) + CutBehind(db, days, feed, budget)
    decreases |days|
  {
    hide RowDays, Distinct, SaveSales, Mark, Orphans, CutBehind;
    if days == [] || budget <= 2 {
      CutBehindFirst(db, days, feed, budget);
    }
    if days != [] && budget >= 2 {
      var day, rows := days[0], feed.sales(days[0]);
      assert day in days;
      SaveOrphans(db, day, rows, Distinct(rows));
      if budget >= 3 {
        var marked := Mark(SaveSales(db, day, rows), day, Distinct(rows));
        assert forall d :: d in days[1..] ==> d in days && d != day;
        SalesOrphans(marked, days[1..], feed, budget - 3);
        CutBehindLater(db, marked, days, feed, budget);
      }
    }
  }

  lemma CutBehindFirst(db: Db, days: seq<Day>, feed: Feed, steps: nat)
    requires days == [] || steps <= 2
    ensures CutBehind(db, days, feed, steps)
         == if days != [] && steps == 2 && feed.sales(days[0]) != [] && days[0] !in db.captures then {days[0]} else {}
  {
  }

  lemma CutBehindLater(db: Db, marked: Db, days: seq<Day>, feed: Feed, steps: nat)
    requires Ascending(days) && days != [] && steps >= 3
    requires marked.captures.Keys == db.captures.Keys + {days[0]}
    ensures CutBehind(db, days, feed, steps) == CutBehind(marked, days[1..], feed, steps - 3)
  {
    var k := steps / 3;
    if k < |days| {
      assert days[k] == days[1..][k - 1] && days[0] < days[k];
    }
  }

  /** Saving an unmarked day with rows orphans it until it is marked. */
  lemma SaveOrphans(db: Db, day: Day, rows: seq<Row>, n: nat)
    requires day !in RowDays(db)
    ensures var saved := SaveSales(db, day, rows);
            var marked := Mark(saved, day, n);
            && Orphans(saved) == Orphans(db) + (if rows != [] && day !in db.captures then {day} else {})
            && Orphans(marked) == Orphans(db)
            && marked.captures.Keys == db.captures.Keys + {day}
            && RowDays(marked) <= RowDays(db) + {day}
  {
    hide Upserted, Latest, RowDays;
    RowDaysAfterSave(db, day, rows);
    OnlySalesHoldRows(SaveSales(db, day, rows), day, rows, n);
  }

  lemma OnlyMarksCount(db: Db, other: Db, days: seq<Day>, feed: Feed, steps: nat)
    requires db.captures == other.captures
    ensures CutBehind(db, days, feed, steps) == CutBehind(other, days, feed, steps)
    ensures CutBehind(db, days, feed, 0) == {}
  {
  }

  lemma CaptureOrphans(db: Db, today: Day, maxBackfillDays: int, feed: Feed, budget: nat)
    ensures var out := Capture(db, today, maxBackfillDays, feed, budget);
            Orphans(out.db) == Orphans(db) + LeftUnmarked(db, today, maxBackfillDays, feed, budget)
  {
    hide CaptureSales, RowDays, Upserted, Latest, SalesDays, Ascending, CutBehind;
    var days := SalesDays(db, today, maxBackfillDays);
    FreshDays(db, today, maxBackfillDays);
    OnlySalesHoldRows(db, today, feed.stock, 0);
    OnlyMarksCount(db, SaveStock(db, today, feed.stock), days, feed, SalesSteps(db, today, budget));
    if HasStock(db, today) {
      SalesOrphans(db, days, feed, budget);
    } else if budget >= 2 {
      SalesOrphans(SaveStock(db, today, feed.stock), days, feed, budget - 2);
    }
  }

  /** Capture `i` of the run leaves no day with rows newly unmarked. */
  ghost predicate LeavesNone(maxBackfillDays: int, events: seq<Event>, i: nat)
    requires i < |events|
  {
    var e := events[i];
    LeftUnmarked(Run(maxBackfillDays, events[..i]), e.today, maxBackfillDays, e.feed, e.budget) == {}
  }

  ghost predicate NoneLeftUnmarked(maxBackfillDays: int, events: seq<Event>) {
    forall i :: 0 <= i < |events| ==> LeavesNone(maxBackfillDays, events, i)
  }

  lemma NoneLeftSnoc(maxBackfillDays: int, events: seq<Event>)
    requires events != []
    ensures NoneLeftUnmarked(maxBackfillDays, events)
       <==> NoneLeftUnmarked(maxBackfillDays, events[..|events| - 1])
            && LeavesNone(maxBackfillDays, events, |events| - 1)
  {
    hide LeftUnmarked, Run, Capture;
    var before := events[..|events| - 1];
    forall i | 0 <= i < |before|
      ensures LeavesNone(maxBackfillDays, before, i) == LeavesNone(maxBackfillDays, events, i)
    {
      assert before[..i] == events[..i] && before[i] == events[i];
    }
  }

  /**
   Every day with rows is marked exactly when no capture is given just enough steps to
   save a day with sales that has no mark yet, and not the step that marks it.
   */
  lemma {:induction false} MarksTrueIff(maxBackfillDays: int, events: seq<Event>)
    ensures Orphans(Run(maxBackfillDays, events)) == {} <==> NoneLeftUnmarked(maxBackfillDays, events)
    decreases |events|
  {
    hide RowDays, Capture, LeftUnmarked, NoneLeftUnmarked, Orphans;
    if events == [] {
      NothingLeft(maxBackfillDays);
    } else {
      var k := |events| - 1;
      var before, e := events[..k], events[k];
      MarksTrueIff(maxBackfillDays, before);
      CaptureOrphans(Run(maxBackfillDays, before), e.today, maxBackfillDays, e.feed, e.budget);
      NoneLeftSnoc(maxBackfillDays, events);
    }
  }

  lemma NothingLeft(maxBackfillDays: int)
    ensures Orphans(EMPTY) == {} && NoneLeftUnmarked(maxBackfillDays, [])
  {
  }

  /** One sale yesterday, and the first capture ever stops after saving it. */
  function CutAfterSave(row: Row): seq<Event> { [Event(1, Feed([], d => [row]), 4)] }

  /** It does happen: a day with rows and no mark, and no mark at all. */
  lemma OrphanExample(row: Row)
    ensures Orphans(Run(1, CutAfterSave(row))) == {0} && Run(1, CutAfterSave(row)).captures.Keys == {}
  {
    hide Upserted, Latest, Orphans, RowDays, Days, SalesDays, Adds, EndOf;
    var events := CutAfterSave(row);
    var feed := events[0].feed;
    assert events[..0] == [];
    FirstCaptureDays();
    NothingLeft(1);
    CaptureOrphans(EMPTY, 1, 1, feed, 4);
    CaptureExactly(EMPTY, 1, 1, feed, 4);
    assert LeftUnmarked(EMPTY, 1, 1, feed, 4) == {0};
  }

  /** That day is never reported, however the run goes on, and never stops being an orphan. */
  lemma ExampleNeverReported(row: Row, more: seq<Event>)
    ensures 0 in Orphans(Run(1, CutAfterSave(row) + more))
    ensures !Reported(Run(1, CutAfterSave(row) + more).captures.Keys, 0)
  {
    hide Orphans, Run, Reported, SomeMarksADay;
    var first := CutAfterSave(row);
    var events := first + more;
    assert events[..1] == first && events[..|events|] == events;
    OrphanExample(row);
    OrphansStay(1, events, 1, |events|);
    OrphanReportedIff(1, events, 1, 0);
  }

  lemma FirstCaptureDays()
    ensures SalesDays(EMPTY, 1, 1) == [0] && !HasStock(EMPTY, 1)
  {
    OnlySalesHoldRows(EMPTY, 1, [], 0);
    assert LatestSales(EMPTY) == None;
    assert Days(0, 0) == [0];
  }

  // ---- stock ---------------------------------------------------------------------

  /** `now` is `was` with exactly these rows of `day` added. */
  ghost predicate AddsDay(was: Table, now: Table, day: Day, rows: map<string, Columns>) {
    && Kept(was, now)
    && (forall key :: key in now && key !in was ==> key.0 == day && key.1 in rows)
    && (forall href :: href in rows ==> (day, href) in now && now[(day, href)] == rows[href])
  }

  /**
   Stock is taken once a day. A row of today means that nothing is stored; otherwise the
   first two steps store exactly the rows that were fed, whatever other days hold.
   */
  lemma StockTakenOnce(db: Db, today: Day, maxBackfillDays: int, feed: Feed, budget: nat)
    ensures var stock := Capture(db, today, maxBackfillDays, feed, budget).db.stock;
            && ((exists href :: (today, href) in db.stock) ==> stock == db.stock)
            && ((forall href :: (today, href) !in db.stock) && budget < 2 ==> stock == db.stock)
            && ((forall href :: (today, href) !in db.stock) && budget >= 2 ==>
                  AddsDay(db.stock, stock, today, Latest(feed.stock)))
  {
    hide Capture, Latest, HasStock, AddsDay;
    TodaysStock(db, today);
    StockAfter(db, today, maxBackfillDays, feed, budget);
    if forall href :: (today, href) !in db.stock {
      StockAdds(db, today, feed.stock);
    }
  }

  lemma StockAfter(db: Db, today: Day, maxBackfillDays: int, feed: Feed, budget: nat)
    ensures Capture(db, today, maxBackfillDays, feed, budget).db.stock
         == if HasStock(db, today) || budget < 2 then db.stock else SaveStock(db, today, feed.stock).stock
  {
    hide CaptureSales, Upserted, Latest, SalesDays, HasStock;
    var days := SalesDays(db, today, maxBackfillDays);
    KeepsStock(db, days, feed, budget);
    if budget >= 2 {
      KeepsStock(SaveStock(db, today, feed.stock), days, feed, budget - 2);
    }
  }

  lemma StockAdds(db: Db, today: Day, rows: seq<Row>)
    requires forall href :: (today, href) !in db.stock
    ensures AddsDay(db.stock, SaveStock(db, today, rows).stock, today, Latest(rows))
  {
    hide Latest;
  }

  lemma TodaysStock(db: Db, today: Day)
    ensures HasStock(db, today) <==> exists href :: (today, href) in db.stock
  {
    if key :| key in db.stock && key.0 == today {
      assert (today, key.1) in db.stock;
    }
  }

  /** A completed capture leaves today's stock in the table, unless the API has none. */
  lemma StockIsThere(db: Db, today: Day, maxBackfillDays: int, feed: Feed, budget: nat, href: string)
    requires href in Latest(feed.stock) && forall h :: (today, h) !in db.stock
    ensures var out := Capture(db, today, maxBackfillDays, feed, budget);
            out.end == Completed ==>
              (today, href) in out.db.stock && out.db.stock[(today, href)] == Latest(feed.stock)[href]
  {
    hide CaptureSales, Latest, SalesDays, Upserted;
    TodaysStock(db, today);
    StockTakenOnce(db, today, maxBackfillDays, feed, budget);
  }

  /** What a completed capture reports as written is what the two tables have grown by. */
  lemma WrittenCounts(db: Db, today: Day, maxBackfillDays: int, feed: Feed, budget: nat)
    requires Capture(db, today, maxBackfillDays, feed, budget).end == Completed
    ensures var out := Capture(db, today, maxBackfillDays, feed, budget);
            out.written == |out.db.stock| - |db.stock| + |out.db.sales| - |db.sales|
  {
    hide CaptureSales, RowDays, Upserted, Latest, SalesDays, Ascending;
    var days := SalesDays(db, today, maxBackfillDays);
    FreshDays(db, today, maxBackfillDays);
    OnlySalesHoldRows(db, today, feed.stock, 0);
    TodaysStock(db, today);
    KeepsStock(db, days, feed, budget);
    if HasStock(db, today) {
      SalesWritten(db, days, feed, budget);
    } else {
      KeepsStock(SaveStock(db, today, feed.stock), days, feed, budget - 2);
      SalesWritten(SaveStock(db, today, feed.stock), days, feed, budget - 2);
      NewRows(db.stock, today, Latest(feed.stock));
    }
  }

  /** An upsert of a new day grows the table by its products. */
  lemma NewRows(table: Table, day: Day, rows: map<string, Columns>)
    requires forall href :: (day, href) !in table
    ensures |Upserted(table, day, rows)| == |table| + |rows|
  {
    hide Upserted;
    var now, added := Upserted(table, day, rows), KeysOf(day, rows.Keys);
    UpsertedKeys(table, day, rows);
    assert table.Keys !! added;
    SameSize(day, rows.Keys);
    assert |now| == |now.Keys| && |table| == |table.Keys| && |rows| == |rows.Keys|;
  }

  lemma UpsertedKeys(table: Table, day: Day, rows: map<string, Columns>)
    ensures Upserted(table, day, rows).Keys == table.Keys + KeysOf(day, rows.Keys)
  {
  }

  function KeysOf(day: Day, hrefs: set<string>): set<(Day, string)> { set href | href in hrefs :: (day, href) }

  lemma {:induction false} SameSize(day: Day, hrefs: set<string>)
    ensures |KeysOf(day, hrefs)| == |hrefs|
    decreases |hrefs|
  {
    if hrefs == {} {
      assert KeysOf(day, hrefs) == {};
    } else {
      var h := Any(hrefs);
      SameSize(day, hrefs - {h});
      assert KeysOf(day, hrefs) == KeysOf(day, hrefs - {h}) + {(day, h)};
    }
  }

  lemma {:induction false} SalesWritten(db: Db, days: seq<Day>, feed: Feed, budget: nat)
    requires Ascending(days) && forall d :: d in days ==> d !in RowDays(db)
    requires CaptureSales(db, days, feed, budget).end == Completed
    ensures var out := CaptureSales(db, days, feed, budget);
            out.written == |out.db.sales| - |db.sales|
    decreases |days|
  {
    hide RowDays, SaveSales, Mark, Distinct, Orphans;
    if days != [] {
      var day, rows := days[0], feed.sales(days[0]);
      assert day in days;
      var marked := Mark(SaveSales(db, day, rows), day, Distinct(rows));
      FreshRest(db, days, feed);
      DayWritten(db, day, rows);
      MarkKeepsRows(SaveSales(db, day, rows), day, Distinct(rows));
      SalesWritten(marked, days[1..], feed, budget - 3);
    }
  }

  /** The other days are still new once the first is stored. */
  lemma FreshRest(db: Db, days: seq<Day>, feed: Feed)
    requires Ascending(days) && days != [] && forall d :: d in days ==> d !in RowDays(db)
    ensures var day, rows := days[0], feed.sales(days[0]);
            var marked := Mark(SaveSales(db, day, rows), day, Distinct(rows));
            Ascending(days[1..]) && forall d :: d in days[1..] ==> d !in RowDays(marked)
  {
    hide RowDays, SaveSales, Mark, Distinct, Orphans;
    var day, rows := days[0], feed.sales(days[0]);
    assert day in days;
    SaveOrphans(db, day, rows, Distinct(rows));
    assert forall d :: d in days[1..] ==> d in days && d != day;
  }

  lemma DayWritten(db: Db, day: Day, rows: seq<Row>)
    requires day !in RowDays(db)
    ensures |SaveSales(db, day, rows).sales| == |db.sales| + Distinct(rows)
  {
    hide Latest, Upserted;
    NewRows(db.sales, day, Latest(rows));
  }

  // ---- the same day again --------------------------------------------------------

  /** Every fetched day is marked with the number of its rows, and has those rows. */
  lemma {:induction false} SalesStored(db: Db, days: seq<Day>, feed: Feed, budget: nat, d: Day)
    requires forall i, j :: 0 <= i < j < |days| ==> days[i] < days[j]
    requires CaptureSales(db, days, feed, budget).end == Completed && d in days
    ensures var after := CaptureSales(db, days, feed, budget).db;
            && d in after.captures && after.captures[d] == Distinct(feed.sales(d))
            && (feed.sales(d) != [] ==> d in RowDays(after))
    decreases |days|
  {
    hide Upserted, Latest, RowDays, Distinct;
    var day, rows := days[0], feed.sales(days[0]);
    var saved := SaveSales(db, day, rows);
    var marked := Mark(saved, day, Distinct(rows));
    RowDaysAfterSave(db, day, rows);
    OnlySalesHoldRows(saved, day, rows, Distinct(rows));
    assert days == [day] + days[1..];
    if d == day {
      RowsDoGrow(marked, days[1..], feed, budget - 3);
      SalesUntouched(marked, days[1..], feed, budget - 3, d);
    } else {
      SalesStored(marked, days[1..], feed, budget - 3, d);
    }
  }

  lemma {:induction false} SalesUntouched(db: Db, days: seq<Day>, feed: Feed, budget: nat, d: Day)
    requires d !in days && d in db.captures
    ensures var after := CaptureSales(db, days, feed, budget).db;
            d in after.captures && after.captures[d] == db.captures[d]
    decreases |days|
  {
    if days != [] && budget >= 3 {
      var day, rows := days[0], feed.sales(days[0]);
      assert d != day && d !in days[1..];
      SalesUntouched(Mark(SaveSales(db, day, rows), day, Distinct(rows)), days[1..], feed, budget - 3, d);
    }
  }

  ghost predicate MarkedZeros(db: Db, days: seq<Day>, feed: Feed) {
    forall d :: d in days ==> feed.sales(d) == [] && d in db.captures && db.captures[d] == 0
  }

  function Beyond(steps: nat, days: nat): nat { if steps > 3 * days then steps - 3 * days else 0 }

  /** Refetching days that still have no sales takes their steps and changes nothing. */
  lemma {:induction false} ZerosFirst(db: Db, zeros: seq<Day>, days: seq<Day>, feed: Feed, steps: nat)
    requires MarkedZeros(db, zeros, feed)
    ensures var out, rest := CaptureSales(db, zeros + days, feed, steps),
                             CaptureSales(db, days, feed, Beyond(steps, |zeros|));
            out.db == rest.db && out.written == rest.written
    decreases |zeros|
  {
    hide SaveSales, Mark, Distinct;
    var all := zeros + days;
    if zeros == [] {
      assert all == days;
    } else {
      assert all[0] == zeros[0] && all[1..] == zeros[1..] + days;
      ZeroDay(db, zeros[0]);
      NoSteps(db, days, feed);
      if steps >= 3 {
        ZerosFirst(db, zeros[1..], days, feed, steps - 3);
      }
    }
  }

  lemma NoSteps(db: Db, days: seq<Day>, feed: Feed)
    ensures var out := CaptureSales(db, days, feed, 0); out.db == db && out.written == 0
    ensures forall steps: nat :: CaptureSales(db, [], feed, steps) == Outcome(db, [], 0, Completed)
  {
  }

  lemma ZeroDay(db: Db, day: Day)
    ensures SaveSales(db, day, []) == db && Distinct([]) == 0
    ensures day in db.captures && db.captures[day] == 0 ==> Mark(db, day, 0) == db
  {
    UpsertedNothing(db.sales, day);
  }

  /** The job is idempotent: the same day again, on the same data, writes nothing. */
  lemma CaptureIdempotent(db: Db, today: Day, maxBackfillDays: int, feed: Feed, budget: nat, again: nat)
    requires Capture(db, today, maxBackfillDays, feed, budget).end == Completed
    ensures var once := Capture(db, today, maxBackfillDays, feed, budget).db;
            var twice := Capture(once, today, maxBackfillDays, feed, again);
            twice.db == once && twice.written == 0
  {
    hide Upserted, Latest, RowDays, CaptureSales, SalesDays;
    var base := if HasStock(db, today) then db else SaveStock(db, today, feed.stock);
    var room: nat := if HasStock(db, today) then budget else budget - 2;
    var days := SalesDays(db, today, maxBackfillDays);
    OnlySalesHoldRows(db, today, feed.stock, 0);
    var once := CaptureSales(base, days, feed, room).db;
    KeepsStock(base, days, feed, room);
    SameDaysEmpty(base, db, today, maxBackfillDays, feed, room);
    StockAgain(db, today, feed, once);
    var later := SalesDays(once, today, maxBackfillDays);
    assert later + [] == later;
    NoSteps(once, later, feed);
    ZerosFirst(once, later, [], feed, again);
    if again >= 2 {
      ZerosFirst(once, later, [], feed, again - 2);
    }
  }

  /** What the second capture of a day would fetch, the first has found without sales. */
  lemma SameDaysEmpty(base: Db, db: Db, today: Day, maxBackfillDays: int, feed: Feed, budget: nat)
    requires RowDays(base) == RowDays(db)
    requires CaptureSales(base, SalesDays(db, today, maxBackfillDays), feed, budget).end == Completed
    ensures var once := CaptureSales(base, SalesDays(db, today, maxBackfillDays), feed, budget).db;
            forall d :: d in SalesDays(once, today, maxBackfillDays) ==>
              feed.sales(d) == [] && d in once.captures && once.captures[d] == 0
  {
    hide Upserted, Latest, RowDays, CaptureSales;
    var days := SalesDays(db, today, maxBackfillDays);
    var once := CaptureSales(base, days, feed, budget).db;
    DaysAre(FirstDay(today, maxBackfillDays, LatestSales(db)), today - 1);
    DaysAre(FirstDay(today, maxBackfillDays, LatestSales(once)), today - 1);
    RowsDoGrow(base, days, feed, budget);
    OnlySalesHoldRows(db, today, [], 0);
    forall d | d in SalesDays(once, today, maxBackfillDays)
      ensures feed.sales(d) == [] && d in once.captures && once.captures[d] == 0
    {
      assert LatestSales(db).Some? ==> LatestSales(db).value in RowDays(once);
      SalesStored(base, days, feed, budget, d);
    }
  }

  /** The days a later capture fetches: first those before `today` again, then the new ones. */
  lemma SplitDays(db: Db, today: Day, later: Day, maxBackfillDays: int)
    requires today <= later
    ensures var first := FirstDay(later, maxBackfillDays, LatestSales(db));
            var again := Days(first, today - 1);
            && SalesDays(db, later, maxBackfillDays) == again + Days(Max(first, today), later - 1)
            && forall d :: d in again ==> d in SalesDays(db, today, maxBackfillDays)
  {
    var last := LatestSales(db);
    var first := FirstDay(later, maxBackfillDays, last);
    DaysAre(first, today - 1);
    DaysAre(FirstDay(today, maxBackfillDays, last), today - 1);
  }

  /**
   A completed capture leaves only days without sales to be fetched again. If they still
   have none, a capture on a later day does what one that starts at the new days does,
   with the steps that the refetched days have left it.
   */
  lemma LaterCaptureStartsFresh(db: Db, today: Day, maxBackfillDays: int, feed: Feed, budget: nat,
                                later: Day, again: Feed, room: nat)
    requires Capture(db, today, maxBackfillDays, feed, budget).end == Completed && today <= later
    requires forall d :: d < today ==> again.sales(d) == feed.sales(d)
    ensures var once := Capture(db, today, maxBackfillDays, feed, budget).db;
            var first := FirstDay(later, maxBackfillDays, LatestSales(once));
            var base := if HasStock(once, later) then once else SaveStock(once, later, again.stock);
            var steps := Beyond(SalesSteps(once, later, room), |Days(first, today - 1)|);
            HasStock(once, later) || room >= 2 ==>
              Capture(once, later, maxBackfillDays, again, room).db
                == CaptureSales(base, Days(Max(first, today), later - 1), again, steps).db
  {
    hide Upserted, Latest, RowDays, CaptureSales, SalesDays, Days, FirstDay, LatestSales;
    var once := Capture(db, today, maxBackfillDays, feed, budget).db;
    var zeros := Days(FirstDay(later, maxBackfillDays, LatestSales(once)), today - 1);
    var base := if HasStock(once, later) then once else SaveStock(once, later, again.stock);
    RefetchedAreZeros(db, today, maxBackfillDays, feed, budget);
    SplitDays(once, today, later, maxBackfillDays);
    DaysAre(FirstDay(later, maxBackfillDays, LatestSales(once)), today - 1);
    assert MarkedZeros(base, zeros, again);
    ZerosFirst(base, zeros, Days(Max(FirstDay(later, maxBackfillDays, LatestSales(once)), today), later - 1), again,
               SalesSteps(once, later, room));
  }

  lemma RefetchedAreZeros(db: Db, today: Day, maxBackfillDays: int, feed: Feed, budget: nat)
    requires Capture(db, today, maxBackfillDays, feed, budget).end == Completed
    ensures var once := Capture(db, today, maxBackfillDays, feed, budget).db;
            MarkedZeros(once, SalesDays(once, today, maxBackfillDays), feed)
  {
    hide Upserted, Latest, RowDays, CaptureSales, SalesDays;
    OnlySalesHoldRows(db, today, feed.stock, 0);
    if HasStock(db, today) {
      SameDaysEmpty(db, db, today, maxBackfillDays, feed, budget);
    } else {
      SameDaysEmpty(SaveStock(db, today, feed.stock), db, today, maxBackfillDays, feed, budget - 2);
    }
  }

  lemma {:induction false} KeepsStock(db: Db, days: seq<Day>, feed: Feed, budget: nat)
    ensures CaptureSales(db, days, feed, budget).db.stock == db.stock
    decreases |days|
  {
    hide Upserted, Latest;
    if days != [] && budget >= 3 {
      var day, rows := days[0], feed.sales(days[0]);
      KeepsStock(Mark(SaveSales(db, day, rows), day, Distinct(rows)), days[1..], feed, budget - 3);
    }
  }

  lemma StockAgain(db: Db, today: Day, feed: Feed, once: Db)
    requires once.stock == if HasStock(db, today) then db.stock else SaveStock(db, today, feed.stock).stock
    ensures HasStock(once, today) || (feed.stock == [] && SaveStock(once, today, feed.stock) == once)
  {
    if feed.stock == [] {
      UpsertedNothing(once.stock, today);
    } else if !HasStock(db, today) {
      var href := feed.stock[|feed.stock| - 1].href;
      assert (today, href) in once.stock;
    }
  }
}
