/**
 Demand statistics (chic/history/olap.py): the zero-fill query, its reading as a
 plain dense series, and what the figures then satisfy. Spread is stated as the
 variance; its square root is left to the engine.
 */
module DemandStats {
  import opened Basics
  import opened Sums

  /** Product ids: only their equality matters. */
  type Product = int
  datatype Row = Row(date: int, product: Product, qty: real)

  // ---- the query ---------------------------------------------------------------

  function AllDates(rows: seq<Row>): set<int> { set r | r in rows :: r.date }

  function Products(rows: seq<Row>): set<Product> { set r | r in rows :: r.product }

  /** `min(snapshot_date)` of the product's own rows. */
  function FirstDate(rows: seq<Row>, p: Product): Option<int> {
    if rows == [] then None
    else
      var before, r := FirstDate(rows[..|rows| - 1], p), rows[|rows| - 1];
      if r.product == p && (before.None? || r.date < before.value) then Some(r.date) else before
  }

  type SpineRow = (Product, int)
  datatype FilledRow = FilledRow(product: Product, date: int, qty: real)

  /** `first_seen JOIN all_dates`: every product with every input date from its first sale on. */
  function Spine(rows: seq<Row>): set<SpineRow> {
    set p, d | p in Products(rows) && d in DatesFrom(rows, p) :: (p, d)
  }

  function DatesFrom(rows: seq<Row>, p: Product): set<int> {
    set d | d in AllDates(rows) && FirstDate(rows, p).Some? && FirstDate(rows, p).value <= d
  }

  /** An engine may visit the rows of a relation in any order. */
  ghost predicate Visits<T>(order: seq<T>, rows: set<T>) { NoRepeats(order) && Elements(order) == rows }

  /** The join partners of one spine row: the product's rows of that date. */
  function Matches(rows: seq<Row>, p: Product, date: int): seq<real> {
    if rows == [] then []
    else
      var r := rows[|rows| - 1];
      Matches(rows[..|rows| - 1], p, date) + if r.product == p && r.date == date then [r.qty] else []
  }

  /** LEFT JOIN … COALESCE(…, 0.0): the joined quantities of one spine row. */
  function JoinedOn(rows: seq<Row>, p: Product, date: int): seq<real> {
    if Matches(rows, p, date) == [] then [0.0] else Matches(rows, p, date)
  }

  function Tagged(s: SpineRow, quantities: seq<real>): seq<FilledRow> {
    seq(|quantities|, i requires 0 <= i < |quantities| => FilledRow(s.0, s.1, quantities[i]))
  }

  /** `filled`: the spine rows in the order they are visited, joined with the demand. */
  function Filled(rows: seq<Row>, order: seq<SpineRow>): seq<FilledRow> {
    if order == [] then []
    else
      var s := order[|order| - 1];
      Filled(rows, order[..|order| - 1]) + Tagged(s, JoinedOn(rows, s.0, s.1))
  }

  /** `GROUP BY product_href`: the quantities of one product's filled rows. */
  function Group(filled: seq<FilledRow>, p: Product): seq<real> {
    if filled == [] then []
    else
      var f := filled[|filled| - 1];
      Group(filled[..|filled| - 1], p) + if f.product == p then [f.qty] else []
  }

  function Itself(x: real): real { x }

  function Square(x: real): real { x * x }

  function Deviation(mean: real): real -> real { x => (x - mean) * (x - mean) }

  datatype Stats = Stats(days: nat, mean: real, variance: real)

  /** count, avg and the square of stddev_pop. */
  function Aggregate(series: seq<real>): Stats
    requires series != []
  {
    var mean := SumBy(series, Itself) / |series| as real;
    Stats(|series|, mean, SumBy(series, Deviation(mean)) / |series| as real)
  }

  /** `demand_stats`, with the spine visited in some `order`: one record per product of the input. */
  ghost function DemandStats(rows: seq<Row>, order: seq<SpineRow>): (stats: map<Product, Stats>)
    requires Visits(order, Spine(rows))
    ensures stats.Keys == Products(rows)
  {
    map p | p in Products(rows) :: (GroupNonempty(rows, order, p); Aggregate(Group(Filled(rows, order), p)))
  }

  // ---- the reference: a dense series --------------------------------------------

  /** The primary key of the snapshot table. */
  ghost predicate Unique(rows: seq<Row>) {
    forall i, j :: 0 <= i < j < |rows| ==> rows[i].date != rows[j].date || rows[i].product != rows[j].product
  }

  /** The last date of the input. */
  function LastDate(rows: seq<Row>): Option<int> {
    if rows == [] then None
    else
      var before, r := LastDate(rows[..|rows| - 1]), rows[|rows| - 1];
      if before.None? || r.date > before.value then Some(r.date) else before
  }

  /** What the product sold on a date; a day without a row is a zero. */
  ghost function SoldOn(rows: seq<Row>, p: Product, date: int): real {
    if exists q :: Row(date, p, q) in rows then var q :| Row(date, p, q) in rows; q else 0.0
  }

  /** The product's sales on the input dates in `[first, last]`, in calendar order. */
  ghost function Dense(rows: seq<Row>, p: Product, first: int, last: int): seq<real>
    decreases last + 1 - first
  {
    if last < first then []
    else Dense(rows, p, first, last - 1) + if last in AllDates(rows) then [SoldOn(rows, p, last)] else []
  }

  /** The dense series of a product: from its first sale to the last input date. */
  ghost function Series(rows: seq<Row>, p: Product): seq<real> {
    var first, last := FirstDate(rows, p), LastDate(rows);
    if first.None? || last.None? then [] else Dense(rows, p, first.value, last.value)
  }

  // ---- dates --------------------------------------------------------------------

  lemma {:induction false} FirstDateIsMin(rows: seq<Row>, p: Product)
    ensures FirstDate(rows, p).None? <==> p !in Products(rows)
    ensures forall r :: r in rows && r.product == p ==> FirstDate(rows, p).Some? && FirstDate(rows, p).value <= r.date
    ensures FirstDate(rows, p).Some? ==> exists r :: r in rows && r.product == p && r.date == FirstDate(rows, p).value
  {
    if rows != [] {
      var before, last := rows[..|rows| - 1], rows[|rows| - 1];
      FirstDateIsMin(before, p);
      assert forall r :: r in rows <==> r in before || r == last;
    }
  }

  lemma {:induction false} LastDateIsMax(rows: seq<Row>)
    ensures forall r :: r in rows ==> LastDate(rows).Some? && r.date <= LastDate(rows).value
    ensures LastDate(rows).Some? ==> exists r :: r in rows && r.date == LastDate(rows).value
  {
    if rows != [] {
      var before, last := rows[..|rows| - 1], rows[|rows| - 1];
      LastDateIsMax(before);
      assert forall r :: r in rows <==> r in before || r == last;
    }
  }

  /** A product's span: its first date is an input date, not after the last one. */
  lemma Span(rows: seq<Row>, p: Product)
    requires p in Products(rows)
    ensures var first, last := FirstDate(rows, p), LastDate(rows);
            first.Some? && last.Some? && first.value <= last.value && first.value in AllDates(rows)
    ensures forall r :: r in rows && r.product == p ==> FirstDate(rows, p).value <= r.date <= LastDate(rows).value
  {
    FirstDateIsMin(rows, p);
    LastDateIsMax(rows);
  }

  // ---- the product's part of the query ----------------------------------------------

  /** The dates on which the visited spine rows are the product's, in that order. */
  function DatesOf(order: seq<SpineRow>, p: Product): seq<int> {
    if order == [] then []
    else
      var s := order[|order| - 1];
      DatesOf(order[..|order| - 1], p) + if s.0 == p then [s.1] else []
  }

  /** Each of those dates contributes its joined quantities. */
  function JoinedDates(rows: seq<Row>, p: Product, dates: seq<int>): seq<real> {
    if dates == [] then []
    else JoinedDates(rows, p, dates[..|dates| - 1]) + JoinedOn(rows, p, dates[|dates| - 1])
  }

  lemma {:induction false} GroupConcat(a: seq<FilledRow>, b: seq<FilledRow>, p: Product)
    ensures Group(a + b, p) == Group(a, p) + Group(b, p)
    decreases |b|
  {
    if b == [] {
      assert a + b == a;
    } else {
      GroupConcat(a, b[..|b| - 1], p);
      assert (a + b)[..|a + b| - 1] == a + b[..|b| - 1];
    }
  }

  lemma {:induction false} GroupTagged(s: SpineRow, quantities: seq<real>, p: Product)
    ensures Group(Tagged(s, quantities), p) == if s.0 == p then quantities else []
    decreases |quantities|
  {
    if quantities != [] {
      var n := |quantities| - 1;
      GroupTagged(s, quantities[..n], p);
      assert Tagged(s, quantities)[..n] == Tagged(s, quantities[..n]);
      assert quantities == quantities[..n] + [quantities[n]];
    }
  }

  /** Filling and then grouping is joining on the product's own dates. */
  lemma {:induction false} GroupIsJoin(rows: seq<Row>, order: seq<SpineRow>, p: Product)
    ensures Group(Filled(rows, order), p) == JoinedDates(rows, p, DatesOf(order, p))
    decreases |order|
  {
    hide JoinedOn, Tagged, Group;
    if order == [] {
      NoGroup(p);
    } else {
      var before, s := order[..|order| - 1], order[|order| - 1];
      GroupIsJoin(rows, before, p);
      GroupConcat(Filled(rows, before), Tagged(s, JoinedOn(rows, s.0, s.1)), p);
      GroupTagged(s, JoinedOn(rows, s.0, s.1), p);
      if s.0 == p {
        assert (DatesOf(before, p) + [s.1])[..|DatesOf(before, p)|] == DatesOf(before, p);
      } else {
        assert DatesOf(order, p) == DatesOf(before, p);
      }
    }
  }

  lemma NoGroup(p: Product)
    ensures Group([], p) == []
  {
  }

  lemma {:induction false} DatesOfOrder(order: seq<SpineRow>, p: Product)
    ensures forall d :: d in DatesOf(order, p) <==> (p, d) in order
    ensures NoRepeats(order) ==> NoRepeats(DatesOf(order, p))
    decreases |order|
  {
    if order != [] {
      var before, s := order[..|order| - 1], order[|order| - 1];
      DatesOfOrder(before, p);
      assert forall r :: r in order <==> r in before || r == s;
      if NoRepeats(order) {
        assert NoRepeats(before);
        assert s !in before;
      }
    }
  }

  /** However the spine is visited, a product's dates are the input dates from its first sale on. */
  lemma SpineDates(rows: seq<Row>, order: seq<SpineRow>, p: Product)
    requires Visits(order, Spine(rows)) && p in Products(rows)
    ensures Visits(DatesOf(order, p), DatesFrom(rows, p))
  {
    hide DatesOf, NoRepeats;
    DatesOfOrder(order, p);
    forall d
      ensures d in DatesOf(order, p) <==> d in DatesFrom(rows, p)
    {
      assert (p, d) in order <==> (p, d) in Elements(order);
    }
    assert Elements(DatesOf(order, p)) == DatesFrom(rows, p);
  }

  lemma {:induction false} JoinedNonempty(rows: seq<Row>, p: Product, dates: seq<int>)
    ensures |JoinedDates(rows, p, dates)| >= |dates|
    decreases |dates|
  {
    if dates != [] {
      JoinedNonempty(rows, p, dates[..|dates| - 1]);
    }
  }

  lemma GroupNonempty(rows: seq<Row>, order: seq<SpineRow>, p: Product)
    requires Visits(order, Spine(rows)) && p in Products(rows)
    ensures Group(Filled(rows, order), p) != []
  {
    hide NoRepeats, Group, Filled, DatesOf, JoinedDates, FirstDate, LastDate, Spine;
    Span(rows, p);
    SpineDates(rows, order, p);
    GroupIsJoin(rows, order, p);
    JoinedNonempty(rows, p, DatesOf(order, p));
    assert FirstDate(rows, p).value in Elements(DatesOf(order, p));
  }

  // ---- refinement -----------------------------------------------------------------

  lemma {:induction false} MatchesFew(rows: seq<Row>, p: Product, date: int)
    requires Unique(rows)
    ensures (exists q :: Row(date, p, q) in rows) ==> Matches(rows, p, date) == [SoldOn(rows, p, date)]
    ensures !(exists q :: Row(date, p, q) in rows) ==> Matches(rows, p, date) == []
  {
    if rows != [] {
      var before, last := rows[..|rows| - 1], rows[|rows| - 1];
      MatchesFew(before, p, date);
      assert forall r :: r in rows <==> r in before || r == last;
      if last.product == p && last.date == date {
        assert last == Row(date, p, last.qty);
        assert forall q :: Row(date, p, q) in rows ==> q == last.qty;
      }
    }
  }

  function DatesIn(rows: seq<Row>, first: int, last: int): seq<int>
    decreases last + 1 - first
  {
    if last < first then [] else DatesIn(rows, first, last - 1) + if last in AllDates(rows) then [last] else []
  }

  lemma {:induction false} CalendarDates(rows: seq<Row>, first: int, last: int)
    ensures NoRepeats(DatesIn(rows, first, last))
    ensures forall d :: d in DatesIn(rows, first, last) <==> first <= d <= last && d in AllDates(rows)
    decreases last + 1 - first
  {
    hide AllDates;
    if first <= last {
      CalendarDates(rows, first, last - 1);
      assert last !in DatesIn(rows, first, last - 1);
    }
  }

  lemma JoinedIsSold(rows: seq<Row>, p: Product, date: int)
    requires Unique(rows)
    ensures JoinedOn(rows, p, date) == [SoldOn(rows, p, date)]
  {
    hide Unique, Matches;
    MatchesFew(rows, p, date);
  }

  /** On keyed rows, joining on the calendar's dates is the dense series. */
  lemma {:induction false} CalendarIsDense(rows: seq<Row>, p: Product, first: int, last: int)
    requires Unique(rows)
    ensures JoinedDates(rows, p, DatesIn(rows, first, last)) == Dense(rows, p, first, last)
    decreases last + 1 - first
  {
    hide Unique, AllDates, SoldOn, JoinedOn;
    if first <= last {
      CalendarIsDense(rows, p, first, last - 1);
      JoinedIsSold(rows, p, last);
      var before := DatesIn(rows, first, last - 1);
      assert (before + [last])[..|before|] == before;
      assert before + [] == before;
    }
  }

  lemma {:induction false} JoinedConcat(rows: seq<Row>, p: Product, a: seq<int>, b: seq<int>)
    ensures JoinedDates(rows, p, a + b) == JoinedDates(rows, p, a) + JoinedDates(rows, p, b)
    decreases |b|
  {
    hide JoinedOn;
    if b == [] {
      assert a + b == a;
    } else {
      JoinedConcat(rows, p, a, b[..|b| - 1]);
      assert (a + b)[..|a + b| - 1] == a + b[..|b| - 1];
    }
  }

  /** The order of the dates only changes the order of what they contribute. */
  lemma {:induction false} JoinedPermutation(rows: seq<Row>, p: Product, a: seq<int>, b: seq<int>)
    requires NoRepeats(a) && NoRepeats(b) && Elements(a) == Elements(b)
    ensures multiset(JoinedDates(rows, p, a)) == multiset(JoinedDates(rows, p, b))
    decreases |a|
  {
    hide JoinedOn, JoinedDates;
    ElementsSize(a);
    ElementsSize(b);
    if a != [] {
      var n, d := |a| - 1, a[|a| - 1];
      assert d in Elements(b);
      var i :| 0 <= i < |b| && b[i] == d;
      var fewer := b[..i] + b[i + 1..];
      DropDate(a, n, d);
      DropDate(b, i, d);
      assert a[..n] + a[n + 1..] == a[..n];
      JoinedPermutation(rows, p, a[..n], fewer);
      JoinedWithout(rows, p, a, n);
      JoinedWithout(rows, p, b, i);
    }
  }

  lemma DropDate(dates: seq<int>, i: nat, d: int)
    requires NoRepeats(dates) && i < |dates| && dates[i] == d
    ensures var fewer := dates[..i] + dates[i + 1..];
            NoRepeats(fewer) && Elements(fewer) == Elements(dates) - {d}
  {
    var fewer := dates[..i] + dates[i + 1..];
    assert dates == dates[..i] + [d] + dates[i + 1..];
    forall e
      ensures e in fewer <==> e in dates && e != d
    {
      assert e in fewer <==> e in dates[..i] || e in dates[i + 1..];
    }
  }

  lemma JoinedWithout(rows: seq<Row>, p: Product, dates: seq<int>, i: nat)
    requires i < |dates|
    ensures multiset(JoinedDates(rows, p, dates))
         == multiset(JoinedDates(rows, p, dates[..i] + dates[i + 1..])) + multiset(JoinedDates(rows, p, [dates[i]]))
  {
    hide JoinedDates;
    var a, x, b := dates[..i], [dates[i]], dates[i + 1..];
    assert dates == (a + x) + b;
    JoinedConcat(rows, p, a + x, b);
    JoinedConcat(rows, p, a, x);
    JoinedConcat(rows, p, a, b);
  }

  /**
   On rows keyed by date and product, and however the engine visits its rows, the query
   groups for each product exactly the quantities of its dense series.
   */
  lemma QueryIsDense(rows: seq<Row>, order: seq<SpineRow>, p: Product)
    requires Unique(rows) && Visits(order, Spine(rows)) && p in Products(rows)
    ensures multiset(Group(Filled(rows, order), p)) == multiset(Series(rows, p))
  {
    hide Unique, NoRepeats, Group, Filled, DatesOf, DatesIn, JoinedDates, FirstDate, LastDate, Spine, Products;
    Span(rows, p);
    SpineDates(rows, order, p);
    GroupIsJoin(rows, order, p);
    CalendarSpan(rows, p);
    var dates := DatesIn(rows, FirstDate(rows, p).value, LastDate(rows).value);
    JoinedPermutation(rows, p, DatesOf(order, p), dates);
    CalendarIsDense(rows, p, FirstDate(rows, p).value, LastDate(rows).value);
  }

  lemma CalendarSpan(rows: seq<Row>, p: Product)
    requires p in Products(rows) && FirstDate(rows, p).Some? && LastDate(rows).Some?
    ensures Visits(DatesIn(rows, FirstDate(rows, p).value, LastDate(rows).value), DatesFrom(rows, p))
  {
    hide FirstDate, LastDate, DatesIn, Products, NoRepeats;
    CalendarDates(rows, FirstDate(rows, p).value, LastDate(rows).value);
    LastDateIsMax(rows);
    var dates := DatesIn(rows, FirstDate(rows, p).value, LastDate(rows).value);
    assert forall d :: d in Elements(dates) <==> d in DatesFrom(rows, p);
  }

  /** A statistic does not see the order of its quantities. */
  lemma AggregatePermutation(a: seq<real>, b: seq<real>)
    requires a != [] && multiset(a) == multiset(b)
    ensures b != [] && Aggregate(a) == Aggregate(b)
  {
    assert |a| == |multiset(a)| == |multiset(b)| == |b|;
    SumByPermutation(a, b, Itself);
    SumByPermutation(a, b, Deviation(SumBy(a, Itself) / |a| as real));
  }

  /** So the record of a product is the statistics of its dense series. */
  lemma StatsAreDense(rows: seq<Row>, order: seq<SpineRow>, p: Product)
    requires Unique(rows) && Visits(order, Spine(rows)) && p in Products(rows)
    ensures Series(rows, p) != [] && DemandStats(rows, order)[p] == Aggregate(Series(rows, p))
  {
    hide Unique, Visits, Group, Filled, Series, Aggregate, Spine, Products;
    QueryIsDense(rows, order, p);
    GroupNonempty(rows, order, p);
    AggregatePermutation(Group(Filled(rows, order), p), Series(rows, p));
  }

  lemma {:induction false} DenseLength(rows: seq<Row>, p: Product, first: int, last: int)
    ensures |Dense(rows, p, first, last)| == |DatesIn(rows, first, last)|
    decreases last + 1 - first
  {
    if first <= last {
      DenseLength(rows, p, first, last - 1);
    }
  }

  lemma {:induction false} ElementsSize(dates: seq<int>)
    requires NoRepeats(dates)
    ensures |Elements(dates)| == |dates|
    decreases |dates|
  {
    if dates != [] {
      var n := |dates| - 1;
      ElementsSize(dates[..n]);
      assert Elements(dates) == Elements(dates[..n]) + {dates[n]};
    }
  }

  /** `days` counts the input dates from the product's first sale on. */
  lemma DaysAreDates(rows: seq<Row>, order: seq<SpineRow>, p: Product)
    requires Unique(rows) && Visits(order, Spine(rows)) && p in Products(rows)
    ensures DemandStats(rows, order)[p].days == |DatesFrom(rows, p)| >= 1
  {
    hide Unique, Group, Filled, Spine, Products, Dense, DatesIn, FirstDate, LastDate, NoRepeats, SumBy, DemandStats;
    Span(rows, p);
    StatsAreDense(rows, order, p);
    CalendarSpan(rows, p);
    DenseLength(rows, p, FirstDate(rows, p).value, LastDate(rows).value);
    ElementsSize(DatesIn(rows, FirstDate(rows, p).value, LastDate(rows).value));
  }

  // ---- totals -----------------------------------------------------------------------

  function QtyOf(p: Product): Row -> real { (r: Row) => if r.product == p then r.qty else 0.0 }

  function QtyOn(p: Product, date: int): Row -> real {
    (r: Row) => if r.product == p && r.date == date then r.qty else 0.0
  }

  function QtyIn(p: Product, dates: seq<int>): Row -> real {
    (r: Row) => if r.product == p && r.date in dates then r.qty else 0.0
  }

  lemma {:induction false} MatchesSum(rows: seq<Row>, p: Product, date: int)
    ensures SumBy(JoinedOn(rows, p, date), Itself)
         == SumBy(Matches(rows, p, date), Itself)
         == SumBy(rows, QtyOn(p, date))
  {
    if rows != [] {
      var before, r := rows[..|rows| - 1], rows[|rows| - 1];
      MatchesSum(before, p, date);
      SumBySnoc(Matches(before, p, date), r.qty, Itself);
      assert Matches(before, p, date) + [] == Matches(before, p, date);
    }
    assert SumBy([0.0], Itself) == 0.0;
  }

  lemma {:induction false} OneMoreDate(rows: seq<Row>, p: Product, dates: seq<int>, d: int)
    requires d !in dates
    ensures SumBy(rows, QtyIn(p, dates + [d])) == SumBy(rows, QtyIn(p, dates)) + SumBy(rows, QtyOn(p, d))
  {
    if rows != [] {
      OneMoreDate(rows[..|rows| - 1], p, dates, d);
    }
  }

  lemma {:induction false} JoinedSum(rows: seq<Row>, p: Product, dates: seq<int>)
    requires NoRepeats(dates)
    ensures SumBy(JoinedDates(rows, p, dates), Itself) == SumBy(rows, QtyIn(p, dates))
    decreases |dates|
  {
    hide SumBy, JoinedOn;
    if dates == [] {
      NothingSold([], Itself);
      NothingSold(rows, QtyIn(p, dates));
    } else {
      var before, d := dates[..|dates| - 1], dates[|dates| - 1];
      JoinedSum(rows, p, before);
      assert dates == before + [d];
      OneMoreDate(rows, p, before, d);
      MatchesSum(rows, p, d);
      SumByConcat(JoinedDates(rows, p, before), JoinedOn(rows, p, d), Itself);
    }
  }

  lemma {:induction false} NothingSold<T>(rows: seq<T>, f: T -> real)
    requires forall r :: r in rows ==> f(r) == 0.0
    ensures SumBy(rows, f) == 0.0
  {
    if rows != [] {
      NothingSold(rows[..|rows| - 1], f);
    }
  }

  /** Mean times days is the product's total quantity. */
  lemma MeanTimesDays(rows: seq<Row>, order: seq<SpineRow>, p: Product)
    requires Visits(order, Spine(rows)) && p in Products(rows)
    ensures var s := DemandStats(rows, order)[p]; s.mean * s.days as real == SumBy(rows, QtyOf(p))
  {
    hide Group, Filled, Spine, Products, FirstDate, LastDate, SumBy, Aggregate, NoRepeats, DatesOf, JoinedDates;
    GroupNonempty(rows, order, p);
    GroupIsJoin(rows, order, p);
    SpineDates(rows, order, p);
    JoinedSum(rows, p, DatesOf(order, p));
    AllSold(rows, p, DatesOf(order, p));
    MeanTimesCount(Group(Filled(rows, order), p));
  }

  lemma AllSold(rows: seq<Row>, p: Product, dates: seq<int>)
    requires p in Products(rows) && Elements(dates) == DatesFrom(rows, p)
    ensures SumBy(rows, QtyIn(p, dates)) == SumBy(rows, QtyOf(p))
  {
    hide FirstDate, LastDate, SumBy, Products;
    Span(rows, p);
    forall r | r in rows
      ensures QtyIn(p, dates)(r) == QtyOf(p)(r)
    {
      assert r.product == p ==> r.date in Elements(dates);
    }
    SumBySame(rows, QtyIn(p, dates), QtyOf(p));
  }

  lemma MeanTimesCount(s: seq<real>)
    requires s != []
    ensures Aggregate(s).days == |s| && Aggregate(s).mean * |s| as real == SumBy(s, Itself)
  {
  }

  // ---- order ------------------------------------------------------------------------

  lemma {:induction false} SameFirst(x: seq<Row>, y: seq<Row>, p: Product)
    requires multiset(x) == multiset(y)
    ensures FirstDate(x, p) == FirstDate(y, p) && LastDate(x) == LastDate(y) && AllDates(x) == AllDates(y)
  {
    SameRows(x, y);
    FirstDateIsMin(x, p);
    FirstDateIsMin(y, p);
    LastDateIsMax(x);
    LastDateIsMax(y);
  }

  lemma SameRows(x: seq<Row>, y: seq<Row>)
    requires multiset(x) == multiset(y)
    ensures forall r :: r in x <==> r in y
  {
    assert forall r :: r in x <==> r in multiset(x);
    assert forall r :: r in y <==> r in multiset(y);
  }

  lemma {:induction false} SameDense(x: seq<Row>, y: seq<Row>, p: Product, first: int, last: int)
    requires Unique(x) && Unique(y) && AllDates(x) == AllDates(y) && forall r :: r in x <==> r in y
    ensures Dense(x, p, first, last) == Dense(y, p, first, last)
    decreases last + 1 - first
  {
    hide Unique, AllDates, SoldOn, Matches;
    if first <= last {
      SameDense(x, y, p, first, last - 1);
      SameSold(x, y, p, last);
    }
  }

  lemma SameSold(x: seq<Row>, y: seq<Row>, p: Product, date: int)
    requires Unique(x) && Unique(y) && forall r :: r in x <==> r in y
    ensures SoldOn(x, p, date) == SoldOn(y, p, date)
  {
    if exists q :: Row(date, p, q) in x {
      var q :| Row(date, p, q) in x;
      OneQuantity(x, p, date, q);
      OneQuantity(y, p, date, q);
    }
  }

  lemma OneQuantity(rows: seq<Row>, p: Product, date: int, q: real)
    requires Unique(rows) && Row(date, p, q) in rows
    ensures SoldOn(rows, p, date) == q
  {
    var sold := SoldOn(rows, p, date);
    assert Row(date, p, sold) in rows;
  }

  lemma SameSeries(x: seq<Row>, y: seq<Row>, p: Product)
    requires Unique(x) && Unique(y) && multiset(x) == multiset(y)
    ensures Series(x, p) == Series(y, p)
  {
    hide Unique, Dense, FirstDate, LastDate, AllDates;
    SameRows(x, y);
    SameFirst(x, y, p);
    var first, last := FirstDate(x, p), LastDate(x);
    if first.Some? && last.Some? {
      SameDense(x, y, p, first.value, last.value);
    }
  }

  /** Neither the order of the rows nor the one the engine visits them in matters. */
  lemma RowOrderFree(x: seq<Row>, y: seq<Row>, xOrder: seq<SpineRow>, yOrder: seq<SpineRow>)
    requires Unique(x) && Unique(y) && multiset(x) == multiset(y)
    requires Visits(xOrder, Spine(x)) && Visits(yOrder, Spine(y))
    ensures DemandStats(x, xOrder) == DemandStats(y, yOrder)
  {
    hide Unique, Visits, Series, Spine, DemandStats, Aggregate;
    SameRows(x, y);
    assert Products(x) == Products(y);
    forall p | p in Products(x)
      ensures DemandStats(x, xOrder)[p] == DemandStats(y, yOrder)[p]
    {
      StatsAreDense(x, xOrder, p);
      StatsAreDense(y, yOrder, p);
      SameSeries(x, y, p);
    }
  }

  // ---- spread -----------------------------------------------------------------------

  /** The sum of squared deviations, multiplied out. */
  ghost predicate Expanded(dev: real, squares: real, total: real, n: real, m: real) {
    dev == squares - 2.0 * (m * total) + n * (m * m)
  }

  lemma {:induction false} Expand(s: seq<real>, m: real)
    ensures Expanded(SumBy(s, Deviation(m)), SumBy(s, Square), SumBy(s, Itself), |s| as real, m)
  {
    hide Expanded, Square, Deviation;
    if s == [] {
      ExpandMore(0.0, 0.0, 0.0, 0.0, m, 0.0);
    } else {
      var before, x := s[..|s| - 1], s[|s| - 1];
      Expand(before, m);
      ExpandMore(SumBy(before, Deviation(m)), SumBy(before, Square), SumBy(before, Itself), |before| as real, m, x);
    }
  }

  lemma ExpandMore(dev: real, squares: real, total: real, n: real, m: real, x: real)
    ensures Expanded(0.0, 0.0, 0.0, 0.0, m)
    ensures Expanded(dev, squares, total, n, m) ==>
              Expanded(dev + Deviation(m)(x), squares + Square(x), total + x, n + 1.0, m)
  {
    assert (x - m) * (x - m) == x * x - 2.0 * (m * x) + m * m;
    assert m * (total + x) == m * total + m * x;
    assert (n + 1.0) * (m * m) == n * (m * m) + m * m;
  }

  ghost predicate NonNegative(s: seq<real>) { forall i :: 0 <= i < |s| ==> s[i] >= 0.0 }

  lemma {:induction false} SquaresBelowSquare(s: seq<real>)
    requires NonNegative(s)
    ensures SumBy(s, Itself) >= 0.0
    ensures SumBy(s, Square) <= Square(SumBy(s, Itself))
  {
    if s != [] {
      var before, x := s[..|s| - 1], s[|s| - 1];
      SquaresBelowSquare(before);
      var t := SumBy(before, Itself);
      assert (t + x) * (t + x) == t * t + 2.0 * (t * x) + x * x;
      assert t * x >= 0.0;
    }
  }

  /** For quantities that are never negative the spread is at most (days - 1)·mean². */
  lemma VarianceBound(s: seq<real>)
    requires s != [] && NonNegative(s)
    ensures var a := Aggregate(s); a.variance <= (a.days - 1) as real * (a.mean * a.mean)
  {
    hide SumBy, Deviation, Square, Expanded;
    var mean, n, total := Aggregate(s).mean, |s| as real, SumBy(s, Itself);
    Expand(s, mean);
    SquaresBelowSquare(s);
    MeanTimesCount(s);
    BoundFrom(SumBy(s, Deviation(mean)), SumBy(s, Square), total, mean, n);
    assert (|s| - 1) as real == n - 1.0;
  }

  /** The variance is the mean square less the squared mean. */
  lemma VarianceClosedForm(s: seq<real>)
    requires s != []
    ensures var a := Aggregate(s);
            a.variance * a.days as real == SumBy(s, Square) - a.days as real * (a.mean * a.mean)
  {
    hide SumBy, Deviation, Square, Expanded;
    var mean, n, total := Aggregate(s).mean, |s| as real, SumBy(s, Itself);
    Expand(s, mean);
    MeanTimesCount(s);
    ClosedFrom(SumBy(s, Deviation(mean)), SumBy(s, Square), total, mean, n);
  }

  lemma ClosedFrom(dev: real, squares: real, total: real, mean: real, n: real)
    requires n > 0.0 && total == mean * n && Expanded(dev, squares, total, n, mean)
    ensures dev / n * n == squares - n * (mean * mean)
  {
    assert mean * total == n * (mean * mean);
    assert dev / n * n == dev;
  }

  lemma BoundFrom(dev: real, squares: real, total: real, mean: real, n: real)
    requires n > 0.0 && total == mean * n && squares <= Square(total)
    requires Expanded(dev, squares, total, n, mean)
    ensures dev / n <= (n - 1.0) * (mean * mean)
  {
    var mm := mean * mean;
    assert mean * total == n * mm;
    assert total * total == n * (n * mm);
    assert dev <= n * ((n - 1.0) * mm);
    assert n * ((n - 1.0) * mm) / n == (n - 1.0) * mm;
  }

  lemma {:induction false} DenseNonNegative(rows: seq<Row>, p: Product, first: int, last: int)
    requires forall r :: r in rows ==> r.qty >= 0.0
    ensures NonNegative(Dense(rows, p, first, last))
    decreases last + 1 - first
  {
    if first <= last {
      DenseNonNegative(rows, p, first, last - 1);
      if exists q :: Row(last, p, q) in rows {
        assert Row(last, p, SoldOn(rows, p, last)) in rows;
      }
    }
  }

  lemma SpreadBound(rows: seq<Row>, order: seq<SpineRow>, p: Product)
    requires Unique(rows) && Visits(order, Spine(rows))
    requires p in Products(rows) && forall r :: r in rows ==> r.qty >= 0.0
    ensures var s := DemandStats(rows, order)[p]; s.variance <= (s.days - 1) as real * (s.mean * s.mean)
  {
    hide Unique, Visits, Spine, Products, FirstDate, LastDate, Aggregate, Dense, NonNegative, DemandStats;
    Span(rows, p);
    StatsAreDense(rows, order, p);
    DenseNonNegative(rows, p, FirstDate(rows, p).value, LastDate(rows).value);
    VarianceBound(Series(rows, p));
  }

  /** `cv`, given the root of the variance. */
  function Cv(std: real, mean: real): real { if mean > 0.0 then std / mean else 0.0 }

  /** The coefficient of variation is the deviation in units of the mean, and below the root of the days. */
  lemma CvBound(rows: seq<Row>, order: seq<SpineRow>, p: Product, std: real)
    requires Unique(rows) && Visits(order, Spine(rows))
    requires p in Products(rows) && forall r :: r in rows ==> r.qty >= 0.0
    requires std >= 0.0 && Square(std) == DemandStats(rows, order)[p].variance
    ensures var s := DemandStats(rows, order)[p];
            && 0.0 <= Cv(std, s.mean) && Square(Cv(std, s.mean)) <= (s.days - 1) as real
            && Cv(std, s.mean) * s.mean == std
  {
    hide Unique, Visits, Spine, Products, DemandStats;
    DaysAreDates(rows, order, p);
    SpreadBound(rows, order, p);
    MeanNonNegative(rows, order, p);
    var s := DemandStats(rows, order)[p];
    if s.mean > 0.0 {
      QuotientBound(std, s.mean, (s.days - 1) as real);
    } else {
      RootOfZero(std, (s.days - 1) as real);
    }
  }

  lemma MeanNonNegative(rows: seq<Row>, order: seq<SpineRow>, p: Product)
    requires Unique(rows) && Visits(order, Spine(rows))
    requires p in Products(rows) && forall r :: r in rows ==> r.qty >= 0.0
    ensures DemandStats(rows, order)[p].mean >= 0.0
  {
    hide Unique, Visits, Spine, Products, FirstDate, LastDate, Dense, SumBy;
    Span(rows, p);
    StatsAreDense(rows, order, p);
    DenseNonNegative(rows, p, FirstDate(rows, p).value, LastDate(rows).value);
    SquaresBelowSquare(Series(rows, p));
  }

  lemma QuotientBound(std: real, mean: real, n: real)
    requires mean > 0.0 && std >= 0.0 && Square(std) <= n * Square(mean)
    ensures std / mean >= 0.0 && Square(std / mean) <= n && std / mean * mean == std
  {
    hide Square;
    var cv := std / mean;
    assert cv * mean == std;
    SquareOfProduct(cv, mean);
    SquareSign(mean);
    CancelFactor(Square(cv), n, Square(mean));
  }

  lemma SquareOfProduct(x: real, y: real)
    ensures Square(x * y) == Square(x) * Square(y)
  {
    assert (x * y) * (x * y) == (x * x) * (y * y);
  }

  lemma SquareSign(x: real)
    ensures x > 0.0 ==> Square(x) > 0.0
    ensures Square(0.0) == 0.0
  {
    Positive(x, x, Square(x));
  }

  lemma Positive(x: real, y: real, product: real)
    requires product == x * y
    ensures x > 0.0 && y > 0.0 ==> product > 0.0
  {
  }

  lemma CancelFactor(x: real, y: real, m: real)
    requires m > 0.0 && x * m <= y * m
    ensures x <= y
  {
    assert (x - y) * m == x * m - y * m;
    Positive(x - y, m, (x - y) * m);
  }

  lemma RootOfZero(std: real, n: real)
    requires std >= 0.0 && Square(std) <= n * Square(0.0)
    ensures std == 0.0
  {
    hide Square;
    SquareSign(std);
    assert n * 0.0 == 0.0;
  }
}
