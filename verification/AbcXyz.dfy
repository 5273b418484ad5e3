/**
 The ABC/XYZ matrix (chic/history/analytics.py): value classes joined with demand
 classes by product key, tallied into at most nine cells.
 */
module AbcXyz {
  import opened Money
  import opened Sums
  import opened Sorting
  import opened Abc

  datatype Xyz = X | Y | Z
  datatype Stat = Stat(key: string, days: int, cv: real)
  datatype Demand = Demand(cls: Xyz, cv: real)
  datatype Product = Product(key: string, name: string, value: real)
  datatype Cell = Cell(abc: Class, xyz: Xyz)
  datatype Entry = Entry(name: string, cell: Cell, value: real, cv: real)

  function XCut(x: real): (r: real)
    ensures r >= 0.0
    ensures x >= 0.0 ==> r == x
    ensures x < 0.0 ==> r == 0.0
  {
    if x < 0.0 then 0.0 else x
  }

  /** The Y band never starts above where it ends, however the two cuts were given. */
  function YCut(x: real, y: real): (r: real)
    ensures r >= XCut(x)
    ensures r == y || r == XCut(x)
    ensures y >= XCut(x) ==> r == y
  {
    if y < XCut(x) then XCut(x) else y
  }

  function XyzClass(cv: real, x: real, y: real): Xyz { if cv <= x then X else if cv <= y then Y else Z }

  function Demands(stats: seq<Stat>, minDays: int, x: real, y: real): map<string, Demand> {
    if stats == [] then map[]
    else
      var before, s := Demands(stats[..|stats| - 1], minDays, x, y), stats[|stats| - 1];
      if s.days >= minDays then before[s.key := Demand(XyzClass(s.cv, x, y), s.cv)] else before
  }

  function Names(products: seq<Product>): map<string, string> {
    if products == [] then map[]
    else Names(products[..|products| - 1])[products[|products| - 1].key := products[|products| - 1].name]
  }

  function Keyed(products: seq<Product>): (pairs: seq<Pair>)
    ensures |pairs| == |products|
  {
    if products == [] then []
    else
      var p := products[|products| - 1];
      Keyed(products[..|products| - 1]) + [Pair(p.key, p.value)]
  }

  /** The items whose key has a demand class, in ABC order. */
  function Joined(items: seq<Item>, demands: map<string, Demand>, names: map<string, string>): seq<Entry> {
    if items == [] then []
    else
      var before, a := Joined(items[..|items| - 1], demands, names), items[|items| - 1];
      if a.name !in demands then before
      else
        var d := demands[a.name];
        before + [Entry(if a.name in names then names[a.name] else a.name, Cell(a.cls, d.cls), a.value, d.cv)]
  }

  function InCell(cell: Cell): Entry -> real { (e: Entry) => if e.cell == cell then e.value else 0.0 }

  function CellRevenue(entries: seq<Entry>, cell: Cell): real { SumBy(entries, InCell(cell)) }

  function CellCount(entries: seq<Entry>, cell: Cell): nat {
    if entries == [] then 0
    else CellCount(entries[..|entries| - 1], cell) + if entries[|entries| - 1].cell == cell then 1 else 0
  }

  datatype Tally = Tally(count: nat, revenue: real)

  datatype Matrix = Matrix(
    classified: nat, abcOnly: nat, cells: map<Cell, Tally>, items: seq<Entry>, itemCount: nat)

  function Revenue(e: Entry): real { MoneyRound(e.value) }

  /** Each cell that occurs, with the number of its entries and their rounded revenue. */
  ghost predicate Tallied(cells: map<Cell, Tally>, entries: seq<Entry>) {
    && (forall cell :: cell in cells <==> CellCount(entries, cell) > 0)
    && (forall cell :: cell in cells ==>
          cells[cell] == Tally(CellCount(entries, cell), MoneyRound(CellRevenue(entries, cell))))
  }

  ghost predicate Counting(count: map<Cell, nat>, revenue: map<Cell, real>, entries: seq<Entry>) {
    && count.Keys == revenue.Keys
    && (forall cell :: cell in count <==> CellCount(entries, cell) > 0)
    && (forall cell :: cell in count ==>
          count[cell] == CellCount(entries, cell) && revenue[cell] == CellRevenue(entries, cell))
  }

  lemma CountMore(count: map<Cell, nat>, revenue: map<Cell, real>, entries: seq<Entry>, e: Entry)
    requires Counting(count, revenue, entries)
    ensures Counting(count[e.cell := (if e.cell in count then count[e.cell] else 0) + 1],
                     revenue[e.cell := (if e.cell in revenue then revenue[e.cell] else 0.0) + e.value],
                     entries + [e])
  {
    assert (entries + [e])[..|entries|] == entries;
    NoEntriesNoRevenue(entries, e.cell);
  }

  lemma {:induction false} NoEntriesNoRevenue(entries: seq<Entry>, cell: Cell)
    ensures CellCount(entries, cell) == 0 ==> CellRevenue(entries, cell) == 0.0
  {
    if entries != [] {
      NoEntriesNoRevenue(entries[..|entries| - 1], cell);
    }
  }

  method BuildMatrix(products: seq<Product>, stats: seq<Stat>, minDays: int, xCut: real, yCut: real, limit: int)
    returns (m: Matrix)
    ensures var demands := Demands(stats, minDays, XCut(xCut), YCut(xCut, yCut));
            var ranked := Classified(Ranked(Keyed(products)), ACut(0.8), BCut(0.8, 0.95));
            var entries := Joined(ranked, demands, Names(products));
            && m.classified == m.itemCount == |entries|
            && m.classified + m.abcOnly == |products|
            && Tallied(m.cells, entries)
            && m.items == Capped(SortDesc(entries, Revenue), limit)
  {
    hide Classified, SortDesc, CellCount, CellRevenue, MoneyRound, Capped, Counting;
    var x, y := XCut(xCut), YCut(xCut, yCut);
    var demands: map<string, Demand> := map[];
    for i := 0 to |stats|
      invariant demands == Demands(stats[..i], minDays, x, y)
    {
      assert stats[..i + 1][..i] == stats[..i];
      if stats[i].days >= minDays {
        demands := demands[stats[i].key := Demand(XyzClass(stats[i].cv, x, y), stats[i].cv)];
      }
    }
    assert stats[..|stats|] == stats;
    var names := Names(products);
    var items := Classify(Keyed(products), 0.8, 0.95);
    var entries: seq<Entry> := [];
    var abcOnly := 0;
    var count: map<Cell, nat> := map[];
    var revenue: map<Cell, real> := map[];
    NothingCounted();
    for i := 0 to |items|
      invariant entries == Joined(items[..i], demands, names)
      invariant |entries| + abcOnly == i
      invariant Counting(count, revenue, entries)
    {
      var a := items[i];
      assert items[..i + 1][..i] == items[..i];
      if a.name !in demands {
        abcOnly := abcOnly + 1;
      } else {
        var d := demands[a.name];
        var e := Entry(if a.name in names then names[a.name] else a.name, Cell(a.cls, d.cls), a.value, d.cv);
        CountMore(count, revenue, entries, e);
        entries := entries + [e];
        count := count[e.cell := (if e.cell in count then count[e.cell] else 0) + 1];
        revenue := revenue[e.cell := (if e.cell in revenue then revenue[e.cell] else 0.0) + e.value];
      }
    }
    assert items[..|items|] == items;
    CountedKeys(count, revenue, entries);
    var cells := map cell | cell in count :: Tally(count[cell], MoneyRound(revenue[cell]));
    TalliedFrom(count, revenue, entries, cells);
    m := Matrix(|entries|, abcOnly, cells, Capped(SortDesc(entries, Revenue), limit), |entries|);
  }

  lemma NothingCounted()
    ensures Counting(map[], map[], [])
  {
  }

  lemma CountedKeys(count: map<Cell, nat>, revenue: map<Cell, real>, entries: seq<Entry>)
    requires Counting(count, revenue, entries)
    ensures count.Keys == revenue.Keys
  {
  }

  lemma TalliedFrom(count: map<Cell, nat>, revenue: map<Cell, real>, entries: seq<Entry>, cells: map<Cell, Tally>)
    requires Counting(count, revenue, entries)
    requires cells == map cell | cell in count && cell in revenue :: Tally(count[cell], MoneyRound(revenue[cell]))
    ensures Tallied(cells, entries)
  {
    hide MoneyRound;
  }

  // ---- conservation -----------------------------------------------------------------

  function EntryValue(e: Entry): real { e.value }

  function RowRevenue(entries: seq<Entry>, a: Class): real {
    CellRevenue(entries, Cell(a, X)) + CellRevenue(entries, Cell(a, Y)) + CellRevenue(entries, Cell(a, Z))
  }

  function RowCount(entries: seq<Entry>, a: Class): nat {
    CellCount(entries, Cell(a, X)) + CellCount(entries, Cell(a, Y)) + CellCount(entries, Cell(a, Z))
  }

  /** The nine cells together hold every joined entry and all of its revenue. */
  lemma {:induction false} CellsConserve(entries: seq<Entry>)
    ensures RowCount(entries, A) + RowCount(entries, B) + RowCount(entries, C) == |entries|
    ensures RowRevenue(entries, A) + RowRevenue(entries, B) + RowRevenue(entries, C) == SumBy(entries, EntryValue)
  {
    if entries != [] {
      CellsConserve(entries[..|entries| - 1]);
      RowGrows(entries, A);
      RowGrows(entries, B);
      RowGrows(entries, C);
      hide RowCount, RowRevenue;
      var abc := entries[|entries| - 1].cell.abc;
      assert abc.A? || abc.B? || abc.C?;
    }
  }

  lemma RowGrows(entries: seq<Entry>, a: Class)
    requires entries != []
    ensures var before, e := entries[..|entries| - 1], entries[|entries| - 1];
            && RowCount(entries, a) == RowCount(before, a) + (if e.cell.abc == a then 1 else 0)
            && RowRevenue(entries, a) == RowRevenue(before, a) + (if e.cell.abc == a then e.value else 0.0)
  {
    var xyz := entries[|entries| - 1].cell.xyz;
    assert xyz.X? || xyz.Y? || xyz.Z?;
  }

  function ItemValue(a: Item): real { a.value }

  function Unjoined(demands: map<string, Demand>): Item -> real {
    (a: Item) => if a.name in demands then 0.0 else a.value
  }

  /** The join drops only the items without a demand class. */
  lemma {:induction false} JoinConserves(items: seq<Item>, demands: map<string, Demand>, names: map<string, string>)
    ensures SumBy(Joined(items, demands, names), EntryValue) + SumBy(items, Unjoined(demands))
         == SumBy(items, ItemValue)
  {
    if items != [] {
      var before := items[..|items| - 1];
      JoinConserves(before, demands, names);
      var all, kept := Joined(items, demands, names), Joined(before, demands, names);
      if |all| > |kept| {
        assert all[..|kept|] == kept;
      }
    }
  }

  /** On whole-cent values each cell's published revenue is the exact one. */
  lemma CellRevenueExact(entries: seq<Entry>, cell: Cell)
    requires forall i :: 0 <= i < |entries| ==> WholeCents(entries[i].value)
    ensures MoneyRound(CellRevenue(entries, cell)) == CellRevenue(entries, cell)
  {
    WholeCentCells(entries, cell);
  }

  lemma {:induction false} WholeCentCells(entries: seq<Entry>, cell: Cell)
    requires forall i :: 0 <= i < |entries| ==> WholeCents(entries[i].value)
    ensures WholeCents(CellRevenue(entries, cell))
  {
    hide WholeCents;
    CentsExact(0);
    if entries != [] {
      WholeCentCells(entries[..|entries| - 1], cell);
      WholeCentsClosed(CellRevenue(entries[..|entries| - 1], cell), entries[|entries| - 1].value);
    }
  }

  function XyzRank(c: Xyz): nat { match c case X => 0 case Y => 1 case Z => 2 }

  /** The entry's demand is that of some product with enough days, graded by its variation. */
  ghost predicate Graded(e: Entry, stats: seq<Stat>, minDays: int, x: real, y: real) {
    && (e.cell.xyz == X <==> e.cv <= x)
    && (e.cell.xyz == Z <==> e.cv > x && e.cv > y)
    && exists s :: s in stats && s.days >= minDays && s.cv == e.cv
  }

  /** A key has a demand class exactly when some statistics of it cover enough days. */
  lemma {:induction false} DemandKeys(stats: seq<Stat>, minDays: int, x: real, y: real, key: string)
    ensures key in Demands(stats, minDays, x, y) <==> exists s :: s in stats && s.key == key && s.days >= minDays
    decreases |stats|
  {
    hide XyzClass;
    if stats != [] {
      var before, last := stats[..|stats| - 1], stats[|stats| - 1];
      DemandKeys(before, minDays, x, y, key);
      assert forall s :: s in stats <==> s in before || s == last;
    }
  }

  /** The display name of a key is that of its last product. */
  lemma {:induction false} NamesAreLast(products: seq<Product>, i: nat)
    requires i < |products| && forall j :: i < j < |products| ==> products[j].key != products[i].key
    ensures products[i].key in Names(products) && Names(products)[products[i].key] == products[i].name
    decreases |products|
  {
    if i < |products| - 1 {
      NamesAreLast(products[..|products| - 1], i);
    }
  }

  lemma {:induction false} KeyedAt(products: seq<Product>, i: nat)
    requires i < |products|
    ensures Keyed(products)[i] == Pair(products[i].key, products[i].value)
    decreases |products|
  {
    if i < |products| - 1 {
      KeyedAt(products[..|products| - 1], i);
    }
  }

  /** Each entry is an item with a demand class, under its display name. */
  lemma {:induction false} EntryShows(items: seq<Item>, demands: map<string, Demand>, names: map<string, string>,
                                      i: nat) returns (k: nat)
    requires i < |Joined(items, demands, names)|
    ensures k < |items| && items[k].name in demands
    ensures var e, a := Joined(items, demands, names)[i], items[k];
            && e.value == a.value && e.cell.abc == a.cls
            && e.cell.xyz == demands[a.name].cls && e.cv == demands[a.name].cv
            && (a.name in names ==> e.name == names[a.name])
    decreases |items|
  {
    var before := items[..|items| - 1];
    if i < |Joined(before, demands, names)| {
      k := EntryShows(before, demands, names, i);
    } else {
      k := |items| - 1;
    }
  }

  lemma {:induction false} DemandsGraded(stats: seq<Stat>, minDays: int, x: real, y: real, key: string)
    requires key in Demands(stats, minDays, x, y)
    ensures var d := Demands(stats, minDays, x, y)[key];
            d.cls == XyzClass(d.cv, x, y)
            && exists s :: s in stats && s.key == key && s.days >= minDays && s.cv == d.cv
    decreases |stats|
  {
    hide XyzClass;
    var s := stats[|stats| - 1];
    if s.days < minDays || s.key != key {
      DemandsGraded(stats[..|stats| - 1], minDays, x, y, key);
    } else {
      assert s in stats;
    }
  }

  /**
   However the cuts are given, each joined entry is graded on a product with enough days,
   and an entry with more variable demand never gets a better class.
   */
  lemma EntriesGraded(items: seq<Item>, stats: seq<Stat>, minDays: int, xCut: real, yCut: real,
                      names: map<string, string>)
    ensures var x, y := XCut(xCut), YCut(xCut, yCut);
            var entries := Joined(items, Demands(stats, minDays, x, y), names);
            && (forall i :: 0 <= i < |entries| ==> Graded(entries[i], stats, minDays, x, y))
            && (forall i, j :: 0 <= i < |entries| && 0 <= j < |entries| && entries[i].cv <= entries[j].cv ==>
                  XyzRank(entries[i].cell.xyz) <= XyzRank(entries[j].cell.xyz))
  {
    var x, y := XCut(xCut), YCut(xCut, yCut);
    var demands := Demands(stats, minDays, x, y);
    var entries := Joined(items, demands, names);
    forall i | 0 <= i < |entries|
      ensures Graded(entries[i], stats, minDays, x, y)
    {
      var k := EntryShows(items, demands, names, i);
      DemandsGraded(stats, minDays, x, y, items[k].name);
    }
  }

  /** The items shown are those with the largest revenue, the largest first. */
  lemma LargestShown(entries: seq<Entry>, limit: int, i: nat, j: nat)
    requires i < |Capped(SortDesc(entries, Revenue), limit)| && i < j < |entries|
    ensures MoneyRound(Capped(SortDesc(entries, Revenue), limit)[i].value)
         >= MoneyRound(SortDesc(entries, Revenue)[j].value)
  {
    hide MoneyRound;
    var all := SortDesc(entries, Revenue);
    Sorted(entries, Revenue);
    assert Revenue(all[i]) >= Revenue(all[j]);
  }
}
