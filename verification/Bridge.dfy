/**
 The price / volume / mix / cost bridge (chic/aggregate/bridge.py).

 Amounts are exact reals. Division is a parameter: `Exact` where a result needs
 it, any function at all where it does not, since the quantity effect is what is
 left over.
 */
module Bridge {
  import opened Money
  import opened Basics
  import opened Sums
  import opened Sorting

  datatype Line = Line(id: Id, name: string, qty: real, revenue: real, cost: real, returned: real, profit: real)
  /** Product ids (hrefs): only their equality matters. */
  type Id = int
  type Index = map<Id, Line>
  type Division = (real, real) -> real
  type Term = Id -> real

  const BLANK := Line(0, "", 0.0, 0.0, 0.0, 0.0, 0.0)

  function At(m: Index, key: Id): Line { if key in m then m[key] else BLANK }

  function Gross(ln: Line): real { ln.revenue - ln.cost }

  function Combine(prev: Line, ln: Line): Line {
    Line(ln.id, ln.name, prev.qty + ln.qty, prev.revenue + ln.revenue, prev.cost + ln.cost,
         prev.returned + ln.returned, prev.profit + ln.profit)
  }

  /** Sold products by id, duplicates folded in the order of the lines. */
  function ById(lines: seq<Line>): Index {
    if lines == [] then map[]
    else
      var out, ln := ById(lines[..|lines| - 1]), lines[|lines| - 1];
      if ln.qty <= 0.0 then out
      else out[ln.id := if ln.id in out then Combine(out[ln.id], ln) else ln]
  }

  method IndexById(lines: seq<Line>) returns (out: Index)
    ensures out == ById(lines)
  {
    out := map[];
    for i := 0 to |lines|
      invariant out == ById(lines[..i])
    {
      var ln := lines[i];
      assert lines[..i + 1][..i] == lines[..i];
      if ln.qty > 0.0 {
        if ln.id in out {
          out := out[ln.id := Combine(out[ln.id], ln)];
        } else {
          out := out[ln.id := ln];
        }
      }
    }
    assert lines[..|lines|] == lines;
  }

  // ---- the effects of one common product ---------------------------------------

  function PriceOf(la: Line, lb: Line, div: Division): real {
    lb.qty * (div(lb.revenue, lb.qty) - div(la.revenue, la.qty))
  }

  function CostOf(la: Line, lb: Line, div: Division): real {
    -lb.qty * (div(lb.cost, lb.qty) - div(la.cost, la.qty))
  }

  /** Volume and mix together absorb what the divisions leave over. */
  function QtyOf(la: Line, lb: Line, div: Division): real {
    Gross(lb) - Gross(la) - PriceOf(la, lb, div) - CostOf(la, lb, div)
  }

  function PriceTerm(a: Index, b: Index, div: Division): Term { key => PriceOf(At(a, key), At(b, key), div) }

  function CostTerm(a: Index, b: Index, div: Division): Term { key => CostOf(At(a, key), At(b, key), div) }

  function QtyTerm(a: Index, b: Index, div: Division): Term { key => QtyOf(At(a, key), At(b, key), div) }

  function Quantity(m: Index): Term { key => At(m, key).qty }

  function Profit(m: Index): Term { key => Gross(At(m, key)) }

  // ---- the whole bridge ----------------------------------------------------------

  datatype Effects = Effects(
    price: real, cost: real, volume: real, mix: real, added: real, discontinued: real,
    profitA: real, profitB: real)
  {
    function Delta(): real { profitB - profitA }
  }

  ghost function Volume(a: Index, b: Index, div: Division): real {
    var common := a.Keys * b.Keys;
    var qa, qb := SumOver(common, Quantity(a)), SumOver(common, Quantity(b));
    VolumeOf(qa, qb, SumOver(common, Profit(a)), div)
  }

  /** The change in total quantity at the baseline's average unit margin. */
  function VolumeOf(qa: real, qb: real, profitA: real, div: Division): real {
    if qa > 0.0 then (qb - qa) * div(profitA, qa) else 0.0
  }

  ghost function Unrounded(a: Index, b: Index, div: Division): Effects {
    var common := a.Keys * b.Keys;
    var volume := Volume(a, b, div);
    Effects(
      SumOver(common, PriceTerm(a, b, div)),
      SumOver(common, CostTerm(a, b, div)),
      volume,
      SumOver(common, QtyTerm(a, b, div)) - volume,
      SumOver(b.Keys - a.Keys, Profit(b)),
      -SumOver(a.Keys - b.Keys, Profit(a)),
      SumOver(a.Keys, Profit(a)),
      SumOver(b.Keys, Profit(b)))
  }

  datatype Kind = Common | Added | Discontinued
  datatype Driver = Driver(
    name: string, kind: Kind, qtyA: real, qtyB: real, profitA: real, profitB: real, delta: real,
    priceEffect: real, costEffect: real, qtyEffect: real)

  function CommonDriver(la: Line, lb: Line, price: real, cost: real, qty: real): Driver {
    Driver(la.name, Common, la.qty, lb.qty, MoneyRound(Gross(la)), MoneyRound(Gross(lb)),
           MoneyRound(Gross(lb) - Gross(la)), MoneyRound(price), MoneyRound(cost), MoneyRound(qty))
  }

  function DriverOf(a: Index, b: Index, div: Division, key: Id): Driver {
    var la, lb := At(a, key), At(b, key);
    if key in a && key in b then
      CommonDriver(la, lb, PriceOf(la, lb, div), CostOf(la, lb, div), QtyOf(la, lb, div))
    else if key in b then
      Driver(lb.name, Added, 0.0, lb.qty, MoneyRound(0.0), MoneyRound(Gross(lb)), MoneyRound(Gross(lb)), 0.0, 0.0, 0.0)
    else
      Driver(la.name, Discontinued, la.qty, 0.0, MoneyRound(Gross(la)), MoneyRound(0.0), MoneyRound(-Gross(la)),
             0.0, 0.0, 0.0)
  }

  function Drivers(a: Index, b: Index, div: Division, order: seq<Id>): seq<Driver> {
    if order == [] then [] else Drivers(a, b, div, order[..|order| - 1]) + [DriverOf(a, b, div, order[|order| - 1])]
  }

  /** The published figures. */
  datatype Figures = Figures(
    profitA: real, profitB: real, delta: real,
    price: real, cost: real, volume: real, mix: real, added: real, discontinued: real, rounding: real)
  {
    function EffectSum(): real { price + cost + volume + mix + added + discontinued }
  }

  function Published(e: Effects): Figures {
    var price, cost, volume := MoneyRound(e.price), MoneyRound(e.cost), MoneyRound(e.volume);
    var mix, added, discontinued := MoneyRound(e.mix), MoneyRound(e.added), MoneyRound(e.discontinued);
    Figures(MoneyRound(e.profitA), MoneyRound(e.profitB), MoneyRound(e.Delta()),
            price, cost, volume, mix, added, discontinued,
            MoneyRound(e.Delta()) - (price + cost + volume + mix + added + discontinued))
  }

  datatype Report = Report(
    figures: Figures,
    commonCount: nat, addedCount: nat, discontinuedCount: nat,
    topDrivers: seq<Driver>)

  function Size(d: Driver): real { Abs(d.delta) }

  function Top(drivers: seq<Driver>, topN: int): seq<Driver> {
    if topN > 0 then Prefix(SortDesc(drivers, Size), topN) else SortDesc(drivers, Size)
  }

  /** What the loop over some of the common products has added up. */
  datatype Accrued = Accrued(price: real, cost: real, volmix: real, qa: real, qb: real, profitA: real)

  ghost function AccruedOver(a: Index, b: Index, div: Division, keys: set<Id>): Accrued {
    Accrued(SumOver(keys, PriceTerm(a, b, div)), SumOver(keys, CostTerm(a, b, div)), SumOver(keys, QtyTerm(a, b, div)),
         SumOver(keys, Quantity(a)), SumOver(keys, Quantity(b)), SumOver(keys, Profit(a)))
  }

  lemma AccruedAdd(a: Index, b: Index, div: Division, keys: set<Id>, key: Id)
    requires key !in keys && key in a && key in b
    ensures var s, la, lb := AccruedOver(a, b, div, keys), a[key], b[key];
            AccruedOver(a, b, div, keys + {key})
              == Accrued(s.price + PriceOf(la, lb, div), s.cost + CostOf(la, lb, div), s.volmix + QtyOf(la, lb, div),
                      s.qa + la.qty, s.qb + lb.qty, s.profitA + Gross(la))
  {
    hide PriceOf, CostOf, QtyOf, Gross;
    SumOverAdd(keys, key, PriceTerm(a, b, div));
    SumOverAdd(keys, key, CostTerm(a, b, div));
    SumOverAdd(keys, key, QtyTerm(a, b, div));
    SumOverAdd(keys, key, Quantity(a));
    SumOverAdd(keys, key, Quantity(b));
    SumOverAdd(keys, key, Profit(a));
  }

  /** `order` lists the keys of `keys`, each once, in the order a Python set gave them. */
  ghost predicate Lists(order: seq<Id>, keys: set<Id>) {
    NoRepeats(order) && Elements(order) == keys
  }

  lemma ListsMore(order: seq<Id>, keys: set<Id>, key: Id, a: Index, b: Index, div: Division)
    requires Lists(order, keys) && key !in keys
    ensures Lists(order + [key], keys + {key})
    ensures Drivers(a, b, div, order + [key]) == Drivers(a, b, div, order) + [DriverOf(a, b, div, key)]
  {
    hide DriverOf;
    assert (order + [key])[..|order|] == order;
  }

  /** The loop over the products of both periods. */
  method CommonEffects(a: Index, b: Index, div: Division)
    returns (price: real, cost: real, volmix: real, qa: real, qb: real, profitA: real,
             drivers: seq<Driver>, ghost order: seq<Id>)
    ensures Accrued(price, cost, volmix, qa, qb, profitA) == AccruedOver(a, b, div, a.Keys * b.Keys)
    ensures Lists(order, a.Keys * b.Keys) && drivers == Drivers(a, b, div, order)
  {
    hide PriceOf, CostOf, AccruedOver, CommonDriver, Lists, Drivers;
    price, cost, volmix, qa, qb, profitA := 0.0, 0.0, 0.0, 0.0, 0.0, 0.0;
    drivers, order := [], [];
    var todo := a.Keys * b.Keys;
    ghost var done: set<Id> := {};
    NothingYet(a, b, div);
    while todo != {}
      invariant done !! todo && done + todo == a.Keys * b.Keys
      invariant Accrued(price, cost, volmix, qa, qb, profitA) == AccruedOver(a, b, div, done)
      invariant Lists(order, done) && drivers == Drivers(a, b, div, order)
      decreases |todo|
    {
      var key := Pick(todo);
      var la, lb := a[key], b[key];
      var profitDelta := Gross(lb) - Gross(la);
      var price_i, cost_i := PriceOf(la, lb, div), CostOf(la, lb, div);
      var qty_i := profitDelta - price_i - cost_i;
      AccruedAdd(a, b, div, done, key);
      ListsMore(order, done, key, a, b, div);
      price, cost, volmix := price + price_i, cost + cost_i, volmix + qty_i;
      qa, qb, profitA := qa + la.qty, qb + lb.qty, profitA + Gross(la);
      drivers := drivers + [CommonDriver(la, lb, price_i, cost_i, qty_i)];
      todo, done, order := todo - {key}, done + {key}, order + [key];
    }
    assert done == a.Keys * b.Keys;
  }

  lemma NothingYet(a: Index, b: Index, div: Division)
    ensures AccruedOver(a, b, div, {}) == Accrued(0.0, 0.0, 0.0, 0.0, 0.0, 0.0)
    ensures Lists([], {}) && Drivers(a, b, div, []) == []
  {
  }

  /** The loop over the products of one period only; `own` is that period's index. */
  method AbsentEffects(a: Index, b: Index, div: Division, own: Index, keys: set<Id>)
    returns (gross: real, drivers: seq<Driver>, ghost order: seq<Id>)
    requires keys <= own.Keys
    ensures gross == SumOver(keys, Profit(own))
    ensures Lists(order, keys) && drivers == Drivers(a, b, div, order)
  {
    hide DriverOf, SumOver, Lists, Drivers, Profit, Gross, AccruedOver;
    gross, drivers, order := 0.0, [], [];
    var todo := keys;
    ghost var done: set<Id> := {};
    NothingYet(a, b, div);
    NothingAdded(own);
    while todo != {}
      invariant done !! todo && done + todo == keys
      invariant gross == SumOver(done, Profit(own))
      invariant Lists(order, done) && drivers == Drivers(a, b, div, order)
      decreases |todo|
    {
      var key := Pick(todo);
      GrossAdd(own, done, key);
      ListsMore(order, done, key, a, b, div);
      gross := gross + Gross(own[key]);
      drivers := drivers + [DriverOf(a, b, div, key)];
      todo, done, order := todo - {key}, done + {key}, order + [key];
    }
    assert done == keys;
  }

  lemma GrossAdd(own: Index, keys: set<Id>, key: Id)
    requires key in own && key !in keys
    ensures SumOver(keys + {key}, Profit(own)) == SumOver(keys, Profit(own)) + Gross(own[key])
  {
    SumOverAdd(keys, key, Profit(own));
  }

  lemma NothingAdded(own: Index)
    ensures SumOver({}, Profit(own)) == 0.0
  {
  }

  method AllEffects(a: Index, b: Index, div: Division)
    returns (e: Effects, drivers: seq<Driver>, ghost order: seq<Id>)
    ensures e == Unrounded(a, b, div)
    ensures Lists(order, a.Keys + b.Keys) && drivers == Drivers(a, b, div, order)
  {
    hide Drivers, DriverOf, SumOver, Lists, Profit, VolumeOf, Unrounded, AccruedOver;
    var common, aOnly, bOnly := a.Keys * b.Keys, a.Keys - b.Keys, b.Keys - a.Keys;
    var price, cost, volmix, qa, qb, profitACommon, shared, first := CommonEffects(a, b, div);
    var volume := VolumeOf(qa, qb, profitACommon, div);
    var mix := volmix - volume;
    var added, newDrivers, second := AbsentEffects(a, b, div, b, bOnly);
    var lost, goneDrivers, third := AbsentEffects(a, b, div, a, aOnly);
    var profitA, _, _ := AbsentEffects(a, b, div, a, a.Keys);
    var profitB, _, _ := AbsentEffects(a, b, div, b, b.Keys);
    e := Effects(price, cost, volume, mix, added, -lost, profitA, profitB);
    drivers, order := shared + newDrivers + goneDrivers, first + second + third;
    AssembleEffects(a, b, div, Accrued(price, cost, volmix, qa, qb, profitACommon), e);
    AssembleOrder(a, b, div, first, second, third);
  }

  lemma AssembleEffects(a: Index, b: Index, div: Division, s: Accrued, e: Effects)
    requires s == AccruedOver(a, b, div, a.Keys * b.Keys)
    requires e.price == s.price && e.cost == s.cost
    requires e.volume == VolumeOf(s.qa, s.qb, s.profitA, div) && e.mix == s.volmix - e.volume
    requires e.added == SumOver(b.Keys - a.Keys, Profit(b))
    requires e.discontinued == -SumOver(a.Keys - b.Keys, Profit(a))
    requires e.profitA == SumOver(a.Keys, Profit(a)) && e.profitB == SumOver(b.Keys, Profit(b))
    ensures e == Unrounded(a, b, div)
  {
    hide SumOver, Profit, Quantity, PriceTerm, CostTerm, QtyTerm, VolumeOf;
  }

  lemma AssembleOrder(a: Index, b: Index, div: Division, first: seq<Id>, second: seq<Id>, third: seq<Id>)
    requires Lists(first, a.Keys * b.Keys) && Lists(second, b.Keys - a.Keys) && Lists(third, a.Keys - b.Keys)
    ensures Lists(first + second + third, a.Keys + b.Keys)
    ensures Drivers(a, b, div, first + second + third)
         == Drivers(a, b, div, first) + Drivers(a, b, div, second) + Drivers(a, b, div, third)
  {
    hide Lists, Drivers;
    ListsJoin(first, a.Keys * b.Keys, second, b.Keys - a.Keys);
    ListsJoin(first + second, a.Keys * b.Keys + (b.Keys - a.Keys), third, a.Keys - b.Keys);
    assert a.Keys * b.Keys + (b.Keys - a.Keys) + (a.Keys - b.Keys) == a.Keys + b.Keys;
    DriversJoin(a, b, div, first, second);
    DriversJoin(a, b, div, first + second, third);
  }

  /** `order` is the order in which the three sets of keys happened to be iterated. */
  method ProfitBridge(aLines: seq<Line>, bLines: seq<Line>, topN: int, div: Division)
    returns (r: Report, ghost order: seq<Id>)
    ensures var a, b := ById(aLines), ById(bLines);
            && r.figures == Published(Unrounded(a, b, div))
            && r.commonCount == |a.Keys * b.Keys|
            && r.addedCount == |b.Keys - a.Keys| && r.discontinuedCount == |a.Keys - b.Keys|
    ensures Lists(order, ById(aLines).Keys + ById(bLines).Keys)
    ensures r.topDrivers == Top(Drivers(ById(aLines), ById(bLines), div, order), topN)
  {
    hide Drivers, Lists, Unrounded, Published, Top;
    var a := IndexById(aLines);
    var b := IndexById(bLines);
    var e, drivers;
    e, drivers, order := AllEffects(a, b, div);
    r := Report(Published(e), |a.Keys * b.Keys|, |b.Keys - a.Keys|, |a.Keys - b.Keys|, Top(drivers, topN));
  }

  lemma ListsJoin(left: seq<Id>, a: set<Id>, right: seq<Id>, b: set<Id>)
    requires Lists(left, a) && Lists(right, b) && a !! b
    ensures Lists(left + right, a + b)
  {
    var all := left + right;
    assert forall k :: k in all <==> k in left || k in right;
    forall i, j | 0 <= i < j < |all|
      ensures all[i] != all[j]
    {
      if i < |left| <= j {
        assert all[i] in Elements(left) && all[j] in Elements(right);
      }
    }
  }

  lemma {:induction false} DriversJoin(a: Index, b: Index, div: Division, left: seq<Id>, right: seq<Id>)
    ensures Drivers(a, b, div, left + right) == Drivers(a, b, div, left) + Drivers(a, b, div, right)
    decreases |right|
  {
    hide DriverOf;
    if right == [] {
      assert left + right == left;
    } else {
      DriversJoin(a, b, div, left, right[..|right| - 1]);
      assert (left + right)[..|left + right| - 1] == left + right[..|right| - 1];
    }
  }
}
