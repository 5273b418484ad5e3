/**
 Reorder planning (chic/aggregate/purchase.py): the (s, S) policy over real-valued
 stock. The normal quantile and the square root of the lead time are given values.
 */
module Purchase {
  import opened Money
  import opened Sums
  import opened Sorting

  datatype Stock = Stock(id: string, name: string, code: string, available: real, inTransit: real, costPrice: real)
  datatype Demand = Demand(mean: real, std: real)

  /** The parameters as given; `rootLead` is the square root of the floored lead time. */
  datatype Policy = Policy(z: real, leadTime: real, rootLead: real, reviewPeriod: real)

  datatype Item = Item(
    name: string, code: string, available: real, dailyDemand: real, daysOfCover: real,
    safetyStock: real, reorderPoint: real, toOrder: nat, orderValue: real)

  datatype Plan = Plan(count: nat, needOrder: nat, orderValue: real, rows: seq<Item>)

  function FloorZero(x: real): real { if x < 0.0 then 0.0 else x }

  function Safety(p: Policy, d: Demand): real { if d.mean > 0.0 then p.z * d.std * p.rootLead else 0.0 }

  function ReorderPoint(p: Policy, d: Demand): real { d.mean * FloorZero(p.leadTime) + Safety(p, d) }

  function OrderUpTo(p: Policy, d: Demand): real {
    d.mean * (FloorZero(p.leadTime) + FloorZero(p.reviewPeriod)) + Safety(p, d)
  }

  function ToOrder(p: Policy, d: Demand, available: real): nat {
    if d.mean > 0.0 && available < ReorderPoint(p, d) then
      var n := Ceil(OrderUpTo(p, d) - available);
      if n > 0 then n else 0
    else 0
  }

  function DemandOf(demand: map<string, Demand>, s: Stock): Demand {
    if s.id in demand then demand[s.id] else Demand(0.0, 0.0)
  }

  function Available(s: Stock): real { s.available + s.inTransit }

  function DaysOfCover(d: Demand, available: real): real {
    if d.mean > 0.0 then Round2(available / d.mean) else -1.0
  }

  function Cost(n: nat, price: real): real { n as real * price }

  function OrderValue(n: nat, s: Stock): real { MoneyRound(Cost(n, s.costPrice)) }

  function ItemOf(p: Policy, demand: map<string, Demand>, s: Stock): Item {
    var d := DemandOf(demand, s);
    var n := ToOrder(p, d, Available(s));
    Item(s.name, s.code, Round2(Available(s)), Round2(d.mean),
         DaysOfCover(d, Available(s)), Round2(Safety(p, d)), Round2(ReorderPoint(p, d)), n, OrderValue(n, s))
  }

  function Items(p: Policy, demand: map<string, Demand>, stock: seq<Stock>): seq<Item> {
    if stock == [] then []
    else Items(p, demand, stock[..|stock| - 1]) + [ItemOf(p, demand, stock[|stock| - 1])]
  }

  function Amount(it: Item): real { it.toOrder as real }

  function Value(it: Item): real { it.orderValue }

  function Ordered(items: seq<Item>): nat {
    if items == [] then 0 else Ordered(items[..|items| - 1]) + if items[|items| - 1].toOrder > 0 then 1 else 0
  }

  method PurchasePlan(stock: seq<Stock>, demand: map<string, Demand>, p: Policy, limit: int) returns (plan: Plan)
    ensures var items := SortDesc(Items(p, demand, stock), Amount);
            && plan.count == |stock| && plan.needOrder == Ordered(items)
            && plan.orderValue == MoneyRound(SumBy(items, Value)) && plan.rows == Capped(items, limit)
  {
    hide Round2, MoneyRound, SortDesc, Safety, ReorderPoint, OrderUpTo, Ceil, DaysOfCover, OrderValue;
    var items: seq<Item> := [];
    for i := 0 to |stock|
      invariant |items| == i && items == Items(p, demand, stock[..i])
    {
      var line := stock[i];
      assert stock[..i + 1][..i] == stock[..i];
      var d := DemandOf(demand, line);
      var available := line.available + line.inTransit;
      var rop := ReorderPoint(p, d);
      var toOrder: nat := 0;
      if d.mean > 0.0 && available < rop {
        var n := Ceil(OrderUpTo(p, d) - available);
        toOrder := if n > 0 then n else 0;
      }
      items := items + [Item(line.name, line.code, Round2(available), Round2(d.mean),
                             DaysOfCover(d, available), Round2(Safety(p, d)), Round2(rop), toOrder,
                             OrderValue(toOrder, line))];
    }
    assert stock[..|stock|] == stock;
    items := SortDesc(items, Amount);
    var needOrder := 0;
    for i := 0 to |items|
      invariant needOrder == Ordered(items[..i])
    {
      assert items[..i + 1][..i] == items[..i];
      if items[i].toOrder > 0 {
        needOrder := needOrder + 1;
      }
    }
    assert items[..|items|] == items;
    plan := Plan(|items|, needOrder, MoneyRound(SumBy(items, Value)), Capped(items, limit));
  }

  // ---- the levels -----------------------------------------------------------------

  /**
   What the levels mean for a product in demand: up to the reorder point there is the mean
   demand of the lead time and, above that, `z` deviations of the demand over that time;
   up to the other level there is the mean demand of the review period more.
   */
  lemma LevelsMean(p: Policy, d: Demand)
    requires d.mean > 0.0 && p.z >= 0.0 && d.std >= 0.0 && p.rootLead >= 0.0
    requires var lead := if p.leadTime > 0.0 then p.leadTime else 0.0; p.rootLead * p.rootLead == lead
    ensures var lead := if p.leadTime > 0.0 then p.leadTime else 0.0;
            var review := if p.reviewPeriod > 0.0 then p.reviewPeriod else 0.0;
            var excess := ReorderPoint(p, d) - d.mean * lead;
            && excess >= 0.0
            && excess * excess == p.z * p.z * (d.std * d.std * lead)
            && OrderUpTo(p, d) - ReorderPoint(p, d) == d.mean * review
  {
    var lead, review := FloorZero(p.leadTime), FloorZero(p.reviewPeriod);
    assert d.mean * (lead + review) == d.mean * lead + d.mean * review;
    SquareOf(p.z, d.std, p.rootLead);
  }

  lemma SquareOf(z: real, std: real, root: real)
    requires z >= 0.0 && std >= 0.0 && root >= 0.0
    ensures z * std * root >= 0.0
    ensures (z * std * root) * (z * std * root) == z * z * (std * std * (root * root))
  {
    var zs := z * std;
    assert (zs * root) * (zs * root) == (zs * zs) * (root * root);
    assert zs * zs == (z * z) * (std * std);
    assert ((z * z) * (std * std)) * (root * root) == z * z * (std * std * (root * root));
  }

  /** No demand, no level above zero, and nothing ordered, whatever the stock. */
  lemma NoDemandNoOrder(p: Policy, available: real)
    ensures Safety(p, Demand(0.0, 0.0)) == 0.0 && ReorderPoint(p, Demand(0.0, 0.0)) == 0.0
    ensures ToOrder(p, Demand(0.0, 0.0), available) == 0
  {
  }

  /** The figures shown for a stock line, each to its rounding. */
  lemma ItemShows(p: Policy, demand: map<string, Demand>, s: Stock)
    ensures var it := ItemOf(p, demand, s);
            var d := if s.id in demand then demand[s.id] else Demand(0.0, 0.0);
            var available := s.available + s.inTransit;
            && it.name == s.name && it.code == s.code && it.toOrder == ToOrder(p, d, available)
            && Abs(it.available - available) <= 0.005 && Abs(it.dailyDemand - d.mean) <= 0.005
            && Abs(it.reorderPoint - ReorderPoint(p, d)) <= 0.005
            && it.orderValue == OrderValue(it.toOrder, s)
    ensures var it, d := ItemOf(p, demand, s), DemandOf(demand, s);
            && (d.mean > 0.0 ==> Abs(it.daysOfCover - (s.available + s.inTransit) / d.mean) <= 0.005)
            && (d.mean <= 0.0 ==> it.daysOfCover == -1.0 && it.safetyStock == 0.0)
  {
    hide Round2, MoneyRound, WholeCents, ReorderPoint, ToOrder, OrderValue, Abs;
    var d := DemandOf(demand, s);
    Round2Near(Available(s));
    Round2Near(d.mean);
    Round2Near(ReorderPoint(p, d));
    if d.mean > 0.0 {
      Round2Near(Available(s) / d.mean);
    } else {
      ZeroShown();
    }
  }

  /** The value of an order is the cost of its units, to the nearest cent. */
  lemma OrderWorth(n: nat, s: Stock)
    ensures Abs(OrderValue(n, s) - Cost(n, s.costPrice)) <= 0.005 && WholeCents(OrderValue(n, s))
    ensures Cost(0, s.costPrice) == 0.0 && Cost(n + 1, s.costPrice) == Cost(n, s.costPrice) + s.costPrice
  {
    UnitMore(n, s.costPrice);
    hide MoneyRound, WholeCents, Cost;
    MoneyRoundNear(Cost(n, s.costPrice));
  }

  lemma UnitMore(n: nat, price: real)
    ensures Cost(0, price) == 0.0 && Cost(n + 1, price) == Cost(n, price) + price
  {
    assert (n + 1) as real == n as real + 1.0;
  }

  lemma ZeroShown()
    ensures Round2(0.0) == 0.0
  {
    RoundedInteger(0);
  }

  /** The safety stock shown is the reorder point less the mean demand of the lead time. */
  lemma SafetyShows(p: Policy, demand: map<string, Demand>, s: Stock)
    ensures var it := ItemOf(p, demand, s);
            var d := if s.id in demand then demand[s.id] else Demand(0.0, 0.0);
            var lead := if p.leadTime > 0.0 then p.leadTime else 0.0;
            Abs(it.safetyStock - (ReorderPoint(p, d) - d.mean * lead)) <= 0.005
  {
    hide Round2, MoneyRound, Safety, ToOrder;
    Round2Near(Safety(p, DemandOf(demand, s)));
  }

  /** The rows shown are the largest orders. */
  lemma LargestOrdersShown(items: seq<Item>, limit: int, i: nat, j: nat)
    requires i < |Capped(SortDesc(items, Amount), limit)| && i < j < |items|
    ensures Capped(SortDesc(items, Amount), limit)[i].toOrder >= SortDesc(items, Amount)[j].toOrder
  {
    var all := SortDesc(items, Amount);
    Sorted(items, Amount);
    assert Amount(all[i]) >= Amount(all[j]);
  }

  // ---- the policy -----------------------------------------------------------------

  /** The order-up-to level is never below the reorder point. */
  lemma LevelsOrdered(p: Policy, d: Demand)
    requires d.mean > 0.0
    ensures ReorderPoint(p, d) <= OrderUpTo(p, d)
  {
    var lead, review := FloorZero(p.leadTime), FloorZero(p.reviewPeriod);
    assert d.mean * (lead + review) == d.mean * lead + d.mean * review;
    assert d.mean * review >= 0.0;
  }

  /** Ordering `m` units brings the stock to the order-up-to level. */
  predicate Lifts(p: Policy, d: Demand, available: real, m: int) { available + m as real >= OrderUpTo(p, d) }

  /**
   An item is ordered exactly below its reorder point, and the amount is the least
   integer that lifts the stock to the order-up-to level.
   */
  lemma OrdersLeastLift(p: Policy, d: Demand, available: real)
    ensures ToOrder(p, d, available) > 0 <==> d.mean > 0.0 && available < ReorderPoint(p, d)
    ensures var n := ToOrder(p, d, available);
            n > 0 ==> Lifts(p, d, available, n) && forall m :: Lifts(p, d, available, m) ==> m >= n
  {
    hide ReorderPoint, OrderUpTo;
    if d.mean > 0.0 && available < ReorderPoint(p, d) {
      LevelsOrdered(p, d);
      var n := ToOrder(p, d, available);
      forall m | Lifts(p, d, available, m)
        ensures m >= n
      {
        assert m < n ==> m as real <= n as real - 1.0;
      }
    }
  }

  /** Once the ordered amount has come in, planning again orders nothing. */
  lemma ReplanOrdersNothing(p: Policy, d: Demand, available: real)
    ensures ToOrder(p, d, available + ToOrder(p, d, available) as real) == 0
  {
    hide ReorderPoint, OrderUpTo;
    OrdersLeastLift(p, d, available);
    if d.mean > 0.0 {
      LevelsOrdered(p, d);
    }
  }

  /** More stock never means a larger order. */
  lemma OrderFallsWithStock(p: Policy, d: Demand, less: real, more: real)
    requires less <= more
    ensures ToOrder(p, d, more) <= ToOrder(p, d, less)
  {
    hide ReorderPoint, OrderUpTo;
    OrdersLeastLift(p, d, less);
    OrdersLeastLift(p, d, more);
    if ToOrder(p, d, more) > 0 {
      assert Lifts(p, d, more, ToOrder(p, d, less));
    }
  }

  // ---- the totals -----------------------------------------------------------------

  function IsOrdered(it: Item): real { if it.toOrder > 0 then 1.0 else 0.0 }

  lemma {:induction false} OrderedIsSum(items: seq<Item>)
    ensures Ordered(items) as real == SumBy(items, IsOrdered)
  {
    if items != [] {
      OrderedIsSum(items[..|items| - 1]);
    }
  }

  /** The lines below their reorder point. */
  function Needy(p: Policy, demand: map<string, Demand>, stock: seq<Stock>): nat {
    if stock == [] then 0
    else
      var s := stock[|stock| - 1];
      var d := DemandOf(demand, s);
      Needy(p, demand, stock[..|stock| - 1])
      + if d.mean > 0.0 && Available(s) < ReorderPoint(p, d) then 1 else 0
  }

  lemma {:induction false} UnsortedCount(p: Policy, demand: map<string, Demand>, stock: seq<Stock>)
    ensures Ordered(Items(p, demand, stock)) == Needy(p, demand, stock)
  {
    hide Round2, MoneyRound, ToOrder, ReorderPoint, DaysOfCover, OrderValue;
    if stock != [] {
      var before, s := stock[..|stock| - 1], stock[|stock| - 1];
      UnsortedCount(p, demand, before);
      OrdersLeastLift(p, DemandOf(demand, s), Available(s));
      assert Items(p, demand, stock)[..|Items(p, demand, before)|] == Items(p, demand, before);
    }
  }

  /** `need_order` counts exactly the lines below their reorder point, whatever is shown. */
  lemma NeedOrderCounts(p: Policy, demand: map<string, Demand>, stock: seq<Stock>)
    ensures Ordered(SortDesc(Items(p, demand, stock), Amount)) == Needy(p, demand, stock)
  {
    hide Items, Needy, Ordered;
    var items := Items(p, demand, stock);
    Sorted(items, Amount);
    OrderedIsSum(items);
    OrderedIsSum(SortDesc(items, Amount));
    SumByPermutation(SortDesc(items, Amount), items, IsOrdered);
    UnsortedCount(p, demand, stock);
  }

  function ValueFor(p: Policy, demand: map<string, Demand>): Stock -> real {
    s => OrderValue(ToOrder(p, DemandOf(demand, s), Available(s)), s)
  }

  lemma {:induction false} ItemValues(p: Policy, demand: map<string, Demand>, stock: seq<Stock>)
    ensures SumBy(Items(p, demand, stock), Value) == SumBy(stock, ValueFor(p, demand))
    ensures WholeCents(SumBy(Items(p, demand, stock), Value))
    decreases |stock|
  {
    hide Round2, MoneyRound, WholeCents, ToOrder, ReorderPoint, DaysOfCover, OrderValue, Safety;
    CentsExact(0);
    if stock != [] {
      var before, s := stock[..|stock| - 1], stock[|stock| - 1];
      ItemValues(p, demand, before);
      SumBySnoc(Items(p, demand, before), ItemOf(p, demand, s), Value);
      OrderWorth(ToOrder(p, DemandOf(demand, s), Available(s)), s);
      WholeCentsClosed(SumBy(Items(p, demand, before), Value), Value(ItemOf(p, demand, s)));
    }
  }

  /** The plan's value is what the orders of all lines are worth, and rounding it changes nothing. */
  lemma PlanValue(p: Policy, demand: map<string, Demand>, stock: seq<Stock>)
    ensures MoneyRound(SumBy(SortDesc(Items(p, demand, stock), Amount), Value)) == SumBy(stock, ValueFor(p, demand))
  {
    hide Items, SumBy, MoneyRound, WholeCents;
    var items := Items(p, demand, stock);
    Sorted(items, Amount);
    SumByPermutation(SortDesc(items, Amount), items, Value);
    ItemValues(p, demand, stock);
    IsUnrounded(SumBy(items, Value));
  }
}
