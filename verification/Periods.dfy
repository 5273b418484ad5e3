/**
 Period comparison (chic/aggregate/analytics.py, `compare_periods`). A Python dict
 is its keys in insertion order and their amounts; keys are opaque, only equality
 matters.
 */
module Periods {
  import opened Money
  import opened Sums
  import opened Sorting

  type Key = int
  datatype Pair = Pair(key: Key, value: real)
  datatype Ledger = Ledger(order: seq<Key>, amounts: map<Key, real>)
  datatype Change = Change(key: Key, valueA: real, valueB: real, delta: real, deltaPct: real)
  datatype Comparison = Comparison(
    totalA: real, totalB: real, delta: real, deltaPct: real, topGainers: seq<Change>, topDecliners: seq<Change>)

  function Get(m: map<Key, real>, k: Key): real { if k in m then m[k] else 0.0 }

  function Amount(m: map<Key, real>): Key -> real { k => Get(m, k) }

  /** One step of `_fold`: a new key goes last, a known one keeps its place. */
  function Add(l: Ledger, p: Pair): Ledger {
    Ledger(if p.key in l.amounts then l.order else l.order + [p.key],
           l.amounts[p.key := Get(l.amounts, p.key) + p.value])
  }

  /** `_fold` */
  function Folded(pairs: seq<Pair>): Ledger {
    if pairs == [] then Ledger([], map[]) else Add(Folded(pairs[..|pairs| - 1]), pairs[|pairs| - 1])
  }

  function PctChange(a: real, b: real): real {
    if a == 0.0 then if b == 0.0 then 0.0 else 100.0 else Round2((b - a) / a * 100.0)
  }

  function MkChange(k: Key, a: real, b: real): Change {
    Change(k, MoneyRound(a), MoneyRound(b), MoneyRound(b - a), PctChange(a, b))
  }

  /** The changes of the keys of period A … */
  function ChangesA(order: seq<Key>, a: map<Key, real>, b: map<Key, real>): seq<Change> {
    if order == [] then []
    else
      var k := order[|order| - 1];
      ChangesA(order[..|order| - 1], a, b) + [MkChange(k, Get(a, k), Get(b, k))]
  }

  /** … and of the keys only period B has. */
  function ChangesB(order: seq<Key>, a: map<Key, real>, b: map<Key, real>): seq<Change> {
    if order == [] then []
    else
      var k := order[|order| - 1];
      ChangesB(order[..|order| - 1], a, b) + if k in a then [] else [MkChange(k, 0.0, Get(b, k))]
  }

  function Changes(a: Ledger, b: Ledger): seq<Change> {
    ChangesA(a.order, a.amounts, b.amounts) + ChangesB(b.order, a.amounts, b.amounts)
  }

  function Delta(c: Change): real { c.delta }

  function Fall(c: Change): real { -c.delta }

  function Rising(s: seq<Change>): seq<Change> {
    if s == [] then [] else Rising(s[..|s| - 1]) + if s[|s| - 1].delta > 0.0 then [s[|s| - 1]] else []
  }

  function Falling(s: seq<Change>): seq<Change> {
    if s == [] then [] else Falling(s[..|s| - 1]) + if s[|s| - 1].delta < 0.0 then [s[|s| - 1]] else []
  }

  function Gainers(changes: seq<Change>): seq<Change> { Rising(SortDesc(changes, Delta)) }

  function Decliners(changes: seq<Change>): seq<Change> { Falling(SortDesc(changes, Fall)) }

  function Total(l: Ledger): real { SumBy(l.order, Amount(l.amounts)) }

  method Fold(pairs: seq<Pair>) returns (m: Ledger)
    ensures m == Folded(pairs)
  {
    var order: seq<Key> := [];
    var amounts: map<Key, real> := map[];
    for i := 0 to |pairs|
      invariant Ledger(order, amounts) == Folded(pairs[..i])
    {
      var p := pairs[i];
      assert pairs[..i + 1][..i] == pairs[..i];
      if p.key !in amounts {
        order := order + [p.key];
      }
      amounts := amounts[p.key := Get(amounts, p.key) + p.value];
    }
    assert pairs[..|pairs|] == pairs;
    m := Ledger(order, amounts);
  }

  lemma NothingChanged(a: map<Key, real>, b: map<Key, real>)
    ensures SumBy([], Amount(a)) == 0.0 && SumBy([], Amount(b)) == 0.0
    ensures ChangesA([], a, b) == [] && ChangesB([], a, b) == []
  {
  }

  lemma NextOfA(order: seq<Key>, i: nat, a: map<Key, real>, b: map<Key, real>)
    requires i < |order|
    ensures SumBy(order[..i + 1], Amount(a)) == SumBy(order[..i], Amount(a)) + Get(a, order[i])
    ensures ChangesA(order[..i + 1], a, b)
         == ChangesA(order[..i], a, b) + [MkChange(order[i], Get(a, order[i]), Get(b, order[i]))]
  {
    hide MkChange, Get;
    assert order[..i + 1][..i] == order[..i];
  }

  lemma NextOfB(order: seq<Key>, i: nat, a: map<Key, real>, b: map<Key, real>)
    requires i < |order|
    ensures SumBy(order[..i + 1], Amount(b)) == SumBy(order[..i], Amount(b)) + Get(b, order[i])
    ensures ChangesB(order[..i + 1], a, b)
         == ChangesB(order[..i], a, b) + if order[i] in a then [] else [MkChange(order[i], 0.0, Get(b, order[i]))]
  {
    hide MkChange, Get;
    assert order[..i + 1][..i] == order[..i];
  }

  method ComparePeriods(a: seq<Pair>, b: seq<Pair>, topN: int) returns (c: Comparison)
    ensures var la, lb := Folded(a), Folded(b);
            && c.totalA == MoneyRound(Total(la)) && c.totalB == MoneyRound(Total(lb))
            && c.delta == MoneyRound(Total(lb) - Total(la)) && c.deltaPct == PctChange(Total(la), Total(lb))
            && c.topGainers == Prefix(Gainers(Changes(la, lb)), topN)
            && c.topDecliners == Prefix(Decliners(Changes(la, lb)), topN)
  {
    hide MoneyRound, PctChange, Gainers, Decliners, MkChange, Prefix, Folded, SumBy, ChangesA, ChangesB, Get, Amount;
    var ma := Fold(a);
    var mb := Fold(b);
    var changes: seq<Change> := [];
    var totalA, totalB := 0.0, 0.0;
    NothingChanged(ma.amounts, mb.amounts);
    for i := 0 to |ma.order|
      invariant totalA == SumBy(ma.order[..i], Amount(ma.amounts))
      invariant changes == ChangesA(ma.order[..i], ma.amounts, mb.amounts)
    {
      var k := ma.order[i];
      NextOfA(ma.order, i, ma.amounts, mb.amounts);
      totalA := totalA + Get(ma.amounts, k);
      changes := changes + [MkChange(k, Get(ma.amounts, k), Get(mb.amounts, k))];
    }
    assert ma.order[..|ma.order|] == ma.order;
    var ofA := changes;
    for i := 0 to |mb.order|
      invariant totalB == SumBy(mb.order[..i], Amount(mb.amounts))
      invariant changes == ofA + ChangesB(mb.order[..i], ma.amounts, mb.amounts)
    {
      var k := mb.order[i];
      NextOfB(mb.order, i, ma.amounts, mb.amounts);
      totalB := totalB + Get(mb.amounts, k);
      if k !in ma.amounts {
        changes := changes + [MkChange(k, 0.0, Get(mb.amounts, k))];
      }
    }
    assert mb.order[..|mb.order|] == mb.order;
    c := Comparison(MoneyRound(totalA), MoneyRound(totalB), MoneyRound(totalB - totalA), PctChange(totalA, totalB),
                    Prefix(Gainers(changes), topN), Prefix(Decliners(changes), topN));
  }

  // ---- what the lists show --------------------------------------------------------

  /** The percentage is that of the change, to its rounding; from nothing it is 0 or 100. */
  lemma PctShows(a: real, b: real)
    ensures a == 0.0 && b == 0.0 ==> PctChange(a, b) == 0.0
    ensures a == 0.0 && b != 0.0 ==> PctChange(a, b) == 100.0
    ensures a != 0.0 ==> Abs(PctChange(a, b) - (b - a) / a * 100.0) <= 0.005
  {
    hide Round2;
    if a != 0.0 {
      Round2Near((b - a) / a * 100.0);
    }
  }

  lemma {:induction false} RisingIn(s: seq<Change>, c: Change)
    ensures c in Rising(s) <==> c in s && c.delta > 0.0
    ensures c in Falling(s) <==> c in s && c.delta < 0.0
    decreases |s|
  {
    if s != [] {
      RisingIn(s[..|s| - 1], c);
    }
  }

  ghost predicate Rises(s: seq<Change>) { forall i, j :: 0 <= i < j < |s| ==> s[i].delta >= s[j].delta }

  ghost predicate Sinks(s: seq<Change>) { forall i, j :: 0 <= i < j < |s| ==> s[i].delta <= s[j].delta }

  lemma {:induction false} RisingSorted(s: seq<Change>)
    ensures Rises(s) ==> Rises(Rising(s))
    ensures Sinks(s) ==> Sinks(Falling(s))
    decreases |s|
  {
    if s != [] {
      var before, last := s[..|s| - 1], s[|s| - 1];
      RisingSorted(before);
      forall c
        ensures c in Rising(before) || c in Falling(before) ==> exists i :: 0 <= i < |before| && s[i] == c
      {
        RisingIn(before, c);
      }
      RestInOrder(s);
    }
  }

  lemma RestInOrder(s: seq<Change>)
    requires s != []
    requires var before := s[..|s| - 1];
             && (Rises(before) ==> Rises(Rising(before))) && (Sinks(before) ==> Sinks(Falling(before)))
             && forall c :: c in Rising(before) || c in Falling(before) ==>
                  exists i :: 0 <= i < |before| && s[i] == c
    ensures Rises(s) ==> Rises(Rising(s))
    ensures Sinks(s) ==> Sinks(Falling(s))
  {
    var before, last := s[..|s| - 1], s[|s| - 1];
    var up, down := Rising(s), Falling(s);
    if Rises(s) {
      forall i, j | 0 <= i < j < |up|
        ensures up[i].delta >= up[j].delta
      {
        assert up[i] in Rising(before);
      }
    }
    if Sinks(s) {
      forall i, j | 0 <= i < j < |down|
        ensures down[i].delta <= down[j].delta
      {
        assert down[i] in Falling(before);
      }
    }
  }

  /** Gainers are just the rising changes, the largest first; decliners the falling ones, the lowest first. */
  lemma ListsInOrder(changes: seq<Change>)
    ensures forall c :: c in Gainers(changes) <==> c in changes && c.delta > 0.0
    ensures forall c :: c in Decliners(changes) <==> c in changes && c.delta < 0.0
    ensures Rises(Gainers(changes)) && Sinks(Decliners(changes))
  {
    hide SortDesc, Rising, Falling;
    var up, down := SortDesc(changes, Delta), SortDesc(changes, Fall);
    Sorted(changes, Delta);
    Sorted(changes, Fall);
    SameChanges(up, changes);
    SameChanges(down, changes);
    assert forall i, j :: 0 <= i < j < |down| ==> Fall(down[i]) >= Fall(down[j]);
    assert forall i, j :: 0 <= i < j < |up| ==> Delta(up[i]) >= Delta(up[j]);
    RisingSorted(up);
    RisingSorted(down);
    forall c
      ensures c in Gainers(changes) <==> c in changes && c.delta > 0.0
      ensures c in Decliners(changes) <==> c in changes && c.delta < 0.0
    {
      RisingIn(up, c);
      RisingIn(down, c);
    }
  }

  lemma SameChanges(x: seq<Change>, y: seq<Change>)
    requires multiset(x) == multiset(y)
    ensures forall c :: c in x <==> c in y
  {
    assert forall c :: c in x <==> c in multiset(x);
    assert forall c :: c in y <==> c in multiset(y);
  }

  // ---- conservation -------------------------------------------------------------

  ghost predicate WellFormed(l: Ledger) { NoRepeats(l.order) && Elements(l.order) == l.amounts.Keys }

  lemma {:induction false} FoldedWellFormed(pairs: seq<Pair>)
    ensures WellFormed(Folded(pairs))
  {
    if pairs != [] {
      FoldedWellFormed(pairs[..|pairs| - 1]);
    }
  }

  function ValueOf(p: Pair): real { p.value }

  lemma {:induction false} SumByUpdate(order: seq<Key>, m: map<Key, real>, k: Key, v: real)
    requires NoRepeats(order)
    ensures SumBy(order, Amount(m[k := v])) == SumBy(order, Amount(m)) + if k in order then v - Get(m, k) else 0.0
  {
    if order != [] {
      SumByUpdate(order[..|order| - 1], m, k, v);
    }
  }

  /** Folding keeps the total of the raw pairs. */
  lemma {:induction false} FoldKeepsTotal(pairs: seq<Pair>)
    ensures Total(Folded(pairs)) == SumBy(pairs, ValueOf)
  {
    hide Add, WellFormed;
    if pairs != [] {
      FoldKeepsTotal(pairs[..|pairs| - 1]);
      FoldedWellFormed(pairs[..|pairs| - 1]);
      AddToLedger(Folded(pairs[..|pairs| - 1]), pairs[|pairs| - 1]);
    }
  }

  lemma AddToLedger(l: Ledger, p: Pair)
    requires WellFormed(l)
    ensures Total(Add(l, p)) == Total(l) + p.value
  {
    var v := Get(l.amounts, p.key) + p.value;
    assert p.key in Elements(l.order) <==> p.key in l.amounts;
    SumByUpdate(l.order, l.amounts, p.key, v);
    SumBySnoc(l.order, p.key, Amount(l.amounts[p.key := v]));
  }

  ghost predicate WholeCentPairs(pairs: seq<Pair>) {
    forall i :: 0 <= i < |pairs| ==> WholeCents(pairs[i].value)
  }

  ghost predicate WholeCentAmounts(m: map<Key, real>) { forall k :: k in m ==> WholeCents(m[k]) }

  lemma {:induction false} FoldKeepsWholeCents(pairs: seq<Pair>)
    requires WholeCentPairs(pairs)
    ensures WholeCentAmounts(Folded(pairs).amounts)
  {
    hide WholeCents;
    if pairs != [] {
      var before, p := Folded(pairs[..|pairs| - 1]), pairs[|pairs| - 1];
      FoldKeepsWholeCents(pairs[..|pairs| - 1]);
      CentsExact(0);
      WholeCentsClosed(Get(before.amounts, p.key), p.value);
    }
  }

  lemma WholeChange(k: Key, a: real, b: real)
    requires WholeCents(a) && WholeCents(b)
    ensures MkChange(k, a, b).delta == b - a
  {
    WholeCentsClosed(b, a);
  }

  lemma {:induction false} DeltasOfA(order: seq<Key>, a: map<Key, real>, b: map<Key, real>)
    requires WholeCentAmounts(a) && WholeCentAmounts(b)
    ensures SumBy(ChangesA(order, a, b), Delta) == SumBy(order, Amount(b)) - SumBy(order, Amount(a))
  {
    hide WholeCents, MkChange;
    if order != [] {
      var before, k := order[..|order| - 1], order[|order| - 1];
      DeltasOfA(before, a, b);
      CentsExact(0);
      WholeChange(k, Get(a, k), Get(b, k));
      SumBySnoc(ChangesA(before, a, b), MkChange(k, Get(a, k), Get(b, k)), Delta);
    }
  }

  /** What period B has on the keys that period A lacks. */
  function Fresh(a: map<Key, real>, b: map<Key, real>): Key -> real { k => if k in a then 0.0 else Get(b, k) }

  lemma {:induction false} DeltasOfB(order: seq<Key>, a: map<Key, real>, b: map<Key, real>)
    requires WholeCentAmounts(b)
    ensures SumBy(ChangesB(order, a, b), Delta) == SumBy(order, Fresh(a, b))
  {
    hide WholeCents, MkChange;
    if order != [] {
      var before, k := order[..|order| - 1], order[|order| - 1];
      DeltasOfB(before, a, b);
      CentsExact(0);
      WholeChange(k, 0.0, Get(b, k));
      if k in a {
        assert ChangesB(order, a, b) == ChangesB(before, a, b);
      } else {
        SumBySnoc(ChangesB(before, a, b), MkChange(k, 0.0, Get(b, k)), Delta);
      }
    }
  }

  /** Period B's amounts, met once along A's keys and once along its own. */
  lemma EachKeyOnce(a: Ledger, b: Ledger)
    requires WellFormed(a) && WellFormed(b)
    ensures SumBy(a.order, Amount(b.amounts)) + SumBy(b.order, Fresh(a.amounts, b.amounts)) == Total(b)
  {
    hide SumOver, SumBy, Amount, Fresh;
    var ka, kb := a.amounts.Keys, b.amounts.Keys;
    var f, g := Amount(b.amounts), Fresh(a.amounts, b.amounts);
    SumOverEnumeration(a.order, f);
    SumOverEnumeration(b.order, f);
    SumOverEnumeration(b.order, g);
    FreshSums(a.amounts, b.amounts);
    SplitSum(ka, kb, f);
    SplitSum(kb, ka, f);
    SplitSum(kb, ka, g);
    assert ka * kb == kb * ka;
  }

  /** Period B has nothing on the keys of A alone; on its own keys its amounts are all fresh. */
  lemma FreshSums(a: map<Key, real>, b: map<Key, real>)
    ensures SumOver(a.Keys - b.Keys, Amount(b)) == 0.0
    ensures SumOver(b.Keys * a.Keys, Fresh(a, b)) == 0.0
    ensures SumOver(b.Keys - a.Keys, Amount(b)) == SumOver(b.Keys - a.Keys, Fresh(a, b))
  {
    hide SumOver;
    ZeroSum(a.Keys - b.Keys, Amount(b));
    ZeroSum(b.Keys * a.Keys, Fresh(a, b));
    SumOverSame(b.Keys - a.Keys, Amount(b), Fresh(a, b));
  }

  lemma SplitSum(x: set<Key>, y: set<Key>, f: Key -> real)
    ensures SumOver(x, f) == SumOver(x * y, f) + SumOver(x - y, f)
  {
    hide SumOver;
    SumOverDisjoint(x * y, x - y, f);
    assert x * y + (x - y) == x;
  }

  lemma ChangesConserve(a: Ledger, b: Ledger)
    requires WellFormed(a) && WellFormed(b) && WholeCentAmounts(a.amounts) && WholeCentAmounts(b.amounts)
    ensures SumBy(Changes(a, b), Delta) == Total(b) - Total(a)
  {
    hide WholeCentAmounts, WellFormed, SumBy;
    DeltasOfA(a.order, a.amounts, b.amounts);
    DeltasOfB(b.order, a.amounts, b.amounts);
    SumByConcat(ChangesA(a.order, a.amounts, b.amounts), ChangesB(b.order, a.amounts, b.amounts), Delta);
    EachKeyOnce(a, b);
  }

  function ValueA(c: Change): real { c.valueA }

  function ValueB(c: Change): real { c.valueB }

  /** On whole cents a change shows just the two amounts and their difference. */
  lemma ChangeShows(k: Key, a: real, b: real)
    requires WholeCents(a) && WholeCents(b)
    ensures var c := MkChange(k, a, b);
            && c.key == k && c.valueA == a && c.valueB == b
            && c.delta == c.valueB - c.valueA && c.deltaPct == PctChange(a, b)
  {
    hide WholeCents, MoneyRound;
    IsUnrounded(a);
    IsUnrounded(b);
    WholeCentsClosed(b, a);
    IsUnrounded(b - a);
  }

  lemma {:induction false} ValuesOfA(order: seq<Key>, a: map<Key, real>, b: map<Key, real>)
    requires WholeCentAmounts(a) && WholeCentAmounts(b)
    ensures SumBy(ChangesA(order, a, b), ValueA) == SumBy(order, Amount(a))
    ensures SumBy(ChangesA(order, a, b), ValueB) == SumBy(order, Amount(b))
  {
    hide WholeCents, MkChange;
    if order != [] {
      var before, k := order[..|order| - 1], order[|order| - 1];
      ValuesOfA(before, a, b);
      CentsExact(0);
      ChangeShows(k, Get(a, k), Get(b, k));
      SumBySnoc(ChangesA(before, a, b), MkChange(k, Get(a, k), Get(b, k)), ValueA);
      SumBySnoc(ChangesA(before, a, b), MkChange(k, Get(a, k), Get(b, k)), ValueB);
    }
  }

  lemma {:induction false} ValuesOfB(order: seq<Key>, a: map<Key, real>, b: map<Key, real>)
    requires WholeCentAmounts(b)
    ensures SumBy(ChangesB(order, a, b), ValueA) == 0.0
    ensures SumBy(ChangesB(order, a, b), ValueB) == SumBy(order, Fresh(a, b))
  {
    hide WholeCents, MkChange;
    if order != [] {
      var before, k := order[..|order| - 1], order[|order| - 1];
      ValuesOfB(before, a, b);
      CentsExact(0);
      ChangeShows(k, 0.0, Get(b, k));
      if k in a {
        assert ChangesB(order, a, b) == ChangesB(before, a, b);
      } else {
        SumBySnoc(ChangesB(before, a, b), MkChange(k, 0.0, Get(b, k)), ValueA);
        SumBySnoc(ChangesB(before, a, b), MkChange(k, 0.0, Get(b, k)), ValueB);
      }
    }
  }

  /** The changes show all of both periods: their values sum to the two totals. */
  lemma ChangesShowTotals(a: Ledger, b: Ledger)
    requires WellFormed(a) && WellFormed(b) && WholeCentAmounts(a.amounts) && WholeCentAmounts(b.amounts)
    ensures SumBy(Changes(a, b), ValueA) == Total(a) && SumBy(Changes(a, b), ValueB) == Total(b)
  {
    hide WholeCentAmounts, WellFormed, SumBy;
    ValuesOfA(a.order, a.amounts, b.amounts);
    ValuesOfB(b.order, a.amounts, b.amounts);
    SumByConcat(ChangesA(a.order, a.amounts, b.amounts), ChangesB(b.order, a.amounts, b.amounts), ValueA);
    SumByConcat(ChangesA(a.order, a.amounts, b.amounts), ChangesB(b.order, a.amounts, b.amounts), ValueB);
    EachKeyOnce(a, b);
  }

  function Up(c: Change): real { if c.delta > 0.0 then c.delta else 0.0 }

  function Down(c: Change): real { if c.delta < 0.0 then c.delta else 0.0 }

  lemma {:induction false} RisingSum(s: seq<Change>)
    ensures SumBy(Rising(s), Delta) == SumBy(s, Up) && |Rising(s)| <= |s|
  {
    if s != [] {
      var before, c := s[..|s| - 1], s[|s| - 1];
      RisingSum(before);
      SumBySnoc(Rising(before), c, Delta);
      assert Rising(before) + [] == Rising(before);
    }
  }

  lemma {:induction false} FallingSum(s: seq<Change>)
    ensures SumBy(Falling(s), Delta) == SumBy(s, Down) && |Falling(s)| <= |s|
  {
    if s != [] {
      var before, c := s[..|s| - 1], s[|s| - 1];
      FallingSum(before);
      SumBySnoc(Falling(before), c, Delta);
      assert Falling(before) + [] == Falling(before);
    }
  }

  lemma {:induction false} UpAndDown(s: seq<Change>)
    ensures SumBy(s, Up) + SumBy(s, Down) == SumBy(s, Delta)
  {
    if s != [] {
      UpAndDown(s[..|s| - 1]);
    }
  }

  /** With room for every key, gainers and decliners account for the published delta. */
  lemma GainersAndDeclinersReconcile(a: seq<Pair>, b: seq<Pair>, topN: int)
    requires WholeCentPairs(a) && WholeCentPairs(b)
    requires topN >= |Changes(Folded(a), Folded(b))|
    ensures var changes := Changes(Folded(a), Folded(b));
            SumBy(Prefix(Gainers(changes), topN), Delta) + SumBy(Prefix(Decliners(changes), topN), Delta)
              == SumBy(b, ValueOf) - SumBy(a, ValueOf)
              == MoneyRound(Total(Folded(b)) - Total(Folded(a)))
  {
    hide WholeCents, MoneyRound, Folded, Changes, SumBy, Rising, Falling;
    var la, lb := Folded(a), Folded(b);
    var changes := Changes(la, lb);
    FoldedWellFormed(a);
    FoldedWellFormed(b);
    FoldKeepsWholeCents(a);
    FoldKeepsWholeCents(b);
    ChangesConserve(la, lb);
    BothSides(changes);
    FoldKeepsTotal(a);
    FoldKeepsTotal(b);
    WholeTotals(a, b);
  }

  lemma BothSides(changes: seq<Change>)
    ensures SumBy(Gainers(changes), Delta) + SumBy(Decliners(changes), Delta) == SumBy(changes, Delta)
    ensures |Gainers(changes)| <= |changes| && |Decliners(changes)| <= |changes|
  {
    hide SumBy, Rising, Falling, SortDesc;
    Sorted(changes, Delta);
    Sorted(changes, Fall);
    RisingSum(SortDesc(changes, Delta));
    FallingSum(SortDesc(changes, Fall));
    UpAndDown(changes);
    SumByPermutation(SortDesc(changes, Delta), changes, Up);
    SumByPermutation(SortDesc(changes, Fall), changes, Down);
  }

  lemma {:induction false} WholeSum(pairs: seq<Pair>)
    requires WholeCentPairs(pairs)
    ensures WholeCents(SumBy(pairs, ValueOf))
  {
    hide WholeCents;
    CentsExact(0);
    if pairs != [] {
      WholeSum(pairs[..|pairs| - 1]);
      WholeCentsClosed(SumBy(pairs[..|pairs| - 1], ValueOf), pairs[|pairs| - 1].value);
    }
  }

  lemma WholeTotals(a: seq<Pair>, b: seq<Pair>)
    requires WholeCentPairs(a) && WholeCentPairs(b)
    ensures MoneyRound(SumBy(b, ValueOf) - SumBy(a, ValueOf)) == SumBy(b, ValueOf) - SumBy(a, ValueOf)
  {
    WholeSum(a);
    WholeSum(b);
    hide SumBy;
    WholeCentsClosed(SumBy(b, ValueOf), SumBy(a, ValueOf));
  }
}
