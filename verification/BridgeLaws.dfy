/**
 What the profit bridge guarantees: exact reconciliation whatever the divisions
 return, tight bounds on the published residual, closed forms under exact
 division, and independence of how the lines are ordered or split.
 */
module BridgeLaws {
  import opened Money
  import opened Basics
  import opened Sums
  import opened Sorting
  import opened Bridge

  ghost predicate Exact(div: Division) {
    forall x, y :: y != 0.0 ==> div(x, y) == x / y
  }

  // ---- reconciliation ---------------------------------------------------------

  lemma {:induction false} CommonTelescope(a: Index, b: Index, div: Division, keys: set<Id>)
    requires keys <= a.Keys * b.Keys
    ensures var s := AccruedOver(a, b, div, keys);
            && s.price + s.cost + s.volmix == SumOver(keys, Profit(b)) - SumOver(keys, Profit(a))
            && s.profitA == SumOver(keys, Profit(a))
    decreases |keys|
  {
    hide PriceOf, CostOf, AccruedOver, SumOver, Profit;
    if keys == {} {
      NothingYet(a, b, div);
      NothingAdded(a);
      NothingAdded(b);
    } else {
      var key := Any(keys);
      var fewer := keys - {key};
      assert fewer + {key} == keys;
      CommonTelescope(a, b, div, fewer);
      AccruedAdd(a, b, div, fewer, key);
      GrossAdd(a, fewer, key);
      GrossAdd(b, fewer, key);
    }
  }

  lemma SplitPeriod(own: Index, other: Index)
    ensures SumOver(own.Keys, Profit(own))
         == SumOver(own.Keys * other.Keys, Profit(own)) + SumOver(own.Keys - other.Keys, Profit(own))
  {
    hide SumOver, Profit;
    SumOverDisjoint(own.Keys * other.Keys, own.Keys - other.Keys, Profit(own));
    assert own.Keys * other.Keys + (own.Keys - other.Keys) == own.Keys;
  }

  /** The six effects sum to the gross-profit delta, whatever each division returned. */
  lemma Reconciles(a: Index, b: Index, div: Division)
    ensures var e := Unrounded(a, b, div);
            e.price + e.cost + e.volume + e.mix + e.added + e.discontinued == e.Delta()
  {
    hide SumOver, Profit, PriceTerm, CostTerm, QtyTerm, Quantity, VolumeOf;
    CommonTelescope(a, b, div, a.Keys * b.Keys);
    SplitPeriod(a, b);
    SplitPeriod(b, a);
    assert b.Keys * a.Keys == a.Keys * b.Keys;
  }

  // ---- the published residual ---------------------------------------------------

  ghost predicate WholeCentIndex(m: Index) {
    forall key :: key in m ==> WholeCents(m[key].revenue) && WholeCents(m[key].cost)
  }

  ghost predicate WholeCentLines(lines: seq<Line>) {
    forall i :: 0 <= i < |lines| ==> WholeCents(lines[i].revenue) && WholeCents(lines[i].cost)
  }

  lemma {:induction false} FoldKeepsWholeCents(lines: seq<Line>)
    requires WholeCentLines(lines)
    ensures WholeCentIndex(ById(lines))
    decreases |lines|
  {
    hide WholeCents;
    if lines != [] {
      var out, ln := ById(lines[..|lines| - 1]), lines[|lines| - 1];
      FoldKeepsWholeCents(lines[..|lines| - 1]);
      if ln.qty > 0.0 && ln.id in out {
        WholeCentsClosed(out[ln.id].revenue, ln.revenue);
        WholeCentsClosed(out[ln.id].cost, ln.cost);
      }
    }
  }

  lemma {:induction false} WholeCentSum(own: Index, keys: set<Id>)
    requires WholeCentIndex(own) && keys <= own.Keys
    ensures WholeCents(SumOver(keys, Profit(own)))
    decreases |keys|
  {
    hide WholeCents, SumOver, Profit;
    if keys == {} {
      NothingAdded(own);
      CentsExact(0);
    } else {
      var key := Any(keys);
      WholeCentSum(own, keys - {key});
      GrossAdd(own, keys - {key}, key);
      assert keys - {key} + {key} == keys;
      WholeCentsClosed(own[key].revenue, own[key].cost);
      WholeCentsClosed(SumOver(keys - {key}, Profit(own)), Gross(own[key]));
    }
  }

  /** Seven roundings, each off by half a cent at most, and a whole number of cents. */
  lemma ResidualBound(e: Effects)
    requires e.price + e.cost + e.volume + e.mix + e.added + e.discontinued == e.Delta()
    ensures Abs(Published(e).rounding) <= 0.03
    ensures WholeCents(e.added) && WholeCents(e.discontinued) && WholeCents(e.Delta()) ==>
              Abs(Published(e).rounding) <= 0.02
  {
    var k := Cents(e.Delta()) - (Cents(e.price) + Cents(e.cost) + Cents(e.volume) + Cents(e.mix)
                                 + Cents(e.added) + Cents(e.discontinued));
    assert Published(e).rounding == k as real / 100.0;
    hide Cents, Published, WholeCents;
    HalfCent(e.price);
    HalfCent(e.cost);
    HalfCent(e.volume);
    HalfCent(e.mix);
    HalfCent(e.added);
    HalfCent(e.discontinued);
    HalfCent(e.Delta());
    assert -3.5 <= k as real <= 3.5;
    assert -3 <= k <= 3;
  }

  /** Each published figure is its own effect, to the nearest cent. */
  lemma PublishedNear(e: Effects)
    ensures var r := Published(e);
            && Abs(r.price - e.price) <= 0.005 && Abs(r.cost - e.cost) <= 0.005
            && Abs(r.volume - e.volume) <= 0.005 && Abs(r.mix - e.mix) <= 0.005
            && Abs(r.added - e.added) <= 0.005 && Abs(r.discontinued - e.discontinued) <= 0.005
            && Abs(r.profitA - e.profitA) <= 0.005 && Abs(r.profitB - e.profitB) <= 0.005
            && Abs(r.delta - e.Delta()) <= 0.005
  {
    hide MoneyRound, WholeCents;
    MoneyRoundNear(e.price);
    MoneyRoundNear(e.cost);
    MoneyRoundNear(e.volume);
    MoneyRoundNear(e.mix);
    MoneyRoundNear(e.added);
    MoneyRoundNear(e.discontinued);
    MoneyRoundNear(e.profitA);
    MoneyRoundNear(e.profitB);
    MoneyRoundNear(e.Delta());
  }

  lemma HalfCent(v: real)
    ensures -0.5 <= Cents(v) as real - v * 100.0 <= 0.5
    ensures WholeCents(v) ==> Cents(v) as real == v * 100.0
  {
  }

  /** The published effects and the published residual add up to the published delta. */
  lemma PublishedReconciles(aLines: seq<Line>, bLines: seq<Line>, div: Division)
    ensures var r := Published(Unrounded(ById(aLines), ById(bLines), div));
            && r.EffectSum() + r.rounding == r.delta
            && Abs(r.rounding) <= 0.03
            && (WholeCentLines(aLines) && WholeCentLines(bLines) ==> Abs(r.rounding) <= 0.02)
  {
    hide ById, SumOver, Profit, MoneyRound, VolumeOf, WholeCents;
    var a, b := ById(aLines), ById(bLines);
    Reconciles(a, b, div);
    ResidualBound(Unrounded(a, b, div));
    if WholeCentLines(aLines) && WholeCentLines(bLines) {
      FoldKeepsWholeCents(aLines);
      FoldKeepsWholeCents(bLines);
      WholeCentSum(a, a.Keys);
      WholeCentSum(b, b.Keys);
      WholeCentSum(a, a.Keys - b.Keys);
      WholeCentSum(b, b.Keys - a.Keys);
      WholeCentsClosed(SumOver(b.Keys, Profit(b)), SumOver(a.Keys, Profit(a)));
      WholeCentsClosed(SumOver(a.Keys - b.Keys, Profit(a)), 0.0) by { CentsExact(0); }
    }
  }

  lemma TwoTerms(f: Term)
    ensures SumOver({1, 2}, f) == f(1) + f(2)
    ensures SumOver({}, f) == 0.0
  {
    SumOverPick({1, 2}, f, 1);
    SumOverPick({2}, f, 2);
    assert {1, 2} - {1} == {2} && {2} - {2} == {};
  }

  /** Two cents do occur: four effects of half a cent each, all rounded up. */
  lemma TwoCentResidual(div: Division) returns (aLines: seq<Line>, bLines: seq<Line>)
    requires Exact(div)
    ensures WholeCentLines(aLines) && WholeCentLines(bLines)
    ensures Published(Unrounded(ById(aLines), ById(bLines), div)).rounding == -0.02
  {
    hide Unrounded, ById, Exact, Published, WholeCents, Cents, SumOver;
    var a1, a2 := Line(1, "", 1.0, 0.03, 0.0, 0.0, 0.03), Line(2, "", 1.0, 0.05, 0.04, 0.0, 0.01);
    var b1, b2 := Line(1, "", 1.375, 0.05, 0.01, 0.0, 0.04), Line(2, "", 0.875, 0.04, 0.02, 0.0, 0.02);
    aLines, bLines := [a1, a2], [b1, b2];
    TwoLines(a1, a2);
    TwoLines(b1, b2);
    var a, b := map[1 := a1, 2 := a2], map[1 := b1, 2 := b2];
    assert a.Keys == {1, 2} && b.Keys == {1, 2} && a.Keys * b.Keys == {1, 2};
    assert a.Keys - b.Keys == {} && b.Keys - a.Keys == {};
    HalfCentEffects(a, b, div);
    OtherEffects(a, b, div);
    EmptySum(Profit(a));
    EmptySum(Profit(b));
    HalfCentsRound();
    FewCents();
  }

  /** And three, once lines need not be whole cents: all six effects are half a cent. */
  lemma ThreeCentResidual(div: Division) returns (aLines: seq<Line>, bLines: seq<Line>)
    requires Exact(div)
    ensures Published(Unrounded(ById(aLines), ById(bLines), div)).rounding == -0.03
  {
    hide Unrounded, ById, Exact, Published, SumOver;
    var a1, a2 := Line(1, "", 1.0, 0.03, 0.0, 0.0, 0.03), Line(2, "", 1.0, 0.05, 0.04, 0.0, 0.01);
    var b1, b2 := Line(1, "", 1.375, 0.05, 0.01, 0.0, 0.04), Line(2, "", 0.875, 0.04, 0.02, 0.0, 0.02);
    var gone, added := Line(3, "", 1.0, 0.0, 0.005, 0.0, -0.005), Line(4, "", 1.0, 0.005, 0.0, 0.0, 0.005);
    aLines, bLines := [a1, a2] + [gone], [b1, b2] + [added];
    TwoLines(a1, a2);
    TwoLines(b1, b2);
    OneMoreLine([a1, a2], gone);
    OneMoreLine([b1, b2], added);
    var a, b := map[1 := a1, 2 := a2][3 := gone], map[1 := b1, 2 := b2][4 := added];
    assert a.Keys == {1, 2} + {3} && b.Keys == {1, 2} + {4} && a.Keys * b.Keys == {1, 2};
    assert a.Keys - b.Keys == {3} && b.Keys - a.Keys == {4};
    HalfCentEffects(a, b, div);
    OtherEffects(a, b, div);
    OneTerm(Profit(a), 3);
    OneTerm(Profit(b), 4);
    SumOverAdd({1, 2}, 3, Profit(a));
    SumOverAdd({1, 2}, 4, Profit(b));
    HalfCentsRound();
  }

  lemma OneTerm(f: Term, key: Id)
    ensures SumOver({key}, f) == f(key)
  {
    SumOverPick({key}, f, key);
    assert {key} - {key} == {};
  }

  lemma OneMoreLine(lines: seq<Line>, x: Line)
    requires x.id !in ById(lines) && x.qty > 0.0
    ensures ById(lines + [x]) == ById(lines)[x.id := x]
  {
    assert (lines + [x])[..|lines|] == lines;
  }

  lemma OtherEffects(a: Index, b: Index, div: Division)
    ensures var e := Unrounded(a, b, div);
            && e.added == SumOver(b.Keys - a.Keys, Profit(b)) && e.discontinued == -SumOver(a.Keys - b.Keys, Profit(a))
            && e.profitA == SumOver(a.Keys, Profit(a)) && e.profitB == SumOver(b.Keys, Profit(b))
  {
    hide SumOver, PriceTerm, CostTerm, QtyTerm, Volume;
  }

  lemma FewCents()
    ensures WholeCents(0.0) && WholeCents(0.01) && WholeCents(0.02)
    ensures WholeCents(0.03) && WholeCents(0.04) && WholeCents(0.05)
  {
    hide WholeCents, Cents;
    CentsExact(0);
    CentsExact(1);
    CentsExact(2);
    CentsExact(3);
    CentsExact(4);
    CentsExact(5);
  }

  /** Every effect of half a cent is published as a whole one. */
  lemma HalfCentsRound()
    ensures Published(Effects(0.005, 0.005, 0.005, 0.005, 0.0, 0.0, 0.04, 0.06)).rounding == -0.02
    ensures Published(Effects(0.005, 0.005, 0.005, 0.005, 0.005, 0.005, 0.035, 0.065)).rounding == -0.03
  {
    assert MoneyRound(0.005) == 0.01 && MoneyRound(0.0) == 0.0;
    assert MoneyRound(0.02) == 0.02 && MoneyRound(0.03) == 0.03;
  }

  /** Two common products whose four effects come to half a cent each. */
  lemma HalfCentEffects(a: Index, b: Index, div: Division)
    requires Exact(div) && a.Keys * b.Keys == {1, 2} && 1 in a && 2 in a && 1 in b && 2 in b
    requires a[1] == Line(1, "", 1.0, 0.03, 0.0, 0.0, 0.03) && a[2] == Line(2, "", 1.0, 0.05, 0.04, 0.0, 0.01)
    requires b[1] == Line(1, "", 1.375, 0.05, 0.01, 0.0, 0.04) && b[2] == Line(2, "", 0.875, 0.04, 0.02, 0.0, 0.02)
    ensures var e := Unrounded(a, b, div);
            e.price == 0.005 && e.cost == 0.005 && e.volume == 0.005 && e.mix == 0.005
    ensures SumOver({1, 2}, Profit(a)) == 0.04 && SumOver({1, 2}, Profit(b)) == 0.06
  {
    assert PriceOf(a[1], b[1], div) == 0.00875 && PriceOf(a[2], b[2], div) == -0.00375;
    assert CostOf(a[1], b[1], div) == -0.01 && CostOf(a[2], b[2], div) == 0.015;
    assert VolumeOf(2.0, 2.25, 0.04, div) == 0.005;
    hide SumOver, PriceOf, CostOf, VolumeOf, Exact;
    TwoTerms(PriceTerm(a, b, div));
    TwoTerms(CostTerm(a, b, div));
    TwoTerms(QtyTerm(a, b, div));
    TwoTerms(Quantity(a));
    TwoTerms(Quantity(b));
    TwoTerms(Profit(a));
    TwoTerms(Profit(b));
  }

  lemma TwoLines(x: Line, y: Line)
    requires x.id != y.id && x.qty > 0.0 && y.qty > 0.0
    ensures ById([x, y]) == map[x.id := x, y.id := y]
  {
    assert [x, y][..1] == [x] && [x][..0] == [];
    assert ById([x]) == map[x.id := x];
  }

  // ---- closed forms under exact division --------------------------------------------

  function UnitMargin(ln: Line): real
    requires ln.qty > 0.0
  {
    ln.revenue / ln.qty - ln.cost / ln.qty
  }

  /** The quantity effect of a product is its extra units at the baseline unit margin. */
  lemma QtyClosedForm(la: Line, lb: Line, div: Division)
    requires Exact(div) && la.qty > 0.0 && lb.qty > 0.0
    ensures QtyOf(la, lb, div) == (lb.qty - la.qty) * UnitMargin(la)
    ensures PriceOf(la, lb, div) == lb.revenue - lb.qty * (la.revenue / la.qty)
    ensures la.qty * UnitMargin(la) == Gross(la)
  {
    var pa, ca, pb, cb := la.revenue / la.qty, la.cost / la.qty, lb.revenue / lb.qty, lb.cost / lb.qty;
    Cancel(la.revenue, la.qty);
    Cancel(la.cost, la.qty);
    Cancel(lb.revenue, lb.qty);
    Cancel(lb.cost, lb.qty);
    assert PriceOf(la, lb, div) == lb.qty * pb - lb.qty * pa;
    assert CostOf(la, lb, div) == lb.qty * ca - lb.qty * cb;
    assert (lb.qty - la.qty) * (pa - ca) == lb.qty * pa - lb.qty * ca - la.qty * pa + la.qty * ca;
    assert la.qty * (pa - ca) == la.qty * pa - la.qty * ca;
  }

  lemma Cancel(x: real, y: real)
    requires y != 0.0
    ensures y * (x / y) == x
  {
  }

  ghost predicate Sold(m: Index) { forall key :: key in m ==> m[key].qty > 0.0 }

  /** Everything `_by_id` keeps was sold. */
  lemma {:induction false} FoldIsSold(lines: seq<Line>)
    ensures Sold(ById(lines))
  {
    if lines != [] {
      FoldIsSold(lines[..|lines| - 1]);
    }
  }

  /** Period B's quantities, valued at period A's unit margins. */
  function Revalued(a: Index, b: Index): Term {
    key => if At(a, key).qty > 0.0 then At(b, key).qty * UnitMargin(At(a, key)) else 0.0
  }

  lemma {:induction false} QtyEffectsSum(a: Index, b: Index, div: Division, keys: set<Id>)
    requires Exact(div) && Sold(a) && Sold(b) && keys <= a.Keys * b.Keys
    ensures SumOver(keys, QtyTerm(a, b, div)) == SumOver(keys, Revalued(a, b)) - SumOver(keys, Profit(a))
    decreases |keys|
  {
    hide SumOver, QtyOf, Exact, UnitMargin, Gross;
    if keys == {} {
      EmptySum(QtyTerm(a, b, div));
      EmptySum(Revalued(a, b));
      EmptySum(Profit(a));
    } else {
      var key := Any(keys);
      var fewer := keys - {key};
      QtyEffectsSum(a, b, div, fewer);
      SumOverPick(keys, QtyTerm(a, b, div), key);
      SumOverPick(keys, Revalued(a, b), key);
      SumOverPick(keys, Profit(a), key);
      QtyClosedForm(a[key], b[key], div);
      Distribute(b[key].qty, a[key].qty, UnitMargin(a[key]));
    }
  }

  lemma Distribute(x: real, y: real, m: real)
    ensures (x - y) * m == x * m - y * m
  {
  }

  lemma EmptySum(f: Term)
    ensures SumOver({}, f) == 0.0
  {
  }

  lemma {:induction false} PositiveSum(own: Index, keys: set<Id>)
    requires Sold(own) && keys <= own.Keys
    ensures keys != {} ==> SumOver(keys, Quantity(own)) > 0.0
    ensures keys == {} ==> SumOver(keys, Quantity(own)) == 0.0
    decreases |keys|
  {
    hide SumOver;
    if keys == {} {
      EmptySum(Quantity(own));
    } else {
      var key := Any(keys);
      PositiveSum(own, keys - {key});
      SumOverPick(keys, Quantity(own), key);
    }
  }

  /** Mix is period B revalued, less the baseline profit scaled to period B's quantity. */
  lemma MixIsShortfall(a: Index, b: Index, div: Division)
    requires Exact(div) && Sold(a) && Sold(b) && a.Keys * b.Keys != {}
    ensures var common := a.Keys * b.Keys;
            var qa, qb := SumOver(common, Quantity(a)), SumOver(common, Quantity(b));
            && qa > 0.0 && qb > 0.0
            && Unrounded(a, b, div).mix
                 == SumOver(common, Revalued(a, b)) - qb * (SumOver(common, Profit(a)) / qa)
  {
    hide SumOver, QtyTerm, Revalued, Profit, Quantity, Sold;
    var common := a.Keys * b.Keys;
    var qa, qb := SumOver(common, Quantity(a)), SumOver(common, Quantity(b));
    var pa := SumOver(common, Profit(a));
    PositiveSum(a, common);
    PositiveSum(b, common);
    QtyEffectsSum(a, b, div, common);
    assert Volume(a, b, div) == (qb - qa) * (pa / qa);
    Distribute(qb, qa, pa / qa);
    Cancel(pa, qa);
  }

  /** A product's gain in quantity share, at its baseline unit margin. */
  function ShareShift(a: Index, b: Index, qa: real, qb: real): Term
    requires qa != 0.0 && qb != 0.0
  {
    key => if At(a, key).qty > 0.0
           then (At(b, key).qty / qb - At(a, key).qty / qa) * UnitMargin(At(a, key)) else 0.0
  }

  /** Shares `s` at `qb` units come to `r`, less profit `p` rescaled from `qa` to `qb` units. */
  ghost predicate Balanced(qa: real, qb: real, s: real, r: real, p: real)
    requires qa > 0.0
  {
    qb * s == r - qb * (p / qa)
  }

  /** What balances for each key balances for their sums. */
  lemma {:induction false} BalancedSum(keys: set<Id>, qa: real, qb: real, shift: Term, worth: Term, profit: Term)
    requires qa > 0.0
    requires forall key :: key in keys ==> Balanced(qa, qb, shift(key), worth(key), profit(key))
    ensures Balanced(qa, qb, SumOver(keys, shift), SumOver(keys, worth), SumOver(keys, profit))
    decreases |keys|
  {
    hide SumOver, Balanced;
    if keys == {} {
      EmptySum(shift);
      EmptySum(worth);
      EmptySum(profit);
      AddShare(qa, qb, 0.0, 0.0, 0.0, 0.0, 0.0, 0.0);
    } else {
      var key := Any(keys);
      var fewer := keys - {key};
      BalancedSum(fewer, qa, qb, shift, worth, profit);
      SumOverPick(keys, shift, key);
      SumOverPick(keys, worth, key);
      SumOverPick(keys, profit, key);
      AddShare(qa, qb, SumOver(fewer, shift), SumOver(fewer, worth), SumOver(fewer, profit),
               shift(key), worth(key), profit(key));
    }
  }

  lemma ShareShiftSum(a: Index, b: Index, qa: real, qb: real, keys: set<Id>)
    requires Sold(a) && keys <= a.Keys * b.Keys && qa > 0.0 && qb > 0.0
    ensures Balanced(qa, qb, SumOver(keys, ShareShift(a, b, qa, qb)), SumOver(keys, Revalued(a, b)),
                     SumOver(keys, Profit(a)))
  {
    hide SumOver, ShareShift, Revalued, Profit, Balanced;
    forall key | key in keys
      ensures Balanced(qa, qb, ShareShift(a, b, qa, qb)(key), Revalued(a, b)(key), Profit(a)(key))
    {
      OneShare(a, b, qa, qb, key);
    }
    BalancedSum(keys, qa, qb, ShareShift(a, b, qa, qb), Revalued(a, b), Profit(a));
  }

  lemma OneShare(a: Index, b: Index, qa: real, qb: real, key: Id)
    requires key in a && key in b && a[key].qty > 0.0 && qa > 0.0 && qb > 0.0
    ensures Balanced(qa, qb, ShareShift(a, b, qa, qb)(key), Revalued(a, b)(key), Profit(a)(key))
  {
    var la, y := a[key], b[key].qty;
    var m := UnitMargin(la);
    assert la.qty * m == Gross(la) by {
      Cancel(la.revenue, la.qty);
      Cancel(la.cost, la.qty);
    }
    hide UnitMargin;
    Cancel(y, qb);
    assert la.qty / qa * m == Gross(la) / qa;
    assert qb * (y / qb * m) == y * m;
  }

  lemma AddShare(qa: real, qb: real, s: real, r: real, p: real, s': real, r': real, p': real)
    requires qa > 0.0
    ensures Balanced(qa, qb, 0.0, 0.0, 0.0)
    ensures Balanced(qa, qb, s, r, p) && Balanced(qa, qb, s', r', p') ==> Balanced(qa, qb, s' + s, r' + r, p' + p)
  {
    assert (p' + p) / qa == p' / qa + p / qa;
    assert qb * (p' / qa + p / qa) == qb * (p' / qa) + qb * (p / qa);
    assert qb * (s' + s) == qb * s' + qb * s;
  }

  /** Mix is the total quantity of B times the share shifts at baseline unit margins. */
  lemma MixClosedForm(a: Index, b: Index, div: Division)
    requires Exact(div) && Sold(a) && Sold(b) && a.Keys * b.Keys != {}
    ensures var common := a.Keys * b.Keys;
            var qa, qb := SumOver(common, Quantity(a)), SumOver(common, Quantity(b));
            && qa > 0.0 && qb > 0.0
            && Unrounded(a, b, div).mix == qb * SumOver(common, ShareShift(a, b, qa, qb))
  {
    hide SumOver, Revalued, Profit, Quantity, Sold, Unrounded, ShareShift;
    var common := a.Keys * b.Keys;
    MixIsShortfall(a, b, div);
    ShareShiftSum(a, b, SumOver(common, Quantity(a)), SumOver(common, Quantity(b)), common);
  }

  /** No mix effect when every common product keeps its share of the quantity. */
  lemma NoMixAtSameShares(a: Index, b: Index, div: Division)
    requires Exact(div) && Sold(a) && Sold(b)
    requires var common := a.Keys * b.Keys;
             forall key :: key in common ==>
               a[key].qty * SumOver(common, Quantity(b)) == b[key].qty * SumOver(common, Quantity(a))
    ensures Unrounded(a, b, div).mix == 0.0
  {
    hide Exact, Sold, Unrounded, Quantity, SumOver, ShareShift;
    var common := a.Keys * b.Keys;
    if common == {} {
      NoCommonNoMix(a, b, div);
    } else {
      var qa, qb := SumOver(common, Quantity(a)), SumOver(common, Quantity(b));
      MixClosedForm(a, b, div);
      NoShift(a, b, qa, qb, common);
      assert forall key :: key in common ==> ShareShift(a, b, qa, qb)(key) == 0.0;
      ZeroSum(common, ShareShift(a, b, qa, qb));
    }
  }

  lemma NoShift(a: Index, b: Index, qa: real, qb: real, keys: set<Id>)
    requires qa > 0.0 && qb > 0.0 && keys <= a.Keys * b.Keys
    requires forall key :: key in keys ==> a[key].qty * qb == b[key].qty * qa
    ensures forall key :: key in keys ==> ShareShift(a, b, qa, qb)(key) == 0.0
  {
    hide UnitMargin;
    forall key | key in keys
      ensures ShareShift(a, b, qa, qb)(key) == 0.0
    {
      SameShare(a[key].qty, b[key].qty, qa, qb);
    }
  }

  lemma SameShare(x: real, y: real, qa: real, qb: real)
    requires qa > 0.0 && qb > 0.0 && x * qb == y * qa
    ensures y / qb == x / qa
  {
    assert y / qb == (y * qa) / (qb * qa);
    assert x / qa == (x * qb) / (qa * qb);
  }

  lemma NoCommonNoMix(a: Index, b: Index, div: Division)
    requires a.Keys * b.Keys == {}
    ensures Unrounded(a, b, div).mix == 0.0
  {
    EmptySum(QtyTerm(a, b, div));
    EmptySum(Quantity(a));
  }

  /** Nor with a single common product. */
  lemma NoMixForOneProduct(a: Index, b: Index, div: Division, key: Id)
    requires Exact(div) && Sold(a) && Sold(b) && a.Keys * b.Keys == {key}
    ensures Unrounded(a, b, div).mix == 0.0
  {
    hide Unrounded, Exact;
    SumOverPick({key}, Quantity(a), key);
    SumOverPick({key}, Quantity(b), key);
    assert {key} - {key} == {};
    NoMixAtSameShares(a, b, div);
  }

  /** Nor when all common products earn the same baseline unit margin. */
  lemma NoMixAtEqualMargins(a: Index, b: Index, div: Division, m: real)
    requires Exact(div) && Sold(a) && Sold(b)
    requires forall key :: key in a.Keys * b.Keys ==> a[key].qty > 0.0 && UnitMargin(a[key]) == m
    ensures Unrounded(a, b, div).mix == 0.0
  {
    hide Exact, Unrounded, SumOver, Sold, Quantity, Revalued, Profit, UnitMargin;
    var common := a.Keys * b.Keys;
    if common == {} {
      NoCommonNoMix(a, b, div);
    } else {
      MixIsShortfall(a, b, div);
      EqualMarginSums(a, b, m, common);
      Scaled(m, SumOver(common, Quantity(a)), SumOver(common, Quantity(b)));
    }
  }

  lemma Scaled(m: real, qa: real, qb: real)
    requires qa > 0.0
    ensures m * qb - qb * (m * qa / qa) == 0.0
  {
    assert m * qa / qa == m;
  }

  lemma EqualMarginSums(a: Index, b: Index, m: real, keys: set<Id>)
    requires keys <= a.Keys * b.Keys
    requires forall key :: key in keys ==> a[key].qty > 0.0 && UnitMargin(a[key]) == m
    ensures SumOver(keys, Revalued(a, b)) == m * SumOver(keys, Quantity(b))
    ensures SumOver(keys, Profit(a)) == m * SumOver(keys, Quantity(a))
  {
    hide SumOver, Revalued, Profit, Quantity, UnitMargin;
    forall key | key in keys
      ensures Revalued(a, b)(key) == m * Quantity(b)(key) && Profit(a)(key) == m * Quantity(a)(key)
    {
      AtUnitMargin(a, b, m, key);
    }
    ScaledSum(keys, Revalued(a, b), Quantity(b), m);
    ScaledSum(keys, Profit(a), Quantity(a), m);
  }

  lemma AtUnitMargin(a: Index, b: Index, m: real, key: Id)
    requires key in a && key in b && a[key].qty > 0.0 && UnitMargin(a[key]) == m
    ensures Revalued(a, b)(key) == m * Quantity(b)(key) && Profit(a)(key) == m * Quantity(a)(key)
  {
    Cancel(a[key].revenue, a[key].qty);
    Cancel(a[key].cost, a[key].qty);
  }

  lemma {:induction false} ScaledSum(keys: set<Id>, f: Term, g: Term, m: real)
    requires forall key :: key in keys ==> f(key) == m * g(key)
    ensures SumOver(keys, f) == m * SumOver(keys, g)
    decreases |keys|
  {
    hide SumOver;
    if keys == {} {
      EmptySum(f);
      EmptySum(g);
    } else {
      var key := Any(keys);
      ScaledSum(keys - {key}, f, g, m);
      SumOverPick(keys, f, key);
      SumOverPick(keys, g, key);
      assert m * (g(key) + SumOver(keys - {key}, g)) == m * g(key) + m * SumOver(keys - {key}, g);
    }
  }

  // ---- drivers ------------------------------------------------------------------

  function DeltaOf(d: Driver): real { d.delta }

  function DriverDelta(a: Index, b: Index, div: Division): Term { key => DriverOf(a, b, div, key).delta }

  /** A whole-cent product's published delta is its change in gross profit. */
  lemma DriverDeltaExact(a: Index, b: Index, div: Division, key: Id)
    requires WholeCentIndex(a) && WholeCentIndex(b) && key in a.Keys + b.Keys
    ensures DriverOf(a, b, div, key).delta
         == (if key in b then Gross(b[key]) else 0.0) - (if key in a then Gross(a[key]) else 0.0)
  {
    hide PriceOf, CostOf, WholeCents, Cents;
    if key in a {
      WholeCentsClosed(a[key].revenue, a[key].cost);
    }
    if key in b {
      WholeCentsClosed(b[key].revenue, b[key].cost);
    }
    if key in a && key in b {
      WholeCentsClosed(Gross(b[key]), Gross(a[key]));
      IsUnrounded(Gross(b[key]) - Gross(a[key]));
    } else if key in a {
      WholeCentsClosed(Gross(a[key]), Gross(a[key]));
      IsUnrounded(-Gross(a[key]));
    } else {
      IsUnrounded(Gross(b[key]));
    }
  }

  /** A common product's three rounded effects miss its delta by a cent at most. */
  lemma DriverEffectsWithinCent(la: Line, lb: Line, div: Division)
    requires WholeCents(la.revenue) && WholeCents(la.cost) && WholeCents(lb.revenue) && WholeCents(lb.cost)
    ensures var d := CommonDriver(la, lb, PriceOf(la, lb, div), CostOf(la, lb, div), QtyOf(la, lb, div));
            Abs(d.delta - (d.priceEffect + d.costEffect + d.qtyEffect)) <= 0.01
  {
    hide PriceOf, CostOf, QtyOf, WholeCents, MoneyRound;
    WholeDriver(la, lb, div);
    ThreeRoundings(PriceOf(la, lb, div), CostOf(la, lb, div), QtyOf(la, lb, div));
  }

  /** The unrounded effects of a whole-cent driver make up its whole-cent delta. */
  lemma WholeDriver(la: Line, lb: Line, div: Division)
    requires WholeCents(la.revenue) && WholeCents(la.cost) && WholeCents(lb.revenue) && WholeCents(lb.cost)
    ensures var whole := PriceOf(la, lb, div) + CostOf(la, lb, div) + QtyOf(la, lb, div);
            whole == Gross(lb) - Gross(la) && WholeCents(whole)
  {
    hide PriceOf, CostOf, WholeCents;
    WholeCentsClosed(la.revenue, la.cost);
    WholeCentsClosed(lb.revenue, lb.cost);
    WholeCentsClosed(Gross(lb), Gross(la));
  }

  lemma ThreeRoundings(x: real, y: real, z: real)
    requires WholeCents(x + y + z)
    ensures Abs(MoneyRound(x + y + z) - (MoneyRound(x) + MoneyRound(y) + MoneyRound(z))) <= 0.01
  {
    var k := Cents(x + y + z) - (Cents(x) + Cents(y) + Cents(z));
    assert MoneyRound(x + y + z) - (MoneyRound(x) + MoneyRound(y) + MoneyRound(z)) == k as real / 100.0;
    hide Cents, WholeCents, MoneyRound;
    HalfCent(x);
    HalfCent(y);
    HalfCent(z);
    HalfCent(x + y + z);
    assert -1.5 <= k as real <= 1.5;
  }

  /** How far rounding moves an amount, in cents. */
  function Shift(v: real): real { Cents(v) as real - v * 100.0 }

  /** Under half a cent, or just half a cent that rounding `rest` away from zero meets. */
  predicate Cancels(shift: real, rest: real) {
    -0.5 < shift < 0.5 || (shift == 0.5 && rest < 0.0) || (shift == -0.5 && rest > 0.0)
  }

  /**
   The three rounded effects of a whole-cent product sum exactly to its delta exactly
   when the shifts of price and cost come to less than half a cent together, or to just
   half a cent that the quantity effect is then rounded to meet.
   */
  lemma DriverEffectsExactIff(la: Line, lb: Line, div: Division)
    requires WholeCents(la.revenue) && WholeCents(la.cost) && WholeCents(lb.revenue) && WholeCents(lb.cost)
    ensures var price, cost, qty := PriceOf(la, lb, div), CostOf(la, lb, div), QtyOf(la, lb, div);
            var d, shift := CommonDriver(la, lb, price, cost, qty), Shift(price) + Shift(cost);
            d.priceEffect + d.costEffect + d.qtyEffect == d.delta <==> Cancels(shift, qty)
  {
    hide PriceOf, CostOf, QtyOf, WholeCents, MoneyRound, Shift, Cancels;
    WholeDriver(la, lb, div);
    RemainderRounds(PriceOf(la, lb, div), CostOf(la, lb, div), QtyOf(la, lb, div));
  }

  /** Two amounts and the remainder to a whole number of cents, all three rounded. */
  lemma RemainderRounds(x: real, y: real, z: real)
    requires WholeCents(x + y + z)
    ensures MoneyRound(x) + MoneyRound(y) + MoneyRound(z) == MoneyRound(x + y + z)
       <==> Cancels(Shift(x) + Shift(y), z)
  {
    var k := Cents(x + y + z) - Cents(x) - Cents(y);
    assert MoneyRound(x) + MoneyRound(y) + MoneyRound(z) == MoneyRound(x + y + z) <==> Cents(z) == k;
    HalfCent(x + y + z);
    assert z * 100.0 == k as real + (Shift(x) + Shift(y));
    hide WholeCents, MoneyRound, Shift, Cents;
    RoundsTo(z * 100.0, k, Shift(x) + Shift(y));
    CentsAre(z);
  }

  lemma CentsAre(z: real)
    ensures Cents(z) == RoundHalfAway(z * 100.0)
    ensures z > 0.0 <==> z * 100.0 > 0.0
    ensures z < 0.0 <==> z * 100.0 < 0.0
  {
  }

  lemma RoundsTo(v: real, k: int, s: real)
    requires v == k as real + s && -1.0 <= s <= 1.0
    ensures RoundHalfAway(v) == k <==> Cancels(s, v)
  {
    if Cancels(s, v) {
      RoundHalfAwayUnique(v, k);
    }
  }

  /** It does happen: half a cent of price, half a cent of cost and a cent of quantity. */
  lemma DriverMissesByACent(div: Division) returns (la: Line, lb: Line)
    requires Exact(div)
    ensures WholeCents(la.revenue) && WholeCents(la.cost) && WholeCents(lb.revenue) && WholeCents(lb.cost)
    ensures var d := CommonDriver(la, lb, PriceOf(la, lb, div), CostOf(la, lb, div), QtyOf(la, lb, div));
            d.delta == 0.0 && d.priceEffect + d.costEffect + d.qtyEffect == 0.01
  {
    la := Line(1, "", 1.0, 0.01, 0.03, 0.0, -0.02);
    lb := Line(1, "", 1.5, 0.02, 0.04, 0.0, -0.02);
    assert PriceOf(la, lb, div) == 0.005 && CostOf(la, lb, div) == 0.005 && QtyOf(la, lb, div) == -0.01;
  }

  lemma {:induction false} DriverDeltasSum(a: Index, b: Index, div: Division, keys: set<Id>)
    requires WholeCentIndex(a) && WholeCentIndex(b) && keys <= a.Keys + b.Keys
    ensures SumOver(keys, DriverDelta(a, b, div))
         == SumOver(keys * b.Keys, Profit(b)) - SumOver(keys * a.Keys, Profit(a))
    decreases |keys|
  {
    hide SumOver, WholeCentIndex, DriverOf, Gross;
    if keys == {} {
      EmptySum(DriverDelta(a, b, div));
      assert keys * b.Keys == {} && keys * a.Keys == {};
      NothingAdded(a);
      NothingAdded(b);
    } else {
      var key := Any(keys);
      DriverDeltasSum(a, b, div, keys - {key});
      SumOverPick(keys, DriverDelta(a, b, div), key);
      DriverDeltaExact(a, b, div, key);
      WithoutKey(a, keys, key);
      WithoutKey(b, keys, key);
    }
  }

  lemma WithoutKey(own: Index, keys: set<Id>, key: Id)
    requires key in keys
    ensures SumOver(keys * own.Keys, Profit(own))
         == SumOver((keys - {key}) * own.Keys, Profit(own)) + (if key in own then Gross(own[key]) else 0.0)
  {
    if key in own {
      SumOverPick(keys * own.Keys, Profit(own), key);
      assert keys * own.Keys - {key} == (keys - {key}) * own.Keys;
    } else {
      assert keys * own.Keys == (keys - {key}) * own.Keys;
    }
  }

  /** A figure of the drivers, listed in any order, sums to its terms. */
  lemma {:induction false} DriversAreTerms(a: Index, b: Index, div: Division, order: seq<Id>,
                                           f: Driver -> real, g: Term)
    requires forall key :: key in order ==> f(DriverOf(a, b, div, key)) == g(key)
    ensures SumBy(Drivers(a, b, div, order), f) == SumBy(order, g)
    ensures |Drivers(a, b, div, order)| == |order|
    decreases |order|
  {
    hide DriverOf;
    if order != [] {
      var before, key := order[..|order| - 1], order[|order| - 1];
      DriversAreTerms(a, b, div, before, f, g);
      SumBySnoc(Drivers(a, b, div, before), DriverOf(a, b, div, key), f);
    }
  }

  /** All drivers are shown when the list is not cut. */
  ghost predicate Uncut(order: seq<Id>, topN: int) { topN <= 0 || topN >= |order| }

  /** Untruncated, a figure summed over the drivers is its sum over the products. */
  lemma DriversSum(a: Index, b: Index, div: Division, order: seq<Id>, topN: int, f: Driver -> real, g: Term)
    requires Lists(order, a.Keys + b.Keys) && Uncut(order, topN)
    requires forall key :: f(DriverOf(a, b, div, key)) == g(key)
    ensures SumBy(Top(Drivers(a, b, div, order), topN), f) == SumOver(a.Keys + b.Keys, g)
  {
    hide Drivers, DriverOf, SumOver, SumBy;
    var drivers := Drivers(a, b, div, order);
    DriversAreTerms(a, b, div, order, f, g);
    Sorted(drivers, Size);
    assert Top(drivers, topN) == SortDesc(drivers, Size);
    SumByPermutation(SortDesc(drivers, Size), drivers, f);
    SumOverEnumeration(order, g);
  }

  /** Untruncated, the published driver deltas sum exactly to the published delta. */
  lemma DriversReconcile(a: Index, b: Index, div: Division, order: seq<Id>, topN: int)
    requires WholeCentIndex(a) && WholeCentIndex(b) && Lists(order, a.Keys + b.Keys) && Uncut(order, topN)
    ensures SumBy(Top(Drivers(a, b, div, order), topN), DeltaOf) == Published(Unrounded(a, b, div)).delta
  {
    hide Drivers, DriverOf, SumOver, SumBy, Profit, MoneyRound, WholeCents, WholeCentIndex, Top, Lists;
    DriversSum(a, b, div, order, topN, DeltaOf, DriverDelta(a, b, div));
    DriverDeltasSum(a, b, div, a.Keys + b.Keys);
    assert (a.Keys + b.Keys) * a.Keys == a.Keys && (a.Keys + b.Keys) * b.Keys == b.Keys;
    WholeDelta(a, b);
  }

  // ---- what each driver shows ----------------------------------------------------------

  /**
   A common driver's effects, each to its rounding: the revenue beyond what the units would
   have brought at the old price, the cost short of what they would have taken at the old
   unit cost, and the extra units at the old margin. Where a unit price or a unit cost
   stays, its effect is zero.
   */
  lemma DriverShows(la: Line, lb: Line, div: Division)
    requires Exact(div) && la.qty > 0.0 && lb.qty > 0.0
    ensures var d := CommonDriver(la, lb, PriceOf(la, lb, div), CostOf(la, lb, div), QtyOf(la, lb, div));
            && Abs(d.priceEffect - (lb.revenue - lb.qty * (la.revenue / la.qty))) <= 0.005
            && Abs(d.costEffect - (lb.qty * (la.cost / la.qty) - lb.cost)) <= 0.005
            && Abs(d.qtyEffect - (lb.qty - la.qty) * UnitMargin(la)) <= 0.005
            && (lb.revenue / lb.qty == la.revenue / la.qty ==> d.priceEffect == 0.0)
            && (lb.cost / lb.qty == la.cost / la.qty ==> d.costEffect == 0.0)
  {
    hide MoneyRound, WholeCents, UnitMargin, PriceOf, CostOf, QtyOf, Exact;
    QtyClosedForm(la, lb, div);
    CostClosedForm(la, lb, div);
    MoneyRoundNear(PriceOf(la, lb, div));
    MoneyRoundNear(CostOf(la, lb, div));
    MoneyRoundNear(QtyOf(la, lb, div));
    Unchanged(la, lb, div);
  }

  lemma CostClosedForm(la: Line, lb: Line, div: Division)
    requires Exact(div) && la.qty > 0.0 && lb.qty > 0.0
    ensures CostOf(la, lb, div) == lb.qty * (la.cost / la.qty) - lb.cost
  {
    Cancel(lb.cost, lb.qty);
    Distribute(lb.cost / lb.qty, la.cost / la.qty, lb.qty);
  }

  lemma Unchanged(la: Line, lb: Line, div: Division)
    requires Exact(div) && la.qty > 0.0 && lb.qty > 0.0
    ensures lb.revenue / lb.qty == la.revenue / la.qty ==> MoneyRound(PriceOf(la, lb, div)) == 0.0
    ensures lb.cost / lb.qty == la.cost / la.qty ==> MoneyRound(CostOf(la, lb, div)) == 0.0
  {
    NoChange(lb.qty, lb.revenue / lb.qty, la.revenue / la.qty, PriceOf(la, lb, div));
    NoChange(-lb.qty, lb.cost / lb.qty, la.cost / la.qty, CostOf(la, lb, div));
  }

  lemma NoChange(q: real, x: real, y: real, effect: real)
    requires effect == q * (x - y)
    ensures x == y ==> MoneyRound(effect) == 0.0
  {
    hide MoneyRound, WholeCents, Cents;
    CentsExact(0);
    IsUnrounded(0.0);
    if x == y {
      NothingTimes(q, x - y, effect);
    }
  }

  lemma NothingTimes(q: real, change: real, effect: real)
    requires effect == q * change && change == 0.0
    ensures effect == 0.0
  {
  }

  function PriceEffect(d: Driver): real { d.priceEffect }

  function CostEffect(d: Driver): real { d.costEffect }

  function QtyEffect(d: Driver): real { d.qtyEffect }

  /** What the drivers of the products show of one effect: only the common ones have any. */
  function RoundedPrice(a: Index, b: Index, div: Division): Term {
    key => if key in a && key in b then MoneyRound(PriceTerm(a, b, div)(key)) else 0.0
  }

  function RoundedCost(a: Index, b: Index, div: Division): Term {
    key => if key in a && key in b then MoneyRound(CostTerm(a, b, div)(key)) else 0.0
  }

  function RoundedQty(a: Index, b: Index, div: Division): Term {
    key => if key in a && key in b then MoneyRound(QtyTerm(a, b, div)(key)) else 0.0
  }

  lemma EffectsShown(a: Index, b: Index, div: Division, key: Id)
    ensures PriceEffect(DriverOf(a, b, div, key)) == RoundedPrice(a, b, div)(key)
    ensures CostEffect(DriverOf(a, b, div, key)) == RoundedCost(a, b, div)(key)
    ensures QtyEffect(DriverOf(a, b, div, key)) == RoundedQty(a, b, div)(key)
  {
    hide MoneyRound, PriceOf, CostOf, QtyOf, PriceTerm, CostTerm, QtyTerm;
    TermsAt(a, b, div, key);
  }

  lemma TermsAt(a: Index, b: Index, div: Division, key: Id)
    ensures PriceTerm(a, b, div)(key) == PriceOf(At(a, key), At(b, key), div)
    ensures CostTerm(a, b, div)(key) == CostOf(At(a, key), At(b, key), div)
    ensures QtyTerm(a, b, div)(key) == QtyOf(At(a, key), At(b, key), div)
  {
    hide PriceOf, CostOf, QtyOf;
  }

  /** Sums of terms that are near each other are near each other. */
  lemma {:induction false} NearSum(keys: set<Id>, f: Term, g: Term)
    requires forall key :: key in keys ==> Abs(f(key) - g(key)) <= 0.005
    ensures Abs(SumOver(keys, f) - SumOver(keys, g)) <= 0.005 * |keys| as real
    decreases |keys|
  {
    hide SumOver;
    if keys == {} {
      EmptySum(f);
      EmptySum(g);
    } else {
      var key := Any(keys);
      NearSum(keys - {key}, f, g);
      SumOverPick(keys, f, key);
      SumOverPick(keys, g, key);
      assert |keys| as real == |keys - {key}| as real + 1.0;
    }
  }

  /** Rounded on the common products and zero elsewhere, a term sums to the unrounded one, nearly. */
  lemma RoundedSum(common: set<Id>, others: set<Id>, rounded: Term, g: Term)
    requires common !! others
    requires forall key :: key in common ==> rounded(key) == MoneyRound(g(key))
    requires forall key :: key in others ==> rounded(key) == 0.0
    ensures Abs(SumOver(common + others, rounded) - SumOver(common, g)) <= 0.005 * |common| as real
  {
    hide SumOver, MoneyRound, WholeCents;
    forall key | key in common
      ensures Abs(rounded(key) - g(key)) <= 0.005
    {
      MoneyRoundNear(g(key));
    }
    NearSum(common, rounded, g);
    SumOverDisjoint(common, others, rounded);
    assert forall key :: key in others ==> rounded(key) == 0.0;
    ZeroSum(others, rounded);
  }

  /**
   The effects shown by the drivers account for the bridge's: price for price, cost for
   cost, and quantity for volume and mix, within half a cent per common product.
   */
  lemma EffectsAccountedFor(a: Index, b: Index, div: Division, order: seq<Id>, topN: int)
    requires Lists(order, a.Keys + b.Keys) && Uncut(order, topN)
    ensures var top, e := Top(Drivers(a, b, div, order), topN), Unrounded(a, b, div);
            var slack := 0.005 * |a.Keys * b.Keys| as real;
            && Abs(SumBy(top, PriceEffect) - e.price) <= slack
            && Abs(SumBy(top, CostEffect) - e.cost) <= slack
            && Abs(SumBy(top, QtyEffect) - (e.volume + e.mix)) <= slack
  {
    hide Drivers, DriverOf, SumOver, SumBy, Top, PriceTerm, CostTerm, QtyTerm, Volume, Lists, MoneyRound, Uncut;
    forall key
      ensures PriceEffect(DriverOf(a, b, div, key)) == RoundedPrice(a, b, div)(key)
      ensures CostEffect(DriverOf(a, b, div, key)) == RoundedCost(a, b, div)(key)
      ensures QtyEffect(DriverOf(a, b, div, key)) == RoundedQty(a, b, div)(key)
    {
      EffectsShown(a, b, div, key);
    }
    DriversSum(a, b, div, order, topN, PriceEffect, RoundedPrice(a, b, div));
    DriversSum(a, b, div, order, topN, CostEffect, RoundedCost(a, b, div));
    DriversSum(a, b, div, order, topN, QtyEffect, RoundedQty(a, b, div));
    RoundedSums(a, b, div);
  }

  lemma RoundedSums(a: Index, b: Index, div: Division)
    ensures var keys, common := a.Keys + b.Keys, a.Keys * b.Keys;
            var slack := 0.005 * |common| as real;
            && Abs(SumOver(keys, RoundedPrice(a, b, div)) - SumOver(common, PriceTerm(a, b, div))) <= slack
            && Abs(SumOver(keys, RoundedCost(a, b, div)) - SumOver(common, CostTerm(a, b, div))) <= slack
            && Abs(SumOver(keys, RoundedQty(a, b, div)) - SumOver(common, QtyTerm(a, b, div))) <= slack
  {
    hide SumOver, PriceTerm, CostTerm, QtyTerm, MoneyRound, Abs, RoundedPrice, RoundedCost, RoundedQty;
    RoundedAt(a, b, div);
    RoundedOver(a, b, RoundedPrice(a, b, div), PriceTerm(a, b, div));
    RoundedOver(a, b, RoundedCost(a, b, div), CostTerm(a, b, div));
    RoundedOver(a, b, RoundedQty(a, b, div), QtyTerm(a, b, div));
  }

  lemma RoundedAt(a: Index, b: Index, div: Division)
    ensures forall key :: RoundedPrice(a, b, div)(key)
                       == if key in a && key in b then MoneyRound(PriceTerm(a, b, div)(key)) else 0.0
    ensures forall key :: RoundedCost(a, b, div)(key)
                       == if key in a && key in b then MoneyRound(CostTerm(a, b, div)(key)) else 0.0
    ensures forall key :: RoundedQty(a, b, div)(key)
                       == if key in a && key in b then MoneyRound(QtyTerm(a, b, div)(key)) else 0.0
  {
    hide PriceTerm, CostTerm, QtyTerm, MoneyRound;
  }

  lemma RoundedOver(a: Index, b: Index, rounded: Term, g: Term)
    requires forall key :: rounded(key) == if key in a && key in b then MoneyRound(g(key)) else 0.0
    ensures Abs(SumOver(a.Keys + b.Keys, rounded) - SumOver(a.Keys * b.Keys, g)) <= 0.005 * |a.Keys * b.Keys| as real
  {
    hide SumOver, MoneyRound;
    var common := a.Keys * b.Keys;
    var others := (a.Keys + b.Keys) - common;
    assert common + others == a.Keys + b.Keys;
    RoundedSum(common, others, rounded, g);
  }

  function ProfitAOf(d: Driver): real { d.profitA }

  function ProfitBOf(d: Driver): real { d.profitB }

  /**
   A driver's profits and quantities are its product's, zero in a period without it; on
   whole cents the two profits give its delta.
   */
  lemma DriverSides(a: Index, b: Index, div: Division, key: Id)
    requires WholeCentIndex(a) && WholeCentIndex(b) && key in a.Keys + b.Keys
    ensures var d := DriverOf(a, b, div, key);
            && d.profitA == (if key in a then a[key].revenue - a[key].cost else 0.0)
            && d.profitB == (if key in b then b[key].revenue - b[key].cost else 0.0)
            && d.qtyA == (if key in a then a[key].qty else 0.0) && d.qtyB == (if key in b then b[key].qty else 0.0)
            && d.delta == d.profitB - d.profitA
            && d.name == (if key in a then a[key].name else b[key].name)
            && (d.kind == Common <==> key in a && key in b) && (d.kind == Added <==> key !in a)
  {
    hide PriceOf, CostOf, QtyOf, WholeCents, MoneyRound;
    CentsExact(0);
    IsUnrounded(0.0);
    DriverDeltaExact(a, b, div, key);
    if key in a {
      WholeCentsClosed(a[key].revenue, a[key].cost);
      IsUnrounded(Gross(a[key]));
    }
    if key in b {
      WholeCentsClosed(b[key].revenue, b[key].cost);
      IsUnrounded(Gross(b[key]));
    }
  }

  /** Untruncated, the profits shown by the drivers are the published profits of the periods. */
  lemma DriverProfitsSum(a: Index, b: Index, div: Division, order: seq<Id>, topN: int)
    requires WholeCentIndex(a) && WholeCentIndex(b) && Lists(order, a.Keys + b.Keys) && Uncut(order, topN)
    ensures var top, f := Top(Drivers(a, b, div, order), topN), Published(Unrounded(a, b, div));
            && SumBy(top, ProfitAOf) == f.profitA && SumBy(top, ProfitBOf) == f.profitB
  {
    hide Drivers, DriverOf, SumOver, SumBy, Top, MoneyRound, WholeCents, WholeCentIndex, Profit, Lists, Uncut;
    DriversSum(a, b, div, order, topN, ProfitAOf, key => ProfitAOf(DriverOf(a, b, div, key)));
    DriversSum(a, b, div, order, topN, ProfitBOf, key => ProfitBOf(DriverOf(a, b, div, key)));
    ProfitSides(a, b, div);
    WholeCentSum(a, a.Keys);
    WholeCentSum(b, b.Keys);
    IsUnrounded(SumOver(a.Keys, Profit(a)));
    IsUnrounded(SumOver(b.Keys, Profit(b)));
  }

  lemma ProfitSides(a: Index, b: Index, div: Division)
    requires WholeCentIndex(a) && WholeCentIndex(b)
    ensures SumOver(a.Keys + b.Keys, key => ProfitAOf(DriverOf(a, b, div, key))) == SumOver(a.Keys, Profit(a))
    ensures SumOver(a.Keys + b.Keys, key => ProfitBOf(DriverOf(a, b, div, key))) == SumOver(b.Keys, Profit(b))
  {
    hide SumOver, WholeCentIndex, DriverOf;
    var ofA: Term, ofB: Term := key => ProfitAOf(DriverOf(a, b, div, key)), key => ProfitBOf(DriverOf(a, b, div, key));
    forall key | key in a.Keys + b.Keys
      ensures ofA(key) == (if key in a then Profit(a)(key) else 0.0)
      ensures ofB(key) == (if key in b then Profit(b)(key) else 0.0)
    {
      DriverSides(a, b, div, key);
    }
    OneSide(a.Keys, b.Keys - a.Keys, ofA, Profit(a));
    OneSide(b.Keys, a.Keys - b.Keys, ofB, Profit(b));
    assert a.Keys + (b.Keys - a.Keys) == a.Keys + b.Keys;
    assert b.Keys + (a.Keys - b.Keys) == a.Keys + b.Keys;
  }

  lemma OneSide(own: set<Id>, rest: set<Id>, f: Term, g: Term)
    requires own !! rest
    requires forall key :: key in own ==> f(key) == g(key)
    requires forall key :: key in rest ==> f(key) == 0.0
    ensures SumOver(own + rest, f) == SumOver(own, g)
  {
    hide SumOver;
    SumOverDisjoint(own, rest, f);
    assert forall key :: key in rest ==> f(key) == 0.0;
    ZeroSum(rest, f);
    assert forall key :: key in own ==> f(key) == g(key);
    SumOverSame(own, f, g);
  }

  /** The drivers shown are those with the largest change either way, the largest first. */
  lemma LargestDriversShown(drivers: seq<Driver>, topN: int, i: nat, j: nat)
    requires i < |Top(drivers, topN)| && i < j < |drivers|
    ensures |Top(drivers, topN)| == if 0 < topN < |drivers| then topN else |drivers|
    ensures Abs(Top(drivers, topN)[i].delta) >= Abs(SortDesc(drivers, Size)[j].delta)
  {
    var all := SortDesc(drivers, Size);
    Sorted(drivers, Size);
    assert Size(all[i]) >= Size(all[j]);
  }

  lemma WholeDelta(a: Index, b: Index)
    requires WholeCentIndex(a) && WholeCentIndex(b)
    ensures var delta := SumOver(b.Keys, Profit(b)) - SumOver(a.Keys, Profit(a)); MoneyRound(delta) == delta
  {
    hide SumOver;
    WholeCentSum(a, a.Keys);
    WholeCentSum(b, b.Keys);
    WholeCentsClosed(SumOver(b.Keys, Profit(b)), SumOver(a.Keys, Profit(a)));
  }

  // ---- the raw lines -------------------------------------------------------------

  function SoldGross(ln: Line): real { if ln.qty > 0.0 then Gross(ln) else 0.0 }

  /** Folding neither loses nor invents profit: it is that of every sold raw line. */
  lemma {:induction false} FoldKeepsProfit(lines: seq<Line>)
    ensures SumOver(ById(lines).Keys, Profit(ById(lines))) == SumBy(lines, SoldGross)
    decreases |lines|
  {
    hide SumOver;
    if lines == [] {
      NothingAdded(ById(lines));
      assert ById(lines).Keys == {};
    } else {
      var before, ln := lines[..|lines| - 1], lines[|lines| - 1];
      FoldKeepsProfit(before);
      if ln.qty > 0.0 {
        var was, now := ById(before), ById(lines);
        var others := was.Keys - {ln.id};
        assert now.Keys - {ln.id} == others;
        SumOverPick(now.Keys, Profit(now), ln.id);
        SumOverSame(others, Profit(was), Profit(now));
        if ln.id in was {
          SumOverPick(was.Keys, Profit(was), ln.id);
        } else {
          assert was.Keys == others;
        }
      }
    }
  }

  /** One amount of a line, counted if the line is a sale of product `id`. */
  function OfProduct(id: Id, amount: Line -> real): Line -> real {
    (ln: Line) => if ln.id == id && ln.qty > 0.0 then amount(ln) else 0.0
  }

  ghost predicate Additive(amount: Line -> real) {
    forall p, ln :: amount(Combine(p, ln)) == amount(p) + amount(ln)
  }

  /** A product's folded amount is the sum over its sold lines. */
  lemma {:induction false} FoldedAmount(lines: seq<Line>, id: Id, amount: Line -> real)
    requires Additive(amount)
    ensures (if id in ById(lines) then amount(ById(lines)[id]) else 0.0) == SumBy(lines, OfProduct(id, amount))
    decreases |lines|
  {
    hide Combine;
    if lines != [] {
      FoldedAmount(lines[..|lines| - 1], id, amount);
    }
  }

  lemma {:induction false} SoldIds(lines: seq<Line>)
    ensures forall id :: id in ById(lines) <==> exists ln :: ln in lines && ln.id == id && ln.qty > 0.0
    decreases |lines|
  {
    hide Combine;
    if lines != [] {
      var before, last := lines[..|lines| - 1], lines[|lines| - 1];
      SoldIds(before);
      assert forall ln :: ln in lines <==> ln in before || ln == last;
    }
  }

  /** A folded product keeps its id, the name on its last sold line, and all it was returned and earned. */
  lemma FoldedLine(lines: seq<Line>, id: Id)
    requires id in ById(lines)
    ensures ById(lines)[id].id == id
    ensures exists i :: 0 <= i < |lines| && LastSold(lines, id, i) && ById(lines)[id].name == lines[i].name
    ensures ById(lines)[id].returned == SumBy(lines, OfProduct(id, (ln: Line) => ln.returned))
    ensures ById(lines)[id].profit == SumBy(lines, OfProduct(id, (ln: Line) => ln.profit))
  {
    FoldedAmount(lines, id, (ln: Line) => ln.returned);
    FoldedAmount(lines, id, (ln: Line) => ln.profit);
    FoldedName(lines, id);
  }

  ghost predicate LastSold(lines: seq<Line>, id: Id, i: nat) {
    && i < |lines| && lines[i].id == id && lines[i].qty > 0.0
    && forall j :: i < j < |lines| && lines[j].qty > 0.0 ==> lines[j].id != id
  }

  lemma {:induction false} FoldedName(lines: seq<Line>, id: Id)
    requires id in ById(lines)
    ensures ById(lines)[id].id == id
    ensures exists i :: 0 <= i < |lines| && LastSold(lines, id, i) && ById(lines)[id].name == lines[i].name
    decreases |lines|
  {
    var before, last := lines[..|lines| - 1], lines[|lines| - 1];
    if last.qty > 0.0 && last.id == id {
      assert LastSold(lines, id, |lines| - 1);
    } else {
      FoldedName(before, id);
      var i :| 0 <= i < |before| && LastSold(before, id, i) && ById(before)[id].name == before[i].name;
      assert LastSold(lines, id, i);
    }
  }

  lemma SameIds(x: seq<Line>, y: seq<Line>, id: Id)
    requires multiset(x) == multiset(y) && id in ById(x)
    ensures id in ById(y)
  {
    hide ById;
    SoldIds(x);
    SoldIds(y);
    var ln :| ln in x && ln.id == id && ln.qty > 0.0;
    assert ln in multiset(x);
    assert ln in y;
  }

  /** Duplicate lines fold to the same amounts in any order. */
  lemma FoldOrderFree(x: seq<Line>, y: seq<Line>)
    requires multiset(x) == multiset(y)
    ensures ById(x).Keys == ById(y).Keys
    ensures forall id :: id in ById(x) ==>
              && ById(x)[id].qty == ById(y)[id].qty
              && ById(x)[id].revenue == ById(y)[id].revenue
              && ById(x)[id].cost == ById(y)[id].cost
  {
    hide ById, SumBy;
    forall id
      ensures id in ById(x) <==> id in ById(y)
    {
      if id in ById(x) {
        SameIds(x, y, id);
      }
      if id in ById(y) {
        SameIds(y, x, id);
      }
    }
    forall id | id in ById(x)
      ensures ById(x)[id].qty == ById(y)[id].qty
      ensures ById(x)[id].revenue == ById(y)[id].revenue
      ensures ById(x)[id].cost == ById(y)[id].cost
    {
      SameAmount(x, y, id, (ln: Line) => ln.qty);
      SameAmount(x, y, id, (ln: Line) => ln.revenue);
      SameAmount(x, y, id, (ln: Line) => ln.cost);
    }
  }

  lemma SameAmount(x: seq<Line>, y: seq<Line>, id: Id, amount: Line -> real)
    requires multiset(x) == multiset(y) && Additive(amount) && id in ById(x) && id in ById(y)
    ensures amount(ById(x)[id]) == amount(ById(y)[id])
  {
    hide ById, SumBy;
    FoldedAmount(x, id, amount);
    FoldedAmount(y, id, amount);
    SumByPermutation(x, y, OfProduct(id, amount));
  }

  /** The whole bridge is blind to the order of either period's lines. */
  lemma BridgeOrderFree(x: seq<Line>, y: seq<Line>, u: seq<Line>, v: seq<Line>, div: Division)
    requires multiset(x) == multiset(y) && multiset(u) == multiset(v)
    ensures Unrounded(ById(x), ById(u), div) == Unrounded(ById(y), ById(v), div)
  {
    FoldOrderFree(x, y);
    FoldOrderFree(u, v);
    SameAmountsSameBridge(ById(x), ById(u), ById(y), ById(v), div);
  }

  ghost predicate SameAmounts(m: Index, n: Index) {
    m.Keys == n.Keys && forall id :: id in m ==>
      m[id].qty == n[id].qty && m[id].revenue == n[id].revenue && m[id].cost == n[id].cost
  }

  lemma SameAmountsSameBridge(a: Index, b: Index, c: Index, d: Index, div: Division)
    requires SameAmounts(a, c) && SameAmounts(b, d)
    ensures Unrounded(a, b, div) == Unrounded(c, d, div)
  {
    hide SumOver;
    var common := a.Keys * b.Keys;
    SumOverSame(common, PriceTerm(a, b, div), PriceTerm(c, d, div));
    SumOverSame(common, CostTerm(a, b, div), CostTerm(c, d, div));
    SumOverSame(common, QtyTerm(a, b, div), QtyTerm(c, d, div));
    SumOverSame(common, Quantity(a), Quantity(c));
    SumOverSame(common, Quantity(b), Quantity(d));
    SumOverSame(common, Profit(a), Profit(c));
    SumOverSame(b.Keys - a.Keys, Profit(b), Profit(d));
    SumOverSame(a.Keys - b.Keys, Profit(a), Profit(c));
    SumOverSame(a.Keys, Profit(a), Profit(c));
    SumOverSame(b.Keys, Profit(b), Profit(d));
  }
}
