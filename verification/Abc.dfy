/**
 ABC (Pareto) classes (chic/aggregate/analytics.py, `abc`). The cumulative ranking,
 which the program runs in binary floats, is modelled on exact reals.
 */
module Abc {
  import opened Money
  import opened Basics
  import opened Sums
  import opened Sorting

  datatype Class = A | B | C
  datatype Item = Item(name: string, value: real, share: real, cumulative: real, cls: Class)
  datatype Pair = Pair(name: string, value: real)

  function Rank(c: Class): nat { match c case A => 0 case B => 1 case C => 2 }

  /** Cuts out of range fall back to the defaults; both end up below 1. */
  function ACut(a: real): (r: real)
    ensures 0.0 < r < 1.0
    ensures 0.0 < a < 1.0 ==> r == a
    ensures r == a || r == 0.8
  {
    if a <= 0.0 || a >= 1.0 then 0.8 else a
  }

  function BCut(a: real, b: real): (r: real)
    ensures r < 1.0
    ensures ACut(a) < b < 1.0 ==> r == b
    ensures r == b || r == 0.95
  {
    if b <= ACut(a) || b >= 1.0 then 0.95 else b
  }

  function Value(p: Pair): real { p.value }

  function Positive(p: Pair): real { if p.value > 0.0 then p.value else 0.0 }

  function Ranked(pairs: seq<Pair>): seq<Pair> { SortDesc(pairs, Value) }

  /** The value of the positive pairs among the first `k`. */
  function Cumulative(ranked: seq<Pair>, k: nat): real
    requires k <= |ranked|
  {
    SumBy(ranked[..k], Positive)
  }

  function ClassAt(ranked: seq<Pair>, aCut: real, bCut: real, i: nat): Class
    requires i < |ranked|
  {
    var total, cum := SumBy(ranked, Positive), Cumulative(ranked, i + 1);
    if ranked[i].value <= 0.0 || total == 0.0 then C
    else if cum / total <= aCut then A
    else if cum / total <= bCut then B
    else C
  }

  function Percent(part: real, whole: real): real
    requires whole > 0.0
  {
    Round2(part / whole * 100.0)
  }

  function ItemAt(ranked: seq<Pair>, aCut: real, bCut: real, i: nat): Item
    requires i < |ranked|
  {
    var total, p := SumBy(ranked, Positive), ranked[i];
    if total > 0.0 && p.value > 0.0 then
      Item(p.name, p.value, Percent(p.value, total), Percent(Cumulative(ranked, i + 1), total),
           ClassAt(ranked, aCut, bCut, i))
    else Item(p.name, p.value, 0.0, 100.0, ClassAt(ranked, aCut, bCut, i))
  }

  /** The ranked items with their classes and shares. */
  function Classified(ranked: seq<Pair>, aCut: real, bCut: real): (items: seq<Item>)
    ensures |items| == |ranked|
  {
    seq(|ranked|, i requires 0 <= i < |ranked| => ItemAt(ranked, aCut, bCut, i))
  }

  method Classify(pairs: seq<Pair>, aCut: real, bCut: real) returns (items: seq<Item>)
    ensures items == Classified(Ranked(pairs), ACut(aCut), BCut(aCut, bCut))
  {
    hide SortDesc, Round2, SumBy;
    var a := if aCut <= 0.0 || aCut >= 1.0 then 0.8 else aCut;
    var b := if bCut <= a || bCut >= 1.0 then 0.95 else bCut;
    var ranked := Ranked(pairs);
    var total := SumBy(ranked, Positive);
    items := [];
    var cum := 0.0;
    NoPositives(ranked[..0]);
    for i := 0 to |ranked|
      invariant cum == Cumulative(ranked, i)
      invariant |items| == i
      invariant forall j :: 0 <= j < i ==> items[j] == ItemAt(ranked, a, b, j)
    {
      var v := ranked[i].value;
      PositiveTotal(ranked, i);
      var share, cumulative, cls := 0.0, 100.0, C;
      if total > 0.0 && v > 0.0 {
        share := Round2(v / total * 100.0);
        cum := cum + v;
        cumulative := Round2(cum / total * 100.0);
      }
      if v > 0.0 {
        if cum / total <= a {
          cls := A;
        } else if cum / total <= b {
          cls := B;
        }
      }
      items := items + [Item(ranked[i].name, v, share, cumulative, cls)];
      assert items[i] == ItemAt(ranked, a, b, i);
    }
  }

  lemma {:induction false} PositiveSum(s: seq<Pair>)
    ensures SumBy(s, Positive) >= 0.0
  {
    if s != [] {
      PositiveSum(s[..|s| - 1]);
    }
  }

  /** The positive pairs up to `i`, and all of them, are worth at least what one of them is. */
  lemma PositiveTotal(s: seq<Pair>, i: nat)
    requires i < |s|
    ensures SumBy(s[..i + 1], Positive) == SumBy(s[..i], Positive) + Positive(s[i])
    ensures SumBy(s, Positive) >= SumBy(s[..i + 1], Positive) >= Positive(s[i])
  {
    hide SumBy;
    assert s[..i + 1] == s[..i] + [s[i]];
    SumBySnoc(s[..i], s[i], Positive);
    assert s == s[..i + 1] + s[i + 1..];
    SumByConcat(s[..i + 1], s[i + 1..], Positive);
    PositiveSum(s[..i]);
    PositiveSum(s[i + 1..]);
  }

  lemma {:induction false} CumulativeGrows(ranked: seq<Pair>, i: nat, j: nat)
    requires i <= j <= |ranked|
    ensures Cumulative(ranked, i) <= Cumulative(ranked, j)
    decreases j
  {
    if i < j {
      CumulativeGrows(ranked, i, j - 1);
      PositiveTotal(ranked, j - 1);
    }
  }

  lemma DivideMonotone(x: real, y: real, total: real)
    requires x <= y && total > 0.0
    ensures x / total <= y / total
  {
  }

  /** Along the ranking the classes read A…AB…BC…C, for every pair of cuts. */
  lemma ClassesInOrder(pairs: seq<Pair>, aCut: real, bCut: real, i: nat, j: nat)
    requires i < j < |Ranked(pairs)|
    ensures Rank(ClassAt(Ranked(pairs), aCut, bCut, i)) <= Rank(ClassAt(Ranked(pairs), aCut, bCut, j))
  {
    hide SortDesc, SumBy, Cumulative;
    var ranked := Ranked(pairs);
    RankedTotal(pairs);
    assert Value(ranked[i]) >= Value(ranked[j]);
    CumulativeGrows(ranked, i + 1, j + 1);
    if SumBy(ranked, Positive) > 0.0 {
      DivideMonotone(Cumulative(ranked, i + 1), Cumulative(ranked, j + 1), SumBy(ranked, Positive));
    }
  }

  /** The last positive item is always C: its cumulative share is the whole. */
  lemma LastPositiveIsC(pairs: seq<Pair>, aCut: real, bCut: real, i: nat)
    requires i < |Ranked(pairs)|
    requires forall j :: i < j < |Ranked(pairs)| ==> Ranked(pairs)[j].value <= 0.0
    ensures ClassAt(Ranked(pairs), ACut(aCut), BCut(aCut, bCut), i) == C
  {
    hide SortDesc, ACut, BCut;
    var ranked := Ranked(pairs);
    assert ranked == ranked[..i + 1] + ranked[i + 1..];
    SumByConcat(ranked[..i + 1], ranked[i + 1..], Positive);
    NoPositives(ranked[i + 1..]);
    PositiveTotal(ranked, i);
    var total := SumBy(ranked, Positive);
    assert Cumulative(ranked, i + 1) == total;
    if total > 0.0 {
      Undivide(total, total, ACut(aCut));
      Undivide(total, total, BCut(aCut, bCut));
      LessThanWhole(total, ACut(aCut));
      LessThanWhole(total, BCut(aCut, bCut));
    }
  }

  lemma LessThanWhole(total: real, cut: real)
    requires total > 0.0 && cut < 1.0
    ensures cut * total < total
  {
    assert (1.0 - cut) * total > 0.0;
  }

  lemma Undivide(cum: real, total: real, cut: real)
    requires total > 0.0
    ensures cum / total <= cut <==> cum <= cut * total
  {
    assert cum / total * total == cum;
  }

  /** The shown cumulative shares never fall along the ranking and never pass 100. */
  lemma CumulativeSharesRise(pairs: seq<Pair>, aCut: real, bCut: real, i: nat, j: nat)
    requires i <= j < |Ranked(pairs)|
    ensures ItemAt(Ranked(pairs), aCut, bCut, i).cumulative <= ItemAt(Ranked(pairs), aCut, bCut, j).cumulative <= 100.0
  {
    hide SortDesc, SumBy, Cumulative, ClassAt, Percent;
    var ranked := Ranked(pairs);
    var total := SumBy(ranked, Positive);
    RankedTotal(pairs);
    assert i < j ==> Value(ranked[i]) >= Value(ranked[j]);
    CumulativeGrows(ranked, i + 1, j + 1);
    CumulativeGrows(ranked, j + 1, |ranked|);
    WholeIsCumulative(ranked);
    if total > 0.0 {
      PercentMonotone(Cumulative(ranked, i + 1), Cumulative(ranked, j + 1), total);
      PercentMonotone(Cumulative(ranked, i + 1), total, total);
      PercentMonotone(Cumulative(ranked, j + 1), total, total);
    }
  }

  /** The shares shown for a ranked item, each to its rounding. */
  lemma SharesShow(pairs: seq<Pair>, aCut: real, bCut: real, i: nat)
    requires i < |Ranked(pairs)|
    ensures var ranked := Ranked(pairs);
            var it, total := ItemAt(ranked, aCut, bCut, i), SumBy(pairs, Positive);
            && it.name == ranked[i].name && it.value == ranked[i].value && it.cls == ClassAt(ranked, aCut, bCut, i)
            && (ranked[i].value <= 0.0 ==> it.share == 0.0 && it.cumulative == 100.0)
            && (ranked[i].value > 0.0 ==>
                  total > 0.0 && Abs(it.share - ranked[i].value / total * 100.0) <= 0.005
                  && Abs(it.cumulative - Cumulative(ranked, i + 1) / total * 100.0) <= 0.005)
            && (i == 0 && ranked[i].value > 0.0 ==> it.cumulative == it.share)
  {
    hide SortDesc, SumBy, Round2, ClassAt;
    var ranked := Ranked(pairs);
    RankedTotal(pairs);
    PositiveTotal(ranked, i);
    var total := SumBy(ranked, Positive);
    if ranked[i].value > 0.0 {
      Round2Near(ranked[i].value / total * 100.0);
      Round2Near(Cumulative(ranked, i + 1) / total * 100.0);
      if i == 0 {
        NoPositives(ranked[..0]);
      }
    }
  }

  lemma WholeIsCumulative(ranked: seq<Pair>)
    ensures Cumulative(ranked, |ranked|) == SumBy(ranked, Positive)
  {
    assert ranked[..|ranked|] == ranked;
  }

  lemma PercentMonotone(x: real, y: real, total: real)
    requires x <= y && total > 0.0
    ensures Percent(x, total) <= Percent(y, total)
    ensures Percent(total, total) == 100.0
  {
    DivideMonotone(x, y, total);
    RoundMonotone(x / total * 100.0 * 100.0, y / total * 100.0 * 100.0);
    assert total / total == 1.0;
    RoundedInteger(10000);
  }

  lemma {:induction false} NoPositives(s: seq<Pair>)
    requires forall i :: 0 <= i < |s| ==> s[i].value <= 0.0
    ensures SumBy(s, Positive) == 0.0
  {
    if s != [] {
      NoPositives(s[..|s| - 1]);
    }
  }

  // ---- Pareto minimality -----------------------------------------------------------

  /** The positive item `i` and those before it stay within the share `cut` of the total. */
  predicate Inside(ranked: seq<Pair>, cut: real, i: nat)
    requires i < |ranked|
  {
    ranked[i].value > 0.0 && Cumulative(ranked, i + 1) <= cut * SumBy(ranked, Positive)
  }

  /** How many of the first `k` items do. */
  function CountInside(ranked: seq<Pair>, cut: real, k: nat): (n: nat)
    requires k <= |ranked|
    ensures n <= k
  {
    if k == 0 then 0 else CountInside(ranked, cut, k - 1) + if Inside(ranked, cut, k - 1) then 1 else 0
  }

  lemma InsideGoesUp(pairs: seq<Pair>, cut: real, i: nat, j: nat)
    requires i <= j < |Ranked(pairs)| && Inside(Ranked(pairs), cut, j)
    ensures Inside(Ranked(pairs), cut, i)
  {
    hide SortDesc, Cumulative, SumBy;
    var ranked := Ranked(pairs);
    RankedTotal(pairs);
    assert i < j ==> Value(ranked[i]) >= Value(ranked[j]);
    CumulativeGrows(ranked, i + 1, j + 1);
  }

  /** Those inside are the first ones. */
  lemma {:induction false} InsideIsPrefix(pairs: seq<Pair>, cut: real, k: nat, i: nat)
    requires i < k <= |Ranked(pairs)|
    ensures Inside(Ranked(pairs), cut, i) <==> i < CountInside(Ranked(pairs), cut, k)
    decreases k
  {
    hide Inside, Ranked;
    var ranked := Ranked(pairs);
    var n := CountInside(ranked, cut, k - 1);
    if i < k - 1 {
      InsideIsPrefix(pairs, cut, k - 1, i);
    }
    if n < k - 1 && Inside(ranked, cut, k - 1) {
      InsideIsPrefix(pairs, cut, k - 1, n);
      InsideGoesUp(pairs, cut, n, k - 1);
    }
  }

  /** How many of the first `k` items have one of these classes. */
  function Count(ranked: seq<Pair>, aCut: real, bCut: real, classes: set<Class>, k: nat): (n: nat)
    requires k <= |ranked|
    ensures n <= k
  {
    if k == 0 then 0
    else Count(ranked, aCut, bCut, classes, k - 1) + if ClassAt(ranked, aCut, bCut, k - 1) in classes then 1 else 0
  }

  /** A selection of items, by their positions in the ranking. */
  ghost predicate Selects(ranked: seq<Pair>, chosen: set<int>) {
    forall i :: i in chosen ==> 0 <= i < |ranked|
  }

  function Worth(ranked: seq<Pair>): int -> real { i => if 0 <= i < |ranked| then ranked[i].value else 0.0 }

  ghost function Largest(s: set<int>): (m: int)
    requires s != {}
    ensures m in s && forall i :: i in s ==> i <= m
    decreases |s|
  {
    var i := Any(s);
    var others := s - {i};
    assert forall j :: j in s <==> j == i || j in others;
    if others == {} then i else var m := Largest(others); if i > m then i else m
  }

  ghost function FirstIndices(k: nat): (s: set<int>)
    ensures |s| == k
    ensures forall i :: i in s <==> 0 <= i < k
  {
    if k == 0 then {} else FirstIndices(k - 1) + {k - 1}
  }

  /** A set of `k` positions reaches at least position `k - 1`. */
  lemma LargestIndex(s: set<int>)
    requires s != {} && forall i :: i in s ==> i >= 0
    ensures Largest(s) >= |s| - 1
  {
    SubsetSize(s, FirstIndices(Largest(s) + 1));
  }

  lemma EmptyTop(ranked: seq<Pair>)
    ensures SumBy(ranked[..0], Value) == 0.0 && SumOver({}, Worth(ranked)) == 0.0
  {
  }

  /** No selection of `k` items beats the top `k`. */
  lemma {:induction false} TopIsBest(ranked: seq<Pair>, chosen: set<int>)
    requires Descending(ranked, Value) && Selects(ranked, chosen)
    ensures |chosen| <= |ranked|
    ensures SumOver(chosen, Worth(ranked)) <= SumBy(ranked[..|chosen|], Value)
    decreases |chosen|
  {
    hide SumBy, SumOver, Largest;
    if chosen == {} {
      EmptyTop(ranked);
    } else {
      var m, k := Largest(chosen), |chosen|;
      TopIsBest(ranked, chosen - {m});
      LargestIndex(chosen);
      SumOverPick(chosen, Worth(ranked), m);
      assert Value(ranked[k - 1]) >= Value(ranked[m]);
      TopSnoc(ranked, k - 1);
    }
  }

  lemma TopSnoc(ranked: seq<Pair>, k: nat)
    requires k < |ranked|
    ensures SumBy(ranked[..k + 1], Value) == SumBy(ranked[..k], Value) + ranked[k].value
  {
    assert ranked[..k + 1] == ranked[..k] + [ranked[k]];
    SumBySnoc(ranked[..k], ranked[k], Value);
  }

  lemma {:induction false} TopPositive(ranked: seq<Pair>, k: nat)
    requires k <= |ranked| && forall i :: 0 <= i < k ==> ranked[i].value > 0.0
    ensures SumBy(ranked[..k], Value) == Cumulative(ranked, k)
  {
    if k > 0 {
      TopPositive(ranked, k - 1);
      assert ranked[..k][..k - 1] == ranked[..k - 1];
    }
  }

  /** The classes without the division. */
  lemma ClassIff(ranked: seq<Pair>, aCut: real, bCut: real, i: nat)
    requires i < |ranked|
    ensures ClassAt(ranked, aCut, bCut, i) == A <==> Inside(ranked, aCut, i)
    ensures ClassAt(ranked, aCut, bCut, i) != C <==> Inside(ranked, aCut, i) || Inside(ranked, bCut, i)
  {
    hide SumBy, Cumulative;
    PositiveWithin(ranked, i);
    if SumBy(ranked, Positive) > 0.0 {
      Undivide(Cumulative(ranked, i + 1), SumBy(ranked, Positive), aCut);
      Undivide(Cumulative(ranked, i + 1), SumBy(ranked, Positive), bCut);
    }
  }

  lemma PositiveWithin(ranked: seq<Pair>, i: nat)
    requires i < |ranked|
    ensures ranked[i].value > 0.0 ==> SumBy(ranked, Positive) > 0.0
  {
    PositiveTotal(ranked, i);
  }

  lemma InsideItems(pairs: seq<Pair>, cut: real)
    ensures var ranked := Ranked(pairs);
            var n := CountInside(ranked, cut, |ranked|);
            && (forall i :: 0 <= i < n ==> ranked[i].value > 0.0)
            && (n > 0 ==> Cumulative(ranked, n) <= cut * SumBy(ranked, Positive))
            && (n < |ranked| && ranked[n].value > 0.0 ==> Cumulative(ranked, n + 1) > cut * SumBy(ranked, Positive))
  {
    hide SortDesc, Cumulative, SumBy;
    var ranked := Ranked(pairs);
    var n := CountInside(ranked, cut, |ranked|);
    forall i | 0 <= i < n
      ensures ranked[i].value > 0.0
    {
      InsideIsPrefix(pairs, cut, |ranked|, i);
    }
    if n > 0 {
      InsideIsPrefix(pairs, cut, |ranked|, n - 1);
    }
    if n < |ranked| {
      InsideIsPrefix(pairs, cut, |ranked|, n);
    }
  }

  lemma RankedTotal(pairs: seq<Pair>)
    ensures SumBy(Ranked(pairs), Positive) == SumBy(pairs, Positive) >= 0.0
    ensures Descending(Ranked(pairs), Value)
  {
    Sorted(pairs, Value);
    SumByPermutation(Ranked(pairs), pairs, Positive);
    PositiveSum(pairs);
  }

  /** This share of the positive total. */
  function ShareOf(pairs: seq<Pair>, cut: real): real { cut * SumBy(pairs, Positive) }

  /** The items inside are worth at most the share … */
  lemma InsideWithinCut(pairs: seq<Pair>, cut: real, k: nat)
    requires cut > 0.0 && k <= CountInside(Ranked(pairs), cut, |Ranked(pairs)|)
    ensures SumBy(Ranked(pairs)[..k], Value) <= ShareOf(pairs, cut)
  {
    hide SortDesc, CountInside, SumBy;
    var ranked := Ranked(pairs);
    var n := CountInside(ranked, cut, |ranked|);
    RankedTotal(pairs);
    InsideItems(pairs, cut);
    TopPositive(ranked, k);
    if n > 0 {
      CumulativeGrows(ranked, k, n);
    } else {
      NoPositives(ranked[..0]);
      Share(cut, SumBy(pairs, Positive));
    }
  }

  lemma Share(cut: real, total: real)
    requires cut > 0.0 && total >= 0.0
    ensures cut * total >= 0.0
  {
  }

  /** … and with the next item it is worth more. */
  lemma NextExceedsCut(pairs: seq<Pair>, cut: real)
    requires SumBy(pairs, Positive) > 0.0 && cut < 1.0
    ensures var n := CountInside(Ranked(pairs), cut, |Ranked(pairs)|);
            n < |Ranked(pairs)| && SumBy(Ranked(pairs)[..n + 1], Value) > ShareOf(pairs, cut)
  {
    hide SortDesc, CountInside, SumBy;
    var ranked, total := Ranked(pairs), SumBy(pairs, Positive);
    var n := CountInside(ranked, cut, |ranked|);
    RankedTotal(pairs);
    InsideItems(pairs, cut);
    LessThanWhole(total, cut);
    NextIsPositive(ranked, cut, n);
    TopPositive(ranked, n + 1);
  }

  /** Were the next item not positive, those inside would hold the whole total. */
  lemma NextIsPositive(ranked: seq<Pair>, cut: real, n: nat)
    requires Descending(ranked, Value) && n <= |ranked|
    requires cut * SumBy(ranked, Positive) < SumBy(ranked, Positive)
    requires SumBy(ranked, Positive) > 0.0
    requires n > 0 ==> Cumulative(ranked, n) <= cut * SumBy(ranked, Positive)
    ensures n < |ranked| && ranked[n].value > 0.0
  {
    hide SumBy;
    NoPositives(ranked[..0]);
    assert Cumulative(ranked, 0) == 0.0;
    assert ranked[..|ranked|] == ranked;
    assert Cumulative(ranked, n) < SumBy(ranked, Positive);
    if n < |ranked| && ranked[n].value <= 0.0 {
      RestAddsNothing(ranked, n);
    }
  }

  lemma RestAddsNothing(ranked: seq<Pair>, n: nat)
    requires Descending(ranked, Value) && n < |ranked| && ranked[n].value <= 0.0
    ensures SumBy(ranked, Positive) == Cumulative(ranked, n)
  {
    hide SumBy;
    forall j | n <= j < |ranked|
      ensures ranked[j].value <= 0.0
    {
      assert j > n ==> Value(ranked[n]) >= Value(ranked[j]);
    }
    NoPositives(ranked[n..]);
    assert ranked == ranked[..n] + ranked[n..];
    SumByConcat(ranked[..n], ranked[n..], Positive);
  }

  /** A selection of at most `k` items worth more than `bound`. */
  ghost predicate Exceeds(ranked: seq<Pair>, chosen: set<int>, k: nat, bound: real) {
    Selects(ranked, chosen) && |chosen| <= k && SumOver(chosen, Worth(ranked)) > bound
  }

  /**
   A selection of at most `k` items can exceed a share of the positive total exactly when
   `k` exceeds the number of items that stay inside it.
   */
  lemma ParetoOfCut(pairs: seq<Pair>, cut: real, k: nat)
    requires SumBy(pairs, Positive) > 0.0 && 0.0 < cut < 1.0
    ensures (exists chosen :: Exceeds(Ranked(pairs), chosen, k, ShareOf(pairs, cut)))
       <==> k > CountInside(Ranked(pairs), cut, |Ranked(pairs)|)
  {
    hide SortDesc, CountInside, SumBy, Worth, SumOver, Selects, ShareOf;
    var ranked, bound := Ranked(pairs), ShareOf(pairs, cut);
    var n := CountInside(ranked, cut, |ranked|);
    if k > n {
      FirstExceed(pairs, cut, k);
      assert Exceeds(ranked, FirstIndices(n + 1), k, bound);
    } else {
      forall chosen
        ensures !Exceeds(ranked, chosen, k, bound)
      {
        if Selects(ranked, chosen) && |chosen| <= n {
          FewerStayWithin(pairs, cut, chosen);
        }
      }
    }
  }

  lemma FirstExceed(pairs: seq<Pair>, cut: real, k: nat)
    requires SumBy(pairs, Positive) > 0.0 && cut < 1.0
    requires k > CountInside(Ranked(pairs), cut, |Ranked(pairs)|)
    ensures var n := CountInside(Ranked(pairs), cut, |Ranked(pairs)|);
            Exceeds(Ranked(pairs), FirstIndices(n + 1), k, ShareOf(pairs, cut))
  {
    hide Ranked, CountInside, SumBy, Worth, SumOver, FirstIndices, ShareOf;
    var ranked := Ranked(pairs);
    var n := CountInside(ranked, cut, |ranked|);
    NextExceedsCut(pairs, cut);
    FirstIndicesWorth(ranked, n + 1);
    assert SumOver(FirstIndices(n + 1), Worth(ranked)) > ShareOf(pairs, cut);
    assert Selects(ranked, FirstIndices(n + 1));
    assert |FirstIndices(n + 1)| <= k;
  }

  lemma FewerStayWithin(pairs: seq<Pair>, cut: real, chosen: set<int>)
    requires cut > 0.0 && Selects(Ranked(pairs), chosen)
    requires |chosen| <= CountInside(Ranked(pairs), cut, |Ranked(pairs)|)
    ensures SumOver(chosen, Worth(Ranked(pairs))) <= ShareOf(pairs, cut)
  {
    hide SortDesc, CountInside, SumBy, Worth, SumOver, ShareOf;
    RankedTotal(pairs);
    TopIsBest(Ranked(pairs), chosen);
    InsideWithinCut(pairs, cut, |chosen|);
  }

  /** Class A holds the items inside its cut, and A with B those inside the larger of the two. */
  lemma {:induction false} CountsAreInside(ranked: seq<Pair>, aCut: real, bCut: real, k: nat)
    requires k <= |ranked|
    ensures Count(ranked, aCut, bCut, {A}, k) == CountInside(ranked, aCut, k)
    ensures Count(ranked, aCut, bCut, {A, B}, k) == CountInside(ranked, Larger(aCut, bCut), k)
    decreases k
  {
    hide ClassAt, Inside;
    if k > 0 {
      CountsAreInside(ranked, aCut, bCut, k - 1);
      ClassIff(ranked, aCut, bCut, k - 1);
      LargerCut(ranked, aCut, bCut, k - 1);
    }
  }

  function Larger(x: real, y: real): real { if x < y then y else x }

  lemma LargerCut(ranked: seq<Pair>, aCut: real, bCut: real, i: nat)
    requires i < |ranked|
    ensures Inside(ranked, Larger(aCut, bCut), i) <==> Inside(ranked, aCut, i) || Inside(ranked, bCut, i)
  {
    hide SumBy, Cumulative;
    var total := SumBy(ranked, Positive);
    assert total >= 0.0 by {
      PositiveSum(ranked);
    }
    if aCut < bCut {
      assert aCut * total <= bCut * total;
    } else {
      assert bCut * total <= aCut * total;
    }
  }

  /**
   Class A is Pareto-minimal: a selection of at most `k` items can exceed the A share
   of the positive total exactly when `k` exceeds the number of A items.
   */
  lemma ParetoMinimal(pairs: seq<Pair>, aCut: real, bCut: real, k: nat)
    requires SumBy(pairs, Positive) > 0.0
    ensures var ranked, a, bound := Ranked(pairs), ACut(aCut), ShareOf(pairs, ACut(aCut));
            (exists chosen :: Exceeds(ranked, chosen, k, bound))
              <==> k > Count(ranked, a, BCut(aCut, bCut), {A}, |ranked|)
  {
    hide Ranked, ACut, BCut, Count, CountInside, SumBy, Exceeds, ShareOf;
    CountsAreInside(Ranked(pairs), ACut(aCut), BCut(aCut, bCut), |Ranked(pairs)|);
    ParetoOfCut(pairs, ACut(aCut), k);
  }

  /** And so are classes A and B together, for the larger of the two cuts. */
  lemma ParetoMinimalAB(pairs: seq<Pair>, aCut: real, bCut: real, k: nat)
    requires SumBy(pairs, Positive) > 0.0
    ensures var ranked, a, b := Ranked(pairs), ACut(aCut), BCut(aCut, bCut);
            var bound := ShareOf(pairs, Larger(a, b));
            (exists chosen :: Exceeds(ranked, chosen, k, bound))
              <==> k > Count(ranked, a, b, {A, B}, |ranked|)
  {
    hide Ranked, ACut, BCut, Count, CountInside, SumBy, Exceeds, ShareOf;
    var a, b := ACut(aCut), BCut(aCut, bCut);
    CountsAreInside(Ranked(pairs), a, b, |Ranked(pairs)|);
    ParetoOfCut(pairs, Larger(a, b), k);
  }

  lemma FirstIndicesSnoc(ranked: seq<Pair>, k: nat)
    requires k <= |ranked|
    ensures k == 0 ==> FirstIndices(k) == {}
    ensures k > 0 ==> FirstIndices(k) == FirstIndices(k - 1) + {k - 1} && k - 1 !in FirstIndices(k - 1)
    ensures k > 0 ==> Worth(ranked)(k - 1) == ranked[k - 1].value
  {
  }

  lemma {:induction false} FirstIndicesWorth(ranked: seq<Pair>, k: nat)
    requires k <= |ranked|
    ensures SumOver(FirstIndices(k), Worth(ranked)) == SumBy(ranked[..k], Value)
  {
    hide SumOver, SumBy, Worth, FirstIndices;
    FirstIndicesSnoc(ranked, k);
    if k == 0 {
      EmptyTop(ranked);
    } else {
      FirstIndicesWorth(ranked, k - 1);
      SumOverAdd(FirstIndices(k - 1), k - 1, Worth(ranked));
      TopSnoc(ranked, k - 1);
    }
  }
}
