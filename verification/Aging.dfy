/** Receivables aging (chic/aggregate/analytics.py, `receivables_aging`). */
module Aging {
  import opened Money
  import opened Basics
  import opened Sums
  import opened Sorting

  /** Amounts are minor units; `due` is the parsed payment moment in seconds, if any. */
  datatype Document = Document(name: string, agent: Option<string>, total: real, payed: real, due: Option<real>)
  datatype Item = Item(document: string, counterparty: string, due: Option<real>, outstanding: real, daysOverdue: int)
  datatype Bucket = Bucket(count: nat, amount: real)
  datatype Report = Report(
    totalOutstanding: real, totalOverdue: real, buckets: seq<Bucket>, itemCount: nat, truncated: bool, items: seq<Item>)

  function Outstanding(d: Document): real { MinorToMajor(d.total - d.payed) }

  function OverdueDays(d: Document, now: real): int {
    if d.due.Some? && d.due.value < now then Trunc((now - d.due.value) / 3600.0 / 24.0) else 0
  }

  function BucketIndex(days: int): (i: nat)
    ensures i < 5
  {
    if days <= 0 then 0 else if days <= 30 then 1 else if days <= 60 then 2 else if days <= 90 then 3 else 4
  }

  function ItemOf(d: Document, now: real): Item {
    Item(d.name, if d.agent.Some? then d.agent.value else "", d.due, Outstanding(d), OverdueDays(d, now))
  }

  /** Whole days past due, counted from the due moment; nothing is overdue early. */
  lemma OverdueInWholeDays(d: Document, now: real)
    ensures OverdueDays(d, now) >= 0
    ensures OverdueDays(d, now) > 0 <==> d.due.Some? && now - d.due.value >= 86400.0
    ensures d.due.Some? && d.due.value < now ==>
              var n := OverdueDays(d, now) as real; n * 86400.0 <= now - d.due.value < (n + 1.0) * 86400.0
  {
    if d.due.Some? && d.due.value < now {
      var late := now - d.due.value;
      var days := late / 3600.0 / 24.0;
      assert days * 86400.0 == late;
    }
  }

  /** The buckets are the label's day ranges: current, 1-30, 31-60, 61-90 and beyond. */
  lemma BucketEdges(days: int, k: nat)
    requires 1 <= k <= 3
    ensures BucketIndex(days) == 0 <==> days <= 0
    ensures BucketIndex(days) == k <==> 30 * (k - 1) < days <= 30 * k
    ensures BucketIndex(days) == 4 <==> days > 90
  {
  }

  /** The documents that are owed on, one item each. */
  function Items(docs: seq<Document>, now: real): seq<Item> {
    if docs == [] then []
    else
      var d := docs[|docs| - 1];
      Items(docs[..|docs| - 1], now) + if Outstanding(d) <= 0.0 then [] else [ItemOf(d, now)]
  }

  function Owed(it: Item): real { it.outstanding }

  function OwedLate(it: Item): real { if it.daysOverdue > 0 then it.outstanding else 0.0 }

  function OwedIn(bucket: nat): Item -> real {
    (it: Item) => if BucketIndex(it.daysOverdue) == bucket then it.outstanding else 0.0
  }

  function CountIn(items: seq<Item>, bucket: nat): nat {
    if items == [] then 0
    else CountIn(items[..|items| - 1], bucket) + if BucketIndex(items[|items| - 1].daysOverdue) == bucket then 1 else 0
  }

  function BucketOf(items: seq<Item>, bucket: nat): Bucket {
    Bucket(CountIn(items, bucket), SumBy(items, OwedIn(bucket)))
  }

  function Buckets(items: seq<Item>): (r: seq<Bucket>)
    ensures |r| == 5
  {
    seq(5, k requires 0 <= k < 5 => BucketOf(items, k))
  }

  function Days(it: Item): real { it.daysOverdue as real }

  ghost predicate WholeCentItems(items: seq<Item>) {
    forall i :: 0 <= i < |items| ==> WholeCents(items[i].outstanding)
  }

  lemma {:induction false} ItemsAreWhole(docs: seq<Document>, now: real)
    ensures WholeCentItems(Items(docs, now))
  {
    hide WholeCents, MinorToMajor;
    if docs != [] {
      ItemsAreWhole(docs[..|docs| - 1], now);
      MinorToMajorWhole(docs[|docs| - 1].total - docs[|docs| - 1].payed);
    }
  }

  lemma {:induction false} WholeSum(items: seq<Item>, f: Item -> real)
    requires WholeCentItems(items)
    requires forall it :: f(it) == it.outstanding || f(it) == 0.0
    ensures WholeCents(SumBy(items, f)) && MoneyRound(SumBy(items, f)) == SumBy(items, f)
  {
    CentsExact(0);
    if items != [] {
      var before, it := items[..|items| - 1], items[|items| - 1];
      WholeSum(before, f);
      hide WholeCents;
      WholeCentsClosed(SumBy(before, f), f(it));
    }
    IsUnrounded(SumBy(items, f));
  }

  /** One more item lands in its bucket; rounding the new amount changes nothing. */
  lemma BucketMore(items: seq<Item>, it: Item, bucket: nat)
    requires WholeCentItems(items + [it])
    ensures var was, now := BucketOf(items, bucket), BucketOf(items + [it], bucket);
            if BucketIndex(it.daysOverdue) == bucket
            then now == Bucket(was.count + 1, MoneyRound(was.amount + it.outstanding))
            else now == was
  {
    hide MoneyRound, WholeCents, BucketIndex;
    assert (items + [it])[..|items|] == items;
    WholeSum(items + [it], OwedIn(bucket));
  }

  lemma BucketsMore(items: seq<Item>, it: Item)
    requires WholeCentItems(items + [it])
    ensures var was, b := Buckets(items), BucketIndex(it.daysOverdue);
            Buckets(items + [it]) == was[b := Bucket(was[b].count + 1, MoneyRound(was[b].amount + it.outstanding))]
  {
    hide MoneyRound, BucketIndex, BucketOf, WholeCentItems;
    forall k | 0 <= k < 5
      ensures BucketOf(items + [it], k)
           == if BucketIndex(it.daysOverdue) == k
              then Bucket(BucketOf(items, k).count + 1, MoneyRound(BucketOf(items, k).amount + it.outstanding))
              else BucketOf(items, k)
    {
      BucketMore(items, it, k);
    }
  }

  method ReceivablesAging(docs: seq<Document>, now: real, limit: int) returns (r: Report)
    ensures var items := Items(docs, now);
            && r.totalOutstanding == SumBy(items, Owed) && r.totalOverdue == SumBy(items, OwedLate)
            && r.itemCount == |items| && r.buckets == Buckets(items)
            && r.items == Capped(SortDesc(items, Days), limit) && (r.truncated <==> 0 < limit < |items|)
  {
    hide MoneyRound, MinorToMajor, Trunc, Buckets, SortDesc, WholeCents, WholeCentItems, SumBy;
    var buckets := new Bucket[5](i => Bucket(0, 0.0));
    var items: seq<Item> := [];
    var totalOutstanding, totalOverdue := 0.0, 0.0;
    NothingOwed();
    for i := 0 to |docs|
      invariant items == Items(docs[..i], now)
      invariant totalOutstanding == SumBy(items, Owed) && totalOverdue == SumBy(items, OwedLate)
      invariant buckets[..] == Buckets(items)
    {
      var d := docs[i];
      assert docs[..i + 1][..i] == docs[..i];
      var outstanding := Outstanding(d);
      if outstanding > 0.0 {
        var overdue := OverdueDays(d, now);
        var b := BucketIndex(overdue);
        ItemsAreWhole(docs[..i + 1], now);
        BucketsMore(items, ItemOf(d, now));
        SumBySnoc(items, ItemOf(d, now), Owed);
        SumBySnoc(items, ItemOf(d, now), OwedLate);
        totalOutstanding := totalOutstanding + outstanding;
        buckets[b] := Bucket(buckets[b].count + 1, MoneyRound(buckets[b].amount + outstanding));
        if overdue > 0 {
          totalOverdue := totalOverdue + outstanding;
        }
        items := items + [ItemOf(d, now)];
      }
    }
    assert docs[..|docs|] == docs;
    ItemsAreWhole(docs, now);
    WholeSum(items, Owed);
    WholeSum(items, OwedLate);
    r := Report(MoneyRound(totalOutstanding), MoneyRound(totalOverdue), buckets[..], |items|, 0 < limit < |items|,
                Capped(SortDesc(items, Days), limit));
  }

  lemma NothingOwed()
    ensures SumBy([], Owed) == 0.0 && SumBy([], OwedLate) == 0.0
    ensures Buckets([]) == seq(5, k => Bucket(0, 0.0))
  {
  }

  /**
   The five buckets hold every owed amount and every item once; the last four hold
   exactly what is overdue.
   */
  lemma {:induction false} BucketsConserve(items: seq<Item>)
    ensures SumBy(items, OwedIn(0)) + SumBy(items, OwedIn(1)) + SumBy(items, OwedIn(2)) + SumBy(items, OwedIn(3))
              + SumBy(items, OwedIn(4)) == SumBy(items, Owed)
    ensures SumBy(items, OwedIn(1)) + SumBy(items, OwedIn(2)) + SumBy(items, OwedIn(3)) + SumBy(items, OwedIn(4))
         == SumBy(items, OwedLate)
    ensures CountIn(items, 0) + CountIn(items, 1) + CountIn(items, 2) + CountIn(items, 3) + CountIn(items, 4) == |items|
  {
    if items != [] {
      BucketsConserve(items[..|items| - 1]);
    }
  }

  // ---- the raw documents -------------------------------------------------------------

  /** What is left to pay of a document, in minor units; an overpaid one owes nothing. */
  function Unpaid(d: Document): real { if d.total > d.payed then d.total - d.payed else 0.0 }

  ghost predicate WholeMinor(docs: seq<Document>) {
    forall i :: 0 <= i < |docs| ==> (docs[i].total - docs[i].payed).Floor as real == docs[i].total - docs[i].payed
  }

  lemma OwedIsUnpaid(d: Document)
    requires (d.total - d.payed).Floor as real == d.total - d.payed
    ensures if Outstanding(d) > 0.0 then Outstanding(d) * 100.0 == Unpaid(d) else Unpaid(d) == 0.0
  {
    hide WholeCents, MoneyRound, RoundHalfAway;
    MinorToMajorWhole(d.total - d.payed);
    RoundedInteger((d.total - d.payed).Floor);
  }

  /** In whole minor units, the outstanding total is what is left to pay of all documents. */
  lemma {:induction false} OutstandingIsUnpaid(docs: seq<Document>, now: real)
    requires WholeMinor(docs)
    ensures SumBy(Items(docs, now), Owed) * 100.0 == SumBy(docs, Unpaid)
    decreases |docs|
  {
    hide MinorToMajor, OverdueDays, Outstanding;
    if docs != [] {
      var before, d := docs[..|docs| - 1], docs[|docs| - 1];
      OutstandingIsUnpaid(before, now);
      OwedIsUnpaid(d);
      SumBySnoc(Items(before, now), ItemOf(d, now), Owed);
      assert Items(before, now) + [] == Items(before, now);
    }
  }

  /** The items shown are the most overdue ones, longest first. */
  lemma MostOverdueShown(items: seq<Item>, limit: int, i: nat, j: nat)
    requires i < |Capped(SortDesc(items, Days), limit)| && i < j < |items|
    ensures Capped(SortDesc(items, Days), limit)[i].daysOverdue >= SortDesc(items, Days)[j].daysOverdue
  {
    var all := SortDesc(items, Days);
    Sorted(items, Days);
    assert Days(all[i]) >= Days(all[j]);
  }

  /** An item carries its document's name, counterparty and due moment. */
  lemma {:induction false} ItemShows(docs: seq<Document>, now: real, i: nat) returns (k: nat)
    requires i < |Items(docs, now)|
    ensures k < |docs|
    ensures var it, d := Items(docs, now)[i], docs[k];
            && it.document == d.name && it.due == d.due && it.outstanding == Outstanding(d) > 0.0
            && it.daysOverdue == OverdueDays(d, now)
            && it.counterparty == (match d.agent case Some(name) => name case None => "")
    decreases |docs|
  {
    hide Outstanding, OverdueDays;
    if i < |Items(docs[..|docs| - 1], now)| {
      k := ItemShows(docs[..|docs| - 1], now, i);
    } else {
      k := |docs| - 1;
    }
  }
}
