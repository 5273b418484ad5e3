/** Sums of exact amounts over sequences and over finite key sets. */
module Sums {

  function SumBy<T>(s: seq<T>, f: T -> real): real {
    if s == [] then 0.0 else SumBy(s[..|s| - 1], f) + f(s[|s| - 1])
  }

  lemma {:induction false} SumBySnoc<T>(s: seq<T>, x: T, f: T -> real)
    ensures SumBy(s + [x], f) == SumBy(s, f) + f(x)
  {
    assert (s + [x])[..|s|] == s;
  }

  lemma {:induction false} SumByConcat<T>(a: seq<T>, b: seq<T>, f: T -> real)
    ensures SumBy(a + b, f) == SumBy(a, f) + SumBy(b, f)
    decreases |b|
  {
    if b == [] {
      assert a + b == a;
    } else {
      SumByConcat(a, b[..|b| - 1], f);
      assert (a + b)[..|a + b| - 1] == a + b[..|b| - 1];
    }
  }

  lemma SumByRemove<T>(s: seq<T>, i: nat, f: T -> real)
    requires i < |s|
    ensures SumBy(s, f) == SumBy(s[..i] + s[i + 1..], f) + f(s[i])
  {
    var a, x, b := s[..i], s[i], s[i + 1..];
    assert s == (a + [x]) + b;
    SumByConcat(a + [x], b, f);
    SumBySnoc(a, x, f);
    SumByConcat(a, b, f);
  }

  lemma RemoveOne<T>(s: seq<T>, i: nat)
    requires i < |s|
    ensures multiset(s[..i] + s[i + 1..]) == multiset(s) - multiset{s[i]}
  {
    assert s == s[..i] + [s[i]] + s[i + 1..];
  }

  /** Exact addition does not see the order of its terms. */
  lemma {:induction false} SumByPermutation<T>(a: seq<T>, b: seq<T>, f: T -> real)
    requires multiset(a) == multiset(b)
    ensures SumBy(a, f) == SumBy(b, f)
    decreases |a|
  {
    if a == [] {
      assert |multiset(b)| == 0;
    } else {
      var x, n := a[|a| - 1], |a| - 1;
      assert a == a[..n] + [x];
      assert x in multiset(b);
      var i :| 0 <= i < |b| && b[i] == x;
      SumByRemove(b, i, f);
      RemoveOne(b, i);
      assert multiset(a[..n]) == multiset(a) - multiset{x};
      SumByPermutation(a[..n], b[..i] + b[i + 1..], f);
    }
  }

  lemma {:induction false} SumBySame<T>(s: seq<T>, f: T -> real, g: T -> real)
    requires forall x :: x in s ==> f(x) == g(x)
    ensures SumBy(s, f) == SumBy(s, g)
  {
    if s != [] {
      SumBySame(s[..|s| - 1], f, g);
    }
  }

  /** The sum of `f` over a finite set of keys, in whatever order they come. */
  ghost function SumOver<K(!new)>(keys: set<K>, f: K -> real): real {
    if keys == {} then 0.0 else
      var k :| k in keys;
      f(k) + SumOver(keys - {k}, f)
  }

  lemma {:induction false} SumOverPick<K(!new)>(keys: set<K>, f: K -> real, k: K)
    requires k in keys
    ensures SumOver(keys, f) == f(k) + SumOver(keys - {k}, f)
    decreases keys
  {
    var p :| p in keys && SumOver(keys, f) == f(p) + SumOver(keys - {p}, f);
    if p != k {
      SumOverPick(keys - {p}, f, k);
      SumOverPick(keys - {k}, f, p);
      assert keys - {p} - {k} == keys - {k} - {p};
    }
  }

  lemma SumOverAdd<K(!new)>(keys: set<K>, k: K, f: K -> real)
    requires k !in keys
    ensures SumOver(keys + {k}, f) == SumOver(keys, f) + f(k)
  {
    SumOverPick(keys + {k}, f, k);
    assert keys + {k} - {k} == keys;
  }

  lemma {:induction false} SumOverSame<K(!new)>(keys: set<K>, f: K -> real, g: K -> real)
    requires forall k :: k in keys ==> f(k) == g(k)
    ensures SumOver(keys, f) == SumOver(keys, g)
    decreases keys
  {
    if keys != {} {
      var k :| k in keys;
      SumOverPick(keys, f, k);
      SumOverPick(keys, g, k);
      SumOverSame(keys - {k}, f, g);
    }
  }

  lemma {:induction false} ZeroSum<K(!new)>(keys: set<K>, f: K -> real)
    requires forall k :: k in keys ==> f(k) == 0.0
    ensures SumOver(keys, f) == 0.0
    decreases keys
  {
    if keys != {} {
      var k :| k in keys;
      SumOverPick(keys, f, k);
      ZeroSum(keys - {k}, f);
    }
  }

  lemma {:induction false} SumOverDisjoint<K(!new)>(a: set<K>, b: set<K>, f: K -> real)
    requires a !! b
    ensures SumOver(a + b, f) == SumOver(a, f) + SumOver(b, f)
    decreases a
  {
    if a == {} {
      assert a + b == b;
    } else {
      var k :| k in a;
      SumOverPick(a, f, k);
      SumOverPick(a + b, f, k);
      assert (a + b) - {k} == (a - {k}) + b;
      SumOverDisjoint(a - {k}, b, f);
    }
  }

  ghost predicate NoRepeats<K>(s: seq<K>) {
    forall i, j :: 0 <= i < j < |s| ==> s[i] != s[j]
  }

  ghost function Elements<K>(s: seq<K>): set<K> { set k | k in s }

  /** Any enumeration of the keys gives the sum over their set. */
  lemma {:induction false} SumOverEnumeration<K(!new)>(order: seq<K>, f: K -> real)
    requires NoRepeats(order)
    ensures SumBy(order, f) == SumOver(Elements(order), f)
    decreases |order|
  {
    if order != [] {
      var before, last := order[..|order| - 1], order[|order| - 1];
      SumOverEnumeration(before, f);
      SumOverPick(Elements(order), f, last);
      assert Elements(order) - {last} == Elements(before);
    }
  }
}
