/**
 The list operations the reports lean on: Python's stable sort and its slices.
 */
module Sorting {

  ghost predicate Descending<T>(s: seq<T>, key: T -> real) {
    forall i, j :: 0 <= i < j < |s| ==> key(s[i]) >= key(s[j])
  }

  /** Insertion in front of the first item whose key is not larger. */
  function Insert<T>(x: T, s: seq<T>, key: T -> real): (r: seq<T>)
    ensures |r| == |s| + 1
  {
    if s == [] || key(x) >= key(s[0]) then [x] + s else [s[0]] + Insert(x, s[1..], key)
  }

  /** `list.sort(key=…, reverse=True)`: descending, equal keys in their given order. */
  function SortDesc<T>(s: seq<T>, key: T -> real): (r: seq<T>)
    ensures |r| == |s|
  {
    if s == [] then [] else Insert(s[0], SortDesc(s[1..], key), key)
  }

  lemma {:induction false} InsertKeeps<T>(x: T, s: seq<T>, key: T -> real)
    ensures multiset(Insert(x, s, key)) == multiset(s) + multiset{x}
  {
    if !(s == [] || key(x) >= key(s[0])) {
      InsertKeeps(x, s[1..], key);
      assert s == [s[0]] + s[1..];
    }
  }

  lemma {:induction false} InsertSorted<T>(x: T, s: seq<T>, key: T -> real)
    requires Descending(s, key)
    ensures Descending(Insert(x, s, key), key)
  {
    if !(s == [] || key(x) >= key(s[0])) {
      InsertSorted(x, s[1..], key);
      InsertKeeps(x, s[1..], key);
      var t := Insert(x, s[1..], key);
      forall i | 0 <= i < |t|
        ensures key(s[0]) >= key(t[i])
      {
        assert t[i] in multiset(t);
        assert t[i] in s[1..] || t[i] == x;
      }
    }
  }

  lemma NothingDescending<T>(key: T -> real)
    ensures Descending([], key)
  {
  }

  lemma {:induction false} Sorted<T>(s: seq<T>, key: T -> real)
    ensures Descending(SortDesc(s, key), key)
    ensures multiset(SortDesc(s, key)) == multiset(s)
  {
    hide Descending, Insert;
    if s == [] {
      NothingDescending(key);
    } else {
      Sorted(s[1..], key);
      InsertSorted(s[0], SortDesc(s[1..], key), key);
      InsertKeeps(s[0], SortDesc(s[1..], key), key);
      assert s == [s[0]] + s[1..];
    }
  }

  function WithKey<T>(s: seq<T>, key: T -> real, v: real): seq<T> {
    if s == [] then []
    else (if key(s[0]) == v then [s[0]] else []) + WithKey(s[1..], key, v)
  }

  lemma {:induction false} InsertStable<T>(x: T, s: seq<T>, key: T -> real, v: real)
    ensures WithKey(Insert(x, s, key), key, v) == WithKey([x] + s, key, v)
  {
    if !(s == [] || key(x) >= key(s[0])) {
      InsertStable(x, s[1..], key, v);
      var t := Insert(x, s[1..], key);
      assert ([s[0]] + t)[1..] == t;
      assert ([x] + s)[1..] == s;
      assert ([x] + s[1..])[1..] == s[1..];
    }
  }

  /** Ties keep order: the items of any one key appear as they were given. */
  lemma {:induction false} SortStable<T>(s: seq<T>, key: T -> real, v: real)
    ensures WithKey(SortDesc(s, key), key, v) == WithKey(s, key, v)
  {
    if s != [] {
      var t := SortDesc(s[1..], key);
      InsertStable(s[0], t, key, v);
      SortStable(s[1..], key, v);
      assert ([s[0]] + t)[1..] == t;
    }
  }

  /** Python's `s[:n]`; a negative `n` counts from the end. */
  function Prefix<T>(s: seq<T>, n: int): (r: seq<T>)
    ensures r <= s
    ensures 0 <= n <= |s| ==> |r| == n
    ensures n >= |s| ==> r == s
    ensures n < 0 ==> |r| == if |s| + n >= 0 then |s| + n else 0
  {
    if n >= |s| then s
    else if n >= 0 then s[..n]
    else if |s| + n >= 0 then s[..|s| + n]
    else []
  }

  /** `truncate` and its kin: a positive limit below the length cuts the rows. */
  function Capped<T>(s: seq<T>, limit: int): (r: seq<T>)
    ensures r <= s
    ensures limit <= 0 || limit >= |s| <==> r == s
    ensures 0 < limit < |s| ==> |r| == limit
  {
    if 0 < limit < |s| then s[..limit] else s
  }
}
