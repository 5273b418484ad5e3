/**
 Offset/limit pagination (chic/moysklad/client.py, `_paginate`) against a server
 that holds a fixed list, honours limit and offset, and reports the list's size
 on the requests it chooses to.
 */
module Paging {

  datatype Server<T> = Server(rows: seq<T>, reportsSize: nat -> bool)
  {
    function Page(limit: nat, offset: nat): seq<T> {
      if offset >= |rows| then [] else if offset + limit <= |rows| then rows[offset..offset + limit] else rows[offset..]
    }

    function Size(offset: nat): nat { if reportsSize(offset) then |rows| else 0 }
  }

  /** The page size in effect; 0 stands for no page size given. */
  function PageSize(pageLimit: nat, pageSize: nat, totalLimit: int): (p: nat)
    requires pageLimit >= 1
    ensures p >= 1
    ensures totalLimit > 0 ==> p <= totalLimit
    ensures p == totalLimit || p == pageSize || (pageSize == 0 && p == pageLimit)
    ensures p < totalLimit || totalLimit <= 0 ==> p == if pageSize > 0 then pageSize else pageLimit
  {
    var p := if pageSize == 0 then pageLimit else pageSize;
    if 0 < totalLimit < p then totalLimit else p
  }

  function CeilDiv(n: nat, p: nat): nat
    requires p >= 1
  {
    (n + p - 1) / p
  }

  /** What comes back: whole pages until the limit is reached, and only then cut to it. */
  function Expected<T>(rows: seq<T>, p: nat, totalLimit: int): seq<T>
    requires p >= 1
  {
    if totalLimit <= 0 || |rows| < CeilDiv(totalLimit, p) * p || |rows| < totalLimit then rows else rows[..totalLimit]
  }

  method Paginate<T>(server: Server<T>, pageLimit: nat, pageSize: nat, totalLimit: int)
    returns (rows: seq<T>, requests: nat)
    requires pageLimit >= 1
    ensures var p := PageSize(pageLimit, pageSize, totalLimit);
            && rows == Expected(server.rows, p, totalLimit)
            && requests <= |server.rows| / p + 1
  {
    hide CeilDiv;
    var p := PageSize(pageLimit, pageSize, totalLimit);
    var all := server.rows;
    rows, requests := [], 0;
    var offset := 0;
    while true
      invariant offset == requests * p
      invariant offset <= |all| && rows == all[..offset]
      invariant totalLimit > 0 ==> offset < totalLimit
      decreases |all| - offset
    {
      var page := server.Page(p, offset);
      assert offset + p == (requests + 1) * p;
      EnoughRequests(requests, p, |all|);
      if totalLimit > 0 {
        PagesNeeded(totalLimit, p, requests);
      }
      requests := requests + 1;
      rows := rows + page;
      if |page| < p {
        assert rows == all;
        break;
      }
      assert rows == all[..offset + p];
      if totalLimit > 0 && |rows| >= totalLimit {
        rows := rows[..totalLimit];
        break;
      }
      var size := server.Size(offset);
      offset := offset + p;
      if size > 0 && offset >= size {
        assert rows == all;
        break;
      }
    }
  }

  /** After `j` full pages below the limit, the page count needed is known on either side. */
  lemma PagesNeeded(limit: nat, p: nat, j: nat)
    requires p >= 1 && j * p < limit
    ensures limit <= (j + 1) * p ==> CeilDiv(limit, p) * p == (j + 1) * p
    ensures limit > (j + 1) * p ==> CeilDiv(limit, p) * p >= (j + 1) * p + p
  {
    var k := CeilDiv(limit, p);
    CeilDivBounds(limit, p);
    Multiples(k, j + 1, p);
    Multiples(j, k, p);
    Multiples(j + 1, k, p);
  }

  lemma CeilDivBounds(n: nat, p: nat)
    requires p >= 1
    ensures n <= CeilDiv(n, p) * p < n + p
  {
    var m := n + p - 1;
    assert m == m / p * p + m % p;
  }

  /** Multiples of `p` are `p` apart. */
  lemma Multiples(a: nat, b: nat, p: nat)
    requires p >= 1
    ensures (a + 1) * p == a * p + p
    ensures a == b ==> a * p == b * p
    ensures a < b ==> a * p + p <= b * p
    ensures b < a ==> b * p + p <= a * p
  {
    if a < b {
      Apart(a, b, p);
    } else if b < a {
      Apart(b, a, p);
    }
  }

  lemma Apart(a: nat, b: nat, p: nat)
    requires p >= 1 && a < b
    ensures a * p + p <= b * p
  {
    var d := b - a - 1;
    assert b == a + 1 + d;
    assert (a + 1 + d) * p == a * p + p + d * p;
    assert d * p >= 0;
  }

  lemma EnoughRequests(j: nat, p: nat, n: nat)
    requires p >= 1 && j * p <= n
    ensures j <= n / p
  {
    assert n == n / p * p + n % p;
    Multiples(n / p, j, p);
  }

  /**
   The limit is exceeded exactly when the list ends inside the page that would reach
   it, and then by less than a page: the short page is noticed before the limit.
   */
  lemma ExceedsLimitIff<T>(rows: seq<T>, p: nat, limit: nat)
    requires p >= 1 && limit >= 1
    ensures |Expected(rows, p, limit)| > limit <==> limit < |rows| < CeilDiv(limit, p) * p
    ensures |Expected(rows, p, limit)| < limit + p
    ensures limit % p == 0 ==> |Expected(rows, p, limit)| <= limit
    ensures Expected(rows, p, limit) <= rows
  {
    CeilDivBounds(limit, p);
    if limit % p == 0 {
      WholePages(limit, p);
    }
  }

  /** Without a limit everything comes back; with one, everything or just that many rows. */
  lemma WholeOrLimit<T>(rows: seq<T>, p: nat, limit: int)
    requires p >= 1
    ensures limit <= 0 ==> Expected(rows, p, limit) == rows
    ensures limit > 0 && |rows| <= limit ==> Expected(rows, p, limit) == rows
    ensures limit > 0 ==> Expected(rows, p, limit) == rows || Expected(rows, p, limit) == rows[..limit]
  {
  }

  /** Asking for 4 of 5 rows in pages of 3 yields all 5. */
  lemma LimitExceeded<T>(rows: seq<T>)
    requires |rows| == 5
    ensures |Expected(rows, PageSize(3, 0, 4), 4)| == 5
  {
    ExceedsLimitIff(rows, 3, 4);
  }

  lemma WholePages(limit: nat, p: nat)
    requires p >= 1 && limit % p == 0
    ensures CeilDiv(limit, p) * p == limit
  {
    CeilDivBounds(limit, p);
    assert limit == limit / p * p;
    Multiples(CeilDiv(limit, p), limit / p, p);
  }
}
