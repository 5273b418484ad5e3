/**
 The per-user token bucket (chic/agent/agent.py, `_RateLimiter`).

 `Window` is the independent specification: a call is admitted exactly when no
 window that ends with it holds more than its allowance. Everything else about
 the limiter follows from what the bucket is worth at a given moment.
 */
module RateLimiter {
  import opened Money

  datatype Bucket = Bucket(tokens: real, last: real)
  type Buckets = map<int, Bucket>
  datatype Call = Call(user: int, at: real)

  /** Tokens earned over `dt` seconds at `perHour` tokens an hour. */
  function Refill(perHour: int, dt: real): real { dt * (perHour as real / 3600.0) }

  /** What `user`'s bucket is worth at `now`; a new user starts with a full one. */
  function Worth(perHour: int, buckets: Buckets, user: int, now: real): real {
    var b := if user in buckets then buckets[user] else Bucket(perHour as real, now);
    Min(perHour as real, b.tokens + Refill(perHour, now - b.last))
  }

  function Admits(perHour: int, buckets: Buckets, c: Call): bool {
    perHour < 0 || Worth(perHour, buckets, c.user, c.at) >= 1.0
  }

  function After(perHour: int, buckets: Buckets, c: Call): Buckets {
    if perHour < 0 then buckets
    else
      var worth := Worth(perHour, buckets, c.user, c.at);
      buckets[c.user := Bucket(if worth < 1.0 then worth else worth - 1.0, c.at)]
  }

  class Limiter {
    const perHour: int
    var buckets: Buckets

    constructor (perHour: int)
      ensures this.perHour == perHour && buckets == map[]
    {
      this.perHour := perHour;
      buckets := map[];
    }

    method Allow(user: int, now: real) returns (ok: bool)
      modifies this
      ensures ok == Admits(perHour, old(buckets), Call(user, now))
      ensures buckets == After(perHour, old(buckets), Call(user, now))
    {
      if perHour < 0 {
        return true;
      }
      var cap := perHour as real;
      var b := if user in buckets then buckets[user] else Bucket(cap, now);
      var tokens := Min(cap, b.tokens + Refill(perHour, now - b.last));
      if tokens < 1.0 {
        buckets := buckets[user := Bucket(tokens, now)];
        return false;
      }
      buckets := buckets[user := Bucket(tokens - 1.0, now)];
      return true;
    }
  }

  /** The buckets a run of calls leaves behind, from none. */
  function Run(perHour: int, calls: seq<Call>): Buckets {
    if calls == [] then map[]
    else After(perHour, Run(perHour, calls[..|calls| - 1]), calls[|calls| - 1])
  }

  /** Was call `j` of the run admitted? */
  predicate Admitted(perHour: int, calls: seq<Call>, j: nat)
    requires j < |calls|
  {
    Admits(perHour, Run(perHour, calls[..j]), calls[j])
  }

  /** How many of `user`'s calls in `[i, j)` were admitted. */
  function Count(perHour: int, calls: seq<Call>, user: int, i: nat, j: nat): nat
    requires i <= j <= |calls|
  {
    if i == j then 0
    else
      Count(perHour, calls, user, i, j - 1)
      + if calls[j - 1].user == user && Admitted(perHour, calls, j - 1) then 1 else 0
  }

  ghost predicate Ordered(calls: seq<Call>) {
    forall i, j :: 0 <= i < j < |calls| ==> calls[i].at <= calls[j].at
  }

  /** What the window from call `i` to time `t`, before call `j`, still allows. */
  function Allowance(perHour: int, calls: seq<Call>, user: int, i: nat, j: nat, t: real): real
    requires i < j <= |calls|
  {
    perHour as real + Refill(perHour, t - calls[i].at) - Count(perHour, calls, user, i, j) as real
  }

  lemma RefillSplit(perHour: int, whole: real, a: real)
    ensures Refill(perHour, whole) == Refill(perHour, a) + Refill(perHour, whole - a)
    ensures perHour >= 0 && a >= 0.0 ==> Refill(perHour, a) >= 0.0
    ensures perHour >= 0 && whole >= a ==> Refill(perHour, whole - a) >= 0.0
    ensures Refill(perHour, 0.0) == 0.0
  {
  }

  lemma OneTokenTime(perHour: int)
    requires perHour >= 1
    ensures Refill(perHour, 3600.0 / perHour as real) == 1.0
  {
  }

  /** A call takes a token from its own user's bucket if it is admitted, and from no other. */
  lemma WorthAfter(perHour: int, b: Buckets, c: Call, user: int, t: real)
    requires perHour >= 0 && t >= c.at
    ensures user != c.user ==> Worth(perHour, After(perHour, b, c), user, t) == Worth(perHour, b, user, t)
    ensures user == c.user ==>
              Worth(perHour, After(perHour, b, c), user, t)
                == Min(perHour as real,
                       Worth(perHour, b, user, c.at) - (if Admits(perHour, b, c) then 1.0 else 0.0)
                       + Refill(perHour, t - c.at))
    ensures Worth(perHour, b, user, t) <= perHour as real
  {
    hide Refill;
  }

  /** The worth is a lower bound of every window's allowance … */
  lemma {:induction false} WorthBelowAllowance(perHour: int, calls: seq<Call>, user: int, i: nat, j: nat, t: real)
    requires perHour >= 0 && Ordered(calls) && i < j <= |calls| && calls[i].user == user
    requires calls[j - 1].at <= t
    ensures Worth(perHour, Run(perHour, calls[..j]), user, t) <= Allowance(perHour, calls, user, i, j, t)
    decreases j
  {
    hide Refill, Worth, After, Admits;
    var last := calls[j - 1];
    assert calls[..j][..j - 1] == calls[..j - 1];
    WorthAfter(perHour, Run(perHour, calls[..j - 1]), last, user, t);
    WorthAfter(perHour, Run(perHour, calls[..j - 1]), last, user, last.at);
    if i < j - 1 {
      if last.user == user {
        WorthBelowAllowance(perHour, calls, user, i, j - 1, last.at);
        RefillSplit(perHour, t - calls[i].at, last.at - calls[i].at);
      } else {
        WorthBelowAllowance(perHour, calls, user, i, j - 1, t);
      }
    } else {
      assert Count(perHour, calls, user, i, i) == 0;
    }
  }

  /** … and it is a full bucket or one of those allowances. */
  lemma {:induction false} WorthIsSomeAllowance(perHour: int, calls: seq<Call>, user: int, j: nat, t: real)
    returns (i: nat)
    requires perHour >= 0 && Ordered(calls) && j <= |calls|
    requires j > 0 ==> calls[j - 1].at <= t
    ensures i <= j
    ensures i == j ==> Worth(perHour, Run(perHour, calls[..j]), user, t) == perHour as real
    ensures i < j ==> calls[i].user == user
                      && Worth(perHour, Run(perHour, calls[..j]), user, t) == Allowance(perHour, calls, user, i, j, t)
    decreases j
  {
    hide Refill, Worth, After, Admits;
    if j == 0 {
      NewBucketIsFull(perHour, user, t);
      return 0;
    }
    var last := calls[j - 1];
    assert calls[..j][..j - 1] == calls[..j - 1];
    WorthAfter(perHour, Run(perHour, calls[..j - 1]), last, user, t);
    if last.user == user {
      i := WorthIsSomeAllowance(perHour, calls, user, j - 1, last.at);
      assert Count(perHour, calls, user, j - 1, j - 1) == 0;
      if i < j - 1 {
        RefillSplit(perHour, t - calls[i].at, last.at - calls[i].at);
      }
      if Worth(perHour, Run(perHour, calls[..j]), user, t) == perHour as real {
        i := j;
      }
    } else {
      i := WorthIsSomeAllowance(perHour, calls, user, j - 1, t);
      if i == j - 1 {
        i := j;
      }
    }
  }

  lemma NewBucketIsFull(perHour: int, user: int, t: real)
    ensures Worth(perHour, map[], user, t) == perHour as real
  {
    RefillSplit(perHour, 0.0, 0.0);
  }

  /** No window ending with call `j`, counting it, would hold more than its allowance. */
  ghost predicate WindowsAllow(perHour: int, calls: seq<Call>, j: nat)
    requires j < |calls|
  {
    forall i :: 0 <= i <= j && calls[i].user == calls[j].user ==>
      Count(perHour, calls, calls[j].user, i, j) as real + 1.0
      <= perHour as real + Refill(perHour, calls[j].at - calls[i].at)
  }

  lemma AdmittedIffWindowsAllow(perHour: int, calls: seq<Call>, j: nat)
    requires perHour >= 0 && Ordered(calls) && j < |calls|
    ensures Admitted(perHour, calls, j) <==> WindowsAllow(perHour, calls, j)
  {
    hide Refill;
    var c := calls[j];
    var worth := Worth(perHour, Run(perHour, calls[..j]), c.user, c.at);
    RefillSplit(perHour, 0.0, 0.0);
    assert Count(perHour, calls, c.user, j, j) == 0;
    if Admitted(perHour, calls, j) {
      forall i | 0 <= i <= j && calls[i].user == c.user
        ensures Count(perHour, calls, c.user, i, j) as real + 1.0
                <= perHour as real + Refill(perHour, c.at - calls[i].at)
      {
        if i < j {
          WorthBelowAllowance(perHour, calls, c.user, i, j, c.at);
        }
      }
    }
    if WindowsAllow(perHour, calls, j) {
      var k := WorthIsSomeAllowance(perHour, calls, c.user, j, c.at);
      assert calls[k].user == c.user;
    }
  }

  lemma {:induction false} CountSplit(perHour: int, calls: seq<Call>, user: int, i: nat, k: nat, j: nat)
    requires i <= k <= j <= |calls|
    ensures Count(perHour, calls, user, i, j) == Count(perHour, calls, user, i, k) + Count(perHour, calls, user, k, j)
    decreases j
  {
    if k < j {
      CountSplit(perHour, calls, user, i, k, j - 1);
    }
  }

  /** An admitted call's window from an earlier call of the user holds no more than it may. */
  lemma AdmittedWithin(perHour: int, calls: seq<Call>, i: nat, j: nat)
    requires perHour >= 0 && Ordered(calls) && i <= j < |calls| && calls[i].user == calls[j].user
    requires Admitted(perHour, calls, j)
    ensures Count(perHour, calls, calls[j].user, i, j) as real + 1.0
            <= perHour as real + Refill(perHour, calls[j].at - calls[i].at)
  {
    hide Refill, Count, Admitted, Ordered;
    AdmittedIffWindowsAllow(perHour, calls, j);
  }

  /** A negative rate is no limit at all, and a rate of zero admits nobody. */
  lemma {:induction false} Extremes(perHour: int, calls: seq<Call>, j: nat)
    requires j < |calls| && Ordered(calls)
    ensures perHour < 0 ==> Admitted(perHour, calls, j) && Run(perHour, calls) == map[]
    ensures perHour == 0 ==> !Admitted(perHour, calls, j)
    decreases |calls|
  {
    if perHour < 0 {
      NoLimit(perHour, calls);
    } else if perHour == 0 {
      AdmittedIffWindowsAllow(0, calls, j);
      RefillSplit(0, 0.0, 0.0);
      assert Count(0, calls, calls[j].user, j, j) == 0;
    }
  }

  lemma {:induction false} NoLimit(perHour: int, calls: seq<Call>)
    requires perHour < 0
    ensures Run(perHour, calls) == map[]
  {
    if calls != [] {
      NoLimit(perHour, calls[..|calls| - 1]);
    }
  }

  /** Any window of `span` seconds admits at most `P + P·span/3600` calls of a user. */
  lemma {:induction false} WindowBound(perHour: int, calls: seq<Call>, user: int, i: nat, j: nat, span: real)
    requires perHour >= 0 && Ordered(calls) && i < j <= |calls|
    requires calls[j - 1].at - calls[i].at <= span
    ensures Count(perHour, calls, user, i, j) as real <= perHour as real + Refill(perHour, span)
    decreases j - i
  {
    hide Refill, Admitted;
    RefillSplit(perHour, span, calls[j - 1].at - calls[i].at);
    CountSplit(perHour, calls, user, i, i + 1, j);
    if calls[j - 1].user != user || !Admitted(perHour, calls, j - 1) {
      if i < j - 1 {
        WindowBound(perHour, calls, user, i, j - 1, span);
      }
    } else if calls[i].user != user {
      if i < j - 1 {
        assert Count(perHour, calls, user, i, i + 1) == 0;
        WindowBound(perHour, calls, user, i + 1, j, span);
      }
    } else {
      AdmittedWithin(perHour, calls, i, j - 1);
    }
  }

  /** A call one token's earning time after the user's previous call is admitted. */
  lemma SpacedCallAdmitted(perHour: int, calls: seq<Call>, i: nat, j: nat)
    requires perHour >= 1 && Ordered(calls) && i < j < |calls|
    requires calls[i].user == calls[j].user
    requires forall k :: i < k < j ==> calls[k].user != calls[j].user
    requires calls[j].at - calls[i].at >= 3600.0 / perHour as real
    ensures Admitted(perHour, calls, j)
  {
    hide Refill;
    var user := calls[j].user;
    SameBucket(perHour, calls, user, i + 1, j);
    TokensInRange(perHour, calls[..i + 1], user);
    var b := Run(perHour, calls[..i + 1]);
    assert calls[..i + 1][..i] == calls[..i];
    var gap := calls[j].at - calls[i].at;
    var dt := 3600.0 / perHour as real;
    OneTokenTime(perHour);
    RefillSplit(perHour, gap, dt);
  }

  lemma {:induction false} SameBucket(perHour: int, calls: seq<Call>, user: int, i: nat, j: nat)
    requires i <= j <= |calls|
    requires forall k :: i <= k < j ==> calls[k].user != user
    ensures user in Run(perHour, calls[..i]) <==> user in Run(perHour, calls[..j])
    ensures user in Run(perHour, calls[..i]) ==> Run(perHour, calls[..i])[user] == Run(perHour, calls[..j])[user]
    decreases j
  {
    if i < j {
      SameBucket(perHour, calls, user, i, j - 1);
      assert calls[..j][..j - 1] == calls[..j - 1];
    }
  }

  lemma {:induction false} TokensInRange(perHour: int, calls: seq<Call>, user: int)
    requires perHour >= 0 && Ordered(calls)
    ensures var b := Run(perHour, calls);
            user in b ==> calls != [] && 0.0 <= b[user].tokens <= perHour as real
                          && b[user].last <= calls[|calls| - 1].at
    decreases |calls|
  {
    if calls != [] {
      var before := calls[..|calls| - 1];
      TokensInRange(perHour, before, user);
      var c := calls[|calls| - 1];
      var b := Run(perHour, before);
      if user in b && c.user == user {
        RefillSplit(perHour, c.at - b[user].last, c.at - b[user].last);
      }
    }
  }

  /** Two states no later call can tell apart. */
  ghost predicate Alike(perHour: int, b: Buckets, c: Buckets, now: real) {
    forall user, t :: t >= now ==> Worth(perHour, b, user, t) == Worth(perHour, c, user, t)
  }

  lemma AlikeAfter(perHour: int, b: Buckets, c: Buckets, now: real, call: Call)
    requires perHour >= 0 && Alike(perHour, b, c, now) && call.at >= now
    ensures Admits(perHour, b, call) == Admits(perHour, c, call)
    ensures Alike(perHour, After(perHour, b, call), After(perHour, c, call), call.at)
  {
    var b', c' := After(perHour, b, call), After(perHour, c, call);
    assert Worth(perHour, b, call.user, call.at) == Worth(perHour, c, call.user, call.at);
    forall user, t | t >= call.at
      ensures Worth(perHour, b', user, t) == Worth(perHour, c', user, t)
    {
      if user != call.user {
        assert Worth(perHour, b, user, t) == Worth(perHour, c, user, t);
      }
    }
  }

  /** A denied call leaves a state like the one it found. */
  lemma DeniedAlike(perHour: int, b: Buckets, call: Call)
    requires perHour >= 0 && !Admits(perHour, b, call)
    requires call.user in b ==> b[call.user].last <= call.at
    ensures Alike(perHour, After(perHour, b, call), b, call.at)
  {
    var b' := After(perHour, b, call);
    forall user, t | t >= call.at
      ensures Worth(perHour, b', user, t) == Worth(perHour, b, user, t)
    {
      if user == call.user {
        RefillSplit(perHour, t - call.at, t - call.at);
        if user in b {
          RefillSplit(perHour, t - b[user].last, call.at - b[user].last);
        } else {
          assert perHour == 0;
        }
      }
    }
  }

  lemma {:induction false} AlikeRuns(perHour: int, calls: seq<Call>, k: nat, j: nat)
    requires perHour >= 0 && Ordered(calls) && k < j <= |calls|
    requires !Admitted(perHour, calls, k)
    ensures var without := calls[..k] + calls[k + 1..];
            Alike(perHour, Run(perHour, calls[..j]), Run(perHour, without[..j - 1]), calls[j - 1].at)
    decreases j
  {
    hide Worth, After, Admits, Alike;
    var without := calls[..k] + calls[k + 1..];
    assert calls[..j][..j - 1] == calls[..j - 1];
    if j == k + 1 {
      assert without[..k] == calls[..k];
      assert Ordered(calls[..k]);
      TokensInRange(perHour, calls[..k], calls[k].user);
      DeniedAlike(perHour, Run(perHour, calls[..k]), calls[k]);
    } else {
      AlikeRuns(perHour, calls, k, j - 1);
      assert without[..j - 1][..j - 2] == without[..j - 2];
      assert without[j - 2] == calls[j - 1];
      AlikeAfter(perHour, Run(perHour, calls[..j - 1]), Run(perHour, without[..j - 2]), calls[j - 2].at, calls[j - 1]);
    }
  }

  /** Dropping a denied call changes no later decision. */
  lemma DeniedCallIsInvisible(perHour: int, calls: seq<Call>, k: nat, j: nat)
    requires Ordered(calls) && k < j < |calls|
    requires !Admitted(perHour, calls, k)
    ensures Admitted(perHour, calls, j) == Admitted(perHour, calls[..k] + calls[k + 1..], j - 1)
  {
    var without := calls[..k] + calls[k + 1..];
    AlikeRuns(perHour, calls, k, j);
    assert without[j - 1] == calls[j];
    AlikeAfter(perHour, Run(perHour, calls[..j]), Run(perHour, without[..j - 1]), calls[j - 1].at, calls[j]);
  }

  function OfUser(calls: seq<Call>, user: int): seq<Call> {
    if calls == [] then []
    else
      var c := calls[|calls| - 1];
      OfUser(calls[..|calls| - 1], user) + if c.user == user then [c] else []
  }

  /** A user's decisions depend on that user's calls alone. */
  lemma {:induction false} UsersIndependent(perHour: int, calls: seq<Call>, c: Call)
    ensures Admits(perHour, Run(perHour, calls), c)
         == Admits(perHour, Run(perHour, OfUser(calls, c.user)), c)
    ensures var all, own := Run(perHour, calls), Run(perHour, OfUser(calls, c.user));
            (c.user in all <==> c.user in own) && (c.user in all ==> all[c.user] == own[c.user])
    decreases |calls|
  {
    hide After, Admits;
    if calls != [] {
      var before, last := calls[..|calls| - 1], calls[|calls| - 1];
      UsersIndependent(perHour, before, c);
      var own := OfUser(before, c.user);
      AfterSame(perHour, Run(perHour, before), Run(perHour, own), last, c.user);
      if last.user == c.user {
        assert (own + [last])[..|own|] == own;
      } else {
        assert OfUser(calls, c.user) == own;
      }
    }
    SameAnswer(perHour, Run(perHour, calls), Run(perHour, OfUser(calls, c.user)), c);
  }

  ghost predicate SameBucketOf(user: int, b: Buckets, c: Buckets) {
    (user in b <==> user in c) && (user in b ==> b[user] == c[user])
  }

  lemma SameAnswer(perHour: int, b: Buckets, c: Buckets, call: Call)
    requires SameBucketOf(call.user, b, c)
    ensures Admits(perHour, b, call) == Admits(perHour, c, call)
  {
  }

  /** A user's own call treats equal buckets alike; another user's call leaves the bucket. */
  lemma AfterSame(perHour: int, b: Buckets, c: Buckets, call: Call, user: int)
    requires SameBucketOf(user, b, c)
    ensures call.user == user ==> SameBucketOf(user, After(perHour, b, call), After(perHour, c, call))
    ensures call.user != user ==> SameBucketOf(user, After(perHour, b, call), c)
  {
    hide Refill;
  }
}
