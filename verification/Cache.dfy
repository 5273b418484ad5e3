/**
 The persistent TTL cache (chic/cache/store.py) and the lookup/fetch/store
 protocol around it (chic/cache/client.py, `_cached`).
 */
module CacheStore {
  import opened Money
  import opened Basics

  type Key = string
  type Blob = string
  datatype Entry = Entry(value: Blob, expires: int)
  type Table = map<Key, Entry>

  /** `SELECT … WHERE key = ? AND expires_at > int(now)` */
  function Lookup(table: Table, key: Key, now: real): Option<Blob> {
    if key in table && table[key].expires > Trunc(now) then Some(table[key].value) else None
  }

  /** The upsert of a value that lives `ttl` seconds. */
  function Put(table: Table, key: Key, value: Blob, ttl: real, now: real): Table {
    if ttl <= 0.0 then table else table[key := Entry(value, Trunc(now + ttl))]
  }

  /** `DELETE … WHERE expires_at <= int(now)` */
  function Purged(table: Table, now: real): Table {
    map key | key in table && table[key].expires > Trunc(now) :: table[key]
  }

  /**
   Where the database raises within a write: before the row is written, or in the commit
   after it. The connection is shared and nothing rolls back, so in the second case what
   was written stays visible to every later call.
   */
  datatype Fault = NoFault | BeforeWrite | InCommit

  /** The store. It is best effort: a read that `fails` is a miss, a write that fails is not reported. */
  class Store {
    var table: Table

    constructor ()
      ensures table == map[]
    {
      table := map[];
    }

    method Get(key: Key, now: real, fails: bool) returns (raw: Option<Blob>)
      ensures raw == if fails then None else Lookup(table, key, now)
    {
      if fails || key !in table {
        return None;
      }
      var entry := table[key];
      return if entry.expires > Trunc(now) then Some(entry.value) else None;
    }

    method Set(key: Key, value: Blob, ttl: real, now: real, fault: Fault)
      modifies this
      ensures table == if fault == BeforeWrite then old(table) else Put(old(table), key, value, ttl, now)
    {
      if ttl <= 0.0 {
        return;
      }
      var expires := Trunc(now + ttl);
      if fault != BeforeWrite {
        table := table[key := Entry(value, expires)];
      }
    }

    method Purge(now: real, fault: Fault) returns (removed: nat)
      modifies this
      ensures table == if fault == BeforeWrite then old(table) else Purged(old(table), now)
      ensures removed == if fault == NoFault then |old(table).Keys - table.Keys| else 0
    {
      if fault == BeforeWrite {
        return 0;
      }
      var expired := set key | key in table && table[key].expires <= Trunc(now);
      assert table.Keys - (table.Keys - expired) == expired;
      table := table - expired;
      removed := if fault == InCommit then 0 else |expired|;
    }
  }

  /** A purge keeps exactly the entries that still answer, with their values. */
  lemma PurgeKeepsAnswers(table: Table, now: real, key: Key)
    ensures key in Purged(table, now) <==> Lookup(table, key, now).Some?
    ensures key in Purged(table, now) ==> Purged(table, now)[key] == table[key]
  {
  }

  /** A stored value is never served once its `ttl` seconds are over … */
  lemma ExpiredInTime(at: real, ttl: real, now: real)
    requires Trunc(at + ttl) > Trunc(now)
    ensures now < at + ttl
  {
    if now >= at + ttl {
      TruncMonotone(at + ttl, now);
    }
  }

  lemma TruncMonotone(x: real, y: real)
    requires x <= y
    ensures Trunc(x) <= Trunc(y)
  {
    if y < 0.0 {
      assert (-y).Floor <= (-x).Floor;
    }
  }

  /** … and cutting the clock to whole seconds costs it at most its last one. */
  lemma AliveToLastSecond(at: real, ttl: real, now: real)
    requires 0.0 <= now <= at + ttl - 1.0
    ensures Trunc(at + ttl) > Trunc(now)
  {
    assert (now + 1.0).Floor == now.Floor + 1;
    TruncMonotone(now + 1.0, at + ttl);
  }
}

module CachingClient {
  import opened Money
  import opened Basics
  import opened CacheStore

  class Client {
    const store: Store

    constructor (store: Store)
      ensures this.store == store
    {
      this.store := store;
    }

    /**
     One call left to itself. `fetched` is what the source answers if asked, `readAt`
     and `storedAt` are the clock at the lookup and at the store; a lookup whose
     database call fails or whose blob no longer parses is `unreadable`.
     */
    method Cached(ttl: real, key: Key, fetched: Blob, readAt: real, storedAt: real, unreadable: bool,
                  setFault: Fault)
      returns (value: Blob, asked: bool)
      modifies store
      ensures asked <==> ttl <= 0.0 || unreadable || Lookup(old(store.table), key, readAt) == None
      ensures !asked ==> Lookup(old(store.table), key, readAt) == Some(value) && store.table == old(store.table)
      ensures asked ==> value == fetched
      ensures asked ==> store.table == if setFault == BeforeWrite then old(store.table)
                                       else Put(old(store.table), key, fetched, ttl, storedAt)
    {
      if ttl <= 0.0 {
        return fetched, true;
      }
      var raw := store.Get(key, readAt, unreadable);
      if raw.Some? {
        return raw.value, false;
      }
      store.Set(key, fetched, ttl, storedAt, setFault);
      return fetched, true;
    }
  }

  // ---- concurrent calls ----------------------------------------------------

  /** A call that missed and awaits the source. */
  datatype Pending = Pending(key: Key, ttl: real)

  /** One store that wrote its row, whether or not its commit then raised. */
  datatype Write = Write(key: Key, value: Blob, at: real, ttl: real)

  /** One answer given from the cache, with the number of stores made before it. */
  datatype Hit = Hit(task: int, key: Key, value: Blob, at: real, writesBefore: nat)

  datatype State = State(
    now: real,
    table: Table,
    pending: map<int, Pending>,
    writes: seq<Write>,
    hits: seq<Hit>)

  /** What can happen between two awaits; `Tick` moves the clock forward. */
  datatype Event =
    | Begin(task: int, key: Key, ttl: real, unreadable: bool)
    | Fetched(task: int, value: Blob, fault: Fault)
    | FetchRaised(task: int)
    | Purge(fault: Fault)
    | Tick(seconds: real)

  function Start(now: real): State { State(now, map[], map[], [], []) }

  function Step(s: State, e: Event): State {
    match e
    case Begin(task, key, ttl, unreadable) =>
      if task in s.pending then s
      else
        var raw := if ttl <= 0.0 || unreadable then None else Lookup(s.table, key, s.now);
        if raw.Some? then s.(hits := s.hits + [Hit(task, key, raw.value, s.now, |s.writes|)])
        else s.(pending := s.pending[task := Pending(key, ttl)])
    case Fetched(task, value, fault) =>
      if task !in s.pending then s
      else
        var p := s.pending[task];
        var done := s.(pending := s.pending - {task});
        if fault == BeforeWrite || p.ttl <= 0.0 then done
        else done.(table := Put(s.table, p.key, value, p.ttl, s.now),
                   writes := s.writes + [Write(p.key, value, s.now, p.ttl)])
    case FetchRaised(task) => s.(pending := s.pending - {task})
    case Purge(fault) => if fault == BeforeWrite then s else s.(table := Purged(s.table, s.now))
    case Tick(seconds) => if seconds < 0.0 then s else s.(now := s.now + seconds)
  }

  /**
   A step of one task is that part of the call: whether it asks the source, what it answers
   from the table, and what it leaves there.
   */
  lemma StepsAreCached(s: State, task: int, key: Key, ttl: real, unreadable: bool, value: Blob, fault: Fault)
    requires task !in s.pending
    ensures var begun := Step(s, Begin(task, key, ttl, unreadable));
            var asks := ttl <= 0.0 || unreadable || Lookup(s.table, key, s.now) == None;
            && (task in begun.pending <==> asks)
            && (if asks then begun.hits == s.hits && begun.pending[task] == Pending(key, ttl)
                else begun.hits == s.hits + [Hit(task, key, Lookup(s.table, key, s.now).value, s.now, |s.writes|)])
            && begun.table == s.table
    ensures var asking := s.(pending := s.pending[task := Pending(key, ttl)]);
            var done := Step(asking, Fetched(task, value, fault));
            && task !in done.pending
            && done.table == (if fault == BeforeWrite then s.table else Put(s.table, key, value, ttl, s.now))
            && done.writes
               == s.writes + (if fault != BeforeWrite && ttl > 0.0 then [Write(key, value, s.now, ttl)] else [])
  {
    hide Lookup;
  }

  function Run(now: real, events: seq<Event>): State {
    if events == [] then Start(now) else Step(Run(now, events[..|events| - 1]), events[|events| - 1])
  }

  /** The specification: the last value stored under a key, if it is still alive. */
  function LastWrite(writes: seq<Write>, key: Key): Option<Write> {
    if writes == [] then None
    else if writes[|writes| - 1].key == key then Some(writes[|writes| - 1])
    else LastWrite(writes[..|writes| - 1], key)
  }

  function Alive(w: Write, now: real): bool { Trunc(w.at + w.ttl) > Trunc(now) }

  function Recalled(writes: seq<Write>, key: Key, now: real): Option<Blob> {
    var last := LastWrite(writes, key);
    if last.Some? && Alive(last.value, now) then Some(last.value.value) else None
  }

  /** The table is the last write of each key, less some that have expired. */
  ghost predicate Agrees(table: Table, writes: seq<Write>, now: real) {
    forall key :: match LastWrite(writes, key)
      case None => key !in table
      case Some(w) =>
        if key in table then table[key] == Entry(w.value, Trunc(w.at + w.ttl)) else !Alive(w, now)
  }

  /** A hit is the latest store of its key, made less than its `ttl` seconds before. */
  ghost predicate HitSound(writes: seq<Write>, h: Hit) {
    && h.writesBefore <= |writes|
    && var last := LastWrite(writes[..h.writesBefore], h.key);
       last.Some? && last.value.value == h.value && last.value.at <= h.at < last.value.at + last.value.ttl
  }

  ghost predicate Inv(s: State) {
    && Agrees(s.table, s.writes, s.now)
    && (forall i :: 0 <= i < |s.writes| ==> s.writes[i].at <= s.now)
    && (forall i :: 0 <= i < |s.hits| ==> HitSound(s.writes, s.hits[i]))
  }

  ghost predicate IsLatest(writes: seq<Write>, key: Key, i: nat) {
    i < |writes| && writes[i].key == key && forall j :: i < j < |writes| ==> writes[j].key != key
  }

  lemma {:induction false} LastWriteIsLatest(writes: seq<Write>, key: Key)
    ensures match LastWrite(writes, key)
            case None => forall i :: 0 <= i < |writes| ==> writes[i].key != key
            case Some(w) => w.key == key && exists i :: 0 <= i < |writes| && writes[i] == w && IsLatest(writes, key, i)
  {
    if writes != [] {
      if writes[|writes| - 1].key == key {
        assert IsLatest(writes, key, |writes| - 1);
      } else {
        var before := writes[..|writes| - 1];
        LastWriteIsLatest(before, key);
        if LastWrite(before, key).Some? {
          var i :| 0 <= i < |before| && before[i] == LastWrite(before, key).value && IsLatest(before, key, i);
          assert IsLatest(writes, key, i);
        }
      }
    }
  }

  lemma AgreesLookup(table: Table, writes: seq<Write>, now: real, key: Key)
    requires Agrees(table, writes, now)
    ensures Lookup(table, key, now) == Recalled(writes, key, now)
  {
    var last := LastWrite(writes, key);
  }

  lemma AgreesPut(table: Table, writes: seq<Write>, now: real, w: Write)
    requires Agrees(table, writes, now) && w.at == now && w.ttl > 0.0
    ensures Agrees(Put(table, w.key, w.value, w.ttl, now), writes + [w], now)
  {
    var t, ws := Put(table, w.key, w.value, w.ttl, now), writes + [w];
    assert ws[..|writes|] == writes;
    forall key
      ensures match LastWrite(ws, key)
              case None => key !in t
              case Some(v) => if key in t then t[key] == Entry(v.value, Trunc(v.at + v.ttl)) else !Alive(v, now)
    {
      if key != w.key {
        assert LastWrite(ws, key) == LastWrite(writes, key);
      }
    }
  }

  lemma AgreesPurge(table: Table, writes: seq<Write>, now: real)
    requires Agrees(table, writes, now)
    ensures Agrees(Purged(table, now), writes, now)
  {
  }

  lemma AgreesLater(table: Table, writes: seq<Write>, now: real, later: real)
    requires Agrees(table, writes, now) && now <= later
    ensures Agrees(table, writes, later)
  {
    TruncMonotone(now, later);
  }

  lemma StepInv(s: State, e: Event)
    requires Inv(s)
    ensures Inv(Step(s, e))
  {
    hide Agrees, Purged, Put;
    var s' := Step(s, e);
    match e
    case Begin(task, key, ttl, unreadable) =>
      if s'.hits != s.hits {
        AgreesLookup(s.table, s.writes, s.now, key);
        var h := s'.hits[|s.hits|];
        assert s.writes[..|s.writes|] == s.writes;
        LastWriteIsLatest(s.writes, key);
        var w := LastWrite(s.writes, key).value;
        ExpiredInTime(w.at, w.ttl, s.now);
        assert HitSound(s.writes, h);
      }
    case Fetched(task, value, fault) =>
      if s'.writes != s.writes {
        AgreesPut(s.table, s.writes, s.now, s'.writes[|s.writes|]);
        forall i | 0 <= i < |s.hits|
          ensures HitSound(s'.writes, s.hits[i])
        {
          assert s'.writes[..s.hits[i].writesBefore] == s.writes[..s.hits[i].writesBefore];
        }
      }
    case FetchRaised(task) =>
    case Purge(fault) =>
      AgreesPurge(s.table, s.writes, s.now);
    case Tick(seconds) =>
      if seconds >= 0.0 {
        AgreesLater(s.table, s.writes, s.now, s'.now);
      }
  }

  /**
   Under every interleaving, every hit is sound: it is the last value whose row was written
   for its key, also when the commit of that row raised.
   */
  lemma {:induction false} RunInv(now: real, events: seq<Event>)
    ensures Inv(Run(now, events))
    decreases |events|
  {
    if events != [] {
      RunInv(now, events[..|events| - 1]);
      StepInv(Run(now, events[..|events| - 1]), events[|events| - 1]);
    }
  }

  /** Whether a readable lookup hits, and what it yields, is told by the stores alone. */
  lemma LookupIsRecall(now: real, events: seq<Event>, key: Key)
    ensures var s := Run(now, events);
            Lookup(s.table, key, s.now) == Recalled(s.writes, key, s.now)
  {
    RunInv(now, events);
    var s := Run(now, events);
    AgreesLookup(s.table, s.writes, s.now, key);
  }

  /** The last store of a key answers every lookup until a second before its `ttl` ends. */
  lemma StoredAnswers(now: real, events: seq<Event>, i: nat)
    requires var s := Run(now, events);
             && i < |s.writes| && IsLatest(s.writes, s.writes[i].key, i)
             && 0.0 <= s.now <= s.writes[i].at + s.writes[i].ttl - 1.0
    ensures var s := Run(now, events);
            Lookup(s.table, s.writes[i].key, s.now) == Some(s.writes[i].value)
  {
    var s := Run(now, events);
    var w := s.writes[i];
    LookupIsRecall(now, events, w.key);
    LastWriteIsLatest(s.writes, w.key);
    AliveToLastSecond(w.at, w.ttl, s.now);
  }

  function WithoutPurges(events: seq<Event>): seq<Event> {
    if events == [] then []
    else
      var e := events[|events| - 1];
      WithoutPurges(events[..|events| - 1]) + if e.Purge? then [] else [e]
  }

  /** An event that finds the same answer does the same in both states. */
  lemma StepAlike(s: State, t: State, e: Event)
    requires s == t.(table := s.table) && !e.Purge?
    requires e.Begin? ==> Lookup(s.table, e.key, s.now) == Lookup(t.table, e.key, t.now)
    ensures Step(s, e) == Step(t, e).(table := Step(s, e).table)
  {
    hide Lookup, Put, Purged;
  }

  /** Purging is invisible: every answer, store and pending call is what it is without. */
  lemma {:induction false} PurgesInvisible(now: real, events: seq<Event>)
    ensures var s, t := Run(now, events), Run(now, WithoutPurges(events));
            s == t.(table := s.table)
    decreases |events|
  {
    hide Step, Lookup, Recalled;
    if events != [] {
      var before, e := events[..|events| - 1], events[|events| - 1];
      PurgesInvisible(now, before);
      var kept := WithoutPurges(before);
      if e.Purge? {
        assert kept + [] == kept;
        PurgeKeepsRest(Run(now, before), e);
      } else {
        assert (kept + [e])[..|kept|] == kept;
        if e.Begin? {
          LookupIsRecall(now, before, e.key);
          LookupIsRecall(now, kept, e.key);
        }
        StepAlike(Run(now, before), Run(now, kept), e);
      }
    }
  }

  lemma PurgeKeepsRest(s: State, e: Event)
    requires e.Purge?
    ensures Step(s, e) == s.(table := Step(s, e).table)
  {
    hide Purged;
  }
}
