/**
 Update deduplication (chic/telegram/dedupe.py): a ring of slots and a set that
 together remember the last `n` accepted update ids.
 */
module Dedupe {

  /** The last `n` accepted ids (all of them while there are fewer). */
  function LastAccepted(accepted: seq<int>, n: nat): seq<int> {
    if |accepted| <= n then accepted else accepted[|accepted| - n..]
  }

  /**
   The sliding-window specification. Zero doubles as the ring's "empty slot", so an
   accepted zero is never forgotten; every other id is forgotten after `n` more.
   */
  predicate Remembered(accepted: seq<int>, n: nat, id: int) {
    if id == 0 then 0 in accepted else id in LastAccepted(accepted, n)
  }

  /** The ids accepted over a whole run of deliveries. */
  function Accepted(ids: seq<int>, n: nat): seq<int> {
    if ids == [] then []
    else
      var before := Accepted(ids[..|ids| - 1], n);
      var id := ids[|ids| - 1];
      if Remembered(before, n, id) then before else before + [id]
  }

  ghost function Zeros(n: nat): seq<int> { seq(n, i => 0) }

  ghost predicate NonzeroDistinct(s: seq<int>) {
    forall i, j :: 0 <= i < j < |s| && s[i] != 0 ==> s[i] != s[j]
  }

  /** The set holds the slots' ids; zero only once it has been accepted. */
  ghost predicate Tracks(seen: set<int>, slots: seq<int>, accepted: seq<int>) {
    forall id :: id in seen <==> if id == 0 then 0 in accepted else id in slots
  }

  ghost predicate Consistent(slots: seq<int>, seen: set<int>, accepted: seq<int>) {
    && slots == (Zeros(|slots|) + accepted)[|accepted|..]
    && NonzeroDistinct(slots)
    && Tracks(seen, slots, accepted)
  }

  class Ring {
    var seen: set<int>
    const ring: array<int>
    var next: nat
    ghost var accepted: seq<int>

    /** The slots from the oldest to the newest. */
    ghost function Slots(): seq<int>
      reads this, ring
      requires next <= ring.Length
    {
      ring[next..] + ring[..next]
    }

    ghost predicate Valid()
      reads this, ring
    {
      next < ring.Length && Consistent(Slots(), seen, accepted)
    }

    constructor (n: nat)
      requires n >= 1
      ensures Valid() && fresh(ring)
      ensures ring.Length == n && accepted == []
    {
      seen := {};
      ring := new int[n](i => 0);
      next := 0;
      accepted := [];
      new;
      assert Slots() == Zeros(n);
    }

    method FirstSeen(id: int) returns (first: bool)
      requires Valid()
      modifies this, ring
      ensures Valid()
      ensures first == !Remembered(old(accepted), ring.Length, id)
      ensures accepted == if first then old(accepted) + [id] else old(accepted)
    {
      hide Consistent, Remembered, Slots;
      SlotsAre();
      ghost var was, before := ring[..], Slots();
      SeenIsRemembered(before, seen, accepted, id);
      if id in seen {
        return false;
      }
      SlideWindow(before, seen, accepted, id);
      var evicted := ring[next];
      if evicted != 0 {
        seen := seen - {evicted};
      }
      ring[next] := id;
      next := (next + 1) % ring.Length;
      seen := seen + {id};
      accepted := accepted + [id];
      first := true;
      assert ring[..] == was[old(next) := id];
      Rotated(was, ring[..], old(next), next, id);
      SlotsAre();
    }

    lemma SlotsAre()
      requires next < ring.Length
      ensures Slots() == ring[..][next..] + ring[..][..next]
      ensures |Slots()| == ring.Length && Slots()[0] == ring[next]
    {
    }
  }

  lemma Rotated(was: seq<int>, now: seq<int>, next: nat, step: nat, id: int)
    requires next < |was| && now == was[next := id]
    requires step == if next + 1 < |was| then next + 1 else 0
    ensures now[step..] + now[..step] == (was[next..] + was[..next])[1..] + [id]
  {
    var head, tail := was[..next], was[next + 1..];
    assert was[next..] == [was[next]] + tail;
    assert (([was[next]] + tail) + head)[1..] == tail + head;
    if step == 0 {
      assert now == head + [id];
      assert tail == [];
    } else {
      assert now[..step] == head + [id];
      assert now[step..] == tail;
    }
  }

  lemma SlideSlots(slots: seq<int>, accepted: seq<int>, id: int)
    requires |slots| >= 1 && slots == (Zeros(|slots|) + accepted)[|accepted|..]
    ensures slots[1..] + [id] == (Zeros(|slots|) + (accepted + [id]))[|accepted| + 1..]
  {
    hide Zeros;
    assert Zeros(|slots|) + (accepted + [id]) == (Zeros(|slots|) + accepted) + [id];
  }

  lemma SlideDistinct(slots: seq<int>, id: int)
    requires |slots| >= 1 && NonzeroDistinct(slots) && (id != 0 ==> id !in slots)
    ensures NonzeroDistinct(slots[1..] + [id])
    ensures slots[0] != 0 ==> slots[0] !in slots[1..]
  {
    var rest := slots[1..];
    assert forall k :: 0 <= k < |rest| ==> rest[k] == slots[k + 1];
  }

  lemma SlideSet(slots: seq<int>, seen: set<int>, accepted: seq<int>, id: int)
    requires |slots| >= 1 && Tracks(seen, slots, accepted) && (slots[0] != 0 ==> slots[0] !in slots[1..])
    ensures var kept := if slots[0] != 0 then seen - {slots[0]} else seen;
            Tracks(kept + {id}, slots[1..] + [id], accepted + [id])
  {
    var rest := slots[1..];
    assert slots == [slots[0]] + rest;
    assert forall x :: x in slots <==> x == slots[0] || x in rest;
    assert forall x :: x in rest + [id] <==> x in rest || x == id;
    assert forall x :: x in accepted + [id] <==> x in accepted || x == id;
  }

  /** Evicting the oldest slot and adding a fresh id slides the window by one. */
  lemma SlideWindow(slots: seq<int>, seen: set<int>, accepted: seq<int>, id: int)
    requires |slots| >= 1 && Consistent(slots, seen, accepted) && id !in seen
    ensures var kept := if slots[0] != 0 then seen - {slots[0]} else seen;
            Consistent(slots[1..] + [id], kept + {id}, accepted + [id])
  {
    assert id in seen <==> if id == 0 then 0 in accepted else id in slots;
    hide Zeros, NonzeroDistinct, Tracks;
    SlideSlots(slots, accepted, id);
    SlideDistinct(slots, id);
    SlideSet(slots, seen, accepted, id);
  }

  /** The set answers the specification's question. */
  lemma SeenIsRemembered(slots: seq<int>, seen: set<int>, accepted: seq<int>, id: int)
    requires Consistent(slots, seen, accepted)
    ensures id in seen <==> Remembered(accepted, |slots|, id)
  {
    var n := |slots|;
    if |accepted| <= n {
      assert slots == Zeros(n - |accepted|) + accepted;
    } else {
      assert slots == accepted[|accepted| - n..];
    }
  }

  lemma RecentIsLast(accepted: seq<int>, n: nat)
    ensures forall i :: 0 <= i < |accepted| && |accepted| - i <= n ==> accepted[i] in LastAccepted(accepted, n)
  {
    var last := LastAccepted(accepted, n);
    forall i | 0 <= i < |accepted| && |accepted| - i <= n
      ensures accepted[i] in last
    {
      assert accepted[i] == last[i + |last| - |accepted|];
    }
  }

  /** Two equal ids are accepted only more than `n` acceptances apart; zero only once. */
  lemma {:induction false} AcceptedApart(ids: seq<int>, n: nat, i: nat, j: nat)
    requires i < j < |Accepted(ids, n)|
    requires Accepted(ids, n)[i] == Accepted(ids, n)[j]
    ensures j - i > n
    ensures Accepted(ids, n)[i] != 0
    decreases |ids|
  {
    var before := Accepted(ids[..|ids| - 1], n);
    var all := Accepted(ids, n);
    if j < |before| {
      AcceptedApart(ids[..|ids| - 1], n, i, j);
    } else {
      var id := ids[|ids| - 1];
      assert all == before + [id] && !Remembered(before, n, id);
      RecentIsLast(before, n);
    }
  }

  /** Everything accepted was delivered, so an id never delivered before is accepted. */
  lemma {:induction false} AcceptedWereDelivered(ids: seq<int>, n: nat)
    ensures forall id :: id in Accepted(ids, n) ==> id in ids
  {
    if ids != [] {
      AcceptedWereDelivered(ids[..|ids| - 1], n);
    }
  }

  lemma NewIdAccepted(ids: seq<int>, n: nat, id: int)
    requires id !in ids
    ensures Accepted(ids + [id], n) == Accepted(ids, n) + [id]
  {
    AcceptedWereDelivered(ids, n);
    assert (ids + [id])[..|ids|] == ids;
    assert forall x :: x in LastAccepted(Accepted(ids, n), n) ==> x in Accepted(ids, n);
  }

  /** With at least one slot, a redelivery at once is always refused. */
  lemma RedeliveryRefused(ids: seq<int>, n: nat, id: int)
    requires n >= 1
    ensures Accepted(ids + [id, id], n) == Accepted(ids + [id], n)
  {
    var once := ids + [id];
    assert (ids + [id, id])[..|once|] == once;
    assert once[..|ids|] == ids;
    var before, after := Accepted(ids, n), Accepted(once, n);
    if after == before + [id] {
      var last := LastAccepted(after, n);
      assert last[|last| - 1] == id;
    }
  }
}
