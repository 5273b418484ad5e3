/**
 The durable dialog store (chic/store/db.py): an append-only message log with
 session boundaries, and one rolling summary per user and session.
 */
module DialogStore {

  datatype Role = User | Assistant | Reset
  datatype Message = Message(id: nat, user: int, role: Role, content: string)
  datatype Summary = Summary(text: string, upTo: nat)

  /** Rows are never deleted, so the autoincremented ids number the log from 1. */
  datatype Db = Db(messages: seq<Message>, summaries: map<(int, nat), Summary>)

  const EMPTY := Db([], map[])

  ghost predicate Numbered(messages: seq<Message>) {
    forall i :: 0 <= i < |messages| ==> messages[i].id == i + 1
  }

  function Append(db: Db, user: int, role: Role, content: string): Db {
    db.(messages := db.messages + [Message(|db.messages| + 1, user, role, content)])
  }

  /** The id of the user's last boundary, or 0. */
  function SessionEpoch(messages: seq<Message>, user: int): nat {
    if messages == [] then 0
    else
      var last := messages[|messages| - 1];
      if last.user == user && last.role == Reset then last.id else SessionEpoch(messages[..|messages| - 1], user)
  }

  /** The user's turns with `lo < id <= hi`, oldest first. */
  function Turns(messages: seq<Message>, user: int, lo: nat, hi: nat): seq<Message>
    requires hi <= |messages|
  {
    if hi <= lo then []
    else
      var m := messages[hi - 1];
      Turns(messages, user, lo, hi - 1) + if m.user == user && m.role != Reset then [m] else []
  }

  function Take<T>(s: seq<T>, n: int): seq<T> { if n <= 0 then [] else if n >= |s| then s else s[..n] }

  function Last<T>(s: seq<T>, n: int): seq<T> { if n <= 0 then [] else if n >= |s| then s else s[|s| - n..] }

  function MessagesSince(db: Db, user: int, since: nat, limit: int): seq<Message> {
    Take(Turns(db.messages, user, since, |db.messages|), limit)
  }

  function RecentMessages(db: Db, user: int, n: int): seq<Message> {
    Last(Turns(db.messages, user, SessionEpoch(db.messages, user), |db.messages|), n)
  }

  function GetSummary(db: Db, user: int, epoch: nat): Summary {
    if (user, epoch) in db.summaries then db.summaries[(user, epoch)] else Summary("", 0)
  }

  class Store {
    var messages: seq<Message>
    var summaries: map<(int, nat), Summary>

    ghost function View(): Db
      reads this
    {
      Db(messages, summaries)
    }

    constructor ()
      ensures View() == EMPTY
    {
      messages, summaries := [], map[];
    }

    method AppendMessage(user: int, role: Role, content: string)
      modifies this
      ensures View() == Append(old(View()), user, role, content)
    {
      messages := messages + [Message(|messages| + 1, user, role, content)];
    }

    method StartSession(user: int)
      modifies this
      ensures View() == Append(old(View()), user, Reset, "")
    {
      AppendMessage(user, Reset, "");
    }

    method PutSessionSummary(user: int, epoch: nat, text: string, upTo: nat)
      modifies this
      ensures View() == old(View()).(summaries := old(summaries)[(user, epoch) := Summary(text, upTo)])
    {
      summaries := summaries[(user, epoch) := Summary(text, upTo)];
    }
  }

  lemma {:induction false} TurnsSplit(messages: seq<Message>, user: int, lo: nat, mid: nat, hi: nat)
    requires lo <= mid <= hi <= |messages|
    ensures Turns(messages, user, lo, hi) == Turns(messages, user, lo, mid) + Turns(messages, user, mid, hi)
    decreases hi
  {
    if mid < hi {
      TurnsSplit(messages, user, lo, mid, hi - 1);
    }
  }

  lemma {:induction false} TurnsWithin(messages: seq<Message>, user: int, lo: nat, hi: nat, k: nat)
    requires Numbered(messages) && hi <= |messages| && k < |Turns(messages, user, lo, hi)|
    ensures var m := Turns(messages, user, lo, hi)[k];
            lo < m.id <= hi && m == messages[m.id - 1] && m.user == user && m.role != Reset
    decreases hi
  {
    if k < |Turns(messages, user, lo, hi - 1)| {
      TurnsWithin(messages, user, lo, hi - 1, k);
    }
  }

  lemma {:induction false} TurnsAscend(messages: seq<Message>, user: int, lo: nat, hi: nat, i: nat, j: nat)
    requires Numbered(messages) && hi <= |messages| && i < j < |Turns(messages, user, lo, hi)|
    ensures Turns(messages, user, lo, hi)[i].id < Turns(messages, user, lo, hi)[j].id
    decreases hi
  {
    var fewer := Turns(messages, user, lo, hi - 1);
    if j < |fewer| {
      TurnsAscend(messages, user, lo, hi - 1, i, j);
    } else {
      TurnsWithin(messages, user, lo, hi - 1, i);
    }
  }

  /** A turn after the first `cut` is above the last of those. */
  lemma TurnsAfter(messages: seq<Message>, user: int, lo: nat, hi: nat, cut: nat, k: nat)
    requires Numbered(messages) && hi <= |messages| && cut <= k < |Turns(messages, user, lo, hi)|
    ensures var turns := Turns(messages, user, lo, hi);
            && turns[k].user == user && turns[k].id > lo
            && (cut > 0 ==> lo < turns[cut - 1].id < turns[k].id)
  {
    hide Turns;
    TurnsWithin(messages, user, lo, hi, k);
    if cut > 0 {
      TurnsWithin(messages, user, lo, hi, cut - 1);
      TurnsAscend(messages, user, lo, hi, cut - 1, k);
    }
  }

  /** The turns are just the user's messages in the range that are no boundaries. */
  lemma {:induction false} TurnsExactly(messages: seq<Message>, user: int, lo: nat, hi: nat, m: Message)
    requires Numbered(messages) && hi <= |messages|
    ensures m in Turns(messages, user, lo, hi) <==>
              lo < m.id <= hi && m == messages[m.id - 1] && m.user == user && (m.role == User || m.role == Assistant)
    decreases hi
  {
    if lo < hi {
      TurnsExactly(messages, user, lo, hi - 1, m);
    }
  }

  /** A recent read is the last of the session's turns. */
  lemma RecentAreLast(db: Db, user: int, n: int)
    ensures var turns := Turns(db.messages, user, SessionEpoch(db.messages, user), |db.messages|);
            var recent := RecentMessages(db, user, n);
            && |recent| == (if n <= 0 then 0 else if n < |turns| then n else |turns|)
            && recent == turns[|turns| - |recent|..]
  {
    hide Turns, SessionEpoch;
  }

  /** A nonempty run of first turns is every turn up to the id of its last. */
  lemma {:induction false} PrefixIsTurns(messages: seq<Message>, user: int, lo: nat, hi: nat, k: nat)
    requires Numbered(messages) && hi <= |messages|
    requires 0 < k <= |Turns(messages, user, lo, hi)|
    ensures var prefix := Turns(messages, user, lo, hi)[..k];
            && lo < prefix[k - 1].id <= hi
            && prefix == Turns(messages, user, lo, prefix[k - 1].id)
    decreases hi
  {
    var all, fewer := Turns(messages, user, lo, hi), Turns(messages, user, lo, hi - 1);
    if k <= |fewer| {
      PrefixIsTurns(messages, user, lo, hi - 1, k);
      assert all[..k] == fewer[..k];
    } else {
      assert all[..k] == all;
    }
  }

  /** Appending does not disturb the turns already there. */
  lemma {:induction false} TurnsStable(messages: seq<Message>, more: seq<Message>, user: int, lo: nat, hi: nat)
    requires hi <= |messages|
    ensures Turns(messages + more, user, lo, hi) == Turns(messages, user, lo, hi)
    decreases hi
  {
    if lo < hi {
      TurnsStable(messages, more, user, lo, hi - 1);
    }
  }

  lemma {:induction false} EpochIsLastReset(messages: seq<Message>, user: int)
    requires Numbered(messages)
    ensures SessionEpoch(messages, user) <= |messages|
    ensures forall i :: SessionEpoch(messages, user) <= i < |messages| && messages[i].user == user ==>
              messages[i].role != Reset
    ensures var epoch := SessionEpoch(messages, user);
            epoch > 0 ==> messages[epoch - 1].user == user && messages[epoch - 1].role == Reset
    decreases |messages|
  {
    if messages != [] {
      EpochIsLastReset(messages[..|messages| - 1], user);
    }
  }
}

/**
 The rolling summary (chic/agent/agent.py, `_condense_history`): what a call
 folds and returns, and what any run of messages, resets and calls adds up to.
 */
module RollingSummary {
  import opened DialogStore

  const KEEP_RECENT := 6
  const MAX_SCAN := 400
  const MAX_SUMMARY_CHARS := 1200

  function Chars(messages: seq<Message>): nat {
    if messages == [] then 0 else Chars(messages[..|messages| - 1]) + |messages[|messages| - 1].content|
  }

  /** Up to here the session has been folded: the stored mark, but not before its start. */
  function Watermark(db: Db, user: int, epoch: nat): nat {
    var upTo := GetSummary(db, user, epoch).upTo;
    if upTo < epoch then epoch else upTo
  }

  /** Everything a call may look at: the oldest 400 turns above the watermark. */
  function Scan(db: Db, user: int, epoch: nat): seq<Message> {
    MessagesSince(db, user, Watermark(db, user, epoch), MAX_SCAN)
  }

  predicate Folds(budget: int, scan: seq<Message>) { Chars(scan) > budget && |scan| > KEEP_RECENT }

  datatype Condensed = Condensed(db: Db, summary: string, tail: seq<Message>, folded: seq<Message>)

  /** `reply` is the summary model's stripped answer, empty when the call failed. */
  function Condense(db: Db, budget: int, depth: int, user: int, epoch: nat, reply: string): Condensed {
    if budget < 0 then Condensed(db, "", RecentMessages(db, user, depth), [])
    else
      var stored, scan := GetSummary(db, user, epoch), Scan(db, user, epoch);
      if !Folds(budget, scan) then Condensed(db, stored.text, scan, [])
      else
        var foldable, recent := scan[..|scan| - KEEP_RECENT], scan[|scan| - KEEP_RECENT..];
        var next := Take(reply, MAX_SUMMARY_CHARS);
        if next == "" then Condensed(db, stored.text, recent, [])
        else
          var upTo := foldable[|foldable| - 1].id;
          Condensed(db.(summaries := db.summaries[(user, epoch) := Summary(next, upTo)]), next, recent, foldable)
  }

  class Agent {
    const store: Store
    const budget: int
    const depth: int

    constructor (store: Store, budget: int, depth: int)
      ensures this.store == store && this.budget == budget && this.depth == depth
    {
      this.store, this.budget, this.depth := store, budget, depth;
    }

    method CondenseHistory(user: int, epoch: nat, reply: string)
      returns (summary: string, tail: seq<Message>, ghost folded: seq<Message>)
      modifies store
      ensures Condensed(store.View(), summary, tail, folded)
           == Condense(old(store.View()), budget, depth, user, epoch, reply)
    {
      hide Turns, Take, SessionEpoch;
      var db := Db(store.messages, store.summaries);
      folded := [];
      if budget < 0 {
        return "", RecentMessages(db, user, depth), [];
      }
      var stored := GetSummary(db, user, epoch);
      var upTo := stored.upTo;
      if upTo < epoch {
        upTo := epoch;
      }
      tail := MessagesSince(db, user, upTo, MAX_SCAN);
      var total := 0;
      for i := 0 to |tail|
        invariant total == Chars(tail[..i])
      {
        assert tail[..i + 1][..i] == tail[..i];
        total := total + |tail[i].content|;
      }
      assert tail[..|tail|] == tail;
      if total <= budget || |tail| <= KEEP_RECENT {
        return stored.text, tail, [];
      }
      var foldable := tail[..|tail| - KEEP_RECENT];
      var recent := tail[|tail| - KEEP_RECENT..];
      var next := Take(reply, MAX_SUMMARY_CHARS);
      if next == "" {
        return stored.text, recent, [];
      }
      store.PutSessionSummary(user, epoch, next, foldable[|foldable| - 1].id);
      return next, recent, foldable;
    }
  }

  // ---- whole runs -----------------------------------------------------------------

  datatype Op =
    | Say(user: int, fromUser: bool, content: string)
    | NewSession(user: int)
    | Call(user: int, reply: string)

  /** The store, and for every session the messages its calls have folded so far. */
  datatype State = State(db: Db, folded: map<(int, nat), seq<Message>>)

  function FoldedOf(s: State, user: int, epoch: nat): seq<Message> {
    if (user, epoch) in s.folded then s.folded[(user, epoch)] else []
  }

  function Step(s: State, budget: int, depth: int, op: Op): State {
    match op
    case Say(user, fromUser, content) =>
      s.(db := Append(s.db, user, if fromUser then User else Assistant, content))
    case NewSession(user) => s.(db := Append(s.db, user, Reset, ""))
    case Call(user, reply) =>
      var epoch := SessionEpoch(s.db.messages, user);
      var out := Condense(s.db, budget, depth, user, epoch, reply);
      State(out.db, s.folded[(user, epoch) := FoldedOf(s, user, epoch) + out.folded])
  }

  function Run(budget: int, depth: int, ops: seq<Op>): State {
    if ops == [] then State(EMPTY, map[])
    else Step(Run(budget, depth, ops[..|ops| - 1]), budget, depth, ops[|ops| - 1])
  }

  /** No boundary of `user` has an id in `(lo, hi]`. */
  ghost predicate OneSession(messages: seq<Message>, user: int, lo: nat, hi: nat)
    requires hi <= |messages|
  {
    forall i :: lo <= i < hi ==> !(messages[i].user == user && messages[i].role == Reset)
  }

  /**
   The session that starts at `epoch` has been folded exactly, in order, up to its
   watermark, and the watermark has not run past the session's end.
   */
  ghost predicate FoldedExactly(s: State, user: int, epoch: nat) {
    var mark := Watermark(s.db, user, epoch);
    && mark <= |s.db.messages|
    && OneSession(s.db.messages, user, epoch, mark)
    && FoldedOf(s, user, epoch) == Turns(s.db.messages, user, epoch, mark)
  }

  ghost predicate SessionInv(s: State, user: int, epoch: nat) {
    if epoch <= |s.db.messages| then FoldedExactly(s, user, epoch)
    else GetSummary(s.db, user, epoch) == Summary("", 0) && FoldedOf(s, user, epoch) == []
  }

  ghost predicate Inv(s: State) {
    Numbered(s.db.messages) && forall user: int, epoch: nat :: SessionInv(s, user, epoch)
  }

  /** What one call does to the watermark, and what it returns. */
  lemma CallFoldsPrefix(db: Db, budget: int, depth: int, user: int, epoch: nat, reply: string)
    requires Numbered(db.messages) && Watermark(db, user, epoch) <= |db.messages|
    ensures var out := Condense(db, budget, depth, user, epoch, reply);
            var mark, mark' := Watermark(db, user, epoch), Watermark(out.db, user, epoch);
            && out.db.messages == db.messages
            && mark <= mark' <= |db.messages|
            && out.folded == Turns(db.messages, user, mark, mark')
  {
    hide SessionEpoch;
    var mark, all := Watermark(db, user, epoch), Turns(db.messages, user, Watermark(db, user, epoch), |db.messages|);
    var scan := Scan(db, user, epoch);
    if budget >= 0 && Folds(budget, scan) && Take(reply, MAX_SUMMARY_CHARS) != "" {
      var k := |scan| - KEEP_RECENT;
      assert scan[..k] == all[..k];
      PrefixIsTurns(db.messages, user, mark, |db.messages|, k);
    } else {
      assert Turns(db.messages, user, mark, mark) == [];
    }
  }

  lemma CallKeepsOthers(db: Db, budget: int, depth: int, user: int, epoch: nat, reply: string, u: int, e: nat)
    requires (u, e) != (user, epoch)
    ensures var after := Condense(db, budget, depth, user, epoch, reply).db;
            GetSummary(after, u, e) == GetSummary(db, u, e) && Watermark(after, u, e) == Watermark(db, u, e)
  {
    hide Turns, Take, SessionEpoch;
  }

  lemma AppendInv(s: State, m: Message)
    requires Inv(s) && m.id == |s.db.messages| + 1
    ensures Inv(s.(db := s.db.(messages := s.db.messages + [m])))
  {
    var s' := s.(db := s.db.(messages := s.db.messages + [m]));
    var n := |s.db.messages|;
    forall user: int, epoch: nat
      ensures SessionInv(s', user, epoch)
    {
      assert SessionInv(s, user, epoch);
      if epoch <= n {
        TurnsStable(s.db.messages, [m], user, epoch, Watermark(s.db, user, epoch));
      }
    }
  }

  lemma CallInv(s: State, budget: int, depth: int, user: int, reply: string)
    requires Inv(s)
    ensures Inv(Step(s, budget, depth, Call(user, reply)))
  {
    hide Condense, SessionEpoch, Watermark, GetSummary;
    var messages := s.db.messages;
    var epoch := SessionEpoch(messages, user);
    var out := Condense(s.db, budget, depth, user, epoch, reply);
    var s' := Step(s, budget, depth, Call(user, reply));
    EpochIsLastReset(messages, user);
    assert SessionInv(s, user, epoch);
    CallFoldsPrefix(s.db, budget, depth, user, epoch, reply);
    MarkNotBelowEpoch(s.db, user, epoch);
    TurnsSplit(messages, user, epoch, Watermark(s.db, user, epoch), Watermark(out.db, user, epoch));
    forall u: int, e: nat
      ensures SessionInv(s', u, e)
    {
      assert SessionInv(s, u, e);
      if (u, e) != (user, epoch) {
        CallKeepsOthers(s.db, budget, depth, user, epoch, reply, u, e);
      }
    }
  }

  lemma MarkNotBelowEpoch(db: Db, user: int, epoch: nat)
    ensures epoch <= Watermark(db, user, epoch)
  {
  }

  /**
   Over every run: what a session's calls have folded is exactly that session's
   messages with ids up to the watermark, in order and each once.
   */
  lemma {:induction false} RunFoldsExactly(budget: int, depth: int, ops: seq<Op>)
    ensures Inv(Run(budget, depth, ops))
    decreases |ops|
  {
    if ops != [] {
      var before, op := Run(budget, depth, ops[..|ops| - 1]), ops[|ops| - 1];
      RunFoldsExactly(budget, depth, ops[..|ops| - 1]);
      match op
      case Say(user, fromUser, content) =>
        AppendInv(before, Message(|before.db.messages| + 1, user, if fromUser then User else Assistant, content));
      case NewSession(user) =>
        AppendInv(before, Message(|before.db.messages| + 1, user, Reset, ""));
      case Call(user, reply) =>
        CallInv(before, budget, depth, user, reply);
    }
  }

  /** The watermark of a session never falls. */
  lemma {:induction false} WatermarkNeverFalls(budget: int, depth: int, ops: seq<Op>, i: nat, j: nat,
                                               user: int, epoch: nat)
    requires i <= j <= |ops|
    ensures Watermark(Run(budget, depth, ops[..i]).db, user, epoch)
         <= Watermark(Run(budget, depth, ops[..j]).db, user, epoch)
    decreases j
  {
    hide Step, Watermark;
    if i < j {
      WatermarkNeverFalls(budget, depth, ops, i, j - 1, user, epoch);
      assert ops[..j][..j - 1] == ops[..j - 1];
      RunFoldsExactly(budget, depth, ops[..j - 1]);
      StepRaisesMark(Run(budget, depth, ops[..j - 1]), budget, depth, ops[j - 1], user, epoch);
    }
  }

  lemma StepRaisesMark(s: State, budget: int, depth: int, op: Op, user: int, epoch: nat)
    requires Inv(s)
    ensures Watermark(s.db, user, epoch) <= Watermark(Step(s, budget, depth, op).db, user, epoch)
  {
    hide Condense, Turns, SessionEpoch, FoldedOf, OneSession;
    if op.Call? {
      var u := op.user;
      var e := SessionEpoch(s.db.messages, u);
      EpochIsLastReset(s.db.messages, u);
      assert SessionInv(s, u, e);
      if (u, e) == (user, epoch) {
        CallFoldsPrefix(s.db, budget, depth, u, e, op.reply);
      } else {
        CallKeepsOthers(s.db, budget, depth, u, e, op.reply, user, epoch);
      }
    }
  }

  // ---- what a call returns ----------------------------------------------------------

  /** The turns of the session that no summary covers yet. */
  function Unfolded(db: Db, user: int, epoch: nat): seq<Message> {
    Turns(db.messages, user, Watermark(db, user, epoch), |db.messages|)
  }

  /** The scan is the first of the unfolded turns, and the tail the last of the scan. */
  lemma TailIsSuffix(db: Db, budget: int, depth: int, user: int, epoch: nat, reply: string)
    requires budget >= 0
    ensures var scan, out := Scan(db, user, epoch), Condense(db, budget, depth, user, epoch, reply);
            && scan <= Unfolded(db, user, epoch)
            && |out.tail| <= |scan| && out.tail == scan[|scan| - |out.tail|..]
            && (out.folded != [] ==> out.folded == scan[..|scan| - |out.tail|])
  {
    hide SessionEpoch, Chars, Turns;
  }

  /** All the characters of the messages, one after another. */
  function Text(messages: seq<Message>): string {
    if messages == [] then "" else Text(messages[..|messages| - 1]) + messages[|messages| - 1].content
  }

  lemma {:induction false} CharsAreText(messages: seq<Message>)
    ensures Chars(messages) == |Text(messages)|
    decreases |messages|
  {
    if messages != [] {
      CharsAreText(messages[..|messages| - 1]);
    }
  }

  /**
   When a call folds, told from the text: the turns it scans have more characters than the
   budget and number more than six, and the summary model answers. It then folds all but
   the last six and stores the first 1200 characters of the answer.
   */
  lemma FoldsIff(db: Db, budget: int, depth: int, user: int, epoch: nat, reply: string)
    requires budget >= 0
    ensures var out, scan := Condense(db, budget, depth, user, epoch, reply), Scan(db, user, epoch);
            var all := Unfolded(db, user, epoch);
            && |scan| == (if |all| < 400 then |all| else 400) && scan <= all
            && (out.folded != [] <==> |Text(scan)| > budget && |scan| > 6 && reply != "")
            && (out.folded != [] ==>
                  && out.folded == scan[..|scan| - 6] && out.tail == scan[|scan| - 6..]
                  && GetSummary(out.db, user, epoch).text == reply[..if |reply| < 1200 then |reply| else 1200])
  {
    hide SessionEpoch, Chars, Turns, Text;
    CharsAreText(Scan(db, user, epoch));
  }

  /** With summaries off a call returns the last turns of the session and stores nothing. */
  lemma SummariesOff(db: Db, budget: int, depth: int, user: int, epoch: nat, reply: string)
    requires budget < 0
    ensures var out := Condense(db, budget, depth, user, epoch, reply);
            && out.db == db && out.summary == "" && out.folded == []
            && out.tail == RecentMessages(db, user, depth)
            && forall k :: 0 <= k < |out.tail| ==>
                 out.tail[k] in Turns(db.messages, user, SessionEpoch(db.messages, user), |db.messages|)
  {
    hide Turns, SessionEpoch;
    RecentAreLast(db, user, depth);
  }

  /**
   With summaries on, the tail is the whole scan or its last six turns, lies above the
   watermark, and has few characters or few turns.
   */
  lemma TailIsBounded(db: Db, budget: int, depth: int, user: int, epoch: nat, reply: string)
    requires Numbered(db.messages) && budget >= 0
    ensures var out, scan := Condense(db, budget, depth, user, epoch, reply), Scan(db, user, epoch);
            && (out.tail == scan || (|scan| > 6 && out.tail == scan[|scan| - 6..]))
            && (|Text(out.tail)| <= budget || |out.tail| <= 6)
            && forall k :: 0 <= k < |out.tail| ==>
                 out.tail[k].id > Watermark(out.db, user, epoch) && out.tail[k].user == user
  {
    hide SessionEpoch, Chars, Text, Turns, Take;
    TailIsSuffix(db, budget, depth, user, epoch, reply);
    var out := Condense(db, budget, depth, user, epoch, reply);
    CharsAreText(out.tail);
    var cut := |Scan(db, user, epoch)| - |out.tail|;
    forall k | 0 <= k < |out.tail|
      ensures out.tail[k].id > Watermark(out.db, user, epoch) && out.tail[k].user == user
    {
      TurnsAfter(db.messages, user, Watermark(db, user, epoch), |db.messages|, cut, cut + k);
    }
  }

  /** `out` shows the model every turn of the session: folded into the summary, or in the tail. */
  ghost predicate ShowsAll(out: Condensed, user: int, epoch: nat) { out.tail == Unfolded(out.db, user, epoch) }

  /**
   The summary a call answers with is the stored one, and the tail is all that this
   summary leaves out exactly when at most 400 turns were waiting and no needed summary
   failed. A failed one changes nothing in the store.
   */
  lemma ShowsAllIff(db: Db, budget: int, depth: int, user: int, epoch: nat, reply: string)
    requires Numbered(db.messages) && budget >= 0 && Watermark(db, user, epoch) <= |db.messages|
    ensures var out := Condense(db, budget, depth, user, epoch, reply);
            && out.summary == GetSummary(out.db, user, epoch).text
            && (reply == "" || out.folded == [] ==> out.db == db)
            && (ShowsAll(out, user, epoch) <==>
                  |Unfolded(db, user, epoch)| <= MAX_SCAN && (Folds(budget, Scan(db, user, epoch)) ==> reply != ""))
  {
    hide SessionEpoch, Chars, Turns;
    var out := Condense(db, budget, depth, user, epoch, reply);
    var all := Unfolded(db, user, epoch);
    CallFoldsPrefix(db, budget, depth, user, epoch, reply);
    TailIsSuffix(db, budget, depth, user, epoch, reply);
    TurnsSplit(db.messages, user, Watermark(db, user, epoch), Watermark(out.db, user, epoch), |db.messages|);
    assert all == out.folded + Unfolded(out.db, user, epoch);
  }

  /**
   Over every run: what the calls of the current session have folded, followed by the tail
   of the next call, is the whole session in order and each turn once, exactly then.
   */
  lemma SessionSeenWhole(budget: int, depth: int, ops: seq<Op>, user: int, reply: string)
    requires budget >= 0
    ensures var s := Run(budget, depth, ops);
            var epoch, n := SessionEpoch(s.db.messages, user), |s.db.messages|;
            var out := Condense(s.db, budget, depth, user, epoch, reply);
            epoch <= n &&
            (FoldedOf(s, user, epoch) + out.folded + out.tail == Turns(s.db.messages, user, epoch, n) <==>
               |Unfolded(s.db, user, epoch)| <= MAX_SCAN
               && (Folds(budget, Scan(s.db, user, epoch)) ==> reply != ""))
  {
    hide Run, Condense, Turns, SessionEpoch, Scan, Folds, Watermark, FoldedOf, GetSummary, OneSession;
    var s := Run(budget, depth, ops);
    var messages := s.db.messages;
    var epoch, n := SessionEpoch(messages, user), |messages|;
    var out := Condense(s.db, budget, depth, user, epoch, reply);
    var mark, mark' := Watermark(s.db, user, epoch), Watermark(out.db, user, epoch);
    RunFoldsExactly(budget, depth, ops);
    EpochIsLastReset(messages, user);
    assert SessionInv(s, user, epoch);
    MarkNotBelowEpoch(s.db, user, epoch);
    CallFoldsPrefix(s.db, budget, depth, user, epoch, reply);
    ShowsAllIff(s.db, budget, depth, user, epoch, reply);
    TurnsSplit(messages, user, epoch, mark, mark');
    TurnsSplit(messages, user, epoch, mark', n);
    SamePrefix(Turns(messages, user, epoch, mark'), out.tail, Turns(messages, user, mark', n));
  }

  lemma SamePrefix(prefix: seq<Message>, a: seq<Message>, b: seq<Message>)
    ensures prefix + a == prefix + b <==> a == b
  {
    if prefix + a == prefix + b {
      assert a == (prefix + a)[|prefix|..] == (prefix + b)[|prefix|..] == b;
    }
  }

  // ---- the newest messages -------------------------------------------------------------

  /**
   The scan starts at the oldest unfolded turn, so the history a call returns ends with the
   newest stored turn exactly while no more than 400 turns are waiting.
   */
  lemma NewestIsSeen(db: Db, budget: int, depth: int, user: int, epoch: nat, reply: string)
    requires Numbered(db.messages) && budget >= 0 && Unfolded(db, user, epoch) != []
    ensures var all := Unfolded(db, user, epoch);
            all[|all| - 1] in Condense(db, budget, depth, user, epoch, reply).tail <==> |all| <= MAX_SCAN
  {
    hide SessionEpoch, Chars, Turns;
    var n, mark, all := |db.messages|, Watermark(db, user, epoch), Unfolded(db, user, epoch);
    var scan, out := Scan(db, user, epoch), Condense(db, budget, depth, user, epoch, reply);
    TailIsSuffix(db, budget, depth, user, epoch, reply);
    var skipped := |scan| - |out.tail|;
    if |all| <= MAX_SCAN {
      assert out.tail[|out.tail| - 1] == all[|all| - 1];
    } else {
      forall k | 0 <= k < |out.tail|
        ensures out.tail[k] != all[|all| - 1]
      {
        assert out.tail[k] == all[skipped + k];
        TurnsAscend(db.messages, user, mark, n, skipped + k, |all| - 1);
      }
    }
  }

  /** A session whose oldest 400 unfolded turns fit the budget. */
  predicate Stuck(db: Db, budget: int, user: int, epoch: nat) {
    budget >= 0 && |Scan(db, user, epoch)| == MAX_SCAN && Chars(Scan(db, user, epoch)) <= budget
  }

  /**
   With a full scan and a summary model that answers, a call folds nothing exactly in
   such a session: in every other one it folds 394 turns.
   */
  lemma FullScanFoldsUnlessStuck(db: Db, budget: int, depth: int, user: int, epoch: nat, reply: string)
    requires budget >= 0 && |Scan(db, user, epoch)| == MAX_SCAN && reply != ""
    ensures var folded := Condense(db, budget, depth, user, epoch, reply).folded;
            if Stuck(db, budget, user, epoch) then folded == [] else |folded| == MAX_SCAN - KEEP_RECENT
  {
    hide Scan, Chars;
  }

  /** `user`'s session looks the same in both stores to any call. */
  ghost predicate SameScan(was: Db, now: Db, user: int) {
    var epoch := SessionEpoch(was.messages, user);
    && SessionEpoch(now.messages, user) == epoch
    && Scan(now, user, epoch) == Scan(was, user, epoch)
    && GetSummary(now, user, epoch) == GetSummary(was, user, epoch)
  }

  lemma StuckStep(s: State, budget: int, depth: int, op: Op, user: int)
    requires op != NewSession(user)
    requires Stuck(s.db, budget, user, SessionEpoch(s.db.messages, user))
    ensures SameScan(s.db, Step(s, budget, depth, op).db, user)
  {
    hide Chars;
    var was, now := s.db, Step(s, budget, depth, op).db;
    var epoch := SessionEpoch(was.messages, user);
    if !op.Call? {
      var m := now.messages[|was.messages|];
      assert now.messages[..|was.messages|] == was.messages;
      TurnsStable(was.messages, [m], user, Watermark(was, user, epoch), |was.messages|);
    }
  }

  lemma {:induction false} StuckRun(budget: int, depth: int, ops: seq<Op>, i: nat, j: nat, user: int)
    requires i <= j <= |ops|
    requires forall k :: i <= k < j ==> ops[k] != NewSession(user)
    requires var db := Run(budget, depth, ops[..i]).db;
             Stuck(db, budget, user, SessionEpoch(db.messages, user))
    ensures SameScan(Run(budget, depth, ops[..i]).db, Run(budget, depth, ops[..j]).db, user)
    decreases j
  {
    hide Scan, GetSummary, SessionEpoch, Step, Chars;
    if i < j {
      StuckRun(budget, depth, ops, i, j - 1, user);
      assert ops[..j][..j - 1] == ops[..j - 1];
      StuckStep(Run(budget, depth, ops[..j - 1]), budget, depth, ops[j - 1], user);
    }
  }

  /**
   Such a session never moves again: until the user starts a new one, every later
   call returns the same summary and the same 400 turns, whatever is said meanwhile.
   */
  lemma StuckForever(budget: int, depth: int, ops: seq<Op>, i: nat, j: nat, user: int, reply: string)
    requires i <= j <= |ops|
    requires forall k :: i <= k < j ==> ops[k] != NewSession(user)
    requires var db := Run(budget, depth, ops[..i]).db;
             Stuck(db, budget, user, SessionEpoch(db.messages, user))
    ensures var was, now := Run(budget, depth, ops[..i]).db, Run(budget, depth, ops[..j]).db;
            var epoch := SessionEpoch(was.messages, user);
            Condense(now, budget, depth, user, SessionEpoch(now.messages, user), reply)
              == Condensed(now, GetSummary(was, user, epoch).text, Scan(was, user, epoch), [])
  {
    hide Scan, GetSummary, SessionEpoch, Step, Chars;
    StuckRun(budget, depth, ops, i, j, user);
  }

  // ---- which sessions never hear again -----------------------------------------------

  /**
   Some scan that the waiting turns lead to fits the budget: the first 400 of them, or of
   those that are left after a fold.
   */
  predicate Doomed(waiting: seq<Message>, budget: int)
    decreases |waiting|
  {
    |waiting| >= MAX_SCAN &&
    (Chars(waiting[..MAX_SCAN]) <= budget || Doomed(waiting[MAX_SCAN - KEEP_RECENT..], budget))
  }

  /** The scan that `folds` folds lead to has 400 turns and fits the budget. */
  predicate FitsAfter(waiting: seq<Message>, budget: int, folds: nat) {
    var i := (MAX_SCAN - KEEP_RECENT) * folds;
    i + MAX_SCAN <= |waiting| && Chars(waiting[i..i + MAX_SCAN]) <= budget
  }

  /** Without recursion: 400 waiting turns in a row, from a multiple of 394 on, fit the budget. */
  lemma {:induction false} DoomedIff(waiting: seq<Message>, budget: int)
    ensures Doomed(waiting, budget) <==> exists folds: nat :: FitsAfter(waiting, budget, folds)
    decreases |waiting|
  {
    hide Chars;
    if |waiting| >= MAX_SCAN {
      var rest := waiting[MAX_SCAN - KEEP_RECENT..];
      DoomedIff(rest, budget);
      NoFolds(waiting, budget);
      forall folds: nat
        ensures FitsAfter(waiting, budget, folds + 1) == FitsAfter(rest, budget, folds)
      {
        OneFoldLess(waiting, budget, folds);
      }
      hide FitsAfter;
      if folds: nat :| FitsAfter(rest, budget, folds) {
        assert FitsAfter(waiting, budget, folds + 1);
      }
      if folds: nat :| FitsAfter(waiting, budget, folds) {
        assert folds > 0 ==> FitsAfter(rest, budget, folds - 1) == FitsAfter(waiting, budget, folds - 1 + 1);
      }
    }
  }

  lemma NoFolds(waiting: seq<Message>, budget: int)
    requires |waiting| >= MAX_SCAN
    ensures FitsAfter(waiting, budget, 0) <==> Chars(waiting[..MAX_SCAN]) <= budget
  {
    hide Chars;
    assert waiting[0..MAX_SCAN] == waiting[..MAX_SCAN];
  }

  lemma OneFoldLess(waiting: seq<Message>, budget: int, folds: nat)
    requires |waiting| >= MAX_SCAN
    ensures FitsAfter(waiting, budget, folds + 1) == FitsAfter(waiting[MAX_SCAN - KEEP_RECENT..], budget, folds)
  {
    hide Chars;
    var fold := MAX_SCAN - KEEP_RECENT;
    var i := fold * folds;
    if fold + i + MAX_SCAN <= |waiting| {
      assert waiting[fold..][i..i + MAX_SCAN] == waiting[fold + i..fold + i + MAX_SCAN];
    }
  }

  /** With a full scan, a call takes 394 turns off those waiting, or none. */
  lemma FoldShifts(db: Db, budget: int, depth: int, user: int, epoch: nat, reply: string)
    requires Numbered(db.messages) && budget >= 0 && Watermark(db, user, epoch) <= |db.messages|
    requires |Unfolded(db, user, epoch)| >= MAX_SCAN
    ensures var all := Unfolded(db, user, epoch);
            Unfolded(Condense(db, budget, depth, user, epoch, reply).db, user, epoch)
              == if Chars(all[..MAX_SCAN]) > budget && reply != "" then all[MAX_SCAN - KEEP_RECENT..] else all
  {
    hide SessionEpoch, Chars, Turns;
    var out := Condense(db, budget, depth, user, epoch, reply);
    var all := Unfolded(db, user, epoch);
    CallFoldsPrefix(db, budget, depth, user, epoch, reply);
    TurnsSplit(db.messages, user, Watermark(db, user, epoch), Watermark(out.db, user, epoch), |db.messages|);
    assert all == out.folded + Unfolded(out.db, user, epoch);
    assert Scan(db, user, epoch) == all[..MAX_SCAN];
  }

  /** So a session that still folds can be stuck by that very fold. */
  lemma FoldCanStick(db: Db, budget: int, depth: int, user: int, epoch: nat, reply: string)
    requires Numbered(db.messages) && budget >= 0 && Watermark(db, user, epoch) <= |db.messages| && reply != ""
    requires var all := Unfolded(db, user, epoch);
             && |all| >= 2 * MAX_SCAN - KEEP_RECENT
             && Chars(all[..MAX_SCAN]) > budget
             && Chars(all[MAX_SCAN - KEEP_RECENT..2 * MAX_SCAN - KEEP_RECENT]) <= budget
    ensures !Stuck(db, budget, user, epoch)
    ensures Stuck(Condense(db, budget, depth, user, epoch, reply).db, budget, user, epoch)
  {
    hide Chars, Turns, Condense;
    var all := Unfolded(db, user, epoch);
    FoldShifts(db, budget, depth, user, epoch, reply);
    var after := Condense(db, budget, depth, user, epoch, reply).db;
    assert Scan(after, user, epoch) == Unfolded(after, user, epoch)[..MAX_SCAN];
    assert all[MAX_SCAN - KEEP_RECENT..][..MAX_SCAN] == all[MAX_SCAN - KEEP_RECENT..2 * MAX_SCAN - KEEP_RECENT];
  }

  /** No turn that a call of `user` returns has an id above `n`. */
  ghost predicate Unheard(db: Db, budget: int, depth: int, user: int, reply: string, n: nat) {
    var tail := Condense(db, budget, depth, user, SessionEpoch(db.messages, user), reply).tail;
    forall k :: 0 <= k < |tail| ==> tail[k].id <= n
  }

  ghost predicate KeepsSession(ops: seq<Op>, user: int) { NewSession(user) !in ops }

  function Waiting(db: Db, user: int): seq<Message> { Unfolded(db, user, SessionEpoch(db.messages, user)) }

  /** What is said within a session waits behind the turns already there. */
  lemma SaidLast(s: State, m: Message, user: int)
    requires Inv(s) && !(m.user == user && m.role == Reset)
    ensures var now := s.db.(messages := s.db.messages + [m]);
            && SessionEpoch(now.messages, user) == SessionEpoch(s.db.messages, user)
            && Waiting(now, user) == Waiting(s.db, user) + if m.user == user then [m] else []
  {
    var was, epoch := s.db, SessionEpoch(s.db.messages, user);
    var now := was.(messages := was.messages + [m]);
    EpochIsLastReset(was.messages, user);
    assert SessionInv(s, user, epoch);
    assert now.messages[..|was.messages|] == was.messages;
    TurnsStable(was.messages, [m], user, Watermark(was, user, epoch), |was.messages|);
  }

  /** `front` is at the front of the turns waiting for `user`. */
  ghost predicate Heads(front: seq<Message>, db: Db, user: int) { front <= Waiting(db, user) }

  lemma CallKeepsDoom(s: State, budget: int, depth: int, u: int, reply: string, user: int, front: seq<Message>)
      returns (left: seq<Message>)
    requires Inv(s) && budget >= 0 && Heads(front, s.db, user) && Doomed(front, budget)
    ensures var now := Step(s, budget, depth, Call(u, reply)).db;
            Heads(left, now, user) && Doomed(left, budget) && forall m :: m in left ==> m in front
  {
    hide Chars, Condense, Turns, SessionEpoch, Watermark, SessionInv;
    var epoch := SessionEpoch(s.db.messages, user);
    var all, fold := Unfolded(s.db, user, epoch), MAX_SCAN - KEEP_RECENT;
    MarkWithin(s, u);
    MarkWithin(s, user);
    CallFoldsPrefix(s.db, budget, depth, u, SessionEpoch(s.db.messages, u), reply);
    left := front;
    if u == user {
      FoldShifts(s.db, budget, depth, user, epoch, reply);
      assert all[..MAX_SCAN] == front[..MAX_SCAN];
      if Chars(front[..MAX_SCAN]) > budget && reply != "" {
        left := front[fold..];
        assert left <= all[fold..];
      }
    } else {
      CallKeepsOthers(s.db, budget, depth, u, SessionEpoch(s.db.messages, u), reply, user, epoch);
    }
  }

  lemma MarkWithin(s: State, user: int)
    requires Inv(s)
    ensures Watermark(s.db, user, SessionEpoch(s.db.messages, user)) <= |s.db.messages|
  {
    EpochIsLastReset(s.db.messages, user);
    assert SessionInv(s, user, SessionEpoch(s.db.messages, user));
  }

  lemma DoomedStep(s: State, budget: int, depth: int, op: Op, user: int, front: seq<Message>)
      returns (left: seq<Message>)
    requires Inv(s) && budget >= 0 && op != NewSession(user) && Heads(front, s.db, user) && Doomed(front, budget)
    ensures var now := Step(s, budget, depth, op).db;
            Heads(left, now, user) && Doomed(left, budget) && forall m :: m in left ==> m in front
  {
    hide Doomed, Condense, Waiting, Inv;
    match op
    case Call(u, reply) => left := CallKeepsDoom(s, budget, depth, u, reply, user, front);
    case Say(u, fromUser, content) =>
      left := front;
      SaidLast(s, Message(|s.db.messages| + 1, u, if fromUser then User else Assistant, content), user);
    case NewSession(u) =>
      left := front;
      SaidLast(s, Message(|s.db.messages| + 1, u, Reset, ""), user);
  }

  /** Once a session is doomed, what waits at the front was said before, and dooms it still. */
  lemma {:induction false} DoomedRun(budget: int, depth: int, ops: seq<Op>, more: seq<Op>, user: int)
      returns (left: seq<Message>)
    requires budget >= 0 && KeepsSession(more, user)
    requires Doomed(Waiting(Run(budget, depth, ops).db, user), budget)
    ensures Heads(left, Run(budget, depth, ops + more).db, user) && Doomed(left, budget)
    ensures forall m :: m in left ==> m.id <= |Run(budget, depth, ops).db.messages|
    decreases |more|
  {
    hide Doomed, Step, Waiting, Inv;
    if more == [] {
      assert ops + more == ops;
      left := Waiting(Run(budget, depth, ops).db, user);
      RunFoldsExactly(budget, depth, ops);
      WaitingIsOld(Run(budget, depth, ops), user);
    } else {
      var before, op := more[..|more| - 1], more[|more| - 1];
      assert (ops + more)[..|ops + more| - 1] == ops + before;
      var front := DoomedRun(budget, depth, ops, before, user);
      RunFoldsExactly(budget, depth, ops + before);
      assert op in more;
      left := DoomedStep(Run(budget, depth, ops + before), budget, depth, op, user, front);
    }
  }

  lemma WaitingIsOld(s: State, user: int)
    requires Inv(s)
    ensures forall m :: m in Waiting(s.db, user) ==> m.id <= |s.db.messages|
  {
    hide Turns, SessionEpoch, Watermark, SessionInv;
    var epoch := SessionEpoch(s.db.messages, user);
    var all := Waiting(s.db, user);
    forall k | 0 <= k < |all|
      ensures all[k].id <= |s.db.messages|
    {
      TurnsWithin(s.db.messages, user, Watermark(s.db, user, epoch), |s.db.messages|, k);
    }
  }

  /** A scan full of old turns returns nothing else. */
  lemma FrontIsAll(db: Db, budget: int, depth: int, user: int, reply: string, front: seq<Message>, n: nat)
    requires budget >= 0 && Heads(front, db, user) && |front| >= MAX_SCAN && forall m :: m in front ==> m.id <= n
    ensures Unheard(db, budget, depth, user, reply, n)
  {
    hide Chars, Turns, SessionEpoch, Condense, Watermark;
    var epoch := SessionEpoch(db.messages, user);
    var scan, tail := Scan(db, user, epoch), Condense(db, budget, depth, user, epoch, reply).tail;
    TailIsSuffix(db, budget, depth, user, epoch, reply);
    assert scan == front[..MAX_SCAN];
    forall k | 0 <= k < |tail|
      ensures tail[k].id <= n
    {
      assert tail[k] == front[|scan| - |tail| + k];
    }
  }

  /** A session that is not doomed hears again, after as many folds as it takes. */
  lemma {:induction false} HearsAgain(budget: int, depth: int, ops: seq<Op>, user: int) returns (more: seq<Op>)
    requires budget >= 0 && !Doomed(Waiting(Run(budget, depth, ops).db, user), budget)
    ensures KeepsSession(more, user)
    ensures !Unheard(Run(budget, depth, ops + more).db, budget, depth, user, "s",
                     |Run(budget, depth, ops).db.messages|)
    decreases |Waiting(Run(budget, depth, ops).db, user)|
  {
    hide Run, Step, Waiting, Unheard, Inv, Chars, Condense;
    var s := Run(budget, depth, ops);
    var all := Waiting(s.db, user);
    RunFoldsExactly(budget, depth, ops);
    if |all| < MAX_SCAN {
      more := [Say(user, true, "")];
      RunSnoc(budget, depth, ops, more[0]);
      SayIsHeard(s, budget, depth, user);
    } else {
      var call := Call(user, "s");
      RunSnoc(budget, depth, ops, call);
      CallShifts(s, budget, depth, user);
      var rest := HearsAgain(budget, depth, ops + [call], user);
      more := [call] + rest;
      assert ops + more == (ops + [call]) + rest;
    }
  }

  lemma RunSnoc(budget: int, depth: int, ops: seq<Op>, op: Op)
    ensures Run(budget, depth, ops + [op]) == Step(Run(budget, depth, ops), budget, depth, op)
  {
    hide Step;
    assert (ops + [op])[..|ops|] == ops;
  }

  lemma SayIsHeard(s: State, budget: int, depth: int, user: int)
    requires Inv(s) && budget >= 0 && |Waiting(s.db, user)| < MAX_SCAN
    ensures !Unheard(Step(s, budget, depth, Say(user, true, "")).db, budget, depth, user, "s", |s.db.messages|)
  {
    hide Chars, Condense, SessionEpoch, Turns, Watermark, SessionInv;
    var now, m := Step(s, budget, depth, Say(user, true, "")).db, Message(|s.db.messages| + 1, user, User, "");
    SaidLast(s, m, user);
    var all := Waiting(now, user);
    assert all[|all| - 1] == m;
    NewestIsSeen(now, budget, depth, user, SessionEpoch(now.messages, user), "s");
  }

  lemma CallShifts(s: State, budget: int, depth: int, user: int)
    requires Inv(s) && budget >= 0 && |Waiting(s.db, user)| >= MAX_SCAN
    requires Chars(Waiting(s.db, user)[..MAX_SCAN]) > budget
    ensures var now := Step(s, budget, depth, Call(user, "s")).db;
            && now.messages == s.db.messages
            && Waiting(now, user) == Waiting(s.db, user)[MAX_SCAN - KEEP_RECENT..]
  {
    hide Chars, Condense, Turns, SessionEpoch, Watermark, SessionInv;
    var epoch := SessionEpoch(s.db.messages, user);
    MarkWithin(s, user);
    CallFoldsPrefix(s.db, budget, depth, user, epoch, "s");
    FoldShifts(s.db, budget, depth, user, epoch, "s");
  }

  /**
   Exactly which sessions are lost, told from the turns waiting: however the run goes on
   without a new session of the user, no call returns anything that was said after this
   moment, if and only if the session is doomed.
   */
  lemma DoomedExactly(budget: int, depth: int, ops: seq<Op>, user: int)
    requires budget >= 0
    ensures var db := Run(budget, depth, ops).db;
            Doomed(Unfolded(db, user, SessionEpoch(db.messages, user)), budget) <==>
              forall more, reply :: KeepsSession(more, user) ==>
                Unheard(Run(budget, depth, ops + more).db, budget, depth, user, reply, |db.messages|)
  {
    hide Run, Unheard, SessionEpoch, Unfolded, Chars;
    var db := Run(budget, depth, ops).db;
    if Doomed(Waiting(db, user), budget) {
      forall more, reply | KeepsSession(more, user)
        ensures Unheard(Run(budget, depth, ops + more).db, budget, depth, user, reply, |db.messages|)
      {
        var left := DoomedRun(budget, depth, ops, more, user);
        FrontIsAll(Run(budget, depth, ops + more).db, budget, depth, user, reply, left, |db.messages|);
      }
    } else {
      var more := HearsAgain(budget, depth, ops, user);
    }
  }

  // ---- a session that gets stuck --------------------------------------------------------

  function Chatter(n: nat): seq<Op> { seq(n, i => Say(0, true, "x")) }

  function Log(n: nat): seq<Message> { seq(n, i requires i >= 0 => Message(i + 1, 0, User, "x")) }

  lemma {:induction false} ChatterLog(budget: int, depth: int, n: nat)
    ensures Run(budget, depth, Chatter(n)) == State(Db(Log(n), map[]), map[])
  {
    if n == 0 {
      assert Log(0) == [];
    } else {
      ChatterLog(budget, depth, n - 1);
      assert Chatter(n)[..n - 1] == Chatter(n - 1);
      assert Log(n) == Log(n - 1) + [Message(n, 0, User, "x")];
    }
  }

  lemma {:induction false} LogTurns(n: nat, k: nat)
    requires k <= n
    ensures Turns(Log(n), 0, 0, k) == Log(k)
    decreases k
  {
    hide SessionEpoch, Chars;
    if k > 0 {
      LogTurns(n, k - 1);
      assert Log(k) == Log(k - 1) + [Log(n)[k - 1]];
    } else {
      assert Log(0) == [];
    }
  }

  lemma {:induction false} LogSize(k: nat)
    ensures SessionEpoch(Log(k), 0) == 0 && Chars(Log(k)) == k
    decreases k
  {
    hide Turns;
    if k > 0 {
      LogSize(k - 1);
      assert Log(k)[..k - 1] == Log(k - 1);
    }
  }

  /** It does happen: after 401 one-letter messages no call returns the last one. */
  lemma StuckExample(budget: int, depth: int)
    requires budget >= 400
    ensures var db := Run(budget, depth, Chatter(401)).db;
            && SessionEpoch(db.messages, 0) == 0
            && Stuck(db, budget, 0, 0)
            && |Unfolded(db, 0, 0)| > MAX_SCAN
  {
    hide Run, Chars, Turns, SessionEpoch;
    ChatterLog(budget, depth, 401);
    LogTurns(401, 401);
    LogTurns(401, 400);
    LogSize(401);
    LogSize(400);
    assert Log(401)[..400] == Log(400);
  }
}
