/**
 Calls of one user that overlap (chic/agent/agent.py, `handle`). Nothing makes a call
 wait for another, so between any two of its awaits other calls read and store. Every
 stored summary is kept here together with the one it was made from.
 */
module OverlappingCalls {
  import opened Basics
  import opened DialogStore
  import RollingSummary

  /** A stored summary: which one it extends (at first none), by which turns, and up to where. */
  datatype Version = Version(
    user: int, epoch: nat, text: string, upTo: nat, base: Option<nat>, folded: seq<Message>)

  /** How far a call has got: it knows its session, has read its summary, awaits the new one. */
  datatype Task =
    | Begun(user: int, epoch: nat)
    | Informed(user: int, epoch: nat, base: Option<nat>, mark: nat)
    | Summarising(user: int, epoch: nat, base: Option<nat>, mark: nat, batch: seq<Message>, recent: seq<Message>)

  /** What a call shows: a stored summary, the turns it passes over, and the tail. */
  datatype Answer = Answer(user: int, epoch: nat, summary: Option<nat>, missed: seq<Message>, tail: seq<Message>)

  datatype State = State(db: Db, tasks: map<int, Task>, versions: seq<Version>, answers: seq<Answer>)

  /** What can happen between two awaits. */
  datatype Event =
    | Say(user: int, fromUser: bool, content: string)
    | NewSession(user: int)
    | Begin(task: int, user: int)
    | ReadSummary(task: int)
    | ReadTurns(task: int)
    | Reply(task: int, text: string)

  const START := State(EMPTY, map[], [], [])

  /** The position of the session's last stored summary. */
  function Newest(versions: seq<Version>, user: int, epoch: nat): Option<nat> {
    if versions == [] then None
    else
      var k := |versions| - 1;
      if versions[k].user == user && versions[k].epoch == epoch then Some(k) else Newest(versions[..k], user, epoch)
  }

  /** Up to where a summary reaches that extends `base`, before it does. */
  function BaseMark(versions: seq<Version>, base: Option<nat>, epoch: nat): nat {
    if base.Some? && base.value < |versions| then versions[base.value].upTo else epoch
  }

  function BatchEnd(t: Task): nat
    requires t.Summarising? && t.batch != []
  {
    t.batch[|t.batch| - 1].id
  }

  function Answered(s: State, a: Answer): State { s.(answers := s.answers + [a]) }

  /** A call has its turns: it folds all but the last six, or shows them all and is done. */
  function TurnsRead(s: State, budget: int, task: int, t: Task): State
    requires t.Informed?
  {
    var scan := MessagesSince(s.db, t.user, t.mark, RollingSummary.MAX_SCAN);
    if RollingSummary.Folds(budget, scan) then
      var k := |scan| - RollingSummary.KEEP_RECENT;
      s.(tasks := s.tasks[task := Summarising(t.user, t.epoch, t.base, t.mark, scan[..k], scan[k..])])
    else Answered(s.(tasks := s.tasks - {task}), Answer(t.user, t.epoch, t.base, [], scan))
  }

  function Stored(s: State, t: Task, text: string): State
    requires t.Summarising? && t.batch != []
  {
    State(s.db.(summaries := s.db.summaries[(t.user, t.epoch) := Summary(text, BatchEnd(t))]), s.tasks,
          s.versions + [Version(t.user, t.epoch, text, BatchEnd(t), t.base, t.batch)], s.answers)
  }

  /** An event that does not fit where the call stands, or a budget that disables summaries, does nothing. */
  function Step(s: State, budget: int, e: Event): State {
    match e
    case Say(user, fromUser, content) =>
      s.(db := Append(s.db, user, if fromUser then User else Assistant, content))
    case NewSession(user) => s.(db := Append(s.db, user, Reset, ""))
    case Begin(task, user) =>
      if task in s.tasks || budget < 0 then s
      else s.(tasks := s.tasks[task := Begun(user, SessionEpoch(s.db.messages, user))])
    case ReadSummary(task) =>
      if task !in s.tasks || !s.tasks[task].Begun? then s
      else
        var t := s.tasks[task];
        var base, mark := Newest(s.versions, t.user, t.epoch), RollingSummary.Watermark(s.db, t.user, t.epoch);
        s.(tasks := s.tasks[task := Informed(t.user, t.epoch, base, mark)])
    case ReadTurns(task) =>
      if task !in s.tasks || !s.tasks[task].Informed? then s else TurnsRead(s, budget, task, s.tasks[task])
    case Reply(task, text) =>
      if task !in s.tasks || !s.tasks[task].Summarising? || s.tasks[task].batch == [] then s
      else
        var t, next, done := s.tasks[task], Take(text, RollingSummary.MAX_SUMMARY_CHARS),
                             s.(tasks := s.tasks - {task});
        // A failed summary leaves its batch neither summarised nor shown.
        if next == "" then Answered(done, Answer(t.user, t.epoch, t.base, t.batch, t.recent))
        else Answered(Stored(done, t, next), Answer(t.user, t.epoch, Some(|s.versions|), [], t.recent))
  }

  function Run(budget: int, events: seq<Event>): State {
    if events == [] then START else Step(Run(budget, events[..|events| - 1]), budget, events[|events| - 1])
  }

  // ---- the invariant ---------------------------------------------------------------

  ghost predicate Fits(versions: seq<Version>, base: Option<nat>, user: int, epoch: nat) {
    base.Some? ==>
      && base.value < |versions|
      && versions[base.value].user == user && versions[base.value].epoch == epoch
  }

  /** The turns of `user` that take a summary from `mark` to `end`. */
  ghost predicate Extends(messages: seq<Message>, user: int, mark: nat, end: nat, folded: seq<Message>) {
    mark < end <= |messages| && folded == Turns(messages, user, mark, end)
  }

  ghost predicate VersionInv(versions: seq<Version>, messages: seq<Message>, i: nat)
    requires i < |versions|
  {
    var v := versions[i];
    && Fits(versions[..i], v.base, v.user, v.epoch)
    && Extends(messages, v.user, BaseMark(versions[..i], v.base, v.epoch), v.upTo, v.folded)
    && v.epoch < v.upTo
  }

  ghost predicate TaskInv(versions: seq<Version>, messages: seq<Message>, t: Task) {
    t.epoch <= |messages| &&
    (!t.Begun? ==>
       && Fits(versions, t.base, t.user, t.epoch)
       && t.mark == BaseMark(versions, t.base, t.epoch) <= |messages| && t.epoch <= t.mark)
    && (t.Summarising? ==>
          t.batch != [] && Extends(messages, t.user, t.mark, BatchEnd(t), t.batch)
          && Follows(messages, t.user, t.mark, t.batch + t.recent))
  }

  /** `shown` are the user's first turns after `mark`. */
  ghost predicate Follows(messages: seq<Message>, user: int, mark: nat, shown: seq<Message>) {
    mark <= |messages| && shown <= Turns(messages, user, mark, |messages|)
  }

  ghost predicate AnswerInv(versions: seq<Version>, messages: seq<Message>, a: Answer) {
    && Fits(versions, a.summary, a.user, a.epoch)
    && Follows(messages, a.user, BaseMark(versions, a.summary, a.epoch), a.missed + a.tail)
  }

  /** What is stored for a session is its newest version. */
  ghost predicate StoresNewest(db: Db, versions: seq<Version>) {
    forall user: int, epoch: nat :: GetSummary(db, user, epoch) == NewestSummary(versions, user, epoch)
  }

  function NewestSummary(versions: seq<Version>, user: int, epoch: nat): Summary {
    var i := Newest(versions, user, epoch);
    if i.Some? && i.value < |versions| then Summary(versions[i.value].text, versions[i.value].upTo) else Summary("", 0)
  }

  ghost predicate Inv(s: State) {
    && Numbered(s.db.messages)
    && (forall i :: 0 <= i < |s.versions| ==> VersionInv(s.versions, s.db.messages, i))
    && (forall task :: task in s.tasks ==> TaskInv(s.versions, s.db.messages, s.tasks[task]))
    && (forall i :: 0 <= i < |s.answers| ==> AnswerInv(s.versions, s.db.messages, s.answers[i]))
    && StoresNewest(s.db, s.versions)
  }

  lemma {:induction false} NewestFits(versions: seq<Version>, user: int, epoch: nat)
    ensures Fits(versions, Newest(versions, user, epoch), user, epoch)
    decreases |versions|
  {
    if versions != [] {
      NewestFits(versions[..|versions| - 1], user, epoch);
    }
  }

  /** The mark read from the store is that of the newest version. */
  lemma MarkIsNewest(s: State, user: int, epoch: nat)
    requires Inv(s) && epoch <= |s.db.messages|
    ensures RollingSummary.Watermark(s.db, user, epoch) == BaseMark(s.versions, Newest(s.versions, user, epoch), epoch)
    ensures epoch <= RollingSummary.Watermark(s.db, user, epoch) <= |s.db.messages|
  {
    hide Turns, Newest;
    NewestFits(s.versions, user, epoch);
    assert GetSummary(s.db, user, epoch) == NewestSummary(s.versions, user, epoch);
    var i := Newest(s.versions, user, epoch);
    if i.Some? {
      assert VersionInv(s.versions, s.db.messages, i.value);
    }
  }

  lemma ExtendsStable(messages: seq<Message>, m: Message, user: int, mark: nat, end: nat, folded: seq<Message>)
    requires Extends(messages, user, mark, end, folded)
    ensures Extends(messages + [m], user, mark, end, folded)
  {
    TurnsStable(messages, [m], user, mark, end);
  }

  lemma FollowsStable(messages: seq<Message>, m: Message, user: int, mark: nat, shown: seq<Message>)
    requires Follows(messages, user, mark, shown)
    ensures Follows(messages + [m], user, mark, shown)
  {
    TurnsStable(messages, [m], user, mark, |messages|);
  }

  /** After a batch come the turns that were read with it. */
  lemma FollowsBatch(messages: seq<Message>, t: Task)
    requires t.Summarising? && t.batch != [] && Extends(messages, t.user, t.mark, BatchEnd(t), t.batch)
    requires Follows(messages, t.user, t.mark, t.batch + t.recent)
    ensures Follows(messages, t.user, BatchEnd(t), t.recent)
  {
    TurnsSplit(messages, t.user, t.mark, BatchEnd(t), |messages|);
    PrefixAfter(t.batch, t.recent, Turns(messages, t.user, BatchEnd(t), |messages|));
  }

  lemma PrefixAfter(a: seq<Message>, b: seq<Message>, c: seq<Message>)
    ensures a + b <= a + c <==> b <= c
  {
    if a + b <= a + c {
      assert b == (a + b)[|a|..] && c == (a + c)[|a|..];
      assert (a + b)[|a|..] == (a + c)[|a|..|a + b|];
    }
  }

  lemma AppendInv(s: State, m: Message)
    requires Inv(s) && m.id == |s.db.messages| + 1
    ensures Inv(s.(db := s.db.(messages := s.db.messages + [m])))
  {
    hide Extends, Newest, BaseMark, Follows;
    var messages := s.db.messages;
    forall i | 0 <= i < |s.versions|
      ensures VersionInv(s.versions, messages + [m], i)
    {
      assert VersionInv(s.versions, messages, i);
      var v := s.versions[i];
      ExtendsStable(messages, m, v.user, BaseMark(s.versions[..i], v.base, v.epoch), v.upTo, v.folded);
    }
    forall task | task in s.tasks
      ensures TaskInv(s.versions, messages + [m], s.tasks[task])
    {
      var t := s.tasks[task];
      assert TaskInv(s.versions, messages, t);
      if t.Summarising? {
        ExtendsStable(messages, m, t.user, t.mark, BatchEnd(t), t.batch);
        FollowsStable(messages, m, t.user, t.mark, t.batch + t.recent);
      }
    }
    forall i | 0 <= i < |s.answers|
      ensures AnswerInv(s.versions, messages + [m], s.answers[i])
    {
      var a := s.answers[i];
      assert AnswerInv(s.versions, messages, a);
      FollowsStable(messages, m, a.user, BaseMark(s.versions, a.summary, a.epoch), a.missed + a.tail);
    }
    forall user: int, epoch: nat
      ensures GetSummary(s.db.(messages := messages + [m]), user, epoch) == NewestSummary(s.versions, user, epoch)
    {
      assert GetSummary(s.db, user, epoch) == NewestSummary(s.versions, user, epoch);
    }
  }

  /** The batch of a scan is every turn from the mark to its last one. */
  lemma BatchExtends(db: Db, budget: int, user: int, mark: nat)
    requires Numbered(db.messages) && mark <= |db.messages|
    ensures var scan := MessagesSince(db, user, mark, RollingSummary.MAX_SCAN);
            RollingSummary.Folds(budget, scan) ==>
              var batch := scan[..|scan| - RollingSummary.KEEP_RECENT];
              batch != [] && Extends(db.messages, user, mark, batch[|batch| - 1].id, batch)
    ensures Follows(db.messages, user, mark, MessagesSince(db, user, mark, RollingSummary.MAX_SCAN))
  {
    hide RollingSummary.Chars, Turns;
    var all := Turns(db.messages, user, mark, |db.messages|);
    var scan := MessagesSince(db, user, mark, RollingSummary.MAX_SCAN);
    if RollingSummary.Folds(budget, scan) {
      var k := |scan| - RollingSummary.KEEP_RECENT;
      assert scan[..k] == all[..k];
      PrefixIsTurns(db.messages, user, mark, |db.messages|, k);
    }
  }

  lemma NewestSnoc(versions: seq<Version>, v: Version, user: int, epoch: nat)
    ensures Newest(versions + [v], user, epoch)
         == if v.user == user && v.epoch == epoch then Some(|versions|) else Newest(versions, user, epoch)
  {
    assert (versions + [v])[..|versions|] == versions;
  }

  lemma OlderFits(versions: seq<Version>, v: Version, base: Option<nat>, user: int, epoch: nat)
    requires Fits(versions, base, user, epoch)
    ensures Fits(versions + [v], base, user, epoch)
    ensures BaseMark(versions + [v], base, epoch) == BaseMark(versions, base, epoch)
  {
  }

  lemma VersionsStored(s: State, t: Task, text: string)
    requires Inv(s) && t.Summarising? && TaskInv(s.versions, s.db.messages, t)
    ensures var s' := Stored(s, t, text);
            forall i :: 0 <= i < |s'.versions| ==> VersionInv(s'.versions, s'.db.messages, i)
  {
    hide Newest, StoresNewest, Fits, BaseMark, Extends;
    var s' := Stored(s, t, text);
    var n := |s.versions|;
    forall i | 0 <= i < n + 1
      ensures VersionInv(s'.versions, s'.db.messages, i)
    {
      assert s'.versions[..i] == s.versions[..i];
      if i < n {
        assert VersionInv(s.versions, s.db.messages, i);
      } else {
        assert s.versions[..n] == s.versions;
        BatchBeyond(s.versions, s.db.messages, t);
      }
    }
  }

  lemma BatchBeyond(versions: seq<Version>, messages: seq<Message>, t: Task)
    requires t.Summarising? && TaskInv(versions, messages, t)
    ensures t.epoch <= t.mark < BatchEnd(t) <= |messages|
  {
  }

  lemma StoredInv(s: State, t: Task, text: string)
    requires Inv(s) && t.Summarising? && TaskInv(s.versions, s.db.messages, t)
    ensures Inv(Stored(s, t, text))
  {
    hide Newest, Extends, VersionInv, Fits, BaseMark, Follows;
    var s' := Stored(s, t, text);
    var v := s'.versions[|s.versions|];
    VersionsStored(s, t, text);
    forall task | task in s'.tasks
      ensures TaskInv(s'.versions, s'.db.messages, s'.tasks[task])
    {
      var u := s.tasks[task];
      assert TaskInv(s.versions, s.db.messages, u);
      if !u.Begun? {
        OlderFits(s.versions, v, u.base, u.user, u.epoch);
      }
    }
    forall i | 0 <= i < |s.answers|
      ensures AnswerInv(s'.versions, s'.db.messages, s.answers[i])
    {
      var a := s.answers[i];
      assert AnswerInv(s.versions, s.db.messages, a);
      OlderFits(s.versions, v, a.summary, a.user, a.epoch);
    }
    forall user: int, epoch: nat
      ensures GetSummary(s'.db, user, epoch) == NewestSummary(s'.versions, user, epoch)
    {
      NewestSnoc(s.versions, v, user, epoch);
      NewestFits(s.versions, user, epoch);
      if (v.user, v.epoch) != (user, epoch) {
        SameNewest(s, v, user, epoch);
      }
    }
  }

  lemma SameNewest(s: State, v: Version, user: int, epoch: nat)
    requires StoresNewest(s.db, s.versions) && (v.user, v.epoch) != (user, epoch)
    ensures NewestSummary(s.versions + [v], user, epoch) == GetSummary(s.db, user, epoch)
  {
    hide Newest;
    NewestSnoc(s.versions, v, user, epoch);
    NewestFits(s.versions, user, epoch);
  }

  lemma AnsweredInv(s: State, a: Answer)
    requires Inv(s) && AnswerInv(s.versions, s.db.messages, a)
    ensures Inv(Answered(s, a))
  {
    hide StoresNewest, VersionInv, TaskInv, AnswerInv;
  }

  lemma TurnsReadInv(s: State, budget: int, task: int)
    requires Inv(s) && task in s.tasks && s.tasks[task].Informed?
    ensures Inv(TurnsRead(s, budget, task, s.tasks[task]))
  {
    hide Turns, Newest, VersionInv, StoresNewest, RollingSummary.Chars, MessagesSince, Follows, AnswerInv;
    var t := s.tasks[task];
    assert TaskInv(s.versions, s.db.messages, t);
    BatchExtends(s.db, budget, t.user, t.mark);
    var scan := MessagesSince(s.db, t.user, t.mark, RollingSummary.MAX_SCAN);
    if RollingSummary.Folds(budget, scan) {
      var k := |scan| - RollingSummary.KEEP_RECENT;
      assert scan[..k] + scan[k..] == scan;
    } else {
      var a := Answer(t.user, t.epoch, t.base, [], scan);
      assert [] + scan == scan;
      NewAnswer(s, a);
      AnsweredInv(s.(tasks := s.tasks - {task}), a);
    }
  }

  lemma NewAnswer(s: State, a: Answer)
    requires Fits(s.versions, a.summary, a.user, a.epoch)
    requires Follows(s.db.messages, a.user, BaseMark(s.versions, a.summary, a.epoch), a.missed + a.tail)
    ensures AnswerInv(s.versions, s.db.messages, a)
  {
  }

  lemma ReplyInv(s: State, budget: int, task: int, text: string)
    requires Inv(s) && task in s.tasks && s.tasks[task].Summarising?
    ensures Inv(Step(s, budget, Reply(task, text)))
  {
    hide Turns, Newest, VersionInv, StoresNewest, Follows, Extends, AnswerInv;
    var t, done := s.tasks[task], s.(tasks := s.tasks - {task});
    var next := Take(text, RollingSummary.MAX_SUMMARY_CHARS);
    assert TaskInv(s.versions, s.db.messages, t);
    if next == "" {
      var a := Answer(t.user, t.epoch, t.base, t.batch, t.recent);
      NewAnswer(done, a);
      AnsweredInv(done, a);
    } else {
      var a := Answer(t.user, t.epoch, Some(|s.versions|), [], t.recent);
      StoredInv(done, t, next);
      FollowsBatch(s.db.messages, t);
      assert [] + t.recent == t.recent;
      NewAnswer(Stored(done, t, next), a);
      AnsweredInv(Stored(done, t, next), a);
    }
  }

  lemma StepInv(s: State, budget: int, e: Event)
    requires Inv(s)
    ensures Inv(Step(s, budget, e))
  {
    hide Turns, Newest, Extends, VersionInv, StoresNewest, SessionEpoch, RollingSummary.Chars, MessagesSince, Follows;
    match e
    case Say(user, fromUser, content) =>
      AppendInv(s, Message(|s.db.messages| + 1, user, if fromUser then User else Assistant, content));
    case NewSession(user) => AppendInv(s, Message(|s.db.messages| + 1, user, Reset, ""));
    case Begin(task, user) => EpochIsLastReset(s.db.messages, user);
    case ReadSummary(task) =>
      if task in s.tasks && s.tasks[task].Begun? {
        var t := s.tasks[task];
        assert TaskInv(s.versions, s.db.messages, t);
        MarkIsNewest(s, t.user, t.epoch);
        NewestFits(s.versions, t.user, t.epoch);
      }
    case ReadTurns(task) =>
      if task in s.tasks && s.tasks[task].Informed? {
        assert TaskInv(s.versions, s.db.messages, s.tasks[task]);
        BatchExtends(s.db, budget, s.tasks[task].user, s.tasks[task].mark);
        TurnsReadInv(s, budget, task);
      }
    case Reply(task, text) =>
      if task in s.tasks && s.tasks[task].Summarising? {
        ReplyInv(s, budget, task, text);
      }
  }

  lemma {:induction false} RunInv(budget: int, events: seq<Event>)
    ensures Inv(Run(budget, events))
    decreases |events|
  {
    if events != [] {
      RunInv(budget, events[..|events| - 1]);
      StepInv(Run(budget, events[..|events| - 1]), budget, events[|events| - 1]);
    }
  }

  // ---- what a stored summary covers --------------------------------------------------

  /** All turns that went into version `i`: those of the one it extends, then its own. */
  function Covered(versions: seq<Version>, i: nat): seq<Message>
    requires i < |versions|
  {
    var v := versions[i];
    (if v.base.Some? && v.base.value < i then Covered(versions, v.base.value) else []) + v.folded
  }

  /**
   Under every interleaving, each summary ever stored was made from exactly the user's
   turns after its session's boundary up to its mark, in order and each once.
   */
  lemma {:induction false} CoversExactly(budget: int, events: seq<Event>, i: nat)
    requires i < |Run(budget, events).versions|
    ensures var s := Run(budget, events);
            var v := s.versions[i];
            v.epoch < v.upTo <= |s.db.messages| &&
            Covered(s.versions, i) == Turns(s.db.messages, v.user, v.epoch, v.upTo)
    decreases i
  {
    hide Run, Turns, StoresNewest;
    var s := Run(budget, events);
    var v := s.versions[i];
    RunInv(budget, events);
    assert VersionInv(s.versions, s.db.messages, i);
    if v.base.Some? {
      CoversExactly(budget, events, v.base.value);
      TurnsSplit(s.db.messages, v.user, v.epoch, s.versions[v.base.value].upTo, v.upTo);
    } else {
      assert [] + v.folded == v.folded;
    }
  }

  function CoveredBy(versions: seq<Version>, summary: Option<nat>): seq<Message> {
    if summary.Some? && summary.value < |versions| then Covered(versions, summary.value) else []
  }

  /**
   Under every interleaving, what a call shows is one unbroken run of the user's turns from
   its session's boundary on: those its summary covers, then the tail. Only a failed
   summary leaves a hole between them, its own batch.
   */
  lemma ShowsUnbroken(budget: int, events: seq<Event>, i: nat)
    requires i < |Run(budget, events).answers|
    ensures var s := Run(budget, events);
            var a := s.answers[i];
            Follows(s.db.messages, a.user, a.epoch, CoveredBy(s.versions, a.summary) + a.missed + a.tail)
  {
    hide Run, Turns, StoresNewest, VersionInv, TaskInv;
    var s := Run(budget, events);
    var a, messages := s.answers[i], s.db.messages;
    RunInv(budget, events);
    assert AnswerInv(s.versions, messages, a);
    var covered, mark := CoveredBy(s.versions, a.summary), BaseMark(s.versions, a.summary, a.epoch);
    assert covered + a.missed + a.tail == covered + (a.missed + a.tail);
    if a.summary.Some? {
      CoversExactly(budget, events, a.summary.value);
      TurnsSplit(messages, a.user, a.epoch, mark, |messages|);
      PrefixAfter(covered, a.missed + a.tail, Turns(messages, a.user, mark, |messages|));
    } else {
      assert covered + (a.missed + a.tail) == a.missed + a.tail;
    }
  }

  /** A call leaves turns out exactly when its summary fails. */
  lemma MissesIffFailed(s: State, budget: int, e: Event)
    requires Inv(s) && |Step(s, budget, e).answers| > |s.answers|
    ensures Step(s, budget, e).answers[|s.answers|].missed != [] <==> e.Reply? && e.text == ""
  {
    hide Turns, Newest, VersionInv, StoresNewest, SessionEpoch, MessagesSince, RollingSummary.Folds;
  }

  // ---- a call that nothing overlaps --------------------------------------------------

  function TextOf(versions: seq<Version>, summary: Option<nat>): string {
    if summary.Some? && summary.value < |versions| then versions[summary.value].text else ""
  }

  /** A call up to where it has read its turns. */
  function Started(s: State, budget: int, task: int, user: int): State {
    Step(Step(Step(s, budget, Begin(task, user)), budget, ReadSummary(task)), budget, ReadTurns(task))
  }

  lemma StartedReads(s: State, budget: int, task: int, user: int)
    requires budget >= 0 && task !in s.tasks
    ensures var epoch := SessionEpoch(s.db.messages, user);
            var base, mark := Newest(s.versions, user, epoch), RollingSummary.Watermark(s.db, user, epoch);
            var t := Informed(user, epoch, base, mark);
            Started(s, budget, task, user) == TurnsRead(s.(tasks := s.tasks[task := t]), budget, task, t)
  {
    hide TurnsRead, SessionEpoch, Newest, RollingSummary.Watermark;
    var epoch := SessionEpoch(s.db.messages, user);
    var t := Informed(user, epoch, Newest(s.versions, user, epoch), RollingSummary.Watermark(s.db, user, epoch));
    assert (s.tasks[task := Begun(user, epoch)])[task := t] == s.tasks[task := t];
  }

  /** Left alone, a call stores and shows what the sequential one does. */
  lemma AloneIsCondense(s: State, budget: int, depth: int, task: int, user: int, text: string)
    requires Inv(s) && budget >= 0 && task !in s.tasks
    ensures var epoch := SessionEpoch(s.db.messages, user);
            var out := RollingSummary.Condense(s.db, budget, depth, user, epoch, text);
            var done := Step(Started(s, budget, task, user), budget, Reply(task, text));
            && done.db == out.db && done.tasks == s.tasks && |done.answers| == |s.answers| + 1
            && var a := done.answers[|s.answers|];
               && a.user == user && a.epoch == epoch && a.tail == out.tail
               && TextOf(done.versions, a.summary) == out.summary
  {
    hide Turns, SessionEpoch, Newest, RollingSummary.Chars, VersionInv, TaskInv, AnswerInv, Started;
    var epoch := SessionEpoch(s.db.messages, user);
    StartedReads(s, budget, task, user);
    NewestFits(s.versions, user, epoch);
    assert GetSummary(s.db, user, epoch) == NewestSummary(s.versions, user, epoch);
    assert s.tasks[task := Begun(user, epoch)] - {task} == s.tasks;
    var base, mark := Newest(s.versions, user, epoch), RollingSummary.Watermark(s.db, user, epoch);
    var t := Informed(user, epoch, base, mark);
    assert s.tasks[task := t] - {task} == s.tasks;
    var scan := MessagesSince(s.db, user, mark, RollingSummary.MAX_SCAN);
    assert RollingSummary.Scan(s.db, user, epoch) == scan;
    if RollingSummary.Folds(budget, scan) {
      var k := |scan| - RollingSummary.KEEP_RECENT;
      var u := Summarising(user, epoch, base, mark, scan[..k], scan[k..]);
      assert (s.tasks[task := t])[task := u] == s.tasks[task := u];
      assert s.tasks[task := u] - {task} == s.tasks;
    }
  }

  // ---- when a mark falls -------------------------------------------------------------

  /** The call's batch ends before the mark that is stored by now. */
  predicate Behind(s: State, t: Task) {
    t.Summarising? && t.batch != [] && BatchEnd(t) < RollingSummary.Watermark(s.db, t.user, t.epoch)
  }

  /**
   A session's mark falls exactly when the answer to a call arrives whose batch ends
   before the stored mark, and then another call has stored since this one read.
   */
  lemma MarkFallsIff(s: State, budget: int, e: Event, user: int, epoch: nat)
    requires Inv(s)
    ensures var falls := RollingSummary.Watermark(Step(s, budget, e).db, user, epoch)
                         < RollingSummary.Watermark(s.db, user, epoch);
            falls <==>
              e.Reply? && e.text != "" && e.task in s.tasks && Behind(s, s.tasks[e.task])
              && (s.tasks[e.task].user, s.tasks[e.task].epoch) == (user, epoch)
    ensures e.Reply? && e.task in s.tasks && Behind(s, s.tasks[e.task]) ==>
              s.tasks[e.task].base != Newest(s.versions, s.tasks[e.task].user, s.tasks[e.task].epoch)
  {
    hide Turns, Newest, VersionInv, StoresNewest, SessionEpoch, MessagesSince, RollingSummary.Chars;
    if e.Reply? && e.task in s.tasks && s.tasks[e.task].Summarising? {
      var t := s.tasks[e.task];
      assert TaskInv(s.versions, s.db.messages, t);
      MarkIsNewest(s, t.user, t.epoch);
    }
  }

  // ---- when a batch leaves its session -------------------------------------------------

  /** Call `task` reads its turns, if it is about to, while its session is still the user's current one. */
  ghost predicate Current(s: State, task: int) {
    task in s.tasks && s.tasks[task].Informed? ==>
      SessionEpoch(s.db.messages, s.tasks[task].user) == s.tasks[task].epoch
  }

  ghost predicate ReadsCurrent(budget: int, events: seq<Event>) {
    forall j :: 0 <= j < |events| && events[j].ReadTurns? ==> Current(Run(budget, events[..j]), events[j].task)
  }

  ghost predicate Within(messages: seq<Message>, user: int, epoch: nat, end: nat) {
    end <= |messages| && RollingSummary.OneSession(messages, user, epoch, end)
  }

  ghost predicate SessionInv(s: State) {
    && (forall i :: 0 <= i < |s.versions| ==>
          Within(s.db.messages, s.versions[i].user, s.versions[i].epoch, s.versions[i].upTo))
    && (forall task :: task in s.tasks ==> BatchWithin(s.db.messages, s.tasks[task]))
  }

  ghost predicate BatchWithin(messages: seq<Message>, t: Task) {
    t.Summarising? && t.batch != [] ==> Within(messages, t.user, t.epoch, BatchEnd(t))
  }

  lemma StepStaysInSession(s: State, budget: int, e: Event)
    requires Inv(s) && SessionInv(s) && (e.ReadTurns? ==> Current(s, e.task))
    ensures SessionInv(Step(s, budget, e))
  {
    hide Turns, Newest, VersionInv, StoresNewest, SessionEpoch, MessagesSince, RollingSummary.Chars;
    if e.ReadTurns? && e.task in s.tasks && s.tasks[e.task].Informed? {
      var t := s.tasks[e.task];
      assert TaskInv(s.versions, s.db.messages, t);
      BatchExtends(s.db, budget, t.user, t.mark);
      EpochIsLastReset(s.db.messages, t.user);
    }
  }

  /**
   If every call reads its turns while its session is the current one, no summary ever
   covers a turn of another session.
   */
  lemma {:induction false} StaysInSession(budget: int, events: seq<Event>)
    requires ReadsCurrent(budget, events)
    ensures SessionInv(Run(budget, events))
    decreases |events|
  {
    hide Step, Inv, SessionInv, Current;
    if events == [] {
      StartsInSession();
    } else {
      var k := |events| - 1;
      var before := events[..k];
      forall j | 0 <= j < k && before[j].ReadTurns?
        ensures Current(Run(budget, before[..j]), before[j].task)
      {
        assert before[..j] == events[..j];
      }
      StaysInSession(budget, before);
      RunInv(budget, before);
      StepStaysInSession(Run(budget, before), budget, events[k]);
    }
  }

  lemma StartsInSession()
    ensures SessionInv(START)
  {
  }

  /**
   A call that reads its turns later stays in its session exactly when the session still
   has as many turns above the mark as the batch takes. `next` is the position of the
   user's next boundary, or the end of the log.
   */
  lemma BatchStaysIff(db: Db, budget: int, user: int, epoch: nat, mark: nat, next: nat)
    requires Numbered(db.messages) && epoch <= mark <= next <= |db.messages|
    requires RollingSummary.OneSession(db.messages, user, epoch, next)
    requires next < |db.messages| ==> db.messages[next].user == user && db.messages[next].role == Reset
    requires RollingSummary.Folds(budget, MessagesSince(db, user, mark, RollingSummary.MAX_SCAN))
    ensures var scan := MessagesSince(db, user, mark, RollingSummary.MAX_SCAN);
            var batch := scan[..|scan| - RollingSummary.KEEP_RECENT];
            batch != [] &&
            (Within(db.messages, user, epoch, batch[|batch| - 1].id) <==>
               |batch| <= |Turns(db.messages, user, mark, next)|)
  {
    hide RollingSummary.Chars, Turns;
    var messages, n := db.messages, |db.messages|;
    var scan := MessagesSince(db, user, mark, RollingSummary.MAX_SCAN);
    var k := |scan| - RollingSummary.KEEP_RECENT;
    var batch, own := scan[..k], Turns(messages, user, mark, next);
    BatchExtends(db, budget, user, mark);
    TurnsSplit(messages, user, mark, next, n);
    assert batch == Turns(messages, user, mark, n)[..k];
    var end := batch[k - 1].id;
    if k <= |own| {
      assert batch == own[..k];
      PrefixIsTurns(messages, user, mark, next, k);
    } else if end <= next {
      TurnsSplit(messages, user, mark, end, next);
    }
  }

  lemma RunSnoc(budget: int, events: seq<Event>, e: Event)
    ensures Run(budget, events + [e]) == Step(Run(budget, events), budget, e)
  {
    assert (events + [e])[..|events|] == events;
  }

  // ---- both do happen: a mark that falls -----------------------------------------------

  function Chatter(n: nat): seq<Event> { seq(n, i => Say(0, true, "x")) }

  lemma {:induction false} ChatterLog(budget: int, n: nat)
    ensures Run(budget, Chatter(n)) == State(Db(RollingSummary.Log(n), map[]), map[], [], [])
  {
    if n == 0 {
      assert RollingSummary.Log(0) == [];
    } else {
      ChatterLog(budget, n - 1);
      assert Chatter(n) == Chatter(n - 1) + [Say(0, true, "x")];
      RunSnoc(budget, Chatter(n - 1), Say(0, true, "x"));
      assert RollingSummary.Log(n) == RollingSummary.Log(n - 1) + [Message(n, 0, User, "x")];
    }
  }

  /** A call that starts with `n` turns in the log, and is about to fold all but six. */
  function Reads(task: int): seq<Event> { [Begin(task, 0), ReadSummary(task), ReadTurns(task)] }

  function Folding(n: nat): Task {
    Summarising(0, 0, None, 0, RollingSummary.Log(n), RollingSummary.Log(n + 6)[n..])
  }

  lemma ReadsBatch(events: seq<Event>, n: nat, task: int, tasks: map<int, Task>)
    requires 7 <= n <= 400 && task !in tasks
    requires Run(0, events) == State(Db(RollingSummary.Log(n), map[]), tasks, [], [])
    ensures Run(0, events + Reads(task))
         == State(Db(RollingSummary.Log(n), map[]), tasks[task := Folding(n - 6)], [], [])
  {
    hide Turns, SessionEpoch, RollingSummary.Chars, Run;
    var log, begun := RollingSummary.Log(n), events + [Begin(task, 0)];
    RunSnoc(0, events, Begin(task, 0));
    RunSnoc(0, begun, ReadSummary(task));
    RunSnoc(0, begun + [ReadSummary(task)], ReadTurns(task));
    assert events + Reads(task) == begun + [ReadSummary(task)] + [ReadTurns(task)];
    RollingSummary.LogTurns(n, n);
    RollingSummary.LogSize(n);
    assert log[..n - 6] == RollingSummary.Log(n - 6);
    assert (tasks[task := Begun(0, 0)])[task := Informed(0, 0, None, 0)] == tasks[task := Informed(0, 0, None, 0)];
    assert (tasks[task := Informed(0, 0, None, 0)])[task := Folding(n - 6)] == tasks[task := Folding(n - 6)];
  }

  /** A call with seven turns, overtaken by one with eight: the mark goes to 2 and back to 1. */
  lemma MarkCanFall() returns (events: seq<Event>)
    ensures events != []
    ensures RollingSummary.Watermark(Run(0, events[..|events| - 1]).db, 0, 0) == 2
    ensures RollingSummary.Watermark(Run(0, events).db, 0, 0) == 1
  {
    hide Run, Turns, RollingSummary.Log, Newest;
    var one := Chatter(7) + Reads(1);
    ChatterLog(0, 7);
    ReadsBatch(Chatter(7), 7, 1, map[]);
    var said := one + [Say(0, true, "x")];
    RunSnoc(0, one, Say(0, true, "x"));
    LogSnoc(7);
    ReadsBatch(said, 8, 2, map[1 := Folding(1)]);
    var two := said + Reads(2);
    RunSnoc(0, two, Reply(2, "b"));
    RunSnoc(0, two + [Reply(2, "b")], Reply(1, "a"));
    LogEnds(1);
    LogEnds(2);
    events := two + [Reply(2, "b")] + [Reply(1, "a")];
    assert events[..|events| - 1] == two + [Reply(2, "b")];
  }

  lemma LogSnoc(n: nat)
    ensures RollingSummary.Log(n) + [Message(n + 1, 0, User, "x")] == RollingSummary.Log(n + 1)
    ensures |RollingSummary.Log(n)| == n
  {
  }

  lemma LogEnds(n: nat)
    requires n >= 1
    ensures RollingSummary.Log(n) != [] && BatchEnd(Folding(n)) == n
  {
  }

  // ---- … and a batch that leaves its session ---------------------------------------------

  /** A boundary and `n` turns after it. */
  function Restarted(n: nat): seq<Message> {
    [Message(1, 0, Reset, "")] + seq(n, i requires i >= 0 => Message(i + 2, 0, User, "x"))
  }

  lemma RestartedSnoc(n: nat)
    ensures Restarted(n) + [Message(n + 2, 0, User, "x")] == Restarted(n + 1)
    ensures |Restarted(n)| == n + 1
  {
  }

  lemma {:induction false} RestartedTurns(n: nat, k: nat)
    requires k <= n
    ensures Turns(Restarted(n), 0, 0, k + 1) == Restarted(k)[1..]
    decreases k
  {
    if k > 0 {
      RestartedTurns(n, k - 1);
      assert Restarted(k)[1..] == Restarted(k - 1)[1..] + [Restarted(n)[k]];
    } else {
      assert Turns(Restarted(n), 0, 0, 0) == [];
    }
  }

  lemma {:induction false} RestartedChars(k: nat)
    ensures RollingSummary.Chars(Restarted(k)[1..]) == k
    decreases k
  {
    if k > 0 {
      RestartedChars(k - 1);
      assert Restarted(k)[1..][..k - 1] == Restarted(k - 1)[1..];
    }
  }

  lemma {:induction false} RestartedRun(n: nat)
    ensures Run(0, [Begin(1, 0), NewSession(0)] + Chatter(n))
         == State(Db(Restarted(n), map[]), map[1 := Begun(0, 0)], [], [])
  {
    var first := [Begin(1, 0), NewSession(0)];
    if n == 0 {
      assert first == ([] + [Begin(1, 0)]) + [NewSession(0)];
      RunSnoc(0, [], Begin(1, 0));
      RunSnoc(0, [] + [Begin(1, 0)], NewSession(0));
      assert first + Chatter(0) == first;
      assert Restarted(0) == [Message(1, 0, Reset, "")];
    } else {
      RestartedRun(n - 1);
      assert first + Chatter(n) == (first + Chatter(n - 1)) + [Say(0, true, "x")];
      RunSnoc(0, first + Chatter(n - 1), Say(0, true, "x"));
      RestartedSnoc(n - 1);
    }
  }

  /** A call that began before `/new` reads after seven new turns, and folds one of them. */
  lemma BatchCanLeave() returns (events: seq<Event>)
    ensures var s := Run(0, events);
            && |s.versions| == 1 && s.versions[0].epoch == 0 && s.versions[0].upTo == 2
            && SessionEpoch(s.db.messages, 0) == 1
            && !Within(s.db.messages, 0, 0, 2)
  {
    hide Run, Turns, RollingSummary.Chars, Restarted;
    var a := [Begin(1, 0), NewSession(0)] + Chatter(7);
    RestartedRun(7);
    RunSnoc(0, a, ReadSummary(1));
    RunSnoc(0, a + [ReadSummary(1)], ReadTurns(1));
    RunSnoc(0, a + [ReadSummary(1)] + [ReadTurns(1)], Reply(1, "a"));
    events := a + [ReadSummary(1)] + [ReadTurns(1)] + [Reply(1, "a")];
    RestartedTurns(7, 7);
    RestartedChars(7);
    RestartedEnds(7);
  }

  lemma {:induction false} RestartedEnds(n: nat)
    ensures |Restarted(n)| == n + 1 && Restarted(n)[0] == Message(1, 0, Reset, "")
    ensures n >= 1 ==> Restarted(n)[1..][0].id == 2
    ensures SessionEpoch(Restarted(n), 0) == 1
  {
    if n > 0 {
      RestartedEnds(n - 1);
      RestartedSnoc(n - 1);
      assert Restarted(n)[..n] == Restarted(n - 1);
    }
  }
}
