/**
 Live frames of concurrent tasks. Each frame has its own task and takes the lock of its chat
 before anything else; a released lock goes to the task that has waited longest.
 */
module Frames {
  import opened Wrappers
  import opened Seqs
  import M = Messages

  /** What a frame does to the tables; a stored message brings a stub of an unknown chat. */
  datatype Effect =
    | Store(id: int, row: M.Row, stub: string)
    | Remove(ids: set<int>, at: int)
    | ChatInfo(chatRow: M.ChatRow)
    | Skip

  /** serial: the frame's place in the order of arrival. */
  datatype Frame = Frame(serial: nat, chat: int, effect: Effect)

  /** The transaction of one frame. */
  function Applied(db: M.Db, f: Frame): M.Db {
    match f.effect
    case Store(id, row, stub) =>
      var known := if f.chat in db.chats then db
                   else M.After(db, M.UpsertChat(f.chat, M.ChatRow(stub, map[], None, None)));
      M.After(known, M.UpsertMessage(f.chat, id, row))
    case Remove(ids, at) => if f.chat in db.chats then M.After(db, M.MarkDeleted(Some(f.chat), ids, at)) else db
    case ChatInfo(row) => M.After(db, M.UpsertChat(f.chat, row))
    case Skip => db
  }

  /** A handled frame; a failed transaction leaves the tables as they were. */
  datatype Handled = Handled(frame: Frame, failed: bool, locked: bool)

  function Outcome(db: M.Db, h: Handled): M.Db {
    if h.failed then db else Applied(db, h.frame)
  }

  function Folded(db: M.Db, hs: seq<Handled>): M.Db {
    if hs == [] then db else Outcome(Folded(db, hs[..|hs| - 1]), hs[|hs| - 1])
  }

  // ---------------------------------------------------------------------------
  // The lock and its tasks
  // ---------------------------------------------------------------------------

  /** Where the task that holds the lock is: journal, then the transaction, then the journal again. */
  datatype Phase = Journaling | Applying | Finishing

  /** A released lock with waiters is free, but its first waiter has been woken. */
  datatype Lock = Lock(holder: Option<(Frame, Phase)>, waiters: seq<Frame>)

  const FREE := Lock(None, [])

  /** arrived: the frames whose tasks have started; done: the transactions that have ended. */
  datatype State = State(db: M.Db, locks: map<int, Lock>, arrived: seq<Frame>, done: seq<Handled>)

  datatype Step =
    | Arrive(frame: Frame)
    | Wake(chat: int)
    | Journaled(chat: int)
    | Commit(chat: int, failed: bool)
    | Release(chat: int)
    | Outside(frame: Frame, failed: bool)

  function LockOf(s: State, chat: int): Lock {
    if chat in s.locks then s.locks[chat] else FREE
  }

  predicate InPhase(l: Lock, p: Phase) {
    l.holder.Some? && l.holder.value.1 == p
  }

  predicate Enabled(s: State, step: Step) {
    match step
    case Arrive(f) => f.serial == |s.arrived|
    case Wake(c) => LockOf(s, c).holder.None? && LockOf(s, c).waiters != []
    case Journaled(c) => InPhase(LockOf(s, c), Journaling)
    case Commit(c, _) => InPhase(LockOf(s, c), Applying)
    case Release(c) => InPhase(LockOf(s, c), Finishing)
    case Outside(_, _) => true
  }

  /** A new task takes a free lock only if nobody waits; else it queues up behind the others. */
  function Acquired(l: Lock, f: Frame): Lock {
    if l.holder.None? && l.waiters == [] then Lock(Some((f, Journaling)), []) else l.(waiters := l.waiters + [f])
  }

  /** Outside: a history page is stored without the lock. */
  function After(s: State, step: Step): State
    requires Enabled(s, step)
  {
    match step
    case Arrive(f) =>
      s.(locks := s.locks[f.chat := Acquired(LockOf(s, f.chat), f)], arrived := s.arrived + [f])
    case Wake(c) =>
      var l := LockOf(s, c);
      s.(locks := s.locks[c := Lock(Some((l.waiters[0], Journaling)), l.waiters[1..])])
    case Journaled(c) =>
      var l := LockOf(s, c);
      s.(locks := s.locks[c := l.(holder := Some((l.holder.value.0, Applying)))])
    case Commit(c, failed) =>
      var l := LockOf(s, c);
      var h := Handled(l.holder.value.0, failed, true);
      s.(db := Outcome(s.db, h), done := s.done + [h],
         locks := s.locks[c := l.(holder := Some((l.holder.value.0, Finishing)))])
    case Release(c) => s.(locks := s.locks[c := LockOf(s, c).(holder := None)])
    case Outside(f, failed) =>
      var h := Handled(f, failed, false);
      s.(db := Outcome(s.db, h), done := s.done + [h])
  }

  // ---------------------------------------------------------------------------
  // The invariant: arrivals of a chat = handled ones + the holder's + the queue
  // ---------------------------------------------------------------------------

  /** The frames of a chat. */
  function Of(fs: seq<Frame>, chat: int): seq<Frame> {
    if fs == [] then []
    else
      var f := fs[|fs| - 1];
      Of(fs[..|fs| - 1], chat) + if f.chat == chat then [f] else []
  }

  /** The frames of a chat handled under its lock. */
  function Queued(hs: seq<Handled>, chat: int): seq<Frame> {
    if hs == [] then []
    else
      var h := hs[|hs| - 1];
      Queued(hs[..|hs| - 1], chat) + if h.locked && h.frame.chat == chat then [h.frame] else []
  }

  /** Frames that have arrived and whose transaction has not ended. */
  function Pending(l: Lock): seq<Frame> {
    (if l.holder.Some? && l.holder.value.1 != Finishing then [l.holder.value.0] else []) + l.waiters
  }

  ghost predicate InOrder(s: State, chat: int) {
    && Of(s.arrived, chat) == Queued(s.done, chat) + Pending(LockOf(s, chat))
    && forall f | f in Pending(LockOf(s, chat)) :: f.chat == chat
  }

  ghost predicate Sound(s: State) {
    && s.db == Folded(M.EMPTY, s.done)
    && (forall i | 0 <= i < |s.arrived| :: s.arrived[i].serial == i)
    && forall chat :: InOrder(s, chat)
  }

  lemma OfAppend(fs: seq<Frame>, f: Frame, chat: int)
    ensures Of(fs + [f], chat) == Of(fs, chat) + if f.chat == chat then [f] else []
  {
    assert (fs + [f])[..|fs|] == fs;
  }

  lemma QueuedAppend(hs: seq<Handled>, h: Handled, chat: int)
    ensures Queued(hs + [h], chat) == Queued(hs, chat) + if h.locked && h.frame.chat == chat then [h.frame] else []
  {
    assert (hs + [h])[..|hs|] == hs;
  }

  lemma FoldedAppend(db: M.Db, hs: seq<Handled>, h: Handled)
    ensures Folded(db, hs + [h]) == Outcome(Folded(db, hs), h)
  {
    assert (hs + [h])[..|hs|] == hs;
  }

  lemma StepKeepsOrder(s: State, step: Step, chat: int)
    requires Enabled(s, step) && InOrder(s, chat)
    requires step.Commit? ==> InOrder(s, step.chat)
    ensures InOrder(After(s, step), chat)
  {
    hide Of, Queued, Outcome, Pending, InOrder, Acquired;
    match step
    case Arrive(f) => ArriveKeepsOrder(s, f, chat);
    case Wake(c) => SameQueue(s, step, c, chat);
    case Journaled(c) => SameQueue(s, step, c, chat);
    case Commit(c, failed) => CommitKeepsOrder(s, c, failed, chat);
    case Release(c) => SameQueue(s, step, c, chat);
    case Outside(f, failed) =>
      QueuedAppend(s.done, Handled(f, failed, false), chat);
      assert Queued(s.done, chat) + [] == Queued(s.done, chat);
      SameInOrder(s, After(s, step), chat);
  }

  lemma SameInOrder(s: State, t: State, chat: int)
    requires InOrder(s, chat) && t.arrived == s.arrived
    requires Pending(LockOf(t, chat)) == Pending(LockOf(s, chat)) && Queued(t.done, chat) == Queued(s.done, chat)
    ensures InOrder(t, chat)
  {
  }

  /** Waking, journaling and releasing leave the order of the pending frames as it is. */
  lemma SameQueue(s: State, step: Step, c: int, chat: int)
    requires (step.Wake? || step.Journaled? || step.Release?) && step.chat == c
    requires Enabled(s, step) && InOrder(s, chat)
    ensures InOrder(After(s, step), chat)
  {
    hide InOrder, Of, Queued;
    var l := LockOf(s, c);
    if step.Wake? {
      assert [l.waiters[0]] + l.waiters[1..] == l.waiters && [] + l.waiters == l.waiters;
    }
    assert Pending(LockOf(After(s, step), chat)) == Pending(LockOf(s, chat));
    SameInOrder(s, After(s, step), chat);
  }

  lemma ArriveKeepsOrder(s: State, f: Frame, chat: int)
    requires Enabled(s, Arrive(f)) && InOrder(s, chat)
    ensures InOrder(After(s, Arrive(f)), chat)
  {
    hide Of, Queued, Acquired, Pending;
    var l, done := LockOf(s, chat), Queued(s.done, chat);
    OfAppend(s.arrived, f, chat);
    if f.chat == chat {
      AcquiredLast(l, f);
      assert done + Pending(l) + [f] == done + (Pending(l) + [f]);
    } else {
      assert Of(s.arrived, chat) + [] == Of(s.arrived, chat);
    }
  }

  lemma AcquiredLast(l: Lock, f: Frame)
    ensures Pending(Acquired(l, f)) == Pending(l) + [f]
  {
  }

  lemma CommitKeepsOrder(s: State, c: int, failed: bool, chat: int)
    requires Enabled(s, Commit(c, failed)) && InOrder(s, chat) && InOrder(s, c)
    ensures InOrder(After(s, Commit(c, failed)), chat)
  {
    hide Of, Queued, Outcome;
    var l := LockOf(s, c);
    var f := l.holder.value.0;
    assert f == Pending(l)[0];
    QueuedAppend(s.done, Handled(f, failed, true), chat);
    if c == chat {
      var done := Queued(s.done, c);
      assert Pending(l.(holder := Some((f, Finishing)))) == l.waiters;
      assert done + ([f] + l.waiters) == (done + [f]) + l.waiters;
    } else {
      assert Queued(s.done, chat) + [] == Queued(s.done, chat);
    }
  }

  lemma StepKeeps(s: State, step: Step)
    requires Sound(s) && Enabled(s, step)
    ensures Sound(After(s, step))
  {
    hide InOrder, Outcome, Folded;
    forall chat
      ensures InOrder(After(s, step), chat)
    {
      assert InOrder(s, chat);
      assert step.Commit? ==> InOrder(s, step.chat);
      StepKeepsOrder(s, step, chat);
    }
    match step
    case Commit(c, failed) => FoldedAppend(M.EMPTY, s.done, Handled(LockOf(s, c).holder.value.0, failed, true));
    case Outside(f, failed) => FoldedAppend(M.EMPTY, s.done, Handled(f, failed, false));
    case _ =>
  }

  const INITIAL := State(M.EMPTY, map[], [], [])

  ghost predicate Follows(s: State, t: State) {
    exists step :: Enabled(s, step) && After(s, step) == t
  }

  ghost predicate StepAt(trace: seq<State>, k: nat)
    requires 0 < k < |trace|
  {
    Follows(trace[k - 1], trace[k])
  }

  ghost predicate IsRun(trace: seq<State>) {
    && trace != [] && trace[0] == INITIAL
    && forall k | 0 < k < |trace| :: StepAt(trace, k)
  }

  lemma {:induction false} RunIsSound(trace: seq<State>)
    requires IsRun(trace)
    ensures Sound(trace[|trace| - 1])
  {
    hide After;
    var n := |trace| - 1;
    if n > 0 {
      forall k | 0 < k < n
        ensures StepAt(trace[..n], k)
      {
        assert StepAt(trace, k);
      }
      RunIsSound(trace[..n]);
      assert StepAt(trace, n);
      var step :| Enabled(trace[n - 1], step) && After(trace[n - 1], step) == trace[n];
      StepKeeps(trace[n - 1], step);
    }
  }

  // ---------------------------------------------------------------------------
  // A chat's rows depend on its own frames only
  // ---------------------------------------------------------------------------

  predicate SameMessage(a: M.Db, b: M.Db, key: (int, int)) {
    (key in a.messages <==> key in b.messages) && (key in a.messages ==> a.messages[key] == b.messages[key])
  }

  ghost predicate SameChat(a: M.Db, b: M.Db, chat: int) {
    && (chat in a.chats <==> chat in b.chats) && (chat in a.chats ==> a.chats[chat] == b.chats[chat])
    && forall id :: SameMessage(a, b, (chat, id))
  }

  /** A frame of another chat changes nothing of this one. */
  lemma OtherChat(db: M.Db, f: Frame, chat: int)
    requires f.chat != chat
    ensures SameChat(Applied(db, f), db, chat)
  {
    hide M.Overwrites, M.MergeChat, M.Touched, M.Merge;
  }

  /** What a frame makes of its chat depends on that chat only. */
  lemma OwnChat(a: M.Db, b: M.Db, f: Frame)
    requires SameChat(a, b, f.chat)
    ensures SameChat(Applied(a, f), Applied(b, f), f.chat)
  {
    hide SameChat, M.After;
    match f.effect
    case Store(id, row, stub) =>
      var info := M.UpsertChat(f.chat, M.ChatRow(stub, map[], None, None));
      assert f.chat in a.chats <==> f.chat in b.chats by { SameKnown(a, b, f.chat); }
      if f.chat in a.chats {
        OwnStore(a, b, f.chat, id, row);
      } else {
        OwnInfo(a, b, f.chat, info.chatRow);
        OwnStore(M.After(a, info), M.After(b, info), f.chat, id, row);
      }
    case Remove(ids, at) =>
      SameKnown(a, b, f.chat);
      OwnRemove(a, b, f.chat, ids, at);
    case ChatInfo(row) => OwnInfo(a, b, f.chat, row);
    case Skip =>
  }

  /** To a chat two states of the tables are the same: its row and each of its messages. */
  lemma SameChatMeans(a: M.Db, b: M.Db, chat: int, id: int)
    requires SameChat(a, b, chat)
    ensures chat in a.chats <==> chat in b.chats
    ensures chat in a.chats ==> a.chats[chat] == b.chats[chat]
    ensures (chat, id) in a.messages <==> (chat, id) in b.messages
    ensures (chat, id) in a.messages ==> a.messages[(chat, id)] == b.messages[(chat, id)]
  {
    assert SameMessage(a, b, (chat, id));
  }

  lemma SameKnown(a: M.Db, b: M.Db, chat: int)
    requires SameChat(a, b, chat)
    ensures chat in a.chats <==> chat in b.chats
  {
  }

  lemma OwnStore(a: M.Db, b: M.Db, chat: int, id: int, row: M.Row)
    requires SameChat(a, b, chat)
    ensures SameChat(M.After(a, M.UpsertMessage(chat, id, row)), M.After(b, M.UpsertMessage(chat, id, row)), chat)
  {
    hide M.Merge, M.Touched;
    assert SameMessage(a, b, (chat, id));
    var x, y := M.After(a, M.UpsertMessage(chat, id, row)), M.After(b, M.UpsertMessage(chat, id, row));
    forall other
      ensures SameMessage(x, y, (chat, other))
    {
      assert SameMessage(a, b, (chat, other));
    }
  }

  lemma OwnRemove(a: M.Db, b: M.Db, chat: int, ids: set<int>, at: int)
    requires SameChat(a, b, chat)
    ensures SameChat(M.After(a, M.MarkDeleted(Some(chat), ids, at)), M.After(b, M.MarkDeleted(Some(chat), ids, at)), chat)
  {
    var x, y := M.After(a, M.MarkDeleted(Some(chat), ids, at)), M.After(b, M.MarkDeleted(Some(chat), ids, at));
    forall id
      ensures SameMessage(x, y, (chat, id))
    {
      assert SameMessage(a, b, (chat, id));
    }
  }

  lemma OwnInfo(a: M.Db, b: M.Db, chat: int, row: M.ChatRow)
    requires SameChat(a, b, chat)
    ensures SameChat(M.After(a, M.UpsertChat(chat, row)), M.After(b, M.UpsertChat(chat, row)), chat)
  {
    hide M.MergeChat;
    var x, y := M.After(a, M.UpsertChat(chat, row)), M.After(b, M.UpsertChat(chat, row));
    forall id
      ensures SameMessage(x, y, (chat, id))
    {
      assert SameMessage(a, b, (chat, id));
    }
  }

  /** The handled frames of a chat, in the order of their transactions. */
  function About(hs: seq<Handled>, chat: int): seq<Handled> {
    if hs == [] then []
    else
      var h := hs[|hs| - 1];
      About(hs[..|hs| - 1], chat) + if h.frame.chat == chat then [h] else []
  }

  lemma {:induction false} FoldOfOwn(hs: seq<Handled>, chat: int)
    ensures SameChat(Folded(M.EMPTY, hs), Folded(M.EMPTY, About(hs, chat)), chat)
  {
    hide Applied;
    if hs != [] {
      var init, h := hs[..|hs| - 1], hs[|hs| - 1];
      FoldOfOwn(init, chat);
      var a, b := Folded(M.EMPTY, init), Folded(M.EMPTY, About(init, chat));
      if h.frame.chat == chat {
        FoldedAppend(M.EMPTY, About(init, chat), h);
        OwnChat(a, b, h.frame);
      } else {
        OtherChat(a, h.frame, chat);
        assert About(hs, chat) == About(init, chat);
        SameChatChains(Applied(a, h.frame), a, b, chat);
      }
    }
  }

  lemma SameChatChains(a: M.Db, b: M.Db, c: M.Db, chat: int)
    requires SameChat(a, b, chat) && SameChat(b, c, chat)
    ensures SameChat(a, c, chat)
  {
    forall id
      ensures SameMessage(a, c, (chat, id))
    {
      assert SameMessage(a, b, (chat, id)) && SameMessage(b, c, (chat, id));
    }
  }

  // ---------------------------------------------------------------------------
  // Linearisation
  // ---------------------------------------------------------------------------

  /**
   FIFO: in every interleaving, the frames of a chat are handled in the order of their
   arrival, and none is skipped.
   */
  lemma HandledInArrivalOrder(trace: seq<State>, chat: int)
    requires IsRun(trace)
    ensures var s := trace[|trace| - 1];
            && Queued(s.done, chat) <= Of(s.arrived, chat)
            && (LockOf(s, chat) == FREE ==> Queued(s.done, chat) == Of(s.arrived, chat))
  {
    hide Of, Queued, Follows;
    RunIsSound(trace);
    assert InOrder(trace[|trace| - 1], chat);
  }

  /** All frames of a chat, handled one by one without a failure. */
  function OneByOne(fs: seq<Frame>): seq<Handled> {
    if fs == [] then [] else OneByOne(fs[..|fs| - 1]) + [Handled(fs[|fs| - 1], false, true)]
  }

  ghost predicate Clean(hs: seq<Handled>, chat: int) {
    forall h | h in hs && h.frame.chat == chat :: h.locked && !h.failed
  }

  lemma {:induction false} CleanFold(hs: seq<Handled>, chat: int)
    requires Clean(hs, chat)
    ensures About(hs, chat) == OneByOne(Queued(hs, chat))
  {
    if hs != [] {
      var init, h := hs[..|hs| - 1], hs[|hs| - 1];
      CleanFold(init, chat);
      if h.frame.chat == chat {
        assert h in hs;
        assert (Queued(init, chat) + [h.frame])[..|Queued(init, chat)|] == Queued(init, chat);
      } else {
        assert Queued(hs, chat) == Queued(init, chat);
      }
    }
  }

  /**
   Linearisation: once a chat is idle, its rows are as if its frames had been handled one by
   one in the order of arrival, whatever the tasks of other chats did meanwhile.
   */
  lemma Linearised(trace: seq<State>, chat: int)
    requires IsRun(trace) && LockOf(trace[|trace| - 1], chat) == FREE && Clean(trace[|trace| - 1].done, chat)
    ensures var s := trace[|trace| - 1];
            SameChat(s.db, Folded(M.EMPTY, OneByOne(Of(s.arrived, chat))), chat)
  {
    hide Of, Queued, Follows, OneByOne, Folded, SameChat, InOrder;
    RunIsSound(trace);
    HandledInArrivalOrder(trace, chat);
    FoldOfOwn(trace[|trace| - 1].done, chat);
    CleanFold(trace[|trace| - 1].done, chat);
  }

  /** With failures and unlocked stores: the chat's transactions, its frames in arrival order among them. */
  lemma LinearisedWithOthers(trace: seq<State>, chat: int)
    requires IsRun(trace)
    ensures var s := trace[|trace| - 1];
            && SameChat(s.db, Folded(M.EMPTY, About(s.done, chat)), chat)
            && Queued(About(s.done, chat), chat) <= Of(s.arrived, chat)
  {
    hide Of, Queued, Follows, Folded, SameChat, InOrder;
    RunIsSound(trace);
    HandledInArrivalOrder(trace, chat);
    FoldOfOwn(trace[|trace| - 1].done, chat);
    QueuedAbout(trace[|trace| - 1].done, chat);
  }

  lemma {:induction false} QueuedAbout(hs: seq<Handled>, chat: int)
    ensures Queued(About(hs, chat), chat) == Queued(hs, chat)
  {
    if hs != [] {
      var init, h := hs[..|hs| - 1], hs[|hs| - 1];
      QueuedAbout(init, chat);
      if h.frame.chat == chat {
        QueuedAppend(About(init, chat), h, chat);
      } else {
        assert About(hs, chat) == About(init, chat);
      }
    }
  }

  // ---------------------------------------------------------------------------
  // Failures, and a frame alone
  // ---------------------------------------------------------------------------

  /** The transactions that did not fail. */
  function Successes(hs: seq<Handled>): seq<Frame> {
    if hs == [] then []
    else Successes(hs[..|hs| - 1]) + if hs[|hs| - 1].failed then [] else [hs[|hs| - 1].frame]
  }

  function AppliedAll(db: M.Db, fs: seq<Frame>): M.Db {
    if fs == [] then db else Applied(AppliedAll(db, fs[..|fs| - 1]), fs[|fs| - 1])
  }

  lemma {:induction false} FoldOfSuccesses(hs: seq<Handled>)
    ensures Folded(M.EMPTY, hs) == AppliedAll(M.EMPTY, Successes(hs))
  {
    hide Applied;
    if hs != [] {
      var init, h := hs[..|hs| - 1], hs[|hs| - 1];
      FoldOfSuccesses(init);
      if h.failed {
        assert Successes(hs) == Successes(init);
      } else {
        assert Successes(hs)[..|Successes(init)|] == Successes(init);
      }
    }
  }

  /** In any run the tables are what the transactions made of them that did not fail, in their order. */
  lemma OnlySuccessesCount(trace: seq<State>)
    requires IsRun(trace)
    ensures var s := trace[|trace| - 1];
            s.db == AppliedAll(M.EMPTY, Successes(s.done))
  {
    hide Of, Queued, Follows, Folded, InOrder;
    RunIsSound(trace);
    FoldOfSuccesses(trace[|trace| - 1].done);
  }

  /** A frame that finds its chat idle is handled at once, and leaves the chat idle. */
  lemma AloneIsHandled(s: State, f: Frame, failed: bool)
    requires f.serial == |s.arrived| && LockOf(s, f.chat) == FREE
    ensures Enabled(s, Arrive(f))
    ensures var a := After(s, Arrive(f));
            && Enabled(a, Journaled(f.chat))
            && var b := After(a, Journaled(f.chat));
               && Enabled(b, Commit(f.chat, failed))
               && var c := After(b, Commit(f.chat, failed));
                  && Enabled(c, Release(f.chat))
                  && var d := After(c, Release(f.chat));
                     && LockOf(d, f.chat) == FREE
                     && d.db == (if failed then s.db else Applied(s.db, f))
                     && d.arrived == s.arrived + [f] && d.done == s.done + [Handled(f, failed, true)]
  {
    hide Applied;
  }

  /** A page of history is stored at any time, whoever holds the chat's lock, and the lock stays as it is. */
  lemma StoredOutside(s: State, f: Frame, failed: bool)
    ensures Enabled(s, Outside(f, failed))
    ensures var t := After(s, Outside(f, failed));
            && t.db == (if failed then s.db else Applied(s.db, f))
            && t.locks == s.locks && t.arrived == s.arrived && t.done == s.done + [Handled(f, failed, false)]
  {
    hide Applied;
  }

  /** What a message makes of the tables: its chat is known afterwards, by a stub if it was not before. */
  lemma StoreMakesKnown(db: M.Db, f: Frame)
    requires f.effect.Store?
    ensures var t := Applied(db, f);
            && f.chat in t.chats && (f.chat, f.effect.id) in t.messages
            && t.chats[f.chat].chatType == (if f.chat in db.chats then db.chats[f.chat].chatType else f.effect.stub)
            && t.chats[f.chat].details == (if f.chat in db.chats then db.chats[f.chat].details else map[])
            && ((f.chat, f.effect.id) !in db.messages ==> t.messages[(f.chat, f.effect.id)] == f.effect.row)
  {
  }

  /** Of a chat that is not known a delete finds nothing, and its own row makes it known. */
  lemma OfUnknownChat(db: M.Db, f: Frame)
    requires f.chat !in db.chats
    ensures f.effect.Remove? || f.effect.Skip? ==> Applied(db, f) == db
    ensures f.effect.ChatInfo? ==> Applied(db, f) == db.(chats := db.chats[f.chat := f.effect.chatRow])
  {
  }

  // ---------------------------------------------------------------------------
  // A delete that arrived after an insert
  // ---------------------------------------------------------------------------

  lemma {:induction false} OfSerials(fs: seq<Frame>, chat: int)
    requires forall i | 0 <= i < |fs| :: fs[i].serial == i
    ensures forall f | f in Of(fs, chat) :: f.serial < |fs| && fs[f.serial] == f
    ensures forall i, j | 0 <= i < j < |Of(fs, chat)| :: Of(fs, chat)[i].serial < Of(fs, chat)[j].serial
  {
    if fs != [] {
      var init := fs[..|fs| - 1];
      OfSerials(init, chat);
    }
  }

  /** Where a locked transaction stands among its chat's. */
  lemma {:induction false} PlaceInQueue(hs: seq<Handled>, chat: int, i: nat, j: nat)
    requires i < j < |hs| && hs[i].locked && hs[j].locked && hs[i].frame.chat == chat && hs[j].frame.chat == chat
    ensures exists a, b :: 0 <= a < b < |Queued(hs, chat)|
                           && Queued(hs, chat)[a] == hs[i].frame && Queued(hs, chat)[b] == hs[j].frame
  {
    var n := |hs| - 1;
    var init := hs[..n];
    var q := Queued(init, chat);
    if j < n {
      PlaceInQueue(init, chat, i, j);
      var a, b :| 0 <= a < b < |q| && q[a] == init[i].frame && q[b] == init[j].frame;
      assert Queued(hs, chat)[a] == hs[i].frame && Queued(hs, chat)[b] == hs[j].frame;
    } else {
      InQueue(init, chat, i);
      var a :| 0 <= a < |q| && q[a] == init[i].frame;
      assert Queued(hs, chat)[a] == hs[i].frame && Queued(hs, chat)[|q|] == hs[j].frame;
    }
  }

  lemma {:induction false} InQueue(hs: seq<Handled>, chat: int, i: nat)
    requires i < |hs| && hs[i].locked && hs[i].frame.chat == chat
    ensures exists a :: 0 <= a < |Queued(hs, chat)| && Queued(hs, chat)[a] == hs[i].frame
  {
    var n := |hs| - 1;
    if i < n {
      InQueue(hs[..n], chat, i);
      var a :| 0 <= a < |Queued(hs[..n], chat)| && Queued(hs[..n], chat)[a] == hs[..n][i].frame;
      assert Queued(hs, chat)[a] == hs[i].frame;
    } else {
      assert Queued(hs, chat)[|Queued(hs[..n], chat)|] == hs[i].frame;
    }
  }

  /** Transactions of one chat's frames end in the order in which the frames arrived. */
  lemma TransactionsInOrder(s: State, i: nat, j: nat)
    requires Sound(s) && i < j < |s.done| && s.done[i].locked && s.done[j].locked
    requires s.done[i].frame.chat == s.done[j].frame.chat
    ensures s.done[i].frame.serial < s.done[j].frame.serial
  {
    hide Of, Queued, Folded, Pending;
    var chat := s.done[i].frame.chat;
    assert InOrder(s, chat);
    OfSerials(s.arrived, chat);
    PlaceInQueue(s.done, chat, i, j);
    var a, b :| 0 <= a < b < |Queued(s.done, chat)|
                && Queued(s.done, chat)[a] == s.done[i].frame && Queued(s.done, chat)[b] == s.done[j].frame;
    assert Of(s.arrived, chat)[a] == Queued(s.done, chat)[a] && Of(s.arrived, chat)[b] == Queued(s.done, chat)[b];
  }

  predicate Stored(db: M.Db, key: (int, int)) {
    key in db.messages
  }

  predicate IsDeleted(db: M.Db, key: (int, int)) {
    key in db.messages && db.messages[key].deletedAt.Some?
  }

  /** Rows stay, their chats stay, and deletion marks stay. */
  lemma OutcomeKeeps(db: M.Db, h: Handled, key: (int, int))
    ensures Stored(db, key) ==> Stored(Outcome(db, h), key)
    ensures key.0 in db.chats ==> key.0 in Outcome(db, h).chats
    ensures IsDeleted(db, key) ==> IsDeleted(Outcome(db, h), key)
  {
    hide M.Overwrites, M.MergeChat, M.Touched;
  }

  lemma {:induction false} FoldKeeps(hs: seq<Handled>, k: nat, key: (int, int))
    requires k <= |hs|
    ensures var db, end := Folded(M.EMPTY, hs[..k]), Folded(M.EMPTY, hs);
            && (Stored(db, key) ==> Stored(end, key))
            && (key.0 in db.chats ==> key.0 in end.chats)
            && (IsDeleted(db, key) ==> IsDeleted(end, key))
    decreases |hs|
  {
    hide Outcome, Stored, IsDeleted;
    if k < |hs| {
      var init := hs[..|hs| - 1];
      assert init[..k] == hs[..k];
      FoldKeeps(init, k, key);
      OutcomeKeeps(Folded(M.EMPTY, init), hs[|hs| - 1], key);
    } else {
      assert hs[..k] == hs;
    }
  }

  predicate Stores(h: Handled, chat: int, id: int) {
    h.locked && !h.failed && h.frame.chat == chat && h.frame.effect.Store? && h.frame.effect.id == id
  }

  predicate Deletes(h: Handled, chat: int, id: int) {
    h.locked && !h.failed && h.frame.chat == chat && h.frame.effect.Remove? && id in h.frame.effect.ids
  }

  lemma StoreStores(db: M.Db, h: Handled, chat: int, id: int)
    requires Stores(h, chat, id)
    ensures Stored(Outcome(db, h), (chat, id)) && chat in Outcome(db, h).chats
  {
    hide M.Overwrites, M.MergeChat, M.Touched, M.Merge;
  }

  lemma DeleteDeletes(db: M.Db, h: Handled, chat: int, id: int)
    requires Deletes(h, chat, id) && Stored(db, (chat, id)) && chat in db.chats
    ensures IsDeleted(Outcome(db, h), (chat, id))
  {
  }

  lemma IsDeletedMeans(db: M.Db, key: (int, int))
    ensures IsDeleted(db, key) ==> key in db.messages && db.messages[key].deletedAt.Some?
  {
  }

  /**
   A delete that arrived after the insert of its message always marks it: whatever was
   interleaved, once both frames have been handled the row is there and deleted.
   */
  lemma DeleteAfterInsert(trace: seq<State>, i: nat, j: nat, chat: int, id: int)
    requires IsRun(trace)
    requires var done := trace[|trace| - 1].done;
             i < |done| && j < |done| && Stores(done[i], chat, id) && Deletes(done[j], chat, id)
             && done[i].frame.serial < done[j].frame.serial
    ensures var rows := trace[|trace| - 1].db.messages;
            (chat, id) in rows && rows[(chat, id)].deletedAt.Some?
  {
    hide Outcome, Folded, Stored, IsDeleted, Follows, InOrder;
    RunIsSound(trace);
    var s := trace[|trace| - 1];
    IsDeletedMeans(s.db, (chat, id));
    var hs, key := s.done, (chat, id);
    if j < i {
      TransactionsInOrder(s, j, i);
    }
    StoreStores(Folded(M.EMPTY, hs[..i]), hs[i], chat, id);
    FoldPrefix(hs, i);
    FoldKeeps(hs[..j], i + 1, key);
    assert hs[..j][..i + 1] == hs[..i + 1];
    DeleteDeletes(Folded(M.EMPTY, hs[..j]), hs[j], chat, id);
    FoldPrefix(hs, j);
    FoldKeeps(hs, j + 1, key);
  }

  lemma FoldPrefix(hs: seq<Handled>, k: nat)
    requires k < |hs|
    ensures Folded(M.EMPTY, hs[..k + 1]) == Outcome(Folded(M.EMPTY, hs[..k]), hs[k])
  {
    assert hs[..k + 1][..k] == hs[..k];
  }

  // ---------------------------------------------------------------------------
  // The ingest as it runs
  // ---------------------------------------------------------------------------

  class Ingest {
    var db: M.Db
    var locks: map<int, Lock>
    ghost var arrived: seq<Frame>
    ghost var done: seq<Handled>

    constructor ()
      ensures Value() == INITIAL && Sound(Value())
    {
      db, locks, arrived, done := M.EMPTY, map[], [], [];
    }

    ghost function Value(): State
      reads this
    {
      State(db, locks, arrived, done)
    }

    /** on_frame: the lock is made on first use and asked for before anything else. */
    method OnFrame(f: Frame)
      requires Sound(Value()) && f.serial == |arrived|
      modifies this
      ensures Value() == After(old(Value()), Arrive(f)) && Sound(Value())
    {
      hide Sound;
      if f.chat !in locks {
        locks := locks[f.chat := FREE];
      }
      var l := locks[f.chat];
      if l.holder.None? && l.waiters == [] {
        l := l.(holder := Some((f, Journaling)));
      } else {
        l := l.(waiters := l.waiters + [f]);
      }
      locks := locks[f.chat := l];
      arrived := arrived + [f];
      StepKeeps(old(Value()), Arrive(f));
    }

    /** The task a released lock has woken takes it. */
    method Resume(chat: int)
      requires Sound(Value()) && Enabled(Value(), Wake(chat))
      modifies this`locks
      ensures Value() == After(old(Value()), Wake(chat)) && Sound(Value())
    {
      hide Sound;
      var l := locks[chat];
      locks := locks[chat := Lock(Some((l.waiters[0], Journaling)), l.waiters[1..])];
      StepKeeps(old(Value()), Wake(chat));
    }

    method Journal(chat: int)
      requires Sound(Value()) && Enabled(Value(), Journaled(chat))
      modifies this`locks
      ensures Value() == After(old(Value()), Journaled(chat)) && Sound(Value())
    {
      hide Sound;
      var l := locks[chat];
      locks := locks[chat := l.(holder := Some((l.holder.value.0, Applying)))];
      StepKeeps(old(Value()), Journaled(chat));
    }

    /** The transaction of the frame that holds the lock; an error is kept for the journal. */
    method Process(chat: int, failed: bool)
      requires Sound(Value()) && Enabled(Value(), Commit(chat, failed))
      modifies this
      ensures Value() == After(old(Value()), Commit(chat, failed)) && Sound(Value())
    {
      hide Sound, Applied;
      var l := locks[chat];
      var f := l.holder.value.0;
      if !failed {
        db := Applied(db, f);
      }
      locks := locks[chat := l.(holder := Some((f, Finishing)))];
      done := done + [Handled(f, failed, true)];
      StepKeeps(old(Value()), Commit(chat, failed));
    }

    method Leave(chat: int)
      requires Sound(Value()) && Enabled(Value(), Release(chat))
      modifies this`locks
      ensures Value() == After(old(Value()), Release(chat)) && Sound(Value())
    {
      hide Sound;
      locks := locks[chat := locks[chat].(holder := None)];
      StepKeeps(old(Value()), Release(chat));
    }
  }
}
