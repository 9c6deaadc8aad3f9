/**
 Why the cursor promise needs each of its hypotheses: for every one of them a run from the
 very beginning, with all the others kept, at whose end the promise is broken.
 */
module SyncHazards {
  import opened Wrappers
  import opened Seqs
  import opened MaxHistory
  import opened MaxBackward
  import opened SyncProtocol
  import TiedBackward
  import TiedForward
  import StuckPages

  /** A run without the waived hypothesis ends in s. */
  ghost predicate Reached(s: State, waived: Option<Hypothesis>) {
    exists trace :: IsRunBut(trace, waived) && trace[|trace| - 1] == s
  }

  /** Nothing is under way that could still fill a gap: no task, no waiting frame, none on the wire. */
  predicate Settled(s: State) {
    s.pass.Idle? && s.user.NoFill? && Queue(s) == [] && (s.up ==> s.edge == |s.log|)
  }

  lemma Start(waived: Option<Hypothesis>)
    ensures Reached(INITIAL, waived)
    ensures INITIAL.log == [] && !INITIAL.up && !INITIAL.identityOk && !INITIAL.caughtUp && INITIAL.listed.None?
    ensures INITIAL.db == ChatDb({}, None, None) && Queue(INITIAL) == [] && Settled(INITIAL)
  {
    assert IsRunBut([INITIAL], waived);
  }

  lemma Go(s: State, step: Step, waived: Option<Hypothesis>) returns (t: State)
    requires Reached(s, waived) && EnabledBut(s, step, waived)
    ensures Reached(t, waived) && t == After(s, step)
  {
    hide Possible, Meets, After;
    t := After(s, step);
    var trace :| IsRunBut(trace, waived) && trace[|trace| - 1] == s;
    var next := trace + [t];
    forall k | 0 < k < |next|
      ensures StepAt(next, k, waived)
    {
      if k < |trace| {
        assert StepAt(trace, k, waived);
      }
    }
    assert IsRunBut(next, waived);
  }

  /** A step no hypothesis speaks of. */
  lemma Free(s: State, step: Step, waived: Option<Hypothesis>) returns (t: State)
    requires Reached(s, waived) && Possible(s, step) && IsFree(step)
    ensures Reached(t, waived) && t == After(s, step)
  {
    hide Possible, Meets, After, Reached, EnabledBut;
    FreeEnabled(s, step, waived);
    t := Go(s, step, waived);
  }

  /** Messages 1 to n, one each millisecond. */
  function Long(n: nat): (log: seq<Msg>)
    ensures |log| == n && forall i | 0 <= i < n :: log[i] == Msg(i + 1, i + 1)
  {
    seq(n, i => Msg(i + 1, i + 1))
  }

  lemma LongOrdered(n: nat)
    ensures Ordered(Long(n)) && Long(n) + [Msg(n + 1, n + 1)] == Long(n + 1)
  {
  }

  /** The server gets messages one by one. */
  lemma {:induction false} Appends(s: State, from: nat, n: nat, waived: Option<Hypothesis>) returns (t: State)
    requires Reached(s, waived) && s.log == Long(from) && from <= n
    ensures Reached(t, waived) && t == s.(log := Long(n))
    decreases n - from
  {
    hide Reached;
    t := s;
    if from < n {
      LongOrdered(from);
      LongOrdered(from + 1);
      t := Go(s, ServerAppend(Msg(from + 1, from + 1)), waived);
      t := Appends(t, from + 1, n, waived);
    }
  }

  /** One message, seeded: the pass is about to mark the chat caught up. */
  const SEEDED := State(Long(1), true, true, 1, 1, [], None,
                        ChatDb({Msg(1, 1)}, Some(Row(Some(Msg(1, 1)), Some(Msg(1, 1)), false)), Some(Msg(1, 1))),
                        false, None, PassSeed([], None), NoFill)

  /** Connected with one message on the server. */
  const ONLINE := INITIAL.(log := Long(1), up := true, identityOk := true, edge := 1, since := 1)

  lemma Online(waived: Option<Hypothesis>)
    ensures Reached(ONLINE, waived)
  {
    hide Reached, Meets;
    Start(waived);
    assert Long(0) == [];
    var s := Appends(INITIAL, 0, 1, waived);
    assert EnabledBut(s, Connect, waived) by { ConnectIdle(s, waived); }
    s := Go(s, Connect, waived);
    s := Free(s, Authorize, waived);
    assert s == ONLINE;
  }

  /** The steps of a connection, the end of a pass, and a task that is cut short. */
  lemma LinkStepIs(s: State)
    ensures !s.up ==>
              && Possible(s, Connect)
              && After(s, Connect)
                 == s.(up := true, identityOk := false, caughtUp := false, listed := None, edge := |s.log|)
    ensures s.up && !s.identityOk ==>
              Possible(s, Authorize) && After(s, Authorize) == s.(identityOk := true, since := s.edge)
    ensures s.up ==> Possible(s, Disconnect) && After(s, Disconnect) == s.(up := false)
    ensures (s.pass.PassForward? && FillOver(s.pass.f)) || s.pass == PassSeed([], None) ==>
              Possible(s, MarkPass) && After(s, MarkPass) == s.(caughtUp := true, pass := Idle)
    ensures Possible(s, UserAbort) && After(s, UserAbort) == s.(user := NoFill)
  {
  }

  /** The same chat, marked caught up. */
  const CAUGHT := SEEDED.(caughtUp := true, pass := Idle)

  /** Three messages, the first stored: storing the last with the right to advance leaves the second out. */
  lemma SecondMissing()
    ensures var d := StoreMessage(CAUGHT.db, Msg(3, 3), true);
            !NoGap(Long(3), d) && !NoGap(Long(3), d.(row := MoveOldest(d.row, Msg(3, 3))))
  {
    assert Long(3)[1] == Msg(2, 2);
  }

  lemma Caught(waived: Option<Hypothesis>)
    ensures Reached(CAUGHT, waived)
  {
    hide Reached, Possible, After;
    Seeded(waived);
    LinkStepIs(SEEDED);
    var s := Free(SEEDED, MarkPass, waived);
  }

  /** Connected anew after the history has become this log. */
  function Anew(log: seq<Msg>): State {
    CAUGHT.(log := log, edge := |log|, since := |log|, caughtUp := false)
  }

  lemma Reconnects(s: State, waived: Option<Hypothesis>) returns (t: State)
    requires Reached(s, waived) && s == CAUGHT.(log := s.log, up := false)
    ensures Reached(t, waived) && t == Anew(s.log)
  {
    hide Reached, Possible, After, EnabledBut;
    LinkStepIs(s);
    ConnectIdle(s, waived);
    t := Go(s, Connect, waived);
    LinkStepIs(t);
    t := Free(t, Authorize, waived);
  }

  /** A caught-up chat misses the messages up to n offline. */
  lemma Missed(n: nat, waived: Option<Hypothesis>)
    requires n > 0
    ensures Reached(Anew(Long(n)), waived)
  {
    hide Reached, Possible, After;
    Caught(waived);
    LinkStepIs(CAUGHT);
    var s := Free(CAUGHT, Disconnect, waived);
    s := Appends(s, 1, n, waived);
    s := Reconnects(s, waived);
  }

  lemma ConnectIdle(s: State, waived: Option<Hypothesis>)
    requires !s.up && s.pass.Idle?
    ensures EnabledBut(s, Connect, waived)
  {
  }

  lemma SeedEnabled(s: State, waived: Option<Hypothesis>)
    requires s.identityOk && s.pass.Idle? && s.db.row.None? && !s.caughtUp && s.active.None? && s.user.NoFill?
    ensures EnabledBut(s, StartSeed(1), waived)
  {
  }

  lemma Seeded(waived: Option<Hypothesis>)
    ensures Reached(SEEDED, waived)
  {
    hide Reached, HistoryBackward, Possible, After, EnabledBut, StoreMessage, MoveOldest, Earliest;
    Online(waived);
    var m := Msg(1, 1);
    assert Long(1) == [m];
    OnePage(m);
    SeedLeaves();
    SeedEnabled(ONLINE, waived);
    SeedStepIs(ONLINE);
    var s := Go(ONLINE, StartSeed(1), waived);
    assert s.pass == PassSeed([m], Some(m));
    SeedStepIs(s);
    s := Free(s, SeedStore, waived);
    SeedStepIs(s);
    s := Free(s, SeedMove, waived);
    assert s == SEEDED;
  }

  lemma SeedLeaves()
    ensures var d := StoreMessage(ChatDb({}, None, None), Msg(1, 1), true);
            d.(row := MoveOldest(d.row, Msg(1, 1))) == SEEDED.db
  {
  }

  /** The steps of a seed, and what each does. */
  lemma SeedStepIs(s: State)
    ensures s.identityOk && s.pass.Idle? ==>
              && Possible(s, StartSeed(1))
              && var page := HistoryBackward(s.log, None, 1);
                 After(s, StartSeed(1))
                 == s.(pass := PassSeed(page, if page == [] then None else Some(Earliest(page))))
    ensures s.pass.PassSeed? && s.pass.rest != [] ==>
              && Possible(s, SeedStore)
              && After(s, SeedStore)
                 == s.(db := StoreMessage(s.db, s.pass.rest[0], true), pass := PassSeed(s.pass.rest[1..], s.pass.low))
    ensures s.pass.PassSeed? && s.pass.rest == [] && s.pass.low.Some? ==>
              && Possible(s, SeedMove)
              && After(s, SeedMove)
                 == s.(db := s.db.(row := MoveOldest(s.db.row, s.pass.low.value)), pass := PassSeed([], None))
  {
    hide StoreMessage, MoveOldest, HistoryBackward, Earliest;
  }

  lemma OnePage(m: Msg)
    ensures HistoryBackward([m], None, 1) == [m] && Earliest([m]) == m
  {
  }

  /** A message is missing in a caught-up chat: the next live frame jumps over it. */
  lemma LiveJump(s: State, x: Msg, m: Msg, waived: Option<Hypothesis>) returns (t: State)
    requires Reached(s, waived) && s.up && s.identityOk && s.caughtUp && s.pending == [] && s.active.None?
    requires s.pass.Idle? && s.user.NoFill?
    requires s.edge == |s.log| && s.db.row.Some? && s.db.row.value.newest.Some?
    requires EnabledBut(s, ServerAppend(m), waived) && Hi(s.db.row) < m.time
    requires x in s.log && x != m && x !in s.db.stored && Lo(s.db.row) <= x.time <= m.time
    ensures Reached(t, waived) && !NoGap(t.log, t.db) && Settled(t) && t.log == s.log + [m]
  {
    hide Reached, Possible, After, StoreMessage, NoGap, EnabledBut;
    assert After(s, ServerAppend(m)) == s.(log := s.log + [m]) by { AppendIs(s, m, waived); }
    t := Go(s, ServerAppend(m), waived);
    FrameStepIs(t);
    t := Free(t, Arrive, waived);
    t := FrameTaken(t, waived);
    JumpLeavesGap(s.log, s.db, x, m);
  }

  lemma AppendIs(s: State, m: Msg, waived: Option<Hypothesis>)
    requires EnabledBut(s, ServerAppend(m), waived)
    ensures Possible(s, ServerAppend(m)) && After(s, ServerAppend(m)) == s.(log := s.log + [m])
  {
  }

  /** The same on a strictly ordered history, under whatever hypotheses. */
  lemma OrderedJump(s: State, x: Msg, m: Msg, waived: Option<Hypothesis>) returns (t: State)
    requires Reached(s, waived) && s.up && s.identityOk && s.caughtUp && s.pending == [] && s.active.None?
    requires s.pass.Idle? && s.user.NoFill?
    requires s.edge == |s.log| && s.db.row.Some? && s.db.row.value.newest.Some?
    requires s.db.row.value.newest.value in s.log
    requires Ordered(s.log + [m]) && m.time > 0
    requires x in s.log && x !in s.db.stored && Lo(s.db.row) <= x.time
    ensures Reached(t, waived) && !NoGap(t.log, t.db) && Settled(t)
  {
    hide Reached, Ordered, Possible, After, NoGap, EnabledBut;
    AppendLater(s.log, m);
    NewId(s.log, m);
    AppendEnabled(s, m, waived);
    t := LiveJump(s, x, m, waived);
  }

  lemma AppendEnabled(s: State, m: Msg, waived: Option<Hypothesis>)
    requires Ordered(s.log + [m]) && m.time > 0
    requires forall x | x in s.log :: x.time <= m.time && x.id != m.id
    ensures EnabledBut(s, ServerAppend(m), waived) && After(s, ServerAppend(m)) == s.(log := s.log + [m])
  {
    hide Ordered;
  }

  /** The steps of a live frame, and what each does. */
  lemma FrameStepIs(s: State)
    ensures s.up && s.identityOk && s.edge < |s.log| ==>
              && Possible(s, Arrive)
              && After(s, Arrive) == s.(edge := s.edge + 1, pending := s.pending + [s.log[s.edge]])
    ensures s.active.None? && s.pending != [] ==>
              && Possible(s, Begin)
              && After(s, Begin) == s.(active := Some(Live(s.pending[0], s.caughtUp)), pending := s.pending[1..])
    ensures s.active.Some? ==>
              && Possible(s, Commit)
              && After(s, Commit)
                 == s.(db := StoreMessage(s.db, s.active.value.msg, s.active.value.advance), active := None)
  {
    hide StoreMessage;
  }

  /** The steps of a user's forward fill, and what each does. */
  lemma UserStepIs(s: State)
    ensures s.user.FillForward? && CanFetch(s.user.f) ==>
              Possible(s, UserFetch) && After(s, UserFetch) == s.(user := FillForward(FetchForward(s.log, s.user.f)))
    ensures s.user.FillForward? && s.user.f.rest != [] && s.user.f.left > 0 ==>
              && Possible(s, UserStore)
              && After(s, UserStore)
                 == s.(db := StoreMessage(s.db, s.user.f.rest[0], true), user := FillForward(Stored(s.user.f)))
    ensures s.user.FillForward? && FillOver(s.user.f) ==>
              Possible(s, UserForwardEnd) && After(s, UserForwardEnd) == s.(user := NoFill)
  {
    hide FetchForward, StoreMessage;
    FinishNothing(s.db);
  }

  lemma JumpLeavesGap(log: seq<Msg>, db: ChatDb, x: Msg, m: Msg)
    requires db.row.Some? && db.row.value.newest.Some? && Hi(db.row) < m.time
    requires x in log && x !in db.stored && Lo(db.row) <= x.time <= m.time && x != m
    ensures !NoGap(log + [m], StoreMessage(db, m, true))
  {
    var i :| 0 <= i < |log| && log[i] == x;
    assert (log + [m])[i] == x;
  }

  lemma NewId(log: seq<Msg>, m: Msg)
    requires Ordered(log + [m])
    ensures forall x | x in log :: x.id != m.id
  {
    forall i | 0 <= i < |log|
      ensures log[i].id != m.id
    {
      assert Precedes(log + [m], i, |log|);
    }
  }

  // ---------------------------------------------------------------------------
  // One witness for each hypothesis
  // ---------------------------------------------------------------------------

  /** An old pass goes on after a reconnect and marks the chat in the new connection. */
  lemma OldPassBreaks() returns (t: State)
    ensures Reached(t, Some(PassEnded)) && !NoGap(t.log, t.db) && Settled(t)
  {
    hide Reached;
    var w := Some(PassEnded);
    Seeded(w);
    var s := Free(SEEDED, Disconnect, w);
    s := Appends(s, 1, 2, w);
    s := Go(s, Connect, w);
    s := Free(s, MarkPass, w);
    s := Free(s, Authorize, w);
    LongOrdered(2);
    LongOrdered(3);
    assert s.log[0] == Msg(1, 1) && s.log[1] == Msg(2, 2);
    t := OrderedJump(s, Msg(2, 2), Msg(3, 3), w);
  }

  /** A chat list without the chat leaves its tail stale, and the chat seems to have no gap. */
  lemma PartialListBreaks() returns (t: State)
    ensures Reached(t, Some(FullList)) && !NoGap(t.log, t.db) && Settled(t)
  {
    hide Reached;
    var w := Some(FullList);
    Missed(2, w);
    var s := Go(Anew(Long(2)), ListMisses, w);
    s := Go(s, MarkNoTail, w);
    LongOrdered(2);
    LongOrdered(3);
    assert s.log[0] == Msg(1, 1) && s.log[1] == Msg(2, 2);
    t := OrderedJump(s, Msg(2, 2), Msg(3, 3), w);
  }

  /** The answer to a send is stored before the frame of an earlier message has arrived. */
  lemma EarlyAnswerBreaks() returns (t: State)
    ensures Reached(t, Some(AnswersInOrder)) && !NoGap(t.log, t.db) && Settled(t)
  {
    hide Reached, Possible, After, EnabledBut, StoreMessage, NoGap;
    var w := Some(AnswersInOrder);
    Caught(w);
    var s := Appends(CAUGHT, 1, 3, w);
    AnswerOvertakes(s);
    t := Go(s, AnswerEarly(2), w);
    assert t == CAUGHT.(log := Long(3), pending := [Msg(3, 3)]);
    t := FrameTaken(t, w);
    LinkStepIs(t);
    t := Free(t, Disconnect, w);
    SecondMissing();
  }

  /** The only waiting frame of a caught-up chat is taken up and stored. */
  lemma FrameTaken(s: State, waived: Option<Hypothesis>) returns (t: State)
    requires Reached(s, waived) && s.active.None? && |s.pending| == 1 && s.caughtUp
    ensures Reached(t, waived) && t == s.(pending := [], db := StoreMessage(s.db, s.pending[0], true))
  {
    hide Reached, Possible, After, EnabledBut, StoreMessage;
    FrameStepIs(s);
    t := Free(s, Begin, waived);
    FrameStepIs(t);
    t := Free(t, Commit, waived);
  }

  lemma AnswerOvertakes(s: State)
    requires s.up && s.identityOk && s.edge == 1 && |s.log| == 3
    ensures EnabledBut(s, AnswerEarly(2), Some(AnswersInOrder))
    ensures After(s, AnswerEarly(2)) == s.(pending := s.pending + [s.log[2]])
  {
  }

  /** A pass and a backfill can be given up at any point, and what they have stored stays. */
  lemma GivenUp(s: State)
    ensures Possible(s, PassAbort) && After(s, PassAbort) == s.(pass := Idle)
    ensures Possible(s, UserAbort) && After(s, UserAbort) == s.(user := NoFill)
  {
  }

  /** Wherever a task can store, the store can fail. */
  lemma AnyStoreFails(s: State, step: Step, task: Task)
    requires Possible(s, step)
    requires || (step.Commit? && task.ByFrame?) || ((step.PassStore? || step.SeedStore?) && task.ByPass?)
             || ((step.UserStore? || step.BackStore?) && task.ByUser?)
    ensures Possible(s, StoreFails(task))
  {
  }

  /** Then nothing is stored, and the message no longer waits. */
  lemma FailedStoreIs(s: State, task: Task)
    requires HasStore(s, task)
    ensures var t := Skipped(s, task);
            && t.db == s.db && t.pending == s.pending && t.caughtUp == s.caughtUp
            && (task.ByFrame? ==> t.active.None?) && (!task.ByFrame? ==> t.active == s.active)
            && (task.ByPass? && s.pass.PassForward? ==> t.pass == PassForward(s.pass.f.(rest := s.pass.f.rest[1..])))
            && (task.ByPass? && s.pass.PassSeed? ==> t.pass == PassSeed(s.pass.rest[1..], s.pass.low))
            && (!task.ByPass? ==> t.pass == s.pass)
            && (task.ByUser? && s.user.FillForward? ==> t.user == FillForward(s.user.f.(rest := s.user.f.rest[1..])))
            && (task.ByUser? && s.user.FillBackward? ==> t.user == FillBackward(s.user.b.(rest := s.user.b.rest[1..])))
            && (!task.ByUser? ==> t.user == s.user)
  {
  }

  /** A history message fails to be stored and the next one moves the cursor over it. */
  lemma FailedStoreBreaks() returns (t: State)
    ensures Reached(t, Some(StoresSucceed)) && !NoGap(t.log, t.db) && Settled(t)
  {
    hide Reached, FetchForward, Possible, After, EnabledBut, StoreMessage, NoGap;
    var w := Some(StoresSucceed);
    t := SecondFailed();
    ForwardPage();
    UserStepIs(t);
    t := Free(t, UserFetch, w);
    UserStepIs(t);
    t := Free(t, UserForwardEnd, w);
    LinkStepIs(t);
    t := Free(t, Disconnect, w);
    SecondMissing();
  }

  /** Of the page of two the first failed to be stored, and the second is stored. */
  lemma SecondFailed() returns (t: State)
    ensures Reached(t, Some(StoresSucceed))
    ensures t == CAUGHT.(log := Long(3), user := FillForward(Fill(3, {3}, 1, [], false)),
                         db := StoreMessage(CAUGHT.db, Msg(3, 3), true))
  {
    hide Reached, FetchForward, Possible, After, EnabledBut, StoreMessage;
    var w := Some(StoresSucceed);
    t := FillAsked(2, w);
    ForwardPage();
    UserStepIs(t);
    t := Free(t, UserFetch, w);
    StoreMissed(t);
    t := Go(t, StoreFails(ByUser), w);
    assert [Msg(2, 2), Msg(3, 3)][1..] == [Msg(3, 3)];
    UserStepIs(t);
    t := Free(t, UserStore, w);
    assert [Msg(3, 3)][1..] == [];
  }

  /** A forward fill of n messages asked for in a caught-up chat of three, of which one is stored. */
  lemma FillAsked(n: nat, waived: Option<Hypothesis>) returns (t: State)
    requires n > 0
    ensures Reached(t, waived) && t == CAUGHT.(log := Long(3), user := FillForward(StartForward(Msg(1, 1), n)))
  {
    hide Reached;
    Caught(waived);
    t := Appends(CAUGHT, 1, 3, waived);
    t := Free(t, StartUserForward(n), waived);
  }

  lemma StoreMissed(s: State)
    requires s.user.FillForward? && s.user.f.rest != []
    ensures EnabledBut(s, StoreFails(ByUser), Some(StoresSucceed))
    ensures After(s, StoreFails(ByUser)) == s.(user := FillForward(s.user.f.(rest := s.user.f.rest[1..])))
  {
  }

  lemma ForwardPage()
    ensures FetchForward(Long(3), StartForward(Msg(1, 1), 2)) == Fill(3, {3}, 2, [Msg(2, 2), Msg(3, 3)], false)
    ensures FetchForward(Long(3), Fill(3, {3}, 1, [], false)) == Fill(3, {3}, 1, [], true)
  {
    hide FetchForward;
    LongOrdered(3);
    FetchForwardSpec(Long(3), StartForward(Msg(1, 1), 2), 0);
    FetchForwardSpec(Long(3), Fill(3, {3}, 1, [], false), 2);
    assert Long(3)[1..3] == [Msg(2, 2), Msg(3, 3)];
  }

  /** A seed of no messages marks a chat caught up of which nothing is stored. */
  lemma EmptySeedBreaks() returns (t: State)
    ensures Reached(t, Some(SeedNotEmpty)) && Settled(t)
    ensures t.caughtUp && Queue(t) == [] && t.edge == |t.log| && t.db.row.None?
    ensures exists m :: m in t.log && m !in t.db.stored
  {
    hide Reached, HistoryBackward;
    var w := Some(SeedNotEmpty);
    Start(w);
    t := Appends(INITIAL, 0, 1, w);
    t := Go(t, Connect, w);
    t := Free(t, Authorize, w);
    NoPage(t.log);
    t := Go(t, StartSeed(0), w);
    t := Free(t, MarkPass, w);
    assert t.log[0] == Msg(1, 1) && t.db.stored == {};
    assert Msg(1, 1) in t.log;
  }

  lemma NoPage(log: seq<Msg>)
    ensures HistoryBackward(log, None, 0) == []
  {
  }

  /**
   The first fill of an empty, caught-up chat: the backfill takes three messages as one
   page, the frame of the first one makes the cursor row, and the backfill's first store (the
   newest message) moves the cursor over the second one. The backfill and the connection end
   there, before the second one is stored.
   */
  lemma SharedFirstFillBreaks() returns (t: State)
    ensures Reached(t, Some(FirstFillAlone)) && !NoGap(t.log, t.db) && Settled(t)
  {
    hide Reached, FetchBackward, Possible, After, EnabledBut, StoreMessage, NoGap;
    var w := Some(FirstFillAlone);
    var s := FirstFrame();
    BackStepIs(s);
    t := Free(s, BackStore, w);
    LinkStepIs(t);
    t := Free(t, UserAbort, w);
    LinkStepIs(t);
    t := Free(t, Disconnect, w);
    FirstAndLast();
  }

  /** The first message and the last: the one between them is missing. */
  lemma FirstAndLast()
    ensures var d := StoreMessage(ChatDb({}, None, None), Msg(1, 1), true);
            !NoGap(Long(3), StoreMessage(d, Msg(3, 3), true))
  {
    assert Long(3)[1] == Msg(2, 2);
  }

  /** The backfill has its page, and the frame of the first message has made the row. */
  lemma FirstFrame() returns (s: State)
    ensures Reached(s, Some(FirstFillAlone)) && s.log == Long(3) && s.up && s.pass.Idle? && Queue(s) == []
    ensures s.db == StoreMessage(ChatDb({}, None, None), Msg(1, 1), true)
    ensures s.user.FillBackward? && s.user.b.rest != [] && s.user.b.rest[0] == Msg(3, 3) && s.user.b.left > 0
  {
    hide Reached, FetchBackward, Possible, After, EnabledBut, StoreMessage;
    var w := Some(FirstFillAlone);
    s := EmptyBackfill();
    s := Appends(s, 0, 3, w);
    FreshPage();
    BackStepIs(s);
    s := Free(s, BackFetch, w);
    FrameStepIs(s);
    s := Free(s, Arrive, w);
    s := FrameTaken(s, w);
  }

  /** An empty chat, caught up in a live connection, with a user's backfill just started. */
  lemma EmptyBackfill() returns (s: State)
    ensures Reached(s, Some(FirstFillAlone))
    ensures s == INITIAL.(up := true, identityOk := true, listed := Some(0), caughtUp := true,
                          user := FillBackward(StartBackward(None, None, 100))) && s.log == Long(0)
  {
    hide Reached;
    var w := Some(FirstFillAlone);
    s := Fresh(w);
    s := Free(s, ListChats, w);
    s := Go(s, MarkNoTail, w);
    s := Go(s, StartUserBackward(100, None), w);
  }

  /** Connected, with nothing on the server. */
  lemma Fresh(waived: Option<Hypothesis>) returns (s: State)
    ensures Reached(s, waived) && s == INITIAL.(up := true, identityOk := true)
  {
    hide Reached, Possible, After, EnabledBut;
    Start(waived);
    LinkStepIs(INITIAL);
    ConnectIdle(INITIAL, waived);
    s := Go(INITIAL, Connect, waived);
    LinkStepIs(s);
    s := Free(s, Authorize, waived);
  }

  lemma FreshPage()
    ensures var g := FetchBackward(Long(3), StartBackward(None, None, 100));
            g.rest != [] && g.rest[0] == Msg(3, 3) && g.left == 100
  {
    hide FetchBackward, Reverse;
    LongOrdered(3);
    FetchBackwardSpec(Long(3), StartBackward(None, None, 100), 3);
    assert Long(3)[0..3] == Long(3);
    ReverseEnds(Long(3));
  }

  /**
   The pass reads its candidates while the chat has no cursor; a backfill of one message
   makes the row; two more messages come; and the seed of one message the pass decided on
   moves the cursor over the first of them.
   */
  lemma StaleSeedBreaks() returns (t: State)
    ensures Reached(t, Some(FirstFillAlone)) && !NoGap(t.log, t.db) && Settled(t)
  {
    hide Reached, HistoryBackward, FetchBackward, Possible, After, EnabledBut, StoreMessage, MoveOldest, NoGap;
    var w := Some(FirstFillAlone);
    var s := FilledMeanwhile();
    LastPage();
    StaleStart(s);
    SeedStepIs(s);
    s := Go(s, StartSeed(1), w);
    assert s.pass == PassSeed([Msg(3, 3)], Some(Msg(3, 3)));
    SeedStepIs(s);
    s := Free(s, SeedStore, w);
    SeedStepIs(s);
    s := Free(s, SeedMove, w);
    LinkStepIs(s);
    s := Free(s, MarkPass, w);
    LinkStepIs(s);
    t := Free(s, Disconnect, w);
    SecondMissing();
  }

  /** A pass has read its candidates while the chat had no cursor; a backfill has made the row since. */
  lemma FilledMeanwhile() returns (s: State)
    ensures Reached(s, Some(FirstFillAlone)) && s.log == Long(3) && s.up && s.identityOk && s.db == CAUGHT.db
    ensures s.pass.Idle? && s.user.NoFill? && Queue(s) == []
  {
    hide Reached, HistoryBackward, FetchBackward;
    var w := Some(FirstFillAlone);
    s := Fresh(w);
    s := Appends(s, 0, 1, w);
    s := Free(s, ListChats, w);
    NewestPage([], Msg(1, 1));
    assert Long(1) == [] + [Msg(1, 1)];
    s := OneBack(s, None, Msg(1, 1), w);
    s := Appends(s, 1, 3, w);
  }

  lemma StaleStart(s: State)
    requires s.identityOk && s.pass.Idle?
    ensures EnabledBut(s, StartSeed(1), Some(FirstFillAlone))
  {
    hide HistoryBackward;
  }

  lemma LastPage()
    ensures HistoryBackward(Long(3), None, 1) == [Msg(3, 3)]
  {
  }

  // ---------------------------------------------------------------------------
  // Two messages of one time
  // ---------------------------------------------------------------------------

  const TIED: seq<Msg> := [Msg(1, 10), Msg(2, 10), Msg(3, 20)]

  /** A page of two from the cursor at 20 holds one of the two messages at 10. */
  lemma TiedPage()
    ensures HistoryBackward(TIED, Some(20), 2) == [Msg(2, 10), Msg(3, 20)]
    ensures FetchBackward(TIED, Back(Some(20), None, 1, [], None, false, None))
            == Back(Some(20), None, 1, [Msg(2, 10)], Some(Msg(2, 10)), false, None)
  {
    assert Below(TIED, 21) == 3;
    var page := HistoryBackward(TIED, Some(20), 2);
    assert page == [Msg(2, 10)] + [Msg(3, 20)];
    FilterConcat([Msg(2, 10)], [Msg(3, 20)], IsOlder(Some(20)));
    FilterFirst(Msg(2, 10), [], IsOlder(Some(20)));
    FilterFirst(Msg(3, 20), [], IsOlder(Some(20)));
    assert [Msg(2, 10)] + [] == [Msg(2, 10)] && [Msg(3, 20)] + [] == [Msg(3, 20)];
    assert Filter(page, IsOlder(Some(20))) == [Msg(2, 10)];
    FilterFirst(Msg(2, 10), [], IsSince(None));
    assert Filter([Msg(2, 10)], IsSince(None)) == [Msg(2, 10)];
    assert Sort([Msg(2, 10)], NegTime) == [Msg(2, 10)] by {
      assert [Msg(2, 10)][..0] == [];
    }
  }

  /** From the cursor at 10 a page of two shows nothing older: the beginning seems reached. */
  lemma TiedEnd()
    ensures FetchBackward(TIED, Back(Some(10), None, 1, [], None, false, None))
            == Back(Some(10), None, 1, [], None, false, Some(true))
  {
    assert Below(TIED, 11) == 2 by {
      assert TIED[..2] == [Msg(1, 10), Msg(2, 10)];
      assert Below(TIED, 11) == Below(TIED[..2], 11);
    }
    var page := HistoryBackward(TIED, Some(10), 2);
    assert page == [Msg(1, 10)] + [Msg(2, 10)];
    FilterConcat([Msg(1, 10)], [Msg(2, 10)], IsOlder(Some(10)));
    FilterFirst(Msg(1, 10), [], IsOlder(Some(10)));
    FilterFirst(Msg(2, 10), [], IsOlder(Some(10)));
    assert [Msg(1, 10)] + [] == [Msg(1, 10)] && [Msg(2, 10)] + [] == [Msg(2, 10)];
  }

  /** The newest message is the page of one from now. */
  lemma NewestPage(log: seq<Msg>, m: Msg)
    ensures FetchBackward(log + [m], Back(None, None, 1, [], None, false, None))
            == Back(None, None, 1, [m], Some(m), false, None)
  {
    var page := HistoryBackward(log + [m], None, 1);
    assert page == [m];
    FilterFirst(m, [], IsOlder(None));
    FilterFirst(m, [], IsSince(None));
    assert [m] + [] == [m];
    assert Sort([m], NegTime) == [m] by {
      assert [m][..0] == [];
    }
  }

  lemma BackEnabled(s: State, waived: Option<Hypothesis>)
    requires s.user.NoFill? && (s.db.row.None? ==> !s.pass.PassSeed? && !s.caughtUp && !Advancing(s))
    ensures EnabledBut(s, StartUserBackward(1, None), waived)
    ensures After(s, StartUserBackward(1, None)) == s.(user := FillBackward(StartBackward(s.db.row, None, 1)))
  {
  }

  /** One backward fill of one message: its page, its store, its cursor move, its end. */
  lemma OneBack(s: State, pos: Option<int>, m: Msg, waived: Option<Hypothesis>) returns (t: State)
    requires Reached(s, waived) && s.user.NoFill? && StartBackward(s.db.row, None, 1).pos == pos
    requires s.db.row.None? ==> !s.pass.PassSeed? && !s.caughtUp && !Advancing(s)
    requires FetchBackward(s.log, Back(pos, None, 1, [], None, false, None))
             == Back(pos, None, 1, [m], Some(m), false, None)
    ensures Reached(t, waived)
    ensures var e := StoreMessage(s.db, m, true);
            t == s.(db := e.(row := FinishBackfill(MoveOldest(e.row, m), Some(false))))
  {
    hide Reached, FetchBackward, StoreMessage, MoveOldest, FinishBackfill, Possible, After, EnabledBut;
    BackEnabled(s, waived);
    t := Go(s, StartUserBackward(1, None), waived);
    BackStepIs(t);
    t := Free(t, BackFetch, waived);
    t := StoreAndEnd(t, pos, m, waived);
  }

  lemma StoreAndEnd(s: State, pos: Option<int>, m: Msg, waived: Option<Hypothesis>) returns (t: State)
    requires Reached(s, waived) && s.user == FillBackward(Back(pos, None, 1, [m], Some(m), false, None))
    ensures Reached(t, waived)
    ensures var e := StoreMessage(s.db, m, true);
            t == s.(db := e.(row := FinishBackfill(MoveOldest(e.row, m), Some(false))), user := NoFill)
  {
    hide Reached, StoreMessage, MoveOldest, FinishBackfill, Possible, After;
    BackStepIs(s);
    t := Free(s, BackStore, waived);
    assert t.user.b == Back(pos, None, 0, [], Some(m), false, None);
    BackStepIs(t);
    t := Free(t, BackMove, waived);
    BackStepIs(t);
    t := Free(t, BackEnd, waived);
  }

  /** A backward fill that finds nothing older sets the flag. */
  lemma NoneBack(s: State, pos: int, waived: Option<Hypothesis>) returns (t: State)
    requires Reached(s, waived) && s.user.NoFill? && s.db.row.Some?
    requires StartBackward(s.db.row, None, 1).pos == Some(pos)
    requires FetchBackward(s.log, Back(Some(pos), None, 1, [], None, false, None))
             == Back(Some(pos), None, 1, [], None, false, Some(true))
    ensures Reached(t, waived)
    ensures t == s.(db := s.db.(row := Some(s.db.row.value.(fullySynced := true))))
  {
    hide Reached, FetchBackward, Possible, After, EnabledBut;
    BackEnabled(s, waived);
    t := Go(s, StartUserBackward(1, None), waived);
    BackStepIs(t);
    t := Free(t, BackFetch, waived);
    BackStepIs(t);
    t := Free(t, BackEnd, waived);
  }

  lemma TiedLog() returns (t: State)
    ensures Reached(t, Some(TimesGrow)) && t == INITIAL.(log := TIED)
  {
    hide Reached;
    Start(Some(TimesGrow));
    t := Go(INITIAL, ServerAppend(Msg(1, 10)), Some(TimesGrow));
    t := Go(t, ServerAppend(Msg(2, 10)), Some(TimesGrow));
    t := Go(t, ServerAppend(Msg(3, 20)), Some(TimesGrow));
  }

  /**
   Two messages at one time: a backward backfill of one message stops between them, and the
   next one takes the flag for the truth. The message left out is never fetched again: it
   lies at the oldest cursor, and the chat counts as fully synced.
   */
  lemma TiesBreak() returns (t: State)
    ensures Reached(t, Some(TimesGrow)) && !NoGap(t.log, t.db) && Settled(t)
    ensures t.log == TIED && t.db.row.Some? && t.db.row.value.fullySynced && TIED[0] !in t.db.stored
  {
    hide Reached, FetchBackward;
    var w := Some(TimesGrow);
    t := TiedLog();
    assert TIED == TIED[..2] + [Msg(3, 20)];
    NewestPage(TIED[..2], Msg(3, 20));
    t := OneBack(t, None, Msg(3, 20), w);
    TiedPage();
    t := OneBack(t, Some(20), Msg(2, 10), w);
    TiedEnd();
    t := NoneBack(t, 10, w);
    assert TIED[0] == Msg(1, 10);
  }

  /** A forward fill whose limit ends it between two messages of one time leaves the other below the cursor. */
  lemma ForwardTieBreaks() returns (t: State)
    ensures Reached(t, Some(TimesGrow)) && !NoGap(t.log, t.db) && Settled(t)
  {
    hide Reached, FetchForward, Possible, After, EnabledBut, Ordered;
    var w := Some(TimesGrow);
    var log := [Msg(1, 1), Msg(2, 2), Msg(3, 2)];
    t := HalfAppended();
    HalfGroup();
    UserStepIs(t);
    t := Free(t, UserFetch, w);
    UserStepIs(t);
    t := Free(t, UserStore, w);
    UserStepIs(t);
    t := Free(t, UserForwardEnd, w);
    LinkStepIs(t);
    t := Free(t, Disconnect, w);
    assert t.log[2] == Msg(3, 2);
  }

  /** Two messages of one time above the cursor, and a forward fill of one message just started. */
  lemma HalfAppended() returns (t: State)
    ensures Reached(t, Some(TimesGrow))
    ensures t == SEEDED.(caughtUp := true, pass := Idle, log := [Msg(1, 1), Msg(2, 2), Msg(3, 2)],
                         user := FillForward(StartForward(Msg(1, 1), 1)))
  {
    hide Reached;
    var w := Some(TimesGrow);
    Caught(w);
    assert Long(1) == [Msg(1, 1)];
    var more := [Msg(2, 2), Msg(3, 2)];
    assert TiedBackward.ByTime(Long(1) + more);
    t := AppendsByTime(CAUGHT, more);
    assert Long(1) + more == [Msg(1, 1), Msg(2, 2), Msg(3, 2)];
    t := Free(t, StartUserForward(1), w);
  }

  lemma HalfGroup()
    ensures FetchForward([Msg(1, 1), Msg(2, 2), Msg(3, 2)], StartForward(Msg(1, 1), 1))
            == Fill(2, {2}, 1, [Msg(2, 2)], false)
  {
    hide FetchForward;
    var log := [Msg(1, 1), Msg(2, 2), Msg(3, 2)];
    var f := StartForward(Msg(1, 1), 1);
    assert log[..2] == [Msg(1, 1), Msg(2, 2)] && log[..2][..1] == [Msg(1, 1)] && log[..1][..0] == [];
    assert Below(log, 1) == 0 by {
      assert Below(log[..2], 1) == Below(log[..2][..1], 1) == 0;
    }
    var page := HistoryForward(log, 1, 2);
    assert page == [Msg(1, 1)] + [Msg(2, 2)];
    FilterConcat([Msg(1, 1)], [Msg(2, 2)], IsNewer(1, {1}));
    FilterFirst(Msg(1, 1), [], IsNewer(1, {1}));
    FilterFirst(Msg(2, 2), [], IsNewer(1, {1}));
    assert [Msg(1, 1)] + [] == [Msg(1, 1)] && [Msg(2, 2)] + [] == [Msg(2, 2)];
    FetchUnfolds(log, f);
    TakeNewerSpec([Msg(2, 2)], f);
  }

  // ---------------------------------------------------------------------------
  // A gap above the limit
  // ---------------------------------------------------------------------------

  /** The pass's forward loop as a run. */
  lemma {:induction false} PassRuns(s: State, f: Fill, waived: Option<Hypothesis>) returns (t: State, g: Fill)
    requires Reached(s, waived) && s.pass == PassForward(f) && |f.rest| <= f.left
    ensures Reached(t, waived) && FillOver(g)
    ensures t == s.(db := ForwardRun(s.log, s.db, f), pass := PassForward(g))
    decreases f.left, if f.rest == [] && !f.ended then 1 else 0
  {
    hide Reached, FetchForward, ForwardRun, StoreMessage;
    ForwardUnfolds(s.log, s.db, f);
    t, g := s, f;
    if f.rest != [] {
      t := Free(s, PassStore, waived);
      t, g := PassRuns(t, Stored(f), waived);
    } else if f.left > 0 && !f.ended {
      t := Free(s, PassFetch, waived);
      t, g := PassRuns(t, FetchForward(s.log, f), waived);
    }
  }

  /** One message more than the limit is missed: the pass marks the chat caught up all the same. */
  lemma LongGapBreaks() returns (t: State)
    ensures Reached(t, Some(GapWithinLimit)) && !NoGap(t.log, t.db) && Settled(t)
  {
    hide Reached, ForwardRun, Ordered, Possible, After, EnabledBut;
    var w, n := Some(GapWithinLimit), CATCHUP_LIMIT + 2;
    Missed(n, w);
    LongOrdered(n);
    LongOrdered(n + 1);
    var d := CAUGHT.db;
    LongStart(Anew(Long(n)));
    var s := Go(Anew(Long(n)), StartPassForward, w);
    var g;
    s, g := PassRuns(s, StartForward(Msg(1, 1), CATCHUP_LIMIT), w);
    ForwardExact(Long(n), d, 0, CATCHUP_LIMIT);
    LinkStepIs(s);
    s := Free(s, MarkPass, w);
    var x := Msg(n, n);
    assert x == s.log[n - 1];
    assert x !in Messages(Long(n)[1..n - 1]);
    t := OrderedJump(s, x, Msg(n + 1, n + 1), w);
  }

  lemma LongStart(s: State)
    requires s.identityOk && s.pass.Idle? && HasCursor(s.db)
    ensures EnabledBut(s, StartPassForward, Some(GapWithinLimit))
    ensures After(s, StartPassForward)
            == s.(pass := PassForward(StartForward(s.db.row.value.newest.value, CATCHUP_LIMIT)))
  {
  }

  // ---------------------------------------------------------------------------
  // A gap that fits the limit, and pages that get stuck
  // ---------------------------------------------------------------------------

  /** The server gets messages in the order of their times. */
  lemma {:induction false} AppendsByTime(s: State, ms: seq<Msg>) returns (t: State)
    requires Reached(s, Some(TimesGrow)) && TiedBackward.ByTime(s.log + ms)
    ensures Reached(t, Some(TimesGrow)) && t == s.(log := s.log + ms)
    decreases |ms|
  {
    hide Reached;
    if ms == [] {
      assert s.log + ms == s.log;
      t := s;
    } else {
      LaterByTime(s.log, ms);
      t := Go(s, ServerAppend(ms[0]), Some(TimesGrow));
      assert t.log + ms[1..] == s.log + ms;
      t := AppendsByTime(t, ms[1..]);
    }
  }

  lemma LaterByTime(log: seq<Msg>, ms: seq<Msg>)
    requires TiedBackward.ByTime(log + ms) && ms != []
    ensures forall x | x in log :: x.time <= ms[0].time && x.id != ms[0].id
  {
    forall i | 0 <= i < |log|
      ensures log[i].time <= ms[0].time && log[i].id != ms[0].id
    {
      assert TiedBackward.Follows(log + ms, i, |log|);
    }
  }

  /** A chat with one message, caught up, and the history it has after a time offline. */
  lemma Offline(log: seq<Msg>) returns (t: State)
    requires TiedBackward.ByTime(log) && log != [] && log[0] == Msg(1, 1) && |log| - 1 <= CATCHUP_LIMIT
    ensures Reached(t, Some(TimesGrow))
    ensures t == Anew(log).(pass := PassForward(StartForward(Msg(1, 1), CATCHUP_LIMIT)))
  {
    hide Reached, Below, Possible, After, EnabledBut;
    var w := Some(TimesGrow);
    Caught(w);
    LinkStepIs(CAUGHT);
    t := Free(CAUGHT, Disconnect, w);
    assert Long(1) == [Msg(1, 1)] && log == Long(1) + log[1..];
    t := AppendsByTime(t, log[1..]);
    t := Reconnects(t, w);
    assert 1 <= Below(log, 2) by { TiedBackward.BelowCounts(log, 2); }
    FitsStart(t);
    t := Go(t, StartPassForward, w);
  }

  lemma FitsStart(s: State)
    requires s.identityOk && s.pass.Idle? && HasCursor(s.db)
    requires s.since <= Below(s.log, s.db.row.value.newest.value.time + 1) + CATCHUP_LIMIT
    ensures EnabledBut(s, StartPassForward, Some(TimesGrow))
    ensures After(s, StartPassForward)
            == s.(pass := PassForward(StartForward(s.db.row.value.newest.value, CATCHUP_LIMIT)))
  {
    hide Below;
  }

  /**
   Whatever the history missed offline, as long as it fits the limit: if the loop takes less
   than all of it, the pass marks the chat caught up all the same, and the next live
   frame m moves the cursor over what is missing.
   */
  lemma ShortPassBreaks(log: seq<Msg>, m: Msg) returns (t: State)
    requires TiedBackward.ByTime(log + [m]) && log != [] && log[0] == Msg(1, 1) && |log| - 1 <= CATCHUP_LIMIT
    requires forall x | x in log :: x.time < m.time
    requires var f := StartForward(Msg(1, 1), CATCHUP_LIMIT);
             TiedForward.Gets(log, f) < |TiedForward.Remaining(log, f)|
    ensures Reached(t, Some(TimesGrow)) && !NoGap(t.log, t.db) && Settled(t) && t.log == log + [m]
  {
    hide Reached, ForwardRun, EnabledBut, Possible, After, NoGap, TiedForward.Gets, TiedForward.Remaining;
    var w, f := Some(TimesGrow), StartForward(Msg(1, 1), CATCHUP_LIMIT);
    assert (log + [m])[0..|log|] == log;
    TiedBackward.ByTimeSlice(log + [m], 0, |log|);
    t := Offline(log);
    var d := t.db;
    var g;
    t, g := PassRuns(t, f, w);
    var x := NotTaken(log, d);
    LinkStepIs(t);
    t := Free(t, MarkPass, w);
    LaterByTime(log, [m]);
    AppendMeets(t, m);
    t := LiveJump(t, x, m, w);
  }

  lemma AppendMeets(s: State, m: Msg)
    requires forall x | x in s.log :: x.time <= m.time && x.id != m.id
    ensures EnabledBut(s, ServerAppend(m), Some(TimesGrow)) && After(s, ServerAppend(m)) == s.(log := s.log + [m])
  {
  }

  /** A message the loop does not take, and the cursor pair it leaves. */
  lemma NotTaken(log: seq<Msg>, db: ChatDb) returns (x: Msg)
    requires TiedBackward.ByTime(log) && log != [] && log[0] == Msg(1, 1) && db == SEEDED.db
    requires var f := StartForward(Msg(1, 1), CATCHUP_LIMIT);
             TiedForward.Gets(log, f) < |TiedForward.Remaining(log, f)|
    ensures var d := ForwardRun(log, db, StartForward(Msg(1, 1), CATCHUP_LIMIT));
            && x in log && x !in d.stored && 1 <= x.time && d.row.Some? && d.row.value.newest.Some?
            && Lo(d.row) == 1 && exists y :: y in log && y.time == Hi(d.row)
  {
    hide ForwardRun, TiedForward.Remaining, TiedForward.Gets, TiedForward.RunGets;
    var f := StartForward(Msg(1, 1), CATCHUP_LIMIT);
    var r, n := TiedForward.Remaining(log, f), TiedForward.Gets(log, f);
    x := r[n];
    assert x in r;
    TiedForward.RemainingIn(log, f, x);
    TiedForward.ForwardExactTied(log, db, 0, CATCHUP_LIMIT);
    TiedForward.StoredOfRemaining(log, db, 0, CATCHUP_LIMIT);
    if n > 0 {
      assert r[n - 1] in r;
      TiedForward.RemainingIn(log, f, r[n - 1]);
    } else {
      assert log[0] in log;
    }
  }

  /** A hundred messages of one time: the pages show them over and over, and the one behind them is left out. */
  lemma BigGroupBreaks() returns (t: State)
    ensures Reached(t, Some(TimesGrow)) && !NoGap(t.log, t.db) && Settled(t)
    ensures t.log == StuckPages.BigGroup() + [Msg(103, 4)]
  {
    hide Reached, TiedForward.Gets, TiedForward.Remaining;
    var log, m, f := StuckPages.BigGroup(), Msg(103, 4), StartForward(Msg(1, 1), CATCHUP_LIMIT);
    StuckPages.BigGroupStops(CATCHUP_LIMIT);
    StuckPages.AllButFirst(log, CATCHUP_LIMIT);
    assert TiedBackward.ByTime(log + [m]);
    t := ShortPassBreaks(log, m);
  }

  /** A gap of 10,000 messages, of which one pair has one time: the last page shows the pair, and the last is left out. */
  lemma TiedTailBreaks() returns (t: State)
    ensures Reached(t, Some(TimesGrow)) && !NoGap(t.log, t.db) && Settled(t)
    ensures t.log == StuckPages.TiedTail() + [Msg(CATCHUP_LIMIT + 2, CATCHUP_LIMIT + 2)]
  {
    hide Reached, TiedForward.Gets, TiedForward.Remaining;
    var log, m := StuckPages.TiedTail(), Msg(CATCHUP_LIMIT + 2, CATCHUP_LIMIT + 2);
    StuckPages.TiedTailStops();
    StuckPages.AllButFirst(log, CATCHUP_LIMIT);
    assert TiedBackward.ByTime(log + [m]);
    t := ShortPassBreaks(log, m);
  }
}
