/**
 What runs of the sync protocol keep between two of their states: nothing stored is lost, the
 cursors only widen, a set flag stays, and a catch-up that saw the end of the history has
 everything the server had.
 */
module SyncRuns {
  import opened Wrappers
  import opened Seqs
  import opened MaxHistory
  import opened MaxBackward
  import opened SyncProtocol

  /**
   The exact condition of a cursor move: storing m with the right to advance keeps the
   promise if and only if m is not above the newest cursor or everything between the oldest
   cursor and m is stored.
   */
  lemma AdvanceKeepsIff(log: seq<Msg>, db: ChatDb, m: Msg)
    requires Ordered(log) && RowOk(log, db.row) && NoGap(log, db) && m in log
    ensures NoGap(log, StoreMessage(db, m, true))
            <==> (db.row.Some? && Hi(db.row) < m.time ==> CoveredBelow(log, db, m.time))
  {
    var e := StoreMessage(db, m, true);
    forall i | 0 <= i < |log|
      ensures log[i].time == m.time ==> log[i] == m
    {
      OrderAgrees(log, log[i], m);
    }
    if NoGap(log, e) && db.row.Some? && Hi(db.row) < m.time {
      forall i | 0 <= i < |log| && Lo(db.row) <= log[i].time < m.time
        ensures log[i] in db.stored
      {
        assert log[i] in e.stored;
      }
    }
  }

  // ---------------------------------------------------------------------------
  // Growth from step to step
  // ---------------------------------------------------------------------------

  /** The log grows, nothing stored is lost, and the cursor pair only widens. */
  ghost predicate Widens(s: State, t: State) {
    && s.log <= t.log && s.db.stored <= t.db.stored
    && (s.db.row.Some? ==> t.db.row.Some? && Lo(t.db.row) <= Lo(s.db.row) && Hi(s.db.row) <= Hi(t.db.row))
  }

  lemma StoreWidens(db: ChatDb, m: Msg, advance: bool)
    requires db.row.Some? ==> db.row.value.newest.Some?
    ensures var e := StoreMessage(db, m, advance);
            && db.stored <= e.stored
            && (db.row.Some? ==> e.row.Some? && Lo(e.row) == Lo(db.row) && Hi(db.row) <= Hi(e.row)
                                 && e.row.value.fullySynced == db.row.value.fullySynced)
            && (db.row.None? && e.row.Some? ==> !e.row.value.fullySynced)
  {
  }

  lemma MoveWidens(db: ChatDb, m: Msg)
    requires db.row.Some? ==> db.row.value.oldest.Some?
    ensures var row := MoveOldest(db.row, m);
            && row.Some?
            && (db.row.Some? ==> Lo(row) <= Lo(db.row) && Hi(row) == Hi(db.row)
                                 && row.value.fullySynced == db.row.value.fullySynced)
            && (db.row.None? ==> !row.value.fullySynced)
  {
  }

  predicate OfStore(step: Step) {
    step.Commit? || step.PassStore? || step.SeedStore? || step.UserStore? || step.BackStore?
  }

  lemma StepWidens(s: State, step: Step)
    requires RowOk(s.log, s.db.row) && Possible(s, step)
    ensures Widens(s, After(s, step))
  {
    hide Possible, After, Widens, RowOk;
    if OfStore(step) {
      StoreStepWidens(s, step);
    } else if step.SeedMove? || step.BackMove? {
      MoveStepWidens(s, step);
    } else {
      OtherStepWidens(s, step);
    }
  }

  lemma StoreStepWidens(s: State, step: Step)
    requires RowOk(s.log, s.db.row) && Possible(s, step) && OfStore(step)
    ensures Widens(s, After(s, step))
  {
    hide StoreMessage, FetchForward, FetchBackward, HistoryBackward;
    match step
    case Commit => StoreWidens(s.db, s.active.value.msg, s.active.value.advance);
    case PassStore => StoreWidens(s.db, s.pass.f.rest[0], true);
    case SeedStore => StoreWidens(s.db, s.pass.rest[0], true);
    case UserStore => StoreWidens(s.db, s.user.f.rest[0], true);
    case BackStore => StoreWidens(s.db, s.user.b.rest[0], true);
  }

  lemma MoveStepWidens(s: State, step: Step)
    requires RowOk(s.log, s.db.row) && Possible(s, step) && (step.SeedMove? || step.BackMove?)
    ensures Widens(s, After(s, step))
  {
    hide MoveOldest;
    match step
    case SeedMove => MoveWidens(s.db, s.pass.low.value);
    case BackMove => MoveWidens(s.db, s.user.b.low.value);
  }

  lemma OtherStepWidens(s: State, step: Step)
    requires Possible(s, step) && !OfStore(step) && !step.SeedMove? && !step.BackMove?
    ensures Widens(s, After(s, step))
  {
    hide FetchForward, FetchBackward, HistoryBackward, ListTail, HasGap, Below;
  }

  // ---------------------------------------------------------------------------
  // The flag
  // ---------------------------------------------------------------------------

  predicate Flagged(row: Option<Row>) {
    row.Some? && row.value.fullySynced
  }

  /** A backward fill of a fully synced chat has nothing to store and ends with the flag set. */
  ghost predicate FlagOk(s: State) {
    Flagged(s.db.row) && s.user.FillBackward? ==>
      && s.user.b.pos.Some? && s.user.b.rest == [] && s.user.b.low.None?
      && s.user.b.outcome != Some(false)
  }

  /** The page from the oldest cursor of a fully synced chat shows the beginning. */
  lemma FlagFetches(s: State)
    requires Sound(s) && FlagOk(s) && Flagged(s.db.row) && s.user.FillBackward? && s.user.b.left > 0
    ensures FetchBackward(s.log, s.user.b) == s.user.b.(outcome := Some(true))
  {
    hide FetchBackward, FillOk, SeedOk, Cutoff, Below;
    var u := BackUpper(s.log, s.db, s.user.b);
    FetchBackwardSpec(s.log, s.user.b, u);
    if u > 0 {
      OrderStrict(s.log, 0, u);
    }
  }

  /** The steps of the backward fill, and those that write the cursor row. */
  predicate OfFlag(step: Step) {
    || step.StartUserBackward? || step.BackFetch? || step.BackStore? || step.BackMove? || step.BackEnd?
    || step.Commit? || step.PassStore? || step.SeedStore? || step.UserStore? || step.SeedMove?
  }

  lemma OthersKeepFlag(s: State, step: Step)
    requires FlagOk(s) && Enabled(s, step) && !OfFlag(step)
    ensures FlagOk(After(s, step)) && Flagged(s.db.row) == Flagged(After(s, step).db.row)
  {
    hide FetchForward, FetchBackward, HistoryBackward, Ordered, Below, HasGap, ListTail;
  }

  lemma StoresKeepFlag(s: State, step: Step)
    requires RowOk(s.log, s.db.row) && FlagOk(s) && Enabled(s, step)
    requires step.Commit? || step.PassStore? || step.SeedStore? || step.UserStore? || step.SeedMove?
    ensures FlagOk(After(s, step)) && (Flagged(s.db.row) ==> Flagged(After(s, step).db.row))
  {
    hide Meets, StoreMessage, MoveOldest, FetchForward, FetchBackward, HistoryBackward;
    match step
    case Commit => StoreWidens(s.db, s.active.value.msg, s.active.value.advance);
    case PassStore => StoreWidens(s.db, s.pass.f.rest[0], true);
    case SeedStore => StoreWidens(s.db, s.pass.rest[0], true);
    case UserStore => StoreWidens(s.db, s.user.f.rest[0], true);
    case SeedMove => MoveWidens(s.db, s.pass.low.value);
  }

  lemma BackKeepsFlag(s: State, step: Step)
    requires Sound(s) && FlagOk(s) && Enabled(s, step)
    requires step.StartUserBackward? || step.BackFetch? || step.BackStore? || step.BackMove? || step.BackEnd?
    ensures FlagOk(After(s, step)) && (Flagged(s.db.row) ==> Flagged(After(s, step).db.row))
  {
    hide Meets, StoreMessage, MoveOldest, FetchForward, FetchBackward, HistoryBackward, FillOk, BackOk, SeedOk,
         NoGap, BeginningReached, QueueOk, LiveCover, CaughtOk, ActiveOk, ListedOk, PassOk, UserOk, Ordered, Queue;
    match step
    case BackFetch =>
      if Flagged(s.db.row) {
        FlagFetches(s);
      }
    case BackStore => StoreWidens(s.db, s.user.b.rest[0], true);
    case BackMove => MoveWidens(s.db, s.user.b.low.value);
    case _ =>
  }

  lemma StepKeepsFlag(s: State, step: Step)
    requires Sound(s) && FlagOk(s) && Enabled(s, step)
    ensures FlagOk(After(s, step))
    ensures Flagged(s.db.row) ==> Flagged(After(s, step).db.row)
  {
    hide Meets, After, FlagOk, Flagged, Sound;
    if !OfFlag(step) {
      OthersKeepFlag(s, step);
    } else if step.Commit? || step.PassStore? || step.SeedStore? || step.UserStore? || step.SeedMove? {
      assert RowOk(s.log, s.db.row) by { SoundRow(s); }
      StoresKeepFlag(s, step);
    } else {
      BackKeepsFlag(s, step);
    }
  }

  lemma SoundRow(s: State)
    requires Sound(s)
    ensures RowOk(s.log, s.db.row)
  {
  }

  // ---------------------------------------------------------------------------
  // Runs
  // ---------------------------------------------------------------------------

  lemma SoundAt(trace: seq<State>, i: nat)
    requires IsRun(trace) && i < |trace|
    ensures Sound(trace[i])
  {
    hide Follows, Sound;
    PrefixRuns(trace, i + 1, None);
    RunIsSound(trace[..i + 1]);
  }

  lemma StepOf(trace: seq<State>, i: nat) returns (step: Step)
    requires IsRun(trace) && 0 < i < |trace|
    ensures Enabled(trace[i - 1], step) && After(trace[i - 1], step) == trace[i]
  {
    hide Possible, Meets, After;
    assert StepAt(trace, i, None);
    step :| Enabled(trace[i - 1], step) && After(trace[i - 1], step) == trace[i];
  }

  /** Nothing stored is ever lost, and the cursors only widen. */
  lemma {:induction false} RunWidens(trace: seq<State>, i: nat, j: nat)
    requires IsRun(trace) && i <= j < |trace|
    ensures Widens(trace[i], trace[j])
    decreases j
  {
    hide IsRun, After, Possible, Meets;
    if i < j {
      RunWidens(trace, i, j - 1);
      var step := StepOf(trace, j);
      assert RowOk(trace[j - 1].log, trace[j - 1].db.row) by { SoundAt(trace, j - 1); }
      StepWidens(trace[j - 1], step);
    }
  }

  lemma {:induction false} FlagOkAt(trace: seq<State>, i: nat)
    requires IsRun(trace) && i < |trace|
    ensures FlagOk(trace[i])
  {
    hide After, Possible, Meets, Sound;
    if i > 0 {
      FlagOkAt(trace, i - 1);
      var step := StepOf(trace, i);
      SoundAt(trace, i - 1);
      StepKeepsFlag(trace[i - 1], step);
    }
  }

  /** Once a chat is fully synced no step of a run clears the flag: a backfill's limit is at least one. */
  lemma {:induction false} FlagStays(trace: seq<State>, i: nat, j: nat)
    requires IsRun(trace) && i <= j < |trace| && Flagged(trace[i].db.row)
    ensures Flagged(trace[j].db.row)
    decreases j
  {
    hide After, Possible, Meets, Sound, FlagOk;
    if i < j {
      FlagStays(trace, i, j - 1);
      var step := StepOf(trace, j);
      SoundAt(trace, j - 1);
      FlagOkAt(trace, j - 1);
      StepKeepsFlag(trace[j - 1], step);
    }
  }

  // ---------------------------------------------------------------------------
  // Catch-up completeness
  // ---------------------------------------------------------------------------

  /** The pass has just been answered with a page that shows nothing new. */
  ghost predicate SeesEnd(s: State, t: State) {
    t.pass.PassForward? && t.pass.f.ended && !(s.pass.PassForward? && s.pass.f.ended)
  }

  lemma EndIsFetched(s: State, step: Step)
    requires Possible(s, step) && SeesEnd(s, After(s, step))
    ensures step.PassFetch?
  {
    hide FetchForward, FetchBackward, HistoryBackward, StoreMessage;
  }

  /** After an empty page everything on the server from the oldest cursor on is stored. */
  lemma EndIsComplete(s: State)
    requires Sound(s) && s.pass.PassForward? && CanFetch(s.pass.f) && FetchForward(s.log, s.pass.f).ended
    ensures forall m | m in s.log && Lo(s.db.row) <= m.time :: m in s.db.stored
  {
    hide FetchForward, Below, BackOk, SeedOk;
    var f := s.pass.f;
    FillFetches(s.log, s.db, f);
    forall m | m in s.log && Lo(s.db.row) <= m.time
      ensures m in s.db.stored
    {
      var i := InLogAt(s.log, m);
      OrderUp(s.log, i, |s.log| - 1);
    }
  }

  /**
   Catch-up completeness: if the pass that was idle at state p is answered with an empty page
   at state q, every message the server had then, above the cursor at p or anywhere from
   the oldest cursor on, is stored from q on, frames dropped before the identity check
   included.
   */
  lemma CatchUpIsComplete(trace: seq<State>, p: nat, q: nat, k: nat)
    requires IsRun(trace) && p < q <= k < |trace|
    requires trace[p].db.row.Some? && SeesEnd(trace[q - 1], trace[q])
    ensures forall m | m in trace[q].log && Hi(trace[p].db.row) < m.time :: m in trace[k].db.stored
    ensures forall m | m in trace[q].log && Lo(trace[q].db.row) <= m.time :: m in trace[k].db.stored
  {
    hide IsRun, After, FetchForward;
    var step := StepOf(trace, q);
    EndIsFetched(trace[q - 1], step);
    var s := trace[q - 1];
    assert trace[q].log == s.log && trace[q].db == s.db && FetchForward(s.log, s.pass.f).ended by { FetchedState(s); }
    SoundAt(trace, q - 1);
    EndIsComplete(s);
    RunWidens(trace, q, k);
    RunWidens(trace, p, q);
    assert Lo(trace[p].db.row) <= Hi(trace[p].db.row) by {
      SoundAt(trace, p);
    }
  }

  /** One fill of the pass, from its start at the idle state p on. */
  ghost predicate OneFill(trace: seq<State>, p: nat, q: nat)
    requires p < q < |trace|
  {
    trace[p].pass.Idle? && forall j | p < j <= q :: trace[j].pass.PassForward?
  }

  /**
   How far a fill from log[c] on has come: it has taken as many messages as it used of its
   limit, in order, and its page holds the next ones.
   */
  ghost predicate CountsFrom(s: State, c: nat) {
    s.pass.PassForward? &&
    var f := s.pass.f;
    var k := c + CATCHUP_LIMIT - f.left;
    && 0 < c && |f.rest| <= f.left <= CATCHUP_LIMIT && k + |f.rest| <= |s.log|
    && AtCursor(s.log, f, k + |f.rest| - 1) && f.rest == s.log[k..k + |f.rest|]
    && forall i | c <= i < k :: s.log[i] in s.db.stored
  }

  lemma FillStarts(s: State, step: Step)
    requires Sound(s) && Possible(s, step) && s.pass.Idle? && After(s, step).pass.PassForward?
    ensures s.db.row.Some? && CountsFrom(After(s, step), Below(s.log, Hi(s.db.row) + 1))
  {
    hide Possible, After, Sound, CountsFrom;
    StartIs(s, step);
    StartCounts(s);
  }

  lemma StartIs(s: State, step: Step)
    requires Possible(s, step) && s.pass.Idle? && After(s, step).pass.PassForward?
    ensures step == StartPassForward
  {
    hide FetchForward, FetchBackward, HistoryBackward, StoreMessage, MoveOldest, ListTail, HasGap, Below;
  }

  lemma StartCounts(s: State)
    requires Sound(s) && Possible(s, StartPassForward)
    ensures s.db.row.Some? && CountsFrom(After(s, StartPassForward), Below(s.log, Hi(s.db.row) + 1))
  {
    hide Below, Sound, Ordered;
    SoundRow(s);
    SoundLog(s);
    var i := InLogAt(s.log, s.db.row.value.newest.value);
    BelowAt(s.log, i);
  }

  /** What other steps do to a fill: the history grows and nothing stored is lost. */
  lemma FillWaits(s: State, t: State, c: nat)
    requires CountsFrom(s, c) && s.log <= t.log && s.db.stored <= t.db.stored && t.pass == s.pass
    ensures CountsFrom(t, c)
  {
    var f := s.pass.f;
    var k := c + CATCHUP_LIMIT - f.left;
    assert t.log[k..k + |f.rest|] == s.log[k..k + |f.rest|];
  }

  lemma FillCounts(s: State, step: Step, c: nat)
    requires Sound(s) && Enabled(s, step) && CountsFrom(s, c) && After(s, step).pass.PassForward?
    ensures CountsFrom(After(s, step), c)
  {
    hide Meets, Ordered, FetchForward, StoreMessage, After, Sound, Widens;
    CountsIs(s, c);
    hide CountsFrom;
    if step == PassFetch {
      FetchCounts(s, c);
    } else if step == PassStore {
      StoreCounts(s, c);
    } else {
      assert RowOk(s.log, s.db.row) by { SoundRow(s); }
      StepWidens(s, step);
      SamePass(s, step);
      assert s.log <= After(s, step).log && s.db.stored <= After(s, step).db.stored by { WidensIs(s, After(s, step)); }
      FillWaits(s, After(s, step), c);
    }
  }

  lemma CountsIs(s: State, c: nat)
    requires CountsFrom(s, c)
    ensures s.pass.PassForward?
  {
  }

  lemma WidensIs(s: State, t: State)
    requires Widens(s, t)
    ensures s.log <= t.log && s.db.stored <= t.db.stored
  {
  }

  lemma SamePass(s: State, step: Step)
    requires Enabled(s, step) && s.pass.PassForward? && After(s, step).pass.PassForward?
    requires step != PassFetch && step != PassStore
    ensures After(s, step).pass == s.pass
  {
    hide FetchForward, FetchBackward, HistoryBackward, StoreMessage, MoveOldest, ListTail, HasGap, Below, Ordered;
  }

  lemma FetchCounts(s: State, c: nat)
    requires Sound(s) && Possible(s, PassFetch) && CountsFrom(s, c)
    ensures CountsFrom(After(s, PassFetch), c)
  {
    hide FetchForward, Ordered, Sound, StoreMessage;
    var f := s.pass.f;
    var k := c + CATCHUP_LIMIT - f.left;
    assert Ordered(s.log) by { SoundLog(s); }
    FetchForwardSpec(s.log, f, k - 1);
  }

  lemma SoundLog(s: State)
    requires Sound(s)
    ensures Ordered(s.log)
  {
  }

  lemma StoredState(s: State)
    requires Possible(s, PassStore)
    ensures s.pass.PassForward? && s.pass.f.rest != [] && s.pass.f.left > 0
    ensures After(s, PassStore) == StoreIn(s, s.pass.f.rest[0]).(pass := PassForward(Stored(s.pass.f)))
  {
  }

  lemma StoreCounts(s: State, c: nat)
    requires Possible(s, PassStore) && CountsFrom(s, c)
    ensures CountsFrom(After(s, PassStore), c)
  {
    hide Possible, After;
    StoredState(s);
    var f := s.pass.f;
    var k := c + CATCHUP_LIMIT - f.left;
    assert f.rest[0] == s.log[k] && f.rest[1..] == s.log[k + 1..k + |f.rest|];
  }

  lemma {:induction false} FillCountsOn(trace: seq<State>, p: nat, q: nat)
    requires IsRun(trace) && p < q < |trace| && OneFill(trace, p, q)
    ensures trace[p].db.row.Some? && CountsFrom(trace[q], Below(trace[p].log, Hi(trace[p].db.row) + 1))
    decreases q
  {
    hide IsRun, After, Possible, Meets, Sound, CountsFrom;
    var step := StepOf(trace, q);
    SoundAt(trace, q - 1);
    if q == p + 1 {
      FillStarts(trace[p], step);
    } else {
      FillCountsOn(trace, p, q - 1);
      FillCounts(trace[q - 1], step, Below(trace[p].log, Hi(trace[p].db.row) + 1));
    }
  }

  /**
   The fill takes the messages above its start in order, beside live frames and a growing
   history: with n of its limit used, the first n above the cursor it started from are
   stored, from then on. So a fill that ends because the limit is used up has stored the
   first 10,000 of them; one that ends otherwise has seen the end of the history.
   */
  lemma PassTakesInOrder(trace: seq<State>, p: nat, q: nat, k: nat)
    requires IsRun(trace) && p < q <= k < |trace| && OneFill(trace, p, q)
    ensures trace[p].db.row.Some?
    ensures var c, f := Below(trace[p].log, Hi(trace[p].db.row) + 1), trace[q].pass.f;
            && f.left <= CATCHUP_LIMIT && c + CATCHUP_LIMIT - f.left <= |trace[q].log|
            && (forall i | c <= i < c + CATCHUP_LIMIT - f.left :: trace[q].log[i] in trace[k].db.stored)
            && (FillOver(f) && !f.ended ==> f.left == 0)
  {
    hide IsRun, Below;
    FillCountsOn(trace, p, q);
    RunWidens(trace, q, k);
  }

  lemma FetchedState(s: State)
    requires s.pass.PassForward? && Possible(s, PassFetch)
    ensures After(s, PassFetch) == s.(pass := PassForward(FetchForward(s.log, s.pass.f)))
  {
  }

  /**
   A chat marked caught up without a fill: with a tail not above the cursor, everything the
   server had when the list was read is stored, from the oldest cursor on.
   */
  lemma NoTailIsComplete(trace: seq<State>)
    requires IsRun(trace)
    ensures var s := trace[|trace| - 1];
            s.listed.Some? && !HasGap(s.db) ==>
              && s.listed.value <= |s.log|
              && (s.listed.value > 0 ==> s.db.row.Some?)
              && forall m | m in s.log[..s.listed.value] && Lo(s.db.row) <= m.time :: m in s.db.stored
  {
    hide FillOk, BackOk, SeedOk, Below, QueueOk, LiveCover;
    RunIsSound(trace);
    var s := trace[|trace| - 1];
    if s.listed.Some? && !HasGap(s.db) {
      forall m | m in s.log[..s.listed.value] && Lo(s.db.row) <= m.time
        ensures m in s.db.stored
      {
        var i :| 0 <= i < s.listed.value && s.log[..s.listed.value][i] == m;
        assert s.log[i] == m;
        OrderUp(s.log, i, s.listed.value - 1);
      }
    }
  }

  /**
   Whatever marked the chat caught up: all that the server had at the identity check, from
   the oldest cursor on, is stored, though its frames may have been dropped.
   */
  lemma CaughtUpCoversOffline(trace: seq<State>)
    requires IsRun(trace)
    ensures var s := trace[|trace| - 1];
            s.caughtUp ==>
              && s.since <= |s.log|
              && forall m | m in s.log[..s.since] && (s.db.row.Some? ==> Lo(s.db.row) <= m.time) :: m in s.db.stored
  {
    hide FillOk, BackOk, SeedOk, Below, QueueOk, LiveCover, Ordered;
    RunIsSound(trace);
    var s := trace[|trace| - 1];
    forall m | s.caughtUp && m in s.log[..s.since] && (s.db.row.Some? ==> Lo(s.db.row) <= m.time)
      ensures m in s.db.stored
    {
      var i :| 0 <= i < s.since && s.log[..s.since][i] == m;
      assert s.log[i] == m && !Above(s.db.row, s.log[i]);
    }
  }
}
