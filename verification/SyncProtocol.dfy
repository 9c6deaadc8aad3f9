/**
 One chat's sync as a step protocol: the server appends messages, pushes them as live
 frames while a connection is up, connections come and go, catch-up passes and user
 backfills run page by page, and every one of these steps may fall between any two others.

 Live frames are pushed in log order: log[..edge] has arrived over the current connection,
 log[edge..] is on the wire and is lost when the connection drops. The answer to a send is
 handled as the frame of its message; edits and echoes bring an arrived message again. An
 arrived frame waits in the chat lock's queue (pending); the one being handled (active) has
 already read whether it may move the cursor, which happens before its transaction.
 */
module SyncProtocol {
  import opened Wrappers
  import opened Seqs
  import opened MaxHistory
  import opened MaxBackward

  datatype Live = Live(msg: Msg, advance: bool)

  /** The catch-up of the chat: idle, filling from the cursor, or storing the seed page. */
  datatype Pass = Idle | PassForward(f: Fill) | PassSeed(rest: seq<Msg>, low: Option<Msg>)

  /** The chat's backfill asked for by a user; at most one runs. */
  datatype User = NoFill | FillForward(f: Fill) | FillBackward(b: Back)

  /**
   since: how many messages the log had when the identity check let frames in;
   listed: how many it had when the running pass read the chat list.
   */
  datatype State = State(
    log: seq<Msg>, up: bool, identityOk: bool, edge: nat, since: nat,
    pending: seq<Msg>, active: Option<Live>,
    db: ChatDb, caughtUp: bool, listed: Option<nat>,
    pass: Pass, user: User)

  const INITIAL := State([], false, false, 0, 0, [], None, ChatDb({}, None, None), false, None, Idle, NoFill)

  datatype Task = ByFrame | ByPass | ByUser

  datatype Step =
    | ServerAppend(m: Msg)
    | Connect | Authorize | Disconnect
    | Arrive | Redeliver(k: nat) | AnswerEarly(k: nat) | Begin | Commit
    | ListChats | ListMisses | MarkNoTail
    | StartPassForward | StartSeed(n: nat)
    | PassFetch | PassStore | SeedStore | SeedMove | MarkPass | PassAbort
    | StartUserForward(limit: nat) | UserFetch | UserStore | UserForwardEnd
    | StartUserBackward(limit: nat, stop: Option<int>)
    | BackFetch | BackStore | BackMove | BackEnd
    | UserAbort
    | StoreFails(task: Task)

  predicate Advancing(s: State) {
    s.active.Some? && s.active.value.advance
  }

  /** No other task is making the chat's first cursor row. */
  predicate FirstFillFree(s: State) {
    s.db.row.None? ==> !s.pass.PassSeed? && !s.user.FillBackward?
  }

  predicate CanFetch(f: Fill) {
    f.rest == [] && f.left > 0 && !f.ended
  }

  predicate FillOver(f: Fill) {
    f.rest == [] && (f.left == 0 || f.ended)
  }

  predicate HasCursor(db: ChatDb) {
    db.row.Some? && db.row.value.newest.Some?
  }

  /** The waiting part of a task's page is not empty. */
  predicate HasStore(s: State, task: Task) {
    match task
    case ByFrame => s.active.Some?
    case ByPass => (s.pass.PassForward? && s.pass.f.rest != []) || (s.pass.PassSeed? && s.pass.rest != [])
    case ByUser => (s.user.FillForward? && s.user.f.rest != []) || (s.user.FillBackward? && s.user.b.rest != [])
  }

  /**
   When a step may happen by the code's own guards. The server's history is by time and its
   ids are distinct. A pass seeds a chat that had no cursor when its candidates were read,
   which may have been some steps ago. The limit of a backfill is at least one.
   */
  ghost predicate Possible(s: State, step: Step) {
    match step
    case ServerAppend(m) => forall x | x in s.log :: x.time <= m.time && x.id != m.id
    case Connect => !s.up
    case Authorize => s.up && !s.identityOk
    case Disconnect => s.up
    case Arrive => s.up && s.edge < |s.log|
    case Redeliver(k) => s.up && s.identityOk && k < s.edge && k < |s.log|
    case AnswerEarly(k) => s.up && s.identityOk && s.edge < k < |s.log|
    case Begin => s.active.None? && s.pending != []
    case Commit => s.active.Some?
    case ListChats => s.identityOk && s.pass.Idle?
    case ListMisses => s.identityOk && s.pass.Idle?
    case MarkNoTail => s.listed.Some? && s.pass.Idle? && !HasGap(s.db)
    case StartPassForward => s.identityOk && s.pass.Idle? && HasCursor(s.db)
    case StartSeed(n) => s.identityOk && s.pass.Idle?
    case PassFetch => s.pass.PassForward? && CanFetch(s.pass.f)
    case PassStore => s.pass.PassForward? && s.pass.f.rest != [] && s.pass.f.left > 0
    case SeedStore => s.pass.PassSeed? && s.pass.rest != []
    case SeedMove => s.pass.PassSeed? && s.pass.rest == [] && s.pass.low.Some?
    case MarkPass =>
      || (s.pass.PassForward? && FillOver(s.pass.f))
      || (s.pass.PassSeed? && s.pass.rest == [] && s.pass.low.None?)
    case PassAbort => true
    case StartUserForward(limit) => limit > 0 && s.user.NoFill? && HasCursor(s.db)
    case UserFetch => s.user.FillForward? && CanFetch(s.user.f)
    case UserStore => s.user.FillForward? && s.user.f.rest != [] && s.user.f.left > 0
    case UserForwardEnd => s.user.FillForward? && FillOver(s.user.f)
    case StartUserBackward(limit, stop) => limit > 0 && s.user.NoFill?
    case BackFetch =>
      s.user.FillBackward? && s.user.b.rest == [] && s.user.b.low.None? && s.user.b.outcome.None?
      && s.user.b.left > 0
    case BackStore => s.user.FillBackward? && s.user.b.rest != [] && s.user.b.left > 0
    case BackMove => s.user.FillBackward? && s.user.b.rest == [] && s.user.b.low.Some?
    case BackEnd =>
      s.user.FillBackward? && s.user.b.rest == [] && s.user.b.low.None? && s.user.b.outcome.Some?
    case UserAbort => true
    case StoreFails(task) => HasStore(s, task)
  }

  /** What the cursor promise rests on beside the code's own guards. */
  datatype Hypothesis =
    | TimesGrow | StoresSucceed | AnswersInOrder | FullList | GapWithinLimit | PassEnded
    | SeedNotEmpty | FirstFillAlone

  /** No other task makes the chat's first cursor row, nor may a live frame. */
  predicate FillsAlone(s: State, step: Step) {
    && (step.MarkNoTail? ==> FirstFillFree(s))
    && (step.StartSeed? ==> s.db.row.None? && !s.caughtUp && !Advancing(s) && FirstFillFree(s))
    && (step.StartUserBackward? && s.db.row.None? ==> !s.pass.PassSeed? && !s.caughtUp && !Advancing(s))
  }

  /** The guard a hypothesis puts on a step. */
  ghost predicate Meets(s: State, step: Step, h: Hypothesis) {
    match h
    case TimesGrow => step.ServerAppend? ==> Ordered(s.log + [step.m]) && step.m.time > 0
    case StoresSucceed => !step.StoreFails?
    case AnswersInOrder => !step.AnswerEarly?
    case FullList => !step.ListMisses?
    case GapWithinLimit =>
      step.StartPassForward? && HasCursor(s.db) ==>
        s.since <= Below(s.log, s.db.row.value.newest.value.time + 1) + CATCHUP_LIMIT
    case PassEnded => step.Connect? ==> s.pass.Idle?
    case SeedNotEmpty => step.StartSeed? ==> step.n > 0
    case FirstFillAlone => FillsAlone(s, step)
  }

  /** The steps under all hypotheses but one. */
  ghost predicate EnabledBut(s: State, step: Step, waived: Option<Hypothesis>) {
    && Possible(s, step)
    && (waived != Some(TimesGrow) ==> Meets(s, step, TimesGrow))
    && (waived != Some(StoresSucceed) ==> Meets(s, step, StoresSucceed))
    && (waived != Some(AnswersInOrder) ==> Meets(s, step, AnswersInOrder))
    && (waived != Some(FullList) ==> Meets(s, step, FullList))
    && (waived != Some(GapWithinLimit) ==> Meets(s, step, GapWithinLimit))
    && (waived != Some(PassEnded) ==> Meets(s, step, PassEnded))
    && (waived != Some(SeedNotEmpty) ==> Meets(s, step, SeedNotEmpty))
    && (waived != Some(FirstFillAlone) ==> Meets(s, step, FirstFillAlone))
  }

  /** The steps under all hypotheses. */
  ghost predicate Enabled(s: State, step: Step) {
    EnabledBut(s, step, None)
  }

  /** Steps on which no hypothesis puts a guard. */
  predicate IsFree(step: Step) {
    !(step.ServerAppend? || step.Connect? || step.AnswerEarly? || step.ListMisses? || step.MarkNoTail?
      || step.StartPassForward? || step.StartSeed? || step.StartUserBackward? || step.StoreFails?)
  }

  lemma FreeEnabled(s: State, step: Step, waived: Option<Hypothesis>)
    requires Possible(s, step) && IsFree(step)
    ensures EnabledBut(s, step, waived)
  {
    hide Possible;
  }

  /** A store that fails is logged and passed over. */
  function Skipped(s: State, task: Task): State
    requires HasStore(s, task)
  {
    match task
    case ByFrame => s.(active := None)
    case ByPass =>
      if s.pass.PassForward? then s.(pass := PassForward(s.pass.f.(rest := s.pass.f.rest[1..])))
      else s.(pass := PassSeed(s.pass.rest[1..], s.pass.low))
    case ByUser =>
      if s.user.FillForward? then s.(user := FillForward(s.user.f.(rest := s.user.f.rest[1..])))
      else s.(user := FillBackward(s.user.b.(rest := s.user.b.rest[1..])))
  }

  function StoreIn(s: State, m: Msg): State {
    s.(db := StoreMessage(s.db, m, true))
  }

  function After(s: State, step: Step): State
    requires Possible(s, step)
  {
    match step
    case ServerAppend(m) => s.(log := s.log + [m])
    case Connect => s.(up := true, identityOk := false, caughtUp := false, listed := None, edge := |s.log|)
    case Authorize => s.(identityOk := true, since := s.edge)
    case Disconnect => s.(up := false)
    case Arrive =>
      s.(edge := s.edge + 1, pending := if s.identityOk then s.pending + [s.log[s.edge]] else s.pending)
    case Redeliver(k) => s.(pending := s.pending + [s.log[k]])
    case AnswerEarly(k) => s.(pending := s.pending + [s.log[k]])
    case Begin => s.(active := Some(Live(s.pending[0], s.caughtUp)), pending := s.pending[1..])
    case Commit =>
      s.(db := StoreMessage(s.db, s.active.value.msg, s.active.value.advance), active := None)
    case ListChats =>
      var last := if s.log == [] then None else Some(s.log[|s.log| - 1]);
      s.(listed := Some(|s.log|), db := s.db.(tail := ListTail(s.db.tail, last)))
    case ListMisses => s.(listed := Some(|s.log|))
    case MarkNoTail => s.(caughtUp := true)
    case StartPassForward => s.(pass := PassForward(StartForward(s.db.row.value.newest.value, CATCHUP_LIMIT)))
    case StartSeed(n) =>
      var page := HistoryBackward(s.log, None, n);
      s.(pass := PassSeed(page, if page == [] then None else Some(Earliest(page))))
    case PassFetch => s.(pass := PassForward(FetchForward(s.log, s.pass.f)))
    case PassStore => StoreIn(s, s.pass.f.rest[0]).(pass := PassForward(Stored(s.pass.f)))
    case SeedStore => StoreIn(s, s.pass.rest[0]).(pass := PassSeed(s.pass.rest[1..], s.pass.low))
    case SeedMove =>
      s.(db := s.db.(row := MoveOldest(s.db.row, s.pass.low.value)), pass := PassSeed([], None))
    case MarkPass => s.(caughtUp := true, pass := Idle)
    case PassAbort => s.(pass := Idle)
    case StartUserForward(limit) => s.(user := FillForward(StartForward(s.db.row.value.newest.value, limit)))
    case UserFetch => s.(user := FillForward(FetchForward(s.log, s.user.f)))
    case UserStore => StoreIn(s, s.user.f.rest[0]).(user := FillForward(Stored(s.user.f)))
    case UserForwardEnd => s.(db := s.db.(row := FinishBackfill(s.db.row, None)), user := NoFill)
    case StartUserBackward(limit, stop) => s.(user := FillBackward(StartBackward(s.db.row, stop, limit)))
    case BackFetch => s.(user := FillBackward(FetchBackward(s.log, s.user.b)))
    case BackStore => StoreIn(s, s.user.b.rest[0]).(user := FillBackward(StoredBack(s.user.b)))
    case BackMove =>
      s.(db := s.db.(row := MoveOldest(s.db.row, s.user.b.low.value)), user := FillBackward(Moved(s.user.b)))
    case BackEnd => s.(db := s.db.(row := FinishBackfill(s.db.row, s.user.b.outcome)), user := NoFill)
    case UserAbort => s.(user := NoFill)
    case StoreFails(task) => Skipped(s, task)
  }

  // ---------------------------------------------------------------------------
  // What every step keeps
  // ---------------------------------------------------------------------------

  function Lo(row: Option<Row>): int {
    if row.Some? && row.value.oldest.Some? then row.value.oldest.value.time else 0
  }

  function Hi(row: Option<Row>): int {
    if row.Some? && row.value.newest.Some? then row.value.newest.value.time else 0
  }

  ghost predicate RowOk(log: seq<Msg>, row: Option<Row>) {
    row.Some? ==>
      && row.value.newest.Some? && row.value.newest.value in log
      && row.value.oldest.Some? && row.value.oldest.value in log
      && Lo(row) <= Hi(row)
  }

  /** The promise of the cursor pair: no gap between oldest and newest. */
  ghost predicate NoGap(log: seq<Msg>, db: ChatDb) {
    db.row.Some? ==>
      forall i | 0 <= i < |log| && Lo(db.row) <= log[i].time <= Hi(db.row) :: log[i] in db.stored
  }

  /** The promise of is_fully_synced: nothing is older than the oldest cursor. */
  ghost predicate BeginningReached(log: seq<Msg>, row: Option<Row>) {
    row.Some? && row.value.fullySynced ==> forall i | 0 <= i < |log| :: Lo(row) <= log[i].time
  }

  ghost predicate Base(s: State) {
    && Ordered(s.log) && s.edge <= |s.log| && (s.identityOk ==> s.since <= s.edge)
    && RowOk(s.log, s.db.row)
    && (s.db.tail.Some? ==> s.db.tail.value in s.log)
  }

  /** Frames received and not stored yet, in arrival order. */
  function Queue(s: State): seq<Msg> {
    (if s.active.Some? then [s.active.value.msg] else []) + s.pending
  }

  function Arrived(s: State): seq<Msg> {
    s.log[..Min(s.edge, |s.log|)]
  }

  /**
   Waiting frames have arrived, and each comes in its turn: what this connection brought
   earlier is stored or waits before it.
   */
  ghost predicate QueueOk(s: State) {
    && (forall m | m in Queue(s) :: m in Arrived(s))
    && (s.identityOk ==>
          forall q, i | 0 <= q < |Queue(s)| && s.since <= i < s.edge && i < |s.log|
                        && s.log[i].time < Queue(s)[q].time ::
            s.log[i] in s.db.stored || s.log[i] in Queue(s)[..q])
  }

  ghost predicate Kept(s: State, m: Msg) {
    m in s.db.stored || m in Queue(s)
  }

  predicate Above(row: Option<Row>, m: Msg) {
    row.Some? ==> m.time > Hi(row)
  }

  /** Every frame of this connection since the identity check is stored or waits. */
  ghost predicate LiveCover(s: State) {
    s.identityOk ==> forall i | s.since <= i < s.edge && i < |s.log| :: Kept(s, s.log[i])
  }

  /** Everything the log had at the identity check is at or below the cursor. */
  ghost predicate OfflineCovered(s: State) {
    forall i | 0 <= i < s.since && i < |s.log| :: !Above(s.db.row, s.log[i])
  }

  /** Of a caught-up chat nothing missed offline is above the cursor. */
  ghost predicate CaughtOk(s: State) {
    s.caughtUp ==> s.identityOk && OfflineCovered(s)
  }

  /** A frame about to move the cursor has nothing missing below it. */
  ghost predicate ActiveOk(s: State) {
    Advancing(s) ==>
      forall i | 0 <= i < |s.log| && s.log[i].time < s.active.value.msg.time
                 && (s.db.row.Some? ==> Lo(s.db.row) <= s.log[i].time) ::
        s.log[i] in s.db.stored
  }

  ghost predicate ListedOk(s: State) {
    s.listed.Some? ==>
      && s.identityOk && s.since <= s.listed.value <= |s.log|
      && (s.listed.value > 0 ==>
            s.db.tail.Some? && s.log[s.listed.value - 1].time <= s.db.tail.value.time)
  }

  /** A forward fill: all up to its position is stored, or waits in its page. */
  ghost predicate FillOk(log: seq<Msg>, db: ChatDb, f: Fill) {
    && db.row.Some? && |f.rest| <= f.left
    && AtCursor(log, f, Below(log, f.pos))
    && Ordered(f.rest) && (forall m | m in f.rest :: m in log)
    && (if f.rest == [] then f.pos <= Hi(db.row) else f.rest[|f.rest| - 1].time == f.pos)
    && (forall i | 0 <= i < |log| && Lo(db.row) <= log[i].time <= f.pos ::
          log[i] in db.stored || log[i] in f.rest)
  }

  /** The offline gap still fits what the pass may store. */
  ghost predicate GapFits(log: seq<Msg>, since: nat, f: Fill) {
    && since + |f.rest| <= Below(log, f.pos) + 1 + f.left
    && (f.ended ==> since <= Below(log, f.pos) + 1)
  }

  ghost predicate SeedOk(s: State, rest: seq<Msg>, low: Option<Msg>) {
    var row := s.db.row;
    && !s.caughtUp && !Advancing(s) && (row.None? ==> !s.user.FillBackward?)
    && Ordered(rest) && (forall m | m in rest :: m in s.log)
    && (low.Some? ==> low.value in s.log && (row.Some? ==> Lo(row) <= low.value.time))
    && (rest != [] ==> forall i | 0 <= i < s.since && i < |s.log| :: s.log[i].time <= rest[|rest| - 1].time)
    && (rest == [] && row.Some? ==> forall i | 0 <= i < s.since && i < |s.log| :: s.log[i].time <= Hi(row))
    && (row.None? ==>
          && (rest == [] ==> low.None? && s.since == 0)
          && (rest != [] ==> low == Some(rest[0])))
    && (rest != [] ==>
          forall i | 0 <= i < |s.log| && s.log[i].time <= rest[|rest| - 1].time
                     && (if row.Some? then Lo(row) else rest[0].time) <= s.log[i].time ::
            s.log[i] in s.db.stored || s.log[i] in rest)
  }

  ghost predicate PassOk(s: State) {
    match s.pass
    case Idle => true
    case PassForward(f) => s.identityOk && FillOk(s.log, s.db, f) && GapFits(s.log, s.since, f)
    case PassSeed(rest, low) => s.identityOk && SeedOk(s, rest, low)
  }

  /** A backward fill: what its page passed is stored, or waits in the page. */
  ghost predicate BackOk(log: seq<Msg>, db: ChatDb, b: Back) {
    && |b.rest| <= b.left && (b.rest != [] ==> b.low.Some?)
    && (forall m | m in b.rest :: m in log)
    && (b.pos.Some? ==> db.row.Some? && b.pos.value == Lo(db.row))
    && (b.low.Some? ==> b.low.value in log && b.outcome.None?)
    && (db.row.None? && b.low.Some? ==>
          && b.rest != [] && b.low.value.time <= b.rest[0].time
          && forall k | 0 < k < |b.rest| :: b.rest[k].time < b.rest[0].time)
    && (db.row.Some? ==>
          && (b.pos.Some? || b.low.Some?)
          && (b.low.Some? ==> b.low.value.time <= Lo(db.row))
          && (forall m | m in b.rest :: m.time < Lo(db.row)))
    && (b.low.Some? ==>
          forall i | 0 <= i < |log| && b.low.value.time <= log[i].time
                     && log[i].time < (if db.row.Some? then Lo(db.row) else b.rest[0].time) ::
            log[i] in db.stored || log[i] in b.rest)
    && (b.outcome == Some(true) && db.row.Some? ==> forall i | 0 <= i < |log| :: Lo(db.row) <= log[i].time)
  }

  ghost predicate UserOk(s: State) {
    match s.user
    case NoFill => true
    case FillForward(f) => FillOk(s.log, s.db, f)
    case FillBackward(b) =>
      BackOk(s.log, s.db, b) && (s.db.row.None? ==> !s.caughtUp && !Advancing(s) && !s.pass.PassSeed?)
  }

  ghost predicate Sound(s: State) {
    && Base(s) && NoGap(s.log, s.db) && BeginningReached(s.log, s.db.row)
    && QueueOk(s) && LiveCover(s) && CaughtOk(s) && ActiveOk(s) && ListedOk(s)
    && PassOk(s) && UserOk(s)
  }

  lemma SoundInitially()
    ensures Sound(INITIAL)
  {
  }

  // ---------------------------------------------------------------------------
  // Steps of the server and of the connection
  // ---------------------------------------------------------------------------

  lemma AppendLater(log: seq<Msg>, m: Msg)
    requires Ordered(log + [m])
    ensures Ordered(log)
    ensures forall i | 0 <= i < |log| :: log[i].time < m.time
    ensures forall x | x in log :: x.time < m.time
  {
    var next := log + [m];
    forall i | 0 <= i < |log|
      ensures log[i].time < m.time
    {
      assert Precedes(next, i, |log|);
    }
    OrderedSlice(next, 0, |log|);
    assert next[0..|log|] == log;
  }

  lemma FillAppends(log: seq<Msg>, m: Msg, db: ChatDb, f: Fill)
    requires Ordered(log + [m]) && FillOk(log, db, f)
    ensures FillOk(log + [m], db, f) && Below(log + [m], f.pos) == Below(log, f.pos)
  {
    AppendLater(log, m);
    BelowAppend(log, m, f.pos);
  }

  lemma BackAppends(log: seq<Msg>, m: Msg, db: ChatDb, b: Back)
    requires Ordered(log + [m]) && BackOk(log, db, b) && RowOk(log, db.row)
    ensures BackOk(log + [m], db, b)
  {
    AppendLater(log, m);
    if b.rest != [] {
      assert b.rest[0] in b.rest;
    }
  }

  lemma SeedAppends(s: State, m: Msg, rest: seq<Msg>, low: Option<Msg>)
    requires Ordered(s.log + [m]) && SeedOk(s, rest, low) && RowOk(s.log, s.db.row)
    requires s.since <= |s.log|
    ensures SeedOk(s.(log := s.log + [m]), rest, low)
  {
    AppendLater(s.log, m);
    if rest != [] {
      assert rest[|rest| - 1] in rest;
    }
  }

  lemma AppendKeeps(s: State, m: Msg)
    requires Sound(s) && Ordered(s.log + [m])
    ensures Sound(s.(log := s.log + [m]))
  {
    hide Ordered, FillOk, BackOk, SeedOk;
    AppendLater(s.log, m);
    var t := s.(log := s.log + [m]);
    assert Arrived(t) == Arrived(s);
    assert UserOk(t) by {
      if s.user.FillForward? {
        FillAppends(s.log, m, s.db, s.user.f);
      }
      if s.user.FillBackward? {
        BackAppends(s.log, m, s.db, s.user.b);
      }
    }
    assert PassOk(t) by {
      if s.pass.PassForward? {
        FillAppends(s.log, m, s.db, s.pass.f);
      }
      if s.pass.PassSeed? {
        SeedAppends(s, m, s.pass.rest, s.pass.low);
      }
    }
    hide PassOk, UserOk;
    AppendKeepsRest(s, m);
  }

  lemma AppendKeepsRest(s: State, m: Msg)
    requires Base(s) && NoGap(s.log, s.db) && BeginningReached(s.log, s.db.row)
    requires QueueOk(s) && LiveCover(s) && CaughtOk(s) && ActiveOk(s) && ListedOk(s)
    requires Ordered(s.log + [m])
    ensures var t := s.(log := s.log + [m]);
            && Base(t) && NoGap(t.log, t.db) && BeginningReached(t.log, t.db.row)
            && QueueOk(t) && LiveCover(t) && CaughtOk(t) && ActiveOk(t) && ListedOk(t)
  {
    hide Ordered;
    AppendLater(s.log, m);
    var t := s.(log := s.log + [m]);
    assert Arrived(t) == Arrived(s);
    if s.active.Some? {
      assert s.active.value.msg in Queue(s);
    }
  }

  /** A new connection: the resets, and what was on the old wire is lost. */
  lemma ConnectKeeps(s: State)
    requires Sound(s) && s.pass.Idle?
    ensures Sound(s.(up := true, identityOk := false, caughtUp := false, listed := None, edge := |s.log|))
  {
    hide Ordered, FillOk, BackOk, NoGap, BeginningReached, RowOk;
    var t := s.(up := true, identityOk := false, caughtUp := false, listed := None, edge := |s.log|);
    assert Queue(t) == Queue(s);
    assert forall m | m in Arrived(s) :: m in Arrived(t);
  }

  /** The identity check lets frames in from here on. */
  lemma AuthorizeKeeps(s: State)
    requires Sound(s) && !s.identityOk
    ensures Sound(s.(identityOk := true, since := s.edge))
  {
    hide Ordered, FillOk, BackOk, NoGap, BeginningReached, RowOk;
    var t := s.(identityOk := true, since := s.edge);
    assert Queue(t) == Queue(s) && Arrived(t) == Arrived(s);
  }

  lemma DisconnectKeeps(s: State)
    requires Sound(s)
    ensures Sound(s.(up := false))
  {
    hide Ordered, FillOk, BackOk, NoGap, BeginningReached, RowOk;
    var t := s.(up := false);
    assert Queue(t) == Queue(s) && Arrived(t) == Arrived(s);
  }

  lemma ArriveKeeps(s: State)
    requires Sound(s) && s.edge < |s.log|
    ensures Sound(s.(edge := s.edge + 1,
                     pending := if s.identityOk then s.pending + [s.log[s.edge]] else s.pending))
  {
    hide PassOk, UserOk, CaughtOk, ActiveOk, ListedOk, Ordered, NoGap, BeginningReached, RowOk;
    var m := s.log[s.edge];
    var t := s.(edge := s.edge + 1, pending := if s.identityOk then s.pending + [m] else s.pending);
    assert Arrived(t) == Arrived(s) + [m];
    if s.identityOk {
      assert Queue(t) == Queue(s) + [m];
      ArrivedEarlier(s);
      FrameQueues(s, t, m);
    } else {
      assert Queue(t) == Queue(s);
    }
    FrameRest(s, t);
  }

  /** A frame that arrives concerns the queue only. */
  lemma FrameRest(s: State, t: State)
    requires Sound(s) && t == s.(edge := t.edge, pending := t.pending) && s.edge <= t.edge <= |s.log|
    requires QueueOk(t) && LiveCover(t)
    ensures Sound(t)
  {
    hide QueueOk, LiveCover, FillOk, BackOk, Ordered, NoGap, BeginningReached, RowOk;
  }

  /** Everything that waits is older than what is on the wire. */
  lemma ArrivedEarlier(s: State)
    requires Ordered(s.log) && QueueOk(s) && s.edge < |s.log|
    ensures forall q | 0 <= q < |Queue(s)| :: Queue(s)[q].time < s.log[s.edge].time
  {
    hide Queue;
    forall q | 0 <= q < |Queue(s)|
      ensures Queue(s)[q].time < s.log[s.edge].time
    {
      assert Queue(s)[q] in Arrived(s);
      var x :| 0 <= x < s.edge && Arrived(s)[x] == Queue(s)[q];
      OrderStrict(s.log, x, s.edge);
    }
  }

  /** A frame put at the end of the queue comes in its turn. */
  lemma FrameQueues(s: State, t: State, m: Msg)
    requires s.identityOk && QueueOk(s) && LiveCover(s)
    requires t == s.(edge := t.edge, pending := s.pending + [m]) && Queue(t) == Queue(s) + [m] && m in Arrived(t)
    requires t.edge == s.edge || (t.edge == s.edge + 1 && s.edge < |s.log| && m == s.log[s.edge]
                                  && forall q | 0 <= q < |Queue(s)| :: Queue(s)[q].time < s.log[s.edge].time)
    ensures QueueOk(t) && LiveCover(t)
  {
    hide Queue;
    assert forall x | x in Arrived(s) :: x in Arrived(t);
    forall q, i | 0 <= q < |Queue(t)| && t.since <= i < t.edge && i < |t.log| && t.log[i].time < Queue(t)[q].time
      ensures t.log[i] in t.db.stored || t.log[i] in Queue(t)[..q]
    {
      if q < |Queue(s)| {
        assert Queue(t)[q] == Queue(s)[q] && Queue(t)[..q] == Queue(s)[..q];
      } else {
        assert Queue(t)[..q] == Queue(s);
        assert i < s.edge;
        assert Kept(s, s.log[i]);
      }
    }
  }

  /** An edit or an echo brings an arrived message again. */
  lemma RedeliverKeeps(s: State, k: nat)
    requires Sound(s) && s.identityOk && k < s.edge && k < |s.log|
    ensures Sound(s.(pending := s.pending + [s.log[k]]))
  {
    hide PassOk, UserOk, CaughtOk, ActiveOk, ListedOk, Ordered, NoGap, BeginningReached, RowOk;
    var t := s.(pending := s.pending + [s.log[k]]);
    assert Queue(t) == Queue(s) + [s.log[k]] && Arrived(t) == Arrived(s);
    assert Arrived(t)[k] == s.log[k];
    FrameQueues(s, t, s.log[k]);
    FrameRest(s, t);
  }

  // ---------------------------------------------------------------------------
  // Growth of the tables
  // ---------------------------------------------------------------------------

  lemma OrderAgrees(log: seq<Msg>, a: Msg, b: Msg)
    requires Ordered(log) && a in log && b in log
    ensures a.id <= b.id <==> a.time <= b.time
    ensures a.time == b.time ==> a == b
  {
    var i :| 0 <= i < |log| && log[i] == a;
    var j :| 0 <= j < |log| && log[j] == b;
    if i < j {
      assert Precedes(log, i, j);
    } else if j < i {
      assert Precedes(log, j, i);
    }
  }

  lemma HeadEarliest(ms: seq<Msg>)
    requires Ordered(ms) && ms != []
    ensures Ordered(ms[1..])
    ensures forall m | m in ms[1..] :: ms[0].time < m.time
    ensures forall m | m in ms :: ms[0].time <= m.time && (m.time <= ms[0].time ==> m == ms[0])
  {
    OrderedSlice(ms, 1, |ms|);
    assert ms[1..|ms|] == ms[1..];
    forall j | 0 < j < |ms|
      ensures ms[0].time < ms[j].time
    {
      assert Precedes(ms, 0, j);
    }
  }

  /** All messages from the oldest cursor up to (and not including) time t are stored. */
  ghost predicate CoveredBelow(log: seq<Msg>, db: ChatDb, t: int) {
    forall i | 0 <= i < |log| && Lo(db.row) <= log[i].time < t :: log[i] in db.stored
  }

  /** Nothing stored is lost, and the cursor pair only widens over stored messages. */
  ghost predicate Grows(log: seq<Msg>, d: ChatDb, e: ChatDb) {
    && d.stored <= e.stored
    && (d.row.Some? ==>
          && e.row.Some? && Lo(e.row) <= Lo(d.row) && Hi(d.row) <= Hi(e.row)
          && forall i | 0 <= i < |log| && Lo(e.row) <= log[i].time < Lo(d.row) :: log[i] in e.stored)
  }

  /** The tables' own promises. */
  ghost predicate TablesOk(log: seq<Msg>, db: ChatDb) {
    && RowOk(log, db.row) && NoGap(log, db) && BeginningReached(log, db.row)
    && (db.tail.Some? ==> db.tail.value in log)
  }

  ghost predicate TailGrows(d: ChatDb, e: ChatDb) {
    d.tail.Some? ==> e.tail.Some? && d.tail.value.time <= e.tail.value.time
  }

  /** Storing a message of the log is safe when nothing below it is missing. */
  lemma StoreSafe(log: seq<Msg>, db: ChatDb, m: Msg, advance: bool)
    requires Ordered(log) && TablesOk(log, db) && m in log
    requires advance && db.row.Some? && Hi(db.row) < m.time ==> CoveredBelow(log, db, m.time)
    ensures var e := StoreMessage(db, m, advance);
            && TablesOk(log, e) && Grows(log, db, e) && TailGrows(db, e)
            && (db.row.Some? ==> e.row.Some? && Lo(e.row) == Lo(db.row))
  {
    var e := StoreMessage(db, m, advance);
    if db.tail.Some? {
      OrderAgrees(log, db.tail.value, m);
    }
    forall i | 0 <= i < |log| && e.row.Some? && Lo(e.row) <= log[i].time <= Hi(e.row)
      ensures log[i] in e.stored
    {
      OrderAgrees(log, log[i], m);
    }
  }

  lemma FillGrows(log: seq<Msg>, d: ChatDb, e: ChatDb, f: Fill)
    requires FillOk(log, d, f) && Grows(log, d, e)
    ensures FillOk(log, e, f)
  {
    hide Ordered, AtCursor;
  }

  lemma BackGrows(log: seq<Msg>, d: ChatDb, e: ChatDb, b: Back)
    requires BackOk(log, d, b) && Grows(log, d, e)
    requires d.row.None? ==> e.row.None?
    requires Lo(e.row) == Lo(d.row)
    ensures BackOk(log, e, b)
  {
  }

  lemma SeedGrows(s: State, t: State, rest: seq<Msg>, low: Option<Msg>)
    requires SeedOk(s, rest, low) && Grows(s.log, s.db, t.db)
    requires s.db.row.None? ==> t.db.row.None?
    requires t.log == s.log && t.since == s.since && !t.caughtUp && !Advancing(t)
    requires t.db.row.None? ==> !t.user.FillBackward?
    ensures SeedOk(t, rest, low)
  {
    hide Ordered;
  }

  /** The live side does not mind growth, whoever stores. */
  lemma LiveKeeps(s: State, t: State)
    requires Base(s) && LiveCover(s) && CaughtOk(s) && ActiveOk(s) && ListedOk(s)
    requires t.log == s.log && t.edge == s.edge && t.since == s.since && t.identityOk == s.identityOk
    requires t.listed == s.listed && t.caughtUp == s.caughtUp
    requires Grows(s.log, s.db, t.db) && TailGrows(s.db, t.db)
    requires forall m | Kept(s, m) :: Kept(t, m)
    requires Advancing(t) ==> t.active == s.active
    ensures LiveCover(t) && CaughtOk(t) && ActiveOk(t) && ListedOk(t)
  {
    hide Ordered, Queue;
  }

  // ---------------------------------------------------------------------------
  // Live frames
  // ---------------------------------------------------------------------------

  lemma BeginSafe(s: State)
    requires Base(s) && NoGap(s.log, s.db) && QueueOk(s) && CaughtOk(s)
    requires s.active.None? && s.pending != [] && s.caughtUp
    ensures forall i | 0 <= i < |s.log| && s.log[i].time < s.pending[0].time
                       && (s.db.row.Some? ==> Lo(s.db.row) <= s.log[i].time) ::
              s.log[i] in s.db.stored
  {
    var m := s.pending[0];
    assert Queue(s) == s.pending && m in Queue(s);
    assert m in Arrived(s);
    var x :| 0 <= x < s.edge && Arrived(s)[x] == m;
    forall i | 0 <= i < |s.log| && s.log[i].time < m.time
               && (s.db.row.Some? ==> Lo(s.db.row) <= s.log[i].time)
      ensures s.log[i] in s.db.stored
    {
      if x <= i {
        OrderUp(s.log, x, i);
      }
      if Above(s.db.row, s.log[i]) {
        assert s.log[i].time < Queue(s)[0].time && Queue(s)[..0] == [];
      }
    }
  }

  lemma BeginKeeps(s: State)
    requires Sound(s) && s.active.None? && s.pending != []
    ensures Sound(s.(active := Some(Live(s.pending[0], s.caughtUp)), pending := s.pending[1..]))
  {
    hide Ordered, FillOk, BackOk, Below;
    var t := s.(active := Some(Live(s.pending[0], s.caughtUp)), pending := s.pending[1..]);
    assert Queue(t) == Queue(s);
    assert Arrived(t) == Arrived(s);
    if s.caughtUp {
      BeginSafe(s);
    }
  }

  lemma CommitKeeps(s: State)
    requires Sound(s) && s.active.Some?
    ensures Sound(s.(db := StoreMessage(s.db, s.active.value.msg, s.active.value.advance), active := None))
  {
    hide Ordered, FillOk, BackOk, SeedOk, StoreMessage, Below, NoGap, BeginningReached, RowOk, Grows, TailGrows;
    var m, advance := s.active.value.msg, s.active.value.advance;
    var t := s.(db := StoreMessage(s.db, m, advance), active := None);
    assert Queue(s) == [m] + Queue(t);
    assert m in Queue(s) && m in Arrived(s) && m in s.log;
    StoreSafe(s.log, s.db, m, advance);
    StoreFacts(s.db, m, advance);
    HeadStored(s, t, m);
    LiveKeeps(s, t);
    TasksKeep(s, t);
  }

  /** The head of the queue is stored: the others keep their turns. */
  lemma HeadStored(s: State, t: State, m: Msg)
    requires QueueOk(s) && Queue(s) == [m] + Queue(t)
    requires t.log == s.log && t.edge == s.edge && t.since == s.since && t.identityOk == s.identityOk
    requires s.db.stored <= t.db.stored && m in t.db.stored
    ensures QueueOk(t)
  {
    hide Queue;
    assert Arrived(t) == Arrived(s);
    assert forall x | x in Queue(t) :: x in Queue(s);
    forall q, i | t.identityOk && 0 <= q < |Queue(t)| && t.since <= i < t.edge && i < |t.log|
                  && t.log[i].time < Queue(t)[q].time
      ensures t.log[i] in t.db.stored || t.log[i] in Queue(t)[..q]
    {
      assert Queue(t)[q] == Queue(s)[q + 1];
      assert Queue(s)[..q + 1] == [m] + Queue(t)[..q];
    }
  }

  lemma StoreFacts(db: ChatDb, m: Msg, advance: bool)
    ensures m in StoreMessage(db, m, advance).stored
    ensures db.stored <= StoreMessage(db, m, advance).stored
    ensures !advance ==> StoreMessage(db, m, advance).row == db.row
    ensures advance ==> StoreMessage(db, m, advance).row.Some?
  {
  }

  /** The pass and the user's fill do not mind what a live frame stores. */
  lemma TasksKeep(s: State, t: State)
    requires PassOk(s) && UserOk(s) && Grows(s.log, s.db, t.db)
    requires t == s.(db := t.db, active := None)
    requires s.db.row.None? ==> t.db.row.None? || Advancing(s)
    requires s.db.row.Some? ==> t.db.row.Some? && Lo(t.db.row) == Lo(s.db.row)
    ensures PassOk(t) && UserOk(t)
  {
    hide FillOk, BackOk, Below, Grows;
    if s.pass.PassForward? {
      FillGrows(s.log, s.db, t.db, s.pass.f);
    }
    if s.pass.PassSeed? {
      SeedGrows(s, t, s.pass.rest, s.pass.low);
    }
    if s.user.FillForward? {
      FillGrows(s.log, s.db, t.db, s.user.f);
    }
    if s.user.FillBackward? {
      assert s.db.row.None? ==> t.db.row.None?;
      BackGrows(s.log, s.db, t.db, s.user.b);
    }
  }

  // ---------------------------------------------------------------------------
  // Forward fills: the pass's and the user's
  // ---------------------------------------------------------------------------

  lemma InLogAt(log: seq<Msg>, m: Msg) returns (i: nat)
    requires Ordered(log) && m in log
    ensures i < |log| && log[i] == m && Below(log, m.time) == i && Below(log, m.time + 1) == i + 1
  {
    i :| 0 <= i < |log| && log[i] == m;
    BelowAt(log, i);
  }

  lemma FillStarts(log: seq<Msg>, db: ChatDb, limit: nat)
    requires Ordered(log) && TablesOk(log, db) && HasCursor(db)
    ensures var newest := db.row.value.newest.value;
            && FillOk(log, db, StartForward(newest, limit))
            && Below(log, newest.time + 1) == Below(log, newest.time) + 1
  {
    hide Below;
    var i := InLogAt(log, db.row.value.newest.value);
  }

  lemma FillFetches(log: seq<Msg>, db: ChatDb, f: Fill)
    requires Ordered(log) && FillOk(log, db, f) && CanFetch(f)
    ensures var g := FetchForward(log, f);
            && FillOk(log, db, g) && g.left == f.left
            && (g.ended ==> g.rest == [] && |log| == Below(log, f.pos) + 1 && g.pos == f.pos)
            && Below(log, g.pos) == Below(log, f.pos) + |g.rest|
  {
    hide FetchForward, Below;
    var i := Below(log, f.pos);
    FetchForwardSpec(log, f, i);
    var g := FetchForward(log, f);
    if i + 1 < |log| {
      var end := PageEnd(log, i, f.left);
      BelowAt(log, end - 1);
      OrderedSlice(log, i + 1, end);
      forall j | 0 <= j < |log| && Lo(db.row) <= log[j].time <= g.pos
        ensures log[j] in db.stored || log[j] in g.rest
      {
        if log[j].time > f.pos {
          PageHolds(log, i, end, j);
        }
      }
    }
  }

  lemma PageHolds(log: seq<Msg>, i: nat, end: nat, j: nat)
    requires Ordered(log) && i < end <= |log| && j < |log|
    requires log[i].time < log[j].time <= log[end - 1].time
    ensures log[j] in log[i + 1..end]
  {
    OrderDown(log, i, j);
    OrderDown(log, j, end - 1);
    assert log[i + 1..end][j - i - 1] == log[j];
  }

  /** The head of the page has nothing missing below it; storing it keeps the fill going. */
  lemma FillStores(log: seq<Msg>, db: ChatDb, f: Fill)
    requires Ordered(log) && TablesOk(log, db) && FillOk(log, db, f) && f.rest != [] && f.left > 0
    ensures var m := f.rest[0];
            && m in log && CoveredBelow(log, db, m.time)
            && FillOk(log, StoreMessage(db, m, true), Stored(f))
  {
    hide Below, RowOk, NoGap, BeginningReached;
    var m := f.rest[0];
    HeadEarliest(f.rest);
    forall i | 0 <= i < |log| && Lo(db.row) <= log[i].time < m.time
      ensures log[i] in db.stored
    {
    }
    assert m in f.rest;
    FillStored(log, db, f);
  }

  lemma FillStored(log: seq<Msg>, db: ChatDb, f: Fill)
    requires RowOk(log, db.row) && FillOk(log, db, f) && f.rest != [] && f.left > 0
    requires Ordered(f.rest[1..])
    ensures FillOk(log, StoreMessage(db, f.rest[0], true), Stored(f))
  {
    hide Below, Ordered;
    var e, g := StoreMessage(db, f.rest[0], true), Stored(f);
    assert f.rest == [f.rest[0]] + g.rest;
  }

  lemma PassFetchKeeps(s: State)
    requires Sound(s) && s.pass.PassForward? && CanFetch(s.pass.f)
    ensures Sound(s.(pass := PassForward(FetchForward(s.log, s.pass.f))))
  {
    hide Ordered, FillOk, BackOk, FetchForward, Below;
    FillFetches(s.log, s.db, s.pass.f);
    var t := s.(pass := PassForward(FetchForward(s.log, s.pass.f)));
    LiveSame(s, t);
  }

  lemma PassStoreKeeps(s: State)
    requires Sound(s) && s.pass.PassForward? && s.pass.f.rest != [] && s.pass.f.left > 0
    ensures Sound(StoreIn(s, s.pass.f.rest[0]).(pass := PassForward(Stored(s.pass.f))))
  {
    hide Ordered, FillOk, BackOk, SeedOk, Below, NoGap, BeginningReached, RowOk, Grows, TailGrows;
    var f := s.pass.f;
    FillStores(s.log, s.db, f);
    HistoryStored(s, f.rest[0]);
    var t := StoreIn(s, f.rest[0]).(pass := PassForward(Stored(f)));
    LiveSame(StoreIn(s, f.rest[0]), t);
    assert s.db.row.Some? by {
      FillHasRow(s.log, s.db, f);
    }
    UserGrows(s, t);
  }

  lemma FillHasRow(log: seq<Msg>, db: ChatDb, f: Fill)
    requires FillOk(log, db, f)
    ensures db.row.Some?
  {
  }

  /** A history message whose earlier messages are stored: tables and live side stay sound. */
  lemma HistoryStored(s: State, m: Msg)
    requires Base(s) && NoGap(s.log, s.db) && BeginningReached(s.log, s.db.row)
    requires QueueOk(s) && LiveCover(s) && CaughtOk(s) && ActiveOk(s) && ListedOk(s)
    requires m in s.log && (s.db.row.Some? && Hi(s.db.row) < m.time ==> CoveredBelow(s.log, s.db, m.time))
    ensures var t := StoreIn(s, m);
            && Base(t) && NoGap(t.log, t.db) && BeginningReached(t.log, t.db.row)
            && QueueOk(t) && LiveCover(t) && CaughtOk(t) && ActiveOk(t) && ListedOk(t)
            && Grows(s.log, s.db, t.db) && TablesOk(t.log, t.db)
            && t.db.row.Some? && (s.db.row.Some? ==> Lo(t.db.row) == Lo(s.db.row))
            && m in t.db.stored
  {
    hide Ordered, Below, NoGap, BeginningReached, RowOk, Grows, TailGrows, StoreMessage, CoveredBelow;
    var t := StoreIn(s, m);
    StoreSafe(s.log, s.db, m, true);
    StoreFacts(s.db, m, true);
    assert Queue(t) == Queue(s) && Arrived(t) == Arrived(s);
    LiveKeeps(s, t);
  }

  /** The user's fill does not mind what the pass stores. */
  lemma UserGrows(s: State, t: State)
    requires UserOk(s) && Grows(s.log, s.db, t.db)
    requires t == s.(db := t.db, pass := t.pass)
    requires s.db.row.Some? && t.db.row.Some? && Lo(t.db.row) == Lo(s.db.row)
    ensures UserOk(t)
  {
    hide FillOk, BackOk, Grows;
    if s.user.FillForward? {
      FillGrows(s.log, s.db, t.db, s.user.f);
    }
    if s.user.FillBackward? {
      BackGrows(s.log, s.db, t.db, s.user.b);
    }
  }

  lemma UserFetchKeeps(s: State)
    requires Sound(s) && s.user.FillForward? && CanFetch(s.user.f)
    ensures Sound(s.(user := FillForward(FetchForward(s.log, s.user.f))))
  {
    hide Ordered, FillOk, BackOk, FetchForward, Below;
    FillFetches(s.log, s.db, s.user.f);
    var t := s.(user := FillForward(FetchForward(s.log, s.user.f)));
    LiveSame(s, t);
  }

  lemma UserStoreKeeps(s: State)
    requires Sound(s) && s.user.FillForward? && s.user.f.rest != [] && s.user.f.left > 0
    ensures Sound(StoreIn(s, s.user.f.rest[0]).(user := FillForward(Stored(s.user.f))))
  {
    hide Ordered, FillOk, BackOk, SeedOk, Below, NoGap, BeginningReached, RowOk, Grows, TailGrows;
    var f := s.user.f;
    FillStores(s.log, s.db, f);
    HistoryStored(s, f.rest[0]);
    FillHasRow(s.log, s.db, f);
    var t := StoreIn(s, f.rest[0]).(user := FillForward(Stored(f)));
    LiveSame(StoreIn(s, f.rest[0]), t);
    PassGrows(s, t);
  }

  /** The pass does not mind what the user's fill stores. */
  lemma PassGrows(s: State, t: State)
    requires PassOk(s) && Grows(s.log, s.db, t.db)
    requires t == s.(db := t.db, user := t.user)
    requires t.db.row.Some? && (s.db.row.None? ==> !s.pass.PassSeed?)
    ensures PassOk(t)
  {
    hide FillOk, BackOk, Grows;
    if s.pass.PassForward? {
      FillGrows(s.log, s.db, t.db, s.pass.f);
    }
    if s.pass.PassSeed? {
      SeedGrows(s, t, s.pass.rest, s.pass.low);
    }
  }

  // ---------------------------------------------------------------------------
  // The seed
  // ---------------------------------------------------------------------------

  lemma {:induction false} EarliestIsFirst(page: seq<Msg>)
    requires Ordered(page) && page != []
    ensures Earliest(page) == page[0]
  {
    if |page| > 1 {
      HeadEarliest(page);
      EarliestIsFirst(page[1..]);
      assert page[1] in page[1..];
    }
  }

  /** The newest n messages, in log order, up to the log's end. */
  lemma SeedPage(log: seq<Msg>, n: nat) returns (a: nat)
    requires Ordered(log) && n > 0
    ensures a <= |log| && HistoryBackward(log, None, n) == log[a..] && (a == |log| ==> log == [])
    ensures Ordered(log[a..])
    ensures a < |log| ==> Earliest(log[a..]) == log[a]
    ensures a < |log| ==> forall i | 0 <= i < |log| :: log[i].time <= log[|log| - 1].time
    ensures a < |log| ==> forall i | 0 <= i < |log| && log[a].time <= log[i].time :: log[i] in log[a..]
  {
    a := Max(0, |log| - n);
    assert log[a..|log|] == log[a..];
    OrderedSlice(log, a, |log|);
    if a < |log| {
      EarliestIsFirst(log[a..]);
      forall i | 0 <= i < |log|
        ensures log[i].time <= log[|log| - 1].time
        ensures log[a].time <= log[i].time ==> log[i] in log[a..]
      {
        OrderUp(log, i, |log| - 1);
        if log[a].time <= log[i].time {
          OrderDown(log, a, i);
          assert log[a..][i - a] == log[i];
        }
      }
    }
  }

  lemma SeedStarts(s: State, n: nat)
    requires Sound(s) && s.identityOk && s.pass.Idle? && s.db.row.None? && n > 0
    requires !s.caughtUp && !Advancing(s) && !s.user.FillBackward?
    ensures var page := HistoryBackward(s.log, None, n);
            Sound(s.(pass := PassSeed(page, if page == [] then None else Some(Earliest(page)))))
  {
    hide FillOk, BackOk, Ordered, Below, HistoryBackward, Earliest, NoGap, BeginningReached, RowOk, SeedOk, QueueOk,
         LiveCover;
    var page := HistoryBackward(s.log, None, n);
    var t := s.(pass := PassSeed(page, if page == [] then None else Some(Earliest(page))));
    SeedBegins(s, t, n);
    assert QueueOk(t) && LiveCover(t) by { SameQueue(s, t); }
    if t.user.FillForward? {
      FillHasRow(s.log, s.db, s.user.f);
    }
  }

  lemma SameQueue(s: State, t: State)
    requires QueueOk(s) && LiveCover(s) && t == s.(pass := t.pass)
    ensures QueueOk(t) && LiveCover(t)
  {
    assert Queue(t) == Queue(s) && Arrived(t) == Arrived(s);
  }

  lemma SeedBegins(s: State, t: State, n: nat)
    requires Ordered(s.log) && s.since <= |s.log| && s.db.row.None? && n > 0
    requires !s.caughtUp && !Advancing(s) && !s.user.FillBackward?
    requires var page := HistoryBackward(s.log, None, n);
             t == s.(pass := PassSeed(page, if page == [] then None else Some(Earliest(page))))
    ensures SeedOk(t, t.pass.rest, t.pass.low)
  {
    hide Ordered, Below, HistoryBackward, Earliest;
    var a := SeedPage(s.log, n);
    var page := s.log[a..];
    assert a < |s.log| ==> page[|page| - 1] == s.log[|s.log| - 1] && page[0] == s.log[a];
  }

  lemma SeedStores(s: State)
    requires Sound(s) && s.pass.PassSeed? && s.pass.rest != []
    ensures Sound(StoreIn(s, s.pass.rest[0]).(pass := PassSeed(s.pass.rest[1..], s.pass.low)))
  {
    hide Ordered, FillOk, BackOk, SeedOk, Below, NoGap, BeginningReached, RowOk, Grows, TailGrows, StoreMessage;
    var rest, low := s.pass.rest, s.pass.low;
    var m := rest[0];
    SeedHead(s, rest, low);
    HistoryStored(s, m);
    var t := StoreIn(s, m).(pass := PassSeed(rest[1..], low));
    LiveSame(StoreIn(s, m), t);
    SeedMoves(s, t, rest, low);
    if s.db.row.Some? {
      UserGrows(s, t);
    } else {
      assert !s.user.FillBackward? && !s.user.FillForward? by {
        SeedAlone(s, rest, low);
      }
    }
  }

  lemma SeedAlone(s: State, rest: seq<Msg>, low: Option<Msg>)
    requires SeedOk(s, rest, low) && UserOk(s) && s.db.row.None?
    ensures s.user.NoFill?
  {
  }

  lemma SeedHead(s: State, rest: seq<Msg>, low: Option<Msg>)
    requires SeedOk(s, rest, low) && rest != []
    ensures rest[0] in s.log
    ensures s.db.row.Some? ==> CoveredBelow(s.log, s.db, rest[0].time)
  {
    HeadEarliest(rest);
    assert rest[0] in rest && rest[|rest| - 1] in rest;
  }

  lemma SeedMoves(s: State, t: State, rest: seq<Msg>, low: Option<Msg>)
    requires SeedOk(s, rest, low) && rest != [] && RowOk(s.log, s.db.row)
    requires t == StoreIn(s, rest[0]).(pass := PassSeed(rest[1..], low))
    ensures SeedOk(t, rest[1..], low)
  {
    hide Ordered;
    HeadEarliest(rest);
    assert rest == [rest[0]] + rest[1..];
    assert rest[|rest| - 1] in rest;
  }

  /** The oldest cursor already is at the seed's first message or below. */
  lemma SeedMoveKeeps(s: State)
    requires Sound(s) && s.pass.PassSeed? && s.pass.rest == [] && s.pass.low.Some?
    ensures Sound(s.(db := s.db.(row := MoveOldest(s.db.row, s.pass.low.value)), pass := PassSeed([], None)))
  {
    hide Ordered, FillOk, BackOk, Below;
    assert MoveOldest(s.db.row, s.pass.low.value) == s.db.row;
    var t := s.(pass := PassSeed([], None));
    assert s.db.(row := s.db.row) == s.db;
    assert Queue(t) == Queue(s);
  }

  // ---------------------------------------------------------------------------
  // Marking a chat caught up
  // ---------------------------------------------------------------------------

  lemma MarkKeeps(s: State, t: State)
    requires Sound(s) && s.identityOk && OfflineCovered(s) && FirstFillFree(s.(pass := Idle))
    requires t == s.(caughtUp := true, pass := Idle)
    ensures Sound(t)
  {
    hide Ordered, FillOk, BackOk, SeedOk, Below, NoGap, BeginningReached, RowOk;
    assert Queue(t) == Queue(s) && Arrived(t) == Arrived(s);
  }

  lemma NoTailCovered(s: State)
    requires Sound(s) && s.listed.Some? && !HasGap(s.db)
    ensures OfflineCovered(s)
  {
    hide FillOk, BackOk, SeedOk, Below;
    forall i | 0 <= i < s.since && i < |s.log|
      ensures !Above(s.db.row, s.log[i])
    {
      OrderUp(s.log, i, s.listed.value - 1);
    }
  }

  lemma PassCovered(s: State)
    requires Sound(s) && s.pass.PassForward? && FillOver(s.pass.f)
    ensures OfflineCovered(s) && s.db.row.Some?
  {
    hide BackOk, SeedOk, Below;
    var c := Below(s.log, s.pass.f.pos);
    forall i | 0 <= i < s.since && i < |s.log|
      ensures !Above(s.db.row, s.log[i])
    {
      OrderUp(s.log, i, c);
    }
  }

  lemma SeedCovered(s: State)
    requires Sound(s) && s.pass.PassSeed? && s.pass.rest == [] && s.pass.low.None?
    ensures OfflineCovered(s) && FirstFillFree(s.(pass := Idle))
  {
    hide FillOk, BackOk, Below, Ordered;
  }

  lemma ListKeeps(s: State)
    requires Sound(s) && s.identityOk && s.pass.Idle?
    ensures var last := if s.log == [] then None else Some(s.log[|s.log| - 1]);
            Sound(s.(listed := Some(|s.log|), db := s.db.(tail := ListTail(s.db.tail, last))))
  {
    hide FillOk, BackOk, Below;
    var last := if s.log == [] then None else Some(s.log[|s.log| - 1]);
    var t := s.(listed := Some(|s.log|), db := s.db.(tail := ListTail(s.db.tail, last)));
    assert Queue(t) == Queue(s) && Arrived(t) == Arrived(s);
    if s.db.tail.Some? && s.log != [] {
      OrderAgrees(s.log, last.value, s.db.tail.value);
    }
    if s.user.FillForward? {
      FillGrows(s.log, s.db, t.db, s.user.f);
    }
    if s.user.FillBackward? {
      BackGrows(s.log, s.db, t.db, s.user.b);
    }
  }

  // ---------------------------------------------------------------------------
  // Backward fills
  // ---------------------------------------------------------------------------

  lemma {:induction false} ReverseOrdered(ms: seq<Msg>)
    requires Ordered(ms)
    ensures forall m :: m in Reverse(ms) <==> m in ms
    ensures forall k | 0 < k < |ms| :: Reverse(ms)[k].time < Reverse(ms)[0].time
  {
    var n := |ms| - 1;
    if n >= 0 {
      OrderedSlice(ms, 0, n);
      assert ms[0..n] == ms[..n];
      assert ms == ms[..n] + [ms[n]];
      ReverseOrdered(ms[..n]);
      forall k | 0 < k < |ms|
        ensures Reverse(ms)[k].time < ms[n].time
      {
        var m := Reverse(ms[..n])[k - 1];
        assert m in Reverse(ms[..n]);
        var j :| 0 <= j < n && ms[..n][j] == m;
        assert Precedes(ms, j, n);
      }
    }
  }

  lemma BackStarts(log: seq<Msg>, db: ChatDb, limit: nat, stop: Option<int>)
    requires RowOk(log, db.row)
    ensures BackOk(log, db, StartBackward(db.row, stop, limit))
  {
  }

  lemma BackUpper(log: seq<Msg>, db: ChatDb, b: Back) returns (u: nat)
    requires Ordered(log) && RowOk(log, db.row) && BackOk(log, db, b)
    ensures AtUpper(log, b.pos, u)
  {
    u := |log|;
    if b.pos.Some? {
      u := InLogAt(log, db.row.value.oldest.value);
    }
  }

  lemma BackFetches(log: seq<Msg>, db: ChatDb, b: Back)
    requires Ordered(log) && RowOk(log, db.row) && BackOk(log, db, b)
    requires b.rest == [] && b.low.None? && b.outcome.None? && b.left > 0
    ensures BackOk(log, db, FetchBackward(log, b))
  {
    hide FetchBackward, Reverse, RowOk, Below, Cutoff;
    var u := BackUpper(log, db, b);
    FetchBackwardSpec(log, b, u);
    var k := Cutoff(log, b.stop);
    if u == 0 {
      forall i | 0 <= i < |log| && b.pos.Some?
        ensures b.pos.value <= log[i].time
      {
        OrderUp(log, 0, i);
      }
    } else if k < u {
      var c := Max(PageStart(u, b.left, b.pos.Some?), k);
      OrderedSlice(log, c, u);
      ReverseOrdered(log[c..u]);
      ReverseEnds(log[c..u]);
      BackPage(log, c, u);
      assert Reverse(log[c..u])[0] in Reverse(log[c..u]);
    }
  }

  /** The messages of log[c..u] by their times. */
  lemma BackPage(log: seq<Msg>, c: nat, u: nat)
    requires Ordered(log) && c < u <= |log|
    ensures forall i | 0 <= i < |log| && log[c].time <= log[i].time && (u < |log| ==> log[i].time < log[u].time) ::
              log[i] in log[c..u]
    ensures forall m | m in log[c..u] :: log[c].time <= m.time && (u < |log| ==> m.time < log[u].time)
  {
    forall i | 0 <= i < |log| && log[c].time <= log[i].time && (u < |log| ==> log[i].time < log[u].time)
      ensures log[i] in log[c..u]
    {
      OrderDown(log, c, i);
      if u < |log| {
        OrderDown(log, i, u);
      }
      assert log[c..u][i - c] == log[i];
    }
    forall j | c <= j < u
      ensures log[c].time <= log[j].time && (u < |log| ==> log[j].time < log[u].time)
    {
      OrderUp(log, c, j);
      if u < |log| {
        OrderStrict(log, j, u);
      }
    }
  }

  lemma BackStores(log: seq<Msg>, db: ChatDb, b: Back)
    requires Ordered(log) && RowOk(log, db.row) && BackOk(log, db, b) && b.rest != [] && b.left > 0
    ensures b.rest[0] in log
    ensures db.row.Some? ==> b.rest[0].time <= Hi(db.row)
    ensures BackOk(log, StoreMessage(db, b.rest[0], true), StoredBack(b))
  {
    hide Ordered;
    var m := b.rest[0];
    assert m in b.rest;
    assert b.rest == [m] + b.rest[1..];
    if db.row.None? {
      forall x | x in b.rest[1..]
        ensures x.time < m.time
      {
        var k :| 0 < k < |b.rest| && b.rest[k] == x;
      }
    }
  }

  lemma BackMoves(log: seq<Msg>, db: ChatDb, b: Back)
    requires TablesOk(log, db) && BackOk(log, db, b) && b.rest == [] && b.low.Some?
    ensures var e := db.(row := MoveOldest(db.row, b.low.value));
            && db.row.Some? && e.row.Some? && TablesOk(log, e) && Grows(log, db, e) && TailGrows(db, e)
            && BackOk(log, e, Moved(b))
  {
    hide Ordered;
  }

  lemma BackFetchKeeps(s: State)
    requires Sound(s) && s.user.FillBackward? && s.user.b.rest == [] && s.user.b.low.None?
    requires s.user.b.outcome.None? && s.user.b.left > 0
    ensures Sound(s.(user := FillBackward(FetchBackward(s.log, s.user.b))))
  {
    hide Ordered, FillOk, BackOk, FetchBackward, Below, NoGap, BeginningReached, RowOk;
    BackFetches(s.log, s.db, s.user.b);
    var t := s.(user := FillBackward(FetchBackward(s.log, s.user.b)));
    assert Queue(t) == Queue(s) && Arrived(t) == Arrived(s);
  }

  lemma BackStoreKeeps(s: State)
    requires Sound(s) && s.user.FillBackward? && s.user.b.rest != [] && s.user.b.left > 0
    ensures Sound(StoreIn(s, s.user.b.rest[0]).(user := FillBackward(StoredBack(s.user.b))))
  {
    hide Ordered, FillOk, BackOk, SeedOk, Below, NoGap, BeginningReached, RowOk, Grows, TailGrows, StoreMessage;
    var b := s.user.b;
    BackStores(s.log, s.db, b);
    HistoryStored(s, b.rest[0]);
    var t := StoreIn(s, b.rest[0]).(user := FillBackward(StoredBack(b)));
    LiveSame(StoreIn(s, b.rest[0]), t);
    PassGrows(s, t);
  }

  lemma BackMoveKeeps(s: State)
    requires Sound(s) && s.user.FillBackward? && s.user.b.rest == [] && s.user.b.low.Some?
    ensures Sound(s.(db := s.db.(row := MoveOldest(s.db.row, s.user.b.low.value)),
                     user := FillBackward(Moved(s.user.b))))
  {
    hide Ordered, FillOk, BackOk, SeedOk, Below, NoGap, BeginningReached, RowOk, Grows, TailGrows, MoveOldest;
    var b := s.user.b;
    BackMoves(s.log, s.db, b);
    var t := s.(db := s.db.(row := MoveOldest(s.db.row, b.low.value)), user := FillBackward(Moved(b)));
    assert Queue(t) == Queue(s) && Arrived(t) == Arrived(s);
    LiveKeeps(s, t);
    PassGrows(s, t);
  }

  lemma BackEnds(log: seq<Msg>, db: ChatDb, b: Back)
    requires TablesOk(log, db) && BackOk(log, db, b) && b.outcome.Some?
    ensures var e := db.(row := FinishBackfill(db.row, b.outcome));
            && TablesOk(log, e) && Grows(log, db, e) && TailGrows(db, e)
            && (e.row.Some? <==> db.row.Some?) && Lo(e.row) == Lo(db.row)
  {
  }

  lemma BackEndKeeps(s: State)
    requires Sound(s) && s.user.FillBackward? && s.user.b.outcome.Some?
    ensures Sound(s.(db := s.db.(row := FinishBackfill(s.db.row, s.user.b.outcome)), user := NoFill))
  {
    hide Ordered, FillOk, BackOk, SeedOk, Below, NoGap, BeginningReached, RowOk, Grows, TailGrows, FinishBackfill;
    var t := s.(db := s.db.(row := FinishBackfill(s.db.row, s.user.b.outcome)), user := NoFill);
    BackEnds(s.log, s.db, s.user.b);
    assert Queue(t) == Queue(s) && Arrived(t) == Arrived(s);
    LiveKeeps(s, t);
    if s.db.row.Some? {
      PassGrows(s, t);
    } else {
      assert !s.pass.PassSeed?;
      if s.pass.PassForward? {
        FillHasRow(s.log, s.db, s.pass.f);
      }
    }
  }

  // ---------------------------------------------------------------------------
  // Every step, and every run
  // ---------------------------------------------------------------------------

  lemma StartsKeep(s: State, t: State)
    requires Sound(s)
    requires
      || t == s.(pass := Idle)
      || t == s.(user := NoFill)
      || (t == s.(pass := t.pass) && s.pass.Idle? && s.identityOk && t.pass.PassForward?
          && FillOk(s.log, s.db, t.pass.f) && GapFits(s.log, s.since, t.pass.f))
      || (t == s.(user := t.user) && s.user.NoFill? && t.user.FillForward? && FillOk(s.log, s.db, t.user.f))
      || (t == s.(user := t.user) && s.user.NoFill? && t.user.FillBackward? && BackOk(s.log, s.db, t.user.b)
          && (s.db.row.None? ==> !s.pass.PassSeed? && !s.caughtUp && !Advancing(s)))
    ensures Sound(t)
  {
    hide Ordered, FillOk, BackOk, GapFits, NoGap, BeginningReached, RowOk,
         QueueOk, LiveCover, CaughtOk, ActiveOk, ListedOk;
    LiveSame(s, t);
  }

  /** What is kept of live frames does not depend on the fills. */
  lemma LiveSame(s: State, t: State)
    requires t == s.(pass := t.pass, user := t.user)
    ensures QueueOk(s) ==> QueueOk(t)
    ensures LiveCover(s) ==> LiveCover(t)
    ensures CaughtOk(s) ==> CaughtOk(t)
    ensures ActiveOk(s) ==> ActiveOk(t)
    ensures ListedOk(s) ==> ListedOk(t)
  {
    hide Ordered;
    assert Queue(t) == Queue(s) && Arrived(t) == Arrived(s);
  }

  lemma ListedHere(s: State)
    requires ListedOk(s) && s.listed.Some?
    ensures s.identityOk
  {
  }

  lemma GapStarts(s: State)
    requires Ordered(s.log) && TablesOk(s.log, s.db) && HasCursor(s.db)
    requires s.since <= Below(s.log, s.db.row.value.newest.value.time + 1) + CATCHUP_LIMIT
    ensures GapFits(s.log, s.since, StartForward(s.db.row.value.newest.value, CATCHUP_LIMIT))
  {
    hide Below;
    FillStarts(s.log, s.db, CATCHUP_LIMIT);
  }

  lemma FinishNothing(db: ChatDb)
    ensures db.(row := FinishBackfill(db.row, None)) == db
  {
  }

  predicate OfPass(step: Step) {
    || step.MarkNoTail? || step.StartPassForward? || step.StartSeed? || step.PassFetch? || step.PassStore?
    || step.SeedStore? || step.SeedMove? || step.MarkPass? || step.PassAbort?
  }

  lemma PassStepKeeps(s: State, step: Step)
    requires Sound(s) && Enabled(s, step) && OfPass(step)
    ensures Sound(After(s, step))
  {
    hide FillOk, BackOk, Below, FetchForward, FetchBackward, StoreMessage, HistoryBackward, Earliest, ListTail,
         MoveOldest, FinishBackfill, HasGap, Queue, QueueOk, LiveCover, CaughtOk, ActiveOk, ListedOk,
         NoGap, BeginningReached, GapFits;
    match step
    case MarkNoTail =>
      NoTailCovered(s);
      assert s.identityOk by { ListedHere(s); }
      assert s.(pass := Idle) == s;
      MarkKeeps(s, After(s, step));
    case StartPassForward =>
      FillStarts(s.log, s.db, CATCHUP_LIMIT);
      assert GapFits(s.log, s.since, StartForward(s.db.row.value.newest.value, CATCHUP_LIMIT)) by { GapStarts(s); }
      StartsKeep(s, After(s, step));
    case StartSeed(n) => SeedStarts(s, n);
    case PassFetch => PassFetchKeeps(s);
    case PassStore => PassStoreKeeps(s);
    case SeedStore => SeedStores(s);
    case SeedMove => SeedMoveKeeps(s);
    case MarkPass =>
      if s.pass.PassForward? {
        PassCovered(s);
      } else {
        SeedCovered(s);
      }
      MarkKeeps(s, After(s, step));
    case PassAbort => StartsKeep(s, After(s, step));
  }

  lemma StepKeeps(s: State, step: Step)
    requires Sound(s) && Enabled(s, step)
    ensures Sound(After(s, step))
  {
    hide FillOk, BackOk, Below, FetchForward, FetchBackward, StoreMessage, HistoryBackward, Earliest, ListTail,
         MoveOldest, FinishBackfill, HasGap, Queue, QueueOk, LiveCover, CaughtOk, ActiveOk, ListedOk,
         NoGap, BeginningReached, GapFits;
    if OfPass(step) {
      PassStepKeeps(s, step);
    } else {
      match step
      case ServerAppend(m) => AppendKeeps(s, m);
      case Connect => ConnectKeeps(s);
      case Authorize => AuthorizeKeeps(s);
      case Disconnect => DisconnectKeeps(s);
      case Arrive => ArriveKeeps(s);
      case Redeliver(k) => RedeliverKeeps(s, k);
      case Begin => BeginKeeps(s);
      case Commit => CommitKeeps(s);
      case ListChats => ListKeeps(s);
      case StartUserForward(limit) =>
        FillStarts(s.log, s.db, limit);
        StartsKeep(s, After(s, step));
      case UserFetch => UserFetchKeeps(s);
      case UserStore => UserStoreKeeps(s);
      case UserForwardEnd =>
        assert s.db.(row := FinishBackfill(s.db.row, None)) == s.db by { FinishNothing(s.db); }
        StartsKeep(s, After(s, step));
      case StartUserBackward(limit, stop) =>
        BackStarts(s.log, s.db, limit, stop);
        StartsKeep(s, After(s, step));
      case BackFetch => BackFetchKeeps(s);
      case BackStore => BackStoreKeeps(s);
      case BackMove => BackMoveKeeps(s);
      case BackEnd => BackEndKeeps(s);
      case UserAbort => StartsKeep(s, After(s, step));
    }
  }

  ghost predicate StepAt(trace: seq<State>, k: nat, waived: Option<Hypothesis>)
    requires 0 < k < |trace|
  {
    Follows(trace[k - 1], trace[k], waived)
  }

  ghost predicate Follows(s: State, t: State, waived: Option<Hypothesis>) {
    exists step :: EnabledBut(s, step, waived) && After(s, step) == t
  }

  /** A run without one of the hypotheses: it starts before anything has happened. */
  ghost predicate IsRunBut(trace: seq<State>, waived: Option<Hypothesis>) {
    && trace != [] && trace[0] == INITIAL
    && forall k | 0 < k < |trace| :: StepAt(trace, k, waived)
  }

  /** A run under all hypotheses. */
  ghost predicate IsRun(trace: seq<State>) {
    IsRunBut(trace, None)
  }

  lemma PrefixRuns(trace: seq<State>, n: nat, waived: Option<Hypothesis>)
    requires IsRunBut(trace, waived) && 0 < n <= |trace|
    ensures IsRunBut(trace[..n], waived)
  {
    hide Follows;
    forall k | 0 < k < n
      ensures StepAt(trace[..n], k, waived)
    {
      assert StepAt(trace, k, waived);
    }
  }

  lemma {:induction false} RunIsSound(trace: seq<State>)
    requires IsRun(trace)
    ensures Sound(trace[|trace| - 1])
  {
    hide Possible, Meets, After, Sound;
    var n := |trace| - 1;
    if n == 0 {
      SoundInitially();
    } else {
      PrefixRuns(trace, n, None);
      RunIsSound(trace[..n]);
      assert StepAt(trace, n, None);
      var step :| Enabled(trace[n - 1], step) && After(trace[n - 1], step) == trace[n];
      StepKeeps(trace[n - 1], step);
    }
  }

  /**
   No gap, over every run: in every reachable interleaving, every message of the chat whose
   time lies between the oldest and the newest cursor is stored.
   */
  lemma NoGapInAnyRun(trace: seq<State>)
    requires IsRun(trace)
    ensures var s := trace[|trace| - 1];
            s.db.row.Some? ==>
              && s.db.row.value.oldest.Some? && s.db.row.value.newest.Some?
              && forall m | m in s.log && s.db.row.value.oldest.value.time <= m.time
                            && m.time <= s.db.row.value.newest.value.time :: m in s.db.stored
  {
    hide FillOk, BackOk, SeedOk, Ordered;
    RunIsSound(trace);
  }

  /**
   A caught-up chat has every message above the cursor stored, waiting in the chat lock's
   queue, or still on the wire of the live connection; and each frame waits in its turn.
   */
  lemma CaughtUpMissesNothing(trace: seq<State>)
    requires IsRun(trace)
    ensures var s := trace[|trace| - 1];
            && s.edge <= |s.log|
            && (s.identityOk ==>
                  forall q, i | 0 <= q < |Queue(s)| && s.since <= i < s.edge && s.log[i].time < Queue(s)[q].time ::
                    s.log[i] in s.db.stored || s.log[i] in Queue(s)[..q])
            && (s.caughtUp ==>
                  && (forall m | m in Arrived(s) && Above(s.db.row, m) :: m in s.db.stored || m in Queue(s))
                  && (forall m | m in s.log :: m in Arrived(s) || m in s.log[s.edge..]))
  {
    hide FillOk, BackOk, SeedOk, Ordered, Queue;
    RunIsSound(trace);
    var s := trace[|trace| - 1];
    assert s.log == Arrived(s) + s.log[s.edge..];
    forall m | s.caughtUp && m in Arrived(s) && Above(s.db.row, m)
      ensures m in s.db.stored || m in Queue(s)
    {
      var i :| 0 <= i < s.edge && Arrived(s)[i] == m;
      assert s.log[i] == m && Kept(s, m);
    }
  }

  /** Caught up and quiet: once the queue is drained, all from the oldest cursor on is stored. */
  lemma CaughtUpAndQuiet(trace: seq<State>)
    requires IsRun(trace)
    ensures var s := trace[|trace| - 1];
            s.caughtUp && Queue(s) == [] && s.edge == |s.log| ==>
              forall m | m in s.log && (s.db.row.Some? ==> Lo(s.db.row) <= m.time) :: m in s.db.stored
  {
    CaughtUpMissesNothing(trace);
    NoGapInAnyRun(trace);
  }

  /**
   Fully synced means complete: with the flag set, every server message up to the newest
   cursor is stored, in this state and in every later one that still has the flag.
   */
  lemma FullySyncedIsComplete(trace: seq<State>)
    requires IsRun(trace)
    ensures var s := trace[|trace| - 1];
            s.db.row.Some? && s.db.row.value.fullySynced ==>
              forall m | m in s.log && m.time <= Hi(s.db.row) :: m in s.db.stored
  {
    hide FillOk, BackOk, SeedOk, Ordered;
    RunIsSound(trace);
  }

  // ---------------------------------------------------------------------------
  // The loops of MaxSync.dfy are runs of these steps
  // ---------------------------------------------------------------------------

  /** The steps lead from s to t, each enabled where it is taken. */
  ghost predicate Leads(s: State, steps: seq<Step>, t: State)
    decreases |steps|
  {
    if steps == [] then s == t
    else Enabled(s, steps[0]) && Leads(After(s, steps[0]), steps[1..], t)
  }

  /** The forward loop, run without interruption, is a sequence of protocol steps. */
  lemma {:induction false} ForwardRunLeads(s: State, f: Fill) returns (steps: seq<Step>)
    requires s.user == FillForward(f) && |f.rest| <= f.left
    ensures Leads(s, steps, s.(db := ForwardRun(s.log, s.db, f), user := NoFill))
    decreases f.left, if f.rest == [] && !f.ended then 1 else 0
  {
    hide FetchForward, ForwardRun;
    ForwardUnfolds(s.log, s.db, f);
    if f.rest != [] {
      var t := After(s, UserStore);
      var more := ForwardRunLeads(t, Stored(f));
      steps := [UserStore] + more;
      assert steps[1..] == more;
    } else if f.left == 0 || f.ended {
      steps := [UserForwardEnd];
      FinishNothing(s.db);
      assert Leads(After(s, UserForwardEnd), steps[1..], s.(db := s.db, user := NoFill));
    } else {
      var t := After(s, UserFetch);
      var more := ForwardRunLeads(t, FetchForward(s.log, f));
      steps := [UserFetch] + more;
      assert steps[1..] == more;
    }
  }

  /** The steps of a backward fill, and what each does. */
  lemma BackStepIs(s: State)
    requires s.user.FillBackward?
    ensures var b := s.user.b;
            && (b.rest == [] && b.low.None? && b.outcome.None? && b.left > 0 ==>
                  && Possible(s, BackFetch)
                  && After(s, BackFetch) == s.(user := FillBackward(FetchBackward(s.log, b))))
            && (b.rest != [] && b.left > 0 ==>
                  && Possible(s, BackStore)
                  && After(s, BackStore)
                     == s.(db := StoreMessage(s.db, b.rest[0], true), user := FillBackward(StoredBack(b))))
            && (b.rest == [] && b.low.Some? ==>
                  && Possible(s, BackMove)
                  && After(s, BackMove)
                     == s.(db := s.db.(row := MoveOldest(s.db.row, b.low.value)), user := FillBackward(Moved(b))))
            && (b.rest == [] && b.low.None? && b.outcome.Some? ==>
                  && Possible(s, BackEnd)
                  && After(s, BackEnd)
                     == s.(db := s.db.(row := FinishBackfill(s.db.row, b.outcome)), user := NoFill))
  {
    hide FetchBackward, StoreMessage, MoveOldest, FinishBackfill;
  }

  lemma OneMore(s: State, step: Step, t: State, more: seq<Step>, u: State)
    requires Possible(s, step) && IsFree(step) && After(s, step) == t && Leads(t, more, u)
    ensures Leads(s, [step] + more, u)
  {
    hide Possible, After, EnabledBut;
    FreeEnabled(s, step, None);
    assert ([step] + more)[1..] == more;
  }

  /** So is the backward loop. */
  lemma {:induction false} BackwardRunLeads(s: State, b: Back) returns (steps: seq<Step>)
    requires s.user == FillBackward(b) && |b.rest| <= b.left && (b.rest != [] ==> b.low.Some?)
    requires b.outcome.None? && b.rest == [] && b.low.None? ==> b.left > 0
    ensures Leads(s, steps, s.(db := BackwardRun(s.log, s.db, b), user := NoFill))
    decreases b.left, Phase(b)
  {
    hide FetchBackward, BackwardRun, Possible, After, Leads, StoreMessage, MoveOldest, FinishBackfill;
    BackwardUnfolds(s.log, s.db, b);
    BackStepIs(s);
    var step, next := BackEnd, b;
    if b.rest != [] {
      step, next := BackStore, StoredBack(b);
    } else if b.low.Some? {
      step, next := BackMove, Moved(b);
    } else if b.outcome.None? {
      step, next := BackFetch, FetchBackward(s.log, b);
    }
    var more := [];
    if step == BackEnd {
      LeadsNowhere(After(s, BackEnd));
    } else {
      more := BackwardRunLeads(After(s, step), next);
    }
    OneMore(s, step, After(s, step), more, s.(db := BackwardRun(s.log, s.db, b), user := NoFill));
    steps := [step] + more;
  }

  lemma LeadsNowhere(s: State)
    ensures Leads(s, [], s)
  {
  }
}
