/**
 One chat's history as the server keeps it, the rows the sync code keeps about it, and
 the two paging loops written as steps: take a page, store one message, move the cursor.
 The class in MaxSync.dfy runs these steps in the source's own loops; the state machine
 in SyncProtocol.dfy interleaves the same steps with live frames and reconnects.
 */
module MaxHistory {
  import opened Wrappers
  import opened Seqs

  datatype Msg = Msg(id: int, time: int)

  const PAGE_SIZE := 100
  const CATCHUP_LIMIT := 10_000

  /** With a cursor the message at the cursor comes back too, so one more is asked for. */
  function PageSize(remaining: nat, hasCursor: bool): nat {
    Min(PAGE_SIZE, remaining + if hasCursor then 1 else 0)
  }

  // ---------------------------------------------------------------------------
  // The server
  // ---------------------------------------------------------------------------

  /** Times and ids grow strictly along a chat's log. */
  ghost predicate Ordered(log: seq<Msg>) {
    forall i, j {:trigger Precedes(log, i, j)} | 0 <= i < j < |log| :: Precedes(log, i, j)
  }

  ghost predicate Precedes(log: seq<Msg>, i: nat, j: nat)
    requires i < |log| && j < |log|
  {
    log[i].time < log[j].time && log[i].id < log[j].id
  }

  lemma OrderUp(log: seq<Msg>, i: nat, j: nat)
    requires Ordered(log) && i <= j < |log|
    ensures log[i].time <= log[j].time
  {
    if i < j {
      assert Precedes(log, i, j);
    }
  }

  lemma OrderStrict(log: seq<Msg>, i: nat, j: nat)
    requires Ordered(log) && i < j < |log|
    ensures log[i].time < log[j].time
  {
    assert Precedes(log, i, j);
  }

  lemma OrderDown(log: seq<Msg>, i: nat, j: nat)
    requires Ordered(log) && i < |log| && j < |log| && log[i].time <= log[j].time
    ensures i <= j && (log[i].time < log[j].time ==> i < j)
  {
    if j < i {
      OrderStrict(log, j, i);
    }
  }

  lemma OrderedSlice(log: seq<Msg>, a: nat, b: nat)
    requires Ordered(log) && a <= b <= |log|
    ensures Ordered(log[a..b])
  {
    forall i, j | 0 <= i < j < b - a
      ensures Precedes(log[a..b], i, j)
    {
      assert Precedes(log, a + i, a + j);
    }
  }

  /** How many messages of an ordered log are earlier than t. */
  function Below(log: seq<Msg>, t: int): (k: nat)
    ensures k <= |log|
  {
    if log == [] then 0
    else if t <= log[|log| - 1].time then Below(log[..|log| - 1], t)
    else |log|
  }

  lemma {:induction false} BelowSplits(log: seq<Msg>, t: int)
    requires Ordered(log)
    ensures forall i | 0 <= i < |log| :: log[i].time < t <==> i < Below(log, t)
  {
    if log != [] {
      var n := |log| - 1;
      forall i | 0 <= i < n
        ensures log[i].time < log[n].time
      {
        assert Precedes(log, i, n);
      }
      if t <= log[n].time {
        OrderedSlice(log, 0, n);
        assert log[0..n] == log[..n];
        BelowSplits(log[..n], t);
        assert forall i | 0 <= i < n :: log[..n][i] == log[i];
      }
    }
  }

  lemma BelowIs(log: seq<Msg>, t: int, k: nat)
    requires Ordered(log) && k <= |log|
    requires 0 < k ==> log[k - 1].time < t
    requires k < |log| ==> t <= log[k].time
    ensures Below(log, t) == k
  {
    BelowSplits(log, t);
  }

  lemma BelowAt(log: seq<Msg>, i: nat)
    requires Ordered(log) && i < |log|
    ensures Below(log, log[i].time) == i
    ensures Below(log, log[i].time + 1) == i + 1
  {
    if i > 0 {
      assert Precedes(log, i - 1, i);
    }
    if i + 1 < |log| {
      assert Precedes(log, i, i + 1);
    }
    BelowIs(log, log[i].time, i);
    BelowIs(log, log[i].time + 1, i + 1);
  }

  lemma BelowAppend(log: seq<Msg>, m: Msg, t: int)
    requires t <= m.time
    ensures Below(log + [m], t) == Below(log, t)
  {
    assert (log + [m])[..|log|] == log;
  }

  /** The n nearest messages from `from` on, `from` included. */
  function HistoryForward(log: seq<Msg>, from: int, n: nat): seq<Msg> {
    var k := Below(log, from);
    log[k..Min(|log|, k + n)]
  }

  /** The n nearest messages up to `from` (None: now), `from` included, in time order. */
  function HistoryBackward(log: seq<Msg>, from: Option<int>, n: nat): seq<Msg> {
    var k := if from.None? then |log| else Below(log, from.value + 1);
    log[Max(0, k - n)..k]
  }

  // ---------------------------------------------------------------------------
  // What is stored about a chat
  // ---------------------------------------------------------------------------

  /** A sync_state row: the cursor pair. */
  datatype Row = Row(newest: Option<Msg>, oldest: Option<Msg>, fullySynced: bool)

  /** stored: the chat's message rows; row: its sync_state row; tail: chats.last_message_*. */
  datatype ChatDb = ChatDb(stored: set<Msg>, row: Option<Row>, tail: Option<Msg>)

  function Advance(row: Option<Row>, m: Msg): Option<Row> {
    match row
    case None => Some(Row(Some(m), Some(m), false))
    case Some(r) =>
      if r.newest.None? || m.time > r.newest.value.time then Some(r.(newest := Some(m))) else row
  }

  function MoveOldest(row: Option<Row>, m: Msg): Option<Row> {
    match row
    case None => Some(Row(None, Some(m), false))
    case Some(r) =>
      if r.oldest.None? || m.time < r.oldest.value.time then Some(r.(oldest := Some(m))) else row
  }

  function FinishBackfill(row: Option<Row>, full: Option<bool>): Option<Row> {
    if row.Some? && full.Some? then Some(row.value.(fullySynced := full.value)) else row
  }

  function TouchTail(tail: Option<Msg>, m: Msg): Option<Msg> {
    if tail.None? || tail.value.id <= m.id then Some(m) else tail
  }

  /** The chat list's last message of a chat: it never moves the stored one back. */
  function ListTail(tail: Option<Msg>, last: Option<Msg>): Option<Msg> {
    if last.Some? && (tail.None? || last.value.id > tail.value.id) then last else tail
  }

  /** The chat has a tail: its last message is not behind the cursor. */
  predicate HasGap(d: ChatDb) {
    d.tail.Some? && (d.row.None? || d.row.value.newest.None?
                     || d.tail.value.time > d.row.value.newest.value.time)
  }

  function Earliest(page: seq<Msg>): Msg
    requires page != []
  {
    if |page| == 1 then page[0]
    else
      var m := Earliest(page[1..]);
      if page[0].time <= m.time then page[0] else m
  }

  function StoreMessage(db: ChatDb, m: Msg, advance: bool): ChatDb {
    ChatDb(db.stored + {m}, if advance then Advance(db.row, m) else db.row, TouchTail(db.tail, m))
  }

  /** History messages stored one after the other; each may move the cursor. */
  function StoreAll(db: ChatDb, ms: seq<Msg>): ChatDb
    decreases |ms|
  {
    if ms == [] then db else StoreAll(StoreMessage(db, ms[0], true), ms[1..])
  }

  function Messages(ms: seq<Msg>): set<Msg> {
    set m | m in ms
  }

  lemma {:induction false} StoreAllStores(db: ChatDb, ms: seq<Msg>)
    ensures StoreAll(db, ms).stored == db.stored + Messages(ms)
    decreases |ms|
  {
    if ms != [] {
      StoreAllStores(StoreMessage(db, ms[0], true), ms[1..]);
      assert Messages(ms) == {ms[0]} + Messages(ms[1..]);
    }
  }

  /** m is the first of the messages with the earliest time. */
  ghost predicate FirstEarliest(page: seq<Msg>, m: Msg) {
    exists i :: 0 <= i < |page| && page[i] == m && (forall j | 0 <= j < i :: m.time < page[j].time)
                && forall j | i < j < |page| :: m.time <= page[j].time
  }

  /** min(page, key = time), whatever order the page comes in. */
  lemma {:induction false} EarliestIs(page: seq<Msg>)
    requires page != []
    ensures FirstEarliest(page, Earliest(page))
  {
    if |page| > 1 {
      EarliestIs(page[1..]);
      var m := Earliest(page[1..]);
      var i :| 0 <= i < |page| - 1 && page[1..][i] == m && (forall j | 0 <= j < i :: m.time < page[1..][j].time)
               && forall j | i < j < |page| - 1 :: m.time <= page[1..][j].time;
      forall j | 1 <= j < |page|
        ensures page[j] == page[1..][j - 1] && m.time <= page[j].time
      {
      }
      if page[0].time <= m.time {
        assert page[0] == Earliest(page);
      } else {
        assert page[i + 1] == Earliest(page);
        forall j | 0 <= j < i + 1
          ensures m.time < page[j].time
        {
          assert j > 0 ==> page[j] == page[1..][j - 1];
        }
      }
    } else {
      assert page[0] == Earliest(page);
    }
  }

  /**
   Whatever is stored in whatever order, the chat's last message is one of those stored or the
   one it had, has the largest id of these, and is one of those stored if their largest id is as large.
   */
  lemma {:induction false} TailAfterStores(db: ChatDb, ms: seq<Msg>)
    ensures var t := StoreAll(db, ms).tail;
            && (ms == [] ==> t == db.tail) && (ms != [] ==> t.Some?)
            && (t.Some? ==>
                  && (t == db.tail || t.value in ms)
                  && (db.tail.Some? ==> db.tail.value.id <= t.value.id)
                  && forall m | m in ms :: m.id <= t.value.id && (m.id == t.value.id ==> t.value in ms))
    decreases |ms|
  {
    hide Advance;
    if ms != [] {
      TailAfterStores(StoreMessage(db, ms[0], true), ms[1..]);
      assert ms == [ms[0]] + ms[1..];
    }
  }

  /** Storing an ascending run after the cursor leaves the cursor at its last message. */
  lemma {:induction false} StoreAllAscending(db: ChatDb, ms: seq<Msg>)
    requires Ordered(ms)
    requires db.row.Some? && db.row.value.newest.Some?
    requires ms != [] ==> db.row.value.newest.value.time < ms[0].time
    ensures StoreAll(db, ms).row ==
            if ms == [] then db.row else Some(db.row.value.(newest := Some(ms[|ms| - 1])))
    decreases |ms|
  {
    if ms != [] {
      OrderedSlice(ms, 1, |ms|);
      assert ms[1..|ms|] == ms[1..];
      if |ms| > 1 {
        assert Precedes(ms, 0, 1);
      }
      StoreAllAscending(StoreMessage(db, ms[0], true), ms[1..]);
    }
  }

  // ---------------------------------------------------------------------------
  // Forward: from the newest cursor on
  // ---------------------------------------------------------------------------

  /**
   The locals of the forward loop: the loop's cursor, the ids seen at it, how many
   messages may still be stored, and what is left of the page being stored.
   */
  datatype Fill = Fill(pos: int, seen: set<int>, left: nat, rest: seq<Msg>, ended: bool)

  function StartForward(newest: Msg, limit: nat): Fill {
    Fill(newest.time, {newest.id}, limit, [], false)
  }

  function IsNewer(pos: int, seen: set<int>): Msg -> bool {
    (m: Msg) => m.time > pos || (m.time == pos && m.id !in seen)
  }

  function Newer(page: seq<Msg>, pos: int, seen: set<int>): seq<Msg> {
    Filter(page, IsNewer(pos, seen))
  }

  function Latest(ms: seq<Msg>): int
    requires ms != []
  {
    if |ms| == 1 then ms[0].time else Max(Latest(ms[..|ms| - 1]), ms[|ms| - 1].time)
  }

  function TimeOf(m: Msg): int {
    m.time
  }

  function IdsAt(ms: seq<Msg>, t: int): set<int> {
    set m | m in ms && m.time == t :: m.id
  }

  function FetchForward(log: seq<Msg>, f: Fill): Fill {
    TakeNewer(Newer(HistoryForward(log, f.pos, PageSize(f.left, true)), f.pos, f.seen), f)
  }

  function TakeNewer(newer: seq<Msg>, f: Fill): Fill {
    if newer == [] then f.(ended := true)
    else
      var top := Latest(newer);
      Fill(top, IdsAt(newer, top), f.left, Take(Sort(newer, TimeOf), f.left), false)
  }

  /** The next message of the page is stored and no longer waits. */
  function Stored(f: Fill): Fill
    requires f.rest != [] && f.left > 0
  {
    f.(rest := f.rest[1..], left := f.left - 1)
  }

  /** The whole loop against a log that does not change while it runs. */
  function ForwardRun(log: seq<Msg>, db: ChatDb, f: Fill): ChatDb
    requires |f.rest| <= f.left
    decreases f.left, if f.rest == [] && !f.ended then 1 else 0
  {
    if f.rest != [] then ForwardRun(log, StoreMessage(db, f.rest[0], true), Stored(f))
    else if f.left == 0 || f.ended then db.(row := FinishBackfill(db.row, None))
    else
      FetchFits(log, f);
      ForwardRun(log, db, FetchForward(log, f))
  }

  lemma FetchUnfolds(log: seq<Msg>, f: Fill)
    ensures FetchForward(log, f)
            == TakeNewer(Newer(HistoryForward(log, f.pos, PageSize(f.left, true)), f.pos, f.seen), f)
  {
  }

  lemma FetchFits(log: seq<Msg>, f: Fill)
    requires f.rest == [] && f.left > 0 && !f.ended
    ensures var g := FetchForward(log, f);
            g.left == f.left && |g.rest| <= g.left && (g.rest == [] ==> g.ended)
  {
    var newer := Newer(HistoryForward(log, f.pos, PageSize(f.left, true)), f.pos, f.seen);
    SortKeeps(newer, TimeOf);
  }

  /** The loop's cursor is at the log's i-th message. */
  ghost predicate AtCursor(log: seq<Msg>, f: Fill, i: nat) {
    i < |log| && f.pos == log[i].time && f.seen == {log[i].id}
  }

  /** Where the page after the i-th message ends. */
  function PageEnd(log: seq<Msg>, i: nat, left: nat): (end: nat)
    requires i < |log| && left > 0
    ensures i < end <= |log| && end <= i + 1 + left
    ensures i + 1 < |log| ==> i + 1 < end
  {
    Min(|log|, i + PageSize(left, true))
  }

  lemma NewerDropsCursor(page: seq<Msg>)
    requires Ordered(page) && page != []
    ensures Newer(page, page[0].time, {page[0].id}) == page[1..]
  {
    var p := IsNewer(page[0].time, {page[0].id});
    forall m | m in page[1..]
      ensures p(m)
    {
      var j :| 0 < j < |page| && page[j] == m;
      assert Precedes(page, 0, j);
    }
    FilterAll(page[1..], p);
  }

  lemma NewerIsTail(log: seq<Msg>, i: nat, n: nat)
    requires Ordered(log) && i < |log| && n > 0
    ensures Newer(HistoryForward(log, log[i].time, n), log[i].time, {log[i].id})
            == log[i + 1..Min(|log|, i + n)]
  {
    BelowAt(log, i);
    var page := log[i..Min(|log|, i + n)];
    assert HistoryForward(log, log[i].time, n) == page;
    assert page[1..] == log[i + 1..Min(|log|, i + n)];
    OrderedSlice(log, i, Min(|log|, i + n));
    NewerDropsCursor(page);
  }

  /**
   Why one more is asked for: a page shows nothing new exactly at the end of the history or
   when it is a page of one, and with a cursor no page is a page of one.
   */
  lemma PageOfOneLooksLikeTheEnd(log: seq<Msg>, i: nat, n: nat, remaining: nat)
    requires Ordered(log) && i < |log| && n > 0 && remaining > 0
    ensures Newer(HistoryForward(log, log[i].time, n), log[i].time, {log[i].id}) == []
            <==> i + 1 == |log| || n == 1
    ensures Newer(HistoryForward(log, log[i].time, PageSize(remaining, true)), log[i].time, {log[i].id}) == []
            <==> i + 1 == |log|
  {
    hide Newer, HistoryForward;
    NewerIsTail(log, i, n);
    NewerIsTail(log, i, PageSize(remaining, true));
  }

  lemma {:induction false} LatestIsLast(ms: seq<Msg>)
    requires Ordered(ms) && ms != []
    ensures Latest(ms) == ms[|ms| - 1].time
  {
    var n := |ms| - 1;
    if n > 0 {
      OrderedSlice(ms, 0, n);
      assert ms[0..n] == ms[..n];
      LatestIsLast(ms[..n]);
      assert Precedes(ms, n - 1, n);
    }
  }

  lemma IdsAtLast(ms: seq<Msg>)
    requires Ordered(ms) && ms != []
    ensures IdsAt(ms, ms[|ms| - 1].time) == {ms[|ms| - 1].id}
  {
    var last := ms[|ms| - 1];
    assert last in ms;
    forall j | 0 <= j < |ms| - 1
      ensures ms[j].time < last.time
    {
      assert Precedes(ms, j, |ms| - 1);
    }
  }

  lemma OrderedIsSorted(ms: seq<Msg>)
    requires Ordered(ms)
    ensures SortedBy(ms, TimeOf)
  {
    forall i, j | 0 <= i < j < |ms|
      ensures TimeOf(ms[i]) <= TimeOf(ms[j])
    {
      assert Precedes(ms, i, j);
    }
  }

  lemma TakeNewerSpec(newer: seq<Msg>, f: Fill)
    requires Ordered(newer) && 0 < |newer| <= f.left
    ensures var last := newer[|newer| - 1];
            TakeNewer(newer, f) == Fill(last.time, {last.id}, f.left, newer, false)
  {
    OrderedIsSorted(newer);
    SortIdentity(newer, TimeOf);
    LatestIsLast(newer);
    IdsAtLast(newer);
  }

  /**
   One page: the waiting part is the run of messages right after the cursor, and an empty
   page means that nothing newer exists. The "+1" of PageSize is what makes the second
   part hold: the cursor's own message takes one place of the page.
   */
  lemma FetchForwardSpec(log: seq<Msg>, f: Fill, i: nat)
    requires Ordered(log) && AtCursor(log, f, i) && f.left > 0
    ensures FetchForward(log, f) ==
            if i + 1 == |log| then f.(ended := true)
            else
              var end := PageEnd(log, i, f.left);
              Fill(log[end - 1].time, {log[end - 1].id}, f.left, log[i + 1..end], false)
  {
    hide Newer, HistoryForward, Sort, Latest, IdsAt;
    var end := PageEnd(log, i, f.left);
    NewerIsTail(log, i, PageSize(f.left, true));
    if i + 1 < |log| {
      OrderedSlice(log, i + 1, end);
      TakeNewerSpec(log[i + 1..end], f);
    }
  }

  /** Mid-loop: the waiting part is the run log[k..] up to the loop's cursor. */
  ghost predicate Filling(log: seq<Msg>, f: Fill, k: nat) {
    && |f.rest| <= f.left && 0 < k
    && AtCursor(log, f, k + |f.rest| - 1)
    && f.rest == log[k..k + |f.rest|]
    && (f.ended ==> f.rest == [] && k == |log|)
  }

  lemma FillingStores(log: seq<Msg>, f: Fill, k: nat)
    requires Filling(log, f, k) && f.rest != []
    ensures Filling(log, Stored(f), k + 1) && f.rest[0] == log[k]
  {
  }

  lemma FillingFetches(log: seq<Msg>, f: Fill, k: nat)
    requires Ordered(log) && Filling(log, f, k) && f.rest == [] && f.left > 0 && !f.ended
    ensures Filling(log, FetchForward(log, f), k)
  {
    hide FetchForward;
    FetchForwardSpec(log, f, k - 1);
  }

  function RunOf(log: seq<Msg>, k: nat, n: nat): seq<Msg>
    requires k <= |log|
  {
    log[k..Min(|log|, k + n)]
  }

  lemma ForwardUnfolds(log: seq<Msg>, db: ChatDb, f: Fill)
    requires |f.rest| <= f.left
    ensures f.rest != [] ==>
              ForwardRun(log, db, f) == ForwardRun(log, StoreMessage(db, f.rest[0], true), Stored(f))
    ensures f.rest == [] && (f.left == 0 || f.ended) ==> ForwardRun(log, db, f) == db
    ensures f.rest == [] && f.left > 0 && !f.ended ==>
              && |FetchForward(log, f).rest| <= FetchForward(log, f).left == f.left
              && ForwardRun(log, db, f) == ForwardRun(log, db, FetchForward(log, f))
              && (FetchForward(log, f).rest == [] ==> FetchForward(log, f).ended)
  {
    if f.rest == [] && f.left > 0 && !f.ended {
      FetchFits(log, f);
    }
  }

  /** A whole page of stores at once. */
  lemma {:induction false} PageStored(log: seq<Msg>, db: ChatDb, f: Fill)
    requires |f.rest| <= f.left
    ensures ForwardRun(log, db, f)
            == ForwardRun(log, StoreAll(db, f.rest), f.(rest := [], left := f.left - |f.rest|))
    decreases |f.rest|
  {
    hide ForwardRun;
    if f.rest != [] {
      ForwardUnfolds(log, db, f);
      PageStored(log, StoreMessage(db, f.rest[0], true), Stored(f));
    } else {
      assert f == f.(rest := [], left := f.left - |f.rest|);
    }
  }

  /** Mid-run form: the loop stores exactly the next `left` messages of the log. */
  lemma {:induction false} ForwardRunStores(log: seq<Msg>, db: ChatDb, f: Fill, k: nat)
    requires Ordered(log) && Filling(log, f, k)
    ensures ForwardRun(log, db, f) == StoreAll(db, RunOf(log, k, f.left))
    decreases f.left, if f.rest == [] && !f.ended then 1 else 0
  {
    hide FetchForward;
    ForwardUnfolds(log, db, f);
    if f.rest != [] {
      FillingStores(log, f, k);
      ForwardRunStores(log, StoreMessage(db, f.rest[0], true), Stored(f), k + 1);
      assert RunOf(log, k, f.left)[1..] == RunOf(log, k + 1, f.left - 1);
    } else if f.left == 0 || f.ended {
      assert RunOf(log, k, f.left) == [];
    } else {
      FillingFetches(log, f, k);
      ForwardRunStores(log, db, FetchForward(log, f), k);
    }
  }

  lemma StartFills(log: seq<Msg>, i: nat, limit: nat)
    requires Ordered(log) && i < |log|
    ensures Filling(log, StartForward(log[i], limit), i + 1)
  {
    OrderedSlice(log, i, |log|);
  }

  /**
   The forward loop is exact: with limit L and k messages above the cursor it stores the
   first min(L, k) of them, and leaves the stored cursor at the last one.
   */
  lemma ForwardExact(log: seq<Msg>, db: ChatDb, i: nat, limit: nat)
    requires Ordered(log) && i < |log|
    requires db.row.Some? && db.row.value.newest == Some(log[i])
    ensures var end := Min(|log|, i + 1 + limit);
            var after := ForwardRun(log, db, StartForward(log[i], limit));
            && after.stored == db.stored + Messages(log[i + 1..end])
            && after.row == Some(db.row.value.(newest := Some(log[end - 1])))
  {
    hide ForwardRun, StoreAll, Filling, Ordered;
    var run := RunOf(log, i + 1, limit);
    StartFills(log, i, limit);
    ForwardRunStores(log, db, StartForward(log[i], limit), i + 1);
    StoreAllStores(db, run);
    OrderedSlice(log, i + 1, Min(|log|, i + 1 + limit));
    if run != [] {
      OrderStrict(log, i, i + 1);
    }
    StoreAllAscending(db, run);
  }

  /**
   Marking a chat caught up after the loop is right exactly when the gap fits the limit:
   nothing above the cursor is missing afterwards if and only if k <= L.
   */
  lemma CaughtUpIffGapFits(log: seq<Msg>, db: ChatDb, i: nat, limit: nat)
    requires Ordered(log) && i < |log|
    requires db.row.Some? && db.row.value.newest == Some(log[i])
    requires forall j | i < j < |log| :: log[j] !in db.stored
    ensures (forall j | i < j < |log| :: log[j] in ForwardRun(log, db, StartForward(log[i], limit)).stored)
            <==> |log| - 1 - i <= limit
  {
    var end := Min(|log|, i + 1 + limit);
    var run := log[i + 1..end];
    ForwardExact(log, db, i, limit);
    forall j | i < j < |log|
      ensures log[j] in Messages(run) <==> j < end
    {
      if j < end {
        assert run[j - i - 1] == log[j];
      } else {
        forall x | 0 <= x < |run|
          ensures run[x] != log[j]
        {
          assert Precedes(log, i + 1 + x, j);
        }
      }
    }
    if end < |log| {
      assert log[end] !in Messages(run);
    }
  }

  /** How many pages with something new the loop takes. */
  function PagesStored(log: seq<Msg>, f: Fill): nat
    requires |f.rest| <= f.left
    decreases f.left, if f.rest == [] && !f.ended then 1 else 0
  {
    if f.rest != [] then PagesStored(log, Stored(f))
    else if f.left == 0 || f.ended then 0
    else
      FetchFits(log, f);
      (if FetchForward(log, f).ended then 0 else 1) + PagesStored(log, FetchForward(log, f))
  }

  /**
   Why times have to be distinct: two messages share the last time and the cursor is at one
   of them. Nothing is above the cursor, yet the loop alternates between the two, one page
   a message, until the limit is used up: the ids seen at the cursor are replaced and not
   added to.
   */
  lemma {:induction false} TieBurnsTheLimit(a: int, b: int, t: int, limit: nat)
    requires a != b
    ensures PagesStored([Msg(a, t), Msg(b, t)], StartForward(Msg(a, t), limit)) == limit
    ensures PagesStored([Msg(a, t), Msg(b, t)], StartForward(Msg(b, t), limit)) == limit
  {
    hide FetchForward;
    if limit > 0 {
      TieRound([Msg(a, t), Msg(b, t)], a, b, t, limit);
      TieRound([Msg(a, t), Msg(b, t)], b, a, t, limit);
      TieBurnsTheLimit(a, b, t, limit - 1);
    }
  }

  lemma TieRound(log: seq<Msg>, other: int, at: int, t: int, limit: nat)
    requires log == [Msg(other, t), Msg(at, t)] || log == [Msg(at, t), Msg(other, t)]
    requires other != at && limit > 0
    ensures PagesStored(log, StartForward(Msg(at, t), limit))
            == 1 + PagesStored(log, StartForward(Msg(other, t), limit - 1))
  {
    hide FetchForward;
    TieFetch(log, other, at, t, limit);
    var g := Fill(t, {other}, limit, [Msg(other, t)], false);
    assert Stored(g) == StartForward(Msg(other, t), limit - 1);
    assert PagesStored(log, g) == PagesStored(log, Stored(g));
  }

  lemma TieFetch(log: seq<Msg>, other: int, at: int, t: int, limit: nat)
    requires log == [Msg(other, t), Msg(at, t)] || log == [Msg(at, t), Msg(other, t)]
    requires other != at && limit > 0
    ensures FetchForward(log, StartForward(Msg(at, t), limit))
            == Fill(t, {other}, limit, [Msg(other, t)], false)
  {
    var page := HistoryForward(log, t, PageSize(limit, true));
    assert Below(log, t) == 0 by {
      assert log[..1][..0] == [];
    }
    assert page == log[0..2] == log;
    var p := IsNewer(t, {at});
    assert page == [page[0]] + [page[1]];
    FilterConcat([page[0]], [page[1]], p);
    assert Newer(page, t, {at}) == [Msg(other, t)];
    TakeNewerSpec([Msg(other, t)], StartForward(Msg(at, t), limit));
  }
}
