/**
 The sync code itself: the forward and backward backfill loops and one catch-up pass, as
 methods over the tables they change. Each page of a forward fill is answered from the
 chat's history of its moment, and a fill may be cut short anywhere; SyncProtocol.dfy
 interleaves the same steps with live frames.
 */
module MaxSync {
  import opened Wrappers
  import opened Seqs
  import opened MaxHistory
  import opened MaxBackward
  import opened GrowingHistory

  /**
   What a chat's catch-up meets: nothing, or, after some of its pages and stores, an error,
   chat.denied, or a lost session.
   */
  datatype Outcome = Fine | Failed(after: nat) | Denied(after: nat) | Unavailable(after: nat)

  function FailsAfter(outcome: Outcome): Option<nat> {
    if outcome.Fine? then None else Some(outcome.after)
  }

  // ---------------------------------------------------------------------------
  // One chat of a catch-up pass
  // ---------------------------------------------------------------------------

  function Listed(db: map<int, ChatDb>, listing: map<int, Option<Msg>>): map<int, ChatDb> {
    map c | c in db.Keys + listing.Keys ::
      var d := if c in db then db[c] else ChatDb({}, None, None);
      if c in listing then d.(tail := ListTail(d.tail, listing[c])) else d
  }

  /** The seed page, message by message, and then the oldest cursor. */
  function SeedOver(now: nat, db: ChatDb, rest: seq<Msg>, low: Option<Msg>, fails: Option<nat>): Filled
    decreases |rest|
  {
    if fails == Some(0) then Filled(db, now, 0, false)
    else if rest != [] then SeedOver(now, StoreMessage(db, rest[0], true), rest[1..], low, Less(fails))
    else Filled(if low.Some? then db.(row := MoveOldest(db.row, low.value)) else db, now, 0, true)
  }

  /** The first fill of a chat: its newest messages, not its full history. */
  function SeedRun(logs: History, now: nat, d: ChatDb, seed: nat, fails: Option<nat>): Filled {
    if fails == Some(0) then Filled(d, now, 0, false)
    else
      var page := HistoryBackward(logs(now), None, seed);
      SeedOver(now + 1, d, page, if page == [] then None else Some(Earliest(page)), Less(fails))
  }

  /** The catch-up of one chat; a row without a newest message cannot be continued. */
  function ChatRun(logs: History, now: nat, d: ChatDb, seed: nat, fails: Option<nat>): Filled {
    if d.row.None? then SeedRun(logs, now, d, seed, fails)
    else if d.row.value.newest.None? then Filled(d, now, 0, false)
    else FillOver(logs, now, d, StartForward(d.row.value.newest.value, CATCHUP_LIMIT), fails)
  }

  /** e is what a catch-up of d left that ran between two moments, and whether it got to its end. */
  ghost predicate Ran(logs: History, d: ChatDb, e: ChatDb, seed: nat, outcome: Outcome, from: nat, upTo: nat, done: bool) {
    exists q: nat :: from <= q && RanAt(logs, d, e, seed, outcome, q, upTo, done)
  }

  ghost predicate RanAt(logs: History, d: ChatDb, e: ChatDb, seed: nat, outcome: Outcome, q: nat, upTo: nat, done: bool) {
    var run := ChatRun(logs, q, d, seed, FailsAfter(outcome));
    run.db == e && run.done == done && run.now <= upTo
  }

  lemma {:induction false} SeedMoves(now: nat, db: ChatDb, rest: seq<Msg>, low: Option<Msg>, fails: Option<nat>)
    ensures SeedOver(now, db, rest, low, fails).now == now
    decreases |rest|
  {
    hide StoreMessage;
    if fails != Some(0) && rest != [] {
      SeedMoves(now, StoreMessage(db, rest[0], true), rest[1..], low, Less(fails));
    }
  }

  /** What a catch-up that began at q left. */
  lemma RunIs(logs: History, q: nat, d: ChatDb, seed: nat, outcome: Outcome)
    ensures var run := ChatRun(logs, q, d, seed, FailsAfter(outcome));
            q <= run.now && Ran(logs, d, run.db, seed, outcome, q, run.now, run.done)
  {
    hide FillOver, SeedOver, HistoryBackward, Earliest;
    var fails := FailsAfter(outcome);
    var run := ChatRun(logs, q, d, seed, fails);
    assert RanAt(logs, d, run.db, seed, outcome, q, run.now, run.done);
    if d.row.None? {
      var page := HistoryBackward(logs(q), None, seed);
      SeedMoves(q + 1, d, page, if page == [] then None else Some(Earliest(page)), Less(fails));
    } else if d.row.value.newest.Some? {
      TimeGoesOn(logs, q, d, StartForward(d.row.value.newest.value, CATCHUP_LIMIT), fails);
    }
  }

  lemma RanWithin(logs: History, d: ChatDb, e: ChatDb, seed: nat, outcome: Outcome, done: bool,
                  a: nat, b: nat, from: nat, upTo: nat)
    requires Ran(logs, d, e, seed, outcome, a, b, done) && from <= a && b <= upTo
    ensures Ran(logs, d, e, seed, outcome, from, upTo, done)
  {
    hide ChatRun;
    var q: nat :| a <= q && RanAt(logs, d, e, seed, outcome, q, b, done);
    assert RanAt(logs, d, e, seed, outcome, q, upTo, done);
  }

  /** Freshest first, chats without a message last. */
  function Freshness(db: map<int, ChatDb>): int -> int {
    (c: int) => if c in db && db[c].tail.Some? then -db[c].tail.value.time else 1
  }

  function GapOf(db: map<int, ChatDb>): int -> bool {
    (c: int) => c in db && HasGap(db[c])
  }

  /**
   What the pass promises for a chat that had a cursor: the fill of a chat with a tail stores
   all that the server had when the last page was asked for, up to the limit, also what
   came after the pass began; without a tail nothing up to the listed message is missing.
   */
  ghost predicate GapFilled(logs: History, from: nat, upTo: nat, before: ChatDb, after: ChatDb, listed: Option<Msg>) {
    var gap := HasGap(before.(tail := ListTail(before.tail, listed)));
    forall i: nat, k: nat | Continues(logs, from, upTo, before, listed, i, k) ::
      if gap then exists q: nat :: from <= q < upTo && TakenBy(logs(q), i, after.stored)
      else forall j | i < j < k && j < |logs(upTo)| :: logs(upTo)[j] in after.stored
  }

  /** Of what is above log[i] the limit's worth is stored. */
  ghost predicate TakenBy(log: seq<Msg>, i: nat, stored: set<Msg>) {
    forall j | i < j < |log| && j <= i + 10_000 :: log[j] in stored
  }

  /** The cursor is at the i-th message of a growing history, and the list told its k-th one to be the last. */
  ghost predicate Continues(logs: History, from: nat, upTo: nat, d: ChatDb, listed: Option<Msg>, i: nat, k: nat) {
    && Grows(logs) && AlwaysOrdered(logs) && from <= upTo
    && i < |logs(from)| && d.row.Some? && d.row.value.newest == Some(logs(from)[i])
    && (d.tail.Some? ==> d.tail.value in logs(upTo))
    && 0 < k <= |logs(upTo)| && listed == Some(logs(upTo)[k - 1])
  }

  lemma InRun(log: seq<Msg>, a: nat, b: nat, j: nat)
    requires a <= j < b <= |log|
    ensures log[j] in Messages(log[a..b])
  {
    assert log[a..b][j - a] == log[j];
  }

  /** A fill that got to its end has all that its last page could show. */
  lemma LastPageTaken(logs: History, q: nat, d: ChatDb, fails: Option<nat>, i: nat)
    requires Grows(logs) && AlwaysOrdered(logs) && i < |logs(q)|
    requires d.row.Some? && d.row.value.newest == Some(logs(q)[i])
    ensures var r := FillOver(logs, q, d, StartForward(logs(q)[i], CATCHUP_LIMIT), fails);
            r.done ==> q < r.now && TakenBy(logs(r.now - 1), i, r.db.stored)
  {
    hide FillOver, Ordered, Messages;
    FillExact(logs, q, d, CATCHUP_LIMIT, fails, i);
    var r := FillOver(logs, q, d, StartForward(logs(q)[i], CATCHUP_LIMIT), fails);
    if r.done {
      var last, end := logs(r.now - 1), logs(r.now);
      assert last <= end;
      forall j | i < j < |last| && j <= i + CATCHUP_LIMIT
        ensures last[j] in r.db.stored
      {
        InRun(end, i + 1, i + 1 + CATCHUP_LIMIT - r.left, j);
      }
    }
  }

  /** A candidate's catch-up fills its gap. */
  lemma CandidateFilled(logs: History, from: nat, upTo: nat, before: ChatDb, d: ChatDb, after: ChatDb, seed: nat,
                        outcome: Outcome, listed: Option<Msg>)
    requires d == before.(tail := ListTail(before.tail, listed)) && HasGap(d)
    requires Ran(logs, d, after, seed, outcome, from, upTo, true)
    ensures GapFilled(logs, from, upTo, before, after, listed)
  {
    hide FillOver, Ordered, TakenBy;
    var q: nat :| from <= q && RanAt(logs, d, after, seed, outcome, q, upTo, true);
    forall i: nat, k: nat | Continues(logs, from, upTo, before, listed, i, k)
      ensures exists x: nat :: from <= x < upTo && TakenBy(logs(x), i, after.stored)
    {
      assert logs(from) <= logs(q);
      LastPageTaken(logs, q, d, FailsAfter(outcome), i);
      var last := ChatRun(logs, q, d, seed, FailsAfter(outcome)).now - 1;
      assert TakenBy(logs(last), i, after.stored);
    }
  }

  /** The backward loop starts below log[u], or below now. */
  ghost predicate StartsAt(log: seq<Msg>, row: Option<Row>, u: nat) {
    Ordered(log) && AtUpper(log, StartBackward(row, None, 0).pos, u)
  }

  /** Mid-loop: where the loop is going has not changed, and the cursor tells where it is. */
  ghost predicate Counted(log: seq<Msg>, row: Option<Row>, stop: Option<int>, limit: nat,
                          cursor: Option<int>, stored: nat)
  {
    stored <= limit && forall u: nat | StartsAt(log, row, u) :: CountedAt(log, stop, limit, cursor, stored, u)
  }

  ghost predicate CountedAt(log: seq<Msg>, stop: Option<int>, limit: nat, cursor: Option<int>, stored: nat, u: nat)
    requires stored <= limit
  {
    && stored <= u && AtUpper(log, cursor, u - stored)
    && Reach(Cutoff(log, stop), u, limit) == Reach(Cutoff(log, stop), u - stored, limit - stored)
  }

  ghost predicate CountDone(log: seq<Msg>, row: Option<Row>, stop: Option<int>, limit: nat, stored: nat) {
    forall u: nat | StartsAt(log, row, u) :: stored == u - Reach(Cutoff(log, stop), u, limit)
  }

  lemma CountStart(log: seq<Msg>, row: Option<Row>, stop: Option<int>, limit: nat)
    ensures Counted(log, row, stop, limit, StartBackward(row, stop, limit).pos, 0)
    ensures limit == 0 ==> CountDone(log, row, stop, limit, 0)
  {
  }

  lemma CountTurnAt(log: seq<Msg>, b: Back, v: nat)
    requires Ordered(log) && AtUpper(log, b.pos, v)
    requires b.rest == [] && b.low.None? && b.outcome.None? && b.left > 0
    ensures var g, k := FetchBackward(log, b), Cutoff(log, b.stop);
            && (g.outcome.Some? ==> Reach(k, v, b.left) == v)
            && (g.outcome.None? ==>
                  && g.low.Some? && |g.rest| <= v && |g.rest| <= b.left
                  && AtUpper(log, Some(g.low.value.time), v - |g.rest|)
                  && Reach(k, v, b.left) == Reach(k, v - |g.rest|, b.left - |g.rest|)
                  && (g.cut ==> Reach(k, v, b.left) == v - |g.rest|))
  {
    hide FetchBackward, Cutoff, Reverse;
    FetchBackwardSpec(log, b, v);
  }

  lemma CountTurn(log: seq<Msg>, row: Option<Row>, stop: Option<int>, limit: nat, cursor: Option<int>, stored: nat)
    requires Counted(log, row, stop, limit, cursor, stored) && stored < limit
    ensures var g := FetchBackward(log, Back(cursor, stop, limit - stored, [], None, false, None));
            && (g.outcome.Some? ==> CountDone(log, row, stop, limit, stored))
            && (g.outcome.None? ==>
                  && g.low.Some? && stored + |g.rest| <= limit
                  && Counted(log, row, stop, limit, Some(g.low.value.time), stored + |g.rest|)
                  && (g.cut || stored + |g.rest| == limit ==>
                        CountDone(log, row, stop, limit, stored + |g.rest|)))
  {
    hide FetchBackward, Cutoff, StartsAt, CountedAt, Reach;
    var b := Back(cursor, stop, limit - stored, [], None, false, None);
    var g := FetchBackward(log, b);
    FetchBackFits(log, b);
    forall u: nat | StartsAt(log, row, u)
      ensures g.outcome.Some? ==> stored == u - Reach(Cutoff(log, stop), u, limit)
      ensures g.outcome.None? ==>
                && g.low.Some? && CountedAt(log, stop, limit, Some(g.low.value.time), stored + |g.rest|, u)
                && (g.cut || stored + |g.rest| == limit ==>
                      stored + |g.rest| == u - Reach(Cutoff(log, stop), u, limit))
    {
      StartOrdered(log, row, u);
      CountTurnFor(log, b, limit, stored, u);
    }
  }

  lemma StartOrdered(log: seq<Msg>, row: Option<Row>, u: nat)
    requires StartsAt(log, row, u)
    ensures Ordered(log)
  {
  }

  lemma CountTurnFor(log: seq<Msg>, b: Back, limit: nat, stored: nat, u: nat)
    requires Ordered(log) && stored < limit && b == Back(b.pos, b.stop, limit - stored, [], None, false, None)
    requires CountedAt(log, b.stop, limit, b.pos, stored, u)
    ensures var g, k := FetchBackward(log, b), Cutoff(log, b.stop);
            && (g.outcome.Some? ==> stored == u - Reach(k, u, limit))
            && (g.outcome.None? ==>
                  && g.low.Some? && stored + |g.rest| <= limit
                  && CountedAt(log, b.stop, limit, Some(g.low.value.time), stored + |g.rest|, u)
                  && (g.cut || stored + |g.rest| == limit ==> stored + |g.rest| == u - Reach(k, u, limit)))
  {
    hide FetchBackward, Cutoff, AtUpper, Ordered;
    CountTurnAt(log, b, u - stored);
  }

  /** The locals of the backward loop between two pages; done: it ends without the beginning seen. */
  function Turning(cursor: Option<int>, stop: Option<int>, left: nat, done: bool): Back {
    Back(cursor, stop, left, [], None, false, if done then Some(false) else None)
  }

  lemma StartTurning(row: Option<Row>, stop: Option<int>, limit: nat)
    ensures var cursor := if row.Some? && row.value.oldest.Some? then Some(row.value.oldest.value.time) else None;
            StartBackward(row, stop, limit) == Turning(cursor, stop, limit, limit == 0)
  {
  }

  lemma TurningEnds(log: seq<Msg>, d: ChatDb, cursor: Option<int>, stop: Option<int>, left: nat)
    ensures BackwardRun(log, d, Turning(cursor, stop, left, true)) == d.(row := FinishBackfill(d.row, Some(false)))
  {
    hide BackwardRun;
    BackwardUnfolds(log, d, Turning(cursor, stop, left, true));
  }

  /** One turn of the backward loop, in terms of its page. */
  lemma Turn(log: seq<Msg>, d: ChatDb, row: Option<Row>, stop: Option<int>, limit: nat, cursor: Option<int>, stored: nat)
    requires Counted(log, row, stop, limit, cursor, stored) && stored < limit
    ensures var older := Filter(HistoryBackward(log, cursor, PageSize(limit - stored, cursor.Some?)), IsOlder(cursor));
            var inRange := Take(Sort(Filter(older, IsSince(stop)), NegTime), limit - stored);
            var run := BackwardRun(log, d, Turning(cursor, stop, limit - stored, false));
            && (older == [] ==> CountDone(log, row, stop, limit, stored)
                                && run == d.(row := FinishBackfill(d.row, Some(true))))
            && (older != [] && inRange == [] ==> CountDone(log, row, stop, limit, stored)
                                                 && run == d.(row := FinishBackfill(d.row, Some(false))))
            && (older != [] && inRange != [] ==>
                  var n, low, e := stored + |inRange|, inRange[|inRange| - 1], StoreAll(d, inRange);
                  var done := |inRange| < |older| || n == limit;
                  && n <= limit && Counted(log, row, stop, limit, Some(low.time), n)
                  && (done ==> CountDone(log, row, stop, limit, n))
                  && run == BackwardRun(log, e.(row := MoveOldest(e.row, low)),
                                        Turning(Some(low.time), stop, limit - n, done)))
  {
    hide FetchBackward, BackwardRun, HistoryBackward, Filter, Sort, StoreAll, Counted, CountDone, Take, MoveOldest,
         FinishBackfill;
    var b := Turning(cursor, stop, limit - stored, false);
    TurnUnfolds(log, d, b);
    FetchBackUnfolds(log, b);
    CountTurn(log, row, stop, limit, cursor, stored);
  }

  /** A chat without a tail has no gap when the chat list is true. */
  lemma NoTailFilled(logs: History, from: nat, upTo: nat, before: ChatDb, d: ChatDb, listed: Option<Msg>)
    requires d == before.(tail := ListTail(before.tail, listed)) && !HasGap(d)
    ensures GapFilled(logs, from, upTo, before, d, listed)
  {
    forall i: nat, k: nat | Continues(logs, from, upTo, before, listed, i, k)
      ensures k - 1 <= i
    {
      var log := logs(upTo);
      assert logs(from) <= log;
      var n := k - 1;
      if before.tail.Some? {
        var x :| 0 <= x < |log| && log[x] == before.tail.value;
        if x < n {
          assert Precedes(log, x, n);
        } else {
          OrderUp(log, n, x);
        }
      }
      assert log[n].time <= d.tail.value.time <= log[i].time;
      OrderDown(log, n, i);
    }
  }

  lemma PassFills(logs: History, from: nat, start: nat, upTo: nat, before: ChatDb, d: ChatDb, after: ChatDb, seed: nat,
                  outcome: Outcome, listed: Option<Msg>)
    requires d == before.(tail := ListTail(before.tail, listed))
    requires from <= start
    requires if HasGap(d) then Ran(logs, d, after, seed, outcome, start, upTo, true) else after == d
    ensures GapFilled(logs, from, upTo, before, after, listed)
  {
    hide Ran, GapFilled;
    if HasGap(d) {
      RanWithin(logs, d, after, seed, outcome, true, start, upTo, from, upTo);
      CandidateFilled(logs, from, upTo, before, d, after, seed, outcome, listed);
    } else {
      NoTailFilled(logs, from, upTo, before, d, listed);
    }
  }

  /**
   In plain terms, for histories that only grow and are by time, a chat whose cursor was at the
   i-th message, and a list that told its k-th: of a chat that was behind, what the server had
   when the pass began is stored, up to 10,000 messages; of another, all up to the listed one.
   */
  lemma GapFilledMeans(logs: History, from: nat, upTo: nat, before: ChatDb, after: ChatDb, i: nat, k: nat)
    requires (forall a: nat, b: nat | a <= b :: logs(a) <= logs(b)) && (forall a: nat :: Ordered(logs(a)))
    requires from <= upTo && i < |logs(from)| && before.row.Some? && before.row.value.newest == Some(logs(from)[i])
    requires before.tail.Some? ==> before.tail.value in logs(upTo)
    requires 1 <= k <= |logs(upTo)| && GapFilled(logs, from, upTo, before, after, Some(logs(upTo)[k - 1]))
    ensures HasGap(before.(tail := ListTail(before.tail, Some(logs(upTo)[k - 1])))) ==>
              forall j | i < j < |logs(from)| && j <= i + 10_000 :: logs(from)[j] in after.stored
    ensures !HasGap(before.(tail := ListTail(before.tail, Some(logs(upTo)[k - 1])))) ==>
              forall j | i < j < k :: logs(upTo)[j] in after.stored
  {
    hide Ordered, HasGap, ListTail;
    assert Continues(logs, from, upTo, before, Some(logs(upTo)[k - 1]), i, k);
    if HasGap(before.(tail := ListTail(before.tail, Some(logs(upTo)[k - 1])))) {
      var q: nat :| from <= q < upTo && TakenBy(logs(q), i, after.stored);
      assert logs(from) <= logs(q);
      forall j | i < j < |logs(from)| && j <= i + 10_000
        ensures logs(from)[j] in after.stored
      {
        assert logs(q)[j] == logs(from)[j];
      }
    }
  }

  // ---------------------------------------------------------------------------
  // Which chats a pass tries, and what is left
  // ---------------------------------------------------------------------------

  /** The chat has a last message, and no newest cursor or an earlier one. */
  ghost predicate Behind(d: ChatDb) {
    && d.tail.Some?
    && (d.row.None? || d.row.value.newest.None? || d.row.value.newest.value.time < d.tail.value.time)
  }

  /** The chats of the list that are behind. */
  ghost function AllBehind(db: map<int, ChatDb>, order: seq<int>): set<int> {
    set c | c in order && c in db && Behind(db[c])
  }

  /** The last message of e is not later than that of c. */
  ghost predicate NotLater(db: map<int, ChatDb>, e: int, c: int) {
    && c in db && db[c].tail.Some? && e in db && db[e].tail.Some?
    && db[e].tail.value.time <= db[c].tail.value.time
  }

  /** A row without a newest message leaves a fill nowhere to start from. */
  ghost predicate CanContinue(db: map<int, ChatDb>, c: int) {
    c in db && (db[c].row.Some? ==> db[c].row.value.newest.Some?)
  }

  /** The chats as the pass knows them, from the fresh list if it could be had. */
  ghost function Known(db: map<int, ChatDb>, listing: Option<map<int, Option<Msg>>>): map<int, ChatDb> {
    if listing.Some? then Listed(db, listing.value) else db
  }

  /** The chats whose fill did not get to its end, for another reason than being denied. */
  ghost function Errors(tried: seq<int>, ended: set<int>, outcome: map<int, Outcome>): set<int>
    requires forall c | c in tried :: c in outcome
  {
    set c | c in tried && c !in ended && !outcome[c].Denied?
  }

  ghost function DeniedOf(tried: seq<int>, ended: set<int>, outcome: map<int, Outcome>): set<int>
    requires forall c | c in tried :: c in outcome
  {
    set c | c in tried && c !in ended && outcome[c].Denied?
  }

  lemma OneMore(tried: seq<int>, chat: int, ended: set<int>, done: bool, outcome: map<int, Outcome>)
    requires forall c | c in tried + [chat] :: c in outcome
    requires chat !in tried && ended <= set c | c in tried
    ensures var more := if done then ended + {chat} else ended;
            && Errors(tried + [chat], more, outcome)
               == Errors(tried, ended, outcome) + (if !done && !outcome[chat].Denied? then {chat} else {})
            && DeniedOf(tried + [chat], more, outcome)
               == DeniedOf(tried, ended, outcome) + (if !done && outcome[chat].Denied? then {chat} else {})
            && chat !in Errors(tried, ended, outcome)
  {
  }

  lemma {:induction false} DistinctSize(s: seq<int>)
    requires Distinct(s)
    ensures |set c | c in s| == |s|
  {
    if s != [] {
      var init, x := s[..|s| - 1], s[|s| - 1];
      DistinctSize(init);
      assert s == init + [x];
      assert (set c | c in s) == (set c | c in init) + {x};
    } else {
      assert (set c | c in s) == {};
    }
  }

  lemma {:induction false} FilterSorted(s: seq<int>, p: int -> bool, key: int -> int)
    requires SortedBy(s, key)
    ensures SortedBy(Filter(s, p), key)
  {
    if s != [] {
      FilterSorted(s[1..], p, key);
      FilterIn(s[1..], p);
      forall c | c in s[1..]
        ensures key(s[0]) <= key(c)
      {
        var i :| 0 < i < |s| && s[i] == c;
        assert key(s[0]) <= key(s[i]);
      }
    }
  }

  /** The candidates are the chats behind, each once, and the first n of them have the latest last messages. */
  lemma CandidatesAre(db: map<int, ChatDb>, order: seq<int>, candidates: seq<int>, n: nat)
    requires Distinct(order) && Distinct(candidates) && n <= |candidates|
    requires candidates == Filter(Sort(order, Freshness(db)), GapOf(db))
    requires forall c :: c in candidates <==> c in order && c in db && HasGap(db[c])
    ensures (set c | c in candidates) == AllBehind(db, order) && |candidates| == |AllBehind(db, order)|
    ensures forall c, e | c in candidates[..n] && e in AllBehind(db, order) && e !in candidates[..n] ::
              c in AllBehind(db, order) && NotLater(db, e, c)
  {
    hide Sort, Filter, Distinct, Freshness;
    forall c
      ensures c in candidates <==> c in AllBehind(db, order)
    {
      if c in db {
        GapIsBehind(db[c]);
      }
    }
    DistinctSize(candidates);
    SortSorted(order, Freshness(db));
    FilterSorted(Sort(order, Freshness(db)), GapOf(db), Freshness(db));
    forall c, e | c in candidates[..n] && e in AllBehind(db, order) && e !in candidates[..n]
      ensures c in AllBehind(db, order) && NotLater(db, e, c)
    {
      var i :| 0 <= i < n && candidates[..n][i] == c;
      assert candidates == candidates[..n] + candidates[n..];
      assert e in candidates[n..];
      var j :| n <= j < |candidates| && candidates[j] == e;
      assert Freshness(db)(candidates[i]) <= Freshness(db)(candidates[j]);
      Fresher(db, c, e);
    }
  }

  lemma GapIsBehind(d: ChatDb)
    ensures HasGap(d) <==> Behind(d)
  {
  }

  lemma Fresher(db: map<int, ChatDb>, c: int, e: int)
    requires c in db && e in db && db[c].tail.Some? && db[e].tail.Some? && Freshness(db)(c) <= Freshness(db)(e)
    ensures db[e].tail.value.time <= db[c].tail.value.time
  {
  }

  /** Refreshing the list: every listed chat is known then, and takes a last message with a higher id. */
  lemma ListedIs(db: map<int, ChatDb>, listing: map<int, Option<Msg>>, c: int)
    ensures var after := Listed(db, listing);
            && (c in after <==> c in db || c in listing)
            && (c in after ==>
                  var was := if c in db then db[c] else ChatDb({}, None, None);
                  && after[c].stored == was.stored && after[c].row == was.row
                  && (c in listing && listing[c].Some? && (was.tail.None? || was.tail.value.id < listing[c].value.id) ==>
                        after[c].tail == listing[c])
                  && (!(c in listing && listing[c].Some? && (was.tail.None? || was.tail.value.id < listing[c].value.id)) ==>
                        after[c].tail == was.tail))
  {
  }

  /** Nothing comes between a fill that meets nothing and its end. */
  lemma FineEnds(logs: History, d: ChatDb, e: ChatDb, seed: nat, from: nat, upTo: nat, done: bool)
    requires Ran(logs, d, e, seed, Fine, from, upTo, done)
    requires d.row.Some? ==> d.row.value.newest.Some?
    ensures done
  {
    hide FillOver, SeedOver, HistoryBackward, Earliest;
    var q: nat :| from <= q && RanAt(logs, d, e, seed, Fine, q, upTo, done);
    if d.row.None? {
      var page := HistoryBackward(logs(q), None, seed);
      SeedEnds(q + 1, d, page, if page == [] then None else Some(Earliest(page)));
    } else {
      GetsToItsEnd(logs, q, d, StartForward(d.row.value.newest.value, CATCHUP_LIMIT));
    }
  }

  lemma {:induction false} SeedEnds(now: nat, db: ChatDb, rest: seq<Msg>, low: Option<Msg>)
    ensures SeedOver(now, db, rest, low, None).done
    decreases |rest|
  {
    hide StoreMessage;
    if rest != [] {
      SeedEnds(now, StoreMessage(db, rest[0], true), rest[1..], low);
    }
  }

  /**
   When a chat's catch-up gets to its end: always if it meets nothing, else exactly if it is done
   with its pages and stores before it is cut short; without a newest message in its row never.
   */
  lemma RunEnds(logs: History, q: nat, d: ChatDb, seed: nat, outcome: Outcome)
    ensures var run := ChatRun(logs, q, d, seed, FailsAfter(outcome));
            && (d.row.None? ==> (run.done <==> outcome.Fine? || outcome.after > 1 + Min(seed, |logs(q)|)))
            && (d.row.Some? && d.row.value.newest.None? ==> !run.done && run.db == d && run.now == q)
            && (d.row.Some? && d.row.value.newest.Some? ==>
                  && q <= run.now && run.left <= 10_000
                  && var steps := run.now - q + 10_000 - run.left;
                     if outcome.Fine? then run.done
                     else steps <= outcome.after && (run.done <==> steps < outcome.after))
  {
    hide FillOver, SeedOver, Earliest;
    if d.row.None? {
      var page := HistoryBackward(logs(q), None, seed);
      SeedSteps(q + 1, d, page, if page == [] then None else Some(Earliest(page)), Less(FailsAfter(outcome)));
    } else if d.row.value.newest.Some? {
      FillSteps(logs, q, d, StartForward(d.row.value.newest.value, CATCHUP_LIMIT), FailsAfter(outcome));
    }
  }

  lemma {:induction false} SeedSteps(now: nat, db: ChatDb, rest: seq<Msg>, low: Option<Msg>, fails: Option<nat>)
    ensures SeedOver(now, db, rest, low, fails).done <==> fails.None? || fails.value > |rest|
    decreases |rest|
  {
    hide StoreMessage;
    if fails != Some(0) && rest != [] {
      SeedSteps(now, StoreMessage(db, rest[0], true), rest[1..], low, Less(fails));
    }
  }

  /** A seed that was cut short has stored the oldest messages of its page, as many as it came to. */
  lemma SeedCut(logs: History, now: nat, d: ChatDb, seed: nat, n: nat)
    requires d.row.None? && !SeedRun(logs, now, d, seed, Some(n)).done
    ensures var log := logs(now);
            var k := if seed < |log| then |log| - seed else 0;
            var m := if n > 0 then n - 1 else 0;
            k + m <= |log| && SeedRun(logs, now, d, seed, Some(n)).db == StoreAll(d, log[k..k + m])
  {
    hide SeedOver, StoreAll, Earliest;
    var log := logs(now);
    var k := if seed < |log| then |log| - seed else 0;
    var page := HistoryBackward(log, None, seed);
    assert page == log[k..|log|];
    if n > 0 {
      SeedCutOver(now + 1, d, page, if page == [] then None else Some(Earliest(page)), n - 1);
      assert page[..n - 1] == log[k..k + n - 1];
    } else {
      StoredNone(d);
      assert log[k..k] == [];
    }
  }

  lemma {:induction false} SeedCutOver(now: nat, db: ChatDb, rest: seq<Msg>, low: Option<Msg>, n: nat)
    requires !SeedOver(now, db, rest, low, Some(n)).done
    ensures n <= |rest| && SeedOver(now, db, rest, low, Some(n)).db == StoreAll(db, rest[..n])
    decreases |rest|
  {
    hide StoreMessage, StoreAll;
    if n > 0 && rest != [] {
      SeedCutOver(now, StoreMessage(db, rest[0], true), rest[1..], low, n - 1);
      StoreFirst(db, rest[..n]);
      assert rest[..n][1..] == rest[1..][..n - 1];
    } else {
      StoredNone(db);
      assert rest[..0] == [];
    }
  }

  /**
   The first fill of a chat: at its end the newest messages are stored, as many as the seed asks
   for or as there are, and the cursor pair spans them.
   */
  lemma SeedIs(logs: History, now: nat, d: ChatDb, seed: nat, fails: Option<nat>)
    requires Ordered(logs(now)) && d.row.None? && SeedRun(logs, now, d, seed, fails).done
    ensures var log, e := logs(now), SeedRun(logs, now, d, seed, fails).db;
            var k := if seed < |log| then |log| - seed else 0;
            && e.stored == d.stored + Messages(log[k..])
            && (k == |log| ==> e.row.None?)
            && (k < |log| ==> e.row == Some(Row(Some(log[|log| - 1]), Some(log[k]), false)))
  {
    hide SeedOver, StoreAll, Earliest, Messages, Ordered, MoveOldest;
    var log := logs(now);
    var k := if seed < |log| then |log| - seed else 0;
    var page := HistoryBackward(log, None, seed);
    assert page == log[k..|log|] && log[k..|log|] == log[k..];
    OrderedSlice(log, k, |log|);
    SeedStoresAll(now + 1, d, page, if page == [] then None else Some(Earliest(page)), Less(fails));
    StoreAllStores(d, page);
    if page != [] {
      EarliestFirst(page);
      FirstFill(d, page);
      OldestStays(log, d, page);
    } else {
      assert StoreAll(d, []) == d by { StoredNone(d); }
    }
  }

  lemma OldestStays(log: seq<Msg>, d: ChatDb, page: seq<Msg>)
    requires page != [] && StoreAll(d, page).row == Some(Row(Some(page[|page| - 1]), Some(page[0]), false))
    ensures MoveOldest(StoreAll(d, page).row, page[0]) == StoreAll(d, page).row
  {
  }

  lemma StoredNone(d: ChatDb)
    ensures StoreAll(d, []) == d
  {
  }

  lemma {:induction false} EarliestFirst(page: seq<Msg>)
    requires Ordered(page) && page != []
    ensures Earliest(page) == page[0]
  {
    if |page| > 1 {
      OrderedSlice(page, 1, |page|);
      assert page[1..|page|] == page[1..];
      EarliestFirst(page[1..]);
      assert Precedes(page, 0, 1);
    }
  }

  /** A run of messages stored in a chat without a row makes the row: the last and the first. */
  lemma FirstFill(d: ChatDb, page: seq<Msg>)
    requires Ordered(page) && page != [] && d.row.None?
    ensures StoreAll(d, page).row == Some(Row(Some(page[|page| - 1]), Some(page[0]), false))
  {
    hide StoreAll;
    var e := StoreMessage(d, page[0], true);
    OrderedSlice(page, 1, |page|);
    assert page[1..|page|] == page[1..];
    if |page| > 1 {
      OrderStrict(page, 0, 1);
    }
    StoreAllAscending(e, page[1..]);
    StoreFirst(d, page);
  }

  lemma StoreFirst(d: ChatDb, page: seq<Msg>)
    requires page != []
    ensures StoreAll(d, page) == StoreAll(StoreMessage(d, page[0], true), page[1..])
  {
  }

  lemma {:induction false} SeedStoresAll(now: nat, db: ChatDb, rest: seq<Msg>, low: Option<Msg>, fails: Option<nat>)
    requires SeedOver(now, db, rest, low, fails).done
    ensures var e := StoreAll(db, rest);
            SeedOver(now, db, rest, low, fails).db
            == if low.Some? then e.(row := MoveOldest(e.row, low.value)) else e
    decreases |rest|
  {
    hide StoreMessage, MoveOldest;
    if rest != [] {
      SeedStoresAll(now, StoreMessage(db, rest[0], true), rest[1..], low, Less(fails));
    }
  }

  lemma NoneRan(server: map<int, History>, db: map<int, ChatDb>, seed: nat, outcome: map<int, Outcome>, now: nat)
    ensures RanEach(server, db, db, seed, outcome, now, now, [], {})
  {
  }

  /** The marks a pass has made so far, and how many errors it has counted. */
  ghost predicate Marked(wasCaughtUp: set<int>, wasDenied: set<int>, caughtUp: set<int>, denied: set<int>, count: nat,
                         tried: seq<int>, ended: set<int>, outcome: map<int, Outcome>)
  {
    && (forall c | c in tried :: c in outcome) && ended <= (set c | c in tried)
    && caughtUp == wasCaughtUp + ended && denied == wasDenied + DeniedOf(tried, ended, outcome)
    && count == |Errors(tried, ended, outcome)|
  }

  lemma MarkedMore(wasCaughtUp: set<int>, wasDenied: set<int>, caughtUp: set<int>, denied: set<int>, count: nat,
                   tried: seq<int>, ended: set<int>, outcome: map<int, Outcome>, chat: int, done: bool)
    requires Marked(wasCaughtUp, wasDenied, caughtUp, denied, count, tried, ended, outcome)
    requires chat !in tried && chat in outcome
    ensures Marked(wasCaughtUp, wasDenied, if done then caughtUp + {chat} else caughtUp,
                   if !done && outcome[chat].Denied? then denied + {chat} else denied,
                   count + if done || outcome[chat].Denied? then 0 else 1,
                   tried + [chat], if done then ended + {chat} else ended, outcome)
    ensures chat !in ended
  {
    hide Errors, DeniedOf;
    OneMore(tried, chat, ended, done, outcome);
  }

  lemma MarkedMeans(wasCaughtUp: set<int>, wasDenied: set<int>, caughtUp: set<int>, denied: set<int>, count: nat,
                    tried: seq<int>, ended: set<int>, outcome: map<int, Outcome>)
    requires Marked(wasCaughtUp, wasDenied, caughtUp, denied, count, tried, ended, outcome)
    ensures caughtUp == wasCaughtUp + ended && denied == wasDenied + DeniedOf(tried, ended, outcome)
    ensures count == |Errors(tried, ended, outcome)| && ended <= (set c | c in tried)
  {
  }

  /**
   Which chats a pass tries: chats behind, each once, none before one with a later last
   message, and, if the pass goes through, as many as it may.
   */
  ghost predicate TriesLatest(known: map<int, ChatDb>, order: seq<int>, maxChats: nat, tried: seq<int>, whole: bool) {
    var behind := AllBehind(known, order);
    && Distinct(tried) && (set c | c in tried) <= behind
    && (whole ==> |tried| == if |behind| <= maxChats then |behind| else maxChats)
    && (forall c, e | c in tried && e in behind && e !in tried :: NotLater(known, e, c))
  }

  /**
   What a pass returns: the chats left out and those that ended by an error, at least one
   with a failed list; None exactly if the session was lost. Where it meets nothing and
   leaves nothing out, it ends them all.
   */
  ghost predicate CountsLeft(known: map<int, ChatDb>, order: seq<int>, maxChats: nat, listed: bool,
                             outcome: map<int, Outcome>, tried: seq<int>, ended: set<int>, backlog: Option<nat>)
    requires forall c | c in tried || c in order :: c in outcome
  {
    var behind := AllBehind(known, order);
    var errors := |Errors(tried, ended, outcome)|;
    && (backlog.None? <==> exists c :: c in tried && c !in ended && outcome[c].Unavailable?)
    && (backlog.Some? ==> backlog.value == if !listed && |behind| == |tried| && errors == 0 then 1
                                           else |behind| - |tried| + errors)
    && (listed && |behind| <= maxChats && (forall c | c in behind :: outcome[c].Fine? && CanContinue(known, c)) ==>
          backlog == Some(0) && behind <= ended)
  }

  lemma PassIs(server: map<int, History>, known: map<int, ChatDb>, db: map<int, ChatDb>, order: seq<int>, maxChats: nat,
               seed: nat, outcome: map<int, Outcome>, from: nat, upTo: nat, candidates: seq<int>, n: nat, ended: set<int>,
               whole: bool)
    requires Distinct(order) && Distinct(candidates) && n <= Min(|candidates|, maxChats)
    requires whole ==> n == Min(|candidates|, maxChats)
    requires candidates == Filter(Sort(order, Freshness(known)), GapOf(known))
    requires forall c :: c in candidates <==> c in order && c in known && HasGap(known[c])
    requires RanEach(server, known, db, seed, outcome, from, upTo, candidates[..n], ended)
    ensures var behind, tried := AllBehind(known, order), candidates[..n];
            && (forall c :: c in candidates <==> c in behind) && |candidates| == |behind|
            && TriesLatest(known, order, maxChats, tried, whole)
            && (n == |candidates| ==> (set c | c in tried) == behind)
  {
    hide RanEach, AllBehind, NotLater, HasGap, Sort, Filter, Freshness, Distinct;
    var behind, tried := AllBehind(known, order), candidates[..n];
    CandidatesAre(known, order, candidates, n);
    TakeDistinct(candidates, n);
    assert tried == Take(candidates, n);
    forall c
      ensures c in candidates <==> c in behind
    {
      assert c in candidates <==> c in set x | x in candidates;
    }
    assert n == |candidates| ==> tried == candidates;
  }

  lemma PassCounts(server: map<int, History>, known: map<int, ChatDb>, db: map<int, ChatDb>, order: seq<int>,
                   maxChats: nat, listed: bool, seed: nat, outcome: map<int, Outcome>, from: nat, upTo: nat,
                   tried: seq<int>, ended: set<int>, failed: Option<nat>, backlog: Option<nat>)
    requires TriesLatest(known, order, maxChats, tried, failed.Some?)
    requires RanEach(server, known, db, seed, outcome, from, upTo, tried, ended)
    requires forall c | c in tried || c in order :: c in outcome
    requires |tried| == |AllBehind(known, order)| ==> (set c | c in tried) == AllBehind(known, order)
    requires failed.None? <==> exists c :: c in tried && c !in ended && outcome[c].Unavailable?
    requires failed.Some? ==> failed.value == |Errors(tried, ended, outcome)|
    requires backlog.Some? == failed.Some?
    requires failed.Some? ==>
               backlog.value == Max(|AllBehind(known, order)| - |tried| + failed.value, if listed then 0 else 1)
    ensures CountsLeft(known, order, maxChats, listed, outcome, tried, ended, backlog)
  {
    hide RanEach, Errors, Behind, NotLater, Distinct;
    var behind := AllBehind(known, order);
    if |behind| <= maxChats && forall c | c in behind :: outcome[c].Fine? && CanContinue(known, c) {
      assert forall c | c in tried :: c in set x | x in tried;
      AllFine(server, known, db, seed, outcome, from, upTo, tried, ended);
    }
  }

  lemma TriedKnown(server: map<int, History>, was: map<int, ChatDb>, db: map<int, ChatDb>, seed: nat,
                   outcome: map<int, Outcome>, from: nat, upTo: nat, tried: seq<int>, ended: set<int>)
    requires RanEach(server, was, db, seed, outcome, from, upTo, tried, ended)
    ensures db.Keys == was.Keys && from <= upTo && ended <= (set c | c in tried)
    ensures forall c | c in tried :: c in db && c in server && c in outcome
  {
  }

  /** A chat that a pass marks has no gap left: its fill got to its end, or it had none. */
  lemma FilledWhereMarked(server: map<int, History>, was: map<int, ChatDb>, listing: map<int, Option<Msg>>,
                          db: map<int, ChatDb>, seed: nat, outcome: map<int, Outcome>, from: nat, upTo: nat,
                          tried: seq<int>, ended: set<int>, c: int)
    requires RanEach(server, Listed(was, listing), db, seed, outcome, from, upTo, tried, ended)
    requires c in was && c in listing && c in server && c in outcome
    requires if c in tried then c in ended && HasGap(Listed(was, listing)[c]) else !HasGap(Listed(was, listing)[c])
    ensures GapFilled(server[c], from, upTo, was[c], db[c], listing[c])
  {
    hide Ran, GapFilled, HasGap, ListTail;
    PassFills(server[c], from, from, upTo, was[c], Listed(was, listing)[c], db[c], seed, outcome[c], listing[c]);
  }

  /** No chat is marked by the pass that still has its gap. */
  ghost predicate SafelyMarked(server: map<int, History>, was: map<int, ChatDb>, db: map<int, ChatDb>,
                               wasCaughtUp: set<int>, caughtUp: set<int>, listing: Option<map<int, Option<Msg>>>,
                               order: seq<int>, from: nat, upTo: nat)
  {
    forall c | c in caughtUp && c !in wasCaughtUp && c in was ::
      && c in order && c in db && c in server
      && (listing.None? ==> HasGap(was[c]))
      && (listing.Some? && c in listing.value ==>
            GapFilled(server[c], from, upTo, was[c], db[c], listing.value[c]))
  }

  /** Every chat of the list is marked and without a gap, but those denied. */
  ghost predicate NothingLeft(server: map<int, History>, was: map<int, ChatDb>, db: map<int, ChatDb>, caughtUp: set<int>,
                              denied: set<int>, listing: map<int, Option<Msg>>, order: seq<int>, from: nat, upTo: nat)
  {
    forall c | c in order && c !in denied ::
      && c in caughtUp && c in db && c in server
      && (c in was && c in listing ==> GapFilled(server[c], from, upTo, was[c], db[c], listing[c]))
  }

  lemma PassMarks(server: map<int, History>, was: map<int, ChatDb>, db: map<int, ChatDb>, wasCaughtUp: set<int>,
                  caughtUp: set<int>, listing: Option<map<int, Option<Msg>>>, order: seq<int>, seed: nat,
                  outcome: map<int, Outcome>, from: nat, upTo: nat, tried: seq<int>, ended: set<int>)
    requires forall c | c in order :: c in server && c in outcome && c in Known(was, listing)
    requires RanEach(server, Known(was, listing), db, seed, outcome, from, upTo, tried, ended)
    requires (set c | c in tried) <= AllBehind(Known(was, listing), order)
    requires caughtUp == wasCaughtUp + ended + (if listing.Some? then
                                                  set c | c in order && c !in AllBehind(Known(was, listing), order)
                                                else {})
    ensures SafelyMarked(server, was, db, wasCaughtUp, caughtUp, listing, order, from, upTo)
    ensures listing.Some? ==>
              forall c | (c in ended || (c in order && c !in AllBehind(Known(was, listing), order)))
                         && c in was && c in listing.value ::
                c in server && c in db && GapFilled(server[c], from, upTo, was[c], db[c], listing.value[c])
  {
    hide RanEach, GapFilled, HasGap, Behind, Listed;
    TriedKnown(server, Known(was, listing), db, seed, outcome, from, upTo, tried, ended);
    forall c | c in ended
      ensures c in tried && c in order && c in Known(was, listing) && HasGap(Known(was, listing)[c])
    {
      assert c in set x | x in tried;
      GapIsBehind(Known(was, listing)[c]);
    }
    if listing.Some? {
      forall c | (c in ended || (c in order && c !in AllBehind(Known(was, listing), order)))
                 && c in was && c in listing.value
        ensures c in server && c in db && GapFilled(server[c], from, upTo, was[c], db[c], listing.value[c])
      {
        assert c in tried ==> c in set x | x in tried;
        GapIsBehind(Known(was, listing)[c]);
        FilledWhereMarked(server, was, listing.value, db, seed, outcome, from, upTo, tried, ended, c);
      }
    }
  }

  lemma PassLeavesNone(server: map<int, History>, was: map<int, ChatDb>, db: map<int, ChatDb>, wasCaughtUp: set<int>,
                       caughtUp: set<int>, denied: set<int>, listing: map<int, Option<Msg>>, order: seq<int>, from: nat,
                       upTo: nat, tried: seq<int>, ended: set<int>, outcome: map<int, Outcome>)
    requires forall c | c in order :: c in server && c in outcome && c in db
    requires forall c | c in tried :: c in outcome
    requires AllBehind(Listed(was, listing), order) == (set c | c in tried) && Errors(tried, ended, outcome) == {}
    requires caughtUp == wasCaughtUp + ended + (set c | c in order && c !in AllBehind(Listed(was, listing), order))
    requires DeniedOf(tried, ended, outcome) <= denied
    requires forall c | (c in ended || (c in order && c !in AllBehind(Listed(was, listing), order)))
                        && c in was && c in listing ::
               c in server && c in db && GapFilled(server[c], from, upTo, was[c], db[c], listing[c])
    ensures NothingLeft(server, was, db, caughtUp, denied, listing, order, from, upTo)
  {
    hide GapFilled, AllBehind, Errors, DeniedOf, Listed;
    NoErrors(tried, ended, outcome);
    forall c | c in order && c !in denied
      ensures c in caughtUp && (c in was && c in listing ==> GapFilled(server[c], from, upTo, was[c], db[c], listing[c]))
    {
      assert c in AllBehind(Listed(was, listing), order) ==> c in tried;
    }
  }

  /** All that a pass promises, from what its parts have left. */
  lemma PassComesTo(server: map<int, History>, was: map<int, ChatDb>, db: map<int, ChatDb>, wasCaughtUp: set<int>,
                    caughtUp: set<int>, wasDenied: set<int>, denied: set<int>, listing: Option<map<int, Option<Msg>>>,
                    order: seq<int>, maxChats: nat, seed: nat, outcome: map<int, Outcome>, from: nat, start: nat,
                    upTo: nat, candidates: seq<int>, noTail: seq<int>, n: nat, ended: set<int>, failed: Option<nat>,
                    backlog: Option<nat>)
    requires Distinct(order) && Distinct(candidates) && n <= Min(|candidates|, maxChats) && from <= start
    requires forall c | c in order :: c in server && c in outcome && c in Known(was, listing)
    requires candidates == Filter(Sort(order, Freshness(Known(was, listing))), GapOf(Known(was, listing)))
    requires forall c :: c in candidates <==> c in order && c in Known(was, listing) && HasGap(Known(was, listing)[c])
    requires forall c :: c in noTail <==> c in order && c !in candidates
    requires RanEach(server, Known(was, listing), db, seed, outcome, start, upTo, candidates[..n], ended)
    requires caughtUp == (if listing.Some? then wasCaughtUp + set c | c in noTail else wasCaughtUp) + ended
    requires denied == wasDenied + DeniedOf(candidates[..n], ended, outcome)
    requires failed.None? <==> exists c :: c in candidates[..n] && c !in ended && outcome[c].Unavailable?
    requires failed.Some? ==> n == Min(|candidates|, maxChats) && failed.value == |Errors(candidates[..n], ended, outcome)|
    requires backlog == if failed.None? then None
                        else Some(Max(|candidates| - n + failed.value, if listing.Some? then 0 else 1))
    ensures var known, tried := Known(was, listing), candidates[..n];
            && (forall c | c in tried :: c in outcome)
            && start <= upTo && RanEach(server, known, db, seed, outcome, from, upTo, tried, ended)
            && TriesLatest(known, order, maxChats, tried, backlog.Some?)
            && CountsLeft(known, order, maxChats, listing.Some?, outcome, tried, ended, backlog)
            && caughtUp == wasCaughtUp + ended
                           + (if listing.Some? then set c | c in order && c !in AllBehind(known, order) else {})
            && SafelyMarked(server, was, db, wasCaughtUp, caughtUp, listing, order, from, upTo)
            && (backlog == Some(0) ==>
                  && listing.Some?
                  && NothingLeft(server, was, db, caughtUp, denied, listing.value, order, from, upTo))
  {
    hide RanEach, Distinct, Filter, Sort, Freshness, GapOf, HasGap, Errors, DeniedOf, AllBehind, CountsLeft, NotLater,
         Listed, SafelyMarked, NothingLeft;
    var known, tried := Known(was, listing), candidates[..n];
    TriedKnown(server, known, db, seed, outcome, start, upTo, tried, ended);
    RanEachWithin(server, known, db, seed, outcome, start, upTo, tried, ended, from);
    PassIs(server, known, db, order, maxChats, seed, outcome, from, upTo, candidates, n, ended, failed.Some?);
    TriedKnown(server, known, db, seed, outcome, from, upTo, tried, ended);
    PassCounts(server, known, db, order, maxChats, listing.Some?, seed, outcome, from, upTo, tried, ended, failed, backlog);
    SameChats(noTail, order, AllBehind(known, order));
    PassMarks(server, was, db, wasCaughtUp, caughtUp, listing, order, seed, outcome, from, upTo, tried, ended);
    if backlog == Some(0) {
      PassLeavesNone(server, was, db, wasCaughtUp, caughtUp, denied, listing.value, order, from, upTo, tried, ended,
                     outcome);
    }
  }

  lemma NoneMarked(caughtUp: set<int>, denied: set<int>, outcome: map<int, Outcome>)
    ensures Marked(caughtUp, denied, caughtUp, denied, 0, [], {}, outcome)
  {
    NoneTried(outcome);
  }

  lemma FirstOnes(s: seq<int>, n: nat)
    requires Distinct(s)
    ensures Min(|s|, n) <= |s| && Distinct(Take(s, n)) && Take(s, n) == s[..Min(|s|, n)]
    ensures forall a: int :: Max(a, 1) == if a >= 1 then a else 1
    ensures forall a: nat :: Max(a, 0) == a
  {
    TakeDistinct(s, n);
  }

  lemma KnowsAll(db: map<int, ChatDb>, listing: Option<map<int, Option<Msg>>>, order: seq<int>)
    requires forall c | c in order :: c in db || (listing.Some? && c in listing.value)
    ensures forall c | c in order :: c in Known(db, listing)
    ensures forall c | c in db :: c in Known(db, listing)
    ensures Known(db, listing) == if listing.Some? then Listed(db, listing.value) else db
  {
  }

  lemma SameChats(noTail: seq<int>, order: seq<int>, behind: set<int>)
    requires forall c :: c in noTail <==> c in order && c !in behind
    ensures (set c | c in noTail) == set c | c in order && c !in behind
  {
    var a, b := set c | c in noTail, set c | c in order && c !in behind;
    forall c
      ensures c in a <==> c in b
    {
      assert c in a <==> c in noTail;
      assert c in b <==> c in order && c !in behind;
    }
    assert a == b;
  }

  lemma NoErrors(tried: seq<int>, ended: set<int>, outcome: map<int, Outcome>)
    requires forall c | c in tried :: c in outcome
    requires Errors(tried, ended, outcome) == {}
    ensures forall c | c in tried :: c in ended || c in DeniedOf(tried, ended, outcome)
  {
    forall c | c in tried
      ensures c in ended || c in DeniedOf(tried, ended, outcome)
    {
      assert c !in Errors(tried, ended, outcome);
    }
  }

  lemma NextOne(todo: seq<int>, n: nat)
    requires Distinct(todo) && n < |todo|
    ensures todo[n] !in todo[..n] && todo[..n + 1] == todo[..n] + [todo[n]]
  {
  }

  lemma NoneTried(outcome: map<int, Outcome>)
    ensures Errors([], {}, outcome) == {} && DeniedOf([], {}, outcome) == {}
  {
  }

  /**
   What a pass has done so far: each chat tried is as its own catch-up left it, and no other
   has changed. The chats in ended are those whose fill got to its end.
   */
  ghost predicate RanEach(server: map<int, History>, was: map<int, ChatDb>, db: map<int, ChatDb>, seed: nat,
                          outcome: map<int, Outcome>, from: nat, upTo: nat, tried: seq<int>, ended: set<int>)
  {
    && db.Keys == was.Keys && from <= upTo && ended <= (set c | c in tried)
    && (forall c | c in db && c !in tried :: db[c] == was[c])
    && (forall c | c in tried :: c in db && c in server && c in outcome
                                 && Ran(server[c], was[c], db[c], seed, outcome[c], from, upTo, c in ended))
  }

  lemma RanEachMore(server: map<int, History>, was: map<int, ChatDb>, db: map<int, ChatDb>, later: map<int, ChatDb>,
                    seed: nat, outcome: map<int, Outcome>, from: nat, mid: nat, upTo: nat, tried: seq<int>,
                    ended: set<int>, chat: int, done: bool)
    requires RanEach(server, was, db, seed, outcome, from, mid, tried, ended)
    requires chat !in tried && chat in db && chat in server && chat in outcome && mid <= upTo
    requires chat in later && later == db[chat := later[chat]]
    requires Ran(server[chat], db[chat], later[chat], seed, outcome[chat], mid, upTo, done)
    ensures RanEach(server, was, later, seed, outcome, from, upTo, tried + [chat],
                    if done then ended + {chat} else ended)
  {
    hide Ran;
    RanWithin(server[chat], db[chat], later[chat], seed, outcome[chat], done, mid, upTo, from, upTo);
    forall c | c in tried
      ensures Ran(server[c], was[c], later[c], seed, outcome[c], from, upTo, c in ended)
    {
      RanWithin(server[c], was[c], db[c], seed, outcome[c], c in ended, from, mid, from, upTo);
    }
  }

  lemma RanEachWithin(server: map<int, History>, was: map<int, ChatDb>, db: map<int, ChatDb>, seed: nat,
                      outcome: map<int, Outcome>, from: nat, upTo: nat, tried: seq<int>, ended: set<int>, start: nat)
    requires RanEach(server, was, db, seed, outcome, from, upTo, tried, ended) && start <= from
    ensures RanEach(server, was, db, seed, outcome, start, upTo, tried, ended)
  {
    hide Ran;
    forall c | c in tried
      ensures Ran(server[c], was[c], db[c], seed, outcome[c], start, upTo, c in ended)
    {
      RanWithin(server[c], was[c], db[c], seed, outcome[c], c in ended, from, upTo, start, upTo);
    }
  }

  /** A pass that meets nothing ends each of its fills, unless a row has no newest message. */
  lemma AllFine(server: map<int, History>, was: map<int, ChatDb>, db: map<int, ChatDb>, seed: nat,
                outcome: map<int, Outcome>, from: nat, upTo: nat, tried: seq<int>, ended: set<int>)
    requires RanEach(server, was, db, seed, outcome, from, upTo, tried, ended)
    requires forall c | c in tried :: outcome[c].Fine? && (was[c].row.Some? ==> was[c].row.value.newest.Some?)
    ensures ended == (set c | c in tried) && Errors(tried, ended, outcome) == {}
  {
    hide Ran;
    forall c | c in tried
      ensures c in ended
    {
      FineEnds(server[c], was[c], db[c], seed, from, upTo, c in ended);
    }
  }

  // ---------------------------------------------------------------------------
  // The tables and the loops over them
  // ---------------------------------------------------------------------------

  class Sync {
    const server: map<int, History>
    var now: nat
    var db: map<int, ChatDb>
    var caughtUp: set<int>
    var denied: set<int>

    constructor (server: map<int, History>, db: map<int, ChatDb>)
      ensures this.server == server && this.db == db && caughtUp == {} && denied == {}
    {
      this.server, now, this.db, caughtUp, denied := server, 0, db, {}, {};
    }

    method Store(m: Msg, chat: int)
      requires chat in db
      modifies this`db
      ensures db == old(db)[chat := StoreMessage(old(db[chat]), m, true)]
    {
      db := db[chat := StoreMessage(db[chat], m, true)];
    }

    method StorePage(page: seq<Msg>, chat: int)
      requires chat in db
      modifies this`db
      ensures db == old(db)[chat := StoreAll(old(db[chat]), page)]
    {
      for n := 0 to |page|
        invariant chat in db && db == old(db)[chat := db[chat]]
        invariant StoreAll(old(db[chat]), page) == StoreAll(db[chat], page[n..])
      {
        Store(page[n], chat);
      }
    }

    method MoveOldestTo(m: Msg, chat: int)
      requires chat in db
      modifies this`db
      ensures db == old(db)[chat := old(db[chat]).(row := MoveOldest(old(db[chat].row), m))]
    {
      db := db[chat := db[chat].(row := MoveOldest(db[chat].row, m))];
    }

    /** A backward page, newest first; then the oldest cursor moves to its last message. */
    method StoreDown(page: seq<Msg>, chat: int)
      requires chat in db && page != []
      modifies this`db
      ensures var d := StoreAll(old(db[chat]), page);
              db == old(db)[chat := d.(row := MoveOldest(d.row, page[|page| - 1]))]
    {
      StorePage(page, chat);
      MoveOldestTo(page[|page| - 1], chat);
    }

    method Finish(chat: int, full: Option<bool>)
      requires chat in db
      modifies this`db
      ensures db == old(db)[chat := old(db[chat]).(row := FinishBackfill(old(db[chat].row), full))]
    {
      db := db[chat := db[chat].(row := FinishBackfill(db[chat].row, full))];
    }

    /**
     From the newest cursor forward. It may be cut short; what is stored by then stays.
     GrowingHistory.FillExact says what this comes to.
     */
    method Forward(chat: int, limit: nat, fails: Option<nat>) returns (stored: nat, done: bool)
      requires chat in db && chat in server
      requires db[chat].row.Some? && db[chat].row.value.newest.Some?
      modifies this`db, this`now
      ensures var run := FillOver(server[chat], old(now), old(db[chat]),
                                  StartForward(old(db[chat].row.value.newest.value), limit), fails);
              && db == old(db)[chat := run.db] && now == run.now
              && done == run.done && stored + run.left == limit
    {
      hide FetchForward, FillOver, HistoryForward, Newer, Sort, Latest, IdsAt, StoreMessage;
      var logs := server[chat];
      var newest := db[chat].row.value.newest.value;
      ghost var goal := FillOver(logs, now, db[chat], StartForward(newest, limit), fails);
      var cursor, seenAtCursor, steps := newest.time, {newest.id}, fails;
      var ended := false;
      stored := 0;
      while stored < limit
        invariant stored <= limit && chat in db && db == old(db)[chat := db[chat]] && !ended
        invariant goal == FillOver(logs, now, db[chat], Fill(cursor, seenAtCursor, limit - stored, [], false), steps)
      {
        ghost var f := Fill(cursor, seenAtCursor, limit - stored, [], false);
        FillUnfolds(logs, now, db[chat], f, steps);
        FetchUnfolds(logs(now), f);
        if steps == Some(0) {
          return stored, false;
        }
        var page := HistoryForward(logs(now), cursor, PageSize(limit - stored, true));
        now, steps := now + 1, Less(steps);
        var newer := Newer(page, cursor, seenAtCursor);
        if newer == [] {
          ended := true;
          break;
        }
        var batch := Take(Sort(newer, TimeOf), limit - stored);
        var newestTime := Latest(newer);
        seenAtCursor := IdsAt(newer, newestTime);
        cursor := newestTime;
        SortKeeps(newer, TimeOf);
        ghost var before := stored;
        for n := 0 to |batch|
          invariant stored == before + n && |batch| - n <= limit - stored && chat in db && db == old(db)[chat := db[chat]]
          invariant goal == FillOver(logs, now, db[chat], Fill(cursor, seenAtCursor, limit - stored, batch[n..], false),
                                     steps)
        {
          FillUnfolds(logs, now, db[chat], Fill(cursor, seenAtCursor, limit - stored, batch[n..], false), steps);
          if steps == Some(0) {
            return stored, false;
          }
          Store(batch[n], chat);
          stored, steps := stored + 1, Less(steps);
        }
      }
      FillUnfolds(logs, now, db[chat], Fill(cursor, seenAtCursor, limit - stored, [], ended), steps);
      if steps == Some(0) {
        return stored, false;
      }
      Finish(chat, None);
      done := true;
    }

    /** From the oldest cursor (or from now) backward, not past the `days` boundary stop. */
    method Backward(chat: int, limit: nat, stop: Option<int>) returns (stored: nat)
      requires chat in db && chat in server
      modifies this`db
      ensures db == old(db)[chat := BackwardRun(server[chat](now), old(db[chat]),
                                                StartBackward(old(db[chat].row), stop, limit))]
      ensures CountDone(server[chat](now), old(db[chat].row), stop, limit, stored)
    {
      hide FetchBackward, BackwardRun, HistoryBackward, Filter, Sort, StoreAll, Counted, CountDone, Take, MoveOldest,
           FinishBackfill;
      var log := server[chat](now);
      var row := db[chat].row;
      ghost var goal := BackwardRun(log, db[chat], StartBackward(row, stop, limit));
      var cursor: Option<int> :=
        if row.Some? && row.value.oldest.Some? then Some(row.value.oldest.value.time) else None;
      stored := 0;
      var fullySynced := false;
      ghost var done := limit == 0;
      CountStart(log, row, stop, limit);
      StartTurning(row, stop, limit);
      while stored < limit
        invariant stored <= limit && chat in db && db == old(db)[chat := db[chat]]
        invariant !fullySynced && done == (stored == limit)
        invariant Counted(log, row, stop, limit, cursor, stored)
        invariant done ==> CountDone(log, row, stop, limit, stored)
        invariant goal == BackwardRun(log, db[chat], Turning(cursor, stop, limit - stored, done))
      {
        Turn(log, db[chat], row, stop, limit, cursor, stored);
        var page := HistoryBackward(log, cursor, PageSize(limit - stored, cursor.Some?));
        var older := Filter(page, IsOlder(cursor));
        if older == [] {
          fullySynced := true;
          break;
        }
        var inRange := Take(Sort(Filter(older, IsSince(stop)), NegTime), limit - stored);
        if inRange == [] {
          break;
        }
        StoreDown(inRange, chat);
        stored := stored + |inRange|;
        cursor := Some(inRange[|inRange| - 1].time);
        done := |inRange| < |older| || stored == limit;
        if |inRange| < |older| {
          break;
        }
      }
      if done {
        TurningEnds(log, db[chat], cursor, stop, limit - stored);
      }
      Finish(chat, Some(fullySynced));
    }

    /** The first fill: the page is stored as it came, then the oldest cursor moves. */
    method SeedChat(chat: int, seed: nat, fails: Option<nat>) returns (done: bool)
      requires chat in db && chat in server
      modifies this`db, this`now
      ensures var run := SeedRun(server[chat], old(now), old(db[chat]), seed, fails);
              db == old(db)[chat := run.db] && now == run.now && done == run.done
    {
      hide HistoryBackward, StoreMessage, Earliest;
      ghost var goal := SeedRun(server[chat], now, db[chat], seed, fails);
      if fails == Some(0) {
        return false;
      }
      var page := HistoryBackward(server[chat](now), None, seed);
      ghost var low := if page == [] then None else Some(Earliest(page));
      now := now + 1;
      var steps := Less(fails);
      for n := 0 to |page|
        invariant chat in db && db == old(db)[chat := db[chat]] && goal == SeedOver(now, db[chat], page[n..], low, steps)
      {
        if steps == Some(0) {
          return false;
        }
        assert page[n..][1..] == page[n + 1..];
        Store(page[n], chat);
        steps := Less(steps);
      }
      if steps == Some(0) {
        return false;
      }
      if page != [] {
        MoveOldestTo(Earliest(page), chat);
      }
      done := true;
    }

    /** The catch-up of one chat, and whether it got to its end. */
    method FillChat(chat: int, seed: nat, fails: Option<nat>) returns (done: bool)
      requires chat in db && chat in server
      modifies this`db, this`now
      ensures var run := ChatRun(server[chat], old(now), old(db[chat]), seed, fails);
              db == old(db)[chat := run.db] && now == run.now && done == run.done
    {
      hide SeedRun, FillOver;
      if db[chat].row.None? {
        done := SeedChat(chat, seed, fails);
      } else if db[chat].row.value.newest.None? {
        done := false;
      } else {
        var stored;
        stored, done := Forward(chat, CATCHUP_LIMIT, fails);
      }
    }

    /** The chats with a tail, freshest first, and the chats without one. */
    method Candidates(order: seq<int>) returns (candidates: seq<int>, noTail: seq<int>)
      requires Distinct(order)
      ensures Distinct(candidates) && SortedBy(Sort(order, Freshness(db)), Freshness(db))
      ensures candidates == Filter(Sort(order, Freshness(db)), GapOf(db))
      ensures forall c :: c in candidates <==> c in order && c in db && HasGap(db[c])
      ensures forall c :: c in noTail <==> c in order && c !in candidates
    {
      hide Sort, Filter, Distinct, SortedBy;
      var rows := Sort(order, Freshness(db));
      SortKeeps(order, Freshness(db));
      SameElements(rows, order);
      SortDistinct(order, Freshness(db));
      SortSorted(order, Freshness(db));
      candidates := Filter(rows, GapOf(db));
      noTail := Filter(rows, Not(GapOf(db)));
      FilterIn(rows, GapOf(db));
      FilterIn(rows, Not(GapOf(db)));
      FilterDistinct(rows, GapOf(db));
    }

    /** One chat of the pass: caught up if its fill gets to its end, denied if that is what stopped it. */
    method TryChat(chat: int, seed: nat, outcome: Outcome) returns (done: bool)
      requires chat in db && chat in server
      modifies this
      ensures chat in db && db == old(db)[chat := db[chat]] && old(now) <= now
      ensures Ran(server[chat], old(db[chat]), db[chat], seed, outcome, old(now), now, done)
      ensures caughtUp == if done then old(caughtUp) + {chat} else old(caughtUp)
      ensures denied == if !done && outcome.Denied? then old(denied) + {chat} else old(denied)
    {
      hide ChatRun, Ran;
      RunIs(server[chat], now, db[chat], seed, outcome);
      done := FillChat(chat, seed, FailsAfter(outcome));
      if done {
        caughtUp := caughtUp + {chat};
      } else if outcome.Denied? {
        denied := denied + {chat};
      }
    }

    /**
     The chats of the pass one after the other; None when the session was lost on the way.
     Each chat is as its run left it, also where that failed, and is marked caught up
     exactly if its run got to its end.
     */
    method FillChats(todo: seq<int>, seed: nat, outcome: map<int, Outcome>)
      returns (failed: Option<nat>, ghost tried: nat, ghost ended: set<int>)
      requires Distinct(todo)
      requires forall c | c in todo :: c in db && c in server && c in outcome
      modifies this
      ensures tried <= |todo| && (failed.Some? ==> tried == |todo|)
      ensures RanEach(server, old(db), db, seed, outcome, old(now), now, todo[..tried], ended)
      ensures caughtUp == old(caughtUp) + ended && denied == old(denied) + DeniedOf(todo[..tried], ended, outcome)
      ensures failed.Some? ==> failed.value == |Errors(todo, ended, outcome)|
      ensures failed.None? <==> exists c :: c in todo[..tried] && c !in ended && outcome[c].Unavailable?
    {
      hide *;
      var count := 0;
      tried, ended := 0, {};
      NoneMarked(caughtUp, denied, outcome);
      NoneRan(server, db, seed, outcome, now);
      for n := 0 to |todo|
        invariant tried == n && db.Keys == old(db).Keys
        invariant RanEach(server, old(db), db, seed, outcome, old(now), now, todo[..n], ended)
        invariant Marked(old(caughtUp), old(denied), caughtUp, denied, count, todo[..n], ended, outcome)
        invariant forall c | c in todo[..n] && c !in ended :: !outcome[c].Unavailable?
      {
        var chat := todo[n];
        NextOne(todo, n);
        ghost var was := (now, db, caughtUp, denied);
        var done := TryChat(chat, seed, outcome[chat]);
        RanEachMore(server, old(db), was.1, db, seed, outcome, old(now), was.0, now, todo[..n], ended, chat, done);
        MarkedMore(old(caughtUp), old(denied), was.2, was.3, count, todo[..n], ended, outcome, chat, done);
        tried, ended := n + 1, if done then ended + {chat} else ended;
        if !done && outcome[chat].Unavailable? {
          MarkedMeans(old(caughtUp), old(denied), caughtUp, denied, count + 1, todo[..tried], ended, outcome);
          assert chat in todo[..tried] && chat !in ended;
          return None, tried, ended;
        }
        count := count + if done || outcome[chat].Denied? then 0 else 1;
      }
      assert todo[..|todo|] == todo;
      MarkedMeans(old(caughtUp), old(denied), caughtUp, denied, count, todo, ended, outcome);
      failed := Some(count);
    }

    /**
     One catch-up pass: refresh the chat list, mark the chats without a tail (only when the
     list is fresh), fill at most maxChats of the others, freshest first. Returns the
     backlog, or None when the session was lost on the way. However the pass ends, it has
     marked no chat caught up whose gap is not filled.
     */
    method CatchUp(listing: Option<map<int, Option<Msg>>>, order: seq<int>, maxChats: nat, seed: nat,
                   outcome: map<int, Outcome>)
      returns (backlog: Option<nat>, ghost tried: seq<int>, ghost ended: set<int>)
      requires forall c | c in order :: c in server && c in outcome
      requires forall c | c in order :: c in db || (listing.Some? && c in listing.value)
      requires Distinct(order)
      modifies this
      ensures old(now) < now && forall c | c in tried :: c in outcome
      ensures RanEach(server, Known(old(db), listing), db, seed, outcome, old(now), now, tried, ended)
      ensures TriesLatest(Known(old(db), listing), order, maxChats, tried, backlog.Some?)
      ensures CountsLeft(Known(old(db), listing), order, maxChats, listing.Some?, outcome, tried, ended, backlog)
      ensures caughtUp == old(caughtUp) + ended
                          + if listing.Some? then set c | c in order && c !in AllBehind(Known(old(db), listing), order)
                            else {}
      ensures denied == old(denied) + DeniedOf(tried, ended, outcome)
      ensures SafelyMarked(server, old(db), db, old(caughtUp), caughtUp, listing, order, old(now), now)
      ensures backlog == Some(0) ==>
                && listing.Some?
                && NothingLeft(server, old(db), db, caughtUp, denied, listing.value, order, old(now), now)
    {
      hide *;
      now := now + 1;
      if listing.Some? {
        db := Listed(db, listing.value);
      }
      KnowsAll(old(db), listing, order);
      ghost var known := Known(old(db), listing);
      var candidates, noTail := Candidates(order);
      if listing.Some? {
        caughtUp := caughtUp + set c | c in noTail;
      }
      var todo := Take(candidates, maxChats);
      FirstOnes(candidates, maxChats);
      ghost var start, n := now, 0;
      var failed;
      failed, n, ended := FillChats(todo, seed, outcome);
      tried := candidates[..n];
      assert todo[..n] == tried && todo[..|todo|] == todo;
      var left := 0;
      if failed.Some? {
        left := |candidates| - |todo| + failed.value;
        if listing.None? {
          left := Max(left, 1);
        }
        backlog := Some(left);
      } else {
        backlog := None;
      }
      PassComesTo(server, old(db), db, old(caughtUp), caughtUp, old(denied), denied, listing, order, maxChats, seed,
                  outcome, old(now), start, now, candidates, noTail, n, ended, failed, backlog);
    }
  }
}
