/**
 The backward loop on histories where several messages may have one time: it keeps the cursor
 promise exactly when no page of it cuts a group of equal times.
 */
module TiedBackward {
  import opened Wrappers
  import opened Seqs
  import opened MaxHistory
  import opened MaxBackward

  /** Times never fall along the log, and ids are distinct. */
  ghost predicate ByTime(log: seq<Msg>) {
    forall i, j {:trigger Follows(log, i, j)} | 0 <= i < j < |log| :: Follows(log, i, j)
  }

  ghost predicate Follows(log: seq<Msg>, i: nat, j: nat)
    requires i < |log| && j < |log|
  {
    log[i].time <= log[j].time && log[i].id != log[j].id
  }

  lemma TimeUp(log: seq<Msg>, i: nat, j: nat)
    requires ByTime(log) && i <= j < |log|
    ensures log[i].time <= log[j].time
  {
    if i < j {
      assert Follows(log, i, j);
    }
  }

  lemma IdsDiffer(log: seq<Msg>, i: nat, j: nat)
    requires ByTime(log) && i < j < |log|
    ensures log[i].id != log[j].id
  {
    assert Follows(log, i, j);
  }

  lemma SameId(log: seq<Msg>, i: nat, j: nat)
    requires ByTime(log) && i < |log| && j < |log| && log[i].id == log[j].id
    ensures i == j
  {
    if i < j {
      IdsDiffer(log, i, j);
    } else if j < i {
      IdsDiffer(log, j, i);
    }
  }

  lemma ByTimeSlice(log: seq<Msg>, a: nat, b: nat)
    requires ByTime(log) && a <= b <= |log|
    ensures ByTime(log[a..b])
  {
    forall i, j | 0 <= i < j < b - a
      ensures Follows(log[a..b], i, j)
    {
      assert Follows(log, a + i, a + j);
    }
  }

  /** A strictly ordered log is one of these. */
  lemma OrderedIsByTime(log: seq<Msg>)
    requires Ordered(log)
    ensures ByTime(log)
  {
    forall i, j | 0 <= i < j < |log|
      ensures Follows(log, i, j)
    {
      assert Precedes(log, i, j);
    }
  }

  lemma {:induction false} BelowCounts(log: seq<Msg>, t: int)
    requires ByTime(log)
    ensures forall i | 0 <= i < |log| :: log[i].time < t <==> i < Below(log, t)
  {
    if log != [] {
      var n := |log| - 1;
      forall i | 0 <= i < n
        ensures log[i].time <= log[n].time
      {
        TimeUp(log, i, n);
      }
      if t <= log[n].time {
        ByTimeSlice(log, 0, n);
        assert log[0..n] == log[..n];
        BelowCounts(log[..n], t);
        assert forall i | 0 <= i < n :: log[..n][i] == log[i];
      }
    }
  }

  // ---------------------------------------------------------------------------
  // One page
  // ---------------------------------------------------------------------------

  /** How many messages are older than the cursor. */
  function Older(log: seq<Msg>, pos: Option<int>): (u: nat)
    ensures u <= |log|
  {
    if pos.None? then |log| else Below(log, pos.value)
  }

  /** How many messages are not newer than the cursor. */
  function UpTo(log: seq<Msg>, pos: Option<int>): (k: nat)
    ensures k <= |log|
  {
    if pos.None? then |log| else Below(log, pos.value + 1)
  }

  /** Where the page begins. */
  function LowerEnd(log: seq<Msg>, b: Back): (a: nat)
    ensures a <= UpTo(log, b.pos)
  {
    Max(0, UpTo(log, b.pos) - PageSize(b.left, b.pos.Some?))
  }

  /** Between two pages, with the cursor at a message of the log. */
  ghost predicate Between(log: seq<Msg>, b: Back) {
    && b.rest == [] && b.low.None? && !b.cut
    && (b.pos.Some? ==> exists w :: 0 <= w < |log| && log[w].time == b.pos.value)
  }

  /**
   The page cuts a group of equal times: there is something older, and the page holds
   nothing but the cursor's own group, or begins inside a group that is within the boundary.
   */
  predicate PageCuts(log: seq<Msg>, b: Back) {
    var u, a := Older(log, b.pos), LowerEnd(log, b);
    u > 0 && (a >= u || (Cutoff(log, b.stop) < a && log[a - 1].time == log[a].time))
  }

  /**
   What a page must not lose: what is older than the cursor is in the page, or older than
   the page's oldest message, which the next page starts from; and the loop ends only when
   nothing is left.
   */
  ghost predicate PageKeeps(log: seq<Msg>, b: Back) {
    var g := FetchBackward(log, b);
    && (g.outcome == Some(true) ==> forall m | m in log :: !IsOlder(b.pos)(m))
    && (g.outcome == Some(false) ==> forall m | m in log && IsOlder(b.pos)(m) :: !IsSince(b.stop)(m))
    && (g.low.Some? ==> forall m | m in log && IsOlder(b.pos)(m) && g.low.value.time <= m.time :: m in g.rest)
  }

  lemma OlderIs(log: seq<Msg>, pos: Option<int>)
    requires ByTime(log)
    ensures forall i | 0 <= i < |log| :: IsOlder(pos)(log[i]) <==> i < Older(log, pos)
    ensures Older(log, pos) <= UpTo(log, pos)
    ensures pos.Some? ==> forall i | Older(log, pos) <= i < UpTo(log, pos) :: log[i].time == pos.value
    ensures pos.Some? && (exists w :: 0 <= w < |log| && log[w].time == pos.value) ==> Older(log, pos) < UpTo(log, pos)
  {
    if pos.Some? {
      BelowCounts(log, pos.value);
      BelowCounts(log, pos.value + 1);
      var u := Below(log, pos.value);
      if u > 0 {
        assert log[u - 1].time < pos.value + 1;
      }
    }
  }

  lemma SinceIs(log: seq<Msg>, stop: Option<int>)
    requires ByTime(log)
    ensures forall i | 0 <= i < |log| :: IsSince(stop)(log[i]) <==> i >= Cutoff(log, stop)
  {
    if stop.Some? {
      BelowCounts(log, stop.value);
    }
  }

  /** The older messages of the page. */
  lemma PageOlder(log: seq<Msg>, b: Back)
    requires ByTime(log) && Between(log, b) && b.left > 0
    ensures var low, u := Min(LowerEnd(log, b), Older(log, b.pos)), Older(log, b.pos);
            && u - low <= b.left
            && Filter(HistoryBackward(log, b.pos, PageSize(b.left, b.pos.Some?)), IsOlder(b.pos)) == log[low..u]
  {
    hide Filter, Below;
    OlderIs(log, b.pos);
    var u, k, a := Older(log, b.pos), UpTo(log, b.pos), LowerEnd(log, b);
    var older := log[Min(a, u)..u];
    assert HistoryBackward(log, b.pos, PageSize(b.left, b.pos.Some?)) == log[a..k];
    if a < u {
      assert log[a..k] == older + log[u..k];
      FilterConcat(older, log[u..k], IsOlder(b.pos));
      FilterNone(log[u..k], IsOlder(b.pos));
      FilterAll(older, IsOlder(b.pos));
      assert older + [] == older;
    } else {
      FilterNone(log[a..k], IsOlder(b.pos));
    }
  }

  /** The older messages of the page, and those of them within the boundary. */
  lemma PageSlices(log: seq<Msg>, b: Back)
    requires ByTime(log) && Between(log, b) && b.left > 0
    ensures var u, a := Older(log, b.pos), LowerEnd(log, b);
            var older := Filter(HistoryBackward(log, b.pos, PageSize(b.left, b.pos.Some?)), IsOlder(b.pos));
            && older == log[Min(a, u)..u] && u - Min(a, u) <= b.left
            && Filter(older, IsSince(b.stop)) == log[Min(u, Max(a, Cutoff(log, b.stop)))..u]
  {
    hide Filter, Below, HistoryBackward, Older, UpTo, LowerEnd, Cutoff;
    PageOlder(log, b);
    SinceIs(log, b.stop);
    var u, a, c := Older(log, b.pos), LowerEnd(log, b), Cutoff(log, b.stop);
    var low, e := Min(a, u), Min(u, Max(a, c));
    assert low <= e && log[low..u] == log[low..e] + log[e..u];
    FilterConcat(log[low..e], log[e..u], IsSince(b.stop));
    FilterNone(log[low..e], IsSince(b.stop));
    FilterAll(log[e..u], IsSince(b.stop));
    assert [] + log[e..u] == log[e..u];
  }

  /** Newest first: the last of the page has its smallest time. */
  lemma LastIsOldest(log: seq<Msg>, e: nat, u: nat)
    requires ByTime(log) && e < u <= |log|
    ensures var page := Sort(log[e..u], NegTime);
            && |page| == u - e && Messages(page) == Messages(log[e..u])
            && page[|page| - 1].time == log[e].time
            && forall m | m in page :: log[e].time <= m.time <= page[0].time
  {
    hide Sort;
    var run := log[e..u];
    var page := Sort(run, NegTime);
    SortKeeps(run, NegTime);
    SortSorted(run, NegTime);
    SameElements(page, run);
    forall m | m in run
      ensures log[e].time <= m.time
    {
      var i :| 0 <= i < |run| && run[i] == m;
      TimeUp(log, e, e + i);
    }
    forall m | m in page
      ensures page[|page| - 1].time <= m.time <= page[0].time
    {
      var i :| 0 <= i < |page| && page[i] == m;
      assert i < |page| - 1 ==> NegTime(page[i]) <= NegTime(page[|page| - 1]);
      assert 0 < i ==> NegTime(page[0]) <= NegTime(page[i]);
    }
    assert run[0] in page;
  }

  /** One page of a history by time. */
  lemma TiedPageSpec(log: seq<Msg>, b: Back)
    requires ByTime(log) && Between(log, b) && b.left > 0 && b.outcome.None?
    ensures var u, a, c, g := Older(log, b.pos), LowerEnd(log, b), Cutoff(log, b.stop), FetchBackward(log, b);
            var e := Max(a, c);
            && (a >= u ==> g == b.(outcome := Some(true)))
            && (a < u <= c ==> g == b.(outcome := Some(false)))
            && (a < u && c < u ==>
                  && g.outcome.None? && g.low.Some? && g == b.(rest := g.rest, low := g.low, cut := a < c)
                  && |g.rest| == u - e <= b.left && Messages(g.rest) == Messages(log[e..u])
                  && g.low.value in g.rest && g.low.value.time == log[e].time
                  && forall m | m in g.rest :: log[e].time <= m.time <= g.rest[0].time)
  {
    hide Filter, Sort, HistoryBackward, Below, Older, UpTo, Messages;
    var u, a, c := Older(log, b.pos), LowerEnd(log, b), Cutoff(log, b.stop);
    PageSlices(log, b);
    FetchBackUnfolds(log, b);
    if a < u && c < u {
      LastIsOldest(log, Max(a, c), u);
    } else {
      assert log[u..u] == [];
      assert Sort(log[u..u], NegTime) == [] by { SortNothing(); }
    }
  }

  lemma SortNothing()
    ensures Sort<Msg>([], NegTime) == []
  {
  }

  /** A page loses a message exactly when it cuts a group of equal times. */
  lemma PageKeepsIff(log: seq<Msg>, b: Back)
    requires ByTime(log) && Between(log, b) && b.left > 0 && b.outcome.None?
    ensures PageKeeps(log, b) <==> !PageCuts(log, b)
  {
    hide FetchBackward, Below, Older, UpTo, IsOlder, IsSince, Cutoff, LowerEnd;
    TiedPageSpec(log, b);
    OlderIs(log, b.pos);
    SinceIs(log, b.stop);
    var u, a, c, g := Older(log, b.pos), LowerEnd(log, b), Cutoff(log, b.stop), FetchBackward(log, b);
    if a >= u {
      if u > 0 {
        assert log[0] in log && IsOlder(b.pos)(log[0]);
      }
    } else if c < u {
      var e := Max(a, c);
      forall i | e <= i < u
        ensures log[i] in g.rest
      {
        assert log[e..u][i - e] == log[i];
        assert log[i] in Messages(g.rest);
      }
      if c < a && log[a - 1].time == log[a].time {
        NotInSlice(log, a - 1, e, u);
        assert log[a - 1] in log && log[a - 1] !in Messages(g.rest);
      } else if e > 0 {
        NoGroupCut(log, b);
        StrictBelow(log, e);
      }
    }
  }

  /** A page that cuts no group ends between two times. */
  lemma NoGroupCut(log: seq<Msg>, b: Back)
    requires ByTime(log) && !PageCuts(log, b)
    requires var u, e := Older(log, b.pos), Max(LowerEnd(log, b), Cutoff(log, b.stop)); 0 < e < u
    ensures var e := Max(LowerEnd(log, b), Cutoff(log, b.stop)); log[e - 1].time < log[e].time
  {
    hide Below, Older, UpTo, LowerEnd;
    SinceIs(log, b.stop);
    var a, c := LowerEnd(log, b), Cutoff(log, b.stop);
    var e := Max(a, c);
    TimeUp(log, e - 1, e);
    if a <= c {
      assert !IsSince(b.stop)(log[e - 1]) && IsSince(b.stop)(log[e]);
    }
  }

  lemma NotInSlice(log: seq<Msg>, x: nat, e: nat, u: nat)
    requires ByTime(log) && x < e <= u <= |log|
    ensures log[x] !in Messages(log[e..u])
  {
    forall i | e <= i < u
      ensures log[i] != log[x]
    {
      assert Follows(log, x, i);
    }
  }

  /** Where no group is cut everything before is older. */
  lemma StrictBelow(log: seq<Msg>, e: nat)
    requires ByTime(log) && 0 < e < |log| && log[e - 1].time < log[e].time
    ensures forall i | 0 <= i < e :: log[i].time < log[e].time
  {
    forall i | 0 <= i < e
      ensures log[i].time < log[e].time
    {
      TimeUp(log, i, e - 1);
    }
  }

  // ---------------------------------------------------------------------------
  // The whole loop
  // ---------------------------------------------------------------------------

  /** The loop's locals after the page was stored. */
  function NextBack(log: seq<Msg>, b: Back): Back {
    var g := FetchBackward(log, b);
    if g.low.Some? then Moved(g.(rest := [], left := Max(0, b.left - |g.rest|))) else g
  }

  /** No page of the run cuts a group. */
  ghost predicate NoCut(log: seq<Msg>, b: Back)
    decreases b.left
  {
    b.outcome.None? && b.left > 0 ==>
      && !PageCuts(log, b)
      && var g := FetchBackward(log, b);
         (g.low.Some? && 0 < |g.rest| <= b.left ==> NoCut(log, NextBack(log, b)))
  }

  /**
   What the cursor pair promises after a backward fill from pos: all that is older than pos
   and not older than the oldest cursor is stored, and a set flag means that nothing is
   older still.
   */
  ghost predicate Promise(log: seq<Msg>, pos: Option<int>, d: ChatDb) {
    d.row.Some? ==>
      && d.row.value.oldest.Some?
      && (forall m | m in log && IsOlder(pos)(m) && d.row.value.oldest.value.time <= m.time :: m in d.stored)
      && (d.row.value.fullySynced ==> forall m | m in log :: d.row.value.oldest.value.time <= m.time)
  }

  /** The row stands at the loop's cursor. */
  predicate RowAt(row: Option<Row>, pos: Option<int>) {
    && row.Some? && row.value.oldest.Some? && row.value.newest.Some?
    && Some(row.value.oldest.value.time) == pos
    && row.value.oldest.value.time <= row.value.newest.value.time
  }

  /** Stores that are not above the newest cursor leave the row alone. */
  lemma {:induction false} StoreAllBelow(db: ChatDb, ms: seq<Msg>)
    requires db.row.Some? && db.row.value.newest.Some?
    requires forall m | m in ms :: m.time <= db.row.value.newest.value.time
    ensures StoreAll(db, ms).row == db.row
    decreases |ms|
  {
    if ms != [] {
      StoreAllBelow(StoreMessage(db, ms[0], true), ms[1..]);
    }
  }

  /** The tables after the page was stored and the oldest cursor moved. */
  function AfterPage(log: seq<Msg>, db: ChatDb, b: Back): ChatDb {
    var g := FetchBackward(log, b);
    var d := StoreAll(db, g.rest);
    if g.low.Some? then d.(row := MoveOldest(d.row, g.low.value)) else d
  }

  /** The page has something to store. */
  predicate Stores(log: seq<Msg>, b: Back) {
    LowerEnd(log, b) < Older(log, b.pos) && Cutoff(log, b.stop) < Older(log, b.pos)
  }

  /** The oldest message the page stores. */
  function PageLow(log: seq<Msg>, b: Back): nat {
    Max(LowerEnd(log, b), Cutoff(log, b.stop))
  }

  /** One turn of the loop that stores a page. */
  lemma TurnRunIs(log: seq<Msg>, db: ChatDb, b: Back)
    requires ByTime(log) && Between(log, b) && b.left > 0 && b.outcome.None? && Stores(log, b)
    ensures BackwardRun(log, db, b) == BackwardRun(log, AfterPage(log, db, b), NextBack(log, b))
  {
    hide FetchBackward, BackwardRun, Below, Older, UpTo, LowerEnd, Cutoff, Messages, MoveOldest;
    TiedPageSpec(log, b);
    TurnUnfolds(log, db, b);
  }

  lemma NextIs(log: seq<Msg>, b: Back)
    requires ByTime(log) && Between(log, b) && b.left > 0 && b.outcome.None? && Stores(log, b)
    ensures var u, e := Older(log, b.pos), PageLow(log, b);
            && e < u && u - e <= b.left
            && NextBack(log, b) == Back(Some(log[e].time), b.stop, b.left - (u - e), [], None, false,
                                        if LowerEnd(log, b) < Cutoff(log, b.stop) || b.left == u - e then Some(false)
                                        else None)
            && Between(log, NextBack(log, b)) && IsOlder(b.pos)(log[e])
  {
    hide FetchBackward, Below, Older, UpTo, LowerEnd, Cutoff, Messages;
    TiedPageSpec(log, b);
    OlderIs(log, b.pos);
  }

  lemma PageRow(log: seq<Msg>, db: ChatDb, b: Back)
    requires ByTime(log) && Between(log, b) && b.left > 0 && b.outcome.None? && Stores(log, b) && RowAt(db.row, b.pos)
    ensures var u, e := Older(log, b.pos), PageLow(log, b);
            var g, next := FetchBackward(log, b), AfterPage(log, db, b);
            && g.low.Some? && next.stored == db.stored + Messages(log[e..u])
            && next.row == Some(db.row.value.(oldest := Some(g.low.value)))
            && g.low.value.time == log[e].time < b.pos.value && RowAt(next.row, Some(log[e].time))
  {
    hide FetchBackward, Below, Older, UpTo, LowerEnd, Cutoff, Messages;
    var u, e := Older(log, b.pos), PageLow(log, b);
    var g := FetchBackward(log, b);
    TiedPageSpec(log, b);
    OlderIs(log, b.pos);
    assert IsOlder(b.pos)(log[e]);
    forall m | m in g.rest
      ensures m.time <= db.row.value.newest.value.time
    {
      InMessages(g.rest, m);
      InSlice(log, e, u, m);
      var i :| e <= i < u && log[i] == m;
      assert IsOlder(b.pos)(log[i]);
    }
    StoreAllBelow(db, g.rest);
    StoreAllStores(db, g.rest);
  }

  lemma InMessages(ms: seq<Msg>, m: Msg)
    requires m in ms
    ensures m in Messages(ms)
  {
  }

  lemma InSlice(log: seq<Msg>, e: nat, u: nat, m: Msg)
    requires e <= u <= |log| && m in Messages(log[e..u])
    ensures exists i :: e <= i < u && log[i] == m
  {
    var j :| 0 <= j < u - e && log[e..u][j] == m;
    assert log[e + j] == m;
  }

  /** Below a page that cuts nothing the next one begins right where it ended. */
  lemma NextBegins(log: seq<Msg>, b: Back)
    requires ByTime(log) && Between(log, b) && b.left > 0 && b.outcome.None? && !PageCuts(log, b)
    requires Stores(log, b)
    ensures var e := PageLow(log, b);
            Older(log, Some(log[e].time)) == e && (e == 0 || log[e - 1].time < log[e].time)
  {
    hide LowerEnd, UpTo, PageCuts, Below, Cutoff;
    var e := Max(LowerEnd(log, b), Cutoff(log, b.stop));
    if e > 0 {
      NoGroupCut(log, b);
    }
    BelowCounts(log, log[e].time);
  }

  /** Where the run from b ends. */
  function EndOf(log: seq<Msg>, b: Back): (e: nat)
    ensures e <= Older(log, b.pos)
  {
    var u := Older(log, b.pos);
    if b.outcome.Some? then u else Reach(Cutoff(log, b.stop), u, b.left)
  }

  /** The run from b took db to d: exactly the next messages going down, and the row at the last of them. */
  ghost predicate RunsTo(log: seq<Msg>, db: ChatDb, b: Back, d: ChatDb) {
    var u, e := Older(log, b.pos), EndOf(log, b);
    && d.stored == db.stored + Messages(log[e..u])
    && db.row.Some? && d.row.Some? && d.row.value.newest == db.row.value.newest
    && d.row.value.oldest.Some? && b.pos.Some?
    && d.row.value.oldest.value.time == (if e < u then log[e].time else b.pos.value)
    && d.row.value.fullySynced == (if b.outcome.Some? then b.outcome.value
                                   else SeesBeginning(Cutoff(log, b.stop), u, b.left))
    && (0 < e < u ==> log[e - 1].time < log[e].time)
  }

  /** Mid-run form: without a cut the loop stores exactly the next messages going down. */
  lemma {:induction false} TiedRun(log: seq<Msg>, db: ChatDb, b: Back)
    requires ByTime(log) && Between(log, b) && RowAt(db.row, b.pos) && NoCut(log, b)
    requires b.outcome.None? ==> b.left > 0
    ensures RunsTo(log, db, b, BackwardRun(log, db, b))
    decreases b.left
  {
    hide FetchBackward, BackwardRun, Below, Older, UpTo, Cutoff, LowerEnd, PageCuts, RowAt, Between, MoveOldest,
         RunsTo, EndOf, AfterPage, NextBack, PageLow;
    if b.outcome.Some? {
      EndRuns(log, db, b);
    } else if Stores(log, b) {
      TurnRunIs(log, db, b);
      PageRow(log, db, b);
      NextIs(log, b);
      BetweenIs(log, b);
      assert NoCut(log, NextBack(log, b)) by { NextNoCut(log, b); }
      TiedRun(log, AfterPage(log, db, b), NextBack(log, b));
      TurnRuns(log, db, b, BackwardRun(log, db, b));
    } else {
      EmptyRuns(log, db, b);
    }
  }

  lemma NextNoCut(log: seq<Msg>, b: Back)
    requires ByTime(log) && Between(log, b) && b.left > 0 && b.outcome.None? && Stores(log, b) && NoCut(log, b)
    ensures NoCut(log, NextBack(log, b)) && !PageCuts(log, b)
  {
    hide FetchBackward, Below, Older, UpTo, LowerEnd, Cutoff, Messages, PageCuts, NextBack;
    TiedPageSpec(log, b);
  }

  lemma BetweenIs(log: seq<Msg>, b: Back)
    requires Between(log, b)
    ensures b.rest == [] && b.low.None?
  {
  }

  lemma TurnRuns(log: seq<Msg>, db: ChatDb, b: Back, d: ChatDb)
    requires ByTime(log) && Between(log, b) && RowAt(db.row, b.pos) && !PageCuts(log, b)
    requires b.left > 0 && b.outcome.None?
    requires Stores(log, b)
    requires RunsTo(log, AfterPage(log, db, b), NextBack(log, b), d)
    ensures RunsTo(log, db, b, d)
  {
    hide FetchBackward, Below, Older, UpTo, Cutoff, LowerEnd, PageCuts, MoveOldest, AfterPage, NextBack, Messages;
    var c, u, a := Cutoff(log, b.stop), Older(log, b.pos), LowerEnd(log, b);
    var e := Max(a, c);
    PageRow(log, db, b);
    NextIs(log, b);
    NextBegins(log, b);
    PageReach(log, b);
    var e2 := EndOf(log, NextBack(log, b));
    assert e2 == EndOf(log, b) <= e;
    SliceJoins(log, e2, e, u);
  }

  lemma SliceJoins(log: seq<Msg>, a: nat, b: nat, c: nat)
    requires a <= b <= c <= |log|
    ensures Messages(log[a..c]) == Messages(log[a..b]) + Messages(log[b..c])
  {
    assert log[a..c] == log[a..b] + log[b..c];
  }

  lemma EndRuns(log: seq<Msg>, db: ChatDb, b: Back)
    requires Between(log, b) && RowAt(db.row, b.pos) && b.outcome.Some?
    ensures RunsTo(log, db, b, BackwardRun(log, db, b))
  {
    hide BackwardRun, Below, Cutoff;
    assert log[Older(log, b.pos)..Older(log, b.pos)] == [];
    EndRun(log, db, b);
  }

  lemma EmptyRuns(log: seq<Msg>, db: ChatDb, b: Back)
    requires ByTime(log) && Between(log, b) && RowAt(db.row, b.pos) && !PageCuts(log, b)
    requires b.left > 0 && b.outcome.None?
    requires !Stores(log, b)
    ensures RunsTo(log, db, b, BackwardRun(log, db, b))
  {
    hide BackwardRun, FetchBackward, Below, Older, UpTo, Cutoff, LowerEnd, PageCuts;
    assert log[Older(log, b.pos)..Older(log, b.pos)] == [];
    TiedPageSpec(log, b);
    TurnUnfolds(log, db, b);
    EmptyReach(log, b);
  }

  lemma EndRun(log: seq<Msg>, db: ChatDb, b: Back)
    requires Between(log, b) && RowAt(db.row, b.pos) && b.outcome.Some?
    ensures BackwardRun(log, db, b) == db.(row := Some(db.row.value.(fullySynced := b.outcome.value)))
    ensures Some(db.row.value.oldest.value.time) == b.pos
  {
    hide BackwardRun;
    BackwardUnfolds(log, db, b);
  }

  /** The arithmetic of a page: how far the loop reaches from its lower end. */
  lemma PageReach(log: seq<Msg>, b: Back)
    requires ByTime(log) && Between(log, b) && b.left > 0
    requires Stores(log, b)
    ensures var c, u, a := Cutoff(log, b.stop), Older(log, b.pos), LowerEnd(log, b);
            var e := Max(a, c);
            && u - e <= b.left
            && (if a < c || b.left == u - e
                then Reach(c, u, b.left) == e && !SeesBeginning(c, u, b.left)
                else Reach(c, u, b.left) == Reach(c, e, b.left - (u - e))
                     && SeesBeginning(c, u, b.left) == SeesBeginning(c, e, b.left - (u - e)))
  {
    hide Below;
    OlderIs(log, b.pos);
  }

  lemma EmptyReach(log: seq<Msg>, b: Back)
    requires ByTime(log) && Between(log, b) && b.left > 0 && !PageCuts(log, b)
    requires !Stores(log, b)
    ensures var c, u := Cutoff(log, b.stop), Older(log, b.pos);
            && Reach(c, u, b.left) == u
            && SeesBeginning(c, u, b.left) == (LowerEnd(log, b) >= u)
  {
    hide Below;
    OlderIs(log, b.pos);
  }

  // ---------------------------------------------------------------------------
  // The promise holds exactly when no page cuts a group
  // ---------------------------------------------------------------------------

  /** Cut or not, the run stores older messages only, loses none, and ends at or below pos. */
  lemma {:induction false} RunGoesDown(log: seq<Msg>, db: ChatDb, b: Back)
    requires ByTime(log) && Between(log, b) && RowAt(db.row, b.pos)
    requires b.outcome.None? ==> b.left > 0
    ensures var d := BackwardRun(log, db, b);
            && db.stored <= d.stored && (forall m | m in d.stored :: m in db.stored || IsOlder(b.pos)(m))
            && d.row.Some? && d.row.value.oldest.Some? && d.row.value.oldest.value.time <= b.pos.value
    decreases b.left
  {
    hide FetchBackward, BackwardRun, Below, Older, UpTo, Cutoff, LowerEnd, MoveOldest, Between, AfterPage, NextBack;
    BetweenIs(log, b);
    if b.outcome.Some? {
      EndRun(log, db, b);
    } else if Stores(log, b) {
      TurnRunIs(log, db, b);
      PageRow(log, db, b);
      NextIs(log, b);
      RunGoesDown(log, AfterPage(log, db, b), NextBack(log, b));
      PageIsOlder(log, b);
    } else {
      TiedPageSpec(log, b);
      TurnUnfolds(log, db, b);
    }
  }

  /** The stored page is older than the cursor and not older than its lowest message. */
  lemma PageIsOlder(log: seq<Msg>, b: Back)
    requires ByTime(log) && Between(log, b) && b.left > 0 && b.outcome.None? && Stores(log, b)
    ensures var e := PageLow(log, b);
            && e < Older(log, b.pos)
            && forall m | m in Messages(log[e..Older(log, b.pos)]) :: IsOlder(b.pos)(m) && log[e].time <= m.time
  {
    hide Below, Older, UpTo, LowerEnd, Cutoff, Messages;
    OlderIs(log, b.pos);
    var u, e := Older(log, b.pos), PageLow(log, b);
    forall m | m in Messages(log[e..u])
      ensures IsOlder(b.pos)(m) && log[e].time <= m.time
    {
      InSlice(log, e, u, m);
      var i :| e <= i < u && log[i] == m;
      TimeUp(log, e, i);
    }
  }

  /** A cut page breaks the promise, whatever the loop does after it. */
  lemma CutBreaks(log: seq<Msg>, b: Back, before: set<Msg>, d: ChatDb)
    requires ByTime(log) && Between(log, b) && b.left > 0 && b.outcome.None? && Stores(log, b) && PageCuts(log, b)
    requires forall m | m in log && IsOlder(b.pos)(m) :: m !in before
    requires var u, e := Older(log, b.pos), PageLow(log, b);
             && e < u && d.row.Some? && d.row.value.oldest.Some? && d.row.value.oldest.value.time <= log[e].time
             && forall m | m in d.stored :: m in before || m in Messages(log[e..u]) || m.time < log[e].time
    ensures !Promise(log, b.pos, d)
  {
    hide Below, Older, UpTo, LowerEnd, Cutoff, Messages;
    OlderIs(log, b.pos);
    var u, e := Older(log, b.pos), PageLow(log, b);
    assert e == LowerEnd(log, b);
    var x := log[e - 1];
    assert IsOlder(b.pos)(x) && x in log && x.time == log[e].time;
    NotInSlice(log, e - 1, e, u);
  }

  /** A page that cuts nothing: the promise from the cursor is the promise from its lowest message. */
  lemma PagePromises(log: seq<Msg>, b: Back, d: ChatDb)
    requires ByTime(log) && Between(log, b) && b.left > 0 && b.outcome.None? && Stores(log, b) && !PageCuts(log, b)
    requires var u, e := Older(log, b.pos), PageLow(log, b); e < u && Messages(log[e..u]) <= d.stored
    ensures Promise(log, b.pos, d) <==> Promise(log, Some(log[PageLow(log, b)].time), d)
  {
    hide Below, Older, UpTo, LowerEnd, Cutoff, PageCuts, FetchBackward;
    var u, e := Older(log, b.pos), PageLow(log, b);
    PageKeepsIff(log, b);
    TiedPageSpec(log, b);
    NextIs(log, b);
    forall m | m in log && IsOlder(b.pos)(m) && log[e].time <= m.time
      ensures m in d.stored
    {
      assert m in FetchBackward(log, b).rest;
      InMessages(FetchBackward(log, b).rest, m);
    }
    forall m | m in log && m.time < log[e].time
      ensures IsOlder(b.pos)(m)
    {
    }
  }

  /** The backward loop keeps the cursor promise if and only if no page of it cuts a group. */
  lemma {:induction false} RunKeepsIff(log: seq<Msg>, db: ChatDb, b: Back)
    requires ByTime(log) && Between(log, b) && RowAt(db.row, b.pos)
    requires (b.outcome.None? ==> b.left > 0) && b.outcome != Some(true)
    requires forall m | m in log && IsOlder(b.pos)(m) :: m !in db.stored
    ensures Promise(log, b.pos, BackwardRun(log, db, b)) <==> NoCut(log, b)
    decreases b.left
  {
    hide FetchBackward, BackwardRun, Below, Older, UpTo, Cutoff, LowerEnd, PageCuts, MoveOldest, Between, AfterPage,
         NextBack, RowAt, Promise, NoCut, PageLow, Messages;
    BetweenIs(log, b);
    if b.outcome.Some? || !Stores(log, b) {
      NoPageKeepsIff(log, db, b);
    } else {
      var d := BackwardRun(log, db, b);
      var next, n, e, u := AfterPage(log, db, b), NextBack(log, b), PageLow(log, b), Older(log, b.pos);
      TurnRunIs(log, db, b);
      PageRow(log, db, b);
      NextIs(log, b);
      PageIsOlder(log, b);
      RunGoesDown(log, next, n);
      NoCutUnfolds(log, b);
      if PageCuts(log, b) {
        CutBreaks(log, b, db.stored, d);
      } else {
        forall m | m in log && IsOlder(n.pos)(m)
          ensures m !in next.stored
        {
        }
        RunKeepsIff(log, next, n);
        PagePromises(log, b, d);
      }
    }
  }

  lemma NoCutUnfolds(log: seq<Msg>, b: Back)
    requires ByTime(log) && Between(log, b) && b.left > 0 && b.outcome.None? && Stores(log, b)
    ensures NoCut(log, b) <==> !PageCuts(log, b) && NoCut(log, NextBack(log, b))
  {
    hide FetchBackward, Below, Older, UpTo, LowerEnd, Cutoff, Messages, PageCuts, NextBack;
    TiedPageSpec(log, b);
  }

  lemma NoPageKeepsIff(log: seq<Msg>, db: ChatDb, b: Back)
    requires ByTime(log) && Between(log, b) && RowAt(db.row, b.pos)
    requires (b.outcome.None? ==> b.left > 0 && !Stores(log, b)) && b.outcome != Some(true)
    ensures Promise(log, b.pos, BackwardRun(log, db, b)) <==> NoCut(log, b)
  {
    hide FetchBackward, BackwardRun, Below, Older, UpTo, Cutoff, LowerEnd;
    if b.outcome.Some? {
      EndRun(log, db, b);
    } else {
      TiedPageSpec(log, b);
      TurnUnfolds(log, db, b);
      OlderIs(log, b.pos);
      if Older(log, b.pos) > 0 {
        assert log[0] in log && IsOlder(b.pos)(log[0]);
      }
    }
  }

  // ---------------------------------------------------------------------------
  // The results for a chat's row
  // ---------------------------------------------------------------------------

  lemma StartsBetween(log: seq<Msg>, row: Option<Row>, w: nat, stop: Option<int>, limit: nat)
    requires w < |log| && row.Some? && row.value.oldest == Some(log[w])
    requires row.value.newest.Some? && log[w].time <= row.value.newest.value.time
    ensures Between(log, StartBackward(row, stop, limit)) && RowAt(row, Some(log[w].time))
    ensures StartBackward(row, stop, limit).pos == Some(log[w].time)
  {
  }

  /**
   Backward backfill with equal times: all that is older than the old cursor and not older than
   the new one is stored, and the flag is true, if and only if no page cuts a group of
   equal times.
   */
  lemma BackwardKeepsIff(log: seq<Msg>, db: ChatDb, w: nat, stop: Option<int>, limit: nat)
    requires ByTime(log) && w < |log| && db.row.Some? && db.row.value.oldest == Some(log[w])
    requires db.row.value.newest.Some? && log[w].time <= db.row.value.newest.value.time
    requires forall m | m in log && m.time < log[w].time :: m !in db.stored
    ensures var b := StartBackward(db.row, stop, limit);
            Promise(log, Some(log[w].time), BackwardRun(log, db, b)) <==> NoCut(log, b)
  {
    hide BackwardRun, Promise, NoCut, Between, RowAt;
    StartsBetween(log, db.row, w, stop, limit);
    RunKeepsIff(log, db, StartBackward(db.row, stop, limit));
  }

  /**
   And then the loop is exact: of the k older messages within the boundary it stores the
   min(L, k) newest, ends at the time of the last one, and sees the beginning exactly when
   it is there.
   */
  lemma BackwardExactTied(log: seq<Msg>, db: ChatDb, w: nat, stop: Option<int>, limit: nat)
    requires ByTime(log) && w < |log| && db.row.Some? && db.row.value.oldest == Some(log[w])
    requires db.row.value.newest.Some? && log[w].time <= db.row.value.newest.value.time
    requires NoCut(log, StartBackward(db.row, stop, limit))
    ensures var c, u := Cutoff(log, stop), Below(log, log[w].time);
            var e, d := Reach(c, u, limit), BackwardRun(log, db, StartBackward(db.row, stop, limit));
            && d.stored == db.stored + Messages(log[e..u])
            && d.row.Some? && d.row.value.newest == db.row.value.newest && d.row.value.oldest.Some?
            && d.row.value.oldest.value.time == (if e < u then log[e].time else log[w].time)
            && d.row.value.fullySynced == SeesBeginning(c, u, limit)
  {
    hide BackwardRun, NoCut, Between, RowAt, Cutoff, Below, Messages;
    StartsBetween(log, db.row, w, stop, limit);
    TiedRun(log, db, StartBackward(db.row, stop, limit));
  }

  /** Stores of a first page, newest first: the first one makes the row. */
  lemma {:induction false} StoreAllFresh(db: ChatDb, ms: seq<Msg>)
    requires db.row.None? && ms != [] && forall m | m in ms :: m.time <= ms[0].time
    ensures StoreAll(db, ms).row == Some(Row(Some(ms[0]), Some(ms[0]), false))
  {
    assert ms == [ms[0]] + ms[1..];
    StoreAllBelow(StoreMessage(db, ms[0], true), ms[1..]);
  }

  lemma FreshPageRow(log: seq<Msg>, db: ChatDb, b: Back)
    requires ByTime(log) && Between(log, b) && b.left > 0 && b.outcome.None? && Stores(log, b) && db.row.None?
    ensures var u, e, next := Older(log, b.pos), PageLow(log, b), AfterPage(log, db, b);
            && e < u && next.stored == db.stored + Messages(log[e..u]) && RowAt(next.row, Some(log[e].time))
  {
    hide FetchBackward, Below, Older, UpTo, LowerEnd, Cutoff, Messages;
    TiedPageSpec(log, b);
    var g := FetchBackward(log, b);
    StoreAllFresh(db, g.rest);
    StoreAllStores(db, g.rest);
  }

  /** The same for a chat without a cursor: from now on, and the first store makes the row. */
  lemma FreshKeepsIff(log: seq<Msg>, db: ChatDb, stop: Option<int>, limit: nat)
    requires ByTime(log) && db.row.None? && forall m | m in log :: m !in db.stored
    ensures var b := StartBackward(None, stop, limit);
            Promise(log, None, BackwardRun(log, db, b)) <==> NoCut(log, b)
  {
    hide FetchBackward, BackwardRun, Below, Cutoff, MoveOldest, AfterPage, NextBack, RowAt, Promise,
         NoCut, PageLow, Messages;
    var b := StartBackward(None, stop, limit);
    if limit > 0 && Stores(log, b) {
      var d := BackwardRun(log, db, b);
      var next, n, e := AfterPage(log, db, b), NextBack(log, b), PageLow(log, b);
      TurnRunIs(log, db, b);
      FreshPageRow(log, db, b);
      NextIs(log, b);
      PageIsOlder(log, b);
      RunGoesDown(log, next, n);
      NoCutUnfolds(log, b);
      if PageCuts(log, b) {
        CutBreaks(log, b, db.stored, d);
      } else {
        forall m | m in log && IsOlder(n.pos)(m)
          ensures m !in next.stored
        {
        }
        RunKeepsIff(log, next, n);
        PagePromises(log, b, d);
      }
    } else {
      FreshNothing(log, db, b);
    }
  }

  lemma FreshNothing(log: seq<Msg>, db: ChatDb, b: Back)
    requires ByTime(log) && db.row.None? && b.pos.None? && Between(log, b)
    requires b.outcome.None? ==> b.left > 0 && !Stores(log, b)
    ensures NoCut(log, b) && Promise(log, None, BackwardRun(log, db, b))
  {
    hide FetchBackward, BackwardRun, Below, Cutoff;
    if b.outcome.Some? {
      BackwardUnfolds(log, db, b);
    } else {
      TiedPageSpec(log, b);
      TurnUnfolds(log, db, b);
    }
  }

  /** With strictly growing times no page cuts a group. */
  lemma {:induction false} OrderedNeverCuts(log: seq<Msg>, b: Back)
    requires Ordered(log) && Between(log, b)
    ensures NoCut(log, b)
    decreases b.left
  {
    hide FetchBackward, Below, Older, UpTo, LowerEnd, Cutoff, Messages, PageCuts, NextBack;
    OrderedIsByTime(log);
    if b.outcome.None? && b.left > 0 {
      OrderedPage(log, b);
      TiedPageSpec(log, b);
      if Stores(log, b) {
        NextIs(log, b);
        OrderedNeverCuts(log, NextBack(log, b));
      }
    }
  }

  lemma OrderedPage(log: seq<Msg>, b: Back)
    requires Ordered(log) && ByTime(log) && Between(log, b) && b.left > 0
    ensures !PageCuts(log, b)
  {
    hide Below, Cutoff;
    var u, a, k := Older(log, b.pos), LowerEnd(log, b), UpTo(log, b.pos);
    OlderIs(log, b.pos);
    if u + 1 < k {
      OrderStrict(log, u, u + 1);
    }
    if 0 < a < |log| {
      OrderStrict(log, a - 1, a);
    }
  }
}
