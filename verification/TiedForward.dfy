/**
 The forward loop on histories where several messages may have one time. A page loses or
 repeats a message exactly when it does not reach past the cursor's own group of equal
 times; after such a page the loop takes nothing more. So it takes exactly the first Gets
 of the messages that remain, and keeps its promises exactly when these are enough.
 */
module TiedForward {
  import opened Wrappers
  import opened Seqs
  import opened MaxHistory
  import opened TiedBackward

  /** The messages the loop still has to take, in the order of the log. */
  function Remaining(log: seq<Msg>, f: Fill): seq<Msg> {
    Filter(log, IsNewer(f.pos, f.seen))
  }

  /** Between two pages: the cursor is at a message it has seen, and has seen only messages of its time. */
  ghost predicate AtGroup(log: seq<Msg>, f: Fill) {
    && f.rest == [] && !f.ended
    && (exists w :: IsSeen(log, f, w))
    && forall i | 0 <= i < |log| && log[i].id in f.seen :: log[i].time == f.pos
  }

  predicate IsSeen(log: seq<Msg>, f: Fill, w: int) {
    0 <= w < |log| && log[w].time == f.pos && log[w].id in f.seen
  }

  /** Where the page ends. */
  function UpperEnd(log: seq<Msg>, f: Fill): (end: nat)
    ensures Below(log, f.pos) <= end <= |log|
  {
    Min(|log|, Below(log, f.pos) + PageSize(f.left, true))
  }

  /** Something is left, but the page holds nothing beyond the cursor's own group. */
  predicate PageStuck(log: seq<Msg>, f: Fill) {
    Remaining(log, f) != [] && UpperEnd(log, f) <= Below(log, f.pos + 1)
  }

  /** What a page must do: take the next of the remaining messages and leave the others, once each. */
  ghost predicate PageAdvances(log: seq<Msg>, f: Fill) {
    var g := FetchForward(log, f);
    if g.ended then Remaining(log, f) == [] else Remaining(log, f) == g.rest + Remaining(log, g)
  }

  lemma {:induction false} FilterKeepsOrder(ms: seq<Msg>, p: Msg -> bool)
    requires SortedBy(ms, TimeOf)
    ensures SortedBy(Filter(ms, p), TimeOf)
  {
    if ms != [] {
      FilterKeepsOrder(ms[1..], p);
      FilterIn(ms[1..], p);
      forall m | m in ms[1..]
        ensures TimeOf(ms[0]) <= TimeOf(m)
      {
        var i :| 0 < i < |ms| && ms[i] == m;
        assert TimeOf(ms[0]) <= TimeOf(ms[i]);
      }
    }
  }

  lemma {:induction false} FilterDrops(ms: seq<Msg>, p: Msg -> bool, x: Msg)
    requires x in ms && !p(x)
    ensures |Filter(ms, p)| < |ms|
  {
    FilterIn(ms[1..], p);
    if ms[0] != x {
      FilterDrops(ms[1..], p, x);
    }
  }

  lemma ByTimeSorted(log: seq<Msg>, a: nat, b: nat)
    requires ByTime(log) && a <= b <= |log|
    ensures SortedBy(log[a..b], TimeOf)
  {
    forall i, j | 0 <= i < j < b - a
      ensures TimeOf(log[a..b][i]) <= TimeOf(log[a..b][j])
    {
      TimeUp(log, a + i, a + j);
    }
  }

  /** The page by the cursor's group, and where its ends are. */
  lemma GroupIs(log: seq<Msg>, f: Fill)
    requires ByTime(log) && AtGroup(log, f)
    ensures var u, k := Below(log, f.pos), Below(log, f.pos + 1);
            && u < k && (forall i | 0 <= i < |log| :: (log[i].time < f.pos <==> i < u) && (log[i].time <= f.pos <==> i < k))
            && exists w :: IsSeen(log, f, w) && u <= w < k
  {
    BelowCounts(log, f.pos);
    BelowCounts(log, f.pos + 1);
    var w :| IsSeen(log, f, w);
    assert Below(log, f.pos) <= w < Below(log, f.pos + 1);
  }

  /** What the page shows of the remaining messages. */
  function Shown(log: seq<Msg>, f: Fill): seq<Msg>
    requires Below(log, f.pos) <= UpperEnd(log, f)
  {
    Filter(log[Below(log, f.pos)..UpperEnd(log, f)], IsNewer(f.pos, f.seen))
  }

  lemma ShownIs(log: seq<Msg>, f: Fill)
    requires ByTime(log) && AtGroup(log, f) && f.left > 0
    ensures var u, end := Below(log, f.pos), UpperEnd(log, f);
            && u < end && Newer(HistoryForward(log, f.pos, PageSize(f.left, true)), f.pos, f.seen) == Shown(log, f)
            && SortedBy(Shown(log, f), TimeOf) && Sort(Shown(log, f), TimeOf) == Shown(log, f)
            && Remaining(log, f) == Shown(log, f) + Filter(log[end..], IsNewer(f.pos, f.seen))
  {
    hide Below, Filter, Sort, SortedBy;
    GroupIs(log, f);
    var u, end, p := Below(log, f.pos), UpperEnd(log, f), IsNewer(f.pos, f.seen);
    ByTimeSorted(log, u, end);
    FilterKeepsOrder(log[u..end], p);
    SortIdentity(Shown(log, f), TimeOf);
    assert log == log[..u] + (log[u..end] + log[end..]);
    FilterConcat(log[..u], log[u..end] + log[end..], p);
    FilterConcat(log[u..end], log[end..], p);
    BeforeGroup(log, f);
    assert [] + (Shown(log, f) + Filter(log[end..], p)) == Shown(log, f) + Filter(log[end..], p);
  }

  lemma BeforeGroup(log: seq<Msg>, f: Fill)
    requires ByTime(log) && AtGroup(log, f)
    ensures Filter(log[..Below(log, f.pos)], IsNewer(f.pos, f.seen)) == []
  {
    hide Below, Filter;
    GroupIs(log, f);
    var u := Below(log, f.pos);
    forall m | m in log[..u]
      ensures !IsNewer(f.pos, f.seen)(m)
    {
      var i :| 0 <= i < u && log[..u][i] == m;
      assert log[i] == m;
    }
    FilterNone(log[..u], IsNewer(f.pos, f.seen));
  }

  /** The time of the last message shown, and the ids shown at it. */
  lemma LatestShown(ms: seq<Msg>)
    requires SortedBy(ms, TimeOf) && ms != []
    ensures Latest(ms) == ms[|ms| - 1].time
  {
    var n := |ms| - 1;
    if n > 0 {
      assert SortedBy(ms[..n], TimeOf);
      LatestShown(ms[..n]);
      assert TimeOf(ms[n - 1]) <= TimeOf(ms[n]);
    }
  }

  /** A page past the group: it shows the rest of the group and all that follows up to its end. */
  lemma PastGroup(log: seq<Msg>, f: Fill)
    requires ByTime(log) && AtGroup(log, f) && f.left > 0 && Below(log, f.pos + 1) < UpperEnd(log, f)
    ensures var k, end := Below(log, f.pos + 1), UpperEnd(log, f);
            && Below(log, f.pos) <= k
            && Shown(log, f) == Filter(log[Below(log, f.pos)..k], IsNewer(f.pos, f.seen)) + log[k..end]
            && Shown(log, f) != [] && Shown(log, f)[|Shown(log, f)| - 1] == log[end - 1] && f.pos < log[end - 1].time
            && |Shown(log, f)| <= f.left
            && Filter(log[end..], IsNewer(f.pos, f.seen)) == log[end..]
  {
    hide Below, Filter;
    GroupIs(log, f);
    var u, k, end, p := Below(log, f.pos), Below(log, f.pos + 1), UpperEnd(log, f), IsNewer(f.pos, f.seen);
    assert log[u..end] == log[u..k] + log[k..end];
    FilterConcat(log[u..k], log[k..end], p);
    AllNewer(log, f, k, end);
    AllNewer(log, f, end, |log|);
    assert log[end..|log|] == log[end..];
    var w :| IsSeen(log, f, w) && u <= w < k;
    assert log[u..end][w - u] == log[w];
    FilterDrops(log[u..end], p, log[w]);
  }

  lemma AllNewer(log: seq<Msg>, f: Fill, a: nat, b: nat)
    requires ByTime(log) && AtGroup(log, f) && Below(log, f.pos + 1) <= a <= b <= |log|
    ensures Filter(log[a..b], IsNewer(f.pos, f.seen)) == log[a..b]
  {
    hide Below, Filter;
    GroupIs(log, f);
    forall m | m in log[a..b]
      ensures IsNewer(f.pos, f.seen)(m)
    {
      var i :| 0 <= i < b - a && log[a..b][i] == m;
      assert log[a + i] == m;
    }
    FilterAll(log[a..b], IsNewer(f.pos, f.seen));
  }

  /** The loop's cursor after a page past the group. */
  function PastFill(log: seq<Msg>, f: Fill): Fill
    requires Below(log, f.pos) <= UpperEnd(log, f) && UpperEnd(log, f) > 0
  {
    var top := log[UpperEnd(log, f) - 1].time;
    Fill(top, IdsAt(Shown(log, f), top), f.left, [], false)
  }

  /** After such a page exactly the messages behind its end remain. */
  lemma PastRemains(log: seq<Msg>, f: Fill)
    requires ByTime(log) && AtGroup(log, f) && f.left > 0 && Below(log, f.pos + 1) < UpperEnd(log, f)
    ensures Below(log, f.pos) <= UpperEnd(log, f)
    ensures var end := UpperEnd(log, f);
            Remaining(log, PastFill(log, f)) == log[end..] && AtGroup(log, PastFill(log, f))
  {
    hide Below, Filter, Shown, UpperEnd, IdsAt;
    PastGroup(log, f);
    ShownOnly(log, f);
    var end, g := UpperEnd(log, f), PastFill(log, f);
    var p := IsNewer(g.pos, g.seen);
    SeenTop(log, f, end, g.seen);
    SeenBefore(log, f);
    NewBehind(log, f);
    assert log == log[..end] + log[end..];
    FilterConcat(log[..end], log[end..], p);
    assert [] + log[end..] == log[end..];
    assert IsSeen(log, g, end - 1) by { TopShown(log, f); }
  }

  /** The page's last message was shown. */
  lemma TopShown(log: seq<Msg>, f: Fill)
    requires ByTime(log) && AtGroup(log, f) && f.left > 0 && Below(log, f.pos + 1) < UpperEnd(log, f)
    requires Below(log, f.pos) <= UpperEnd(log, f)
    ensures forall i | Below(log, f.pos + 1) <= i < UpperEnd(log, f) :: log[i] in Shown(log, f)
    ensures log[UpperEnd(log, f) - 1].id in PastFill(log, f).seen
  {
    hide Below, Filter, Shown, UpperEnd;
    PastGroup(log, f);
    var k, end := Below(log, f.pos + 1), UpperEnd(log, f);
    forall i | k <= i < end
      ensures log[i] in Shown(log, f)
    {
      assert log[k..end][i - k] == log[i];
    }
  }

  lemma SeenBefore(log: seq<Msg>, f: Fill)
    requires ByTime(log) && AtGroup(log, f) && f.left > 0 && Below(log, f.pos + 1) < UpperEnd(log, f)
    requires Below(log, f.pos) <= UpperEnd(log, f)
    ensures Filter(log[..UpperEnd(log, f)], IsNewer(PastFill(log, f).pos, PastFill(log, f).seen)) == []
  {
    hide Below, Filter, Shown, UpperEnd;
    GroupIs(log, f);
    PastGroup(log, f);
    TopShown(log, f);
    var end, g := UpperEnd(log, f), PastFill(log, f);
    forall m | m in log[..end]
      ensures !IsNewer(g.pos, g.seen)(m)
    {
      var i :| 0 <= i < end && log[..end][i] == m;
      TimeUp(log, i, end - 1);
    }
    FilterNone(log[..end], IsNewer(g.pos, g.seen));
  }

  lemma NewBehind(log: seq<Msg>, f: Fill)
    requires ByTime(log) && Below(log, f.pos) <= UpperEnd(log, f) && UpperEnd(log, f) > 0
    requires forall i | 0 <= i < |log| && log[i].id in PastFill(log, f).seen :: i < UpperEnd(log, f)
    ensures var end, g := UpperEnd(log, f), PastFill(log, f);
            Filter(log[end..], IsNewer(g.pos, g.seen)) == log[end..]
  {
    hide Below, Filter, Shown, UpperEnd, IdsAt;
    var end, g := UpperEnd(log, f), PastFill(log, f);
    forall m | m in log[end..]
      ensures IsNewer(g.pos, g.seen)(m)
    {
      var i :| 0 <= i < |log| - end && log[end..][i] == m;
      assert log[end + i] == m;
      TimeUp(log, end - 1, end + i);
    }
    FilterAll(log[end..], IsNewer(g.pos, g.seen));
  }

  /** The page shows messages of the log up to its end only. */
  lemma ShownOnly(log: seq<Msg>, f: Fill)
    requires ByTime(log) && AtGroup(log, f) && f.left > 0
    ensures Below(log, f.pos) <= UpperEnd(log, f)
    ensures forall m | m in Shown(log, f) ::
              IsNewer(f.pos, f.seen)(m) && exists i :: Below(log, f.pos) <= i < UpperEnd(log, f) && log[i] == m
  {
    hide Below, Filter;
    ShownIs(log, f);
    var u, end := Below(log, f.pos), UpperEnd(log, f);
    FilterIn(log[u..end], IsNewer(f.pos, f.seen));
    forall m | m in Shown(log, f)
      ensures exists i :: u <= i < end && log[i] == m
    {
      var i :| 0 <= i < end - u && log[u..end][i] == m;
      assert log[u + i] == m;
    }
  }

  /** The ids shown at the page's last time are ids of messages up to its end. */
  lemma SeenTop(log: seq<Msg>, f: Fill, end: nat, seen: set<int>)
    requires ByTime(log) && end <= |log| && Below(log, f.pos) <= UpperEnd(log, f) == end && end > 0
    requires seen == IdsAt(Shown(log, f), log[end - 1].time)
    requires forall m | m in Shown(log, f) :: exists i :: Below(log, f.pos) <= i < end && log[i] == m
    ensures forall i | 0 <= i < |log| && log[i].id in seen :: i < end && log[i].time == log[end - 1].time
  {
    hide Below, Shown;
    forall i | 0 <= i < |log| && log[i].id in seen
      ensures i < end && log[i].time == log[end - 1].time
    {
      var m :| m in Shown(log, f) && m.time == log[end - 1].time && m.id == log[i].id;
      var j :| Below(log, f.pos) <= j < end && log[j] == m;
      SameId(log, i, j);
    }
  }

  /** One page past the group. */
  lemma PastFetches(log: seq<Msg>, f: Fill)
    requires ByTime(log) && AtGroup(log, f) && f.left > 0 && Below(log, f.pos + 1) < UpperEnd(log, f)
    ensures var end, g := UpperEnd(log, f), FetchForward(log, f);
            && Below(log, f.pos) <= end && g == PastFill(log, f).(rest := Shown(log, f))
            && 0 < |g.rest| <= f.left && PageAdvances(log, f)
            && AtGroup(log, g.(rest := [])) && Remaining(log, f) == g.rest + Remaining(log, g)
            && g.rest[|g.rest| - 1].time == g.pos
  {
    hide Below, Filter, Shown, Latest, Sort, IdsAt;
    FetchUnfolds(log, f);
    ShownIs(log, f);
    PastGroup(log, f);
    PastRemains(log, f);
    LatestShown(Shown(log, f));
  }

  /** A page within the group shows messages of the cursor's time only. */
  lemma StuckShows(log: seq<Msg>, f: Fill)
    requires ByTime(log) && AtGroup(log, f) && f.left > 0 && UpperEnd(log, f) <= Below(log, f.pos + 1)
    ensures Below(log, f.pos) <= UpperEnd(log, f)
    ensures forall m | m in Shown(log, f) :: m.time == f.pos && m.id !in f.seen
  {
    hide Below, Filter, Shown;
    GroupIs(log, f);
    ShownOnly(log, f);
    forall m | m in Shown(log, f)
      ensures m.time == f.pos && m.id !in f.seen
    {
      var i :| Below(log, f.pos) <= i < UpperEnd(log, f) && log[i] == m;
    }
  }

  /** A page within the group either looks like the end or puts the seen messages back among the remaining. */
  lemma StuckFails(log: seq<Msg>, f: Fill)
    requires ByTime(log) && AtGroup(log, f) && f.left > 0 && PageStuck(log, f)
    ensures !PageAdvances(log, f)
  {
    hide Below, Filter, Shown, Sort, Remaining, Latest;
    FetchUnfolds(log, f);
    ShownIs(log, f);
    StuckShows(log, f);
    var shown := Shown(log, f);
    if shown != [] {
      LatestShown(shown);
      assert shown[|shown| - 1] in shown;
      var g := FetchForward(log, f);
      GroupIs(log, f);
      var w :| IsSeen(log, f, w);
      assert g.pos == f.pos && log[w].id !in g.seen;
      RemainingIn(log, f, log[w]);
      RemainingIn(log, g, log[w]);
      assert log[w] in log;
    }
  }

  lemma RemainingIn(log: seq<Msg>, f: Fill, m: Msg)
    ensures m in Remaining(log, f) <==> m in log && IsNewer(f.pos, f.seen)(m)
  {
    FilterIn(log, IsNewer(f.pos, f.seen));
  }

  /** Nothing remains: the page shows nothing new, and that is the end. */
  lemma NothingFetches(log: seq<Msg>, f: Fill)
    requires ByTime(log) && AtGroup(log, f) && f.left > 0 && Remaining(log, f) == []
    ensures FetchForward(log, f) == f.(ended := true) && PageAdvances(log, f)
  {
    hide Below, Filter, Shown, Remaining;
    FetchUnfolds(log, f);
    ShownIs(log, f);
  }

  /** A page loses or repeats a message exactly when it is stuck in the cursor's group. */
  lemma PageAdvancesIff(log: seq<Msg>, f: Fill)
    requires ByTime(log) && AtGroup(log, f) && f.left > 0
    ensures PageAdvances(log, f) <==> !PageStuck(log, f)
  {
    hide PageAdvances, Remaining, Below, UpperEnd;
    if Remaining(log, f) == [] {
      NothingFetches(log, f);
    } else if UpperEnd(log, f) <= Below(log, f.pos + 1) {
      StuckFails(log, f);
    } else {
      PastFetches(log, f);
    }
  }

  // ---------------------------------------------------------------------------
  // The whole loop
  // ---------------------------------------------------------------------------

  /** The loop's locals after the page was stored. */
  function NextFill(log: seq<Msg>, f: Fill): Fill {
    var g := FetchForward(log, f);
    g.(rest := [], left := Max(0, f.left - |g.rest|))
  }

  /** No page of the run is stuck. */
  ghost predicate NoStick(log: seq<Msg>, f: Fill)
    decreases f.left
  {
    f.left > 0 ==>
      && !PageStuck(log, f)
      && (0 < |FetchForward(log, f).rest| <= f.left ==> NoStick(log, NextFill(log, f)))
  }

  lemma {:induction false} StoreAllConcat(db: ChatDb, a: seq<Msg>, b: seq<Msg>)
    ensures StoreAll(db, a + b) == StoreAll(StoreAll(db, a), b)
    decreases |a|
  {
    if a == [] {
      assert a + b == b;
    } else {
      assert (a + b)[1..] == a[1..] + b;
      StoreAllConcat(StoreMessage(db, a[0], true), a[1..], b);
    }
  }

  /** Mid-run form: without a stuck page the loop stores the first of the remaining messages. */
  lemma {:induction false} TiedForwardRun(log: seq<Msg>, db: ChatDb, f: Fill)
    requires ByTime(log) && AtGroup(log, f) && NoStick(log, f)
    ensures ForwardRun(log, db, f) == StoreAll(db, Take(Remaining(log, f), f.left))
    decreases f.left
  {
    hide PageAdvances, Remaining, Below, UpperEnd, FetchForward, ForwardRun, AtGroup, Shown, StoreAll;
    AtGroupIs(log, f);
    ForwardUnfolds(log, db, f);
    if f.left == 0 {
      assert Take(Remaining(log, f), 0) == [] && StoreAll(db, []) == db by { StoreNothing(db); }
    } else if Remaining(log, f) == [] {
      NothingFetches(log, f);
      ForwardUnfolds(log, db, f.(ended := true));
      StoreNothing(db);
    } else {
      PastFetches(log, f);
      var g := FetchForward(log, f);
      PageStored(log, db, g);
      SameRemaining(log, g, NextFill(log, f));
      TiedForwardRun(log, StoreAll(db, g.rest), NextFill(log, f));
      var more := Remaining(log, g);
      TakeConcat(g.rest, more, f.left);
      StoreAllConcat(db, g.rest, Take(more, f.left - |g.rest|));
    }
  }

  lemma AtGroupIs(log: seq<Msg>, f: Fill)
    requires AtGroup(log, f)
    ensures f.rest == [] && !f.ended
  {
  }

  lemma SameRemaining(log: seq<Msg>, f: Fill, g: Fill)
    requires f.pos == g.pos && f.seen == g.seen
    ensures Remaining(log, f) == Remaining(log, g)
    ensures AtGroup(log, f.(rest := [])) && g.rest == [] && !g.ended ==> AtGroup(log, g)
  {
    if AtGroup(log, f.(rest := [])) && g.rest == [] && !g.ended {
      var w :| IsSeen(log, f.(rest := []), w);
      assert IsSeen(log, g, w);
    }
  }

  lemma StoreNothing(db: ChatDb)
    ensures StoreAll(db, []) == db
  {
  }

  lemma TakeConcat<T>(a: seq<T>, b: seq<T>, n: nat)
    requires |a| <= n
    ensures Take(a + b, n) == a + Take(b, n - |a|)
  {
  }

  /** Stores that never go back in time leave the newest cursor at the time of the last one. */
  lemma {:induction false} StoreAllRising(db: ChatDb, ms: seq<Msg>)
    requires db.row.Some? && db.row.value.newest.Some? && SortedBy(ms, TimeOf)
    requires ms != [] ==> db.row.value.newest.value.time <= ms[0].time
    ensures var d := StoreAll(db, ms);
            && d.row.Some? && d.row.value.newest.Some? && d.row.value.oldest == db.row.value.oldest
            && d.row.value.newest.value.time
               == if ms == [] then db.row.value.newest.value.time else ms[|ms| - 1].time
    decreases |ms|
  {
    if ms != [] {
      if |ms| > 1 {
        assert TimeOf(ms[0]) <= TimeOf(ms[1]);
      }
      assert SortedBy(ms[1..], TimeOf);
      StoreAllRising(StoreMessage(db, ms[0], true), ms[1..]);
    }
  }

  lemma RemainingSorted(log: seq<Msg>, f: Fill)
    requires ByTime(log)
    ensures SortedBy(Remaining(log, f), TimeOf)
    ensures forall m | m in Remaining(log, f) :: f.pos <= m.time
  {
    ByTimeSorted(log, 0, |log|);
    assert log[0..|log|] == log;
    FilterKeepsOrder(log, IsNewer(f.pos, f.seen));
    FilterIn(log, IsNewer(f.pos, f.seen));
  }

  lemma StartsAtGroup(log: seq<Msg>, i: nat, limit: nat)
    requires ByTime(log) && i < |log|
    ensures AtGroup(log, StartForward(log[i], limit))
  {
    var f := StartForward(log[i], limit);
    assert IsSeen(log, f, i);
    forall j | 0 <= j < |log| && log[j].id in f.seen
      ensures log[j].time == f.pos
    {
      SameId(log, i, j);
    }
  }

  /** The time of the last message a fill of R with this limit stores. */
  function LastTime(start: int, r: seq<Msg>, limit: nat): int {
    var n := Min(|r|, limit);
    if n <= 0 then start else r[n - 1].time
  }

  // ---------------------------------------------------------------------------
  // Runs with stuck pages
  // ---------------------------------------------------------------------------

  /** The page holds nothing beyond the cursor's own group. */
  predicate InGroup(log: seq<Msg>, f: Fill) {
    UpperEnd(log, f) <= Below(log, f.pos + 1)
  }

  /** How many of the remaining messages the loop takes: page by page, and no more after one within the group. */
  function Gets(log: seq<Msg>, f: Fill): nat
    decreases f.left
  {
    if f.left == 0 then 0
    else
      var n := |FetchForward(log, f).rest|;
      n + if !InGroup(log, f) && 0 < n <= f.left then Gets(log, NextFill(log, f)) else 0
  }

  lemma {:induction false} LatestOfOneTime(ms: seq<Msg>, t: int)
    requires ms != [] && forall m | m in ms :: m.time == t
    ensures Latest(ms) == t
  {
    var n := |ms| - 1;
    assert ms[n] in ms;
    if n > 0 {
      LatestOfOneTime(ms[..n], t);
    }
  }

  lemma InPage(log: seq<Msg>, f: Fill, m: Msg)
    requires ByTime(log) && InGroup(log, f) && m in log[Below(log, f.pos)..UpperEnd(log, f)]
    ensures m.time == f.pos && m in log
  {
    hide Below;
    BelowCounts(log, f.pos);
    BelowCounts(log, f.pos + 1);
    var u := Below(log, f.pos);
    var i :| 0 <= i < UpperEnd(log, f) - u && log[u..UpperEnd(log, f)][i] == m;
    assert log[u + i] == m;
  }

  /** A page within the group, whatever was seen: messages of the group, up to the page's end. */
  lemma GroupFetches(log: seq<Msg>, f: Fill)
    requires ByTime(log) && InGroup(log, f) && f.rest == []
    ensures var g := FetchForward(log, f);
            && g.pos == f.pos && g.left == f.left && |g.rest| <= f.left
            && forall m | m in g.rest :: m.time == f.pos && m in log[Below(log, f.pos)..UpperEnd(log, f)]
  {
    hide Below, UpperEnd, Filter, Sort, Latest, InGroup;
    var page := log[Below(log, f.pos)..UpperEnd(log, f)];
    assert page == HistoryForward(log, f.pos, PageSize(f.left, true)) by { PageIs(log, f); }
    var newer := Newer(page, f.pos, f.seen);
    FetchUnfolds(log, f);
    FilterIn(page, IsNewer(f.pos, f.seen));
    forall m | m in page
      ensures m.time == f.pos
    {
      InPage(log, f, m);
    }
    if newer != [] {
      LatestOfOneTime(newer, f.pos);
      SortKeeps(newer, TimeOf);
      SameElements(Sort(newer, TimeOf), newer);
    }
  }

  lemma PageIs(log: seq<Msg>, f: Fill)
    ensures HistoryForward(log, f.pos, PageSize(f.left, true)) == log[Below(log, f.pos)..UpperEnd(log, f)]
  {
  }

  /** Messages that are not newer leave the row alone. */
  lemma {:induction false} StoreAllLevel(db: ChatDb, ms: seq<Msg>)
    requires db.row.Some? && db.row.value.newest.Some?
    requires forall m | m in ms :: m.time <= db.row.value.newest.value.time
    ensures StoreAll(db, ms).row == db.row
    decreases |ms|
  {
    if ms != [] {
      StoreAllLevel(StoreMessage(db, ms[0], true), ms[1..]);
    }
  }

  predicate NewestAt(row: Option<Row>, t: int) {
    row.Some? && row.value.newest.Some? && row.value.newest.value.time == t
  }

  /**
   Once a page lies within the group the position never moves again, and no later page reaches
   past its end: the messages left get fewer, and the pages no larger.
   */
  lemma {:induction false} GroupRun(log: seq<Msg>, db: ChatDb, f: Fill, end: nat)
    requires ByTime(log) && f.rest == [] && InGroup(log, f) && UpperEnd(log, f) <= end <= |log|
    requires NewestAt(db.row, f.pos)
    ensures var d := ForwardRun(log, db, f);
            && Below(log, f.pos) <= end && d.row == db.row
            && db.stored <= d.stored <= db.stored + Messages(log[Below(log, f.pos)..end])
    decreases f.left, if f.ended then 0 else 1
  {
    hide ForwardRun, FetchForward, Below, StoreAll;
    ForwardUnfolds(log, db, f);
    if f.left > 0 && !f.ended {
      var g := FetchForward(log, f);
      var next := g.(rest := [], left := f.left - |g.rest|);
      GroupFetches(log, f);
      PageStored(log, db, g);
      StoreAllStores(db, g.rest);
      StoreAllLevel(db, g.rest);
      GroupRun(log, StoreAll(db, g.rest), next, end);
      forall m | m in g.rest
        ensures m in log[Below(log, f.pos)..end]
      {
        PagePart(log, Below(log, f.pos), UpperEnd(log, f), end, m);
      }
    }
  }

  lemma PagePart(log: seq<Msg>, a: nat, b: nat, c: nat, m: Msg)
    requires a <= b <= c <= |log| && m in log[a..b]
    ensures m in log[a..c]
  {
    var i :| 0 <= i < b - a && log[a..b][i] == m;
    assert log[a..c][i] == m;
  }

  /** The messages at the cursor that count as seen. */
  function SeenAt(log: seq<Msg>, f: Fill): set<Msg> {
    set m | m in log && m.id in f.seen
  }

  /** From db the loop takes the first Gets of the remaining messages; beside them it can only repeat seen ones. */
  ghost predicate RunGets(log: seq<Msg>, db: ChatDb, f: Fill, d: ChatDb)
    requires db.row.Some?
  {
    var r, n := Remaining(log, f), Gets(log, f);
    && n <= |r| && n <= f.left
    && db.stored + Messages(Take(r, n)) <= d.stored <= db.stored + Messages(Take(r, n)) + SeenAt(log, f)
    && NewestAt(d.row, LastTime(f.pos, r, n)) && d.row.value.oldest == db.row.value.oldest
  }

  /** A page within the group takes the first of the remaining messages, and the rest of the run adds none. */
  lemma StuckRun(log: seq<Msg>, db: ChatDb, f: Fill)
    requires ByTime(log) && AtGroup(log, f) && f.left > 0 && InGroup(log, f) && NewestAt(db.row, f.pos)
    ensures RunGets(log, db, f, ForwardRun(log, db, f))
  {
    hide ForwardRun, FetchForward, Below, StoreAll, Shown, Remaining, UpperEnd, InGroup, Messages, SeenAt;
    AtGroupIs(log, f);
    StuckPage(log, f);
    var g, shown := FetchForward(log, f), Shown(log, f);
    var next := g.(rest := [], left := f.left - |g.rest|);
    ForwardUnfolds(log, db, f);
    PageStored(log, db, g);
    StoreAllStores(db, g.rest);
    GroupFetches(log, f);
    StoreAllLevel(db, g.rest);
    assert Gets(log, f) == |g.rest|;
    if next.left == 0 {
      ForwardUnfolds(log, StoreAll(db, g.rest), next);
    } else {
      SmallerPage(log, f, next);
      GroupRun(log, StoreAll(db, g.rest), next, UpperEnd(log, f));
      PageIsSeen(log, f);
    }
  }

  /** A page taken later from the same position ends no later. */
  lemma SmallerPage(log: seq<Msg>, f: Fill, g: Fill)
    requires InGroup(log, f) && g.pos == f.pos && g.left <= f.left
    ensures InGroup(log, g) && UpperEnd(log, g) <= UpperEnd(log, f)
  {
  }

  lemma StuckPage(log: seq<Msg>, f: Fill)
    requires ByTime(log) && AtGroup(log, f) && f.left > 0 && InGroup(log, f)
    ensures var g, r := FetchForward(log, f), Remaining(log, f);
            && g.rest == Take(Shown(log, f), f.left) && g.pos == f.pos && g.left == f.left
            && |g.rest| <= |r| && Take(r, |g.rest|) == g.rest
            && LastTime(f.pos, r, |g.rest|) == f.pos
  {
    hide Below, Shown, Remaining, UpperEnd, Sort, Filter;
    FetchUnfolds(log, f);
    ShownIs(log, f);
    StuckShows(log, f);
    var g, r, shown := FetchForward(log, f), Remaining(log, f), Shown(log, f);
    if shown != [] {
      LatestOfOneTime(shown, f.pos);
      assert forall j | 0 <= j < |g.rest| :: r[j] == shown[j];
    }
  }

  /** What such a page shows, or had seen. */
  lemma PageIsSeen(log: seq<Msg>, f: Fill)
    requires ByTime(log) && AtGroup(log, f) && f.left > 0 && InGroup(log, f)
    ensures Messages(log[Below(log, f.pos)..UpperEnd(log, f)]) <= Messages(Shown(log, f)) + SeenAt(log, f)
  {
    hide Below, UpperEnd, Filter, InGroup;
    var page := log[Below(log, f.pos)..UpperEnd(log, f)];
    FilterIn(page, IsNewer(f.pos, f.seen));
    forall m | m in page
      ensures m in Shown(log, f) || m in SeenAt(log, f)
    {
      InPage(log, f, m);
    }
  }

  /** A page past the group takes the next of the remaining messages, and the loop goes on behind them. */
  lemma PastGets(log: seq<Msg>, f: Fill)
    requires ByTime(log) && AtGroup(log, f) && f.left > 0 && !InGroup(log, f)
    ensures var g, n := FetchForward(log, f), NextFill(log, f);
            && n.left == f.left - |g.rest| && AtGroup(log, n) && g.rest != [] && |g.rest| <= f.left
            && Gets(log, f) == |g.rest| + Gets(log, n) && Remaining(log, f) == g.rest + Remaining(log, n)
  {
    hide FetchForward, Below, Shown, Remaining, UpperEnd, PageAdvances;
    PastFetches(log, f);
    SameRemaining(log, FetchForward(log, f), NextFill(log, f));
  }

  /** A page past the group takes all it shows, and what is seen then has been taken. */
  lemma PastRun(log: seq<Msg>, db: ChatDb, f: Fill)
    requires ByTime(log) && AtGroup(log, f) && f.left > 0 && !InGroup(log, f) && NewestAt(db.row, f.pos)
    ensures var g, n := FetchForward(log, f), NextFill(log, f);
            && n.left == f.left - |g.rest| && AtGroup(log, n) && NewestAt(StoreAll(db, g.rest).row, n.pos)
            && StoreAll(db, g.rest).row.value.oldest == db.row.value.oldest
            && ForwardRun(log, db, f) == ForwardRun(log, StoreAll(db, g.rest), n)
            && Gets(log, f) == |g.rest| + Gets(log, n) && |g.rest| <= f.left
            && Remaining(log, f) == g.rest + Remaining(log, n)
            && SeenAt(log, n) <= Messages(g.rest)
            && g.rest != [] && g.rest[|g.rest| - 1].time == n.pos
  {
    hide ForwardRun, FetchForward, Below, StoreAll, Shown, Remaining, UpperEnd, Messages, SeenAt, PageAdvances;
    AtGroupIs(log, f);
    var g, n := FetchForward(log, f), NextFill(log, f);
    PastFetches(log, f);
    ForwardUnfolds(log, db, f);
    PageStored(log, db, g);
    SameRemaining(log, g, n);
    RestRises(log, f, g.rest, Remaining(log, g));
    StoreAllRising(db, g.rest);
    PastSeen(log, f);
  }

  lemma TakeSorted(ms: seq<Msg>, n: nat)
    requires SortedBy(ms, TimeOf)
    ensures SortedBy(Take(ms, n), TimeOf)
  {
  }

  lemma RestRises(log: seq<Msg>, f: Fill, a: seq<Msg>, b: seq<Msg>)
    requires ByTime(log) && Remaining(log, f) == a + b && a != []
    ensures SortedBy(a, TimeOf) && f.pos <= a[0].time
  {
    hide Remaining;
    RemainingSorted(log, f);
    assert Take(a + b, |a|) == a;
    TakeSorted(a + b, |a|);
    assert (a + b)[0] == a[0] && (a + b)[0] in Remaining(log, f);
  }

  lemma PastSeen(log: seq<Msg>, f: Fill)
    requires ByTime(log) && AtGroup(log, f) && f.left > 0 && !InGroup(log, f)
    ensures SeenAt(log, NextFill(log, f)) <= Messages(FetchForward(log, f).rest)
  {
    hide FetchForward, Below, Shown, UpperEnd, InGroup;
    assert Below(log, f.pos + 1) < UpperEnd(log, f) by { OutOfGroup(log, f); }
    PastFetches(log, f);
    ShownOnly(log, f);
    var g := FetchForward(log, f);
    forall m | m in log && m.id in g.seen
      ensures m in g.rest
    {
      var i :| 0 <= i < |log| && log[i] == m;
      var x :| x in Shown(log, f) && x.id == m.id;
      var j :| Below(log, f.pos) <= j < UpperEnd(log, f) && log[j] == x;
      SameId(log, i, j);
    }
  }

  lemma OutOfGroup(log: seq<Msg>, f: Fill)
    requires !InGroup(log, f)
    ensures Below(log, f.pos + 1) < UpperEnd(log, f)
  {
  }

  /** The whole loop, stuck or not, takes exactly the first Gets of the remaining messages. */
  lemma {:induction false} TiedRunGets(log: seq<Msg>, db: ChatDb, f: Fill)
    requires ByTime(log) && AtGroup(log, f) && NewestAt(db.row, f.pos)
    ensures RunGets(log, db, f, ForwardRun(log, db, f))
    decreases f.left
  {
    hide ForwardRun, FetchForward, Below, StoreAll, Shown, Remaining, UpperEnd, InGroup, Messages, SeenAt, AtGroup,
         NextFill;
    AtGroupIs(log, f);
    if f.left == 0 {
      ForwardUnfolds(log, db, f);
      NothingGot(log, db, f);
    } else if InGroup(log, f) {
      StuckRun(log, db, f);
    } else {
      var g, n := FetchForward(log, f), NextFill(log, f);
      PastRun(log, db, f);
      TiedRunGets(log, StoreAll(db, g.rest), n);
      StoreAllStores(db, g.rest);
      GetsJoin(log, db, f, n, g.rest, ForwardRun(log, db, f));
    }
  }

  lemma NothingGot(log: seq<Msg>, db: ChatDb, f: Fill)
    requires f.left == 0 && NewestAt(db.row, f.pos)
    ensures RunGets(log, db, f, db)
  {
    hide Remaining;
  }

  lemma GetsJoin(log: seq<Msg>, db: ChatDb, f: Fill, n: Fill, rest: seq<Msg>, d: ChatDb)
    requires db.row.Some? && StoreAll(db, rest).row.Some?
    requires StoreAll(db, rest).row.value.oldest == db.row.value.oldest
    requires StoreAll(db, rest).stored == db.stored + Messages(rest)
    requires RunGets(log, StoreAll(db, rest), n, d)
    requires Gets(log, f) == |rest| + Gets(log, n) && n.left + |rest| <= f.left
    requires Remaining(log, f) == rest + Remaining(log, n) && SeenAt(log, n) <= Messages(rest)
    requires rest != [] && rest[|rest| - 1].time == n.pos
    ensures RunGets(log, db, f, d)
  {
    hide StoreAll, Remaining, Gets, SeenAt, LastTime;
    var r, k := Remaining(log, n), Gets(log, n);
    TakeConcat(rest, r, |rest| + k);
    MessagesJoin(rest, Take(r, k));
    LastJoins(f.pos, n.pos, rest, r, k);
  }

  lemma MessagesJoin(a: seq<Msg>, b: seq<Msg>)
    ensures Messages(a + b) == Messages(a) + Messages(b)
  {
  }

  lemma LastJoins(start: int, top: int, a: seq<Msg>, b: seq<Msg>, k: nat)
    requires a != [] && a[|a| - 1].time == top && k <= |b|
    ensures LastTime(start, a + b, |a| + k) == LastTime(top, b, k)
  {
  }

  // ---------------------------------------------------------------------------
  // The results for a chat's row
  // ---------------------------------------------------------------------------

  /**
   The forward loop with equal times is exact: of the k messages that are newer than the
   cursor or share its time it stores the first Gets, and the newest cursor ends at the
   time of the last one. If no page is stuck, that is the first min(L, k).
   */
  lemma ForwardExactTied(log: seq<Msg>, db: ChatDb, i: nat, limit: nat)
    requires ByTime(log) && i < |log| && db.row.Some? && db.row.value.newest == Some(log[i])
    ensures var f := StartForward(log[i], limit);
            var r, n, d := Remaining(log, f), Gets(log, f), ForwardRun(log, db, f);
            && n <= |r| && n <= limit
            && db.stored + Messages(Take(r, n)) <= d.stored <= db.stored + Messages(Take(r, n)) + {log[i]}
            && d.row.Some? && d.row.value.newest.Some? && d.row.value.oldest == db.row.value.oldest
            && d.row.value.newest.value.time == LastTime(log[i].time, r, n)
            && (NoStick(log, f) ==> n == Min(|r|, limit) && d.stored == db.stored + Messages(Take(r, limit)))
  {
    hide ForwardRun, StoreAll, Remaining, NoStick, AtGroup, ByTime, Messages, Gets;
    var f := StartForward(log[i], limit);
    StartsAtGroup(log, i, limit);
    TiedRunGets(log, db, f);
    StartSees(log, i, limit);
    if NoStick(log, f) {
      TiedForwardRun(log, db, f);
      StoreAllStores(db, Take(Remaining(log, f), limit));
      UnstuckGets(log, f);
    }
  }

  lemma StartSees(log: seq<Msg>, i: nat, limit: nat)
    requires ByTime(log) && i < |log|
    ensures SeenAt(log, StartForward(log[i], limit)) == {log[i]}
  {
    forall m | m in log && m.id == log[i].id
      ensures m == log[i]
    {
      var j :| 0 <= j < |log| && log[j] == m;
      SameId(log, i, j);
    }
  }

  /** Without a stuck page the loop takes all that remains, or as much as the limit lets it. */
  lemma {:induction false} UnstuckGets(log: seq<Msg>, f: Fill)
    requires ByTime(log) && AtGroup(log, f) && NoStick(log, f)
    ensures Gets(log, f) == Min(|Remaining(log, f)|, f.left)
    decreases f.left
  {
    hide FetchForward, Below, Remaining, UpperEnd, AtGroup, PageAdvances;
    AtGroupIs(log, f);
    if f.left > 0 {
      if Remaining(log, f) == [] {
        NothingFetches(log, f);
      } else {
        PastFetches(log, f);
        SameRemaining(log, FetchForward(log, f), NextFill(log, f));
        UnstuckGets(log, NextFill(log, f));
      }
    }
  }

  /** What a newest cursor promises after a forward fill: all that remained up to it is stored. */
  ghost predicate ForwardPromise(r: seq<Msg>, d: ChatDb)
    requires d.row.Some? && d.row.value.newest.Some?
  {
    forall m | m in r && m.time <= d.row.value.newest.value.time :: m in d.stored
  }

  /** The n-th of the remaining messages, and those of its time behind it, are above the new cursor or known. */
  ghost predicate EndsBetweenTimes(start: int, r: seq<Msg>, n: nat, stored: set<Msg>) {
    forall j | n <= j < |r| && r[j].time <= LastTime(start, r, n) :: r[j] in stored
  }

  /**
   The forward loop keeps the promise "everything up to here" if and only if the messages it
   takes do not end inside a group of equal times whose rest is unknown.
   */
  lemma ForwardKeepsIff(log: seq<Msg>, db: ChatDb, i: nat, limit: nat)
    requires ByTime(log) && i < |log| && db.row.Some? && db.row.value.newest == Some(log[i])
    ensures var f := StartForward(log[i], limit);
            var r, n, d := Remaining(log, f), Gets(log, f), ForwardRun(log, db, f);
            && n <= |r| && n <= limit && d.row.Some? && d.row.value.newest.Some?
            && (ForwardPromise(r, d) <==> EndsBetweenTimes(log[i].time, r, n, db.stored))
  {
    hide ForwardRun, Remaining, NoStick, ByTime, Gets, Messages;
    var f := StartForward(log[i], limit);
    var r, n, d := Remaining(log, f), Gets(log, f), ForwardRun(log, db, f);
    ForwardExactTied(log, db, i, limit);
    StoredOfRemaining(log, db, i, limit);
    if ForwardPromise(r, d) {
      forall j | n <= j < |r| && r[j].time <= LastTime(log[i].time, r, n)
        ensures r[j] in db.stored
      {
        assert r[j] in r;
      }
    } else {
      var m :| m in r && m.time <= d.row.value.newest.value.time && m !in d.stored;
      var j :| 0 <= j < |r| && r[j] == m;
    }
  }

  /** Of the remaining messages exactly the first Gets and those known before are stored. */
  lemma StoredOfRemaining(log: seq<Msg>, db: ChatDb, i: nat, limit: nat)
    requires ByTime(log) && i < |log| && db.row.Some? && db.row.value.newest == Some(log[i])
    ensures var f := StartForward(log[i], limit);
            var r, n, d := Remaining(log, f), Gets(log, f), ForwardRun(log, db, f);
            forall j | 0 <= j < |r| :: r[j] in d.stored <==> j < n || r[j] in db.stored
  {
    hide ForwardRun, Remaining, NoStick, ByTime, Gets;
    var f := StartForward(log[i], limit);
    var r, n := Remaining(log, f), Gets(log, f);
    ForwardExactTied(log, db, i, limit);
    RemainingDistinct(log, f);
    var taken := Take(r, n);
    forall j | 0 <= j < |r|
      ensures r[j] in taken <==> j < n
      ensures r[j] != log[i]
    {
      assert r[j] in r;
      RemainingIn(log, f, r[j]);
      if j < n {
        assert taken[j] == r[j];
      } else {
        assert forall x | 0 <= x < |taken| :: taken[x] == r[x];
      }
    }
  }

  /**
   Marking a chat caught up after the loop, with equal times: nothing that remained is missing
   if and only if the loop takes it all, or the rest was known.
   */
  lemma CaughtUpIffAllTaken(log: seq<Msg>, db: ChatDb, i: nat, limit: nat)
    requires ByTime(log) && i < |log| && db.row.Some? && db.row.value.newest == Some(log[i])
    ensures var f := StartForward(log[i], limit);
            var r, n, d := Remaining(log, f), Gets(log, f), ForwardRun(log, db, f);
            && ((forall m | m in r :: m in d.stored) <==> forall j | n <= j < |r| :: r[j] in db.stored)
            && ((forall m | m in r :: m !in db.stored) ==> ((forall m | m in r :: m in d.stored) <==> n == |r|))
  {
    hide ForwardRun, Remaining, NoStick, ByTime, Gets, Messages;
    var f := StartForward(log[i], limit);
    var r, n, d := Remaining(log, f), Gets(log, f), ForwardRun(log, db, f);
    ForwardExactTied(log, db, i, limit);
    StoredOfRemaining(log, db, i, limit);
    forall j | 0 <= j < |r|
      ensures r[j] in r
    {
    }
    if n < |r| {
      assert r[n] in r;
    }
  }

  /** Every group of equal times has at most g messages. */
  ghost predicate GroupsWithin(log: seq<Msg>, g: nat) {
    forall t :: Below(log, t + 1) - Below(log, t) <= g
  }

  /**
   What a caller can rely on: with groups smaller than a page, a gap is taken whole if it fits
   the limit with the size of the largest group, less one, to spare. With single messages
   this is the gap that just fits.
   */
  lemma {:induction false} SmallGroupsAllTaken(log: seq<Msg>, f: Fill, g: nat)
    requires ByTime(log) && AtGroup(log, f) && GroupsWithin(log, g) && g < PAGE_SIZE
    requires |Remaining(log, f)| + g <= f.left + 1
    ensures Gets(log, f) == |Remaining(log, f)|
    decreases f.left
  {
    hide FetchForward, Below, Remaining, AtGroup, Gets, GroupsWithin, UpperEnd, InGroup, NextFill;
    SomeGroup(log, f, g);
    if f.left == 0 {
      NothingLeft(log, f);
    } else if InGroup(log, f) {
      LastGroup(log, f, g);
      AllShown(log, f);
    } else {
      PastGets(log, f);
      SmallGroupsAllTaken(log, NextFill(log, f), g);
    }
  }

  lemma NothingLeft(log: seq<Msg>, f: Fill)
    requires f.left == 0
    ensures Gets(log, f) == 0
  {
  }

  /** A page that reaches the end of the history shows all that remains. */
  lemma AllShown(log: seq<Msg>, f: Fill)
    requires ByTime(log) && AtGroup(log, f) && f.left > 0 && InGroup(log, f) && UpperEnd(log, f) == |log|
    ensures Gets(log, f) == Min(|Remaining(log, f)|, f.left)
  {
    hide FetchForward, Below, Remaining, AtGroup, Shown;
    StuckPage(log, f);
    ShownIs(log, f);
    assert log[|log|..] == [];
  }

  lemma SomeGroup(log: seq<Msg>, f: Fill, g: nat)
    requires ByTime(log) && AtGroup(log, f) && GroupsWithin(log, g)
    ensures g > 0
  {
    hide Below, AtGroup;
    GroupIs(log, f);
    assert Below(log, f.pos + 1) - Below(log, f.pos) <= g;
  }

  /** With room to spare a page lies within its group only if nothing is behind the group. */
  lemma LastGroup(log: seq<Msg>, f: Fill, g: nat)
    requires ByTime(log) && AtGroup(log, f) && GroupsWithin(log, g) && g < PAGE_SIZE
    requires |Remaining(log, f)| + g <= f.left + 1 && f.left > 0 && InGroup(log, f)
    ensures UpperEnd(log, f) == |log|
  {
    hide Below, Remaining, AtGroup;
    GroupIs(log, f);
    var u, k := Below(log, f.pos), Below(log, f.pos + 1);
    assert k - u <= g;
    if k < |log| {
      RemainingIn(log, f, log[k]);
      assert log[k] in Remaining(log, f);
    }
  }

  lemma RemainingDistinct(log: seq<Msg>, f: Fill)
    requires ByTime(log)
    ensures Distinct(Remaining(log, f))
  {
    forall i, j | 0 <= i < j < |log|
      ensures log[i] != log[j]
    {
      IdsDiffer(log, i, j);
    }
    FilterDistinct(log, IsNewer(f.pos, f.seen));
  }

  /** With strictly growing times no page is stuck. */
  lemma {:induction false} OrderedNeverSticks(log: seq<Msg>, f: Fill)
    requires Ordered(log) && AtGroup(log, f)
    ensures NoStick(log, f)
    decreases f.left
  {
    hide PageAdvances, Below, UpperEnd, FetchForward, AtGroup, Shown, Remaining;
    OrderedIsByTime(log);
    if f.left > 0 {
      if Remaining(log, f) == [] {
        AtGroupIs(log, f);
        NothingFetches(log, f);
      } else {
        OrderedReaches(log, f);
        PastFetches(log, f);
        var g := FetchForward(log, f);
        SameRemaining(log, g, NextFill(log, f));
        OrderedNeverSticks(log, NextFill(log, f));
      }
    }
  }

  lemma OrderedReaches(log: seq<Msg>, f: Fill)
    requires Ordered(log) && ByTime(log) && AtGroup(log, f) && f.left > 0 && Remaining(log, f) != []
    ensures Below(log, f.pos + 1) < UpperEnd(log, f)
  {
    hide Below, Filter;
    GroupIs(log, f);
    var u, k := Below(log, f.pos), Below(log, f.pos + 1);
    if u + 1 < k {
      OrderStrict(log, u, u + 1);
    }
    assert k == u + 1;
    var w :| IsSeen(log, f, w) && u <= w < k;
    assert w == u && !IsNewer(f.pos, f.seen)(log[u]);
    var m := Remaining(log, f)[0];
    RemainingIn(log, f, m);
    assert m in Remaining(log, f);
    var i :| 0 <= i < |log| && log[i] == m;
    assert i >= k;
  }
}
