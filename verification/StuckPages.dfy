/**
 Two histories on which the gap fill stops short although the gap fits its limit: a group of
 equal times as large as a page, and a last page that the limit has shrunk to a pair of
 messages with one time.
 */
module StuckPages {
  import opened Wrappers
  import opened Seqs
  import opened MaxHistory
  import opened TiedBackward
  import opened TiedForward

  lemma BelowIsTied(log: seq<Msg>, t: int, k: nat)
    requires ByTime(log) && k <= |log|
    requires 0 < k ==> log[k - 1].time < t
    requires k < |log| ==> t <= log[k].time
    ensures Below(log, t) == k
  {
    hide Below;
    BelowCounts(log, t);
  }

  /** Between two pages: all of log[..e] is taken, and log[e - 1] is the only message of its time. */
  ghost predicate TakenUpTo(log: seq<Msg>, f: Fill, e: nat) {
    && AtGroup(log, f) && 0 < e <= |log| && Remaining(log, f) == log[e..]
    && Below(log, f.pos) == e - 1 && Below(log, f.pos + 1) == e
  }

  lemma StartTaken(log: seq<Msg>, limit: nat)
    requires ByTime(log) && log != [] && (|log| > 1 ==> log[0].time < log[1].time)
    ensures TakenUpTo(log, StartForward(log[0], limit), 1)
  {
    hide Below, AtGroup, Filter, ByTime;
    var f := StartForward(log[0], limit);
    StartsAtGroup(log, 0, limit);
    BelowIsTied(log, f.pos, 0);
    BelowIsTied(log, f.pos + 1, 1);
    var p := IsNewer(f.pos, f.seen);
    assert log == [log[0]] + log[1..];
    FilterFirst(log[0], log[1..], p);
    AllNewer(log, f, 1, |log|);
    assert log[1..|log|] == log[1..];
  }

  lemma AllButFirst(log: seq<Msg>, limit: nat)
    requires ByTime(log) && log != [] && (|log| > 1 ==> log[0].time < log[1].time)
    ensures |Remaining(log, StartForward(log[0], limit))| == |log| - 1
  {
    hide Below, AtGroup, Remaining, ByTime;
    StartTaken(log, limit);
  }

  /** A full page from there takes 99 messages. */
  lemma FullPage(log: seq<Msg>, f: Fill, e: nat)
    requires ByTime(log) && TakenUpTo(log, f, e) && e + 99 <= |log| && f.left >= 99
    ensures var n := NextFill(log, f);
            && n == Fill(log[e + 98].time, n.seen, f.left - 99, [], false) && AtGroup(log, n)
            && Remaining(log, n) == log[e + 99..] && Gets(log, f) == 99 + Gets(log, n)
  {
    hide Below, Filter, ByTime, FetchForward, Shown, Remaining, AtGroup, PageAdvances;
    AtGroupIs(log, f);
    assert UpperEnd(log, f) == e + 99;
    PastFetches(log, f);
    PastRemains(log, f);
    var g, n := FetchForward(log, f), NextFill(log, f);
    SameRemaining(log, g, n);
    SameRemaining(log, PastFill(log, f), n);
    assert |log[e..]| == |g.rest| + |log[e + 99..]|;
  }

  /** A page within the group takes no message of another time. */
  lemma NoneBeyond(log: seq<Msg>, f: Fill, j: nat)
    requires ByTime(log) && AtGroup(log, f) && f.left > 0 && InGroup(log, f)
    requires j < |Remaining(log, f)| && Remaining(log, f)[j].time != f.pos
    ensures Gets(log, f) <= j
  {
    hide Below, Shown, Remaining, AtGroup, FetchForward, UpperEnd, InGroup;
    AtGroupIs(log, f);
    StuckPage(log, f);
    GroupFetches(log, f);
    var g, r := FetchForward(log, f), Remaining(log, f);
    forall x | 0 <= x < |g.rest|
      ensures r[x].time == f.pos
    {
      assert Take(r, |g.rest|)[x] == r[x] && g.rest[x] in g.rest;
    }
  }

  // ---------------------------------------------------------------------------
  // A group as large as a page
  // ---------------------------------------------------------------------------

  /** One message, a hundred at one time, and one more. */
  function BigGroup(): (log: seq<Msg>)
    ensures |log| == 102 && log[0] == Msg(1, 1) && log[101] == Msg(102, 3)
    ensures forall j | 0 < j < 101 :: log[j] == Msg(j + 1, 2)
  {
    seq(102, j => Msg(j + 1, if j == 0 then 1 else if j == 101 then 3 else 2))
  }

  /** The loop takes the hundred, over and over, and never the one behind them. */
  lemma BigGroupStops(limit: nat)
    requires limit >= 100
    ensures ByTime(BigGroup()) && Gets(BigGroup(), StartForward(Msg(1, 1), limit)) <= 100
  {
    hide Below, Gets, NextFill, AtGroup, Remaining;
    var log := BigGroup();
    assert ByTime(log);
    var f := StartForward(Msg(1, 1), limit);
    StartTaken(log, limit);
    FullPage(log, f, 1);
    var n := NextFill(log, f);
    assert n.pos == 2;
    BelowIsTied(log, 2, 1);
    BelowIsTied(log, 3, 101);
    assert InGroup(log, n);
    assert log[100..][1] == log[101];
    NoneBeyond(log, n, 1);
  }

  // ---------------------------------------------------------------------------
  // A pair at the end of a gap that just fits
  // ---------------------------------------------------------------------------

  /** The gap is CATCHUP_LIMIT messages; of these only the two before the last have one time. */
  function TiedTail(): (log: seq<Msg>)
    ensures |log| == CATCHUP_LIMIT + 1
    ensures forall j | 0 <= j < |log| :: log[j] == Msg(j + 1, if j == CATCHUP_LIMIT - 1 then j else j + 1)
  {
    seq(CATCHUP_LIMIT + 1, j => Msg(j + 1, if j == CATCHUP_LIMIT - 1 then j else j + 1))
  }

  lemma TailByTime()
    ensures ByTime(TiedTail())
  {
  }

  /** 101 full pages take all but one message; the last page, of two, shows the pair again, and nothing new. */
  lemma {:induction false} TailFrom(f: Fill, e: nat)
    requires TakenUpTo(TiedTail(), f, e) && e <= CATCHUP_LIMIT - 99 && e % 99 == 1
    requires f.left == CATCHUP_LIMIT + 1 - e
    ensures Gets(TiedTail(), f) == CATCHUP_LIMIT - e
    decreases f.left
  {
    hide Below, Gets, NextFill, AtGroup, Remaining, ByTime, TiedTail;
    var log := TiedTail();
    TailByTime();
    FullPage(log, f, e);
    var n := NextFill(log, f);
    if e + 99 <= CATCHUP_LIMIT - 99 {
      BelowIsTied(log, n.pos, e + 98);
      BelowIsTied(log, n.pos + 1, e + 99);
      TailFrom(n, e + 99);
    } else {
      BelowIsTied(log, n.pos, CATCHUP_LIMIT - 2);
      BelowIsTied(log, n.pos + 1, CATCHUP_LIMIT);
      assert InGroup(log, n);
      assert log[CATCHUP_LIMIT..][0] == log[CATCHUP_LIMIT];
      NoneBeyond(log, n, 0);
    }
  }

  lemma TiedTailStops()
    ensures ByTime(TiedTail())
    ensures Gets(TiedTail(), StartForward(Msg(1, 1), CATCHUP_LIMIT)) == CATCHUP_LIMIT - 1
  {
    hide Gets, ByTime;
    TailByTime();
    StartTaken(TiedTail(), CATCHUP_LIMIT);
    TailFrom(StartForward(Msg(1, 1), CATCHUP_LIMIT), 1);
  }
}
