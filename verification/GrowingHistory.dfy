/**
 The forward fill while the chat's history grows: every page is answered from the history of
 its own moment. The fill may be cut short anywhere, by a page that is not answered or by the
 end of its task.
 */
module GrowingHistory {
  import opened Wrappers
  import opened Seqs
  import opened MaxHistory
  import opened MaxBackward

  /** A chat's history at each moment; one page is asked for at each. */
  type History = nat -> seq<Msg>

  ghost predicate Grows(logs: History) {
    forall a: nat, b: nat | a <= b :: logs(a) <= logs(b)
  }

  ghost predicate AlwaysOrdered(logs: History) {
    forall a: nat :: Ordered(logs(a))
  }

  /** How a fill ends: what it left of the chat, when, with how much of its limit, and whether it got to its end. */
  datatype Filled = Filled(db: ChatDb, now: nat, left: nat, done: bool)

  /** When a fill is cut short. None: never; Some(n): after n pages and stores. */
  function Less(fails: Option<nat>): Option<nat> {
    if fails.Some? && fails.value > 0 then Some(fails.value - 1) else fails
  }

  function FillOver(logs: History, now: nat, db: ChatDb, f: Fill, fails: Option<nat>): Filled
    requires |f.rest| <= f.left
    decreases f.left, if f.rest == [] && !f.ended then 1 else 0
  {
    if fails == Some(0) then Filled(db, now, f.left, false)
    else if f.rest != [] then FillOver(logs, now, StoreMessage(db, f.rest[0], true), Stored(f), Less(fails))
    else if f.left == 0 || f.ended then Filled(db.(row := FinishBackfill(db.row, None)), now, f.left, true)
    else
      FetchFits(logs(now), f);
      FillOver(logs, now + 1, db, FetchForward(logs(now), f), Less(fails))
  }

  /** A history that stands still and no failure: the loop of MaxHistory. */
  lemma {:induction false} StandsStill(logs: History, now: nat, db: ChatDb, f: Fill)
    requires |f.rest| <= f.left && forall n: nat | now <= n :: logs(n) == logs(now)
    ensures var r := FillOver(logs, now, db, f, None);
            r.db == ForwardRun(logs(now), db, f) && r.done
    decreases f.left, if f.rest == [] && !f.ended then 1 else 0
  {
    hide FetchForward;
    if f.rest != [] {
      StandsStill(logs, now, StoreMessage(db, f.rest[0], true), Stored(f));
    } else if f.left > 0 && !f.ended {
      FetchFits(logs(now), f);
      StandsStill(logs, now + 1, db, FetchForward(logs(now), f));
    }
  }

  /** Mid-fill: log[..k] is taken, and the waiting part is the run right behind it. */
  ghost predicate TakenTo(log: seq<Msg>, f: Fill, k: nat) {
    && |f.rest| <= f.left && 0 < k && k + |f.rest| <= |log|
    && AtCursor(log, f, k + |f.rest| - 1) && f.rest == log[k..k + |f.rest|]
  }

  lemma TakenLater(log: seq<Msg>, more: seq<Msg>, f: Fill, k: nat)
    requires TakenTo(log, f, k) && log <= more
    ensures TakenTo(more, f, k)
  {
    assert more[k..k + |f.rest|] == log[k..k + |f.rest|];
  }

  /** A page takes up the run behind the cursor; it shows nothing new only if the history ends there. */
  lemma TakenPage(log: seq<Msg>, f: Fill, k: nat)
    requires Ordered(log) && TakenTo(log, f, k) && f.rest == [] && f.left > 0 && !f.ended
    ensures TakenTo(log, FetchForward(log, f), k) && FetchForward(log, f).left == f.left
    ensures FetchForward(log, f).ended ==> FetchForward(log, f).rest == [] && k == |log|
  {
    hide FetchForward;
    FetchForwardSpec(log, f, k - 1);
  }

  /**
   A fill against a growing history takes the messages in order, none skipped: the first n
   behind the cursor, in what the history is at its end. If it got to its end, n is its
   limit, or all that the server had when its last page was asked for. If not, it has
   taken the first n all the same.
   */
  lemma {:induction false} FillTakes(logs: History, now: nat, db: ChatDb, f: Fill, fails: Option<nat>, k: nat)
    requires Grows(logs) && AlwaysOrdered(logs) && TakenTo(logs(now), f, k)
    requires f.ended ==> f.rest == [] && now > 0 && k == |logs(now - 1)|
    ensures var r := FillOver(logs, now, db, f, fails);
            && now <= r.now && r.left <= f.left && k + f.left - r.left <= |logs(r.now)|
            && r.db == StoreAll(db, logs(r.now)[k..k + f.left - r.left])
            && (r.done && r.left > 0 ==> r.now > 0 && k + f.left - r.left == |logs(r.now - 1)|)
            && (r.done && f.rest == [] && f.left > 0 && !f.ended ==> now < r.now)
    decreases f.left, if f.rest == [] && !f.ended then 1 else 0
  {
    hide FetchForward, Ordered, StoreMessage, FillOver, StoreAll, TakenTo;
    TakenFits(logs(now), db, f, k);
    FillUnfolds(logs, now, db, f, fails);
    var r := FillOver(logs, now, db, f, fails);
    if fails != Some(0) && f.rest != [] {
      TakenStore(logs(now), f, k);
      FillTakes(logs, now, StoreMessage(db, f.rest[0], true), Stored(f), Less(fails), k + 1);
      StoredRun(logs, now, r.now, db, k, k + f.left - r.left);
    } else if fails != Some(0) && f.left > 0 && !f.ended {
      TakenPage(logs(now), f, k);
      assert logs(now) <= logs(now + 1);
      TakenLater(logs(now), logs(now + 1), FetchForward(logs(now), f), k);
      FillTakes(logs, now + 1, db, FetchForward(logs(now), f), Less(fails), k);
    }
  }

  lemma FillUnfolds(logs: History, now: nat, db: ChatDb, f: Fill, fails: Option<nat>)
    requires |f.rest| <= f.left
    ensures var r := FillOver(logs, now, db, f, fails);
            if fails == Some(0) then r == Filled(db, now, f.left, false)
            else if f.rest != [] then
              r == FillOver(logs, now, StoreMessage(db, f.rest[0], true), Stored(f), Less(fails))
            else if f.left == 0 || f.ended then r == Filled(db, now, f.left, true)
            else
              && |FetchForward(logs(now), f).rest| <= FetchForward(logs(now), f).left == f.left
              && (FetchForward(logs(now), f).rest == [] ==> FetchForward(logs(now), f).ended)
              && r == FillOver(logs, now + 1, db, FetchForward(logs(now), f), Less(fails))
  {
    if f.rest == [] && f.left > 0 && !f.ended {
      FetchFits(logs(now), f);
    }
  }

  lemma TakenFits(log: seq<Msg>, db: ChatDb, f: Fill, k: nat)
    requires TakenTo(log, f, k)
    ensures k <= |log| && |f.rest| <= f.left && StoreAll(db, log[k..k]) == db
  {
  }

  lemma StoredRun(logs: History, now: nat, end: nat, db: ChatDb, k: nat, upTo: nat)
    requires Grows(logs) && now <= end && k < |logs(now)| && k < upTo <= |logs(end)|
    ensures StoreAll(StoreMessage(db, logs(now)[k], true), logs(end)[k + 1..upTo]) == StoreAll(db, logs(end)[k..upTo])
  {
    assert logs(now) <= logs(end) && logs(end)[k] == logs(now)[k];
    var run := logs(end)[k..upTo];
    assert run[0] == logs(now)[k] && run[1..] == logs(end)[k + 1..upTo];
  }

  lemma TakenStore(log: seq<Msg>, f: Fill, k: nat)
    requires TakenTo(log, f, k) && f.rest != []
    ensures f.left > 0 && k < |log| && f.rest[0] == log[k] && TakenTo(log, Stored(f), k + 1)
  {
  }

  /** The gap fill from log[i]: the first n messages above it are stored, and the cursor is at the last of them. */
  lemma FillExact(logs: History, now: nat, db: ChatDb, limit: nat, fails: Option<nat>, i: nat)
    requires Grows(logs) && AlwaysOrdered(logs) && i < |logs(now)|
    requires db.row.Some? && db.row.value.newest == Some(logs(now)[i])
    ensures var r := FillOver(logs, now, db, StartForward(logs(now)[i], limit), fails);
            && now <= r.now && r.left <= limit && i + limit - r.left < |logs(r.now)|
            && var n := limit - r.left;
               && r.db.stored == db.stored + Messages(logs(r.now)[i + 1..i + 1 + n])
               && r.db.row == Some(db.row.value.(newest := Some(logs(r.now)[i + n])))
               && (r.done && limit > 0 ==> now < r.now && (n == limit || i + 1 + n == |logs(r.now - 1)|))
  {
    hide FillOver, StoreAll, Ordered, Messages;
    var f := StartForward(logs(now)[i], limit);
    FillTakes(logs, now, db, f, fails, i + 1);
    var r := FillOver(logs, now, db, f, fails);
    var n := limit - r.left;
    var run := logs(r.now)[i + 1..i + 1 + n];
    StoreAllStores(db, run);
    OrderedSlice(logs(r.now), i + 1, i + 1 + n);
    assert logs(now) <= logs(r.now) && logs(r.now)[i] == logs(now)[i];
    if n > 0 {
      OrderStrict(logs(r.now), i, i + 1);
    }
    StoreAllAscending(db, run);
  }

  lemma {:induction false} TimeGoesOn(logs: History, now: nat, db: ChatDb, f: Fill, fails: Option<nat>)
    requires |f.rest| <= f.left
    ensures now <= FillOver(logs, now, db, f, fails).now
    decreases f.left, if f.rest == [] && !f.ended then 1 else 0
  {
    hide FetchForward, StoreMessage, FillOver;
    FillUnfolds(logs, now, db, f, fails);
    if fails != Some(0) && f.rest != [] {
      TimeGoesOn(logs, now, StoreMessage(db, f.rest[0], true), Stored(f), Less(fails));
    } else if fails != Some(0) && f.left > 0 && !f.ended {
      TimeGoesOn(logs, now + 1, db, FetchForward(logs(now), f), Less(fails));
    }
  }

  /** Without a failure a fill gets to its end. */
  lemma {:induction false} GetsToItsEnd(logs: History, now: nat, db: ChatDb, f: Fill)
    requires |f.rest| <= f.left
    ensures FillOver(logs, now, db, f, None).done
    decreases f.left, if f.rest == [] && !f.ended then 1 else 0
  {
    hide FetchForward, StoreMessage;
    if f.rest != [] {
      GetsToItsEnd(logs, now, StoreMessage(db, f.rest[0], true), Stored(f));
    } else if f.left > 0 && !f.ended {
      FetchFits(logs(now), f);
      GetsToItsEnd(logs, now + 1, db, FetchForward(logs(now), f));
    }
  }

  /** The backward loop does not see growth: a page from a cursor shows what it showed before. */
  lemma BackwardSeesNoGrowth(log: seq<Msg>, more: seq<Msg>, b: Back)
    requires Ordered(more) && log <= more && b.pos.Some?
    requires log != [] && b.pos.value <= log[|log| - 1].time
    ensures FetchBackward(more, b) == FetchBackward(log, b)
  {
    hide Below;
    var k := Below(log, b.pos.value + 1);
    assert Ordered(log) by {
      OrderedSlice(more, 0, |log|);
      assert more[0..|log|] == log;
    }
    BelowSplits(log, b.pos.value + 1);
    BelowSplits(more, b.pos.value + 1);
    var n := PageSize(b.left, true);
    if |log| < |more| {
      OrderStrict(more, |log| - 1, |log|);
    }
    BelowIs(more, b.pos.value + 1, k);
    assert HistoryBackward(more, b.pos, n) == HistoryBackward(log, b.pos, n);
  }

  /**
   A fill that is to be cut short after n pages and stores is cut short exactly if it has not
   got to its end with fewer; then it has made n of them.
   */
  lemma {:induction false} FillSteps(logs: History, now: nat, db: ChatDb, f: Fill, fails: Option<nat>)
    requires |f.rest| <= f.left
    ensures var r := FillOver(logs, now, db, f, fails);
            && now <= r.now && r.left <= f.left
            && (fails.None? ==> r.done)
            && (fails.Some? ==>
                  var steps := r.now - now + f.left - r.left;
                  steps <= fails.value && (r.done <==> steps < fails.value))
    decreases f.left, if f.rest == [] && !f.ended then 1 else 0
  {
    hide FetchForward, StoreMessage, FillOver;
    FillUnfolds(logs, now, db, f, fails);
    if fails != Some(0) && f.rest != [] {
      FillSteps(logs, now, StoreMessage(db, f.rest[0], true), Stored(f), Less(fails));
    } else if fails != Some(0) && f.left > 0 && !f.ended {
      FillSteps(logs, now + 1, db, FetchForward(logs(now), f), Less(fails));
    }
  }
}
