/** The backward loop: from the oldest cursor (or from now) towards the beginning of the chat. */
module MaxBackward {
  import opened Wrappers
  import opened Seqs
  import opened MaxHistory

  /**
   The locals of the backward loop: its cursor (None: now), the `days` boundary, how many
   messages may still be stored, the part of the page not stored yet (newest first), the
   page's oldest message while the page is being stored, whether the page reached past the
   boundary, and the loop's outcome once it ended (Some(true): the beginning was reached).
   */
  datatype Back = Back(pos: Option<int>, stop: Option<int>, left: nat, rest: seq<Msg>,
                       low: Option<Msg>, cut: bool, outcome: Option<bool>)

  function StartBackward(row: Option<Row>, stop: Option<int>, limit: nat): Back {
    var pos := if row.Some? && row.value.oldest.Some? then Some(row.value.oldest.value.time) else None;
    Back(pos, stop, limit, [], None, false, if limit == 0 then Some(false) else None)
  }

  function IsOlder(pos: Option<int>): Msg -> bool {
    (m: Msg) => pos.None? || m.time < pos.value
  }

  function IsSince(stop: Option<int>): Msg -> bool {
    (m: Msg) => stop.None? || m.time >= stop.value
  }

  function NegTime(m: Msg): int {
    -m.time
  }

  function FetchBackward(log: seq<Msg>, b: Back): Back {
    TakeOlder(Filter(HistoryBackward(log, b.pos, PageSize(b.left, b.pos.Some?)), IsOlder(b.pos)), b)
  }

  function TakeOlder(older: seq<Msg>, b: Back): Back {
    if older == [] then b.(outcome := Some(true))
    else TakeInRange(Take(Sort(Filter(older, IsSince(b.stop)), NegTime), b.left), |older|, b)
  }

  function TakeInRange(inRange: seq<Msg>, older: nat, b: Back): Back {
    if inRange == [] then b.(outcome := Some(false))
    else b.(rest := inRange, low := Some(inRange[|inRange| - 1]), cut := |inRange| < older)
  }

  function StoredBack(b: Back): Back
    requires b.rest != [] && b.left > 0
  {
    b.(rest := b.rest[1..], left := b.left - 1)
  }

  /** The page is stored: the loop's cursor moves to its oldest message. */
  function Moved(b: Back): Back
    requires b.low.Some?
  {
    b.(pos := Some(b.low.value.time), low := None, cut := false,
       outcome := if b.cut || b.left == 0 then Some(false) else None)
  }

  function Phase(b: Back): nat {
    if b.rest != [] then 1
    else if b.low.Some? then 3
    else if b.outcome.None? then 2
    else 0
  }

  /** The whole loop, with the finishing step, against a log that does not change. */
  function BackwardRun(log: seq<Msg>, db: ChatDb, b: Back): ChatDb
    requires |b.rest| <= b.left
    requires b.outcome.None? && b.rest == [] && b.low.None? ==> b.left > 0
    requires b.rest != [] ==> b.low.Some?
    decreases b.left, Phase(b)
  {
    if b.rest != [] then BackwardRun(log, StoreMessage(db, b.rest[0], true), StoredBack(b))
    else if b.low.Some? then
      BackwardRun(log, db.(row := MoveOldest(db.row, b.low.value)), Moved(b))
    else if b.outcome.Some? then db.(row := FinishBackfill(db.row, b.outcome))
    else
      FetchBackFits(log, b);
      BackwardRun(log, db, FetchBackward(log, b))
  }

  lemma FetchBackUnfolds(log: seq<Msg>, b: Back)
    ensures FetchBackward(log, b)
            == TakeOlder(Filter(HistoryBackward(log, b.pos, PageSize(b.left, b.pos.Some?)), IsOlder(b.pos)), b)
  {
  }

  lemma FetchBackFits(log: seq<Msg>, b: Back)
    requires b.rest == [] && b.low.None? && b.outcome.None?
    ensures var g := FetchBackward(log, b);
            && g.left == b.left && |g.rest| <= g.left
            && (g.rest != [] <==> g.low.Some?) && (g.rest == [] <==> g.outcome.Some?)
  {
    hide Sort;
  }

  // ---------------------------------------------------------------------------
  // One page
  // ---------------------------------------------------------------------------

  lemma {:induction false} SortReverses(ms: seq<Msg>)
    requires Ordered(ms)
    ensures Sort(ms, NegTime) == Reverse(ms)
  {
    var n := |ms| - 1;
    if n >= 0 {
      OrderedSlice(ms, 0, n);
      assert ms[0..n] == ms[..n];
      SortReverses(ms[..n]);
      if n > 0 {
        assert Precedes(ms, n - 1, n);
      }
    }
  }

  /** Where the page that ends at u starts. */
  function PageStart(u: nat, left: nat, hasCursor: bool): (a: nat)
    requires left > 0
    ensures a <= u && u - a <= left && (u > 0 ==> a < u)
  {
    Max(0, u - (PageSize(left, hasCursor) - if hasCursor then 1 else 0))
  }

  /** The loop's cursor: everything from log[u] on is behind it. */
  ghost predicate AtUpper(log: seq<Msg>, pos: Option<int>, u: nat) {
    if pos.None? then u == |log| else u < |log| && pos.value == log[u].time
  }

  /** How many messages lie before the `days` boundary. */
  function Cutoff(log: seq<Msg>, stop: Option<int>): (k: nat)
    ensures k <= |log|
  {
    if stop.None? then 0 else Below(log, stop.value)
  }

  lemma PageIsRun(log: seq<Msg>, pos: Option<int>, u: nat, left: nat)
    requires Ordered(log) && AtUpper(log, pos, u) && left > 0
    ensures HistoryBackward(log, pos, PageSize(left, pos.Some?))
            == log[PageStart(u, left, pos.Some?)..u] + if pos.Some? then [log[u]] else []
  {
    if pos.Some? {
      BelowAt(log, u);
    }
  }

  lemma OlderIsRun(log: seq<Msg>, pos: Option<int>, u: nat, left: nat)
    requires Ordered(log) && AtUpper(log, pos, u) && left > 0
    ensures Filter(HistoryBackward(log, pos, PageSize(left, pos.Some?)), IsOlder(pos))
            == log[PageStart(u, left, pos.Some?)..u]
  {
    hide HistoryBackward, Filter;
    PageIsRun(log, pos, u, left);
    var older := log[PageStart(u, left, pos.Some?)..u];
    if pos.Some? {
      forall j | 0 <= j < u
        ensures log[j].time < log[u].time
      {
        assert Precedes(log, j, u);
      }
      FilterConcat(older, [log[u]], IsOlder(pos));
      FilterNone([log[u]], IsOlder(pos));
    }
    assert older + [] == older;
    FilterAll(older, IsOlder(pos));
  }

  lemma SinceIsRun(log: seq<Msg>, stop: Option<int>, a: nat, u: nat)
    requires Ordered(log) && a <= u <= |log|
    ensures Filter(log[a..u], IsSince(stop)) == log[Min(u, Max(a, Cutoff(log, stop)))..u]
  {
    var c := Min(u, Max(a, Cutoff(log, stop)));
    if stop.Some? {
      BelowSplits(log, stop.value);
    }
    assert log[a..u] == log[a..c] + log[c..u];
    FilterConcat(log[a..c], log[c..u], IsSince(stop));
    FilterNone(log[a..c], IsSince(stop));
    FilterAll(log[c..u], IsSince(stop));
  }

  lemma ReverseEnds(ms: seq<Msg>)
    requires ms != []
    ensures Reverse(ms)[|ms| - 1] == ms[0]
    ensures Reverse(ms)[0] == ms[|ms| - 1]
    ensures Reverse(ms)[1..] == Reverse(ms[..|ms| - 1])
  {
    if |ms| > 1 {
      ReverseEnds(ms[..|ms| - 1]);
    }
  }

  /**
   One page: what is taken is the run of messages right below the cursor and not before
   the boundary; nothing below the cursor means that the chat's beginning was reached.
   */
  lemma FetchBackwardSpec(log: seq<Msg>, b: Back, u: nat)
    requires Ordered(log) && AtUpper(log, b.pos, u) && b.left > 0
    ensures FetchBackward(log, b) ==
            var k := Cutoff(log, b.stop);
            if u == 0 then b.(outcome := Some(true))
            else if u <= k then b.(outcome := Some(false))
            else
              var a := PageStart(u, b.left, b.pos.Some?);
              b.(rest := Reverse(log[Max(a, k)..u]), low := Some(log[Max(a, k)]), cut := a < k)
  {
    hide HistoryBackward, Filter, Sort, Reverse;
    var k := Cutoff(log, b.stop);
    var a := PageStart(u, b.left, b.pos.Some?);
    var c := Min(u, Max(a, k));
    OlderIsRun(log, b.pos, u, b.left);
    assert |log[a..u]| == u - a;
    SinceIsRun(log, b.stop, a, u);
    OrderedSlice(log, c, u);
    SortReverses(log[c..u]);
    assert |Reverse(log[c..u])| == u - c <= b.left;
    if c < u {
      ReverseEnds(log[c..u]);
    }
  }

  // ---------------------------------------------------------------------------
  // The whole loop
  // ---------------------------------------------------------------------------

  /** The lowest message the loop reaches from v with `left` stores to go. */
  function Reach(k: nat, v: nat, left: nat): (e: nat)
    ensures e <= v
  {
    Max(Min(k, v), v - left)
  }

  /** Whether the loop reaches the beginning and sees that it did. */
  predicate SeesBeginning(k: nat, v: nat, left: nat) {
    Min(k, v) == 0 && v < left
  }

  /** Mid-loop: the page below the cursor is log[c..], waiting down from v, newest first. */
  ghost predicate Paging(log: seq<Msg>, b: Back, v: nat, c: nat) {
    && c <= v <= |log| && |b.rest| == v - c <= b.left
    && b.rest == Reverse(log[c..v])
    && (b.low.Some? ==>
          && c < |log| && b.low.value == log[c] && Cutoff(log, b.stop) <= c && b.outcome.None?
          && (b.cut ==> 0 < c == Cutoff(log, b.stop)))
    && (b.low.None? ==> c == v && AtUpper(log, b.pos, v) && (b.outcome.None? ==> b.left > 0))
  }

  lemma PagingStores(log: seq<Msg>, b: Back, v: nat, c: nat)
    requires Paging(log, b, v, c) && b.rest != []
    ensures Paging(log, StoredBack(b), v - 1, c) && b.rest[0] == log[v - 1]
  {
    var ms := log[c..v];
    ReverseEnds(ms);
    assert ms[..|ms| - 1] == log[c..v - 1];
  }

  lemma PagingFetches(log: seq<Msg>, b: Back, v: nat) returns (c: nat)
    requires Ordered(log) && Paging(log, b, v, v) && b.low.None? && b.outcome.None?
    ensures var g := FetchBackward(log, b);
            && g.left == b.left && g.stop == b.stop
            && Paging(log, g, v, c) && (g.outcome.Some? <==> c == v)
            && (g.low.Some? <==> c < v)
            && (c == v ==>
                 && g.outcome.value == SeesBeginning(Cutoff(log, b.stop), v, b.left)
                 && Reach(Cutoff(log, b.stop), v, b.left) == v)
  {
    hide FetchBackward, Reverse;
    FetchBackwardSpec(log, b, v);
    var k := Cutoff(log, b.stop);
    c := if k < v then Max(PageStart(v, b.left, b.pos.Some?), k) else v;
    assert Reverse(log[v..v]) == [];
  }

  lemma BackwardUnfolds(log: seq<Msg>, db: ChatDb, b: Back)
    requires |b.rest| <= b.left && (b.rest != [] ==> b.low.Some?)
    requires b.outcome.None? && b.rest == [] && b.low.None? ==> b.left > 0
    ensures b.rest != [] ==>
              BackwardRun(log, db, b) == BackwardRun(log, StoreMessage(db, b.rest[0], true), StoredBack(b))
    ensures b.rest == [] && b.low.Some? ==>
              BackwardRun(log, db, b) == BackwardRun(log, db.(row := MoveOldest(db.row, b.low.value)), Moved(b))
    ensures b.rest == [] && b.low.None? && b.outcome.Some? ==>
              BackwardRun(log, db, b) == db.(row := FinishBackfill(db.row, b.outcome))
    ensures b.rest == [] && b.low.None? && b.outcome.None? ==>
              var g := FetchBackward(log, b);
              && |g.rest| <= g.left == b.left && (g.rest != [] <==> g.low.Some?)
              && (g.rest == [] <==> g.outcome.Some?)
              && BackwardRun(log, db, b) == BackwardRun(log, db, g)
  {
    hide FetchBackward;
    if b.rest == [] && b.low.None? && b.outcome.None? {
      FetchBackFits(log, b);
    }
  }

  /** A whole page of stores at once. */
  lemma {:induction false} PageStored(log: seq<Msg>, db: ChatDb, b: Back)
    requires |b.rest| <= b.left && b.low.Some?
    ensures BackwardRun(log, db, b)
            == BackwardRun(log, StoreAll(db, b.rest), b.(rest := [], left := b.left - |b.rest|))
    decreases |b.rest|
  {
    hide BackwardRun;
    if b.rest != [] {
      BackwardUnfolds(log, db, b);
      PageStored(log, StoreMessage(db, b.rest[0], true), StoredBack(b));
    } else {
      assert b == b.(rest := [], left := b.left - |b.rest|);
    }
  }

  /** One turn of the loop: take a page; then either stop, or store it and move the cursor. */
  lemma TurnUnfolds(log: seq<Msg>, db: ChatDb, b: Back)
    requires b.rest == [] && b.low.None? && b.outcome.None? && b.left > 0
    ensures var g := FetchBackward(log, b);
            && (g.outcome.Some? ==>
                  BackwardRun(log, db, b) == db.(row := FinishBackfill(db.row, g.outcome)))
            && (g.outcome.None? ==>
                  && g.low.Some? && |g.rest| <= b.left
                  && var d := StoreAll(db, g.rest);
                     BackwardRun(log, db, b)
                     == BackwardRun(log, d.(row := MoveOldest(d.row, g.low.value)),
                                    Moved(g.(rest := [], left := b.left - |g.rest|))))
  {
    hide FetchBackward, BackwardRun;
    BackwardUnfolds(log, db, b);
    var g := FetchBackward(log, b);
    if g.outcome.Some? {
      BackwardUnfolds(log, db, g);
    } else {
      PageStored(log, db, g);
      BackwardUnfolds(log, StoreAll(db, g.rest), g.(rest := [], left := b.left - |g.rest|));
    }
  }

  lemma LastOfSlice(log: seq<Msg>, e: nat, v: nat)
    requires e < v <= |log|
    ensures log[e..v] == log[e..v - 1] + [log[v - 1]]
  {
  }

  /** Mid-run form: exactly the next `left` messages going down, and none before the boundary. */
  lemma {:induction false} BackwardRunStores(log: seq<Msg>, db: ChatDb, b: Back, v: nat, c: nat)
    requires Ordered(log) && Paging(log, b, v, c) && b.outcome.None?
    ensures BackwardRun(log, db, b).stored
            == db.stored + Messages(log[Reach(Cutoff(log, b.stop), v, b.left)..v])
    decreases b.left, Phase(b)
  {
    hide FetchBackward, BackwardRun, Reverse, Cutoff;
    BackwardUnfolds(log, db, b);
    var e := Reach(Cutoff(log, b.stop), v, b.left);
    if b.rest != [] {
      PagingStores(log, b, v, c);
      BackwardRunStores(log, StoreMessage(db, b.rest[0], true), StoredBack(b), v - 1, c);
      assert e <= v - 1 && e == Reach(Cutoff(log, b.stop), v - 1, b.left - 1);
      LastOfSlice(log, e, v);
    } else if b.low.Some? {
      var next := db.(row := MoveOldest(db.row, b.low.value));
      if Moved(b).outcome.None? {
        BackwardRunStores(log, next, Moved(b), v, v);
      } else {
        BackwardUnfolds(log, next, Moved(b));
      }
    } else {
      var low := PagingFetches(log, b, v);
      if low == v {
        BackwardUnfolds(log, db, FetchBackward(log, b));
      } else {
        BackwardRunStores(log, db, FetchBackward(log, b), v, low);
      }
    }
  }

  /** The row while the loop runs: no store moves the newest cursor, log[w] is the oldest. */
  ghost predicate RowAbove(log: seq<Msg>, row: Option<Row>, b: Back, v: nat, c: nat, w: nat) {
    && row.Some? && row.value.newest.Some? && c <= v <= w < |log|
    && row.value.oldest == Some(log[w])
    && log[w].time <= row.value.newest.value.time
    && (b.low.None? ==> w == v)
  }

  lemma {:induction false} BackwardRunRow(log: seq<Msg>, db: ChatDb, b: Back, v: nat, c: nat, w: nat)
    requires Ordered(log) && Paging(log, b, v, c) && b.outcome.None?
    requires RowAbove(log, db.row, b, v, c, w)
    ensures var k := Cutoff(log, b.stop);
            BackwardRun(log, db, b).row
            == Some(db.row.value.(oldest := Some(log[Reach(k, v, b.left)]),
                                  fullySynced := SeesBeginning(k, v, b.left)))
    decreases b.left, Phase(b)
  {
    hide FetchBackward, BackwardRun, Reverse, Cutoff;
    BackwardUnfolds(log, db, b);
    if b.rest != [] {
      PagingStores(log, b, v, c);
      if v - 1 < w {
        assert Precedes(log, v - 1, w);
      }
      BackwardRunRow(log, StoreMessage(db, b.rest[0], true), StoredBack(b), v - 1, c, w);
    } else if b.low.Some? {
      if c < w {
        assert Precedes(log, c, w);
      }
      var next := db.(row := MoveOldest(db.row, b.low.value));
      assert next.row == Some(db.row.value.(oldest := Some(log[c])));
      if Moved(b).outcome.None? {
        BackwardRunRow(log, next, Moved(b), v, v, v);
      } else {
        BackwardUnfolds(log, next, Moved(b));
      }
    } else {
      var low := PagingFetches(log, b, v);
      if low == v {
        BackwardUnfolds(log, db, FetchBackward(log, b));
      } else {
        BackwardRunRow(log, db, FetchBackward(log, b), v, low, w);
      }
    }
  }

  /**
   The backward loop is exact: of the k messages below the oldest cursor and not older than
   the `days` boundary it stores the min(L, k) newest; the oldest cursor ends at the last
   one stored; and it reports "fully synced" exactly when the chat has nothing older than
   the cursor it ends at and the limit was not used up.
   */
  lemma BackwardExact(log: seq<Msg>, db: ChatDb, u: nat, stop: Option<int>, limit: nat)
    requires Ordered(log) && u < |log|
    requires db.row.Some? && db.row.value.oldest == Some(log[u])
    requires db.row.value.newest.Some? && log[u].time <= db.row.value.newest.value.time
    ensures var k := Cutoff(log, stop);
            var e := Reach(k, u, limit);
            var after := BackwardRun(log, db, StartBackward(db.row, stop, limit));
            && after.stored == db.stored + Messages(log[e..u])
            && after.row == Some(db.row.value.(oldest := Some(log[e]), fullySynced := SeesBeginning(k, u, limit)))
  {
    hide FetchBackward, BackwardRun, Cutoff;
    var b := StartBackward(db.row, stop, limit);
    assert Reverse(log[u..u]) == [];
    if limit == 0 {
      BackwardUnfolds(log, db, b);
    } else {
      BackwardRunStores(log, db, b, u, u);
      BackwardRunRow(log, db, b, u, u, u);
    }
  }

  /** The same for a chat without a cursor: from now on, and the first store makes the row. */
  lemma BackwardExactFresh(log: seq<Msg>, db: ChatDb, stop: Option<int>, limit: nat)
    requires Ordered(log) && db.row.None?
    ensures var k := Cutoff(log, stop);
            var e := Reach(k, |log|, limit);
            var after := BackwardRun(log, db, StartBackward(None, stop, limit));
            && after.stored == db.stored + Messages(log[e..])
            && after.row == if e == |log| then None
                            else Some(Row(Some(log[|log| - 1]), Some(log[e]), SeesBeginning(k, |log|, limit)))
  {
    hide FetchBackward, BackwardRun, Cutoff;
    var b, u := StartBackward(None, stop, limit), |log|;
    assert Reverse(log[u..u]) == [];
    if limit == 0 {
      BackwardUnfolds(log, db, b);
      assert log[u..] == [];
    } else {
      BackwardRunStores(log, db, b, u, u);
      assert log[Reach(Cutoff(log, stop), u, limit)..u] == log[Reach(Cutoff(log, stop), u, limit)..];
      BackwardUnfolds(log, db, b);
      var c := PagingFetches(log, b, u);
      var g := FetchBackward(log, b);
      BackwardUnfolds(log, db, g);
      if c < u {
        PagingStores(log, g, u, c);
        var next := StoreMessage(db, g.rest[0], true);
        BackwardRunRow(log, next, StoredBack(g), u - 1, c, u - 1);
      }
    }
  }
}
