/**
 Whole runs of the limiter: calls take slots and end, the clock moves forward, old rows are
 purged. The history keeps every row that was not given back, purged or not.
 */
module LimiterRuns {
  import opened Wrappers
  import opened Seqs
  import opened WindowCounts
  import opened WriteLimits

  /** The rows a call took and has not ended with; a lookup's are never given back. */
  datatype Slot = Slot(rows: seq<Event>, lookup: bool)

  /**
   hist: the rows not given back; bound: rows before it may have been purged; open: slots of
   running calls; kept: ids of slots that stay (success, cancelled, unknown outcome,
   lookups); released: ids given back.
   */
  datatype State = State(table: Table, clock: int, bound: int, hist: seq<Event>,
                         open: map<nat, Slot>, kept: set<nat>, released: set<nat>)

  datatype Step =
    | Single(call: nat, c: Call)
    | Bundle(call: nat, needs: map<Kind, nat>, chat: Option<int>, now: int)
    | End(call: nat, failedForSure: bool)

  predicate Enabled(s: State, step: Step) {
    match step
    case Single(call, c) => call !in s.open && c.now >= s.clock
    case Bundle(call, needs, chat, now) => call !in s.open && now >= s.clock && BundleNeeds(needs)
    case End(call, failed) => call in s.open
  }

  /** A call that took rows: they join the table and the history. */
  function Took(s: State, call: nat, o: Outcome, lookup: bool, now: int): State {
    if o.Taken? then
      var added := o.table.events[Min(|o.table.events|, |Purge(s.table.events, now)|)..];
      s.(table := o.table, clock := now, bound := now - RETENTION, hist := s.hist + added,
         open := s.open[call := Slot(added, lookup)])
    else s.(clock := now)
  }

  function IdsIn(rows: seq<Event>): set<nat> {
    set e | e in rows :: e.id
  }

  function After(s: State, limits: Option<Limits>, step: Step): State
    requires Enabled(s, step)
  {
    match step
    case Single(call, c) => Took(s, call, Reserve(s.table, limits, c), c.kind == Lookup, c.now)
    case Bundle(call, needs, chat, now) => Took(s, call, ReserveBundle(s.table, limits, needs, chat, now), false, now)
    case End(call, failed) =>
      var slot := s.open[call];
      var ids := Ids(slot.rows);
      if failed && !slot.lookup then
        s.(table := Release(s.table, ids), hist := Filter(s.hist, NotIn(ids)), open := s.open - {call},
           released := s.released + IdsIn(slot.rows))
      else s.(open := s.open - {call}, kept := s.kept + IdsIn(slot.rows))
  }

  // ---------------------------------------------------------------------------
  // Rows of a call
  // ---------------------------------------------------------------------------

  /** What an accepted call adds: fresh ids in order, one time, its kinds, and room for it. */
  ghost predicate Addition(s: State, l: Limits, rows: seq<Event>, now: int) {
    && (forall i | 0 <= i < |rows| :: rows[i].id == s.table.nextId + i && rows[i].at >= now)
    && forall w, t | w in WINDOWS && HasLimit(l, w) && InWindow(rows, w, t) > 0 ::
         Count(Purge(s.table.events, now), w, now) + InWindow(rows, w, t) <= l.windows[w.name]
  }

  lemma {:induction false} CopiesBetween(id: nat, kind: Kind, chat: Option<int>, at: int, n: nat,
                                         w: Window, from: int, to: int)
    ensures CountBetween(Copies(id, kind, chat, at, n), w, from, to)
            == if kind == w.kind && !w.newDialogsOnly && from < at <= to then n else 0
  {
    if n > 0 {
      assert Copies(id, kind, chat, at, n)[..n - 1] == Copies(id, kind, chat, at, n - 1);
      CopiesBetween(id, kind, chat, at, n - 1, w, from, to);
    }
  }

  lemma {:induction false} BetweenConcat(a: seq<Event>, b: seq<Event>, w: Window, from: int, to: int)
    ensures CountBetween(a + b, w, from, to) == CountBetween(a, w, from, to) + CountBetween(b, w, from, to)
  {
    if b == [] {
      assert a + b == a;
    } else {
      var init := b[..|b| - 1];
      assert a + b == (a + init) + [b[|b| - 1]] && b == init + [b[|b| - 1]];
      BetweenAppend(a + init, b[|b| - 1], w, from, to);
      BetweenAppend(init, b[|b| - 1], w, from, to);
      BetweenConcat(a, init, w, from, to);
    }
  }

  ghost predicate NoRepeat(kinds: seq<Kind>) {
    forall i, j | 0 <= i < j < |kinds| :: kinds[i] != kinds[j]
  }

  /** A bundle puts exactly the needed number of rows into each window of its kinds. */
  lemma {:induction false} BundleBetween(id: nat, kinds: seq<Kind>, needs: map<Kind, nat>, chat: Option<int>, at: int,
                                         w: Window, from: int, to: int)
    requires NoRepeat(kinds)
    ensures CountBetween(BundleRows(id, kinds, needs, chat, at), w, from, to)
            == if w.kind in kinds && !w.newDialogsOnly && from < at <= to then Need(needs, w.kind) else 0
    decreases |kinds|
  {
    if kinds != [] {
      var n := Need(needs, kinds[0]);
      var first, more := Copies(id, kinds[0], chat, at, n), BundleRows(id + n, kinds[1..], needs, chat, at);
      BetweenConcat(first, more, w, from, to);
      CopiesBetween(id, kinds[0], chat, at, n, w, from, to);
      BundleBetween(id + n, kinds[1..], needs, chat, at, w, from, to);
      assert kinds == [kinds[0]] + kinds[1..];
    }
  }

  /** Rows of one insert: fresh ids in order, one time, kinds of the bundle, no dialog. */
  ghost predicate FreshRows(rows: seq<Event>, id: nat, kinds: seq<Kind>, at: int) {
    forall i | 0 <= i < |rows| ::
      rows[i].id == id + i && rows[i].at == at && rows[i].kind in kinds && !rows[i].newDialog
  }

  lemma FreshConcat(a: seq<Event>, b: seq<Event>, id: nat, kinds: seq<Kind>, at: int)
    requires kinds != [] && FreshRows(a, id, kinds[..1], at) && FreshRows(b, id + |a|, kinds[1..], at)
    ensures FreshRows(a + b, id, kinds, at)
  {
    assert kinds == kinds[..1] + kinds[1..];
  }

  lemma {:induction false} BundleIds(id: nat, kinds: seq<Kind>, needs: map<Kind, nat>, chat: Option<int>, at: int)
    ensures FreshRows(BundleRows(id, kinds, needs, chat, at), id, kinds, at)
    decreases |kinds|
  {
    if kinds != [] {
      var n := Need(needs, kinds[0]);
      BundleIds(id + n, kinds[1..], needs, chat, at);
      FreshConcat(Copies(id, kinds[0], chat, at, n), BundleRows(id + n, kinds[1..], needs, chat, at), id, kinds, at);
    }
  }

  lemma CallAdds(s: State, limits: Option<Limits>, c: Call)
    requires Reserve(s.table, limits, c).Taken?
    ensures var o := Reserve(s.table, limits, c);
            var l := EffectiveLimits(limits, c.kind).value;
            exists e :: o.table == Table(Purge(s.table.events, c.now) + [e], s.table.nextId + 1)
                        && o.ids == [e.id] && e.kind == c.kind
                        && e.at == PlannedAt(Purge(s.table.events, c.now), l, c)
                        && Addition(s, l, [e], c.now)
  {
    hide Purge, CheckWindows, PlannedAt;
    var l := EffectiveLimits(limits, c.kind).value;
    var events := Purge(s.table.events, c.now);
    var newDialog := NewDialog(events, c);
    var needs := map[c.kind := 1];
    CheckIsExact(events, l, needs, newDialog, c.now);
    var e := Event(s.table.nextId, c.kind, c.chat, newDialog, PlannedAt(events, l, c));
    forall w, t | w in WINDOWS && HasLimit(l, w) && InWindow([e], w, t) > 0
      ensures Count(events, w, c.now) + InWindow([e], w, t) <= l.windows[w.name]
    {
      assert [e] == [] + [e];
      BetweenAppend([], e, w, t - Span(w), t);
      assert Asked(l, needs, newDialog, w);
    }
    assert Addition(s, l, [e], c.now);
  }

  lemma BundleAdds(s: State, l: Limits, needs: map<Kind, nat>, chat: Option<int>, now: int)
    requires BundleNeeds(needs) && ReserveBundle(s.table, Some(l), needs, chat, now).Taken?
    ensures var o := ReserveBundle(s.table, Some(l), needs, chat, now);
            var rows := BundleRows(s.table.nextId, BUNDLE_KINDS, needs, chat, now);
            && o.table == Table(Purge(s.table.events, now) + rows, s.table.nextId + |rows|)
            && o.ids == Ids(rows) && Addition(s, l, rows, now)
  {
    hide Purge, CheckWindows, BundleRows;
    var events := Purge(s.table.events, now);
    CheckIsExact(events, l, needs, false, now);
    var rows := BundleRows(s.table.nextId, BUNDLE_KINDS, needs, chat, now);
    BundleIds(s.table.nextId, BUNDLE_KINDS, needs, chat, now);
    forall w, t | w in WINDOWS && HasLimit(l, w) && InWindow(rows, w, t) > 0
      ensures Count(events, w, now) + InWindow(rows, w, t) <= l.windows[w.name]
    {
      BundleBetween(s.table.nextId, BUNDLE_KINDS, needs, chat, now, w, t - Span(w), t);
      assert Asked(l, needs, false, w);
    }
  }

  // ---------------------------------------------------------------------------
  // What every run keeps
  // ---------------------------------------------------------------------------

  /** The ids taken between two states of the counter. */
  function TakenSince(first: nat, next: nat): (ids: set<nat>)
    ensures forall id :: id in ids <==> (first <= id < next)
    decreases next
  {
    if first >= next then {} else TakenSince(first, next - 1) + {next - 1}
  }

  function OpenIds(open: map<nat, Slot>): set<nat> {
    set c, id | c in open && id in IdsIn(open[c].rows) :: id
  }

  /** Every window holds at most its limit, wherever it ends. */
  ghost predicate WindowsBounded(hist: seq<Event>, l: Limits) {
    forall w, t | w in WINDOWS && HasLimit(l, w) :: InWindow(hist, w, t) <= l.windows[w.name]
  }

  /** Sends are planned at least the interval apart, in the order of the calls. */
  ghost predicate Spaced(hist: seq<Event>, interval: nat) {
    hist == [] ||
    var init, e := hist[..|hist| - 1], hist[|hist| - 1];
    Spaced(init, interval)
    && (e.kind == Send ==> forall x | x in init && x.kind == Send :: x.at + interval <= e.at)
  }

  function Interval(l: Limits): nat {
    if l.minIntervalSec.Some? then l.minIntervalSec.value * SECOND else 0
  }

  /** The table is the history without the purged rows. */
  ghost predicate TableOk(s: State) {
    && s.table.events == Filter(s.hist, Since(s.bound)) && s.bound <= s.clock - RETENTION
    && forall e | e in s.hist :: e.id < s.table.nextId
  }

  function Among(ids: seq<nat>): Event -> bool {
    (e: Event) => e.id in ids
  }

  /** The slot's rows are in the history as a whole, and nothing else has their ids. */
  ghost predicate Whole(hist: seq<Event>, slot: Slot) {
    Filter(hist, Among(Ids(slot.rows))) == slot.rows
  }

  /**
   Each row of the history belongs to exactly one owner: the start, a running call, a kept
   slot. Each id taken since the start is of a running call, kept, or given back.
   */
  ghost predicate Accounted(s: State, start: State) {
    && start.table.nextId <= s.table.nextId
    && (forall id | id in IdsIn(start.hist) :: id < start.table.nextId)
    && IdsIn(s.hist) == IdsIn(start.hist) + OpenIds(s.open) + s.kept
    && TakenSince(start.table.nextId, s.table.nextId) == OpenIds(s.open) + s.kept + s.released
    && s.kept !! s.released && OpenIds(s.open) !! s.kept && OpenIds(s.open) !! s.released
    && (forall c, d | c in s.open && d in s.open && c != d :: IdsIn(s.open[c].rows) !! IdsIn(s.open[d].rows))
    && (forall c | c in s.open :: Whole(s.hist, s.open[c]))
  }

  ghost predicate Pacing(hist: seq<Event>, l: Limits) {
    Interval(l) > 0 ==> Spaced(hist, Interval(l))
  }

  /** The bookkeeping, which holds from any table on. */
  ghost predicate Booked(s: State, start: State) {
    TableOk(s) && Accounted(s, start)
  }

  /** The limits, which hold from any table on that respects them. */
  ghost predicate Bounded(s: State, l: Limits) {
    WindowsBounded(s.hist, l) && Pacing(s.hist, l)
  }

  predicate ShortInterval(l: Limits) {
    l.minIntervalSec.Some? ==> l.minIntervalSec.value <= MAX_INTERVAL
  }

  /** The limits a run is under; without any, lookups still have theirs. */
  function InForce(limits: Option<Limits>): Limits {
    if limits.Some? then limits.value else NO_LIMITS
  }

  /** A purge of the table is a purge of the history. */
  lemma {:induction false} PurgeOfHistory(hist: seq<Event>, bound: int, later: int)
    requires bound <= later
    ensures Filter(Filter(hist, Since(bound)), Since(later)) == Filter(hist, Since(later))
  {
    if hist != [] {
      var init, e := hist[..|hist| - 1], hist[|hist| - 1];
      assert hist == init + [e];
      PurgeOfHistory(init, bound, later);
      FilterAppend(init, e, Since(bound));
      FilterAppend(init, e, Since(later));
      FilterAppend(Filter(init, Since(bound)), e, Since(later));
      assert Filter(init, Since(bound)) + [] == Filter(init, Since(bound));
      assert Filter(init, Since(later)) + [] == Filter(init, Since(later));
    }
  }

  lemma {:induction false} FiltersSwap(hist: seq<Event>, p: Event -> bool, q: Event -> bool)
    ensures Filter(Filter(hist, p), q) == Filter(Filter(hist, q), p)
  {
    if hist != [] {
      var init, e := hist[..|hist| - 1], hist[|hist| - 1];
      assert hist == init + [e];
      FiltersSwap(init, p, q);
      FilterAppend(init, e, p);
      FilterAppend(init, e, q);
      FilterAppend(Filter(init, p), e, q);
      FilterAppend(Filter(init, q), e, p);
      assert Filter(init, p) + [] == Filter(init, p) && Filter(init, q) + [] == Filter(init, q);
      assert Filter(Filter(init, p), q) + [] == Filter(Filter(init, p), q);
    }
  }

  lemma {:induction false} SpacedFiltered(hist: seq<Event>, keep: Event -> bool, interval: nat)
    requires Spaced(hist, interval)
    ensures Spaced(Filter(hist, keep), interval)
  {
    if hist != [] {
      var init, e := hist[..|hist| - 1], hist[|hist| - 1];
      assert hist == init + [e];
      SpacedFiltered(init, keep, interval);
      FilterAppend(init, e, keep);
      FilterIn(init, keep);
      var kept := Filter(init, keep);
      assert (kept + [e])[..|kept|] == kept && kept + [] == kept;
    }
  }

  lemma {:induction false} SpacedAppends(hist: seq<Event>, rows: seq<Event>, interval: nat)
    requires Spaced(hist, interval)
    requires forall e | e in rows :: e.kind != Send
    ensures Spaced(hist + rows, interval)
  {
    if rows == [] {
      assert hist + rows == hist;
    } else {
      var init := rows[..|rows| - 1];
      SpacedAppends(hist, init, interval);
      assert hist + rows == (hist + init) + [rows[|rows| - 1]];
      assert (hist + rows)[..|hist + rows| - 1] == hist + init;
    }
  }

  /** Adding rows that fit keeps every window bounded, past and future windows alike. */
  lemma WindowsStayBounded(s: State, l: Limits, rows: seq<Event>, now: int)
    requires TableOk(s) && WindowsBounded(s.hist, l) && now >= s.clock && Addition(s, l, rows, now)
    ensures WindowsBounded(s.hist + rows, l)
  {
    hide TimesAfter, CountBetween, Filter;
    forall w, t | w in WINDOWS && HasLimit(l, w)
      ensures InWindow(s.hist + rows, w, t) <= l.windows[w.name]
    {
      BetweenConcat(s.hist, rows, w, t - Span(w), t);
      if InWindow(rows, w, t) > 0 {
        HistorySeesNoMore(s, rows, now, w, t);
      } else {
        assert InWindow(s.hist, w, t) <= l.windows[w.name];
      }
    }
  }

  lemma HistorySeesNoMore(s: State, rows: seq<Event>, now: int, w: Window, t: int)
    requires TableOk(s) && now >= s.clock && w in WINDOWS && InWindow(rows, w, t) > 0
    requires forall i | 0 <= i < |rows| :: rows[i].at >= now
    ensures InWindow(s.hist, w, t) <= Count(Purge(s.table.events, now), w, now)
  {
    hide TimesAfter, CountBetween, Filter;
    EndsAfter(rows, w, t - Span(w), t, now);
    PurgeOfHistory(s.hist, s.bound, now - RETENTION);
    UnseenRemoved(s.hist, Since(now - RETENTION), w, now - Span(w));
    BetweenAtMost(s.hist, w, t - Span(w), t, now - Span(w));
  }

  /** A window that sees a row added at `now` or later ends at `now` or later. */
  lemma {:induction false} EndsAfter(rows: seq<Event>, w: Window, from: int, to: int, now: int)
    requires forall i | 0 <= i < |rows| :: rows[i].at >= now
    requires CountBetween(rows, w, from, to) > 0
    ensures to >= now
  {
    if rows[|rows| - 1].at > to {
      EndsAfter(rows[..|rows| - 1], w, from, to, now);
    }
  }

  lemma RowsFiltered(hist: seq<Event>, rows: seq<Event>, bound: int)
    requires forall i | 0 <= i < |rows| :: rows[i].at >= bound
    ensures Filter(hist + rows, Since(bound)) == Filter(hist, Since(bound)) + rows
  {
    FilterConcat(hist, rows, Since(bound));
    FilterAll(rows, Since(bound));
  }

  /** A call that takes rows keeps everything. */
  lemma TookKeeps(s: State, l: Limits, start: State, call: nat, rows: seq<Event>, lookup: bool, now: int)
    requires Booked(s, start) && call !in s.open && now >= s.clock && Addition(s, l, rows, now)
    ensures var t := s.(table := Table(Purge(s.table.events, now) + rows, s.table.nextId + |rows|), clock := now,
                        bound := now - RETENTION, hist := s.hist + rows, open := s.open[call := Slot(rows, lookup)]);
            Booked(t, start) && (Bounded(s, l) && Pacing(s.hist + rows, l) ==> Bounded(t, l))
  {
    hide Pacing, Filter, WindowsBounded;
    if WindowsBounded(s.hist, l) {
      WindowsStayBounded(s, l, rows, now);
    }
    PurgeOfHistory(s.hist, s.bound, now - RETENTION);
    RowsFiltered(s.hist, rows, now - RETENTION);
    var t := s.(table := Table(Purge(s.table.events, now) + rows, s.table.nextId + |rows|), clock := now,
                bound := now - RETENTION, hist := s.hist + rows, open := s.open[call := Slot(rows, lookup)]);
    TookAccounted(s, start, call, rows, lookup, t);
  }

  lemma IdsOf(rows: seq<Event>)
    ensures forall id :: id in Ids(rows) <==> id in IdsIn(rows)
  {
    forall r | r in rows
      ensures r.id in Ids(rows)
    {
      var i :| 0 <= i < |rows| && rows[i] == r;
      assert Ids(rows)[i] == r.id;
    }
  }

  lemma TookAccounted(s: State, start: State, call: nat, rows: seq<Event>, lookup: bool, t: State)
    requires Accounted(s, start) && TableOk(s) && call !in s.open
    requires forall i | 0 <= i < |rows| :: rows[i].id == s.table.nextId + i
    requires t.hist == s.hist + rows && t.open == s.open[call := Slot(rows, lookup)]
    requires t.kept == s.kept && t.released == s.released && t.table.nextId == s.table.nextId + |rows|
    ensures Accounted(t, start)
  {
    hide Whole;
    forall id: nat
      ensures id in IdsIn(rows) <==> s.table.nextId <= id < s.table.nextId + |rows|
    {
      if s.table.nextId <= id < s.table.nextId + |rows| {
        assert rows[id - s.table.nextId] in rows;
      }
    }
    assert IdsIn(t.hist) == IdsIn(s.hist) + IdsIn(rows);
    OpenWith(s.open, call, Slot(rows, lookup));
    forall c | c in s.open
      ensures IdsIn(s.open[c].rows) !! IdsIn(rows)
    {
      assert forall id | id in IdsIn(s.open[c].rows) :: id in OpenIds(s.open);
    }
    forall c | c in t.open
      ensures Whole(t.hist, t.open[c])
    {
      if c == call {
        NewWhole(s.hist, rows, lookup);
      } else {
        assert IdsIn(s.open[c].rows) !! IdsIn(rows) && forall r | r in rows :: r.id in IdsIn(rows);
        OldWhole(s.hist, rows, s.open[c]);
      }
    }
  }

  lemma OpenWith(open: map<nat, Slot>, call: nat, slot: Slot)
    requires call !in open
    ensures OpenIds(open[call := slot]) == OpenIds(open) + IdsIn(slot.rows)
  {
    var more := open[call := slot];
    forall id | id in OpenIds(open)
      ensures id in OpenIds(more)
    {
      var c :| c in open && id in IdsIn(open[c].rows);
      assert id in IdsIn(more[c].rows);
    }
    assert more[call] == slot;
  }

  /** Rows with fresh ids are their own slot. */
  lemma NewWhole(hist: seq<Event>, rows: seq<Event>, lookup: bool)
    requires forall e, r | e in hist && r in rows :: e.id != r.id
    ensures Whole(hist + rows, Slot(rows, lookup))
  {
    hide Filter, Ids;
    var p := Among(Ids(rows));
    IdsOf(rows);
    FilterConcat(hist, rows, p);
    FilterNone(hist, p);
    FilterAll(rows, p);
    assert [] + rows == rows;
  }

  lemma OldWhole(hist: seq<Event>, rows: seq<Event>, slot: Slot)
    requires Whole(hist, slot) && forall r | r in rows :: r.id !in IdsIn(slot.rows)
    ensures Whole(hist + rows, slot)
  {
    hide Filter, Ids;
    var p := Among(Ids(slot.rows));
    IdsOf(slot.rows);
    FilterConcat(hist, rows, p);
    FilterNone(rows, p);
    assert slot.rows + [] == slot.rows;
  }

  // ---------------------------------------------------------------------------
  // Every step
  // ---------------------------------------------------------------------------

  /** A new send is planned an interval after every send of the history, purged ones included. */
  lemma SendPaced(s: State, l: Limits, c: Call, e: Event)
    requires TableOk(s) && Pacing(s.hist, l) && c.now >= s.clock
    requires e.kind == c.kind && e.at == PlannedAt(Purge(s.table.events, c.now), l, c)
    requires ShortInterval(l)
    ensures Pacing(s.hist + [e], l)
  {
    hide Spaced, Filter, PlannedAt;
    PurgeOfHistory(s.hist, s.bound, c.now - RETENTION);
    FilterIn(s.hist, Since(c.now - RETENTION));
    var purged := Purge(s.table.events, c.now);
    if Interval(l) > 0 {
      if e.kind == Send {
        PlannedAfterSends(purged, l, c);
        forall x | x in s.hist && x.kind == Send
          ensures x.at + Interval(l) <= e.at
        {
          if x.at >= c.now - RETENTION {
            assert x in purged;
          }
        }
      }
      SpacedOne(s.hist, e, Interval(l));
    }
  }

  lemma PlannedAfterSends(events: seq<Event>, l: Limits, c: Call)
    requires Interval(l) > 0 && c.kind == Send
    ensures PlannedAt(events, l, c) >= c.now
    ensures forall x | x in events && x.kind == Send :: x.at + Interval(l) <= PlannedAt(events, l, c)
  {
  }

  lemma SpacedOne(hist: seq<Event>, e: Event, interval: nat)
    requires Spaced(hist, interval)
    requires e.kind == Send ==> forall x | x in hist && x.kind == Send :: x.at + interval <= e.at
    ensures Spaced(hist + [e], interval)
  {
    assert (hist + [e])[..|hist|] == hist;
  }

  lemma CallKeeps(s: State, limits: Option<Limits>, start: State, call: nat, c: Call)
    requires Booked(s, start) && Enabled(s, Single(call, c))
    ensures var t, l := After(s, limits, Single(call, c)), InForce(limits);
            Booked(t, start) && (Bounded(s, l) && ShortInterval(l) ==> Bounded(t, l))
  {
    hide Reserve, Purge, PlannedAt, Addition, WindowsBounded, Pacing, Accounted, TableOk, ShortInterval,
         InForce, EffectiveLimits;
    var o, l := Reserve(s.table, limits, c), InForce(limits);
    if o.Taken? {
      CallAdds(s, limits, c);
      assert EffectiveLimits(limits, c.kind) == Some(l) by { TakenUnder(s.table, limits, c); }
      var purged := Purge(s.table.events, c.now);
      var e :| o.table == Table(purged + [e], s.table.nextId + 1) && o.ids == [e.id] && e.kind == c.kind
               && e.at == PlannedAt(purged, l, c) && Addition(s, l, [e], c.now);
      if Pacing(s.hist, l) && ShortInterval(l) {
        SendPaced(s, l, c, e);
      }
      assert (purged + [e])[|purged|..] == [e];
      assert o.ids == Ids([e]);
      TookKeeps(s, l, start, call, [e], c.kind == Lookup, c.now);
    } else {
      ClockKeeps(s, start, c.now);
    }
  }

  lemma TakenUnder(table: Table, limits: Option<Limits>, c: Call)
    requires Reserve(table, limits, c).Taken?
    ensures EffectiveLimits(limits, c.kind) == Some(InForce(limits))
  {
    hide CheckWindows, Purge;
  }

  lemma ClockKeeps(s: State, start: State, now: int)
    requires Booked(s, start) && now >= s.clock
    ensures Booked(s.(clock := now), start)
  {
    hide Filter;
  }

  lemma BundleKeeps(s: State, limits: Option<Limits>, start: State, call: nat, needs: map<Kind, nat>,
                    chat: Option<int>, now: int)
    requires Booked(s, start) && Enabled(s, Bundle(call, needs, chat, now))
    ensures var t, l := After(s, limits, Bundle(call, needs, chat, now)), InForce(limits);
            Booked(t, start) && (Bounded(s, l) ==> Bounded(t, l))
  {
    hide ReserveBundle, Purge, BundleRows, Addition, WindowsBounded, Pacing, Accounted;
    var o, l := ReserveBundle(s.table, limits, needs, chat, now), InForce(limits);
    if o.Taken? {
      assert limits == Some(l) by { BundleUnder(s.table, limits, needs, chat, now); }
      BundleAdds(s, l, needs, chat, now);
      var purged, rows := Purge(s.table.events, now), BundleRows(s.table.nextId, BUNDLE_KINDS, needs, chat, now);
      BundleIds(s.table.nextId, BUNDLE_KINDS, needs, chat, now);
      if Pacing(s.hist, l) {
        BundlePaced(s.hist, rows, l, s.table.nextId, now);
      }
      assert (purged + rows)[|purged|..] == rows;
      TookKeeps(s, l, start, call, rows, false, now);
    } else {
      ClockKeeps(s, start, now);
    }
  }

  lemma BundleUnder(table: Table, limits: Option<Limits>, needs: map<Kind, nat>, chat: Option<int>, now: int)
    requires BundleNeeds(needs) && ReserveBundle(table, limits, needs, chat, now).Taken?
    ensures limits == Some(InForce(limits))
  {
    hide CheckWindows, Purge, BundleRows;
  }

  lemma BundlePaced(hist: seq<Event>, rows: seq<Event>, l: Limits, id: nat, at: int)
    requires Pacing(hist, l) && FreshRows(rows, id, BUNDLE_KINDS, at)
    ensures Pacing(hist + rows, l)
  {
    if Interval(l) > 0 {
      SpacedAppends(hist, rows, Interval(l));
    }
  }

  /** The end of a call keeps everything, whether its rows stay or go. */
  lemma EndKeeps(s: State, limits: Option<Limits>, l: Limits, start: State, call: nat, failed: bool)
    requires Booked(s, start) && call in s.open
    ensures var t := After(s, limits, End(call, failed));
            Booked(t, start) && (Bounded(s, l) ==> Bounded(t, l))
  {
    var slot := s.open[call];
    if failed && !slot.lookup {
      var keep := NotIn(Ids(slot.rows));
      ReleaseKeeps(s, keep);
      if Bounded(s, l) {
        ReleaseBounded(s.hist, l, keep);
      }
      ReleaseAccounted(s, start, call);
    } else {
      KeptAccounted(s, start, call);
    }
  }

  lemma ReleaseKeeps(s: State, keep: Event -> bool)
    requires TableOk(s)
    ensures TableOk(s.(table := s.table.(events := Filter(s.table.events, keep)), hist := Filter(s.hist, keep)))
  {
    hide Filter;
    FiltersSwap(s.hist, Since(s.bound), keep);
    FilterIn(s.hist, keep);
  }

  lemma ReleaseBounded(hist: seq<Event>, l: Limits, keep: Event -> bool)
    requires WindowsBounded(hist, l) && Pacing(hist, l)
    ensures WindowsBounded(Filter(hist, keep), l) && Pacing(Filter(hist, keep), l)
  {
    hide Filter, Spaced, CountBetween;
    forall w, t | w in WINDOWS && HasLimit(l, w)
      ensures InWindow(Filter(hist, keep), w, t) <= l.windows[w.name]
    {
      RemovedBetweenLess(hist, keep, w, t - Span(w), t);
      assert InWindow(hist, w, t) <= l.windows[w.name];
    }
    if Interval(l) > 0 {
      SpacedFiltered(hist, keep, Interval(l));
    }
  }

  lemma ReleaseAccounted(s: State, start: State, call: nat)
    requires Accounted(s, start) && call in s.open
    ensures var rows := s.open[call].rows;
            Accounted(s.(hist := Filter(s.hist, NotIn(Ids(rows))), open := s.open - {call},
                         released := s.released + IdsIn(rows)), start)
  {
    hide Whole, Filter, Ids;
    var rows := s.open[call].rows;
    var t := s.(hist := Filter(s.hist, NotIn(Ids(rows))), open := s.open - {call}, released := s.released + IdsIn(rows));
    ReleasedIds(s.hist, rows);
    OpenWithout(s.open, call);
    OpenApart(s.open, call);
    forall c | c in t.open
      ensures Whole(t.hist, t.open[c])
    {
      StillWhole(s.hist, rows, s.open[c]);
    }
  }

  lemma ReleasedIds(hist: seq<Event>, rows: seq<Event>)
    ensures IdsIn(Filter(hist, NotIn(Ids(rows)))) == IdsIn(hist) - IdsIn(rows)
  {
    hide Filter, Ids;
    IdsOf(rows);
    FilterIn(hist, NotIn(Ids(rows)));
    forall id | id in IdsIn(hist) && id !in IdsIn(rows)
      ensures id in IdsIn(Filter(hist, NotIn(Ids(rows))))
    {
      var e :| e in hist && e.id == id;
      assert e in Filter(hist, NotIn(Ids(rows)));
    }
  }

  /** Rows given back by another call leave a slot whole. */
  lemma StillWhole(hist: seq<Event>, rows: seq<Event>, slot: Slot)
    requires Whole(hist, slot) && IdsIn(rows) !! IdsIn(slot.rows)
    ensures Whole(Filter(hist, NotIn(Ids(rows))), slot)
  {
    hide Filter, Ids;
    FiltersSwap(hist, NotIn(Ids(rows)), Among(Ids(slot.rows)));
    IdsOf(rows);
    FilterAll(slot.rows, NotIn(Ids(rows)));
  }

  lemma OpenWithout(open: map<nat, Slot>, call: nat)
    requires call in open
    ensures OpenIds(open) == OpenIds(open - {call}) + IdsIn(open[call].rows)
  {
    forall id | id in OpenIds(open)
      ensures id in OpenIds(open - {call}) + IdsIn(open[call].rows)
    {
      var c :| c in open && id in IdsIn(open[c].rows);
      assert c != call ==> id in IdsIn((open - {call})[c].rows);
    }
  }

  lemma OpenApart(open: map<nat, Slot>, call: nat)
    requires call in open
    requires forall c, d | c in open && d in open && c != d :: IdsIn(open[c].rows) !! IdsIn(open[d].rows)
    ensures OpenIds(open - {call}) !! IdsIn(open[call].rows)
  {
    forall id | id in OpenIds(open - {call})
      ensures id !in IdsIn(open[call].rows)
    {
      var c :| c in open - {call} && id in IdsIn((open - {call})[c].rows);
      assert IdsIn(open[c].rows) !! IdsIn(open[call].rows);
    }
  }

  lemma KeptAccounted(s: State, start: State, call: nat)
    requires Accounted(s, start) && call in s.open
    ensures Accounted(s.(open := s.open - {call}, kept := s.kept + IdsIn(s.open[call].rows)), start)
  {
    hide Whole;
    OpenWithout(s.open, call);
    OpenApart(s.open, call);
  }

  // ---------------------------------------------------------------------------
  // Every run
  // ---------------------------------------------------------------------------

  ghost predicate Starts(s: State) {
    s.open == map[] && s.kept == {} && s.released == {} && Booked(s, s)
  }

  ghost predicate Follows(s: State, limits: Option<Limits>, t: State) {
    exists step :: Enabled(s, step) && After(s, limits, step) == t
  }

  ghost predicate StepAt(trace: seq<State>, limits: Option<Limits>, k: nat)
    requires 0 < k < |trace|
  {
    Follows(trace[k - 1], limits, trace[k])
  }

  /** A run under fixed limits, from any table. */
  ghost predicate IsRun(trace: seq<State>, limits: Option<Limits>) {
    && trace != [] && Starts(trace[0])
    && forall k | 0 < k < |trace| :: StepAt(trace, limits, k)
  }

  /** A run under fixed limits, from a table that respects them. */
  ghost predicate IsRunInLimits(trace: seq<State>, limits: Option<Limits>) {
    IsRun(trace, limits) && Bounded(trace[0], InForce(limits)) && ShortInterval(InForce(limits))
  }

  lemma {:induction false} RunIsSound(trace: seq<State>, limits: Option<Limits>)
    requires IsRun(trace, limits)
    ensures Booked(trace[|trace| - 1], trace[0])
    ensures IsRunInLimits(trace, limits) ==> Bounded(trace[|trace| - 1], InForce(limits))
  {
    hide Booked, Bounded, After;
    var n := |trace| - 1;
    if n > 0 {
      forall k | 0 < k < n
        ensures StepAt(trace[..n], limits, k)
      {
        assert StepAt(trace, limits, k);
      }
      RunIsSound(trace[..n], limits);
      assert StepAt(trace, limits, n);
      var step :| Enabled(trace[n - 1], step) && After(trace[n - 1], limits, step) == trace[n];
      match step
      case Single(call, c) => CallKeeps(trace[n - 1], limits, trace[0], call, c);
      case Bundle(call, needs, chat, now) => BundleKeeps(trace[n - 1], limits, trace[0], call, needs, chat, now);
      case End(call, failed) => EndKeeps(trace[n - 1], limits, InForce(limits), trace[0], call, failed);
    }
  }

  /**
   The sliding-window bound over whole runs: for every window and every time t, the rows not
   given back whose planned time lies in the window that ends at t never exceed the limit,
   purged rows and rows planned for later included.
   */
  lemma WindowsBoundedInAnyRun(trace: seq<State>, limits: Option<Limits>, w: Window, t: int)
    requires IsRunInLimits(trace, limits) && w in WINDOWS && HasLimit(InForce(limits), w)
    ensures CountBetween(trace[|trace| - 1].hist, w, t - w.seconds * SECOND, t) <= InForce(limits).windows[w.name]
  {
    hide CountBetween, Accounted, TableOk, Pacing;
    RunIsSound(trace, limits);
    assert InWindow(trace[|trace| - 1].hist, w, t) <= InForce(limits).windows[w.name];
  }

  /** Send spacing over whole runs: any two recorded sends are at least the interval apart. */
  lemma SendsSpacedInAnyRun(trace: seq<State>, limits: Option<Limits>, i: nat, j: nat)
    requires IsRunInLimits(trace, limits) && Interval(InForce(limits)) > 0
    requires i < j < |trace[|trace| - 1].hist|
    ensures var hist := trace[|trace| - 1].hist;
            hist[i].kind == Send && hist[j].kind == Send ==>
              hist[i].at + Interval(InForce(limits)) <= hist[j].at
  {
    RunIsSound(trace, limits);
    SpacedPair(trace[|trace| - 1].hist, Interval(InForce(limits)), i, j);
  }

  lemma {:induction false} SpacedPair(hist: seq<Event>, interval: nat, i: nat, j: nat)
    requires Spaced(hist, interval) && i < j < |hist|
    ensures hist[i].kind == Send && hist[j].kind == Send ==> hist[i].at + interval <= hist[j].at
  {
    var n := |hist| - 1;
    if j < n {
      SpacedPair(hist[..n], interval, i, j);
    } else {
      assert hist[..n][i] == hist[i];
    }
  }

  /**
   Slot accounting: apart from purged rows, the table holds exactly the rows it started
   with, those of running calls, and those of calls that ended with a kept slot. Every id
   taken since the start is one of a running call, a kept one, or a given back one, and of
   these last none is left. A running call's rows are all there.
   */
  lemma SlotsAccountedInAnyRun(trace: seq<State>, limits: Option<Limits>)
    requires IsRun(trace, limits)
    ensures var s, start := trace[|trace| - 1], trace[0];
            && s.table.events == Filter(s.hist, Since(s.bound)) && s.bound <= s.clock - RETENTION
            && IdsIn(s.hist) == IdsIn(start.hist) + OpenIds(s.open) + s.kept
            && TakenSince(start.table.nextId, s.table.nextId) == OpenIds(s.open) + s.kept + s.released
            && IdsIn(s.hist) !! s.released && s.kept !! s.released
            && (forall c | c in s.open :: Filter(s.hist, Among(Ids(s.open[c].rows))) == s.open[c].rows)
  {
    hide Filter, Ids;
    RunIsSound(trace, limits);
    var s, start := trace[|trace| - 1], trace[0];
    forall c | c in s.open
      ensures Filter(s.hist, Among(Ids(s.open[c].rows))) == s.open[c].rows
    {
      assert Whole(s.hist, s.open[c]);
    }
  }

  /**
   A certain failure gives the slot back as a whole: in any run, when a call that is not a
   lookup ends like that, every count over any time drops by exactly the call's own rows,
   every other row stays in its place, and no id of the slot is left, in the history or in
   the table.
   */
  lemma ReleaseInAnyRun(trace: seq<State>, limits: Option<Limits>, call: nat, w: Window, from: int, to: int)
    requires IsRun(trace, limits) && call in trace[|trace| - 1].open && !trace[|trace| - 1].open[call].lookup
    ensures var s := trace[|trace| - 1];
            var rows, t := s.open[call].rows, After(s, limits, End(call, true));
            && CountBetween(s.hist, w, from, to) == CountBetween(t.hist, w, from, to) + CountBetween(rows, w, from, to)
            && CountBetween(s.table.events, w, from, to)
               == CountBetween(t.table.events, w, from, to) + CountBetween(Filter(rows, Since(s.bound)), w, from, to)
            && (forall e :: e in t.hist <==> e in s.hist && e !in rows)
            && t.hist == Filter(s.hist, NotIn(Ids(rows))) && t.table.events == Filter(t.hist, Since(s.bound))
            && IdsIn(t.hist) !! IdsIn(rows) && IdsIn(t.table.events) !! IdsIn(rows)
  {
    hide Filter, Ids, CountBetween, Bounded;
    RunIsSound(trace, limits);
    var s := trace[|trace| - 1];
    var rows, t := s.open[call].rows, After(s, limits, End(call, true));
    var ids := Ids(rows);
    assert Whole(s.hist, s.open[call]);
    CountsSplit(s.hist, ids, w, from, to);
    CountsSplit(s.table.events, ids, w, from, to);
    FiltersSwap(s.hist, Since(s.bound), Among(ids));
    FiltersSwap(s.hist, Since(s.bound), NotIn(ids));
    IdsOf(rows);
    FilterIn(s.hist, NotIn(ids));
    FilterIn(s.hist, Among(ids));
    FilterIn(t.hist, Since(s.bound));
  }

  /** Rows with some ids and the others make up every count. */
  lemma {:induction false} CountsSplit(events: seq<Event>, ids: seq<nat>, w: Window, from: int, to: int)
    ensures CountBetween(events, w, from, to)
            == CountBetween(Filter(events, NotIn(ids)), w, from, to) + CountBetween(Filter(events, Among(ids)), w, from, to)
  {
    hide Filter;
    if events != [] {
      var init, e := events[..|events| - 1], events[|events| - 1];
      assert events == init + [e];
      CountsSplit(init, ids, w, from, to);
      FilterAppend(init, e, NotIn(ids));
      FilterAppend(init, e, Among(ids));
      BetweenAppend(init, e, w, from, to);
      var rest, some := Filter(init, NotIn(ids)), Filter(init, Among(ids));
      BetweenAppend(rest, e, w, from, to);
      BetweenAppend(some, e, w, from, to);
      assert rest + [] == rest && some + [] == some;
    } else {
      FilterNone(events, NotIn(ids));
      FilterNone(events, Among(ids));
    }
  }

  /** Limits that let two sends a day apart pass. */
  predicate LetsSend(l: Limits) {
    l.enabled && forall name | name in l.windows :: l.windows[name] >= 1
  }

  const NOTHING := State(Table([], 0), 0, -RETENTION, [], map[], {}, {})

  /**
   It happens: a first send to a chat with history is no new dialog; the second one, just
   over the retention later, is taken for one.
   */
  lemma ColdSendHappens(l: Limits, chat: int, history: bool, jitter: nat) returns (trace: seq<State>)
    requires LetsSend(l)
    ensures IsRun(trace, Some(l)) && |trace| == 2 && trace[0] == NOTHING && trace[1].table.events != []
    ensures var later := RETENTION + 1;
            NewDialog(Purge(trace[1].table.events, later), CallFor(trace[1].table, Send, Some(chat), true, later, jitter))
  {
    hide CheckWindows;
    var c := Call(Send, Some(chat), history, 0, jitter);
    EmptyLets(l, c);
    var t := After(NOTHING, Some(l), Single(0, c));
    trace := [NOTHING, t];
    assert Starts(NOTHING);
    assert StepAt(trace, Some(l), 1) by {
      assert Enabled(NOTHING, Single(0, c)) && After(NOTHING, Some(l), Single(0, c)) == t;
    }
    var e := Event(0, Send, Some(chat), NewDialog([], c), 0);
    assert t.table.events == [e];
    assert e in t.table.events;
    ColdSendMisjudged(t.table, chat, RETENTION + 1, jitter);
  }

  lemma EmptyLets(l: Limits, c: Call)
    requires LetsSend(l) && c.kind == Send && c.now == 0
    ensures Reserve(Table([], 0), Some(l), c)
            == Taken(Table([Event(0, Send, c.chat, NewDialog([], c), 0)], 1), [0], 0)
  {
    hide CheckWindows;
    assert Purge([], 0) == [];
    CheckIsExact([], l, map[Send := 1], NewDialog([], c), 0);
    assert [] + [Event(0, Send, c.chat, NewDialog([], c), 0)] == [Event(0, Send, c.chat, NewDialog([], c), 0)];
  }
}
