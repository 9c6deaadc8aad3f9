/**
 Write limits of one account: a reservation checks every sliding window under the account's
 lock and takes its slots all at once. Times are whole microseconds.
 */
module WriteLimits {
  import opened Wrappers
  import opened Seqs
  import opened WindowCounts

  const WINDOWS: seq<Window> := [
    Window(PerMinute, Send, 60, false),
    Window(PerHour, Send, 3600, false),
    Window(PerDay, Send, 86400, false),
    Window(NewDialogsPerDay, Send, 86400, true),
    Window(ActionsPerHour, Action, 3600, false),
    Window(PhoneLookupsPerDay, Lookup, 86400, false),
    Window(GroupsCreatedPerDay, GroupCreate, 86400, false),
    Window(GroupInvitesPerDay, GroupInvite, 86400, false),
    Window(ChatsJoinedPerDay, ChatJoin, 86400, false),
    Window(ContactsImportedPerDay, ContactImport, 86400, false)
  ]

  const MAX_WAIT := 15 * SECOND
  const RETENTION := 25 * 3600 * SECOND
  const MAX_INTERVAL := 3600

  /** The limits by setting (None: off), and the pause between sends. */
  datatype Limits = Limits(enabled: bool, windows: map<Setting, nat>,
                           minIntervalSec: Option<nat>, jitterSec: Option<nat>)

  const LOOKUP_DEFAULT := 20
  const NO_LIMITS := Limits(true, map[PhoneLookupsPerDay := LOOKUP_DEFAULT], None, None)

  predicate HasLimit(l: Limits, w: Window) {
    w.name in l.windows
  }

  function Need(needs: map<Kind, nat>, kind: Kind): nat {
    if kind in needs then needs[kind] else 0
  }

  /** The window is asked: it has a limit, the call needs its kind, and new dialogs count. */
  predicate Asked(l: Limits, needs: map<Kind, nat>, newDialog: bool, w: Window) {
    HasLimit(l, w) && Need(needs, w.kind) > 0 && (w.newDialogsOnly ==> newDialog)
  }

  predicate Fits(events: seq<Event>, l: Limits, needs: map<Kind, nat>, now: int, w: Window)
    requires HasLimit(l, w)
  {
    Count(events, w, now) + Need(needs, w.kind) <= l.windows[w.name]
  }

  ghost predicate AllFit(events: seq<Event>, l: Limits, needs: map<Kind, nat>, newDialog: bool, now: int) {
    forall w | w in WINDOWS && Asked(l, needs, newDialog, w) :: Fits(events, l, needs, now, w)
  }

  /** Whole seconds, rounded up. */
  function CeilSeconds(us: int): int {
    -((-us) / SECOND)
  }

  /** Seconds until the window holds limit - n events: its (used - limit + n)-th oldest leaves it. */
  function RetryAfter(events: seq<Event>, w: Window, now: int, used: nat, limit: nat, n: nat): nat {
    var ts := Sort(TimesAfter(events, w, now - Span(w)), Same);
    var k := used - limit + n - 1;
    if 0 <= k < |ts| then Max(1, CeilSeconds(ts[k] + Span(w) - now)) else w.seconds
  }

  /** A full window; wait None: the events would never fit. */
  datatype Full = Full(w: Window, limit: nat, used: nat, wait: Option<nat>, n: nat)

  function FullOf(events: seq<Event>, l: Limits, needs: map<Kind, nat>, now: int, w: Window): Full
    requires HasLimit(l, w)
  {
    var limit, used, n := l.windows[w.name], Count(events, w, now), Need(needs, w.kind);
    Full(w, limit, used, if n > limit then None else Some(RetryAfter(events, w, now, used, limit, n)), n)
  }

  function FullWindows(ws: seq<Window>, events: seq<Event>, l: Limits, needs: map<Kind, nat>,
                       newDialog: bool, now: int): seq<Full>
  {
    if ws == [] then []
    else
      var w := ws[|ws| - 1];
      FullWindows(ws[..|ws| - 1], events, l, needs, newDialog, now)
      + if Asked(l, needs, newDialog, w) && !Fits(events, l, needs, now, w) then [FullOf(events, l, needs, now, w)]
        else []
  }

  /** a waits longer than b; a window that can never fit waits longest. */
  predicate Longer(a: Full, b: Full) {
    b.wait.Some? && (a.wait.None? || a.wait.value > b.wait.value)
  }

  /** The first window with the longest wait. */
  function Decisive(full: seq<Full>): Full
    requires full != []
  {
    if |full| == 1 then full[0]
    else
      var best := Decisive(full[..|full| - 1]);
      if Longer(full[|full| - 1], best) then full[|full| - 1] else best
  }

  function OtherThan(w: Window): Full -> bool {
    (f: Full) => f.w != w
  }

  /** The answer of a refused call: the deciding window, and the other full ones. */
  datatype Refusal = Refusal(decided: Full, also: seq<Full>)

  function CheckWindows(events: seq<Event>, l: Limits, needs: map<Kind, nat>, newDialog: bool, now: int): Option<Refusal> {
    var full := FullWindows(WINDOWS, events, l, needs, newDialog, now);
    if full == [] then None
    else
      var d := Decisive(full);
      Some(Refusal(d, Filter(full, OtherThan(d.w))))
  }

  // ---------------------------------------------------------------------------
  // What a refusal means
  // ---------------------------------------------------------------------------

  lemma {:induction false} FullWindowsIn(ws: seq<Window>, events: seq<Event>, l: Limits, needs: map<Kind, nat>,
                                         newDialog: bool, now: int)
    ensures var full := FullWindows(ws, events, l, needs, newDialog, now);
            && (forall f | f in full ::
                  f.w in ws && Asked(l, needs, newDialog, f.w) && !Fits(events, l, needs, now, f.w)
                  && f == FullOf(events, l, needs, now, f.w))
            && (forall w | w in ws && Asked(l, needs, newDialog, w) && !Fits(events, l, needs, now, w) ::
                  FullOf(events, l, needs, now, w) in full)
  {
    hide Asked, Fits, RetryAfter, Count;
    if ws != [] {
      FullWindowsIn(ws[..|ws| - 1], events, l, needs, newDialog, now);
      assert ws == ws[..|ws| - 1] + [ws[|ws| - 1]];
    }
  }

  lemma {:induction false} DecisiveLongest(full: seq<Full>)
    requires full != []
    ensures Decisive(full) in full
    ensures forall f | f in full :: !Longer(f, Decisive(full))
  {
    var n := |full| - 1;
    if n > 0 {
      DecisiveLongest(full[..n]);
      assert full == full[..n] + [full[n]];
    }
  }

  /** The check lets the call through exactly when all its events fit every window asked. */
  lemma CheckIsExact(events: seq<Event>, l: Limits, needs: map<Kind, nat>, newDialog: bool, now: int)
    ensures CheckWindows(events, l, needs, newDialog, now).None? <==> AllFit(events, l, needs, newDialog, now)
  {
    hide Asked, Fits, FullOf, FullWindows, Decisive, Filter;
    FullWindowsIn(WINDOWS, events, l, needs, newDialog, now);
    var full := FullWindows(WINDOWS, events, l, needs, newDialog, now);
    if full != [] {
      assert full[0] in full;
    }
  }

  /** What is known of the deciding window. */
  lemma DecidedWindow(events: seq<Event>, l: Limits, needs: map<Kind, nat>, newDialog: bool, now: int)
    requires CheckWindows(events, l, needs, newDialog, now).Some?
    ensures var d := CheckWindows(events, l, needs, newDialog, now).value.decided;
            && d.w in WINDOWS && Asked(l, needs, newDialog, d.w) && !Fits(events, l, needs, now, d.w)
            && d == FullOf(events, l, needs, now, d.w)
            && forall w | w in WINDOWS && Asked(l, needs, newDialog, w) && !Fits(events, l, needs, now, w) ::
                 !Longer(FullOf(events, l, needs, now, w), d)
  {
    hide Asked, Fits, FullOf, FullWindows, Decisive, Filter, Longer;
    FullWindowsIn(WINDOWS, events, l, needs, newDialog, now);
    DecisiveLongest(FullWindows(WINDOWS, events, l, needs, newDialog, now));
  }

  /** The answer also names exactly the other windows asked that are full. */
  lemma AlsoNamesTheOthers(events: seq<Event>, l: Limits, needs: map<Kind, nat>, newDialog: bool, now: int, w: Window)
    requires CheckWindows(events, l, needs, newDialog, now).Some? && w in WINDOWS
    ensures var r := CheckWindows(events, l, needs, newDialog, now).value;
            (exists f :: f in r.also && f.w == w)
            <==> Asked(l, needs, newDialog, w) && !Fits(events, l, needs, now, w) && w != r.decided.w
  {
    hide Fits, FullWindows, Decisive, Filter, RetryAfter;
    FullWindowsIn(WINDOWS, events, l, needs, newDialog, now);
    var full := FullWindows(WINDOWS, events, l, needs, newDialog, now);
    var r := CheckWindows(events, l, needs, newDialog, now).value;
    FilterIn(full, OtherThan(r.decided.w));
    if Asked(l, needs, newDialog, w) && !Fits(events, l, needs, now, w) && w != r.decided.w {
      var f := FullOf(events, l, needs, now, w);
      assert f in full && f.w == w && OtherThan(r.decided.w)(f);
      assert f in r.also;
    }
  }

  /** Retry-After is absent exactly when some window asked can never hold the events needed. */
  lemma RetryAbsentIffNeverFits(events: seq<Event>, l: Limits, needs: map<Kind, nat>, newDialog: bool, now: int)
    requires CheckWindows(events, l, needs, newDialog, now).Some?
    ensures CheckWindows(events, l, needs, newDialog, now).value.decided.wait.None?
            <==> exists w :: w in WINDOWS && Asked(l, needs, newDialog, w) && Need(needs, w.kind) > l.windows[w.name]
  {
    hide CheckWindows, RetryAfter;
    DecidedWindow(events, l, needs, newDialog, now);
  }

  /**
   The time the answer is made from exists: the fallback for a missing row is unreachable.
   */
  lemma LeavingEventExists(events: seq<Event>, w: Window, now: int, limit: nat, n: nat)
    requires n <= limit < Count(events, w, now) + n
    ensures var used := Count(events, w, now);
            0 <= used - limit + n - 1 < |Sort(TimesAfter(events, w, now - Span(w)), Same)|
  {
    hide TimesAfter, Sort;
    SortKeeps(TimesAfter(events, w, now - Span(w)), Same);
  }

  lemma CeilBounds(us: int)
    ensures (CeilSeconds(us) - 1) * SECOND < us <= CeilSeconds(us) * SECOND
  {
  }

  /**
   One window: waiting the computed seconds is enough for the events to fit, and one second
   less is not, if nothing is added or removed.
   */
  lemma RetryOfWindow(events: seq<Event>, w: Window, now: int, limit: nat, n: nat, at: int)
    requires n <= limit < Count(events, w, now) + n
    ensures var r := RetryAfter(events, w, now, Count(events, w, now), limit, n);
            && (now + r * SECOND <= at ==> Count(events, w, at) + n <= limit)
            && (now <= at <= now + (r - 1) * SECOND ==> limit < Count(events, w, at) + n)
  {
    hide TimesAfter, Sort, CountAbove, CeilSeconds;
    var since := now - Span(w);
    var times := TimesAfter(events, w, since);
    var ts := Sort(times, Same);
    var k := |times| - limit + n - 1;
    LeavingEventExists(events, w, now, limit, n);
    SortKeeps(times, Same);
    SortSorted(times, Same);
    SameElements(ts, times);
    var leaves := ts[k] + Span(w) - now;
    CeilBounds(leaves);
    assert ts[k] in times;
    TimesAreAfter(events, w, since);
    assert leaves > 0;
    if now <= at {
      AboveTimes(events, w, since, at - Span(w));
      AboveSort(times, at - Span(w));
      NthInOrder(ts, k, at - Span(w));
    }
  }

  lemma {:induction false} TimesAreAfter(events: seq<Event>, w: Window, since: int)
    ensures forall t | t in TimesAfter(events, w, since) :: since < t
  {
    if events != [] {
      TimesAreAfter(events[..|events| - 1], w, since);
    }
  }

  /**
   Retry-After is exact. If the check refuses with r seconds, the same needs pass every
   window at any time from now + r on, whatever rows are released or purged meanwhile, as
   long as none is added; and at now + r - 1 the deciding window is still full if no row
   went away.
   */
  lemma RetryIsEnough(events: seq<Event>, l: Limits, needs: map<Kind, nat>, newDialog: bool, now: int,
                      later: int, keep: Event -> bool, laterDialog: bool)
    requires CheckWindows(events, l, needs, newDialog, now).Some?
    requires CheckWindows(events, l, needs, newDialog, now).value.decided.wait.Some?
    requires later >= now + CheckWindows(events, l, needs, newDialog, now).value.decided.wait.value * SECOND
    requires laterDialog ==> newDialog
    ensures CheckWindows(Filter(events, keep), l, needs, laterDialog, later).None?
  {
    hide CheckWindows, RetryAfter, Filter, TimesAfter;
    DecidedWindow(events, l, needs, newDialog, now);
    var d := CheckWindows(events, l, needs, newDialog, now).value.decided;
    forall w | w in WINDOWS && Asked(l, needs, laterDialog, w)
      ensures Fits(Filter(events, keep), l, needs, later, w)
    {
      RemovedCountsLess(events, keep, w, later - Span(w));
      if Fits(events, l, needs, now, w) {
        FewerLater(events, w, now - Span(w), later - Span(w));
      } else {
        var f := FullOf(events, l, needs, now, w);
        assert !Longer(f, d);
        RetryOfWindow(events, w, now, f.limit, f.n, later);
      }
    }
    CheckIsExact(Filter(events, keep), l, needs, laterDialog, later);
  }

  lemma RetryIsTight(events: seq<Event>, l: Limits, needs: map<Kind, nat>, newDialog: bool, now: int)
    requires CheckWindows(events, l, needs, newDialog, now).Some?
    requires CheckWindows(events, l, needs, newDialog, now).value.decided.wait.Some?
    ensures var d := CheckWindows(events, l, needs, newDialog, now).value.decided;
            Asked(l, needs, newDialog, d.w) && !Fits(events, l, needs, now + (d.wait.value - 1) * SECOND, d.w)
  {
    hide CheckWindows, RetryAfter, TimesAfter;
    DecidedWindow(events, l, needs, newDialog, now);
    var d := CheckWindows(events, l, needs, newDialog, now).value.decided;
    RetryAtLeastOne(events, d.w, now, d.used, d.limit, d.n);
    RetryOfWindow(events, d.w, now, d.limit, d.n, now + (d.wait.value - 1) * SECOND);
  }

  lemma RetryAtLeastOne(events: seq<Event>, w: Window, now: int, used: nat, limit: nat, n: nat)
    requires n <= limit < used + n && used == Count(events, w, now)
    ensures RetryAfter(events, w, now, used, limit, n) >= 1
  {
    LeavingEventExists(events, w, now, limit, n);
  }

  // ---------------------------------------------------------------------------
  // Reservation
  // ---------------------------------------------------------------------------

  /** The event table of the account. */
  datatype Table = Table(events: seq<Event>, nextId: nat)

  /** One call to reserve: what it writes, and what the world tells it. */
  datatype Call = Call(kind: Kind, chat: Option<int>, history: bool, now: int, jitter: nat)

  datatype Outcome =
    | Taken(table: Table, ids: seq<nat>, wait: nat)
    | NoLimit
    | Disabled
    | OverLimit(refusal: Refusal)
    | Queued(retryAfter: nat)

  function Since(bound: int): Event -> bool {
    (e: Event) => e.at >= bound
  }

  function Purge(events: seq<Event>, now: int): seq<Event> {
    Filter(events, Since(now - RETENTION))
  }

  predicate SentTo(events: seq<Event>, chat: int) {
    exists e :: e in events && e.kind == Send && e.chat == Some(chat)
  }

  function LastSend(events: seq<Event>): (last: Option<int>)
    ensures last.None? ==> forall e | e in events :: e.kind != Send
    ensures last.Some? ==> forall e | e in events && e.kind == Send :: e.at <= last.value
    ensures last.Some? ==> exists e :: e in events && e.kind == Send && e.at == last.value
  {
    if events == [] then None
    else
      var init, e := events[..|events| - 1], events[|events| - 1];
      assert events == init + [e];
      var before := LastSend(init);
      if e.kind != Send then before
      else if before.None? then Some(e.at)
      else Some(Max(before.value, e.at))
  }

  /** Lookups are limited on every platform; other writes only where limits exist. */
  function EffectiveLimits(limits: Option<Limits>, kind: Kind): Option<Limits> {
    if limits.None? && kind == Lookup then Some(NO_LIMITS) else limits
  }

  /** The pause before the next send: the interval plus the jitter drawn. */
  function Pause(l: Limits, jitter: nat): nat {
    (if l.minIntervalSec.Some? then l.minIntervalSec.value * SECOND else 0)
    + if l.jitterSec.Some? && l.jitterSec.value > 0 then jitter else 0
  }

  predicate Paced(l: Limits, kind: Kind) {
    kind == Send && l.minIntervalSec.Some? && l.minIntervalSec.value > 0
  }

  /** When the write happens: now, or after the last send and the pause. */
  function PlannedAt(events: seq<Event>, l: Limits, c: Call): (at: int)
    ensures at >= c.now
  {
    var last := LastSend(events);
    if Paced(l, c.kind) && last.Some? then Max(c.now, last.value + Pause(l, c.jitter)) else c.now
  }

  /** A cold first message: no message at all in the chat, and no send of ours. */
  predicate NewDialog(events: seq<Event>, c: Call) {
    c.kind == Send && c.chat.Some? && !c.history && !SentTo(events, c.chat.value)
  }

  /** reserve under the account's lock; a refusal rolls the purge back with everything else. */
  function Reserve(table: Table, limits: Option<Limits>, c: Call): Outcome {
    var effective := EffectiveLimits(limits, c.kind);
    if effective.None? then NoLimit
    else if !effective.value.enabled then Disabled
    else
      var l := effective.value;
      var events := Purge(table.events, c.now);
      var newDialog := NewDialog(events, c);
      var refused := CheckWindows(events, l, map[c.kind := 1], newDialog, c.now);
      if refused.Some? then OverLimit(refused.value)
      else
        var at := PlannedAt(events, l, c);
        if at - c.now > MAX_WAIT then Queued(Max(1, CeilSeconds(at - c.now - MAX_WAIT)))
        else
          var e := Event(table.nextId, c.kind, c.chat, newDialog, at);
          Taken(Table(events + [e], table.nextId + 1), [table.nextId], at - c.now)
  }

  const BUNDLE_KINDS: seq<Kind> := [Action, GroupCreate, GroupInvite, ChatJoin, ContactImport]

  predicate BundleNeeds(needs: map<Kind, nat>) {
    forall k | k in needs :: k in BUNDLE_KINDS
  }

  /** n events of one kind at once. */
  function Copies(id: nat, kind: Kind, chat: Option<int>, at: int, n: nat): (es: seq<Event>)
    ensures |es| == n
    ensures forall i | 0 <= i < n :: es[i] == Event(id + i, kind, chat, false, at)
  {
    seq(n, i requires 0 <= i < n => Event(id + i, kind, chat, false, at))
  }

  /** The rows of a bundle, kind after kind. */
  function BundleRows(id: nat, kinds: seq<Kind>, needs: map<Kind, nat>, chat: Option<int>, at: int): seq<Event>
    decreases |kinds|
  {
    if kinds == [] then []
    else
      var n := Need(needs, kinds[0]);
      Copies(id, kinds[0], chat, at, n) + BundleRows(id + n, kinds[1..], needs, chat, at)
  }

  function Ids(events: seq<Event>): seq<nat> {
    seq(|events|, i requires 0 <= i < |events| => events[i].id)
  }

  /** reserve_bundle: all events fit or none is taken; no pacing and no new dialogs. */
  function ReserveBundle(table: Table, limits: Option<Limits>, needs: map<Kind, nat>, chat: Option<int>,
                         now: int): Outcome
    requires BundleNeeds(needs)
  {
    if limits.None? then NoLimit
    else if !limits.value.enabled then Disabled
    else
      var events := Purge(table.events, now);
      var refused := CheckWindows(events, limits.value, needs, false, now);
      if refused.Some? then OverLimit(refused.value)
      else
        var rows := BundleRows(table.nextId, BUNDLE_KINDS, needs, chat, now);
        Taken(Table(events + rows, table.nextId + |rows|), Ids(rows), 0)
  }

  function NotIn(ids: seq<nat>): Event -> bool {
    (e: Event) => e.id !in ids
  }

  /** Slot.release: the rows of the slot are deleted. */
  function Release(table: Table, ids: seq<nat>): Table {
    table.(events := Filter(table.events, NotIn(ids)))
  }

  // ---------------------------------------------------------------------------
  // Single calls
  // ---------------------------------------------------------------------------

  /**
   An accepted send is planned within 15 s of its call, not before the pause is over, and no
   later than the pause after some send asks for. It is the one row added, with its chat and
   whether it opens a dialog.
   */
  lemma AcceptedSendIsSoon(table: Table, l: Limits, c: Call)
    requires Reserve(table, Some(l), c).Taken?
    ensures var t, kept := Reserve(table, Some(l), c), Purge(table.events, c.now);
            && 0 <= t.wait <= MAX_WAIT
            && t.table.events == kept + [Event(table.nextId, c.kind, c.chat, NewDialog(kept, c), c.now + t.wait)]
            && (Paced(l, c.kind) ==> forall e | e in kept && e.kind == Send ::
                  e.at + l.minIntervalSec.value * SECOND <= c.now + t.wait)
            && (t.wait > 0 ==>
                  && Paced(l, c.kind)
                  && exists e :: e in kept && e.kind == Send && e.at + Pause(l, c.jitter) == c.now + t.wait)
  {
    hide CheckWindows, Purge, NewDialog;
  }

  /** A chat is a new dialog once: while the row of a send to it is there, no other send is one. */
  lemma OncePerChat(table: Table, l: Limits, c: Call, d: Call)
    requires c.kind == Send && c.chat.Some? && d.chat == c.chat
    requires Reserve(table, Some(l), c).Taken?
    requires d.now <= c.now + RETENTION
    ensures !NewDialog(Purge(Reserve(table, Some(l), c).table.events, d.now), d)
  {
    hide CheckWindows, Filter, NewDialog;
    var events := Reserve(table, Some(l), c).table.events;
    AcceptedSendIsSoon(table, l, c);
    var e := events[|events| - 1];
    FilterIn(events, Since(d.now - RETENTION));
    assert e in Purge(events, d.now);
    SentBefore(Purge(events, d.now), d, e);
  }

  lemma SentBefore(events: seq<Event>, d: Call, e: Event)
    requires e in events && e.kind == Send && e.chat == d.chat
    ensures !NewDialog(events, d)
  {
  }

  /**
   After a queue refusal, waiting its Retry-After is enough: with no row added meanwhile
   (rows may be released or purged), no larger jitter draw, and no new-dialog window newly
   asked, the same send is accepted.
   */
  lemma QueueRetryIsEnough(table: Table, l: Limits, c: Call, later: Table, d: Call, keep: Event -> bool)
    requires Reserve(table, Some(l), c).Queued?
    requires d.kind == c.kind && d.jitter <= c.jitter
    requires d.now >= c.now + Reserve(table, Some(l), c).retryAfter * SECOND
    requires later.events == Filter(table.events, keep)
    requires NewDialog(Purge(later.events, d.now), d) ==> NewDialog(Purge(table.events, c.now), c)
    ensures Reserve(later, Some(l), d).Taken?
  {
    hide CheckWindows, Purge, NewDialog, CeilSeconds;
    var events, after := Purge(table.events, c.now), Purge(later.events, d.now);
    var needs := map[c.kind := 1];
    CeilBounds(PlannedAt(events, l, c) - c.now - MAX_WAIT);
    CheckIsExact(events, l, needs, NewDialog(events, c), c.now);
    forall w | w in WINDOWS && Asked(l, needs, NewDialog(after, d), w)
      ensures Fits(after, l, needs, d.now, w)
    {
      FitsLater(table.events, keep, l, needs, c.now, d.now, w);
    }
    CheckIsExact(after, l, needs, NewDialog(after, d), d.now);
    PurgedSubset(table.events, keep, c.now, d.now);
  }

  /**
   Its Retry-After is no longer than needed: one second earlier, with the same table and
   jitter, the send is still refused.
   */
  lemma QueueRetryIsTight(table: Table, l: Limits, c: Call)
    requires Reserve(table, Some(l), c).Queued? && Pause(l, c.jitter) <= RETENTION
    ensures var r := Reserve(table, Some(l), c).retryAfter;
            r >= 1 && !Reserve(table, Some(l), c.(now := c.now + (r - 1) * SECOND)).Taken?
  {
    hide CheckWindows, Filter, NewDialog, CeilSeconds, LastSend;
    var events := Purge(table.events, c.now);
    var over := PlannedAt(events, l, c) - c.now - MAX_WAIT;
    CeilBounds(over);
    var r := Reserve(table, Some(l), c).retryAfter;
    var d := c.(now := c.now + (r - 1) * SECOND);
    assert r == 1 || over > (r - 1) * SECOND;
    LastSendStays(table.events, l, c, d);
  }

  lemma LastSendStays(events: seq<Event>, l: Limits, c: Call, d: Call)
    requires Pause(l, c.jitter) <= RETENTION && c.now <= d.now && d == c.(now := d.now)
    requires PlannedAt(Purge(events, c.now), l, c) > d.now + MAX_WAIT
    ensures PlannedAt(Purge(events, d.now), l, d) > d.now + MAX_WAIT
  {
    hide Filter;
    FilterIn(events, Since(c.now - RETENTION));
    FilterIn(events, Since(d.now - RETENTION));
    var last := LastSend(Purge(events, c.now)).value;
    var e :| e in Purge(events, c.now) && e.kind == Send && e.at == last;
    assert e in Purge(events, d.now);
  }

  lemma PurgedSubset(events: seq<Event>, keep: Event -> bool, now: int, later: int)
    requires now <= later
    ensures forall e | e in Purge(Filter(events, keep), later) :: e in Purge(events, now)
  {
    FilterIn(events, keep);
    FilterIn(Filter(events, keep), Since(later - RETENTION));
    FilterIn(events, Since(now - RETENTION));
  }

  /** What fits now fits later, when nothing is added. */
  lemma FitsLater(events: seq<Event>, keep: Event -> bool, l: Limits, needs: map<Kind, nat>, now: int, later: int, w: Window)
    requires now <= later && HasLimit(l, w) && w in WINDOWS
    requires Fits(Purge(events, now), l, needs, now, w)
    ensures Fits(Purge(Filter(events, keep), later), l, needs, later, w)
  {
    hide TimesAfter, Filter;
    UnseenRemoved(events, Since(now - RETENTION), w, now - Span(w));
    RemovedCountsLess(Filter(events, keep), Since(later - RETENTION), w, later - Span(w));
    RemovedCountsLess(events, keep, w, later - Span(w));
    FewerLater(events, w, now - Span(w), later - Span(w));
  }

  /** The call as it happens alone: history is only looked up for a chat without a send of ours. */
  function CallFor(table: Table, kind: Kind, chat: Option<int>, inHistory: bool, now: int, jitter: nat): Call {
    var sentBefore := kind == Send && chat.Some? && SentTo(table.events, chat.value);
    Call(kind, chat, kind == Send && chat.Some? && !sentBefore && inHistory, now, jitter)
  }

  /**
   A send to a chat with history is not a new dialog, except in one case: the table had a
   send to the chat before the lock, so the history was not looked up, and all of those
   rows are older than the retention and are purged under the lock.
   */
  lemma ColdSendMisjudged(table: Table, chat: int, now: int, jitter: nat)
    ensures NewDialog(Purge(table.events, now), CallFor(table, Send, Some(chat), true, now, jitter))
            <==> (SentTo(table.events, chat)
                  && forall e | e in table.events && e.kind == Send && e.chat == Some(chat) :: e.at < now - RETENTION)
  {
    FilterIn(table.events, Since(now - RETENTION));
  }

  /** Without history, a send is a new dialog exactly when no unpurged send went to the chat. */
  lemma ColdSendJudged(table: Table, chat: int, now: int, jitter: nat)
    ensures NewDialog(Purge(table.events, now), CallFor(table, Send, Some(chat), false, now, jitter))
            <==> forall e | e in table.events && e.kind == Send && e.chat == Some(chat) :: e.at < now - RETENTION
  {
    FilterIn(table.events, Since(now - RETENTION));
  }
}
