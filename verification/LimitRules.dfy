/**
 The write limits in full: when a call is let through, what it records, and what every run
 keeps, counted by the rows' own fields and with the settings' own numbers.
 */
module LimitRules {
  import opened Wrappers
  import opened Seqs
  import opened WindowCounts
  import opened WriteLimits
  import opened LimiterRuns

  const MINUTE := 60_000_000
  const HOUR := 3_600_000_000
  const DAY := 86_400_000_000
  const KEPT := 90_000_000_000

  /** What a setting counts, and over how long. */
  function KindOf(name: Setting): Kind {
    match name
    case PerMinute => Send
    case PerHour => Send
    case PerDay => Send
    case NewDialogsPerDay => Send
    case ActionsPerHour => Action
    case PhoneLookupsPerDay => Lookup
    case GroupsCreatedPerDay => GroupCreate
    case GroupInvitesPerDay => GroupInvite
    case ChatsJoinedPerDay => ChatJoin
    case ContactsImportedPerDay => ContactImport
  }

  function LengthOf(name: Setting): int {
    if name == PerMinute then MINUTE
    else if name == PerHour || name == ActionsPerHour then HOUR
    else DAY
  }

  /** The places of the rows that satisfy p. */
  function Where(events: seq<Event>, p: Event -> bool): set<nat> {
    set i: nat | i < |events| && p(events[i])
  }

  /** Rows planned after `from`, up to `to`, that a setting counts: its kind, or first messages to a chat. */
  function Planned(name: Setting, from: int, to: int): Event -> bool {
    (e: Event) => e.kind == KindOf(name) && (name == NewDialogsPerDay ==> e.newDialog) && from < e.at <= to
  }

  /** Rows of first messages to a chat. */
  function FirstMessages(from: int, to: int): Event -> bool {
    (e: Event) => e.kind == Send && e.newDialog && from < e.at <= to
  }

  /** Rows planned after `since`; those planned for later count as well. */
  function PlannedAfter(name: Setting, since: int): Event -> bool {
    (e: Event) => e.kind == KindOf(name) && (name == NewDialogsPerDay ==> e.newDialog) && since < e.at
  }

  function OfKind(kind: Kind): Event -> bool {
    (e: Event) => e.kind == kind
  }

  // ---------------------------------------------------------------------------
  // Counting places
  // ---------------------------------------------------------------------------

  lemma WhereAppend(events: seq<Event>, e: Event, p: Event -> bool)
    ensures |Where(events + [e], p)| == |Where(events, p)| + if p(e) then 1 else 0
  {
    var more := events + [e];
    assert forall i: nat | i < |events| :: more[i] == events[i];
    assert Where(more, p) == Where(events, p) + if p(e) then {|events|} else {};
  }

  lemma {:induction false} WhereBetween(events: seq<Event>, p: Event -> bool, w: Window, from: int, to: int)
    requires forall e :: p(e) <==> Hits(e, w) && from < e.at <= to
    ensures |Where(events, p)| == CountBetween(events, w, from, to)
  {
    hide Where;
    if events != [] {
      var init, e := events[..|events| - 1], events[|events| - 1];
      assert events == init + [e];
      WhereBetween(init, p, w, from, to);
      WhereAppend(init, e, p);
    } else {
      NoneWhere(p);
    }
  }

  lemma {:induction false} WhereAfter(events: seq<Event>, p: Event -> bool, w: Window, since: int)
    requires forall e :: p(e) <==> Hits(e, w) && since < e.at
    ensures |Where(events, p)| == |TimesAfter(events, w, since)|
  {
    hide Where;
    if events != [] {
      var init, e := events[..|events| - 1], events[|events| - 1];
      assert events == init + [e];
      WhereAfter(init, p, w, since);
      WhereAppend(init, e, p);
    } else {
      NoneWhere(p);
    }
  }

  lemma NoneWhere(p: Event -> bool)
    ensures |Where([], p)| == 0
  {
    assert Where([], p) == {};
  }

  // ---------------------------------------------------------------------------
  // Every run
  // ---------------------------------------------------------------------------

  /** The setting is off, or at least n. */
  predicate Allows(l: Limits, name: Setting, n: nat) {
    name in l.windows ==> n <= l.windows[name]
  }

  /** The window of a setting. */
  lemma WindowOf(name: Setting) returns (w: Window)
    ensures w in WINDOWS && w.name == name && Span(w) == LengthOf(name)
    ensures forall e: Event :: Hits(e, w) <==> e.kind == KindOf(name) && (name == NewDialogsPerDay ==> e.newDialog)
    ensures w.kind == KindOf(name) && (w.newDialogsOnly <==> name == NewDialogsPerDay)
  {
    var k := match name
      case PerMinute => 0
      case PerHour => 1
      case PerDay => 2
      case NewDialogsPerDay => 3
      case ActionsPerHour => 4
      case PhoneLookupsPerDay => 5
      case GroupsCreatedPerDay => 6
      case GroupInvitesPerDay => 7
      case ChatsJoinedPerDay => 8
      case ContactsImportedPerDay => 9;
    w := WINDOWS[k];
  }

  /** A setting has no other window. */
  lemma OnlyWindow(v: Window, w: Window)
    requires v in WINDOWS && w in WINDOWS && v.name == w.name
    ensures v == w
  {
  }

  /**
   The limits over whole runs: at every time, the rows not given back that a setting counts,
   and that lie in the minute, hour or 24 hours before, number at most what it allows.
   Without limits lookups are still limited to 20 a day.
   */
  lemma LimitsHoldInAnyRun(trace: seq<State>, limits: Option<Limits>, name: Setting, t: int)
    requires IsRunInLimits(trace, limits)
    ensures |trace| > 0
    ensures var h := trace[|trace| - 1].hist;
            && (limits.Some? ==> Allows(limits.value, name, |Where(h, Planned(name, t - LengthOf(name), t))|))
            && (limits.None? && name == PhoneLookupsPerDay ==> |Where(h, Planned(name, t - DAY, t))| <= 20)
  {
    hide Where, CountBetween, Bounded, Starts;
    var w := WindowOf(name);
    WhereBetween(trace[|trace| - 1].hist, Planned(name, t - LengthOf(name), t), w, t - LengthOf(name), t);
    if HasLimit(InForce(limits), w) {
      WindowsBoundedInAnyRun(trace, limits, w, t);
    }
  }

  /** Of these, the first messages to new chats: sends recorded as new dialogs in 24 hours. */
  lemma FirstMessagesLimitedInAnyRun(trace: seq<State>, l: Limits, t: int)
    requires IsRunInLimits(trace, Some(l)) && NewDialogsPerDay in l.windows
    ensures |trace| > 0
    ensures |Where(trace[|trace| - 1].hist, FirstMessages(t - 86_400_000_000, t))| <= l.windows[NewDialogsPerDay]
  {
    hide IsRunInLimits;
    LimitsHoldInAnyRun(trace, Some(l), NewDialogsPerDay, t);
    var p, q := FirstMessages(t - DAY, t), Planned(NewDialogsPerDay, t - DAY, t);
    assert forall e: Event :: p(e) == q(e);
    assert Where(trace[|trace| - 1].hist, p) == Where(trace[|trace| - 1].hist, q);
  }

  /** Sends over whole runs: each is planned at least the set seconds after every earlier one. */
  lemma SendsApartInAnyRun(trace: seq<State>, l: Limits, seconds: nat, i: nat, j: nat)
    requires IsRunInLimits(trace, Some(l)) && l.minIntervalSec == Some(seconds)
    requires i < j < |trace[|trace| - 1].hist|
    requires trace[|trace| - 1].hist[i].kind == Send && trace[|trace| - 1].hist[j].kind == Send
    ensures seconds > 0 ==> trace[|trace| - 1].hist[j].at >= trace[|trace| - 1].hist[i].at + 1_000_000 * seconds
  {
    hide IsRunInLimits;
    if seconds > 0 {
      SendsSpacedInAnyRun(trace, Some(l), i, j);
    }
  }

  /** Two calls can come in one instant: the second sees what the first has recorded. */
  lemma CallsAtOnce(s: State, limits: Option<Limits>, a: nat, b: nat, c: Call, d: Call)
    requires Enabled(s, Single(a, c)) && a != b && b !in s.open && d.now == c.now
    ensures Enabled(After(s, limits, Single(a, c)), Single(b, d))
  {
    hide Reserve;
  }

  // ---------------------------------------------------------------------------
  // One call
  // ---------------------------------------------------------------------------

  /** The setting leaves room for n more of its rows. */
  ghost predicate HasRoom(events: seq<Event>, l: Limits, name: Setting, n: nat, now: int) {
    Allows(l, name, |Where(events, PlannedAfter(name, now - LengthOf(name)))| + n)
  }

  /** Every setting of the kind has; that of new dialogs is only asked for a cold message. */
  ghost predicate Room(events: seq<Event>, l: Limits, kind: Kind, n: nat, cold: bool, now: int) {
    forall name | KindOf(name) == kind && (name == NewDialogsPerDay ==> cold) :: HasRoom(events, l, name, n, now)
  }

  /** One window by the rows of the table, purged or not. */
  lemma WindowRoom(events: seq<Event>, l: Limits, needs: map<Kind, nat>, name: Setting, w: Window, now: int)
    requires w in WINDOWS && w.name == name && HasLimit(l, w)
    ensures Fits(Purge(events, now), l, needs, now, w)
            <==> HasRoom(events, l, name, if KindOf(name) in needs then needs[KindOf(name)] else 0, now)
  {
    hide Where, TimesAfter, Filter;
    var v := WindowOf(name);
    OnlyWindow(v, w);
    WhereAfter(events, PlannedAfter(name, now - LengthOf(name)), w, now - LengthOf(name));
    UnseenRemoved(events, Since(now - RETENTION), w, now - Span(w));
  }

  /** The check passes exactly when there is room for every kind needed. */
  lemma PassesWithRoom(events: seq<Event>, l: Limits, needs: map<Kind, nat>, cold: bool, now: int)
    ensures CheckWindows(Purge(events, now), l, needs, cold, now).None?
            <==> forall k | k in needs && needs[k] > 0 :: Room(events, l, k, needs[k], cold, now)
  {
    hide CheckWindows, Purge, Where, Count, Fits;
    CheckIsExact(Purge(events, now), l, needs, cold, now);
    forall name
      ensures var k := KindOf(name);
              k in needs && needs[k] > 0 && (name == NewDialogsPerDay ==> cold)
              && AllFit(Purge(events, now), l, needs, cold, now)
              ==> HasRoom(events, l, name, needs[k], now)
    {
      var w := WindowOf(name);
      if HasLimit(l, w) {
        WindowRoom(events, l, needs, name, w, now);
      }
    }
    forall w | w in WINDOWS && Asked(l, needs, cold, w)
      ensures (forall k | k in needs && needs[k] > 0 :: Room(events, l, k, needs[k], cold, now)) ==>
                Fits(Purge(events, now), l, needs, now, w)
    {
      var v := WindowOf(w.name);
      OnlyWindow(v, w);
      WindowRoom(events, l, needs, w.name, w, now);
    }
  }

  /** A first message: a send to a chat without history and without a send of ours in 25 hours. */
  ghost predicate Cold(events: seq<Event>, c: Call) {
    && c.kind == Send && c.chat.Some? && !c.history
    && forall e | e in events && e.kind == Send && e.chat == c.chat :: e.at < c.now - KEPT
  }

  /** The pause after a send: the interval, and a draw if there is a jitter. */
  function PauseOf(l: Limits, draw: nat): nat {
    match l.minIntervalSec
    case None => 0
    case Some(s) => 1_000_000 * s + if l.jitterSec.Some? && l.jitterSec.value >= 1 then draw else 0
  }

  /** A send of the last 25 hours after which the call has to wait until `at`. */
  ghost predicate WaitsFor(events: seq<Event>, l: Limits, c: Call, at: int) {
    && c.kind == Send && l.minIntervalSec.Some? && l.minIntervalSec.value >= 1
    && exists e :: e in events && e.kind == Send && e.at >= c.now - KEPT && e.at + PauseOf(l, c.jitter) == at
  }

  /** The limits a call is under: those of the account; without them, 20 lookups a day. */
  function Under(limits: Option<Limits>, kind: Kind): Option<Limits> {
    if limits.Some? then limits
    else if kind == Lookup then Some(Limits(true, map[PhoneLookupsPerDay := 20], None, None))
    else None
  }

  /**
   reserve in full. Without limits nothing happens; with writes switched off it is refused;
   it is over the limit exactly when a setting has no room for it; it is queued exactly when
   some send makes it wait for more than 15 seconds; else it is recorded.
   */
  lemma ReserveIs(table: Table, limits: Option<Limits>, c: Call)
    ensures var o, u, es := Reserve(table, limits, c), Under(limits, c.kind), table.events;
            && (o.NoLimit? <==> u.None?)
            && (o.Disabled? <==> u.Some? && !u.value.enabled)
            && (o.OverLimit? <==> u.Some? && u.value.enabled && !Room(es, u.value, c.kind, 1, Cold(es, c), c.now))
            && (o.Queued? <==> u.Some? && u.value.enabled && Room(es, u.value, c.kind, 1, Cold(es, c), c.now)
                               && exists at :: WaitsFor(es, u.value, c, at) && at > c.now + 15_000_000)
  {
    hide CheckWindows, Where, Filter, Room;
    ColdIs(table.events, c);
    if u :| u == Under(limits, c.kind) && u.Some? {
      PassesWithRoom(table.events, u.value, map[c.kind := 1], Cold(table.events, c), c.now);
      OneKind(table.events, u.value, c, Cold(table.events, c));
      LateIs(table.events, u.value, c);
    }
  }

  lemma OneKind(events: seq<Event>, l: Limits, c: Call, cold: bool)
    ensures var needs := map[c.kind := 1];
            (forall k | k in needs && needs[k] > 0 :: Room(events, l, k, needs[k], cold, c.now))
            <==> Room(events, l, c.kind, 1, cold, c.now)
  {
    hide Room;
    assert c.kind in map[c.kind := 1];
  }

  lemma ColdIs(events: seq<Event>, c: Call)
    ensures NewDialog(Purge(events, c.now), c) <==> Cold(events, c)
  {
    FilterIn(events, Since(c.now - RETENTION));
  }

  lemma LateIs(events: seq<Event>, l: Limits, c: Call)
    ensures PlannedAt(Purge(events, c.now), l, c) - c.now > MAX_WAIT
            <==> exists at :: WaitsFor(events, l, c, at) && at > c.now + 15_000_000
    ensures var at := PlannedAt(Purge(events, c.now), l, c);
            && at >= c.now && (at > c.now ==> WaitsFor(events, l, c, at))
            && forall later | WaitsFor(events, l, c, later) :: later <= at
  {
    hide Filter;
    FilterIn(events, Since(c.now - RETENTION));
    var kept := Purge(events, c.now);
    var last := LastSend(kept);
    if Paced(l, c.kind) && last.Some? {
      var e :| e in kept && e.kind == Send && e.at == last.value;
      assert e in events && e.at + PauseOf(l, c.jitter) == last.value + Pause(l, c.jitter);
      assert WaitsFor(events, l, c, last.value + Pause(l, c.jitter));
    }
    forall later | WaitsFor(events, l, c, later)
      ensures later <= PlannedAt(kept, l, c)
    {
      var e :| e in events && e.kind == Send && e.at >= c.now - KEPT && e.at + PauseOf(l, c.jitter) == later;
      assert e in kept;
    }
  }

  /**
   What an accepted call records: rows older than 25 hours go, and one row of its kind and chat
   is added, at the earliest time no send makes it wait beyond; it is a new dialog exactly
   if it is a first message.
   */
  lemma ReservedIs(table: Table, limits: Option<Limits>, c: Call)
    requires Reserve(table, limits, c).Taken?
    ensures var o, l := Reserve(table, limits, c), Under(limits, c.kind).value;
            var e := Event(table.nextId, c.kind, c.chat, Cold(table.events, c), c.now + o.wait);
            && (forall x :: x in o.table.events <==> x == e || (x in table.events && x.at >= c.now - KEPT))
            && |o.table.events| > 0 && o.table.events[|o.table.events| - 1] == e
            && o.table.nextId == table.nextId + 1 && o.ids == [table.nextId]
            && o.wait <= 15_000_000 && (o.wait > 0 ==> WaitsFor(table.events, l, c, e.at))
            && (forall at | WaitsFor(table.events, l, c, at) :: at <= e.at)
  {
    hide CheckWindows, Filter;
    ColdIs(table.events, c);
    FilterIn(table.events, Since(c.now - RETENTION));
    LateIs(table.events, Under(limits, c.kind).value, c);
  }

  /** A recorded send raises the count of its windows by one, that of new dialogs only if it is one. */
  lemma RecordedCounts(table: Table, limits: Option<Limits>, c: Call, name: Setting, since: int)
    requires Reserve(table, limits, c).Taken? && c.now - KEPT <= since < c.now
    ensures var t := Reserve(table, limits, c).table;
            |Where(t.events, PlannedAfter(name, since))| == |Where(table.events, PlannedAfter(name, since))|
              + if KindOf(name) == c.kind && (name == NewDialogsPerDay ==> Cold(table.events, c)) then 1 else 0
  {
    hide CheckWindows, Where, Filter, TimesAfter;
    ColdIs(table.events, c);
    LateIs(table.events, Under(limits, c.kind).value, c);
    var w := WindowOf(name);
    var kept, t, p := Purge(table.events, c.now), Reserve(table, limits, c).table, PlannedAfter(name, since);
    var e := t.events[|kept|];
    assert t.events == kept + [e];
    WhereAppend(kept, e, p);
    WhereAfter(kept, p, w, since);
    WhereAfter(table.events, p, w, since);
    UnseenRemoved(table.events, Since(c.now - RETENTION), w, since);
  }

  /** A bundle is recorded exactly if there is room for all its rows of every kind. */
  lemma BundleIs(table: Table, limits: Option<Limits>, needs: map<Kind, nat>, chat: Option<int>, now: int)
    requires forall k | k in needs :: k in {Action, GroupCreate, GroupInvite, ChatJoin, ContactImport}
    ensures BundleNeeds(needs)
    ensures var o := ReserveBundle(table, limits, needs, chat, now);
            && (o.NoLimit? <==> limits.None?)
            && (o.Disabled? <==> limits.Some? && !limits.value.enabled)
            && (o.Taken? <==> limits.Some? && limits.value.enabled
                              && forall k | k in needs && needs[k] > 0 ::
                                   Room(table.events, limits.value, k, needs[k], false, now))
            && !o.Queued?
  {
    hide CheckWindows, Where, Filter, Room, BundleRows;
    if limits.Some? {
      PassesWithRoom(table.events, limits.value, needs, false, now);
    }
  }

  /** And it records as many rows of every kind as needed, all now, in the chat, none a new dialog. */
  lemma BundledIs(table: Table, limits: Option<Limits>, needs: map<Kind, nat>, chat: Option<int>, now: int)
    requires BundleNeeds(needs) && ReserveBundle(table, limits, needs, chat, now).Taken?
    ensures var o := ReserveBundle(table, limits, needs, chat, now);
            exists rows: seq<Event> :: && o.table.events == Purge(table.events, now) + rows && |o.ids| == |rows|
                           && o.table.nextId == table.nextId + |rows| && o.wait == 0
                           && (forall k :: |Where(rows, OfKind(k))| == if k in needs then needs[k] else 0)
                           && forall i | 0 <= i < |rows| ::
                                rows[i] == Event(table.nextId + i, rows[i].kind, chat, false, now) && o.ids[i] == rows[i].id
  {
    hide CheckWindows, Where, Purge, BundleRows;
    var rows := BundleRows(table.nextId, BUNDLE_KINDS, needs, chat, now);
    forall k
      ensures |Where(rows, OfKind(k))| == if k in needs then needs[k] else 0
    {
      KindsBundled(table.nextId, BUNDLE_KINDS, needs, chat, now, k);
    }
    BundleIds(table.nextId, BUNDLE_KINDS, needs, chat, now);
    BundleChat(table.nextId, BUNDLE_KINDS, needs, chat, now);
  }

  lemma {:induction false} WhereConcat(a: seq<Event>, b: seq<Event>, p: Event -> bool)
    ensures |Where(a + b, p)| == |Where(a, p)| + |Where(b, p)|
  {
    hide Where;
    if b == [] {
      assert a + b == a;
      NoneWhere(p);
    } else {
      var init, e := b[..|b| - 1], b[|b| - 1];
      assert b == init + [e] && a + b == (a + init) + [e];
      WhereConcat(a, init, p);
      WhereAppend(a + init, e, p);
      WhereAppend(init, e, p);
    }
  }

  lemma {:induction false} CopiesBundled(id: nat, kind: Kind, chat: Option<int>, at: int, n: nat, k: Kind)
    ensures |Where(Copies(id, kind, chat, at, n), OfKind(k))| == if k == kind then n else 0
  {
    hide Where;
    var copies := Copies(id, kind, chat, at, n);
    if n > 0 {
      CopiesBundled(id, kind, chat, at, n - 1, k);
      assert copies == Copies(id, kind, chat, at, n - 1) + [copies[n - 1]];
      WhereAppend(Copies(id, kind, chat, at, n - 1), copies[n - 1], OfKind(k));
    } else {
      assert copies == [];
      NoneWhere(OfKind(k));
    }
  }

  lemma {:induction false} KindsBundled(id: nat, kinds: seq<Kind>, needs: map<Kind, nat>, chat: Option<int>, at: int,
                                        k: Kind)
    requires NoRepeat(kinds)
    ensures |Where(BundleRows(id, kinds, needs, chat, at), OfKind(k))|
            == if k in kinds && k in needs then needs[k] else 0
    decreases |kinds|
  {
    hide Where;
    if kinds == [] {
      NoneWhere(OfKind(k));
    } else {
      var n := Need(needs, kinds[0]);
      CopiesBundled(id, kinds[0], chat, at, n, k);
      KindsBundled(id + n, kinds[1..], needs, chat, at, k);
      WhereConcat(Copies(id, kinds[0], chat, at, n), BundleRows(id + n, kinds[1..], needs, chat, at), OfKind(k));
      assert kinds == [kinds[0]] + kinds[1..];
    }
  }

  lemma {:induction false} BundleChat(id: nat, kinds: seq<Kind>, needs: map<Kind, nat>, chat: Option<int>, at: int)
    ensures forall e | e in BundleRows(id, kinds, needs, chat, at) :: e.chat == chat
    decreases |kinds|
  {
    if kinds != [] {
      BundleChat(id + Need(needs, kinds[0]), kinds[1..], needs, chat, at);
    }
  }
}
