/** Counting the events of a sliding window, and the time at which its k-th oldest leaves it. */
module WindowCounts {
  import opened Wrappers
  import opened Seqs

  datatype Kind = Send | Action | Lookup | GroupCreate | GroupInvite | ChatJoin | ContactImport

  /** One write_events row; at is in microseconds and may lie in the future. */
  datatype Event = Event(id: nat, kind: Kind, chat: Option<int>, newDialog: bool, at: int)

  datatype Setting =
    | PerMinute | PerHour | PerDay | NewDialogsPerDay | ActionsPerHour | PhoneLookupsPerDay
    | GroupsCreatedPerDay | GroupInvitesPerDay | ChatsJoinedPerDay | ContactsImportedPerDay

  datatype Window = Window(name: Setting, kind: Kind, seconds: nat, newDialogsOnly: bool)

  const SECOND := 1_000_000

  function Span(w: Window): nat {
    w.seconds * SECOND
  }

  predicate Hits(e: Event, w: Window) {
    e.kind == w.kind && (w.newDialogsOnly ==> e.newDialog)
  }

  /** The times of the window's events after `since`, in table order. */
  function TimesAfter(events: seq<Event>, w: Window, since: int): seq<int> {
    if events == [] then []
    else
      var e := events[|events| - 1];
      TimesAfter(events[..|events| - 1], w, since) + if Hits(e, w) && e.at > since then [e.at] else []
  }

  /** How many events the window holds at `now`; events planned for later count too. */
  function Count(events: seq<Event>, w: Window, now: int): nat {
    |TimesAfter(events, w, now - Span(w))|
  }

  /** The window's events with from < at <= to. */
  function CountBetween(events: seq<Event>, w: Window, from: int, to: int): nat {
    if events == [] then 0
    else
      var e := events[|events| - 1];
      CountBetween(events[..|events| - 1], w, from, to) + if Hits(e, w) && from < e.at <= to then 1 else 0
  }

  /** How many of the window's events lie in the window that ends at t. */
  function InWindow(events: seq<Event>, w: Window, t: int): nat {
    CountBetween(events, w, t - Span(w), t)
  }

  lemma TimesAppend(events: seq<Event>, e: Event, w: Window, since: int)
    ensures TimesAfter(events + [e], w, since)
            == TimesAfter(events, w, since) + if Hits(e, w) && e.at > since then [e.at] else []
  {
    assert (events + [e])[..|events|] == events;
  }

  lemma BetweenAppend(events: seq<Event>, e: Event, w: Window, from: int, to: int)
    ensures CountBetween(events + [e], w, from, to)
            == CountBetween(events, w, from, to) + if Hits(e, w) && from < e.at <= to then 1 else 0
  {
    assert (events + [e])[..|events|] == events;
  }

  lemma {:induction false} BetweenAtMost(events: seq<Event>, w: Window, from: int, to: int, since: int)
    requires since <= from
    ensures CountBetween(events, w, from, to) <= |TimesAfter(events, w, since)|
  {
    if events != [] {
      BetweenAtMost(events[..|events| - 1], w, from, to, since);
    }
  }

  lemma {:induction false} FewerLater(events: seq<Event>, w: Window, since: int, later: int)
    requires since <= later
    ensures |TimesAfter(events, w, later)| <= |TimesAfter(events, w, since)|
  {
    if events != [] {
      FewerLater(events[..|events| - 1], w, since, later);
    }
  }

  // ---------------------------------------------------------------------------
  // Rows removed: a release or a purge keeps the rows a predicate tells
  // ---------------------------------------------------------------------------

  lemma FilterAppend(events: seq<Event>, e: Event, keep: Event -> bool)
    ensures Filter(events + [e], keep) == Filter(events, keep) + if keep(e) then [e] else []
  {
    FilterConcat(events, [e], keep);
    assert [e][1..] == [];
    assert Filter([e], keep) == if keep(e) then [e] else [];
  }

  lemma {:induction false} RemovedCountsLess(events: seq<Event>, keep: Event -> bool, w: Window, since: int)
    ensures |TimesAfter(Filter(events, keep), w, since)| <= |TimesAfter(events, w, since)|
  {
    if events != [] {
      var init, e := events[..|events| - 1], events[|events| - 1];
      assert events == init + [e];
      FilterAppend(init, e, keep);
      assert Filter(init, keep) + [] == Filter(init, keep);
      RemovedCountsLess(init, keep, w, since);
      TimesAppend(Filter(init, keep), e, w, since);
    }
  }

  lemma {:induction false} RemovedBetweenLess(events: seq<Event>, keep: Event -> bool, w: Window, from: int, to: int)
    ensures CountBetween(Filter(events, keep), w, from, to) <= CountBetween(events, w, from, to)
  {
    if events != [] {
      var init, e := events[..|events| - 1], events[|events| - 1];
      assert events == init + [e];
      FilterAppend(init, e, keep);
      assert Filter(init, keep) + [] == Filter(init, keep);
      RemovedBetweenLess(init, keep, w, from, to);
      BetweenAppend(Filter(init, keep), e, w, from, to);
    }
  }

  /** Removing rows the window no longer sees changes no count. */
  lemma {:induction false} UnseenRemoved(events: seq<Event>, keep: Event -> bool, w: Window, since: int)
    requires forall e | e in events && e.at > since :: keep(e)
    ensures TimesAfter(Filter(events, keep), w, since) == TimesAfter(events, w, since)
  {
    if events != [] {
      var init, e := events[..|events| - 1], events[|events| - 1];
      assert events == init + [e];
      FilterAppend(init, e, keep);
      assert Filter(init, keep) + [] == Filter(init, keep);
      UnseenRemoved(init, keep, w, since);
      TimesAppend(Filter(init, keep), e, w, since);
    }
  }

  // ---------------------------------------------------------------------------
  // Order statistics
  // ---------------------------------------------------------------------------

  function CountAbove(ts: seq<int>, x: int): nat {
    if ts == [] then 0
    else CountAbove(ts[1..], x) + if ts[0] > x then 1 else 0
  }

  function Same(x: int): int {
    x
  }

  lemma {:induction false} AboveConcat(a: seq<int>, b: seq<int>, x: int)
    ensures CountAbove(a + b, x) == CountAbove(a, x) + CountAbove(b, x)
  {
    if a == [] {
      assert a + b == b;
    } else {
      assert (a + b)[1..] == a[1..] + b;
      AboveConcat(a[1..], b, x);
    }
  }

  lemma {:induction false} AboveInsert(y: int, ts: seq<int>, x: int)
    ensures CountAbove(Insert(y, ts, Same), x) == CountAbove(ts, x) + if y > x then 1 else 0
  {
    if ts != [] && Same(y) >= Same(ts[0]) {
      AboveInsert(y, ts[1..], x);
      assert Insert(y, ts, Same)[1..] == Insert(y, ts[1..], Same);
    } else {
      assert Insert(y, ts, Same)[1..] == ts;
    }
  }

  lemma {:induction false} AboveSort(ts: seq<int>, x: int)
    ensures CountAbove(Sort(ts, Same), x) == CountAbove(ts, x)
  {
    if ts != [] {
      var init, y := ts[..|ts| - 1], ts[|ts| - 1];
      AboveSort(init, x);
      AboveInsert(y, Sort(init, Same), x);
      assert ts == init + [y];
      AboveConcat(init, [y], x);
      assert CountAbove([y], x) == if y > x then 1 else 0;
    }
  }

  lemma {:induction false} AboveBounds(ts: seq<int>, x: int)
    ensures CountAbove(ts, x) <= |ts|
    ensures (forall t | t in ts :: t <= x) ==> CountAbove(ts, x) == 0
    ensures (forall t | t in ts :: x < t) ==> CountAbove(ts, x) == |ts|
  {
    if ts != [] {
      AboveBounds(ts[1..], x);
      assert ts[0] in ts && forall t | t in ts[1..] :: t in ts;
    }
  }

  lemma OrderedAround(ts: seq<int>, j: nat)
    requires SortedBy(ts, Same) && j < |ts|
    ensures forall t | t in ts[..j] :: t <= ts[j]
    ensures forall t | t in ts[j..] :: ts[j] <= t
  {
    forall t | t in ts[..j]
      ensures t <= ts[j]
    {
      var k :| 0 <= k < j && ts[..j][k] == t;
      assert Same(ts[k]) <= Same(ts[j]);
    }
    forall t | t in ts[j..]
      ensures ts[j] <= t
    {
      var k :| 0 <= k < |ts| - j && ts[j..][k] == t;
      assert k > 0 ==> Same(ts[j]) <= Same(ts[j + k]);
    }
  }

  lemma AboveFirst(ts: seq<int>, x: int)
    requires ts != [] && ts[0] <= x
    ensures CountAbove(ts, x) == CountAbove(ts[1..], x)
  {
  }

  /** The j-th of a sorted list: at most the later ones are above it, it and they are above less. */
  lemma NthInOrder(ts: seq<int>, j: nat, x: int)
    requires SortedBy(ts, Same) && j < |ts|
    ensures ts[j] <= x ==> CountAbove(ts, x) <= |ts| - j - 1
    ensures x < ts[j] ==> CountAbove(ts, x) >= |ts| - j
  {
    hide CountAbove, SortedBy;
    var low, high := ts[..j], ts[j..];
    assert ts == low + high;
    OrderedAround(ts, j);
    AboveConcat(low, high, x);
    AboveBounds(low, x);
    AboveBounds(high, x);
    if ts[j] <= x {
      AboveFirst(high, x);
      AboveBounds(high[1..], x);
    }
  }

  lemma {:induction false} AboveTimes(events: seq<Event>, w: Window, since: int, x: int)
    requires since <= x
    ensures CountAbove(TimesAfter(events, w, since), x) == |TimesAfter(events, w, x)|
  {
    if events != [] {
      var init, e := events[..|events| - 1], events[|events| - 1];
      AboveTimes(init, w, since, x);
      var last := if Hits(e, w) && e.at > since then [e.at] else [];
      AboveConcat(TimesAfter(init, w, since), last, x);
      assert last != [] ==> last[1..] == [];
    }
  }
}
