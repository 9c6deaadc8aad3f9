/** The limiter as it runs: the event table of one account, changed row by row under its lock. */
module Limiter {
  import opened Wrappers
  import opened Seqs
  import opened WindowCounts
  import opened WriteLimits

  lemma BundleUnfolds(id: nat, kinds: seq<Kind>, i: nat, needs: map<Kind, nat>, chat: Option<int>, at: int)
    requires i < |kinds|
    ensures BundleRows(id, kinds[i..], needs, chat, at)
            == Copies(id, kinds[i], chat, at, Need(needs, kinds[i]))
               + BundleRows(id + Need(needs, kinds[i]), kinds[i + 1..], needs, chat, at)
  {
    assert kinds[i..][1..] == kinds[i + 1..];
  }

  lemma BundleEnds(id: nat, needs: map<Kind, nat>, chat: Option<int>, at: int)
    ensures BundleRows(id, [], needs, chat, at) == []
  {
  }

  lemma AppendMore<T>(a: seq<T>, b: seq<T>, c: seq<T>)
    ensures a + (b + c) == (a + b) + c
  {
  }

  class WriteLimiter {
    var events: seq<Event>
    var nextId: nat
    const limits: Option<Limits>

    constructor (limits: Option<Limits>)
      ensures this.limits == limits && events == [] && nextId == 0
    {
      this.limits := limits;
      events, nextId := [], 0;
    }

    function Rows(): Table
      reads this
    {
      Table(events, nextId)
    }

    /** Every window of the kinds needed; the one with the longest wait decides. */
    method CheckEvery(l: Limits, needs: map<Kind, nat>, newDialog: bool, now: int) returns (refused: Option<Refusal>)
      ensures refused == CheckWindows(events, l, needs, newDialog, now)
      ensures refused.None? <==> AllFit(events, l, needs, newDialog, now)
    {
      hide AllFit, Count, RetryAfter, Need;
      var full: seq<Full> := [];
      for i := 0 to |WINDOWS|
        invariant full == FullWindows(WINDOWS[..i], events, l, needs, newDialog, now)
      {
        assert WINDOWS[..i + 1][..i] == WINDOWS[..i];
        var w := WINDOWS[i];
        if HasLimit(l, w) && Need(needs, w.kind) > 0 && (w.newDialogsOnly ==> newDialog) {
          var limit, n, used := l.windows[w.name], Need(needs, w.kind), Count(events, w, now);
          if used + n > limit {
            var wait := if n > limit then None else Some(RetryAfter(events, w, now, used, limit, n));
            full := full + [Full(w, limit, used, wait, n)];
          }
        }
      }
      assert WINDOWS[..|WINDOWS|] == WINDOWS;
      CheckIsExact(events, l, needs, newDialog, now);
      if full == [] {
        return None;
      }
      var decided := Longest(full);
      refused := Some(Refusal(decided, Filter(full, OtherThan(decided.w))));
    }

    static method Longest(full: seq<Full>) returns (best: Full)
      requires full != []
      ensures best == Decisive(full)
      ensures best in full && forall f | f in full :: !Longer(f, best)
    {
      best := full[0];
      for i := 1 to |full|
        invariant best == Decisive(full[..i])
      {
        assert full[..i + 1][..i] == full[..i];
        if Longer(full[i], best) {
          best := full[i];
        }
      }
      assert full[..|full|] == full;
      DecisiveLongest(full);
    }

    /** reserve: purge, check, pace, insert; a refusal rolls the transaction back. */
    method TakeSlot(c: Call) returns (o: Outcome)
      modifies this
      ensures o == Reserve(old(Rows()), limits, c)
      ensures Rows() == if o.Taken? then o.table else old(Rows())
    {
      hide Purge, CheckWindows, AllFit, PlannedAt;
      var effective := EffectiveLimits(limits, c.kind);
      if effective.None? {
        return NoLimit;
      }
      var l := effective.value;
      if !l.enabled {
        return Disabled;
      }
      var before := events;
      events := Purge(events, c.now);
      var newDialog := c.kind == Send && c.chat.Some? && !c.history && !SentTo(events, c.chat.value);
      var refused := CheckEvery(l, map[c.kind := 1], newDialog, c.now);
      if refused.Some? {
        events := before;
        return OverLimit(refused.value);
      }
      var at := PlannedAt(events, l, c);
      if at - c.now > MAX_WAIT {
        events := before;
        return Queued(Max(1, CeilSeconds(at - c.now - MAX_WAIT)));
      }
      events := events + [Event(nextId, c.kind, c.chat, newDialog, at)];
      nextId := nextId + 1;
      o := Taken(Rows(), [nextId - 1], at - c.now);
    }

    /** The rows of the kinds in order, as many of each as needed. */
    static method RowsOf(id: nat, kinds: seq<Kind>, needs: map<Kind, nat>, chat: Option<int>, now: int)
      returns (rows: seq<Event>)
      ensures rows == BundleRows(id, kinds, needs, chat, now)
    {
      hide BundleRows, Need, Copies;
      rows := [];
      for i := 0 to |kinds|
        invariant BundleRows(id, kinds, needs, chat, now)
                  == rows + BundleRows(id + |rows|, kinds[i..], needs, chat, now)
      {
        var copies := Copies(id + |rows|, kinds[i], chat, now, Need(needs, kinds[i]));
        BundleUnfolds(id + |rows|, kinds, i, needs, chat, now);
        AppendMore(rows, copies, BundleRows(id + |rows| + |copies|, kinds[i + 1..], needs, chat, now));
        rows := rows + copies;
      }
      assert kinds[|kinds|..] == [];
      BundleEnds(id + |rows|, needs, chat, now);
    }

    /** reserve_bundle: the rows of every kind needed, all or none. */
    method TakeBundle(needs: map<Kind, nat>, chat: Option<int>, now: int) returns (o: Outcome)
      requires BundleNeeds(needs)
      modifies this
      ensures o == ReserveBundle(old(Rows()), limits, needs, chat, now)
      ensures Rows() == if o.Taken? then o.table else old(Rows())
    {
      hide Purge, CheckWindows, AllFit, BundleRows;
      if limits.None? {
        return NoLimit;
      }
      if !limits.value.enabled {
        return Disabled;
      }
      var before := events;
      events := Purge(events, now);
      var refused := CheckEvery(limits.value, needs, false, now);
      if refused.Some? {
        events := before;
        return OverLimit(refused.value);
      }
      var rows := RowsOf(nextId, BUNDLE_KINDS, needs, chat, now);
      events, nextId := events + rows, nextId + |rows|;
      o := Taken(Rows(), Ids(rows), 0);
    }

    /** The end of a call: its slot is given back only after a certain failure. */
    method EndCall(ids: seq<nat>, lookup: bool, failedForSure: bool)
      modifies this`events
      ensures Rows() == if failedForSure && !lookup then Release(old(Rows()), ids) else old(Rows())
    {
      if failedForSure && !lookup {
        events := Filter(events, NotIn(ids));
      }
    }
  }
}
