/**
 The audit log's partitions: one per month and DEFAULT, created ahead, drained from DEFAULT,
 and dropped past the retention. Times are in microseconds, dates in days.
 */
module Audit {
  import opened Wrappers
  import opened Seqs
  import opened Calendar

  const DAY := 86_400_000_000
  const RETENTION_DAYS := 90
  const MONTHS := 3

  datatype Row = Row(id: nat, at: int)

  /** A partition FROM the first day of the month TO the first day of the next. */
  datatype Part = Part(month: int, rows: seq<Row>)

  datatype Log = Log(parts: seq<Part>, dflt: seq<Row>, attached: bool)

  /** No partition for a row; or DEFAULT holds rows of the partition to create or of an attached one. */
  datatype Problem = NoPartition | DefaultOverlaps

  /** ts >= start AND ts < end, the bounds being midnights. */
  predicate Covers(month: int, r: Row) {
    InMonth(r.at / DAY, month)
  }

  function Of(month: int): Row -> bool {
    (r: Row) => Covers(month, r)
  }

  predicate Has(parts: seq<Part>, month: int) {
    exists p :: p in parts && p.month == month
  }

  /** The row goes to the partition whose range covers it. */
  function Put(parts: seq<Part>, r: Row): seq<Part> {
    if parts == [] then []
    else if Covers(parts[0].month, r) then [parts[0].(rows := parts[0].rows + [r])] + parts[1..]
    else [parts[0]] + Put(parts[1..], r)
  }

  predicate Routable(parts: seq<Part>, r: Row) {
    exists p :: p in parts && Covers(p.month, r)
  }

  function Placed(log: Log, r: Row): Result<Log, Problem> {
    if Routable(log.parts, r) then Ok(log.(parts := Put(log.parts, r)))
    else if log.attached then Ok(log.(dflt := log.dflt + [r]))
    else Err(NoPartition)
  }

  function InsertAll(log: Log, rows: seq<Row>): Result<Log, Problem> {
    if rows == [] then Ok(log)
    else
      var before := InsertAll(log, rows[..|rows| - 1]);
      if before.Err? then before else Placed(before.value, rows[|rows| - 1])
  }

  /** CREATE TABLE IF NOT EXISTS ... PARTITION OF; an attached DEFAULT is scanned for its rows. */
  function Create(log: Log, month: int): Result<Log, Problem> {
    if Has(log.parts, month) then Ok(log)
    else if log.attached && Filter(log.dflt, Of(month)) != [] then Err(DefaultOverlaps)
    else Ok(log.(parts := log.parts + [Part(month, [])]))
  }

  predicate Overlaps(log: Log) {
    exists r :: r in log.dflt && Routable(log.parts, r)
  }

  /** ATTACH PARTITION ... DEFAULT scans DEFAULT for rows of the partitions. */
  function Attach(log: Log): Result<Log, Problem> {
    if Overlaps(log) then Err(DefaultOverlaps) else Ok(log.(attached := true))
  }

  /** drain_audit_default_for_month. */
  function Drain(log: Log, month: int): Result<Log, Problem> {
    var created := Create(log.(attached := false), month);
    if created.Err? then created
    else
      var moved := InsertAll(created.value, Filter(log.dflt, Of(month)));
      if moved.Err? then moved
      else Attach(moved.value.(dflt := Filter(moved.value.dflt, Not(Of(month)))))
  }

  function Target(today: int, monthsAhead: int): int {
    MonthOf(AddMonths(today, monthsAhead))
  }

  /** ensure_audit_partition: create the month, or drain it if DEFAULT has rows of it. */
  function Ensure(log: Log, today: int, monthsAhead: int): Result<Log, Problem> {
    var month := Target(today, monthsAhead);
    if Has(log.parts, month) then Ok(log)
    else if Filter(log.dflt, Of(month)) != [] then Drain(log, month)
    else Create(log, month)
  }

  /** The partition's upper bound is above the cutoff. */
  function Recent(cutoff: int): Part -> bool {
    (p: Part) => MonthStart(p.month + 1) > cutoff
  }

  /** drop_old_audit_partitions; DEFAULT has no bound and stays. */
  function DropOld(log: Log, today: int, days: int): Log {
    log.(parts := Filter(log.parts, Recent(today - days)))
  }

  function EnsureNext(r: Result<Log, Problem>, today: int, offset: nat): Result<Log, Problem> {
    if r.Err? then r else Ensure(r.value, today, offset)
  }

  function EnsureMonths(log: Log, today: int, n: nat): Result<Log, Problem> {
    if n == 0 then Ok(log) else EnsureNext(EnsureMonths(log, today, n - 1), today, n - 1)
  }

  /** ensure_partitions: three months, then the drop; an error rolls everything back. */
  function Maintained(log: Log, today: int, gotLock: bool): Log {
    if !gotLock then log
    else
      var r := EnsureMonths(log, today, MONTHS);
      if r.Err? then log else DropOld(r.value, today, RETENTION_DAYS)
  }

  // ---------------------------------------------------------------------------
  // The invariant
  // ---------------------------------------------------------------------------

  ghost predicate PartOk(p: Part) {
    forall r | r in p.rows :: Covers(p.month, r)
  }

  ghost predicate Disjoint(parts: seq<Part>) {
    forall i, j | 0 <= i < j < |parts| :: parts[i].month != parts[j].month
  }

  ghost predicate PartsOk(parts: seq<Part>) {
    Disjoint(parts) && forall p | p in parts :: PartOk(p)
  }

  /** Each row sits in the partition that covers its time, or in DEFAULT if there is none. */
  ghost predicate Good(log: Log) {
    log.attached && PartsOk(log.parts) && forall r | r in log.dflt :: !Routable(log.parts, r)
  }

  function PartRows(parts: seq<Part>): multiset<Row> {
    if parts == [] then multiset{} else multiset(parts[0].rows) + PartRows(parts[1..])
  }

  /** All rows of the log. */
  function Rows(log: Log): multiset<Row> {
    PartRows(log.parts) + multiset(log.dflt)
  }

  predicate SameMonths(a: seq<Part>, b: seq<Part>) {
    |a| == |b| && forall i | 0 <= i < |a| :: a[i].month == b[i].month
  }

  lemma SameMonthsRoute(a: seq<Part>, b: seq<Part>, r: Row)
    requires SameMonths(a, b)
    ensures Routable(a, r) <==> Routable(b, r)
  {
    hide Covers;
    if p :| p in a && Covers(p.month, r) {
      var i :| 0 <= i < |a| && a[i] == p;
      assert b[i] in b && Covers(b[i].month, r);
    }
    if p :| p in b && Covers(p.month, r) {
      var i :| 0 <= i < |b| && b[i] == p;
      assert a[i] in a && Covers(a[i].month, r);
    }
  }

  lemma {:induction false} PutMonths(parts: seq<Part>, r: Row)
    ensures SameMonths(Put(parts, r), parts)
  {
    hide Covers;
    if parts != [] {
      PutMonths(parts[1..], r);
    }
  }

  lemma {:induction false} PutOk(parts: seq<Part>, r: Row)
    requires forall p | p in parts :: PartOk(p)
    ensures forall p | p in Put(parts, r) :: PartOk(p)
  {
    hide Covers;
    if parts != [] {
      PutOk(parts[1..], r);
      assert PartOk(parts[0]);
    }
  }

  lemma RoutableSplit(parts: seq<Part>, r: Row)
    requires parts != []
    ensures Routable(parts, r) <==> Covers(parts[0].month, r) || Routable(parts[1..], r)
  {
    hide Covers;
    assert parts == [parts[0]] + parts[1..];
  }

  /** A routed row is added once. */
  lemma {:induction false} PutRows(parts: seq<Part>, r: Row)
    ensures PartRows(Put(parts, r)) == PartRows(parts) + if Routable(parts, r) then multiset{r} else multiset{}
  {
    hide Covers, Routable;
    if parts != [] {
      RoutableSplit(parts, r);
      PutRows(parts[1..], r);
      assert Put(parts, r)[1..] == if Covers(parts[0].month, r) then parts[1..] else Put(parts[1..], r);
    } else {
      assert !Routable([], r) by { NothingRoutes(r); }
    }
  }

  lemma NothingRoutes(r: Row)
    ensures !Routable([], r)
  {
  }

  lemma PutKeeps(parts: seq<Part>, r: Row)
    requires PartsOk(parts)
    ensures PartsOk(Put(parts, r)) && forall x :: Routable(Put(parts, r), x) <==> Routable(parts, x)
  {
    hide Covers, Routable, PartOk;
    PutMonths(parts, r);
    PutOk(parts, r);
    forall x
      ensures Routable(Put(parts, r), x) <==> Routable(parts, x)
    {
      SameMonthsRoute(Put(parts, r), parts, x);
    }
  }

  lemma InsertKeeps(log: Log, r: Row)
    requires Good(log)
    ensures Placed(log, r).Ok? && Good(Placed(log, r).value)
    ensures Rows(Placed(log, r).value) == Rows(log) + multiset{r}
  {
    hide Routable, PartsOk, Put, PartRows;
    if Routable(log.parts, r) {
      PutKeeps(log.parts, r);
      PutRows(log.parts, r);
    }
  }

  // ---------------------------------------------------------------------------
  // Ensuring a month
  // ---------------------------------------------------------------------------

  /** Rows that all have a partition leave DEFAULT alone, attached or not. */
  lemma {:induction false} InsertAllKeeps(log: Log, rows: seq<Row>)
    requires PartsOk(log.parts) && forall r | r in rows :: Routable(log.parts, r)
    ensures InsertAll(log, rows).Ok?
    ensures var t := InsertAll(log, rows).value;
            && t.dflt == log.dflt && t.attached == log.attached && PartsOk(t.parts)
            && (forall x :: Routable(t.parts, x) <==> Routable(log.parts, x))
            && SameMonths(t.parts, log.parts)
            && PartRows(t.parts) == PartRows(log.parts) + multiset(rows)
  {
    hide Routable, PartsOk, Put, PartRows;
    if rows != [] {
      var init, last := rows[..|rows| - 1], rows[|rows| - 1];
      InsertAllKeeps(log, init);
      var before := InsertAll(log, init).value;
      PutKeeps(before.parts, last);
      PutRows(before.parts, last);
      PutMonths(before.parts, last);
      assert rows == init + [last];
    }
  }

  lemma PartRowsFirst(p: Part, parts: seq<Part>)
    ensures PartRows([p] + parts) == multiset(p.rows) + PartRows(parts)
  {
    assert ([p] + parts)[1..] == parts;
  }

  lemma {:induction false} PartRowsConcat(a: seq<Part>, b: seq<Part>)
    ensures PartRows(a + b) == PartRows(a) + PartRows(b)
  {
    hide PartRows;
    if a == [] {
      assert a + b == b && PartRows(a) == multiset{} by { PartRowsNone(); }
    } else {
      PartRowsConcat(a[1..], b);
      PartRowsFirst(a[0], a[1..]);
      PartRowsFirst(a[0], a[1..] + b);
      assert [a[0]] + a[1..] == a && [a[0]] + (a[1..] + b) == a + b;
    }
  }

  lemma PartRowsNone()
    ensures PartRows([]) == multiset{}
  {
  }

  /** A new, empty month. */
  function WithMonth(parts: seq<Part>, month: int): seq<Part> {
    parts + [Part(month, [])]
  }

  lemma NewMonth(parts: seq<Part>, month: int)
    requires PartsOk(parts) && !Has(parts, month)
    ensures PartsOk(WithMonth(parts, month)) && PartRows(WithMonth(parts, month)) == PartRows(parts)
    ensures forall x :: Routable(WithMonth(parts, month), x) <==> Routable(parts, x) || Covers(month, x)
    ensures Has(WithMonth(parts, month), month)
  {
    hide Covers;
    var p := Part(month, []);
    PartRowsConcat(parts, [p]);
    assert [p][1..] == [];
    assert PartRows([p]) == multiset{};
    assert p in parts + [p];
    assert PartOk(p);
  }

  /** DEFAULT has no row of a month to create: it becomes a partition of its own. */
  lemma CreateKeeps(log: Log, month: int)
    requires Good(log) && !Has(log.parts, month) && Filter(log.dflt, Of(month)) == []
    ensures Create(log, month) == Ok(log.(parts := WithMonth(log.parts, month))) && Good(Create(log, month).value)
    ensures Rows(Create(log, month).value) == Rows(log)
  {
    hide Routable, PartsOk, PartRows, Filter, Has;
    NewMonth(log.parts, month);
    FilterIn(log.dflt, Of(month));
    forall r | r in log.dflt
      ensures !Covers(month, r)
    {
      assert Of(month)(r) ==> r in Filter(log.dflt, Of(month));
    }
  }

  /** Draining moves the month's rows, loses none, and DEFAULT can be attached again. */
  lemma DrainKeeps(log: Log, month: int)
    requires Good(log) && !Has(log.parts, month)
    ensures Drain(log, month).Ok? && Good(Drain(log, month).value)
    ensures Rows(Drain(log, month).value) == Rows(log)
    ensures SameMonths(Drain(log, month).value.parts, WithMonth(log.parts, month))
    ensures Drain(log, month).value.dflt == Filter(log.dflt, Not(Of(month)))
  {
    hide Routable, PartsOk, PartRows, Filter, Has, InsertAll;
    var detached := log.(attached := false);
    NewMonth(log.parts, month);
    var created := detached.(parts := WithMonth(log.parts, month));
    assert Create(detached, month) == Ok(created);
    var rows, rest := Filter(log.dflt, Of(month)), Filter(log.dflt, Not(Of(month)));
    FilterIn(log.dflt, Of(month));
    FilterIn(log.dflt, Not(Of(month)));
    FilterSplits(log.dflt, Of(month));
    assert forall r | r in rows :: Of(month)(r);
    InsertAllKeeps(created, rows);
    var moved := InsertAll(created, rows).value;
    assert forall r | r in rest :: Not(Of(month))(r) && !Routable(moved.parts, r);
    assert !Overlaps(moved.(dflt := rest));
  }

  lemma SameMonthsSwaps(a: seq<Part>, b: seq<Part>)
    requires SameMonths(a, b)
    ensures SameMonths(b, a)
  {
  }

  lemma SameMonthsHave(a: seq<Part>, b: seq<Part>, month: int)
    requires SameMonths(a, b) && Has(a, month)
    ensures Has(b, month)
  {
    var p :| p in a && p.month == month;
    var i :| 0 <= i < |a| && a[i] == p;
    assert b[i] in b;
  }

  /**
   Ensuring a month never fails, keeps every row and every other month, and the month a
   number of months ahead exists then, whatever day it is today.
   */
  lemma EnsureKeeps(log: Log, today: int, monthsAhead: int)
    requires Good(log)
    ensures Ensure(log, today, monthsAhead).Ok? && Good(Ensure(log, today, monthsAhead).value)
    ensures var t := Ensure(log, today, monthsAhead).value;
            && Rows(t) == Rows(log) && Has(t.parts, MonthOf(today) + monthsAhead)
            && forall m | Has(log.parts, m) :: Has(t.parts, m)
  {
    hide Rows, Good, Create, Drain, Filter, Has, Target, SameMonths, WithMonth, MonthOf, AddMonths;
    assert Target(today, monthsAhead) == MonthOf(today) + monthsAhead by { TargetIs(today, monthsAhead); }
    var month := Target(today, monthsAhead);
    if !Has(log.parts, month) {
      forall m | Has(log.parts, m) || m == month
        ensures Has(WithMonth(log.parts, month), m)
      {
        WithMonthHas(log.parts, month, m);
      }
      if Filter(log.dflt, Of(month)) != [] {
        DrainKeeps(log, month);
        var t := Drain(log, month).value;
        forall m | Has(WithMonth(log.parts, month), m)
          ensures Has(t.parts, m)
        {
          SameMonthsSwaps(t.parts, WithMonth(log.parts, month));
          SameMonthsHave(WithMonth(log.parts, month), t.parts, m);
        }
      } else {
        CreateKeeps(log, month);
      }
    }
  }

  lemma TargetIs(today: int, monthsAhead: int)
    ensures Target(today, monthsAhead) == MonthOf(today) + monthsAhead
  {
    hide AddMonths, MonthOf;
    MonthsAhead(today, monthsAhead);
  }

  lemma WithMonthHas(parts: seq<Part>, month: int, m: int)
    requires Has(parts, m) || m == month
    ensures Has(WithMonth(parts, month), m)
  {
    assert Part(month, []) in WithMonth(parts, month);
  }

  // ---------------------------------------------------------------------------
  // The drop
  // ---------------------------------------------------------------------------

  lemma {:induction false} FilterParts(parts: seq<Part>, keep: Part -> bool)
    requires PartsOk(parts)
    ensures PartsOk(Filter(parts, keep))
    ensures forall x :: Routable(Filter(parts, keep), x) ==> Routable(parts, x)
  {
    hide Covers, PartOk;
    FilterIn(parts, keep);
    if parts != [] {
      FilterParts(parts[1..], keep);
      FilterIn(parts[1..], keep);
      forall p | p in parts[1..]
        ensures p.month != parts[0].month
      {
        var j :| 0 <= j < |parts| - 1 && parts[1..][j] == p;
        assert parts[0].month != parts[j + 1].month;
      }
    }
  }

  lemma {:induction false} DroppedRows(parts: seq<Part>, keep: Part -> bool, r: Row)
    requires PartsOk(parts)
    requires forall p | p in parts && Covers(p.month, r) :: keep(p)
    ensures PartRows(Filter(parts, keep))[r] == PartRows(parts)[r]
  {
    hide Covers;
    if parts != [] {
      assert parts == [parts[0]] + parts[1..];
      DroppedRows(parts[1..], keep, r);
      assert PartOk(parts[0]);
      if !keep(parts[0]) {
        assert r !in parts[0].rows;
      }
      KeptFirst(parts, keep);
    }
  }

  lemma KeptFirst(parts: seq<Part>, keep: Part -> bool)
    requires parts != []
    ensures PartRows(Filter(parts, keep))
            == (if keep(parts[0]) then multiset(parts[0].rows) else multiset{}) + PartRows(Filter(parts[1..], keep))
  {
    hide PartRows;
    PartRowsFirst(parts[0], Filter(parts[1..], keep));
    assert [] + Filter(parts[1..], keep) == Filter(parts[1..], keep);
  }

  /** A row at or after the cutoff's midnight lies in a partition that stays. */
  lemma RecentCovers(p: Part, r: Row, cutoff: int)
    requires Covers(p.month, r) && r.at >= cutoff * DAY
    ensures Recent(cutoff)(p)
  {
    hide MonthStart;
    assert r.at / DAY >= cutoff;
  }

  /** The drop keeps the invariant, every row younger than the retention, and all of DEFAULT. */
  lemma DropKeeps(log: Log, today: int, days: int)
    requires Good(log)
    ensures var t := DropOld(log, today, days);
            && Good(t) && t.dflt == log.dflt
            && (forall r: Row | r.at >= (today - days) * DAY :: Rows(t)[r] == Rows(log)[r])
            && (forall m | Has(log.parts, m) && MonthStart(m + 1) > today - days :: Has(t.parts, m))
  {
    hide Covers, PartsOk, PartRows, Filter, MonthStart, Routable;
    var keep := Recent(today - days);
    var t := DropOld(log, today, days);
    FilterParts(log.parts, keep);
    FilterIn(log.parts, keep);
    forall r: Row | r.at >= (today - days) * DAY
      ensures Rows(t)[r] == Rows(log)[r]
    {
      forall p | p in log.parts && Covers(p.month, r)
        ensures keep(p)
      {
        RecentCovers(p, r, today - days);
      }
      DroppedRows(log.parts, keep, r);
    }
    forall m | Has(log.parts, m) && MonthStart(m + 1) > today - days
      ensures Has(t.parts, m)
    {
      var p :| p in log.parts && p.month == m;
      assert keep(p);
      assert p in t.parts;
    }
  }

  /** A dropped partition held only rows older than the retention. */
  lemma DroppedIsOld(log: Log, today: int, days: int, p: Part, r: Row)
    requires Good(log) && p in log.parts && p !in DropOld(log, today, days).parts && r in p.rows
    ensures r.at < (today - days) * DAY
  {
    hide MonthStart;
    FilterIn(log.parts, Recent(today - days));
    assert PartOk(p);
    assert !Recent(today - days)(p);
    if r.at >= (today - days) * DAY {
      RecentCovers(p, r, today - days);
    }
  }

  /**
   The drop in full: a partition stays, as it is, exactly if its upper bound is after the day
   the retention goes back to; the others go, and no month is left of them.
   */
  lemma DropIs(log: Log, today: int, days: int)
    ensures var t := DropOld(log, today, days);
            && t.dflt == log.dflt && t.attached == log.attached
            && (forall p :: p in t.parts <==> p in log.parts && MonthStart(p.month + 1) > today - days)
            && (forall m :: Has(t.parts, m) <==> Has(log.parts, m) && MonthStart(m + 1) > today - days)
  {
    hide MonthStart;
    var t := DropOld(log, today, days);
    FilterIn(log.parts, Recent(today - days));
    forall m
      ensures Has(t.parts, m) <==> Has(log.parts, m) && MonthStart(m + 1) > today - days
    {
      if Has(log.parts, m) && MonthStart(m + 1) > today - days {
        var p :| p in log.parts && p.month == m;
        assert p in t.parts;
      }
    }
  }

  /** A row is in the month whose first midnight it does not come before, and whose last it does not reach. */
  lemma CoversIs(month: int, r: Row)
    ensures Covers(month, r) <==> MonthStart(month) * 86_400_000_000 <= r.at < MonthStart(month + 1) * 86_400_000_000
  {
    hide MonthStart;
  }

  /** A row is in the range of one of the partitions, midnight to midnight. */
  ghost predicate InSome(parts: seq<Part>, r: Row) {
    exists p :: p in parts && MonthStart(p.month) * 86_400_000_000 <= r.at < MonthStart(p.month + 1) * 86_400_000_000
  }

  /**
   Only while DEFAULT is detached is a row refused, exactly if it is in no range; and DEFAULT is
   attached again exactly if it has no row in a range.
   */
  lemma RoutingIs(log: Log, r: Row)
    ensures Placed(log, r).Err? <==> !log.attached && !InSome(log.parts, r)
    ensures Placed(log, r).Ok? && !InSome(log.parts, r) ==> Placed(log, r).value == log.(dflt := log.dflt + [r])
    ensures Attach(log) == if exists x :: x in log.dflt && InSome(log.parts, x) then Err(DefaultOverlaps)
                           else Ok(log.(attached := true))
  {
    hide MonthStart, Covers;
    forall x
      ensures Routable(log.parts, x) <==> InSome(log.parts, x)
    {
      forall p | p in log.parts
        ensures Covers(p.month, x)
                <==> MonthStart(p.month) * 86_400_000_000 <= x.at < MonthStart(p.month + 1) * 86_400_000_000
      {
        CoversIs(p.month, x);
      }
    }
  }

  /** Ensuring a month adds that month and no other. */
  lemma EnsureAdds(log: Log, today: int, monthsAhead: int, m: int)
    requires Good(log)
    ensures Ensure(log, today, monthsAhead).Ok?
    ensures Has(Ensure(log, today, monthsAhead).value.parts, m) <==> Has(log.parts, m) || m == MonthOf(today) + monthsAhead
  {
    hide Rows, Good, Create, Drain, Filter, Has, Target, SameMonths, WithMonth, MonthOf, AddMonths;
    EnsureKeeps(log, today, monthsAhead);
    TargetIs(today, monthsAhead);
    var month := Target(today, monthsAhead);
    if !Has(log.parts, month) {
      OnlyWithMonth(log.parts, month, m);
      if Filter(log.dflt, Of(month)) != [] {
        DrainKeeps(log, month);
        if Has(Drain(log, month).value.parts, m) {
          SameMonthsHave(Drain(log, month).value.parts, WithMonth(log.parts, month), m);
        }
      } else {
        CreateKeeps(log, month);
      }
    }
  }

  lemma OnlyWithMonth(parts: seq<Part>, month: int, m: int)
    ensures Has(WithMonth(parts, month), m) ==> Has(parts, m) || m == month
  {
  }

  // ---------------------------------------------------------------------------
  // Maintenance and runs
  // ---------------------------------------------------------------------------

  lemma {:induction false} EnsureMonthsKeeps(log: Log, today: int, n: nat)
    requires Good(log)
    ensures EnsureMonths(log, today, n).Ok? && Good(EnsureMonths(log, today, n).value)
    ensures Rows(EnsureMonths(log, today, n).value) == Rows(log)
    ensures forall m | MonthOf(today) <= m < MonthOf(today) + n :: Has(EnsureMonths(log, today, n).value.parts, m)
  {
    hide Rows, Good, Ensure, Has, MonthOf;
    if n > 0 {
      EnsureMonthsKeeps(log, today, n - 1);
      EnsureKeeps(EnsureMonths(log, today, n - 1).value, today, n - 1);
    }
  }

  /**
   A maintenance pass with the lock never fails and never needs its rollback: this month and
   the next two exist after it, and it removes no row younger than the retention.
   */
  lemma MaintenanceKeeps(log: Log, today: int, gotLock: bool)
    requires Good(log)
    ensures var t := Maintained(log, today, gotLock);
            && Good(t)
            && (forall r: Row | r.at >= (today - RETENTION_DAYS) * DAY :: Rows(t)[r] == Rows(log)[r])
            && (gotLock ==> forall m | MonthOf(today) <= m < MonthOf(today) + MONTHS :: Has(t.parts, m))
            && (!gotLock ==> t == log)
  {
    hide Rows, Good, EnsureMonths, Has, DropOld, MonthStart, MonthOf;
    if gotLock {
      EnsureMonthsKeeps(log, today, MONTHS);
      var r := EnsureMonths(log, today, MONTHS).value;
      DropKeeps(r, today, RETENTION_DAYS);
      forall m | MonthOf(today) <= m < MonthOf(today) + MONTHS
        ensures Has(DropOld(r, today, RETENTION_DAYS).parts, m)
      {
        MonthsAscend(MonthOf(today) + 1, m + 1);
      }
    }
  }

  lemma {:induction false} EnsureMonthsAdd(log: Log, today: int, n: nat, m: int)
    requires Good(log)
    ensures EnsureMonths(log, today, n).Ok?
    ensures Has(EnsureMonths(log, today, n).value.parts, m)
            <==> Has(log.parts, m) || MonthOf(today) <= m < MonthOf(today) + n
  {
    hide Rows, Good, Ensure, Has, MonthOf;
    if n > 0 {
      EnsureMonthsAdd(log, today, n - 1, m);
      EnsureMonthsKeeps(log, today, n - 1);
      EnsureAdds(EnsureMonths(log, today, n - 1).value, today, n - 1, m);
    }
  }

  /**
   The months after a maintenance pass with the lock: this month, the next two, and those there
   were whose upper bound is less than 90 days ago. Without the lock nothing happens.
   */
  lemma MaintainedMonths(log: Log, today: int, gotLock: bool, m: int)
    requires Good(log)
    ensures var t := Maintained(log, today, gotLock);
            if gotLock then
              Has(t.parts, m) <==> (MonthOf(today) <= m < MonthOf(today) + 3)
                                   || (Has(log.parts, m) && MonthStart(m + 1) > today - 90)
            else t == log
  {
    hide Rows, Good, EnsureMonths, Has, DropOld, MonthStart, MonthOf;
    if gotLock {
      EnsureMonthsAdd(log, today, MONTHS, m);
      DropIs(EnsureMonths(log, today, MONTHS).value, today, RETENTION_DAYS);
      if MonthOf(today) <= m {
        MonthsAscend(MonthOf(today) + 1, m + 1);
      }
    }
  }

  /** A plain create fails exactly where ensure drains. */
  lemma CreateFailsOnDefault(log: Log, month: int)
    requires Good(log)
    ensures Create(log, month).Err? <==> !Has(log.parts, month) && exists r :: r in log.dflt && Covers(month, r)
  {
    hide Covers, Has, PartsOk;
    FilterIn(log.dflt, Of(month));
    if r :| r in log.dflt && Covers(month, r) {
      assert Of(month)(r);
      assert r in Filter(log.dflt, Of(month));
    }
    if Filter(log.dflt, Of(month)) != [] {
      assert Filter(log.dflt, Of(month))[0] in log.dflt && Of(month)(Filter(log.dflt, Of(month))[0]);
    }
  }

  datatype Op =
    | Write(row: Row)
    | EnsureOne(today: int, monthsAhead: int)
    | Drop(today: int, days: int)
    | Maintain(today: int, gotLock: bool)

  function After(log: Log, op: Op): Result<Log, Problem> {
    match op
    case Write(r) => Placed(log, r)
    case EnsureOne(today, k) => Ensure(log, today, k)
    case Drop(today, days) => Ok(DropOld(log, today, days))
    case Maintain(today, gotLock) => Ok(Maintained(log, today, gotLock))
  }

  function Run(log: Log, ops: seq<Op>): Result<Log, Problem> {
    if ops == [] then Ok(log)
    else
      var before := Run(log, ops[..|ops| - 1]);
      if before.Err? then before else After(before.value, ops[|ops| - 1])
  }

  function Written(ops: seq<Op>): multiset<Row> {
    if ops == [] then multiset{}
    else Written(ops[..|ops| - 1]) + if ops[|ops| - 1].Write? then multiset{ops[|ops| - 1].row} else multiset{}
  }

  /** The drop of an operation, if it has one, spares the row. */
  predicate Spares(op: Op, r: Row) {
    && (op.Drop? ==> r.at >= (op.today - op.days) * DAY)
    && (op.Maintain? ==> r.at >= (op.today - RETENTION_DAYS) * DAY)
  }

  lemma OpKeeps(log: Log, op: Op, r: Row)
    requires Good(log)
    ensures After(log, op).Ok? && Good(After(log, op).value)
    ensures Spares(op, r) ==>
              Rows(After(log, op).value)[r] == Rows(log)[r] + if op == Write(r) then 1 else 0
  {
    hide Rows, Good, Placed, Ensure, DropOld, Maintained;
    match op
    case Write(x) => InsertKeeps(log, x);
    case EnsureOne(today, k) => EnsureKeeps(log, today, k);
    case Drop(today, days) => DropKeeps(log, today, days);
    case Maintain(today, gotLock) => MaintenanceKeeps(log, today, gotLock);
  }

  /**
   Over any run of writes, ensures, drops and maintenance passes no step fails, partitions
   stay disjoint, each row sits where it belongs, and a row no drop was old enough for is
   there exactly as often as it was before and was written.
   */
  lemma {:induction false} RunConserves(log: Log, ops: seq<Op>, r: Row)
    requires Good(log)
    ensures Run(log, ops).Ok? && Good(Run(log, ops).value)
    ensures (forall op | op in ops :: Spares(op, r)) ==> Rows(Run(log, ops).value)[r] == Rows(log)[r] + Written(ops)[r]
  {
    hide Rows, Good, After, Spares;
    if ops != [] {
      var init, op := ops[..|ops| - 1], ops[|ops| - 1];
      RunConserves(log, init, r);
      OpKeeps(Run(log, init).value, op, r);
      assert ops == init + [op];
    }
  }

  // ---------------------------------------------------------------------------
  // The table as it changes
  // ---------------------------------------------------------------------------

  class AuditLog {
    var parts: seq<Part>
    var dflt: seq<Row>
    var attached: bool

    constructor ()
      ensures Value() == Log([], [], true) && Good(Value())
    {
      parts, dflt, attached := [], [], true;
    }

    function Value(): Log
      reads this
    {
      Log(parts, dflt, attached)
    }

    method InsertRow(r: Row) returns (problem: Option<Problem>)
      modifies this
      ensures problem.None? ==> Placed(old(Value()), r) == Ok(Value())
      ensures problem.Some? ==> Placed(old(Value()), r) == Err(problem.value) && Value() == old(Value())
    {
      hide Covers;
      var i := 0;
      while i < |parts| && !Covers(parts[i].month, r)
        invariant i <= |parts|
        invariant forall j | 0 <= j < i :: !Covers(parts[j].month, r)
      {
        i := i + 1;
      }
      problem := None;
      if i < |parts| {
        PutAt(parts, r, i);
        parts := parts[i := parts[i].(rows := parts[i].rows + [r])];
      } else if attached {
        dflt := dflt + [r];
      } else {
        problem := Some(NoPartition);
      }
    }

    method CreatePartition(month: int) returns (problem: Option<Problem>)
      modifies this`parts
      ensures problem.None? ==> Create(old(Value()), month) == Ok(Value())
      ensures problem.Some? ==> Create(old(Value()), month) == Err(problem.value) && Value() == old(Value())
    {
      hide Covers, Filter;
      problem := None;
      if Has(parts, month) {
        return;
      }
      if attached && Filter(dflt, Of(month)) != [] {
        return Some(DefaultOverlaps);
      }
      parts := parts + [Part(month, [])];
    }

    /** Detach DEFAULT, create the month, move its rows, attach DEFAULT again. */
    method DrainDefault(month: int) returns (problem: Option<Problem>)
      modifies this
      ensures problem.None? ==> Drain(old(Value()), month) == Ok(Value())
      ensures problem.Some? ==> Drain(old(Value()), month) == Err(problem.value)
    {
      hide Covers, Filter, Create, Placed, Overlaps;
      attached := false;
      problem := CreatePartition(month);
      if problem.Some? {
        return;
      }
      ghost var created := Value();
      var rows := Filter(dflt, Of(month));
      CreateKeepsDefault(old(Value()).(attached := false), month);
      for i := 0 to |rows|
        invariant InsertAll(created, rows[..i]) == Ok(Value())
      {
        assert rows[..i + 1][..i] == rows[..i];
        problem := InsertRow(rows[i]);
        if problem.Some? {
          FirstFailure(created, rows, i + 1);
          return;
        }
      }
      assert rows[..|rows|] == rows;
      dflt := Filter(dflt, Not(Of(month)));
      if Overlaps(Value()) {
        return Some(DefaultOverlaps);
      }
      attached := true;
      problem := None;
    }

    method EnsurePartition(today: int, monthsAhead: int) returns (problem: Option<Problem>)
      modifies this
      ensures problem.None? ==> Ensure(old(Value()), today, monthsAhead) == Ok(Value())
      ensures problem.Some? ==> Ensure(old(Value()), today, monthsAhead) == Err(problem.value)
    {
      hide Filter, Create, Drain, Has, MonthOf, AddMonths;
      var month := MonthOf(AddMonths(today, monthsAhead));
      if Has(parts, month) {
        return None;
      }
      if Filter(dflt, Of(month)) != [] {
        problem := DrainDefault(month);
      } else {
        problem := CreatePartition(month);
      }
    }

    /** The partitions dropped, in the order of the catalog. */
    method DropPartitions(today: int, days: int) returns (dropped: seq<int>)
      modifies this`parts
      ensures Value() == DropOld(old(Value()), today, days)
      ensures forall m :: m in dropped <==> Has(old(parts), m) && MonthStart(m + 1) <= today - days
      ensures forall m :: Has(parts, m) <==> Has(old(parts), m) && m !in dropped
    {
      hide MonthStart;
      var all, kept := parts, [];
      dropped := [];
      for i := 0 to |all|
        invariant parts == all && kept == Filter(all[..i], Recent(today - days))
        invariant forall m :: m in dropped <==> Has(all[..i], m) && MonthStart(m + 1) <= today - days
      {
        OnePart(all, i);
        FilterConcat(all[..i], [all[i]], Recent(today - days));
        assert all[..i] + [all[i]] == all[..i + 1];
        FilterOne(all[i], Recent(today - days));
        if MonthStart(all[i].month + 1) <= today - days {
          dropped := dropped + [all[i].month];
        } else {
          kept := kept + [all[i]];
        }
      }
      assert all[..|all|] == all;
      DropIs(old(Value()), today, days);
      parts := kept;
    }

    /** ensure_partitions: an error rolls the whole pass back and is swallowed. */
    method Maintenance(today: int, gotLock: bool)
      modifies this
      ensures Value() == Maintained(old(Value()), today, gotLock)
      ensures old(Good(Value())) ==> Good(Value())
      ensures old(Good(Value())) && gotLock ==>
                forall m :: Has(parts, m) <==> (MonthOf(today) <= m < MonthOf(today) + 3)
                                               || (Has(old(parts), m) && MonthStart(m + 1) > today - 90)
    {
      hide Good, Ensure, DropOld, Has, MonthOf, MonthStart;
      ghost var start := Value();
      if Good(start) {
        MaintenanceKeeps(start, today, gotLock);
        forall m
          ensures gotLock ==> (Has(Maintained(start, today, gotLock).parts, m)
                               <==> (MonthOf(today) <= m < MonthOf(today) + 3)
                                    || (Has(start.parts, m) && MonthStart(m + 1) > today - 90))
        {
          MaintainedMonths(start, today, gotLock, m);
        }
      }
      if !gotLock {
        return;
      }
      var before := Value();
      for offset := 0 to MONTHS
        invariant EnsureMonths(start, today, offset) == Ok(Value())
      {
        var problem := EnsurePartition(today, offset);
        if problem.Some? {
          assert EnsureMonths(start, today, offset + 1).Err?;
          EnsureFails(start, today, offset + 1, MONTHS);
          parts, dflt, attached := before.parts, before.dflt, before.attached;
          return;
        }
      }
      var dropped := DropPartitions(today, RETENTION_DAYS);
    }
  }

  lemma {:induction false} EnsureFails(log: Log, today: int, k: nat, n: nat)
    requires k <= n && EnsureMonths(log, today, k).Err?
    ensures EnsureMonths(log, today, n).Err?
  {
    hide Ensure;
    if k < n {
      EnsureFails(log, today, k, n - 1);
    }
  }

  lemma OnePart(parts: seq<Part>, i: nat)
    requires i < |parts|
    ensures forall m :: Has(parts[..i + 1], m) <==> Has(parts[..i], m) || m == parts[i].month
  {
    assert parts[..i + 1] == parts[..i] + [parts[i]];
  }

  lemma FilterOne<T(!new)>(x: T, p: T -> bool)
    ensures Filter([x], p) == if p(x) then [x] else []
  {
    assert [x][1..] == [];
    assert Filter([x][1..], p) == [];
  }

  lemma {:induction false} PutAt(parts: seq<Part>, r: Row, i: nat)
    requires i < |parts| && Covers(parts[i].month, r) && forall j | 0 <= j < i :: !Covers(parts[j].month, r)
    ensures Put(parts, r) == parts[i := parts[i].(rows := parts[i].rows + [r])] && Routable(parts, r)
  {
    hide Covers;
    assert parts[i] in parts;
    if i > 0 {
      PutAt(parts[1..], r, i - 1);
    }
  }

  lemma CreateKeepsDefault(log: Log, month: int)
    ensures Create(log, month).Ok? ==> Create(log, month).value.dflt == log.dflt
  {
  }

  lemma {:induction false} FirstFailure(log: Log, rows: seq<Row>, k: nat)
    requires k <= |rows| && InsertAll(log, rows[..k]).Err?
    ensures InsertAll(log, rows) == InsertAll(log, rows[..k])
    decreases |rows|
  {
    hide Placed;
    if k < |rows| {
      assert rows[..|rows| - 1][..k] == rows[..k];
      FirstFailure(log, rows[..|rows| - 1], k);
    } else {
      assert rows[..k] == rows;
    }
  }
}
