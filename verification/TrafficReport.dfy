/**
 The traffic chart of a statistics response, end to end: where its range starts, what the three
 usage tables put into its eight buckets, and how the buckets relate to the total of calls that
 the same response reports.
 */
module TrafficReport {
  import opened Basics
  import opened GoTime
  import opened UsageTables
  import opened UsageLedger
  import opened UsageStats
  import opened TrafficBuckets

  // ---------- cuts through the three tables ----------

  type When = int -> bool

  /** Which instants a query takes from each table. */
  datatype Cut = Cut(raw: When, hourly: When, daily: When)

  function Picked(scope: Scope, w: When): Call -> bool {
    (c: Call) => scope(c.key, c.tool) && w(c.at)
  }

  function RowPicked(scope: Scope, w: When): Slot -> bool {
    (r: Slot) => scope(r.key, r.tool) && w(r.start)
  }

  /** The calls that the picked rows of all three tables stand for. */
  ghost function CallsIn(l: Ledger, scope: Scope, cut: Cut): int {
    Sum(l.raw, Picked(scope, cut.raw), Calls)
    + SumRows(l.hourly, RowPicked(scope, cut.hourly), Calls)
    + SumRows(l.daily, RowPicked(scope, cut.daily), Calls)
  }

  ghost predicate Splits(w: When, u: When, v: When) {
    forall t :: (w(t) <==> u(t) || v(t)) && !(u(t) && v(t))
  }

  lemma RowsSplit(rows: Rollup, scope: Scope, w: When, u: When, v: When)
    requires Splits(w, u, v)
    ensures SumRows(rows, RowPicked(scope, w), Calls) == SumRows(rows, RowPicked(scope, u), Calls) + SumRows(rows, RowPicked(scope, v), Calls)
  {
    var a := set k | k in rows && RowPicked(scope, u)(k);
    var b := set k | k in rows && RowPicked(scope, v)(k);
    assert (set k | k in rows && RowPicked(scope, w)(k)) == a + b;
    SumSlotsUnion(a, b, rows, Calls);
  }

  lemma CutSplit(l: Ledger, scope: Scope, c: Cut, d: Cut, e: Cut)
    requires Splits(c.raw, d.raw, e.raw) && Splits(c.hourly, d.hourly, e.hourly) && Splits(c.daily, d.daily, e.daily)
    ensures CallsIn(l, scope, c) == CallsIn(l, scope, d) + CallsIn(l, scope, e)
  {
    SumSplit(l.raw, Picked(scope, c.raw), Picked(scope, d.raw), Picked(scope, e.raw), Calls);
    RowsSplit(l.hourly, scope, c.hourly, d.hourly, e.hourly);
    RowsSplit(l.daily, scope, c.daily, d.daily, e.daily);
  }

  /** The instants at which a table has rows inside a scope. */
  ghost predicate HasRowAt(l: Ledger, scope: Scope, t: int) {
    || (exists c :: c in l.raw && scope(c.key, c.tool) && c.at == t)
    || (exists k :: k in l.hourly && scope(k.key, k.tool) && k.start == t)
    || (exists k :: k in l.daily && scope(k.key, k.tool) && k.start == t)
  }

  lemma RowsSame(rows: Rollup, scope: Scope, u: When, v: When)
    requires forall k :: k in rows && scope(k.key, k.tool) ==> u(k.start) == v(k.start)
    ensures SumRows(rows, RowPicked(scope, u), Calls) == SumRows(rows, RowPicked(scope, v), Calls)
  {
    assert (set k | k in rows && RowPicked(scope, u)(k)) == (set k | k in rows && RowPicked(scope, v)(k));
  }

  /** Cuts that agree wherever there are rows pick the same calls. */
  lemma CutSame(l: Ledger, scope: Scope, c: Cut, d: Cut)
    requires forall t :: HasRowAt(l, scope, t) ==> c.raw(t) == d.raw(t) && c.hourly(t) == d.hourly(t) && c.daily(t) == d.daily(t)
    ensures CallsIn(l, scope, c) == CallsIn(l, scope, d)
  {
    forall x | x in l.raw ensures Picked(scope, c.raw)(x) == Picked(scope, d.raw)(x) {
      assert scope(x.key, x.tool) ==> HasRowAt(l, scope, x.at);
    }
    SumEqual(l.raw, Picked(scope, c.raw), Picked(scope, d.raw), Calls);
    forall k | k in l.hourly && scope(k.key, k.tool) ensures c.hourly(k.start) == d.hourly(k.start) {
      assert HasRowAt(l, scope, k.start);
    }
    RowsSame(l.hourly, scope, c.hourly, d.hourly);
    forall k | k in l.daily && scope(k.key, k.tool) ensures c.daily(k.start) == d.daily(k.start) {
      assert HasRowAt(l, scope, k.start);
    }
    RowsSame(l.daily, scope, c.daily, d.daily);
  }

  // ---------- the cuts of a response ----------

  function From(a: int): When {
    (t: int) => a <= t
  }

  function FromTo(a: int, b: int): When {
    (t: int) => a <= t <= b
  }

  function Upto(a: int, b: int): When {
    (t: int) => a <= t < b
  }

  function Past(b: int): When {
    (t: int) => b < t
  }

  datatype Range = Range(start: int, end: int) {
    function Seconds(): int {
      end - start
    }
  }

  function WithIndex(a: int, r: Range, i: int): When
    requires r.start < r.end
  {
    (t: int) => a <= t <= r.end && BucketIndex(t - r.start, r.Seconds()) == i
  }

  function BelowIndex(a: int, r: Range, i: int): When
    requires r.start < r.end
  {
    (t: int) => a <= t <= r.end && BucketIndex(t - r.start, r.Seconds()) < i
  }

  /** A response takes each table from `t` truncated to the table's own resolution. */
  function Since3(t: int): Cut {
    Cut(From(t), From(ToHour(t)), From(ToDay(t)))
  }

  /** What one response would take from `t` and another no longer from `u`. */
  function Between3(t: int, u: int): Cut {
    Cut(Upto(t, u), Upto(ToHour(t), ToHour(u)), Upto(ToDay(t), ToDay(u)))
  }

  function Past3(t: int): Cut {
    Cut(Past(t), Past(t), Past(t))
  }

  function Chart(r: Range): Cut {
    Cut(FromTo(r.start, r.end), FromTo(ToHour(r.start), r.end), FromTo(ToDay(r.start), r.end))
  }

  function InBucket3(r: Range, i: int): Cut
    requires r.start < r.end
  {
    Cut(WithIndex(r.start, r, i), WithIndex(ToHour(r.start), r, i), WithIndex(ToDay(r.start), r, i))
  }

  function Below3(r: Range, i: int): Cut
    requires r.start < r.end
  {
    Cut(BelowIndex(r.start, r, i), BelowIndex(ToHour(r.start), r, i), BelowIndex(ToDay(r.start), r, i))
  }

  /** What the first n buckets hold. */
  ghost function FirstBuckets(l: Ledger, scope: Scope, r: Range, n: nat): int
    requires r.start < r.end
  {
    if n == 0 then 0 else FirstBuckets(l, scope, r, n - 1) + CallsIn(l, scope, InBucket3(r, n - 1))
  }

  lemma {:induction false} FirstBucketsBelow(l: Ledger, scope: Scope, r: Range, n: nat)
    requires r.start < r.end
    ensures FirstBuckets(l, scope, r, n) == CallsIn(l, scope, Below3(r, n))
  {
    if n == 0 {
      NothingBelow(l, scope, r);
    } else {
      FirstBucketsBelow(l, scope, r, n - 1);
      CutSplit(l, scope, Below3(r, n), Below3(r, n - 1), InBucket3(r, n - 1));
    }
  }

  lemma NothingBelow(l: Ledger, scope: Scope, r: Range)
    requires r.start < r.end
    ensures CallsIn(l, scope, Below3(r, 0)) == 0
  {
    forall t, a ensures !BelowIndex(a, r, 0)(t) {
      assert 0 <= BucketIndex(t - r.start, r.Seconds());
    }
    SumNothing(l.raw, Picked(scope, BelowIndex(r.start, r, 0)), Calls);
    assert (set k | k in l.hourly && RowPicked(scope, BelowIndex(ToHour(r.start), r, 0))(k)) == {};
    assert (set k | k in l.daily && RowPicked(scope, BelowIndex(ToDay(r.start), r, 0))(k)) == {};
  }

  /** Over the raw, hourly and daily tables together, the eight buckets hold each call of the selected rows once. */
  lemma BucketsHoldSelected(l: Ledger, scope: Scope, r: Range)
    requires r.start < r.end
    ensures FirstBuckets(l, scope, r, 8) == CallsIn(l, scope, Chart(r))
  {
    FirstBucketsBelow(l, scope, r, 8);
    forall t, a ensures BelowIndex(a, r, 8)(t) == FromTo(a, r.end)(t) {
      assert BucketIndex(t - r.start, r.Seconds()) < 8;
    }
    CutSame(l, scope, Below3(r, 8), Chart(r));
  }

  // ---------- the chart against the total ----------

  lemma ReportedIsCut(l: Ledger, scope: Scope, since: int)
    ensures Reported(l, scope, since, Calls) == CallsIn(l, scope, Since3(since))
  {
    SumEqual(l.raw, Since(scope, since), Picked(scope, From(since)), Calls);
    ReportedRows(l.hourly, scope, ToHour(since));
    ReportedRows(l.daily, scope, ToDay(since));
  }

  lemma ReportedRows(rows: Rollup, scope: Scope, t: int)
    ensures SumRows(rows, RowSince(scope, t), Calls) == SumRows(rows, RowPicked(scope, From(t)), Calls)
  {
    assert (set k | k in rows && RowSince(scope, t)(k)) == (set k | k in rows && RowPicked(scope, From(t))(k));
  }

  /** The chart leaves out what lies after its end, and nothing else since its start. */
  lemma ChartAndPast(l: Ledger, scope: Scope, r: Range)
    requires r.start < r.end
    ensures CallsIn(l, scope, Chart(r)) + CallsIn(l, scope, Past3(r.end)) == Reported(l, scope, r.start, Calls)
  {
    ReportedIsCut(l, scope, r.start);
    CutSplit(l, scope, Since3(r.start), Chart(r), Past3(r.end));
  }

  lemma TruncationMonotone(t: int, u: int)
    requires t <= u
    ensures ToHour(t) <= ToHour(u) && ToDay(t) <= ToDay(u)
  {
    HourStart(u, ToHour(t));
    DayStart(u, ToDay(t));
  }

  /** A report from an earlier instant holds the later one and what lies between. */
  lemma EarlierReport(l: Ledger, scope: Scope, t: int, u: int)
    requires t <= u
    ensures Reported(l, scope, t, Calls) == Reported(l, scope, u, Calls) + CallsIn(l, scope, Between3(t, u))
  {
    ReportedIsCut(l, scope, t);
    ReportedIsCut(l, scope, u);
    TruncationMonotone(t, u);
    CutSplit(l, scope, Since3(t), Since3(u), Between3(t, u));
  }

  ghost predicate NoRowBefore(l: Ledger, scope: Scope, t: int) {
    forall u :: HasRowAt(l, scope, u) ==> t <= u
  }

  /** Starting before all rows, it does not matter where. */
  lemma ReportFromStart(l: Ledger, scope: Scope, t: int, u: int)
    requires NoRowBefore(l, scope, t) && NoRowBefore(l, scope, u)
    ensures Reported(l, scope, t, Calls) == Reported(l, scope, u, Calls)
  {
    ReportedIsCut(l, scope, t);
    ReportedIsCut(l, scope, u);
    CutSame(l, scope, Since3(t), Since3(u));
  }

  ghost predicate IsFirstRow(l: Ledger, scope: Scope, first: Option<int>) {
    match first
    case None => forall t :: !HasRowAt(l, scope, t)
    case Some(t) => HasRowAt(l, scope, t) && NoRowBefore(l, scope, t)
  }

  /** resolveUsageTrafficRangeStart: `since`, or the first row for a zero `since`, and otherwise the last day. */
  function ChartStart(since: int, end: int, first: Option<int>): (start: int)
    ensures start < end
  {
    if since != 0 then (if since < end then since else end - DAY)
    else if first.Some? && first.value < end then first.value else end - DAY
  }

  /** What a chart from `start` shows that the total from `since` leaves out. */
  ghost function Extra(l: Ledger, scope: Scope, start: int, since: int): int {
    if start < since then CallsIn(l, scope, Between3(start, since)) else 0
  }

  /**
   The eight buckets and the calls in rows past the end add up to the reported total and, where the chart has to start
   before `since`, the calls in between.
   */
  lemma ChartAccountsForTotal(l: Ledger, scope: Scope, since: int, end: int, first: Option<int>)
    requires IsFirstRow(l, scope, first)
    ensures var start := ChartStart(since, end, first);
            FirstBuckets(l, scope, Range(start, end), 8) + CallsIn(l, scope, Past3(end))
            == Reported(l, scope, since, Calls) + Extra(l, scope, start, since)
  {
    var start := ChartStart(since, end, first);
    BucketsHoldSelected(l, scope, Range(start, end));
    ChartAndPast(l, scope, Range(start, end));
    if start < since {
      EarlierReport(l, scope, start, since);
    } else if since < start {
      ReportFromStart(l, scope, start, since);
    }
  }

  lemma NoExtra(l: Ledger, scope: Scope, since: int, end: int, first: Option<int>)
    requires IsFirstRow(l, scope, first)
    requires if since == 0 then NoRowBefore(l, scope, 0) else since < end
    ensures Extra(l, scope, ChartStart(since, end, first), since) == 0
  {
    var start := ChartStart(since, end, first);
    if since == 0 && start < since {
      EarlierReport(l, scope, start, since);
      ReportFromStart(l, scope, start, since);
    }
  }

  // ---------- when the chart and the total agree ----------

  ghost predicate NoEmptyRow(rows: Rollup) {
    forall k :: k in rows ==> rows[k].Get(Calls) > 0
  }

  lemma {:induction false} SomeSlots(slots: set<Slot>, rows: Rollup)
    requires slots <= rows.Keys && NoEmptyRow(rows)
    ensures 0 <= SumSlots(slots, rows, Calls)
    ensures SumSlots(slots, rows, Calls) == 0 <==> slots == {}
  {
    if slots != {} {
      SomeSlots(slots - {Pick(slots)}, rows);
    }
  }

  /** A row of a rollup stands for at least one call. */
  lemma RollupHasNoEmptyRow(rows: Rollup, calls: seq<Call>, slot: Slotting)
    requires IsRollup(rows, calls, slot)
    ensures NoEmptyRow(rows)
  {
    forall k | k in rows ensures rows[k].Get(Calls) > 0 {
      CountOfSome(calls, Behind(slot, RowIs(k)));
      var c :| c in calls && slot(c) == k;
      assert Behind(slot, RowIs(k))(c);
    }
  }

  lemma SomeRows(rows: Rollup, scope: Scope, w: When)
    requires NoEmptyRow(rows)
    ensures 0 <= SumRows(rows, RowPicked(scope, w), Calls)
    ensures SumRows(rows, RowPicked(scope, w), Calls) == 0 <==> forall k :: k in rows && scope(k.key, k.tool) ==> !w(k.start)
  {
    var slots := set k | k in rows && RowPicked(scope, w)(k);
    SomeSlots(slots, rows);
    if slots == {} {
      forall k | k in rows && scope(k.key, k.tool) ensures !w(k.start) {
        assert k !in slots;
      }
    }
  }

  lemma NoCallsPast(l: Ledger, scope: Scope, end: int)
    requires NoEmptyRow(l.hourly) && NoEmptyRow(l.daily)
    ensures CallsIn(l, scope, Past3(end)) == 0 <==> forall t :: HasRowAt(l, scope, t) ==> t <= end
  {
    CountOfSome(l.raw, Picked(scope, Past(end)));
    SomeRows(l.hourly, scope, Past(end));
    SomeRows(l.daily, scope, Past(end));
    if CallsIn(l, scope, Past3(end)) == 0 {
      forall t | HasRowAt(l, scope, t) ensures t <= end {
        NoRawPast(l, scope, end, t);
      }
    } else {
      RowPast(l, scope, end);
    }
  }

  lemma NoRawPast(l: Ledger, scope: Scope, end: int, t: int)
    requires forall c :: c in l.raw ==> !Picked(scope, Past(end))(c)
    requires forall k :: k in l.hourly && scope(k.key, k.tool) ==> !Past(end)(k.start)
    requires forall k :: k in l.daily && scope(k.key, k.tool) ==> !Past(end)(k.start)
    requires HasRowAt(l, scope, t)
    ensures t <= end
  {
    if c :| c in l.raw && scope(c.key, c.tool) && c.at == t {
      assert !Picked(scope, Past(end))(c);
    }
  }

  lemma RowPast(l: Ledger, scope: Scope, end: int)
    requires || (exists c :: c in l.raw && Picked(scope, Past(end))(c))
             || (exists k :: k in l.hourly && scope(k.key, k.tool) && Past(end)(k.start))
             || (exists k :: k in l.daily && scope(k.key, k.tool) && Past(end)(k.start))
    ensures exists t :: HasRowAt(l, scope, t) && end < t
  {
    if c :| c in l.raw && Picked(scope, Past(end))(c) {
      assert HasRowAt(l, scope, c.at);
    } else if k :| k in l.hourly && scope(k.key, k.tool) && Past(end)(k.start) {
      assert HasRowAt(l, scope, k.start);
    } else {
      var k :| k in l.daily && scope(k.key, k.tool) && Past(end)(k.start);
      assert HasRowAt(l, scope, k.start);
    }
  }

  /**
   After any run, for every `since` before the end, and for the zero `since` if no row is before it, the eight buckets
   add up to the total of calls in the same response if and only if no row in scope is later than the end of the range.
   */
  lemma ChartIsTotalIff(ops: seq<Op>, scope: Scope, since: int, end: int, first: Option<int>)
    requires AllWellFormed(ops)
    requires var l := Run(EMPTY, ops); IsFirstRow(l, scope, first) && if since == 0 then NoRowBefore(l, scope, 0) else since < end
    ensures var l := Run(EMPTY, ops);
            FirstBuckets(l, scope, Range(ChartStart(since, end, first), end), 8) == Reported(l, scope, since, Calls)
            <==> forall t :: HasRowAt(l, scope, t) ==> t <= end
  {
    var l, h := Run(EMPTY, ops), RunHistory(EMPTY, NO_HISTORY, ops);
    RunRepresents(ops);
    RollupHasNoEmptyRow(l.hourly, h.hourly, ByHour());
    RollupHasNoEmptyRow(l.daily, h.daily, ByDay());
    ChartAccountsForTotal(l, scope, since, end, first);
    NoExtra(l, scope, since, end, first);
    NoCallsPast(l, scope, end);
  }

  // ---------- the query ----------

  /** SELECT MIN(timestamp) FROM usage_log. */
  method EarliestRaw(raw: seq<Call>, scope: Scope) returns (first: Option<int>)
    ensures first.None? ==> forall c :: c in raw ==> !scope(c.key, c.tool)
    ensures first.Some? ==>
              && (exists c :: c in raw && scope(c.key, c.tool) && c.at == first.value)
              && (forall c :: c in raw && scope(c.key, c.tool) ==> first.value <= c.at)
  {
    first := None;
    for n := 0 to |raw|
      invariant first.None? ==> forall i :: 0 <= i < n ==> !scope(raw[i].key, raw[i].tool)
      invariant first.Some? ==> exists c :: c in raw && scope(c.key, c.tool) && c.at == first.value
      invariant first.Some? ==> forall i :: 0 <= i < n && scope(raw[i].key, raw[i].tool) ==> first.value <= raw[i].at
    {
      var c := raw[n];
      if scope(c.key, c.tool) && (first.None? || c.at < first.value) {
        first := Some(c.at);
        assert c in raw;
      }
    }
  }

  /** SELECT MIN(bucket_start) FROM a rollup table, compared with what the finer tables gave. */
  method EarliestRow(rows: Rollup, scope: Scope, before: Option<int>) returns (first: Option<int>)
    ensures first.None? ==> before.None? && forall k :: k in rows ==> !scope(k.key, k.tool)
    ensures first.Some? ==>
              && (first == before || exists k :: k in rows && scope(k.key, k.tool) && k.start == first.value)
              && (before.Some? ==> first.value <= before.value)
              && (forall k :: k in rows && scope(k.key, k.tool) ==> first.value <= k.start)
  {
    first := before;
    var todo := set k | k in rows && scope(k.key, k.tool);
    while todo != {}
      invariant todo <= rows.Keys
      invariant first.None? ==> before.None? && forall k :: k in rows && scope(k.key, k.tool) ==> k in todo
      invariant first.Some? ==>
                  && (first == before || exists k :: k in rows && scope(k.key, k.tool) && k.start == first.value)
                  && (before.Some? ==> first.value <= before.value)
                  && (forall k :: k in rows && scope(k.key, k.tool) && k !in todo ==> first.value <= k.start)
      invariant forall k :: k in todo ==> scope(k.key, k.tool)
      decreases |todo|
    {
      var k :| k in todo;
      if first.None? || k.start < first.value {
        first := Some(k.start);
      }
      todo := todo - {k};
    }
  }

  /** The earliest row of the three tables, each compared with the ones before. */
  method EarliestUsage(l: Ledger, scope: Scope) returns (first: Option<int>)
    ensures IsFirstRow(l, scope, first)
  {
    var raw := EarliestRaw(l.raw, scope);
    var hourly := EarliestRow(l.hourly, scope, raw);
    first := EarliestRow(l.daily, scope, hourly);
    if first.Some? {
      assert HasRowAt(l, scope, first.value);
    }
  }

  /** The selected raw rows, each standing for one call. */
  method SelectRaw(raw: seq<Call>, scope: Scope, r: Range) returns (samples: seq<Sample>)
    requires r.start < r.end
    ensures forall i :: InBucket(samples, |samples|, r.start, r.Seconds(), i) == Sum(raw, Picked(scope, WithIndex(r.start, r, i)), Calls)
  {
    samples := [];
    for n := 0 to |raw|
      invariant forall i :: InBucket(samples, |samples|, r.start, r.Seconds(), i) == SumTo(raw, n, Picked(scope, WithIndex(r.start, r, i)), Calls)
    {
      if Picked(scope, FromTo(r.start, r.end))(raw[n]) {
        forall i {
          OneMoreSample(samples, Sample(raw[n].at, 1), r.start, r.Seconds(), i);
        }
        samples := samples + [Sample(raw[n].at, 1)];
      }
    }
  }

  lemma {:induction false} SamplePrefix(samples: seq<Sample>, s: Sample, n: nat, start: int, duration: int, i: int)
    requires n <= |samples| && duration > 0
    ensures InBucket(samples + [s], n, start, duration, i) == InBucket(samples, n, start, duration, i)
  {
    if n != 0 {
      SamplePrefix(samples, s, n - 1, start, duration, i);
    }
  }

  lemma OneMoreSample(samples: seq<Sample>, s: Sample, start: int, duration: int, i: int)
    requires duration > 0
    ensures InBucket(samples + [s], |samples| + 1, start, duration, i)
            == InBucket(samples, |samples|, start, duration, i) + if BucketIndex(s.at - start, duration) == i then s.calls else 0
  {
    SamplePrefix(samples, s, |samples|, start, duration, i);
  }

  /** The rows among `slots` that fall into bucket i. */
  ghost function SlotsWithIndex(slots: set<Slot>, scope: Scope, a: int, r: Range, i: int): set<Slot>
    requires r.start < r.end
  {
    set k | k in slots && RowPicked(scope, WithIndex(a, r, i))(k)
  }

  lemma OneMoreRow(rows: Rollup, todo: set<Slot>, k: Slot, scope: Scope, a: int, r: Range, i: int)
    requires r.start < r.end && todo <= rows.Keys && k in todo && scope(k.key, k.tool) && a <= k.start <= r.end
    ensures SumSlots(SlotsWithIndex(todo, scope, a, r, i), rows, Calls)
            == SumSlots(SlotsWithIndex(todo - {k}, scope, a, r, i), rows, Calls)
               + if BucketIndex(k.start - r.start, r.Seconds()) == i then rows[k].calls else 0
  {
    var here, rest := SlotsWithIndex(todo, scope, a, r, i), SlotsWithIndex(todo - {k}, scope, a, r, i);
    if BucketIndex(k.start - r.start, r.Seconds()) == i {
      assert k in here && here - {k} == rest;
      SumSlotsRemove(here, rows, k, Calls);
    } else {
      assert here == rest;
    }
  }

  /** What bucket i has from the samples so far and from the rows still to come. */
  ghost function Remaining(rows: Rollup, samples: seq<Sample>, todo: set<Slot>, scope: Scope, a: int, r: Range, i: int): int
    requires r.start < r.end && todo <= rows.Keys
  {
    InBucket(samples, |samples|, r.start, r.Seconds(), i) + SumSlots(SlotsWithIndex(todo, scope, a, r, i), rows, Calls)
  }

  lemma TakeRow(rows: Rollup, samples: seq<Sample>, todo: set<Slot>, k: Slot, scope: Scope, a: int, r: Range, i: int)
    requires r.start < r.end && todo <= rows.Keys && k in todo && scope(k.key, k.tool) && a <= k.start <= r.end
    ensures Remaining(rows, samples + [Sample(k.start, rows[k].calls)], todo - {k}, scope, a, r, i)
            == Remaining(rows, samples, todo, scope, a, r, i)
  {
    OneMoreRow(rows, todo, k, scope, a, r, i);
    OneMoreSample(samples, Sample(k.start, rows[k].calls), r.start, r.Seconds(), i);
  }

  lemma NothingRemains(rows: Rollup, samples: seq<Sample>, scope: Scope, a: int, r: Range, i: int)
    requires r.start < r.end
    ensures Remaining(rows, samples, {}, scope, a, r, i) == InBucket(samples, |samples|, r.start, r.Seconds(), i)
  {
    assert SlotsWithIndex({}, scope, a, r, i) == {};
  }

  /** The selected rows of a rollup table, each standing for its total_calls. */
  method SelectRows(rows: Rollup, scope: Scope, a: int, r: Range) returns (samples: seq<Sample>)
    requires r.start < r.end
    ensures forall i :: InBucket(samples, |samples|, r.start, r.Seconds(), i) == SumRows(rows, RowPicked(scope, WithIndex(a, r, i)), Calls)
  {
    var todo := set k | k in rows && scope(k.key, k.tool) && a <= k.start <= r.end;
    samples := [];
    forall i ensures Remaining(rows, samples, todo, scope, a, r, i) == SumRows(rows, RowPicked(scope, WithIndex(a, r, i)), Calls) {
      AllSlots(rows, scope, a, r, i);
    }
    while todo != {}
      invariant todo <= rows.Keys && forall k :: k in todo ==> scope(k.key, k.tool) && a <= k.start <= r.end
      invariant forall i :: Remaining(rows, samples, todo, scope, a, r, i) == SumRows(rows, RowPicked(scope, WithIndex(a, r, i)), Calls)
      decreases |todo|
    {
      var k :| k in todo;
      var next := samples + [Sample(k.start, rows[k].calls)];
      forall i ensures Remaining(rows, next, todo - {k}, scope, a, r, i) == Remaining(rows, samples, todo, scope, a, r, i) {
        TakeRow(rows, samples, todo, k, scope, a, r, i);
      }
      samples := next;
      todo := todo - {k};
    }
    forall i ensures InBucket(samples, |samples|, r.start, r.Seconds(), i) == SumRows(rows, RowPicked(scope, WithIndex(a, r, i)), Calls) {
      NothingRemains(rows, samples, scope, a, r, i);
    }
  }

  lemma AllSlots(rows: Rollup, scope: Scope, a: int, r: Range, i: int)
    requires r.start < r.end
    ensures SlotsWithIndex((set k | k in rows && scope(k.key, k.tool) && a <= k.start <= r.end), scope, a, r, i)
            == set k | k in rows && RowPicked(scope, WithIndex(a, r, i))(k)
  {
  }

  /** An empty range becomes the day before its end. */
  function Asked(rangeStart: int, rangeEnd: int): (r: Range)
    ensures r.start < r.end == rangeEnd
    ensures r.start == if rangeStart < rangeEnd then rangeStart else rangeEnd - 24 * 3600
  {
    Range(if rangeStart < rangeEnd then rangeStart else rangeEnd - DAY, rangeEnd)
  }

  /** Bucket i has its borders and the calls of the rows with its index, from all three tables. */
  ghost function ChartBucket(l: Ledger, scope: Scope, r: Range, i: int): Bucket
    requires r.start < r.end && 0 <= i < BUCKETS
  {
    Bucket(r.start + Border(i, r.Seconds()), r.start + Border(i + 1, r.Seconds()), CallsIn(l, scope, InBucket3(r, i)))
  }

  ghost predicate Filled(buckets: seq<Bucket>, l: Ledger, scope: Scope, r: Range) {
    && r.start < r.end && |buckets| == BUCKETS
    && (forall i :: 0 <= i < BUCKETS ==> buckets[i] == ChartBucket(l, scope, r, i))
  }

  /** queryUsageTrafficBuckets: three sources, each added to the buckets that the ones before have filled. */
  method QueryTrafficBuckets(l: Ledger, scope: Scope, rangeStart: int, rangeEnd: int) returns (buckets: seq<Bucket>)
    ensures Filled(buckets, l, scope, Asked(rangeStart, rangeEnd))
  {
    var r := Asked(rangeStart, rangeEnd);
    var empty := CreateEmptyBuckets(r.start, r.end);
    var raw := SelectRaw(l.raw, scope, r);
    var withRaw := AddTrafficSource(empty, raw, r.Seconds());
    var hourly := SelectRows(l.hourly, scope, ToHour(r.start), r);
    var withHourly := AddTrafficSource(withRaw, hourly, r.Seconds());
    var daily := SelectRows(l.daily, scope, ToDay(r.start), r);
    buckets := AddTrafficSource(withHourly, daily, r.Seconds());
    forall i | 0 <= i < BUCKETS ensures buckets[i] == ChartBucket(l, scope, r, i) {
      assert buckets[i].calls == CallsFrom(raw, r, i) + CallsFrom(hourly, r, i) + CallsFrom(daily, r, i);
      assert buckets[i].start == empty[i].start && buckets[i].end == empty[i].end;
    }
  }

  function CallsFrom(samples: seq<Sample>, r: Range, i: int): int
    requires r.start < r.end
  {
    InBucket(samples, |samples|, r.start, r.Seconds(), i)
  }

  function CallsShown(buckets: seq<Bucket>, n: nat): int
    requires n <= |buckets|
  {
    if n == 0 then 0 else CallsShown(buckets, n - 1) + buckets[n - 1].calls
  }

  lemma {:induction false} ShownIsFirst(buckets: seq<Bucket>, l: Ledger, scope: Scope, r: Range, n: nat)
    requires Filled(buckets, l, scope, r) && n <= |buckets|
    ensures CallsShown(buckets, n) == FirstBuckets(l, scope, r, n)
  {
    if n != 0 {
      ShownIsFirst(buckets, l, scope, r, n - 1);
      assert buckets[n - 1] == ChartBucket(l, scope, r, n - 1);
    }
  }

  /** The traffic part of queryUsageStatsWithExecutor. */
  method UsageTraffic(l: Ledger, scope: Scope, since: int, end: int) returns (buckets: seq<Bucket>)
    ensures |buckets| == BUCKETS && Filled(buckets, l, scope, Range(buckets[0].start, end))
    ensures CallsShown(buckets, 8) + CallsIn(l, scope, Past3(end))
            == Reported(l, scope, since, Calls) + Extra(l, scope, buckets[0].start, since)
    ensures since != 0 ==> buckets[0].start == if since < end then since else end - DAY
    ensures since == 0 && (exists t :: HasRowAt(l, scope, t) && t < end) ==>
              HasRowAt(l, scope, buckets[0].start) && NoRowBefore(l, scope, buckets[0].start)
    ensures since == 0 && !(exists t :: HasRowAt(l, scope, t) && t < end) ==> buckets[0].start == end - DAY
  {
    var first := EarliestUsage(l, scope);
    var r := Range(ChartStart(since, end, first), end);
    buckets := QueryTrafficBuckets(l, scope, r.start, r.end);
    assert Asked(r.start, r.end) == r;
    BordersCover(r.Seconds(), 0);
    assert buckets[0].start == r.start;
    ShownIsFirst(buckets, l, scope, r, 8);
    ChartAccountsForTotal(l, scope, since, end, first);
  }
}
