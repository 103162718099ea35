/**
 The three usage tables and the SQL aggregation over them: `usage_log` rows are calls, and
 `usage_hourly_rollups` and `usage_daily_rollups` map (key, bucket start, tool) to totals.
 */
module UsageTables {
  import opened GoTime

  /** A `usage_log` row; `at` has the one-second resolution of the stored timestamp. */
  datatype Call = Call(key: string, tool: string, at: int, durationMs: int, success: bool)

  /** The three aggregates kept everywhere: COUNT(*), SUM(success) and SUM(duration_ms). */
  datatype Measure = Calls | Successes | Duration

  datatype Totals = Totals(calls: int, successes: int, durationMs: int) {
    function Get(m: Measure): int {
      match m
      case Calls => calls
      case Successes => successes
      case Duration => durationMs
    }

    function Plus(that: Totals): Totals {
      Totals(calls + that.calls, successes + that.successes, durationMs + that.durationMs)
    }
  }

  const NOTHING := Totals(0, 0, 0)

  /** The primary key of a rollup table. */
  datatype Slot = Slot(key: string, start: int, tool: string)

  type Rollup = map<Slot, Totals>

  /** The row of the hourly table, or of the daily table, that a call is counted in. */
  type Slotting = Call -> Slot

  function ByHour(): Slotting {
    (c: Call) => Slot(c.key, ToHour(c.at), c.tool)
  }

  function ByDay(): Slotting {
    (c: Call) => Slot(c.key, ToDay(c.at), c.tool)
  }

  // ---------- WHERE clauses ----------

  function OfKey(key: string): Call -> bool {
    (c: Call) => c.key == key
  }

  function Between(start: int, width: int): Call -> bool {
    (c: Call) => start <= c.at < start + width
  }

  function Not(p: Call -> bool): Call -> bool {
    (c: Call) => !p(c)
  }

  function And(p: Call -> bool, q: Call -> bool): Call -> bool {
    (c: Call) => p(c) && q(c)
  }

  /** The calls whose rollup row satisfies a clause on rows. */
  function Behind(slot: Slotting, q: Slot -> bool): Call -> bool {
    (c: Call) => q(slot(c))
  }

  function Within(slot: Slotting, slots: set<Slot>): Call -> bool {
    (c: Call) => slot(c) in slots
  }

  function RowIs(k: Slot): Slot -> bool {
    (r: Slot) => r == k
  }

  function RowOfKey(key: string): Slot -> bool {
    (r: Slot) => r.key == key
  }

  function RowBetween(start: int, width: int): Slot -> bool {
    (r: Slot) => start <= r.start < start + width
  }

  function RowNot(q: Slot -> bool): Slot -> bool {
    (r: Slot) => !q(r)
  }

  // ---------- aggregation ----------

  function Weight(c: Call, m: Measure): int {
    match m
    case Calls => 1
    case Successes => if c.success then 1 else 0
    case Duration => c.durationMs
  }

  function Single(c: Call): Totals {
    Totals(1, if c.success then 1 else 0, c.durationMs)
  }

  function SumTo(calls: seq<Call>, n: nat, clause: Call -> bool, m: Measure): int
    requires n <= |calls|
  {
    if n == 0 then 0
    else SumTo(calls, n - 1, clause, m) + if clause(calls[n - 1]) then Weight(calls[n - 1], m) else 0
  }

  /** An aggregate of the calls that satisfy a WHERE clause. */
  function Sum(calls: seq<Call>, clause: Call -> bool, m: Measure): int {
    SumTo(calls, |calls|, clause, m)
  }

  function TotalsOf(calls: seq<Call>, clause: Call -> bool): Totals {
    Totals(Sum(calls, clause, Calls), Sum(calls, clause, Successes), Sum(calls, clause, Duration))
  }

  function FilterTo(calls: seq<Call>, n: nat, clause: Call -> bool): (kept: seq<Call>)
    requires n <= |calls|
    ensures |kept| <= n
    ensures forall c :: c in kept <==> c in calls[..n] && clause(c)
  {
    if n == 0 then []
    else
      assert calls[..n] == calls[..n - 1] + [calls[n - 1]];
      FilterTo(calls, n - 1, clause) + (if clause(calls[n - 1]) then [calls[n - 1]] else [])
  }

  /** The calls that satisfy a WHERE clause, in the order of the table. */
  function Filter(calls: seq<Call>, clause: Call -> bool): (kept: seq<Call>)
    ensures |kept| <= |calls|
    ensures forall c :: c in kept <==> c in calls && clause(c)
  {
    assert calls[..|calls|] == calls;
    FilterTo(calls, |calls|, clause)
  }

  ghost function Pick(slots: set<Slot>): (k: Slot)
    requires slots != {}
    ensures k in slots
  {
    var k :| k in slots; k
  }

  ghost function SumSlots(slots: set<Slot>, rows: Rollup, m: Measure): int
    requires slots <= rows.Keys
  {
    if slots == {} then 0
    else SumSlots(slots - {Pick(slots)}, rows, m) + rows[Pick(slots)].Get(m)
  }

  /** An aggregate of the rollup rows that satisfy a WHERE clause. */
  ghost function SumRows(rows: Rollup, clause: Slot -> bool, m: Measure): int {
    SumSlots((set k | k in rows && clause(k)), rows, m)
  }

  ghost function RowTotals(rows: Rollup, clause: Slot -> bool): Totals {
    Totals(SumRows(rows, clause, Calls), SumRows(rows, clause, Successes), SumRows(rows, clause, Duration))
  }

  function Row(rows: Rollup, k: Slot): Totals {
    if k in rows then rows[k] else NOTHING
  }

  /** INSERT ... ON CONFLICT DO UPDATE, adding the inserted totals to a row already there. */
  function Upsert(rows: Rollup, added: Rollup): Rollup {
    map k | k in rows.Keys + added.Keys :: Row(rows, k).Plus(Row(added, k))
  }

  function Keep(rows: Rollup, clause: Slot -> bool): Rollup {
    map k | k in rows && clause(k) :: rows[k]
  }

  ghost predicate TotalsAgree(rows: Rollup, calls: seq<Call>, slot: Slotting) {
    forall k, m :: k in rows ==> rows[k].Get(m) == Sum(calls, Behind(slot, RowIs(k)), m)
  }

  /** `rows` is what grouping `calls` by key, bucket and tool yields. */
  ghost predicate IsRollup(rows: Rollup, calls: seq<Call>, slot: Slotting) {
    && (forall c :: c in calls ==> slot(c) in rows)
    && (forall k :: k in rows ==> exists c :: c in calls && slot(c) == k)
    && TotalsAgree(rows, calls, slot)
  }

  // ---------- sums over calls ----------

  lemma {:induction false} SumPrefix(a: seq<Call>, b: seq<Call>, n: nat, p: Call -> bool, m: Measure)
    requires n <= |a|
    ensures SumTo(a + b, n, p, m) == SumTo(a, n, p, m)
  {
    if n != 0 {
      SumPrefix(a, b, n - 1, p, m);
    }
  }

  lemma {:induction false} SumSuffix(a: seq<Call>, b: seq<Call>, n: nat, p: Call -> bool, m: Measure)
    requires n <= |b|
    ensures SumTo(a + b, |a| + n, p, m) == Sum(a, p, m) + SumTo(b, n, p, m)
  {
    if n == 0 {
      SumPrefix(a, b, |a|, p, m);
    } else {
      SumSuffix(a, b, n - 1, p, m);
    }
  }

  lemma SumConcat(a: seq<Call>, b: seq<Call>, p: Call -> bool, m: Measure)
    ensures Sum(a + b, p, m) == Sum(a, p, m) + Sum(b, p, m)
  {
    SumSuffix(a, b, |b|, p, m);
  }

  lemma {:induction false} SplitTo(calls: seq<Call>, n: nat, p: Call -> bool, q: Call -> bool, r: Call -> bool, m: Measure)
    requires n <= |calls|
    requires forall c :: (p(c) <==> q(c) || r(c)) && !(q(c) && r(c))
    ensures SumTo(calls, n, p, m) == SumTo(calls, n, q, m) + SumTo(calls, n, r, m)
  {
    if n != 0 {
      SplitTo(calls, n - 1, p, q, r, m);
    }
  }

  /** Splitting a WHERE clause into two disjoint ones splits every aggregate. */
  lemma SumSplit(calls: seq<Call>, p: Call -> bool, q: Call -> bool, r: Call -> bool, m: Measure)
    requires forall c :: (p(c) <==> q(c) || r(c)) && !(q(c) && r(c))
    ensures Sum(calls, p, m) == Sum(calls, q, m) + Sum(calls, r, m)
  {
    SplitTo(calls, |calls|, p, q, r, m);
  }

  lemma {:induction false} EqualTo(calls: seq<Call>, n: nat, p: Call -> bool, q: Call -> bool, m: Measure)
    requires n <= |calls|
    requires forall c :: c in calls ==> p(c) == q(c)
    ensures SumTo(calls, n, p, m) == SumTo(calls, n, q, m)
  {
    if n != 0 {
      EqualTo(calls, n - 1, p, q, m);
      assert calls[n - 1] in calls;
    }
  }

  lemma SumEqual(calls: seq<Call>, p: Call -> bool, q: Call -> bool, m: Measure)
    requires forall c :: c in calls ==> p(c) == q(c)
    ensures Sum(calls, p, m) == Sum(calls, q, m)
  {
    EqualTo(calls, |calls|, p, q, m);
  }

  lemma {:induction false} FilterToSum(calls: seq<Call>, n: nat, f: Call -> bool, p: Call -> bool, both: Call -> bool, m: Measure)
    requires n <= |calls|
    requires forall c :: both(c) <==> f(c) && p(c)
    ensures Sum(FilterTo(calls, n, f), p, m) == SumTo(calls, n, both, m)
  {
    if n != 0 {
      var c, kept := calls[n - 1], FilterTo(calls, n - 1, f);
      FilterToSum(calls, n - 1, f, p, both, m);
      if f(c) {
        SumConcat(kept, [c], p, m);
        assert SumTo([c], 1, p, m) == SumTo([c], 0, p, m) + if p(c) then Weight(c, m) else 0;
      } else {
        assert FilterTo(calls, n, f) == kept;
      }
    }
  }

  lemma SumFilter(calls: seq<Call>, f: Call -> bool, p: Call -> bool, both: Call -> bool, m: Measure)
    requires forall c :: both(c) <==> f(c) && p(c)
    ensures Sum(Filter(calls, f), p, m) == Sum(calls, both, m)
  {
    FilterToSum(calls, |calls|, f, p, both, m);
  }

  lemma {:induction false} NothingTo(calls: seq<Call>, n: nat, p: Call -> bool, m: Measure)
    requires n <= |calls|
    requires forall c :: c in calls ==> !p(c)
    ensures SumTo(calls, n, p, m) == 0
  {
    if n != 0 {
      NothingTo(calls, n - 1, p, m);
      assert calls[n - 1] in calls;
    }
  }

  lemma SumNothing(calls: seq<Call>, p: Call -> bool, m: Measure)
    requires forall c :: c in calls ==> !p(c)
    ensures Sum(calls, p, m) == 0
  {
    NothingTo(calls, |calls|, p, m);
  }

  lemma {:induction false} FilterToSame(calls: seq<Call>, n: nat, p: Call -> bool, q: Call -> bool)
    requires n <= |calls| && forall c :: p(c) == q(c)
    ensures FilterTo(calls, n, p) == FilterTo(calls, n, q)
  {
    if n != 0 {
      FilterToSame(calls, n - 1, p, q);
    }
  }

  lemma FilterSame(calls: seq<Call>, p: Call -> bool, q: Call -> bool)
    requires forall c :: p(c) == q(c)
    ensures Filter(calls, p) == Filter(calls, q)
  {
    FilterToSame(calls, |calls|, p, q);
  }

  // ---------- what the measures are ----------

  /** The positions of the first n calls that satisfy a clause. */
  function Positions(calls: seq<Call>, n: nat, p: Call -> bool): set<int>
    requires n <= |calls|
  {
    set i | 0 <= i < n && p(calls[i])
  }

  function Succeeded(p: Call -> bool): Call -> bool {
    (c: Call) => p(c) && c.success
  }

  lemma {:induction false} CountTo(calls: seq<Call>, n: nat, p: Call -> bool)
    requires n <= |calls|
    ensures SumTo(calls, n, p, Calls) == |Positions(calls, n, p)|
    ensures SumTo(calls, n, p, Successes) == |Positions(calls, n, Succeeded(p))|
  {
    if n != 0 {
      CountTo(calls, n - 1, p);
      OnePosition(calls, n, p);
      OnePosition(calls, n, Succeeded(p));
    }
  }

  /** A clause has a count exactly when some call satisfies it. */
  lemma CountOfSome(calls: seq<Call>, p: Call -> bool)
    ensures 0 <= Sum(calls, p, Calls)
    ensures Sum(calls, p, Calls) != 0 <==> exists c :: c in calls && p(c)
  {
    CountTo(calls, |calls|, p);
    var positions := Positions(calls, |calls|, p);
    if c :| c in calls && p(c) {
      var i :| 0 <= i < |calls| && calls[i] == c;
      assert i in positions;
    }
    if |positions| != 0 {
      var i :| i in positions;
      assert calls[i] in calls && p(calls[i]);
    }
  }

  lemma OnePosition(calls: seq<Call>, n: nat, p: Call -> bool)
    requires 0 < n <= |calls|
    ensures |Positions(calls, n, p)| == |Positions(calls, n - 1, p)| + if p(calls[n - 1]) then 1 else 0
  {
    assert Positions(calls, n, p) == Positions(calls, n - 1, p) + if p(calls[n - 1]) then {n - 1} else {};
  }

  /**
   The three measures: how many calls there are, how many of them succeeded, and their durations added up, one call
   after another.
   */
  lemma MeasuresMean(calls: seq<Call>, c: Call, p: Call -> bool)
    ensures Sum(calls, p, Calls) == |Positions(calls, |calls|, p)|
    ensures Sum(calls, p, Successes) == |Positions(calls, |calls|, Succeeded(p))|
    ensures Sum(calls + [c], p, Duration) == Sum(calls, p, Duration) + if p(c) then c.durationMs else 0
    ensures Sum([], p, Duration) == 0
  {
    CountTo(calls, |calls|, p);
    SumConcat(calls, [c], p, Duration);
    SumOneCall(c, p);
  }

  lemma SumOneCall(c: Call, p: Call -> bool)
    ensures Sum([c], p, Duration) == if p(c) then c.durationMs else 0
  {
    assert SumTo([c], 1, p, Duration) == SumTo([c], 0, p, Duration) + if p([c][0]) then Weight([c][0], Duration) else 0;
  }

  // ---------- sums over rollup rows ----------

  /** The rows may be added up in any order. */
  lemma {:induction false} SumSlotsRemove(slots: set<Slot>, rows: Rollup, k: Slot, m: Measure)
    requires k in slots && slots <= rows.Keys
    ensures SumSlots(slots, rows, m) == SumSlots(slots - {k}, rows, m) + rows[k].Get(m)
  {
    var j := Pick(slots);
    if j != k {
      SumSlotsRemove(slots - {j}, rows, k, m);
      SumSlotsRemove(slots - {k}, rows, j, m);
      assert slots - {j} - {k} == slots - {k} - {j};
    }
  }

  lemma {:induction false} SumSlotsUnion(a: set<Slot>, b: set<Slot>, rows: Rollup, m: Measure)
    requires a + b <= rows.Keys && a !! b
    ensures SumSlots(a + b, rows, m) == SumSlots(a, rows, m) + SumSlots(b, rows, m)
  {
    if a == {} {
      assert a + b == b;
    } else {
      var k :| k in a;
      SumSlotsRemove(a, rows, k, m);
      SumSlotsRemove(a + b, rows, k, m);
      assert a + b - {k} == a - {k} + b;
      SumSlotsUnion(a - {k}, b, rows, m);
    }
  }

  lemma SumWithinRemove(calls: seq<Call>, slot: Slotting, slots: set<Slot>, k: Slot, m: Measure)
    requires k in slots
    ensures Sum(calls, Within(slot, slots), m)
            == Sum(calls, Within(slot, slots - {k}), m) + Sum(calls, Behind(slot, RowIs(k)), m)
  {
    SumSplit(calls, Within(slot, slots), Within(slot, slots - {k}), Behind(slot, RowIs(k)), m);
  }

  lemma {:induction false} SumSlotsOfCalls(slots: set<Slot>, rows: Rollup, calls: seq<Call>, slot: Slotting, m: Measure)
    requires slots <= rows.Keys && TotalsAgree(rows, calls, slot)
    ensures SumSlots(slots, rows, m) == Sum(calls, Within(slot, slots), m)
  {
    if slots == {} {
      SumNothing(calls, Within(slot, slots), m);
    } else {
      var k :| k in slots;
      SumSlotsRemove(slots, rows, k, m);
      SumSlotsOfCalls(slots - {k}, rows, calls, slot, m);
      SumWithinRemove(calls, slot, slots, k, m);
    }
  }

  /** A query over a rollup is the same query over the calls behind it, bucket by bucket. */
  lemma SumRowsOfCalls(rows: Rollup, calls: seq<Call>, slot: Slotting, q: Slot -> bool, p: Call -> bool, m: Measure)
    requires IsRollup(rows, calls, slot) && forall c :: p(c) == q(slot(c))
    ensures SumRows(rows, q, m) == Sum(calls, p, m)
  {
    var slots := set k | k in rows && q(k);
    SumSlotsOfCalls(slots, rows, calls, slot, m);
    SumEqual(calls, Within(slot, slots), p, m);
  }
}
