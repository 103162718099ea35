/**
 The retention pass: three loops that repeatedly look up the oldest bucket before a cutoff and
 hand it to one compaction or deletion transaction.
 */
module UsageMaintenance {
  import opened GoTime
  import opened Basics
  import opened UsageTables
  import opened UsageLedger

  // ---------- policy and cutoffs ----------

  datatype Policy = Policy(rawRetention: int, hourlyRetention: int, dailyRetention: int)

  datatype PolicyError = RawNotPositive | HourlyNotLonger | DailyNotLonger

  /** UsageRetentionPolicy.Validate: the first violated condition, if any. */
  function Validate(p: Policy): (e: Option<PolicyError>)
    ensures e.None? <==> 0 < p.rawRetention < p.hourlyRetention < p.dailyRetention
  {
    if p.rawRetention <= 0 then Some(RawNotPositive)
    else if p.hourlyRetention <= p.rawRetention then Some(HourlyNotLonger)
    else if p.dailyRetention <= p.hourlyRetention then Some(DailyNotLonger)
    else None
  }

  datatype Cutoffs = Cutoffs(raw: int, hourly: int, daily: int)

  /** Each cutoff is the latest bucket border that the retention of its own table allows. */
  function CutoffsAt(p: Policy, now: int): (cut: Cutoffs)
    ensures Aligned(cut)
    ensures now - p.rawRetention - HOUR < cut.raw <= now - p.rawRetention
    ensures now - p.hourlyRetention - DAY < cut.hourly <= now - p.hourlyRetention
    ensures now - p.dailyRetention - DAY < cut.daily <= now - p.dailyRetention
  {
    Cutoffs(ToHour(now - p.rawRetention), ToDay(now - p.hourlyRetention), ToDay(now - p.dailyRetention))
  }

  predicate Aligned(cut: Cutoffs) {
    cut.raw % HOUR == 0 && cut.hourly % DAY == 0 && cut.daily % DAY == 0
  }

  /** A valid policy leaves no gap between tiers: each coarser cutoff is at or before the finer one. */
  lemma CutoffsOrdered(p: Policy, now: int)
    requires Validate(p).None?
    ensures var cut := CutoffsAt(p, now);
            Aligned(cut) && cut.daily <= cut.hourly <= cut.raw < now
  {
    DayStart(now - p.hourlyRetention, ToDay(now - p.dailyRetention));
    DayStart(now - p.rawRetention, ToDay(now - p.hourlyRetention));
  }

  // ---------- lookups ----------

  /** Go's zero time as `searchStart` means that the query has no lower bound. */
  predicate Candidate(t: int, searchStart: int, cutoff: int) {
    t < cutoff && (searchStart == 0 || searchStart <= t)
  }

  ghost predicate IsFirst(times: set<int>, t: int, searchStart: int, cutoff: int) {
    && t in times && Candidate(t, searchStart, cutoff)
    && forall u :: u in times && Candidate(u, searchStart, cutoff) ==> t <= u
  }

  ghost predicate NoneLeft(times: set<int>, searchStart: int, cutoff: int) {
    forall t :: t in times ==> !Candidate(t, searchStart, cutoff)
  }

  lemma {:induction false} FirstExists(times: set<int>, searchStart: int, cutoff: int)
    ensures NoneLeft(times, searchStart, cutoff) || exists t :: IsFirst(times, t, searchStart, cutoff)
  {
    if exists u :: u in times {
      var u :| u in times;
      var rest := times - {u};
      FirstExists(rest, searchStart, cutoff);
      if NoneLeft(rest, searchStart, cutoff) {
        if Candidate(u, searchStart, cutoff) {
          assert IsFirst(times, u, searchStart, cutoff);
        }
      } else {
        var t :| IsFirst(rest, t, searchStart, cutoff);
        assert IsFirst(times, if Candidate(u, searchStart, cutoff) && u < t then u else t, searchStart, cutoff);
      }
    }
  }

  /** SELECT MIN(...) of the rows inside the search window. */
  ghost function First(times: set<int>, searchStart: int, cutoff: int): (found: Option<int>)
    ensures found.None? <==> NoneLeft(times, searchStart, cutoff)
    ensures found.Some? ==> IsFirst(times, found.value, searchStart, cutoff)
  {
    FirstExists(times, searchStart, cutoff);
    if NoneLeft(times, searchStart, cutoff) then None
    else
      var t :| IsFirst(times, t, searchStart, cutoff);
      Some(t)
  }

  function Times(calls: seq<Call>): set<int> {
    set c | c in calls :: c.at
  }

  function Starts(rows: Rollup): set<int> {
    set k | k in rows :: k.start
  }

  // ---------- the three loops ----------

  lemma {:induction false} FilterShrinks(calls: seq<Call>, n: nat, p: Call -> bool, c: Call)
    requires n <= |calls| && c in calls[..n] && !p(c)
    ensures |FilterTo(calls, n, p)| < n
  {
    assert calls[..n] == calls[..n - 1] + [calls[n - 1]];
    if c in calls[..n - 1] {
      FilterShrinks(calls, n - 1, p, c);
    }
  }

  function Without(raw: seq<Call>, hour: int): seq<Call> {
    Filter(raw, Not(Between(hour, HOUR)))
  }

  function RowsWithout(rows: Rollup, day: int): Rollup {
    Keep(rows, RowNot(RowBetween(day, DAY)))
  }

  lemma HourShrinks(raw: seq<Call>, t: int)
    requires t in Times(raw)
    ensures |Without(raw, ToHour(t))| < |raw|
  {
    var c :| c in raw && c.at == t;
    assert raw[..|raw|] == raw;
    FilterShrinks(raw, |raw|, Not(Between(ToHour(t), HOUR)), c);
  }

  lemma KeepShrinks(rows: Rollup, q: Slot -> bool, k: Slot)
    requires k in rows && !q(k)
    ensures |Keep(rows, q)| < |rows|
  {
    assert Keep(rows, q).Keys <= rows.Keys - {k};
    SubsetSize(Keep(rows, q).Keys, rows.Keys - {k});
    assert |Keep(rows, q)| == |Keep(rows, q).Keys| && |rows| == |rows.Keys|;
  }

  lemma DayShrinks(rows: Rollup, t: int)
    requires t in Starts(rows)
    ensures |RowsWithout(rows, ToDay(t))| < |rows|
  {
    var k :| k in rows && k.start == t;
    KeepShrinks(rows, RowNot(RowBetween(ToDay(t), DAY)), k);
  }

  /** The transactions of the raw loop, from the current search position on. */
  ghost function RawSteps(raw: seq<Call>, searchStart: int, cutoff: int): (ops: seq<Op>)
    ensures forall op :: op in ops ==> op.CompactHour? && op.hour % HOUR == 0 && op.hour < cutoff
    decreases |raw|
  {
    match First(Times(raw), searchStart, cutoff)
    case None => []
    case Some(t) =>
      HourShrinks(raw, t);
      [CompactHour(ToHour(t))] + RawSteps(Without(raw, ToHour(t)), ToHour(t) + HOUR, cutoff)
  }

  ghost function HourlySteps(rows: Rollup, searchStart: int, cutoff: int): (ops: seq<Op>)
    ensures forall op :: op in ops ==> op.CompactDay? && op.day % DAY == 0 && op.day < cutoff
    decreases |rows|
  {
    match First(Starts(rows), searchStart, cutoff)
    case None => []
    case Some(t) =>
      DayShrinks(rows, t);
      [CompactDay(ToDay(t))] + HourlySteps(RowsWithout(rows, ToDay(t)), ToDay(t) + DAY, cutoff)
  }

  ghost function DailySteps(rows: Rollup, searchStart: int, cutoff: int): (ops: seq<Op>)
    ensures forall op :: op in ops ==> op.DropDay? && op.day % DAY == 0 && op.day < cutoff
    decreases |rows|
  {
    match First(Starts(rows), searchStart, cutoff)
    case None => []
    case Some(t) =>
      DayShrinks(rows, t);
      [DropDay(ToDay(t))] + DailySteps(RowsWithout(rows, ToDay(t)), ToDay(t) + DAY, cutoff)
  }

  /** The ledger after the given transactions, first to last. */
  ghost function Follow(l: Ledger, ops: seq<Op>): Ledger
    decreases |ops|
  {
    if ops == [] then l else Follow(Apply(l, ops[0]), ops[1..])
  }

  ghost function AfterRaw(l: Ledger, cut: Cutoffs): Ledger {
    Follow(l, RawSteps(l.raw, 0, cut.raw))
  }

  ghost function AfterHourly(l: Ledger, cut: Cutoffs): Ledger {
    var l1 := AfterRaw(l, cut);
    Follow(l1, HourlySteps(l1.hourly, 0, cut.hourly))
  }

  /** One whole maintenance pass. */
  ghost function Pass(l: Ledger, cut: Cutoffs): Ledger {
    var l2 := AfterHourly(l, cut);
    Follow(l2, DailySteps(l2.daily, 0, cut.daily))
  }

  // ---------- what a pass leaves behind ----------

  function From(cutoff: int): Call -> bool {
    (c: Call) => cutoff <= c.at
  }

  function RowFrom(cutoff: int): Slot -> bool {
    (r: Slot) => cutoff <= r.start
  }

  /** Nothing before the cutoff is left behind the search position. */
  ghost predicate Swept(times: set<int>, searchStart: int, cutoff: int) {
    searchStart != 0 ==> forall t :: t in times ==> searchStart <= t || cutoff <= t
  }

  lemma {:induction false} FilterToFilter(calls: seq<Call>, n: nat, p: Call -> bool, q: Call -> bool)
    requires n <= |calls| && forall c :: q(c) ==> p(c)
    ensures Filter(FilterTo(calls, n, p), q) == FilterTo(calls, n, q)
  {
    if n != 0 {
      FilterToFilter(calls, n - 1, p, q);
      FilterToLast(calls, n, p);
      FilterToLast(calls, n, q);
      FilterOneMore(FilterTo(calls, n - 1, p), calls[n - 1], p, q, FilterTo(calls, n, p), FilterTo(calls, n - 1, q), FilterTo(calls, n, q));
    }
  }

  /** Filtering one element more, with the sequences given. */
  lemma FilterOneMore(kept: seq<Call>, c: Call, p: Call -> bool, q: Call -> bool, longer: seq<Call>, before: seq<Call>, after: seq<Call>)
    requires longer == kept + (if p(c) then [c] else []) && after == before + (if q(c) then [c] else [])
    requires Filter(kept, q) == before && (q(c) ==> p(c))
    ensures Filter(longer, q) == after
  {
    if p(c) {
      FilterAppend(kept, c, q);
    } else {
      assert longer == kept && after == before;
    }
  }

  lemma FilterToLast(calls: seq<Call>, n: nat, p: Call -> bool)
    requires 0 < n <= |calls|
    ensures FilterTo(calls, n, p) == FilterTo(calls, n - 1, p) + (if p(calls[n - 1]) then [calls[n - 1]] else [])
  {
  }

  lemma {:induction false} FilterToPrefix(calls: seq<Call>, c: Call, n: nat, q: Call -> bool)
    requires n <= |calls|
    ensures FilterTo(calls + [c], n, q) == FilterTo(calls, n, q)
  {
    if n != 0 {
      FilterToPrefix(calls, c, n - 1, q);
    }
  }

  lemma FilterAppend(calls: seq<Call>, c: Call, q: Call -> bool)
    ensures Filter(calls + [c], q) == Filter(calls, q) + if q(c) then [c] else []
  {
    FilterToPrefix(calls, c, |calls|, q);
  }

  lemma {:induction false} FilterToAll(calls: seq<Call>, n: nat, p: Call -> bool)
    requires n <= |calls| && forall c :: c in calls ==> p(c)
    ensures FilterTo(calls, n, p) == calls[..n]
  {
    if n != 0 {
      FilterToAll(calls, n - 1, p);
      assert calls[n - 1] in calls;
      assert calls[..n] == calls[..n - 1] + [calls[n - 1]];
    }
  }

  lemma FilterFilter(calls: seq<Call>, p: Call -> bool, q: Call -> bool)
    requires forall c :: q(c) ==> p(c)
    ensures Filter(Filter(calls, p), q) == Filter(calls, q)
  {
    FilterToFilter(calls, |calls|, p, q);
  }

  lemma FilterAll(calls: seq<Call>, p: Call -> bool)
    requires forall c :: c in calls ==> p(c)
    ensures Filter(calls, p) == calls
  {
    FilterToAll(calls, |calls|, p);
    assert calls[..|calls|] == calls;
  }

  /** The raw loop leaves exactly the raw rows from the cutoff on, in their order, and no daily row changes. */
  lemma {:induction false} RawLoop(l: Ledger, searchStart: int, cutoff: int)
    requires cutoff % HOUR == 0 && Swept(Times(l.raw), searchStart, cutoff)
    ensures var l' := Follow(l, RawSteps(l.raw, searchStart, cutoff));
            l'.raw == Filter(l.raw, From(cutoff)) && l'.daily == l.daily && l'.keys == l.keys
    decreases |l.raw|
  {
    match First(Times(l.raw), searchStart, cutoff)
    case None =>
      forall c | c in l.raw ensures From(cutoff)(c) {
        assert c.at in Times(l.raw);
      }
      FilterAll(l.raw, From(cutoff));
    case Some(t) =>
      HourShrinks(l.raw, t);
      var hour := ToHour(t);
      var l1 := Apply(l, CompactHour(hour));
      HourSweep(l.raw, t, searchStart, cutoff);
      RawLoop(l1, hour + HOUR, cutoff);
      FilterFilter(l.raw, Not(Between(hour, HOUR)), From(cutoff));
      StepsFirst(l, CompactHour(hour), RawSteps(l1.raw, hour + HOUR, cutoff));
  }

  lemma HourSweep(raw: seq<Call>, t: int, searchStart: int, cutoff: int)
    requires cutoff % HOUR == 0 && Swept(Times(raw), searchStart, cutoff)
    requires IsFirst(Times(raw), t, searchStart, cutoff)
    ensures ToHour(t) + HOUR <= cutoff
    ensures Swept(Times(Without(raw, ToHour(t))), ToHour(t) + HOUR, cutoff)
  {
    HourBefore(t, cutoff);
    forall c | c in Without(raw, ToHour(t))
      ensures ToHour(t) + HOUR <= c.at || cutoff <= c.at
    {
      assert c in raw && c.at in Times(raw);
    }
  }

  lemma HourBefore(t: int, cutoff: int)
    requires cutoff % HOUR == 0 && t < cutoff
    ensures ToHour(t) + HOUR <= cutoff && ToHour(t) % HOUR == 0
  {
  }

  lemma DayBefore(t: int, cutoff: int)
    requires cutoff % DAY == 0 && t < cutoff
    ensures ToDay(t) + DAY <= cutoff && ToDay(t) % DAY == 0
  {
  }

  lemma StepsFirst(l: Ledger, op: Op, rest: seq<Op>)
    ensures Follow(l, [op] + rest) == Follow(Apply(l, op), rest)
  {
    assert ([op] + rest)[1..] == rest;
  }

  lemma KeepKeep(rows: Rollup, p: Slot -> bool, q: Slot -> bool)
    requires forall k :: q(k) ==> p(k)
    ensures Keep(Keep(rows, p), q) == Keep(rows, q)
  {
  }

  lemma {:induction false} HourlyLoop(l: Ledger, searchStart: int, cutoff: int)
    requires cutoff % DAY == 0 && Swept(Starts(l.hourly), searchStart, cutoff)
    ensures var l' := Follow(l, HourlySteps(l.hourly, searchStart, cutoff));
            l'.raw == l.raw && l'.hourly == Keep(l.hourly, RowFrom(cutoff)) && l'.keys == l.keys
    decreases |l.hourly|
  {
    match First(Starts(l.hourly), searchStart, cutoff)
    case None =>
      forall k | k in l.hourly ensures RowFrom(cutoff)(k) {
        assert k.start in Starts(l.hourly);
      }
    case Some(t) =>
      DayShrinks(l.hourly, t);
      var day := ToDay(t);
      var l1 := Apply(l, CompactDay(day));
      DaySweep(l.hourly, t, searchStart, cutoff);
      HourlyLoop(l1, day + DAY, cutoff);
      KeepKeep(l.hourly, RowNot(RowBetween(day, DAY)), RowFrom(cutoff));
      StepsFirst(l, CompactDay(day), HourlySteps(l1.hourly, day + DAY, cutoff));
  }

  lemma DaySweep(rows: Rollup, t: int, searchStart: int, cutoff: int)
    requires cutoff % DAY == 0 && Swept(Starts(rows), searchStart, cutoff)
    requires IsFirst(Starts(rows), t, searchStart, cutoff)
    ensures ToDay(t) + DAY <= cutoff
    ensures Swept(Starts(RowsWithout(rows, ToDay(t))), ToDay(t) + DAY, cutoff)
  {
    DayBefore(t, cutoff);
    forall k | k in RowsWithout(rows, ToDay(t))
      ensures ToDay(t) + DAY <= k.start || cutoff <= k.start
    {
      assert k.start in Starts(rows);
    }
  }

  lemma {:induction false} DailyLoop(l: Ledger, searchStart: int, cutoff: int)
    requires cutoff % DAY == 0 && Swept(Starts(l.daily), searchStart, cutoff)
    ensures var l' := Follow(l, DailySteps(l.daily, searchStart, cutoff));
            l' == l.(daily := Keep(l.daily, RowFrom(cutoff)))
    decreases |l.daily|
  {
    match First(Starts(l.daily), searchStart, cutoff)
    case None =>
      forall k | k in l.daily ensures RowFrom(cutoff)(k) {
        assert k.start in Starts(l.daily);
      }
      assert Keep(l.daily, RowFrom(cutoff)) == l.daily;
    case Some(t) =>
      DayShrinks(l.daily, t);
      var day := ToDay(t);
      var l1 := Apply(l, DropDay(day));
      DaySweep(l.daily, t, searchStart, cutoff);
      DailyLoop(l1, day + DAY, cutoff);
      KeepKeep(l.daily, RowNot(RowBetween(day, DAY)), RowFrom(cutoff));
      StepsFirst(l, DropDay(day), DailySteps(l1.daily, day + DAY, cutoff));
  }

  ghost predicate Drained(l: Ledger, cut: Cutoffs) {
    && (forall c :: c in l.raw ==> cut.raw <= c.at)
    && (forall k :: k in l.hourly ==> cut.hourly <= k.start)
    && (forall k :: k in l.daily ==> cut.daily <= k.start)
  }

  /**
   For any stored data a pass terminates; it leaves exactly the raw rows from the raw cutoff on,
   and no hourly or daily row before its cutoff.
   */
  lemma PassDrains(l: Ledger, cut: Cutoffs)
    requires Aligned(cut)
    ensures Drained(Pass(l, cut), cut)
    ensures Pass(l, cut).raw == Filter(l.raw, From(cut.raw))
    ensures Pass(l, cut).hourly == Keep(AfterRaw(l, cut).hourly, RowFrom(cut.hourly))
    ensures Pass(l, cut).daily == Keep(AfterHourly(l, cut).daily, RowFrom(cut.daily))
  {
    RawLoop(l, 0, cut.raw);
    HourlyLoop(AfterRaw(l, cut), 0, cut.hourly);
    DailyLoop(AfterHourly(l, cut), 0, cut.daily);
  }

  /** A drained ledger offers a pass nothing to do. */
  lemma DrainedPassIsNothing(l: Ledger, cut: Cutoffs)
    requires Drained(l, cut)
    ensures RawSteps(l.raw, 0, cut.raw) == [] && AfterRaw(l, cut) == l
    ensures HourlySteps(l.hourly, 0, cut.hourly) == [] && AfterHourly(l, cut) == l
    ensures DailySteps(l.daily, 0, cut.daily) == [] && Pass(l, cut) == l
  {
    assert NoneLeft(Times(l.raw), 0, cut.raw);
    assert NoneLeft(Starts(l.hourly), 0, cut.hourly);
    assert NoneLeft(Starts(l.daily), 0, cut.daily);
  }

  /** A second pass at the same time changes nothing. */
  lemma PassIdempotent(l: Ledger, cut: Cutoffs)
    requires Aligned(cut)
    ensures Pass(Pass(l, cut), cut) == Pass(l, cut)
  {
    PassDrains(l, cut);
    DrainedPassIsNothing(Pass(l, cut), cut);
  }

  // ---------- a pass is a run ----------

  /** The maintenance transactions of a pass touch only whole buckets before the cutoffs. */
  predicate Bounded(op: Op, cut: Cutoffs) {
    match op
    case CompactHour(hour) => hour % HOUR == 0 && hour + HOUR <= cut.raw
    case CompactDay(day) => day % DAY == 0 && day + DAY <= cut.hourly
    case DropDay(day) => day % DAY == 0 && day + DAY <= cut.daily
    case _ => false
  }

  ghost predicate AllBounded(ops: seq<Op>, cut: Cutoffs) {
    forall op :: op in ops ==> Bounded(op, cut)
  }

  /** Whole buckets that start before an aligned cutoff end by it. */
  lemma StepBounded(cut: Cutoffs, op: Op)
    requires Aligned(cut) && WellFormed(op)
    requires (op.CompactHour? && op.hour < cut.raw) || (op.CompactDay? && op.day < cut.hourly) || (op.DropDay? && op.day < cut.daily)
    ensures Bounded(op, cut)
  {
  }

  lemma {:induction false} FollowConcat(l: Ledger, a: seq<Op>, b: seq<Op>)
    ensures Follow(l, a + b) == Follow(Follow(l, a), b)
    decreases |a|
  {
    if a == [] {
      assert a + b == b;
    } else {
      assert (a + b)[1..] == a[1..] + b;
      FollowConcat(Apply(l, a[0]), a[1..], b);
    }
  }

  /** Following transactions first to last is running them. */
  lemma {:induction false} FollowIsRun(l: Ledger, ops: seq<Op>)
    ensures Follow(l, ops) == Run(l, ops)
    decreases |ops|
  {
    if ops != [] {
      var before, last := ops[..|ops| - 1], ops[|ops| - 1];
      FollowIsRun(l, before);
      SameLast(l, before, last);
      assert ops == before + [last];
    }
  }

  lemma SameLast(l: Ledger, ops: seq<Op>, op: Op)
    requires Follow(l, ops) == Run(l, ops)
    ensures Follow(l, ops + [op]) == Run(l, ops + [op])
  {
    FollowLast(l, ops, op);
    RunLast(l, ops, op);
  }

  lemma RunLast(l: Ledger, ops: seq<Op>, op: Op)
    ensures Run(l, ops + [op]) == Apply(Run(l, ops), op)
  {
    assert (ops + [op])[..|ops|] == ops;
  }

  lemma FollowLast(l: Ledger, ops: seq<Op>, op: Op)
    ensures Follow(l, ops + [op]) == Apply(Follow(l, ops), op)
  {
    FollowConcat(l, ops, [op]);
    FollowOne(Follow(l, ops), [op]);
  }

  lemma FollowOne(l: Ledger, ops: seq<Op>)
    requires |ops| == 1
    ensures Follow(l, ops) == Apply(l, ops[0])
  {
    assert ops[1..] == [];
  }

  ghost function PassSteps(l: Ledger, cut: Cutoffs): seq<Op> {
    RawSteps(l.raw, 0, cut.raw)
    + HourlySteps(AfterRaw(l, cut).hourly, 0, cut.hourly)
    + DailySteps(AfterHourly(l, cut).daily, 0, cut.daily)
  }

  /**
   A pass is a run of well-formed ledger steps, each on a whole bucket before the cutoffs; so
   what holds after every run holds after a pass, and after a pass stopped between two buckets.
   */
  lemma PassIsRun(l: Ledger, cut: Cutoffs)
    requires Aligned(cut)
    ensures Run(l, PassSteps(l, cut)) == Pass(l, cut)
    ensures AllBounded(PassSteps(l, cut), cut) && AllWellFormed(PassSteps(l, cut))
  {
    var a := RawSteps(l.raw, 0, cut.raw);
    var b := HourlySteps(AfterRaw(l, cut).hourly, 0, cut.hourly);
    var c := DailySteps(AfterHourly(l, cut).daily, 0, cut.daily);
    forall op | op in a + b + c ensures Bounded(op, cut) {
      assert op in a || op in b || op in c;
      StepBounded(cut, op);
    }
    FollowConcat(l, a + b, c);
    FollowConcat(l, a, b);
    FollowIsRun(l, a + b + c);
  }
}
