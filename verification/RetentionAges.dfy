/**
 What a retention pass does, in terms of the ages of rows and without its loops: a bucket leaves its
 table exactly when the whole of it is older than the table's own retention, and its calls are then
 counted in the next coarser table.
 */
module RetentionAges {
  import opened GoTime
  import opened Basics
  import opened UsageTables
  import opened UsageLedger
  import opened UsageMaintenance

  // ---------- sums over upserted rows ----------

  lemma SumSlotsFrame(slots: set<Slot>, a: Rollup, b: Rollup, m: Measure)
    requires slots <= a.Keys && slots <= b.Keys && forall k :: k in slots ==> a[k] == b[k]
    ensures SumSlots(slots, a, m) == SumSlots(slots, b, m)
  {
    if slots != {} {
      SumSlotsFrame(slots - {Pick(slots)}, a, b, m);
    }
  }

  /** Upserting adds up, slot by slot. */
  lemma {:induction false} SumSlotsUpsert(slots: set<Slot>, rows: Rollup, added: Rollup, m: Measure)
    requires slots <= rows.Keys + added.Keys
    ensures SumSlots(slots, Upsert(rows, added), m) == SumSlots(slots * rows.Keys, rows, m) + SumSlots(slots * added.Keys, added, m)
  {
    if slots == {} {
      assert slots * rows.Keys == {} && slots * added.Keys == {};
    } else {
      var k :| k in slots;
      SumSlotsRemove(slots, Upsert(rows, added), k, m);
      SumSlotsUpsert(slots - {k}, rows, added, m);
      SumSlotsWithout(slots, rows, k, m);
      SumSlotsWithout(slots, added, k, m);
    }
  }

  lemma SumSlotsWithout(slots: set<Slot>, rows: Rollup, k: Slot, m: Measure)
    requires k in slots
    ensures SumSlots(slots * rows.Keys, rows, m) == SumSlots((slots - {k}) * rows.Keys, rows, m) + Row(rows, k).Get(m)
  {
    if k in rows {
      SumSlotsRemove(slots * rows.Keys, rows, k, m);
      assert slots * rows.Keys - {k} == (slots - {k}) * rows.Keys;
    } else {
      assert slots * rows.Keys == (slots - {k}) * rows.Keys;
    }
  }

  lemma SumUpsert(rows: Rollup, added: Rollup, q: Slot -> bool, m: Measure)
    ensures SumRows(Upsert(rows, added), q, m) == SumRows(rows, q, m) + SumRows(added, q, m)
  {
    var slots := set k | k in Upsert(rows, added) && q(k);
    SumSlotsUpsert(slots, rows, added, m);
    assert slots * rows.Keys == set k | k in rows && q(k);
    assert slots * added.Keys == set k | k in added && q(k);
  }

  lemma SumOneRow(rows: Rollup, k: Slot, m: Measure)
    ensures SumRows(rows, RowIs(k), m) == Row(rows, k).Get(m)
  {
    if k in rows {
      assert (set r | r in rows && RowIs(k)(r)) == {k};
      SumSlotsRemove({k}, rows, k, m);
      assert {k} - {k} == {};
    } else {
      assert (set r | r in rows && RowIs(k)(r)) == {};
    }
  }

  // ---------- the raw loop in one go ----------

  /** The calls before a cutoff whose hourly row satisfies a clause. */
  function Leaving(cutoff: int, q: Slot -> bool): Call -> bool {
    (c: Call) => c.at < cutoff && q(ByHour()(c))
  }

  lemma HourGains(rows: Rollup, calls: seq<Call>, hour: int, q: Slot -> bool, m: Measure)
    requires hour % HOUR == 0
    ensures SumRows(Upsert(rows, GroupCalls(calls, hour)), q, m)
            == SumRows(rows, q, m) + Sum(calls, And(Between(hour, HOUR), Behind(ByHour(), q)), m)
  {
    var moved := Filter(calls, Between(hour, HOUR));
    GroupCallsIsRollup(calls, hour);
    SumUpsert(rows, GroupCalls(calls, hour), q, m);
    SumRowsOfCalls(GroupCalls(calls, hour), moved, ByHour(), q, Behind(ByHour(), q), m);
    SumFilter(calls, Between(hour, HOUR), Behind(ByHour(), q), And(Between(hour, HOUR), Behind(ByHour(), q)), m);
  }

  lemma LeavingSplits(calls: seq<Call>, hour: int, cutoff: int, q: Slot -> bool, m: Measure)
    requires hour + HOUR <= cutoff
    ensures Sum(calls, Leaving(cutoff, q), m)
            == Sum(calls, And(Between(hour, HOUR), Behind(ByHour(), q)), m) + Sum(Without(calls, hour), Leaving(cutoff, q), m)
  {
    var inside, rest := And(Between(hour, HOUR), Behind(ByHour(), q)), And(Not(Between(hour, HOUR)), Leaving(cutoff, q));
    SumSplit(calls, Leaving(cutoff, q), inside, rest, m);
    SumFilter(calls, Not(Between(hour, HOUR)), Leaving(cutoff, q), rest, m);
  }

  /** Moving an hour keeps what is in the hourly table or still to come. */
  lemma HourMoves(l: Ledger, hour: int, cutoff: int, q: Slot -> bool, m: Measure)
    requires hour % HOUR == 0 && hour + HOUR <= cutoff
    ensures var l1 := Apply(l, CompactHour(hour));
            SumRows(l1.hourly, q, m) + Sum(l1.raw, Leaving(cutoff, q), m) == SumRows(l.hourly, q, m) + Sum(l.raw, Leaving(cutoff, q), m)
  {
    HourGains(l.hourly, l.raw, hour, q, m);
    LeavingSplits(l.raw, hour, cutoff, q, m);
  }

  lemma NoCallBefore(calls: seq<Call>, searchStart: int, cutoff: int)
    requires NoneLeft(Times(calls), searchStart, cutoff) && Swept(Times(calls), searchStart, cutoff)
    ensures forall c :: c in calls ==> cutoff <= c.at
  {
    forall c | c in calls ensures cutoff <= c.at {
      assert c.at in Times(calls);
    }
  }

  /** However many hours the raw loop moves, the hourly table gains exactly the calls before the cutoff. */
  lemma {:induction false} RawLoopGains(l: Ledger, searchStart: int, cutoff: int, q: Slot -> bool, m: Measure)
    requires cutoff % HOUR == 0 && Swept(Times(l.raw), searchStart, cutoff)
    ensures SumRows(Follow(l, RawSteps(l.raw, searchStart, cutoff)).hourly, q, m)
            == SumRows(l.hourly, q, m) + Sum(l.raw, Leaving(cutoff, q), m)
    decreases |l.raw|
  {
    match First(Times(l.raw), searchStart, cutoff)
    case None =>
      NoCallBefore(l.raw, searchStart, cutoff);
      SumNothing(l.raw, Leaving(cutoff, q), m);
    case Some(t) =>
      HourShrinks(l.raw, t);
      HourSweep(l.raw, t, searchStart, cutoff);
      var l1 := Apply(l, CompactHour(ToHour(t)));
      RawLoopGains(l1, ToHour(t) + HOUR, cutoff, q, m);
      HourMoves(l, ToHour(t), cutoff, q, m);
      StepsFirst(l, CompactHour(ToHour(t)), RawSteps(l1.raw, ToHour(t) + HOUR, cutoff));
  }

  ghost predicate SomeLeaving(calls: seq<Call>, cutoff: int, k: Slot) {
    exists c :: c in calls && Leaving(cutoff, RowIs(k))(c)
  }

  /** How many calls go to a row of the hourly table. */
  function LeavingCount(calls: seq<Call>, cutoff: int, k: Slot): int {
    Sum(calls, Leaving(cutoff, RowIs(k)), Calls)
  }

  function HourCount(calls: seq<Call>, hour: int, k: Slot): int {
    Sum(calls, And(Between(hour, HOUR), Behind(ByHour(), RowIs(k))), Calls)
  }

  lemma HourKeys(rows: Rollup, calls: seq<Call>, hour: int, k: Slot)
    requires hour % HOUR == 0
    ensures k in Upsert(rows, GroupCalls(calls, hour)) <==> k in rows || HourCount(calls, hour, k) != 0
  {
    HourOf(hour);
    var p := And(Between(hour, HOUR), Behind(ByHour(), RowIs(k)));
    CountOfSome(calls, p);
    if k in GroupCalls(calls, hour) {
      var c :| c in calls && Between(hour, HOUR)(c) && Slot(c.key, hour, c.tool) == k;
      assert p(c);
    }
    if c :| c in calls && p(c) {
      assert Slot(c.key, hour, c.tool) == k;
    }
  }

  /** Moving an hour keeps which hourly rows there are or still will be. */
  lemma HourMovesKeys(l: Ledger, hour: int, cutoff: int, k: Slot)
    requires hour % HOUR == 0 && hour + HOUR <= cutoff
    ensures var l1 := Apply(l, CompactHour(hour));
            k in l1.hourly || LeavingCount(l1.raw, cutoff, k) != 0 <==> k in l.hourly || LeavingCount(l.raw, cutoff, k) != 0
  {
    HourKeys(l.hourly, l.raw, hour, k);
    LeavingSplits(l.raw, hour, cutoff, RowIs(k), Calls);
    CountOfSome(Without(l.raw, hour), Leaving(cutoff, RowIs(k)));
    CountOfSome(l.raw, And(Between(hour, HOUR), Behind(ByHour(), RowIs(k))));
  }

  lemma {:induction false} RawLoopCounts(l: Ledger, searchStart: int, cutoff: int, k: Slot)
    requires cutoff % HOUR == 0 && Swept(Times(l.raw), searchStart, cutoff)
    ensures k in Follow(l, RawSteps(l.raw, searchStart, cutoff)).hourly <==> k in l.hourly || LeavingCount(l.raw, cutoff, k) != 0
    decreases |l.raw|
  {
    match First(Times(l.raw), searchStart, cutoff)
    case None =>
      NoCallBefore(l.raw, searchStart, cutoff);
      SumNothing(l.raw, Leaving(cutoff, RowIs(k)), Calls);
    case Some(t) =>
      HourShrinks(l.raw, t);
      HourSweep(l.raw, t, searchStart, cutoff);
      var l1 := Apply(l, CompactHour(ToHour(t)));
      RawLoopCounts(l1, ToHour(t) + HOUR, cutoff, k);
      HourMovesKeys(l, ToHour(t), cutoff, k);
      StepsFirst(l, CompactHour(ToHour(t)), RawSteps(l1.raw, ToHour(t) + HOUR, cutoff));
  }

  lemma RawLoopKeys(l: Ledger, searchStart: int, cutoff: int, k: Slot)
    requires cutoff % HOUR == 0 && Swept(Times(l.raw), searchStart, cutoff)
    ensures k in Follow(l, RawSteps(l.raw, searchStart, cutoff)).hourly <==> k in l.hourly || SomeLeaving(l.raw, cutoff, k)
  {
    RawLoopCounts(l, searchStart, cutoff, k);
    CountOfSome(l.raw, Leaving(cutoff, RowIs(k)));
  }

  // ---------- the hourly loop in one go ----------

  function DayRow(r: Slot): Slot {
    Slot(r.key, ToDay(r.start), r.tool)
  }

  /** The hourly rows before a cutoff that belong in a daily row. */
  function LeavingTo(cutoff: int, k: Slot): Slot -> bool {
    (r: Slot) => r.start < cutoff && DayRow(r) == k
  }

  lemma SameGroupIsDay(day: int, k: Slot)
    requires day % DAY == 0
    ensures forall r :: RowBetween(day, DAY)(r) && DayRow(r) == k <==> k.start == day && SameRowGroup(day, k)(r)
  {
    forall r: Slot ensures RowBetween(day, DAY)(r) <==> ToDay(r.start) == day {
      DayStart(r.start, day);
    }
  }

  lemma RowsSplit(rows: Rollup, p: Slot -> bool, q: Slot -> bool, r: Slot -> bool, m: Measure)
    requires forall k :: (p(k) <==> q(k) || r(k)) && !(q(k) && r(k))
    ensures SumRows(rows, p, m) == SumRows(rows, q, m) + SumRows(rows, r, m)
  {
    var a, b := (set k | k in rows && q(k)), (set k | k in rows && r(k));
    assert (set k | k in rows && p(k)) == a + b;
    SumSlotsUnion(a, b, rows, m);
  }

  function InDay(day: int, k: Slot): Slot -> bool {
    (r: Slot) => RowBetween(day, DAY)(r) && DayRow(r) == k
  }

  function NotInDay(day: int, cutoff: int, k: Slot): Slot -> bool {
    (r: Slot) => !RowBetween(day, DAY)(r) && LeavingTo(cutoff, k)(r)
  }

  lemma SumKept(rows: Rollup, p: Slot -> bool, q: Slot -> bool, both: Slot -> bool, m: Measure)
    requires forall k :: both(k) <==> p(k) && q(k)
    ensures SumRows(Keep(rows, p), q, m) == SumRows(rows, both, m)
  {
    var slots := set k | k in rows && both(k);
    assert (set k | k in Keep(rows, p) && q(k)) == slots;
    SumSlotsFrame(slots, Keep(rows, p), rows, m);
  }

  lemma RowsLeavingSplit(rows: Rollup, day: int, cutoff: int, k: Slot, m: Measure)
    requires day + DAY <= cutoff
    ensures SumRows(rows, LeavingTo(cutoff, k), m)
            == SumRows(rows, InDay(day, k), m) + SumRows(RowsWithout(rows, day), LeavingTo(cutoff, k), m)
  {
    RowsSplit(rows, LeavingTo(cutoff, k), InDay(day, k), NotInDay(day, cutoff, k), m);
    SumKept(rows, RowNot(RowBetween(day, DAY)), LeavingTo(cutoff, k), NotInDay(day, cutoff, k), m);
  }

  lemma DayGains(daily: Rollup, rows: Rollup, day: int, k: Slot, m: Measure)
    requires day % DAY == 0
    ensures Row(Upsert(daily, GroupRows(rows, day)), k).Get(m) == Row(daily, k).Get(m) + SumRows(rows, InDay(day, k), m)
    ensures k in Upsert(daily, GroupRows(rows, day)) <==> k in daily || exists r :: r in rows && InDay(day, k)(r)
  {
    SameGroupIsDay(day, k);
    var groups := GroupRows(rows, day);
    if k in groups {
      var r :| r in rows && RowBetween(day, DAY)(r) && Slot(r.key, day, r.tool) == k;
      assert InDay(day, k)(r);
      assert (set s | s in rows && InDay(day, k)(s)) == (set s | s in rows && SameRowGroup(day, k)(s));
      assert groups[k].Get(m) == SumRows(rows, InDay(day, k), m);
    } else {
      forall r | r in rows ensures !InDay(day, k)(r) {
        assert InDay(day, k)(r) ==> Slot(r.key, day, r.tool) == k;
      }
      assert (set s | s in rows && InDay(day, k)(s)) == {};
    }
  }

  ghost predicate SomeRowLeaving(rows: Rollup, cutoff: int, k: Slot) {
    exists r :: r in rows && LeavingTo(cutoff, k)(r)
  }

  lemma SomeRowSplits(rows: Rollup, day: int, cutoff: int, k: Slot)
    requires day + DAY <= cutoff
    ensures SomeRowLeaving(rows, cutoff, k)
            <==> (exists r :: r in rows && InDay(day, k)(r)) || SomeRowLeaving(RowsWithout(rows, day), cutoff, k)
  {
    if r :| r in rows && InDay(day, k)(r) {
      assert RowBetween(day, DAY)(r) && DayRow(r) == k;
      assert LeavingTo(cutoff, k)(r);
    }
    if SomeRowLeaving(RowsWithout(rows, day), cutoff, k) {
      var r :| r in RowsWithout(rows, day) && LeavingTo(cutoff, k)(r);
      assert r in rows;
    }
    if SomeRowLeaving(rows, cutoff, k) {
      var r :| r in rows && LeavingTo(cutoff, k)(r);
      assert InDay(day, k)(r) || r in RowsWithout(rows, day);
    }
  }

  /** However many days the hourly loop moves, each daily row gains exactly the hourly rows of its day before the cutoff. */
  lemma {:induction false} HourlyLoopGains(l: Ledger, searchStart: int, cutoff: int, k: Slot, m: Measure)
    requires cutoff % DAY == 0 && Swept(Starts(l.hourly), searchStart, cutoff)
    ensures var l' := Follow(l, HourlySteps(l.hourly, searchStart, cutoff));
            && Row(l'.daily, k).Get(m) == Row(l.daily, k).Get(m) + SumRows(l.hourly, LeavingTo(cutoff, k), m)
            && (k in l'.daily <==> k in l.daily || SomeRowLeaving(l.hourly, cutoff, k))
    decreases |l.hourly|
  {
    match First(Starts(l.hourly), searchStart, cutoff)
    case None =>
      forall r | r in l.hourly ensures !LeavingTo(cutoff, k)(r) {
        assert r.start in Starts(l.hourly);
      }
      assert (set r | r in l.hourly && LeavingTo(cutoff, k)(r)) == {};
    case Some(t) =>
      DayShrinks(l.hourly, t);
      DaySweep(l.hourly, t, searchStart, cutoff);
      var l1 := Apply(l, CompactDay(ToDay(t)));
      HourlyLoopGains(l1, ToDay(t) + DAY, cutoff, k, m);
      DayGains(l.daily, l.hourly, ToDay(t), k, m);
      RowsLeavingSplit(l.hourly, ToDay(t), cutoff, k, m);
      SomeRowSplits(l.hourly, ToDay(t), cutoff, k);
      StepsFirst(l, CompactDay(ToDay(t)), HourlySteps(l1.hourly, ToDay(t) + DAY, cutoff));
  }

  // ---------- ages ----------

  /** All of a bucket is older than a retention. */
  predicate Aged(start: int, width: int, retention: int, now: int) {
    start + width <= now - retention
  }

  lemma AgedIffBefore(t: int, retention: int, now: int, cutoff: int)
    requires cutoff % HOUR == 0 && now - retention - HOUR < cutoff <= now - retention
    ensures t < cutoff <==> Aged(ToHour(t), HOUR, retention, now)
  {
    if t < cutoff {
      HourBefore(t, cutoff);
    } else {
      HourStart(t, cutoff);
    }
  }

  lemma DayAgedIffBefore(t: int, retention: int, now: int, cutoff: int)
    requires cutoff % DAY == 0 && now - retention - DAY < cutoff <= now - retention
    ensures t < cutoff <==> Aged(ToDay(t), DAY, retention, now)
  {
    if t < cutoff {
      DayBefore(t, cutoff);
    } else {
      DayStartsDay(t, cutoff);
    }
  }

  function YoungCall(p: Policy, now: int): Call -> bool {
    (c: Call) => !Aged(ToHour(c.at), HOUR, p.rawRetention, now)
  }

  /** The calls that leave the raw table for an hourly row. */
  function AgedInto(p: Policy, now: int, k: Slot): Call -> bool {
    (c: Call) => Aged(ToHour(c.at), HOUR, p.rawRetention, now) && ByHour()(c) == k
  }

  /** The hourly rows that leave their table for a daily row. */
  function AgedRowInto(p: Policy, now: int, k: Slot): Slot -> bool {
    (r: Slot) => Aged(ToDay(r.start), DAY, p.hourlyRetention, now) && DayRow(r) == k
  }

  /** The calls that a pass takes through the hourly table into a daily row. */
  function AgedThrough(p: Policy, now: int, k: Slot): Call -> bool {
    (c: Call) => Aged(ToHour(c.at), HOUR, p.rawRetention, now) && AgedRowInto(p, now, k)(ByHour()(c))
  }

  ghost predicate AnyCall(calls: seq<Call>, p: Call -> bool) {
    exists c :: c in calls && p(c)
  }

  ghost predicate AnyRow(rows: Rollup, q: Slot -> bool) {
    exists r :: r in rows && q(r)
  }

  /** Raw calls stay until their whole hour is older than the raw retention. */
  ghost predicate RawAged(before: Ledger, after: Ledger, p: Policy, now: int) {
    after.raw == Filter(before.raw, YoungCall(p, now))
  }

  /** Hourly rows stay until their whole day is older than the hourly retention, and gain the calls that leave the raw table. */
  ghost predicate HourlyAged(before: Ledger, after: Ledger, p: Policy, now: int) {
    && (forall k :: k in after.hourly <==>
          && !Aged(ToDay(k.start), DAY, p.hourlyRetention, now)
          && (k in before.hourly || AnyCall(before.raw, AgedInto(p, now, k))))
    && (forall k, m :: k in after.hourly ==>
          after.hourly[k].Get(m) == Row(before.hourly, k).Get(m) + Sum(before.raw, AgedInto(p, now, k), m))
  }

  /** Daily rows stay until their whole day is older than the daily retention, and gain what leaves the hourly table. */
  ghost predicate DailyAged(before: Ledger, after: Ledger, p: Policy, now: int) {
    && (forall k :: k in after.daily <==>
          && !Aged(ToDay(k.start), DAY, p.dailyRetention, now)
          && (k in before.daily || AnyRow(before.hourly, AgedRowInto(p, now, k)) || AnyCall(before.raw, AgedThrough(p, now, k))))
    && (forall k, m :: k in after.daily ==>
          after.daily[k].Get(m)
          == Row(before.daily, k).Get(m) + SumRows(before.hourly, AgedRowInto(p, now, k), m) + Sum(before.raw, AgedThrough(p, now, k), m))
  }

  lemma RawPassAged(l: Ledger, p: Policy, now: int)
    ensures RawAged(l, Pass(l, CutoffsAt(p, now)), p, now)
  {
    var cut := CutoffsAt(p, now);
    PassDrains(l, cut);
    forall c: Call ensures From(cut.raw)(c) == YoungCall(p, now)(c) {
      AgedIffBefore(c.at, p.rawRetention, now, cut.raw);
    }
    FilterSame(l.raw, From(cut.raw), YoungCall(p, now));
  }

  /** What the hourly table holds between the first two loops. */
  lemma MidRow(l: Ledger, p: Policy, now: int, k: Slot, m: Measure)
    ensures var mid := AfterRaw(l, CutoffsAt(p, now));
            && Row(mid.hourly, k).Get(m) == Row(l.hourly, k).Get(m) + Sum(l.raw, AgedInto(p, now, k), m)
            && (k in mid.hourly <==> k in l.hourly || AnyCall(l.raw, AgedInto(p, now, k)))
  {
    var cut := CutoffsAt(p, now);
    RawLoopGains(l, 0, cut.raw, RowIs(k), m);
    RawLoopKeys(l, 0, cut.raw, k);
    SumOneRow(l.hourly, k, m);
    SumOneRow(AfterRaw(l, cut).hourly, k, m);
    forall c: Call ensures Leaving(cut.raw, RowIs(k))(c) == AgedInto(p, now, k)(c) {
      AgedIffBefore(c.at, p.rawRetention, now, cut.raw);
    }
    SumEqual(l.raw, Leaving(cut.raw, RowIs(k)), AgedInto(p, now, k), m);
    SameLeaving(l.raw, cut.raw, p, now, k);
  }

  lemma SameLeaving(calls: seq<Call>, cutoff: int, p: Policy, now: int, k: Slot)
    requires forall c: Call :: Leaving(cutoff, RowIs(k))(c) == AgedInto(p, now, k)(c)
    ensures SomeLeaving(calls, cutoff, k) <==> AnyCall(calls, AgedInto(p, now, k))
  {
    if SomeLeaving(calls, cutoff, k) {
      var c :| c in calls && Leaving(cutoff, RowIs(k))(c);
      assert AgedInto(p, now, k)(c);
    }
    if AnyCall(calls, AgedInto(p, now, k)) {
      var c :| c in calls && AgedInto(p, now, k)(c);
      assert Leaving(cutoff, RowIs(k))(c);
    }
  }

  lemma HourlyRowAged(l: Ledger, p: Policy, now: int, k: Slot, m: Measure)
    ensures var after := Pass(l, CutoffsAt(p, now)).hourly;
            && (k in after <==>
                  && !Aged(ToDay(k.start), DAY, p.hourlyRetention, now)
                  && (k in l.hourly || AnyCall(l.raw, AgedInto(p, now, k))))
            && (k in after ==> after[k].Get(m) == Row(l.hourly, k).Get(m) + Sum(l.raw, AgedInto(p, now, k), m))
  {
    PassDrains(l, CutoffsAt(p, now));
    MidRow(l, p, now, k, m);
    DayAgedIffBefore(k.start, p.hourlyRetention, now, CutoffsAt(p, now).hourly);
  }

  lemma HourlyPassAged(l: Ledger, p: Policy, now: int)
    ensures HourlyAged(l, Pass(l, CutoffsAt(p, now)), p, now)
  {
    var after := Pass(l, CutoffsAt(p, now)).hourly;
    forall k
      ensures k in after <==>
                && !Aged(ToDay(k.start), DAY, p.hourlyRetention, now)
                && (k in l.hourly || AnyCall(l.raw, AgedInto(p, now, k)))
    {
      HourlyRowAged(l, p, now, k, Calls);
    }
    forall k, m | k in after ensures after[k].Get(m) == Row(l.hourly, k).Get(m) + Sum(l.raw, AgedInto(p, now, k), m) {
      HourlyRowAged(l, p, now, k, m);
    }
  }

  /** The hourly rows that the second loop takes into a daily row are those of before, and those the first loop has fed. */
  lemma MidRows(l: Ledger, p: Policy, now: int, k: Slot, m: Measure)
    ensures var cut := CutoffsAt(p, now);
            && SumRows(AfterRaw(l, cut).hourly, LeavingTo(cut.hourly, k), m)
               == SumRows(l.hourly, AgedRowInto(p, now, k), m) + Sum(l.raw, AgedThrough(p, now, k), m)
            && (SomeRowLeaving(AfterRaw(l, cut).hourly, cut.hourly, k)
                <==> AnyRow(l.hourly, AgedRowInto(p, now, k)) || AnyCall(l.raw, AgedThrough(p, now, k)))
  {
    var cut := CutoffsAt(p, now);
    forall r: Slot ensures LeavingTo(cut.hourly, k)(r) == AgedRowInto(p, now, k)(r) {
      DayAgedIffBefore(r.start, p.hourlyRetention, now, cut.hourly);
    }
    RawLoopGains(l, 0, cut.raw, AgedRowInto(p, now, k), m);
    forall c: Call ensures Leaving(cut.raw, AgedRowInto(p, now, k))(c) == AgedThrough(p, now, k)(c) {
      AgedIffBefore(c.at, p.rawRetention, now, cut.raw);
    }
    SumEqual(l.raw, Leaving(cut.raw, AgedRowInto(p, now, k)), AgedThrough(p, now, k), m);
    SameRows(AfterRaw(l, cut).hourly, LeavingTo(cut.hourly, k), AgedRowInto(p, now, k), m);
    SomeFed(l, p, now, k);
  }

  lemma SameRows(rows: Rollup, p: Slot -> bool, q: Slot -> bool, m: Measure)
    requires forall r :: p(r) == q(r)
    ensures SumRows(rows, p, m) == SumRows(rows, q, m)
  {
    assert (set k | k in rows && p(k)) == (set k | k in rows && q(k));
  }

  lemma SomeFed(l: Ledger, p: Policy, now: int, k: Slot)
    requires forall r: Slot :: LeavingTo(CutoffsAt(p, now).hourly, k)(r) == AgedRowInto(p, now, k)(r)
    ensures SomeRowLeaving(AfterRaw(l, CutoffsAt(p, now)).hourly, CutoffsAt(p, now).hourly, k)
            <==> AnyRow(l.hourly, AgedRowInto(p, now, k)) || AnyCall(l.raw, AgedThrough(p, now, k))
  {
    var cut := CutoffsAt(p, now);
    if SomeRowLeaving(AfterRaw(l, cut).hourly, cut.hourly, k) {
      var r :| r in AfterRaw(l, cut).hourly && LeavingTo(cut.hourly, k)(r);
      MidRow(l, p, now, r, Calls);
      if r in l.hourly {
        assert AgedRowInto(p, now, k)(r);
      } else {
        var c :| c in l.raw && AgedInto(p, now, r)(c);
        assert AgedThrough(p, now, k)(c);
      }
    }
    if AnyRow(l.hourly, AgedRowInto(p, now, k)) {
      var r :| r in l.hourly && AgedRowInto(p, now, k)(r);
      MidRow(l, p, now, r, Calls);
      assert LeavingTo(cut.hourly, k)(r);
    }
    if AnyCall(l.raw, AgedThrough(p, now, k)) {
      var c :| c in l.raw && AgedThrough(p, now, k)(c);
      MidRow(l, p, now, ByHour()(c), Calls);
      assert AgedInto(p, now, ByHour()(c))(c) && LeavingTo(cut.hourly, k)(ByHour()(c));
    }
  }

  lemma DailyRowAged(l: Ledger, p: Policy, now: int, k: Slot, m: Measure)
    ensures var after := Pass(l, CutoffsAt(p, now)).daily;
            && (k in after <==>
                  && !Aged(ToDay(k.start), DAY, p.dailyRetention, now)
                  && (k in l.daily || AnyRow(l.hourly, AgedRowInto(p, now, k)) || AnyCall(l.raw, AgedThrough(p, now, k))))
            && (k in after ==>
                  after[k].Get(m) == Row(l.daily, k).Get(m) + SumRows(l.hourly, AgedRowInto(p, now, k), m)
                                     + Sum(l.raw, AgedThrough(p, now, k), m))
  {
    var cut := CutoffsAt(p, now);
    PassDrains(l, cut);
    RawLoop(l, 0, cut.raw);
    HourlyLoopGains(AfterRaw(l, cut), 0, cut.hourly, k, m);
    MidRows(l, p, now, k, m);
    DayAgedIffBefore(k.start, p.dailyRetention, now, cut.daily);
  }

  lemma DailyPassAged(l: Ledger, p: Policy, now: int)
    ensures DailyAged(l, Pass(l, CutoffsAt(p, now)), p, now)
  {
    var after := Pass(l, CutoffsAt(p, now)).daily;
    forall k
      ensures k in after <==>
                && !Aged(ToDay(k.start), DAY, p.dailyRetention, now)
                && (k in l.daily || AnyRow(l.hourly, AgedRowInto(p, now, k)) || AnyCall(l.raw, AgedThrough(p, now, k)))
    {
      DailyRowAged(l, p, now, k, Calls);
    }
    forall k, m | k in after
      ensures after[k].Get(m) == Row(l.daily, k).Get(m) + SumRows(l.hourly, AgedRowInto(p, now, k), m)
                                 + Sum(l.raw, AgedThrough(p, now, k), m)
    {
      DailyRowAged(l, p, now, k, m);
    }
  }

  /**
   A pass, whatever the stored data and the policy: each table keeps exactly the buckets that are not wholly older
   than its own retention, and every call that leaves a table is counted in the next one.
   */
  lemma PassByAge(l: Ledger, p: Policy, now: int)
    ensures var after := Pass(l, CutoffsAt(p, now));
            RawAged(l, after, p, now) && HourlyAged(l, after, p, now) && DailyAged(l, after, p, now)
  {
    RawPassAged(l, p, now);
    HourlyPassAged(l, p, now);
    DailyPassAged(l, p, now);
  }

  /** In ages: what is no older than the retention of its table stays there, and what is older by a whole bucket is gone. */
  ghost predicate KeptByAge(before: Ledger, after: Ledger, p: Policy, now: int) {
    && (forall c :: c in before.raw && now - c.at <= p.rawRetention ==> c in after.raw)
    && (forall c :: c in after.raw ==> c in before.raw && now - c.at < p.rawRetention + HOUR)
    && (forall k :: k in before.hourly && now - k.start <= p.hourlyRetention ==> k in after.hourly)
    && (forall k :: k in after.hourly ==> now - k.start < p.hourlyRetention + DAY)
    && (forall k :: k in before.daily && now - k.start <= p.dailyRetention ==> k in after.daily)
    && (forall k :: k in after.daily ==> now - k.start < p.dailyRetention + DAY)
  }

  lemma AgedMeansOld(t: int, retention: int, now: int)
    ensures now - t <= retention ==> !Aged(ToHour(t), HOUR, retention, now) && !Aged(ToDay(t), DAY, retention, now)
    ensures !Aged(ToHour(t), HOUR, retention, now) ==> now - t < retention + HOUR
    ensures !Aged(ToDay(t), DAY, retention, now) ==> now - t < retention + DAY
  {
  }

  lemma PassKeepsByAge(l: Ledger, p: Policy, now: int)
    ensures KeptByAge(l, Pass(l, CutoffsAt(p, now)), p, now)
  {
    PassByAge(l, p, now);
    forall t: int, retention: int
      ensures now - t <= retention ==> !Aged(ToHour(t), HOUR, retention, now) && !Aged(ToDay(t), DAY, retention, now)
      ensures !Aged(ToHour(t), HOUR, retention, now) ==> now - t < retention + HOUR
      ensures !Aged(ToDay(t), DAY, retention, now) ==> now - t < retention + DAY
    {
      AgedMeansOld(t, retention, now);
    }
  }
}
