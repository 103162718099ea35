/**
 Usage statistics: one query sums raw rows from `since`, hourly rows from the hour of `since`
 and daily rows from the day of `since`. The lemmas say exactly how far that is from the sum
 over the calls made since `since`, and what compaction does to it.
 */
module UsageStats {
  import opened GoTime
  import opened Basics
  import opened UsageTables
  import opened UsageLedger

  /** What one figure of a response covers: one key, a user's keys or all of them, and one tool or all of them. */
  type Scope = (string, string) -> bool

  function Since(scope: Scope, t: int): Call -> bool {
    (c: Call) => scope(c.key, c.tool) && t <= c.at
  }

  function RowSince(scope: Scope, t: int): Slot -> bool {
    (r: Slot) => scope(r.key, r.tool) && t <= r.start
  }

  /** Calls from the start of a bucket up to an instant inside it. */
  function Early(scope: Scope, start: int, until: int): Call -> bool {
    (c: Call) => scope(c.key, c.tool) && start <= c.at < until
  }

  function RowEarly(scope: Scope, start: int, until: int): Slot -> bool {
    (r: Slot) => scope(r.key, r.tool) && start <= r.start < until
  }

  /** The reported aggregate: each table is cut at `since` truncated to its own resolution. */
  ghost function Reported(l: Ledger, scope: Scope, since: int, m: Measure): int {
    Sum(l.raw, Since(scope, since), m)
    + SumRows(l.hourly, RowSince(scope, ToHour(since)), m)
    + SumRows(l.daily, RowSince(scope, ToDay(since)), m)
  }

  lemma ReportedOfCalls(l: Ledger, h: History, scope: Scope, since: int, m: Measure)
    requires TablesAgree(l, h)
    ensures Reported(l, scope, since, m)
            == Sum(l.raw, Since(scope, since), m)
               + Sum(h.hourly, Since(scope, ToHour(since)), m)
               + Sum(h.daily, Since(scope, ToDay(since)), m)
  {
    forall c: Call
      ensures Since(scope, ToHour(since))(c) == RowSince(scope, ToHour(since))(ByHour()(c))
      ensures Since(scope, ToDay(since))(c) == RowSince(scope, ToDay(since))(ByDay()(c))
    {
      HourStart(c.at, ToHour(since));
      DayStart(c.at, ToDay(since));
    }
    SumRowsOfCalls(l.hourly, h.hourly, ByHour(), RowSince(scope, ToHour(since)), Since(scope, ToHour(since)), m);
    SumRowsOfCalls(l.daily, h.daily, ByDay(), RowSince(scope, ToDay(since)), Since(scope, ToDay(since)), m);
  }

  lemma SinceSplit(calls: seq<Call>, scope: Scope, start: int, since: int, m: Measure)
    requires start <= since
    ensures Sum(calls, Since(scope, start), m)
            == Sum(calls, Since(scope, since), m) + Sum(calls, Early(scope, start, since), m)
  {
    SumSplit(calls, Since(scope, start), Since(scope, since), Early(scope, start, since), m);
  }

  // ---------- one compaction step ----------

  /** What moving an hour's calls behind the hourly table does to the sum over them. */
  lemma HourShift(calls: seq<Call>, scope: Scope, hour: int, since: int, m: Measure)
    requires hour % HOUR == 0
    ensures var inHour := Between(hour, HOUR);
            Sum(Filter(calls, inHour), Since(scope, ToHour(since)), m)
            == Sum(Filter(calls, inHour), Since(scope, since), m)
               + if hour == ToHour(since) then Sum(calls, Early(scope, hour, since), m) else 0
  {
    var inHour := Between(hour, HOUR);
    var moved := Filter(calls, inHour);
    SinceSplit(moved, scope, ToHour(since), since, m);
    var early := Early(scope, ToHour(since), since);
    if hour == ToHour(since) {
      SumFilter(calls, inHour, early, early, m);
    } else {
      forall c | c in moved ensures !early(c) {
        HourStart(c.at, hour);
        HourStart(c.at, ToHour(since));
      }
      SumNothing(moved, early, m);
    }
  }

  /**
   Compacting a raw hour changes a reported aggregate by exactly the calls that precede `since`
   in the hour that contains `since`, and not at all for any other hour.
   */
  lemma CompactHourReports(l: Ledger, h: History, hour: int, scope: Scope, since: int, m: Measure)
    requires TablesAgree(l, h) && hour % HOUR == 0
    ensures Reported(Apply(l, CompactHour(hour)), scope, since, m)
            == Reported(l, scope, since, m)
               + if hour == ToHour(since) then Sum(l.raw, Early(scope, hour, since), m) else 0
  {
    var l', h' := Apply(l, CompactHour(hour)), Remember(l, h, CompactHour(hour));
    StepTables(l, h, CompactHour(hour));
    ReportedOfCalls(l, h, scope, since, m);
    ReportedOfCalls(l', h', scope, since, m);
    var inHour := Between(hour, HOUR);
    MoveConserves(l.raw, [], inHour, Not(inHour), Since(scope, since), m);
    assert [] + Filter(l.raw, inHour) == Filter(l.raw, inHour);
    SumConcat(h.hourly, Filter(l.raw, inHour), Since(scope, ToHour(since)), m);
    HourShift(l.raw, scope, hour, since, m);
  }

  lemma DayShift(calls: seq<Call>, scope: Scope, day: int, since: int, m: Measure)
    requires day % DAY == 0
    ensures var moved := Filter(calls, Behind(ByHour(), RowBetween(day, DAY)));
            Sum(moved, Since(scope, ToDay(since)), m)
            == Sum(moved, Since(scope, ToHour(since)), m)
               + if day == ToDay(since) then Sum(calls, Early(scope, day, ToHour(since)), m) else 0
  {
    var inDay := Behind(ByHour(), RowBetween(day, DAY));
    var moved := Filter(calls, inDay);
    DayStart(since, ToDay(since));
    SinceSplit(moved, scope, ToDay(since), ToHour(since), m);
    var early := Early(scope, ToDay(since), ToHour(since));
    forall c: Call
      ensures inDay(c) <==> ToDay(c.at) == day
      ensures early(c) ==> ToDay(c.at) == ToDay(since)
    {
      DayRange(c.at, day);
      DayStart(c.at, ToDay(since));
    }
    if day == ToDay(since) {
      SumFilter(calls, inDay, early, early, m);
    } else {
      SumNothing(moved, early, m);
    }
  }

  /**
   Compacting an hourly day changes a reported aggregate by exactly the hourly rows that lie
   before the hour of `since` on the day of `since`, and not at all for any other day.
   */
  lemma CompactDayReports(l: Ledger, h: History, day: int, scope: Scope, since: int, m: Measure)
    requires TablesAgree(l, h) && day % DAY == 0
    ensures Reported(Apply(l, CompactDay(day)), scope, since, m)
            == Reported(l, scope, since, m)
               + if day == ToDay(since) then SumRows(l.hourly, RowEarly(scope, day, ToHour(since)), m) else 0
  {
    var l', h' := Apply(l, CompactDay(day)), Remember(l, h, CompactDay(day));
    StepTables(l, h, CompactDay(day));
    ReportedOfCalls(l, h, scope, since, m);
    ReportedOfCalls(l', h', scope, since, m);
    var q := RowBetween(day, DAY);
    var inDay := Behind(ByHour(), q);
    MoveConserves(h.hourly, [], inDay, Behind(ByHour(), RowNot(q)), Since(scope, ToHour(since)), m);
    assert [] + Filter(h.hourly, inDay) == Filter(h.hourly, inDay);
    SumConcat(h.daily, Filter(h.hourly, inDay), Since(scope, ToDay(since)), m);
    DayShift(h.hourly, scope, day, since, m);
    EarlyRows(l, h, scope, day, since, m);
  }

  lemma EarlyRows(l: Ledger, h: History, scope: Scope, day: int, since: int, m: Measure)
    requires TablesAgree(l, h) && day % DAY == 0
    ensures SumRows(l.hourly, RowEarly(scope, day, ToHour(since)), m)
            == Sum(h.hourly, Early(scope, day, ToHour(since)), m)
  {
    forall c: Call
      ensures Early(scope, day, ToHour(since))(c) == RowEarly(scope, day, ToHour(since))(ByHour()(c))
    {
      HourStart(c.at, ToHour(since));
      DayStart(c.at, day);
    }
    SumRowsOfCalls(l.hourly, h.hourly, ByHour(), RowEarly(scope, day, ToHour(since)),
                   Early(scope, day, ToHour(since)), m);
  }

  // ---------- whole runs ----------

  /** The calls accepted over a run whose keys still exist. */
  ghost function Recorded(ops: seq<Op>): seq<Call> {
    if ops == [] then []
    else
      var n := |ops| - 1;
      match ops[n]
      case Record(batch) =>
        if AllKeysLive(Run(EMPTY, ops[..n]), batch) then Recorded(ops[..n]) + batch else Recorded(ops[..n])
      case DeleteKey(key) => Filter(Recorded(ops[..n]), Not(OfKey(key)))
      case _ => Recorded(ops[..n])
  }

  function AllCalls(raw: seq<Call>, h: History, p: Call -> bool, m: Measure): int {
    CallVolume(raw, h, p, m) + Sum(h.aged, p, m)
  }

  lemma StepMoves(l: Ledger, h: History, op: Op, p: Call -> bool, m: Measure)
    requires !op.Record? && !op.DeleteKey?
    ensures AllCalls(Apply(l, op).raw, Remember(l, h, op), p, m) == AllCalls(l.raw, h, p, m)
  {
    match op
    case CompactHour(hour) => CompactHourMoves(l, h, hour, p, m);
    case CompactDay(day) => CompactDayMoves(l, h, day, p, m);
    case DropDay(day) =>
      var q := RowBetween(day, DAY);
      MoveConserves(h.daily, h.aged, Behind(ByDay(), q), Behind(ByDay(), RowNot(q)), p, m);
    case CreateKey(_) =>
  }

  lemma DeleteAccounts(l: Ledger, h: History, recorded: seq<Call>, key: string, p: Call -> bool, m: Measure)
    requires AllCalls(l.raw, h, And(Not(OfKey(key)), p), m) == Sum(recorded, And(Not(OfKey(key)), p), m)
    ensures AllCalls(Apply(l, DeleteKey(key)).raw, Remember(l, h, DeleteKey(key)), p, m)
            == Sum(Filter(recorded, Not(OfKey(key))), p, m)
  {
    var f := Not(OfKey(key));
    SumFilter(l.raw, f, p, And(f, p), m);
    SumFilter(h.hourly, f, p, And(f, p), m);
    SumFilter(h.daily, f, p, And(f, p), m);
    SumFilter(h.aged, f, p, And(f, p), m);
    SumFilter(recorded, f, p, And(f, p), m);
  }

  /** No run loses or invents a call: the tables and what aged out account for every call recorded. */
  lemma {:induction false} RunAccounts(ops: seq<Op>, p: Call -> bool, m: Measure)
    ensures AllCalls(Run(EMPTY, ops).raw, RunHistory(EMPTY, NO_HISTORY, ops), p, m) == Sum(Recorded(ops), p, m)
  {
    if ops != [] {
      var n := |ops| - 1;
      var l, h := Run(EMPTY, ops[..n]), RunHistory(EMPTY, NO_HISTORY, ops[..n]);
      RunAccounts(ops[..n], p, m);
      match ops[n] {
        case Record(batch) =>
          SumConcat(l.raw, batch, p, m);
          SumConcat(Recorded(ops[..n]), batch, p, m);
        case DeleteKey(key) =>
          RunAccounts(ops[..n], And(Not(OfKey(key)), p), m);
          DeleteAccounts(l, h, Recorded(ops[..n]), key, p, m);
        case _ =>
          StepMoves(l, h, ops[n], p, m);
      }
    }
  }

  /**
   After any run, what a query reports plus what aged out since `since` is the sum over the
   recorded calls since `since`, plus only calls before `since` in the hour of `since` that are
   behind the hourly table, and in the day of `since` that are behind the daily table.
   */
  lemma RunReports(ops: seq<Op>, scope: Scope, since: int, m: Measure)
    requires AllWellFormed(ops)
    ensures var l, h := Run(EMPTY, ops), RunHistory(EMPTY, NO_HISTORY, ops);
            Reported(l, scope, since, m) + Sum(h.aged, Since(scope, since), m)
            == Sum(Recorded(ops), Since(scope, since), m)
               + Sum(h.hourly, Early(scope, ToHour(since), since), m)
               + Sum(h.daily, Early(scope, ToDay(since), since), m)
  {
    var l, h := Run(EMPTY, ops), RunHistory(EMPTY, NO_HISTORY, ops);
    RunRepresents(ops);
    ReportedOfCalls(l, h, scope, since, m);
    RunAccounts(ops, Since(scope, since), m);
    SinceSplit(h.hourly, scope, ToHour(since), since, m);
    SinceSplit(h.daily, scope, ToDay(since), since, m);
  }

  /** From a UTC midnight, the report is exact. */
  lemma MidnightReports(ops: seq<Op>, scope: Scope, since: int, m: Measure)
    requires AllWellFormed(ops) && since % DAY == 0
    ensures Reported(Run(EMPTY, ops), scope, since, m)
            == Sum(Recorded(ops), Since(scope, since), m)
               - Sum(RunHistory(EMPTY, NO_HISTORY, ops).aged, Since(scope, since), m)
  {
    var h := RunHistory(EMPTY, NO_HISTORY, ops);
    RunReports(ops, scope, since, m);
    DayStart(since, since);
    SumNothing(h.hourly, Early(scope, since, since), m);
    SumNothing(h.daily, Early(scope, since, since), m);
  }

  /** No measure of a call is negative; calls and successes never are. */
  predicate NoneNegative(calls: seq<Call>, m: Measure) {
    m.Duration? ==> forall c :: c in calls ==> c.durationMs >= 0
  }

  lemma {:induction false} SumNonnegative(calls: seq<Call>, n: nat, p: Call -> bool, m: Measure)
    requires n <= |calls| && NoneNegative(calls, m)
    ensures 0 <= SumTo(calls, n, p, m)
  {
    if n != 0 {
      SumNonnegative(calls, n - 1, p, m);
      assert calls[n - 1] in calls;
    }
  }

  predicate Somewhere(l: Ledger, h: History, c: Call) {
    c in l.raw || c in h.hourly || c in h.daily || c in h.aged
  }

  lemma StepAddsOnlyRecorded(l: Ledger, h: History, op: Op, c: Call)
    requires Somewhere(Apply(l, op), Remember(l, h, op), c)
    ensures Somewhere(l, h, c) || (op.Record? && AllKeysLive(l, op.batch) && c in op.batch)
    ensures op.DeleteKey? ==> c.key != op.key
  {
  }

  /** Whatever a table stands for was recorded. */
  lemma {:induction false} TablesHoldRecorded(ops: seq<Op>, c: Call)
    requires Somewhere(Run(EMPTY, ops), RunHistory(EMPTY, NO_HISTORY, ops), c)
    ensures c in Recorded(ops)
  {
    if ops != [] {
      var n := |ops| - 1;
      var l, h := Run(EMPTY, ops[..n]), RunHistory(EMPTY, NO_HISTORY, ops[..n]);
      StepAddsOnlyRecorded(l, h, ops[n], c);
      if Somewhere(l, h, c) {
        TablesHoldRecorded(ops[..n], c);
      }
    }
  }

  lemma TablesNonnegative(ops: seq<Op>, m: Measure)
    requires NoneNegative(Recorded(ops), m)
    ensures var l, h := Run(EMPTY, ops), RunHistory(EMPTY, NO_HISTORY, ops);
            NoneNegative(l.raw, m) && NoneNegative(h.hourly, m) && NoneNegative(h.daily, m)
  {
    var l, h := Run(EMPTY, ops), RunHistory(EMPTY, NO_HISTORY, ops);
    forall c | Somewhere(l, h, c) ensures c in Recorded(ops) {
      TablesHoldRecorded(ops, c);
    }
  }

  /**
   After any run, reported calls, successes and durations, when no recorded duration is negative, are
   never below those still retained since `since`, and never above those retained since the start of
   that UTC day.
   */
  lemma ReportBounds(ops: seq<Op>, scope: Scope, since: int, m: Measure)
    requires AllWellFormed(ops) && NoneNegative(Recorded(ops), m)
    ensures var l, h := Run(EMPTY, ops), RunHistory(EMPTY, NO_HISTORY, ops);
            CallVolume(l.raw, h, Since(scope, since), m)
            <= Reported(l, scope, since, m)
            <= CallVolume(l.raw, h, Since(scope, ToDay(since)), m)
  {
    var l, h := Run(EMPTY, ops), RunHistory(EMPTY, NO_HISTORY, ops);
    RunRepresents(ops);
    ReportedOfCalls(l, h, scope, since, m);
    DayStart(since, ToDay(since));
    SinceSplit(l.raw, scope, ToDay(since), since, m);
    SinceSplit(h.hourly, scope, ToDay(since), ToHour(since), m);
    SinceSplit(h.hourly, scope, ToHour(since), since, m);
    SinceSplit(h.daily, scope, ToDay(since), since, m);
    TablesNonnegative(ops, m);
    SumNonnegative(l.raw, |l.raw|, Early(scope, ToDay(since), since), m);
    SumNonnegative(h.hourly, |h.hourly|, Early(scope, ToDay(since), ToHour(since)), m);
    SumNonnegative(h.hourly, |h.hourly|, Early(scope, ToHour(since), since), m);
    SumNonnegative(h.daily, |h.daily|, Early(scope, ToDay(since), since), m);
  }

  /** Outside the bucket of `since` a compaction leaves every reported total alone. */
  lemma CompactionElsewhereChangesNoReport(ops: seq<Op>, op: Op, scope: Scope, since: int, m: Measure)
    requires AllWellFormed(ops) && WellFormed(op)
    requires (op.CompactHour? && op.hour != ToHour(since)) || (op.CompactDay? && op.day != ToDay(since))
    ensures Reported(Apply(Run(EMPTY, ops), op), scope, since, m) == Reported(Run(EMPTY, ops), scope, since, m)
  {
    var l, h := Run(EMPTY, ops), RunHistory(EMPTY, NO_HISTORY, ops);
    RunRepresents(ops);
    match op
    case CompactHour(hour) => CompactHourReports(l, h, hour, scope, since, m);
    case CompactDay(day) => CompactDayReports(l, h, day, scope, since, m);
  }

  /** After any run in which no negative duration was recorded, no compaction lowers a reported total. */
  lemma CompactionNeverLowersReports(ops: seq<Op>, op: Op, scope: Scope, since: int, m: Measure)
    requires AllWellFormed(ops) && WellFormed(op) && (op.CompactHour? || op.CompactDay?) && NoneNegative(Recorded(ops), m)
    ensures Reported(Apply(Run(EMPTY, ops), op), scope, since, m) >= Reported(Run(EMPTY, ops), scope, since, m)
  {
    var l, h := Run(EMPTY, ops), RunHistory(EMPTY, NO_HISTORY, ops);
    RunRepresents(ops);
    TablesNonnegative(ops, m);
    match op
    case CompactHour(hour) =>
      CompactHourReports(l, h, hour, scope, since, m);
      SumNonnegative(l.raw, |l.raw|, Early(scope, hour, since), m);
    case CompactDay(day) =>
      CompactDayReports(l, h, day, scope, since, m);
      EarlyRows(l, h, scope, day, since, m);
      SumNonnegative(h.hourly, |h.hourly|, Early(scope, day, ToHour(since)), m);
  }

  // ---------- when a key was last used ----------

  /** `seen` is the latest time of a call with the key, if there is any. */
  ghost predicate IsLatestUse(seen: Option<int>, calls: seq<Call>, key: string) {
    && (seen.None? <==> forall c :: c in calls ==> c.key != key)
    && (seen.Some? ==>
          && (exists c :: c in calls && c.key == key && c.at == seen.value)
          && (forall c :: c in calls && c.key == key ==> c.at <= seen.value))
  }

  lemma {:induction false} LatestUseGrows(seen: Option<int>, calls: seq<Call>, batch: seq<Call>, n: nat, key: string)
    requires IsLatestUse(seen, calls, key) && n <= |batch|
    ensures IsLatestUse(LastUseTo(seen, batch, n, key), calls + batch[..n], key)
  {
    if n == 0 {
      assert calls + batch[..0] == calls;
    } else {
      LatestUseGrows(seen, calls, batch, n - 1, key);
      LatestUseOne(LastUseTo(seen, batch, n - 1, key), calls + batch[..n - 1], batch[n - 1], key);
      assert calls + batch[..n] == (calls + batch[..n - 1]) + [batch[n - 1]];
    }
  }

  lemma LatestUseOne(seen: Option<int>, calls: seq<Call>, c: Call, key: string)
    requires IsLatestUse(seen, calls, key)
    ensures IsLatestUse(if c.key == key then Later(seen, c.at) else seen, calls + [c], key)
  {
    assert c in calls + [c];
    forall x ensures x in calls + [c] <==> x in calls || x == c {
    }
  }

  lemma DeleteKeepsLatestUse(seen: Option<int>, calls: seq<Call>, gone: string, key: string)
    requires IsLatestUse(seen, calls, key) && key != gone
    ensures IsLatestUse(seen, Filter(calls, Not(OfKey(gone))), key)
  {
    if seen.Some? {
      var c :| c in calls && c.key == key && c.at == seen.value;
      assert c in Filter(calls, Not(OfKey(gone)));
    } else {
      forall c | c in Filter(calls, Not(OfKey(gone))) ensures c.key != key {
        assert c in calls;
      }
    }
  }

  lemma {:induction false} RecordedKeysKnown(ops: seq<Op>, c: Call)
    requires c in Recorded(ops)
    ensures c.key in Run(EMPTY, ops).keys
  {
    var n := |ops| - 1;
    if c in Recorded(ops[..n]) {
      RecordedKeysKnown(ops[..n], c);
      StepKeepsKey(Run(EMPTY, ops[..n]), ops[n], c.key);
      if ops[n].DeleteKey? {
        assert c in Filter(Recorded(ops[..n]), Not(OfKey(ops[n].key)));
      }
    }
  }

  lemma StepKeepsKey(l: Ledger, op: Op, key: string)
    requires key in l.keys && op != DeleteKey(key)
    ensures key in Apply(l, op).keys
  {
  }

  /** After any run, a live key's `last_used_at` is the latest time of the calls recorded with it, whatever their order. */
  lemma {:induction false} LastUsedIsLatest(ops: seq<Op>, key: string)
    requires key in Run(EMPTY, ops).keys
    ensures IsLatestUse(Run(EMPTY, ops).keys[key].lastUsedAt, Recorded(ops), key)
  {
    var n := |ops| - 1;
    var l := Run(EMPTY, ops[..n]);
    if key !in l.keys {
      forall c | c in Recorded(ops) ensures c.key != key {
        if c in Recorded(ops[..n]) {
          RecordedKeysKnown(ops[..n], c);
        }
      }
    } else {
      LastUsedIsLatest(ops[..n], key);
      match ops[n]
      case Record(batch) =>
        LatestUseGrows(l.keys[key].lastUsedAt, Recorded(ops[..n]), batch, |batch|, key);
        assert batch[..|batch|] == batch;
      case DeleteKey(gone) =>
        DeleteKeepsLatestUse(l.keys[key].lastUsedAt, Recorded(ops[..n]), gone, key);
      case _ =>
    }
  }
}
