/**
 The usage ledger as a state machine whose steps are the store's transactions: recording a
 batch, compacting one raw hour, compacting one hourly day, dropping one daily day, and
 creating or deleting an API key. The ghost history remembers which calls stand behind each
 rollup table, so that tables can be compared with the calls they summarise.
 */
module UsageLedger {
  import opened GoTime
  import opened Basics
  import opened UsageTables

  datatype KeyRow = KeyRow(totalCalls: int, lastUsedAt: Option<int>)

  datatype Ledger = Ledger(raw: seq<Call>, hourly: Rollup, daily: Rollup, keys: map<string, KeyRow>)

  datatype Op =
    | Record(batch: seq<Call>)
    | CompactHour(hour: int)
    | CompactDay(day: int)
    | DropDay(day: int)
    | CreateKey(key: string)
    | DeleteKey(key: string)

  // ---------- recording ----------

  /** `usage_log.key_id` is a foreign key: one unknown key rolls the whole batch back. */
  predicate AllKeysLive(l: Ledger, batch: seq<Call>) {
    forall c :: c in batch ==> c.key in l.keys
  }

  predicate NoKeyLive(l: Ledger, batch: seq<Call>) {
    forall c :: c in batch ==> c.key !in l.keys
  }

  function Later(seen: Option<int>, t: int): Option<int> {
    if seen.None? || seen.value < t then Some(t) else seen
  }

  function LastUseTo(seen: Option<int>, batch: seq<Call>, n: nat, key: string): Option<int>
    requires n <= |batch|
  {
    if n == 0 then seen
    else
      var before := LastUseTo(seen, batch, n - 1, key);
      if batch[n - 1].key == key then Later(before, batch[n - 1].at) else before
  }

  /** `last_used_at` of a key once the batch's calls with that key are taken into account. */
  function LastUse(seen: Option<int>, batch: seq<Call>, key: string): Option<int> {
    LastUseTo(seen, batch, |batch|, key)
  }

  function Credit(keys: map<string, KeyRow>, batch: seq<Call>): map<string, KeyRow> {
    map k | k in keys ::
      KeyRow(keys[k].totalCalls + Sum(batch, OfKey(k), Calls), LastUse(keys[k].lastUsedAt, batch, k))
  }

  function RecordBatch(l: Ledger, batch: seq<Call>): Ledger {
    if AllKeysLive(l, batch) then l.(raw := l.raw + batch, keys := Credit(l.keys, batch)) else l
  }

  function RecordFirst(l: Ledger, batch: seq<Call>, n: nat): Ledger
    requires n <= |batch|
  {
    if n == 0 then l else RecordBatch(RecordFirst(l, batch, n - 1), [batch[n - 1]])
  }

  /** The same calls recorded one transaction at a time. */
  function RecordEach(l: Ledger, batch: seq<Call>): Ledger {
    RecordFirst(l, batch, |batch|)
  }

  // ---------- compaction ----------

  function SameGroup(k: Slot): Call -> bool {
    (c: Call) => c.key == k.key && c.tool == k.tool
  }

  function SameRowGroup(day: int, k: Slot): Slot -> bool {
    (r: Slot) => day <= r.start < day + DAY && r.key == k.key && r.tool == k.tool
  }

  /** SELECT ... FROM usage_log WHERE timestamp in the hour GROUP BY key_id, tool_name. */
  function GroupCalls(calls: seq<Call>, hour: int): Rollup {
    map k | k in (set c | c in calls && Between(hour, HOUR)(c) :: Slot(c.key, hour, c.tool)) ::
      TotalsOf(calls, And(Between(hour, HOUR), SameGroup(k)))
  }

  /** SELECT ... FROM usage_hourly_rollups WHERE bucket_start in the day GROUP BY key_id, tool_name. */
  ghost function GroupRows(rows: Rollup, day: int): Rollup {
    map k | k in (set r | r in rows && RowBetween(day, DAY)(r) :: Slot(r.key, day, r.tool)) ::
      RowTotals(rows, SameRowGroup(day, k))
  }

  ghost function Apply(l: Ledger, op: Op): Ledger {
    match op
    case Record(batch) => RecordBatch(l, batch)
    case CompactHour(hour) =>
      l.(raw := Filter(l.raw, Not(Between(hour, HOUR))),
         hourly := Upsert(l.hourly, GroupCalls(l.raw, hour)))
    case CompactDay(day) =>
      l.(hourly := Keep(l.hourly, RowNot(RowBetween(day, DAY))),
         daily := Upsert(l.daily, GroupRows(l.hourly, day)))
    case DropDay(day) => l.(daily := Keep(l.daily, RowNot(RowBetween(day, DAY))))
    case CreateKey(key) => if key in l.keys then l else l.(keys := l.keys[key := KeyRow(0, None)])
    case DeleteKey(key) =>
      Ledger(Filter(l.raw, Not(OfKey(key))),
             Keep(l.hourly, RowNot(RowOfKey(key))),
             Keep(l.daily, RowNot(RowOfKey(key))),
             l.keys - {key})
  }

  /** Buckets are truncated before a compaction transaction is opened. */
  predicate WellFormed(op: Op) {
    match op
    case CompactHour(hour) => hour % HOUR == 0
    case CompactDay(day) => day % DAY == 0
    case DropDay(day) => day % DAY == 0
    case _ => true
  }

  // ---------- history ----------

  /** The calls now summarised by the hourly table, by the daily table, and by neither. */
  datatype History = History(hourly: seq<Call>, daily: seq<Call>, aged: seq<Call>)

  function Remember(l: Ledger, h: History, op: Op): History {
    match op
    case Record(_) => h
    case CreateKey(_) => h
    case CompactHour(hour) => h.(hourly := h.hourly + Filter(l.raw, Between(hour, HOUR)))
    case CompactDay(day) =>
      History(Filter(h.hourly, Behind(ByHour(), RowNot(RowBetween(day, DAY)))),
              h.daily + Filter(h.hourly, Behind(ByHour(), RowBetween(day, DAY))),
              h.aged)
    case DropDay(day) =>
      History(h.hourly,
              Filter(h.daily, Behind(ByDay(), RowNot(RowBetween(day, DAY)))),
              h.aged + Filter(h.daily, Behind(ByDay(), RowBetween(day, DAY))))
    case DeleteKey(key) =>
      History(Filter(h.hourly, Not(OfKey(key))),
              Filter(h.daily, Not(OfKey(key))),
              Filter(h.aged, Not(OfKey(key))))
  }

  /** Calls of a key still in raw rows, and behind hourly rows, daily rows and dropped rows. */
  function CountedCalls(raw: seq<Call>, h: History, key: string): int {
    Sum(raw, OfKey(key), Calls) + Sum(h.hourly, OfKey(key), Calls)
    + Sum(h.daily, OfKey(key), Calls) + Sum(h.aged, OfKey(key), Calls)
  }

  ghost predicate Known(keys: map<string, KeyRow>, calls: seq<Call>) {
    forall c :: c in calls ==> c.key in keys
  }

  ghost predicate KeysKnown(l: Ledger, h: History) {
    Known(l.keys, l.raw) && Known(l.keys, h.hourly) && Known(l.keys, h.daily) && Known(l.keys, h.aged)
  }

  ghost predicate CountersAgree(l: Ledger, h: History) {
    forall k :: k in l.keys ==> l.keys[k].totalCalls == CountedCalls(l.raw, h, k)
  }

  ghost predicate TablesAgree(l: Ledger, h: History) {
    IsRollup(l.hourly, h.hourly, ByHour()) && IsRollup(l.daily, h.daily, ByDay())
  }

  ghost predicate Represents(l: Ledger, h: History) {
    TablesAgree(l, h) && KeysKnown(l, h) && CountersAgree(l, h)
  }

  // ---------- rollups under compaction ----------

  lemma UpsertTotals(rows: Rollup, calls: seq<Call>, added: Rollup, moved: seq<Call>, slot: Slotting, k: Slot, m: Measure)
    requires IsRollup(rows, calls, slot) && IsRollup(added, moved, slot) && k in Upsert(rows, added)
    ensures Upsert(rows, added)[k].Get(m) == Sum(calls + moved, Behind(slot, RowIs(k)), m)
  {
    var p := Behind(slot, RowIs(k));
    SumConcat(calls, moved, p, m);
    if k !in rows {
      SumNothing(calls, p, m);
    }
    if k !in added {
      SumNothing(moved, p, m);
    }
  }

  /** Upserting the groups of new calls gives the rollup of old and new calls together. */
  lemma RollupUpsert(rows: Rollup, calls: seq<Call>, added: Rollup, moved: seq<Call>, slot: Slotting)
    requires IsRollup(rows, calls, slot) && IsRollup(added, moved, slot)
    ensures IsRollup(Upsert(rows, added), calls + moved, slot)
  {
    var all := Upsert(rows, added);
    forall k | k in all
      ensures exists c :: c in calls + moved && slot(c) == k
    {
      var c :| (c in calls || c in moved) && slot(c) == k;
      assert c in calls + moved;
    }
    forall k, m | k in all
      ensures all[k].Get(m) == Sum(calls + moved, Behind(slot, RowIs(k)), m)
    {
      UpsertTotals(rows, calls, added, moved, slot, k, m);
    }
  }

  lemma RollupKeep(rows: Rollup, calls: seq<Call>, slot: Slotting, q: Slot -> bool)
    requires IsRollup(rows, calls, slot)
    ensures IsRollup(Keep(rows, q), Filter(calls, Behind(slot, q)), slot)
  {
    var f := Behind(slot, q);
    var kept := Filter(calls, f);
    forall k | k in Keep(rows, q)
      ensures exists c :: c in kept && slot(c) == k
    {
      var c :| c in calls && slot(c) == k;
      assert c in kept;
    }
    forall k, m | k in Keep(rows, q)
      ensures rows[k].Get(m) == Sum(kept, Behind(slot, RowIs(k)), m)
    {
      SumFilter(calls, f, Behind(slot, RowIs(k)), Behind(slot, RowIs(k)), m);
    }
  }

  lemma HourOf(hour: int)
    requires hour % HOUR == 0
    ensures forall c :: Between(hour, HOUR)(c) <==> ByHour()(c).start == hour
  {
    forall c: Call {
      HourStart(c.at, hour);
    }
  }

  /** The hours of a day are the hours whose calls fall on that day. */
  lemma DayOf(day: int)
    requires day % DAY == 0
    ensures forall c :: RowBetween(day, DAY)(ByHour()(c)) <==> ByDay()(c).start == day
    ensures forall c :: RowBetween(day, DAY)(ByDay()(c)) <==> ByDay()(c).start == day
  {
    forall c: Call {
      DayRange(c.at, day);
    }
  }

  lemma GroupCallsIsRollup(calls: seq<Call>, hour: int)
    requires hour % HOUR == 0
    ensures IsRollup(GroupCalls(calls, hour), Filter(calls, Between(hour, HOUR)), ByHour())
  {
    var f, slot := Between(hour, HOUR), ByHour();
    var moved, groups := Filter(calls, f), GroupCalls(calls, hour);
    HourOf(hour);
    forall k | k in groups
      ensures exists c :: c in moved && slot(c) == k
    {
      var c :| c in calls && f(c) && Slot(c.key, hour, c.tool) == k;
      assert c in moved && slot(c) == k;
    }
    forall k, m | k in groups
      ensures groups[k].Get(m) == Sum(moved, Behind(slot, RowIs(k)), m)
    {
      SumFilter(calls, f, Behind(slot, RowIs(k)), And(f, SameGroup(k)), m);
    }
  }

  lemma GroupRowsCover(rows: Rollup, calls: seq<Call>, day: int, moved: seq<Call>)
    requires day % DAY == 0 && IsRollup(rows, calls, ByHour())
    requires moved == Filter(calls, Behind(ByHour(), RowBetween(day, DAY)))
    ensures forall c :: c in moved ==> ByDay()(c) in GroupRows(rows, day)
    ensures forall k :: k in GroupRows(rows, day) ==> exists c :: c in moved && ByDay()(c) == k
  {
    DayOf(day);
    forall c | c in moved
      ensures ByDay()(c) in GroupRows(rows, day)
    {
      assert ByHour()(c) in rows;
    }
    forall k | k in GroupRows(rows, day)
      ensures exists c :: c in moved && ByDay()(c) == k
    {
      var r :| r in rows && RowBetween(day, DAY)(r) && Slot(r.key, day, r.tool) == k;
      var c :| c in calls && ByHour()(c) == r;
      assert c in moved && ByDay()(c) == k;
    }
  }

  lemma GroupRowsAgree(rows: Rollup, calls: seq<Call>, day: int)
    requires day % DAY == 0 && IsRollup(rows, calls, ByHour())
    ensures TotalsAgree(GroupRows(rows, day), Filter(calls, Behind(ByHour(), RowBetween(day, DAY))), ByDay())
  {
    forall k, m | k in GroupRows(rows, day) {
      GroupRowTotals(rows, calls, day, k, m);
    }
  }

  lemma GroupRowsIsRollup(rows: Rollup, calls: seq<Call>, day: int)
    requires day % DAY == 0 && IsRollup(rows, calls, ByHour())
    ensures IsRollup(GroupRows(rows, day), Filter(calls, Behind(ByHour(), RowBetween(day, DAY))), ByDay())
  {
    GroupRowsCover(rows, calls, day, Filter(calls, Behind(ByHour(), RowBetween(day, DAY))));
    GroupRowsAgree(rows, calls, day);
  }

  lemma GroupRowTotals(rows: Rollup, calls: seq<Call>, day: int, k: Slot, m: Measure)
    requires day % DAY == 0 && IsRollup(rows, calls, ByHour()) && k in GroupRows(rows, day)
    ensures var moved := Filter(calls, Behind(ByHour(), RowBetween(day, DAY)));
            GroupRows(rows, day)[k].Get(m) == Sum(moved, Behind(ByDay(), RowIs(k)), m)
  {
    DayOf(day);
    var p := Behind(ByHour(), SameRowGroup(day, k));
    SumRowsOfCalls(rows, calls, ByHour(), SameRowGroup(day, k), p, m);
    SumFilter(calls, Behind(ByHour(), RowBetween(day, DAY)), Behind(ByDay(), RowIs(k)), p, m);
  }

  // ---------- what every step keeps ----------

  /** Calls moved out of one table and into another are neither lost nor counted twice. */
  lemma MoveConserves(from: seq<Call>, to: seq<Call>, f: Call -> bool, g: Call -> bool, p: Call -> bool, m: Measure)
    requires forall c :: g(c) <==> !f(c)
    ensures Sum(Filter(from, g), p, m) + Sum(to + Filter(from, f), p, m) == Sum(from, p, m) + Sum(to, p, m)
  {
    SumConcat(to, Filter(from, f), p, m);
    SumFilter(from, f, p, And(f, p), m);
    SumFilter(from, g, p, And(g, p), m);
    SumSplit(from, p, And(g, p), And(f, p), m);
  }

  lemma KeepOtherKeys(calls: seq<Call>, gone: string, key: string)
    requires key != gone
    ensures Sum(Filter(calls, Not(OfKey(gone))), OfKey(key), Calls) == Sum(calls, OfKey(key), Calls)
  {
    SumFilter(calls, Not(OfKey(gone)), OfKey(key), OfKey(key), Calls);
  }

  lemma StepTables(l: Ledger, h: History, op: Op)
    requires TablesAgree(l, h) && WellFormed(op)
    ensures TablesAgree(Apply(l, op), Remember(l, h, op))
  {
    match op
    case Record(_) =>
    case CreateKey(_) =>
    case CompactHour(hour) => CompactHourTables(l, h, hour);
    case CompactDay(day) => CompactDayTables(l, h, day);
    case DropDay(day) => RollupKeep(l.daily, h.daily, ByDay(), RowNot(RowBetween(day, DAY)));
    case DeleteKey(key) => DeleteKeyTables(l, h, key);
  }

  lemma CompactHourTables(l: Ledger, h: History, hour: int)
    requires TablesAgree(l, h) && hour % HOUR == 0
    ensures TablesAgree(Apply(l, CompactHour(hour)), Remember(l, h, CompactHour(hour)))
  {
    GroupCallsIsRollup(l.raw, hour);
    RollupUpsert(l.hourly, h.hourly, GroupCalls(l.raw, hour), Filter(l.raw, Between(hour, HOUR)), ByHour());
  }

  lemma CompactDayTables(l: Ledger, h: History, day: int)
    requires TablesAgree(l, h) && day % DAY == 0
    ensures TablesAgree(Apply(l, CompactDay(day)), Remember(l, h, CompactDay(day)))
  {
    GroupRowsIsRollup(l.hourly, h.hourly, day);
    RollupUpsert(l.daily, h.daily, GroupRows(l.hourly, day),
                 Filter(h.hourly, Behind(ByHour(), RowBetween(day, DAY))), ByDay());
    RollupKeep(l.hourly, h.hourly, ByHour(), RowNot(RowBetween(day, DAY)));
  }

  lemma DeleteKeyTables(l: Ledger, h: History, key: string)
    requires TablesAgree(l, h)
    ensures TablesAgree(Apply(l, DeleteKey(key)), Remember(l, h, DeleteKey(key)))
  {
    var rest := RowNot(RowOfKey(key));
    RollupKeep(l.hourly, h.hourly, ByHour(), rest);
    RollupKeep(l.daily, h.daily, ByDay(), rest);
    FilterSame(h.hourly, Behind(ByHour(), rest), Not(OfKey(key)));
    FilterSame(h.daily, Behind(ByDay(), rest), Not(OfKey(key)));
  }

  lemma StepKnown(l: Ledger, h: History, op: Op)
    requires KeysKnown(l, h)
    ensures KeysKnown(Apply(l, op), Remember(l, h, op))
  {
    if op.DeleteKey? {
      DeleteKnown(l.keys, l.raw, op.key);
      DeleteKnown(l.keys, h.hourly, op.key);
      DeleteKnown(l.keys, h.daily, op.key);
      DeleteKnown(l.keys, h.aged, op.key);
    } else if op.Record? {
      RecordKnown(l, h, op.batch);
    }
  }

  lemma DeleteKnown(keys: map<string, KeyRow>, calls: seq<Call>, key: string)
    requires Known(keys, calls)
    ensures Known(keys - {key}, Filter(calls, Not(OfKey(key))))
  {
  }

  lemma RecordKnown(l: Ledger, h: History, batch: seq<Call>)
    requires KeysKnown(l, h)
    ensures KeysKnown(RecordBatch(l, batch), h)
  {
  }

  /** A key that survives a step other than recording keeps exactly the calls counted for it. */
  lemma StepCounts(l: Ledger, h: History, op: Op, k: string)
    requires !op.Record? && op != DeleteKey(k)
    ensures CountedCalls(Apply(l, op).raw, Remember(l, h, op), k) == CountedCalls(l.raw, h, k)
  {
    match op
    case CompactHour(hour) =>
      MoveConserves(l.raw, h.hourly, Between(hour, HOUR), Not(Between(hour, HOUR)), OfKey(k), Calls);
    case CompactDay(day) =>
      var q := RowBetween(day, DAY);
      MoveConserves(h.hourly, h.daily, Behind(ByHour(), q), Behind(ByHour(), RowNot(q)), OfKey(k), Calls);
    case DropDay(day) =>
      var q := RowBetween(day, DAY);
      MoveConserves(h.daily, h.aged, Behind(ByDay(), q), Behind(ByDay(), RowNot(q)), OfKey(k), Calls);
    case CreateKey(_) =>
    case DeleteKey(gone) =>
      KeepOtherKeys(l.raw, gone, k);
      KeepOtherKeys(h.hourly, gone, k);
      KeepOtherKeys(h.daily, gone, k);
      KeepOtherKeys(h.aged, gone, k);
  }

  lemma RecordCounters(l: Ledger, h: History, batch: seq<Call>)
    requires CountersAgree(l, h)
    ensures CountersAgree(RecordBatch(l, batch), h)
  {
    if AllKeysLive(l, batch) {
      forall k | k in l.keys
        ensures CountedCalls(l.raw + batch, h, k) == CountedCalls(l.raw, h, k) + Sum(batch, OfKey(k), Calls)
      {
        SumConcat(l.raw, batch, OfKey(k), Calls);
      }
    }
  }

  lemma CreateKeyCounters(l: Ledger, h: History, key: string)
    requires KeysKnown(l, h) && CountersAgree(l, h)
    ensures CountersAgree(Apply(l, CreateKey(key)), h)
  {
    if key !in l.keys {
      SumNothing(l.raw, OfKey(key), Calls);
      SumNothing(h.hourly, OfKey(key), Calls);
      SumNothing(h.daily, OfKey(key), Calls);
      SumNothing(h.aged, OfKey(key), Calls);
    }
  }

  lemma StepCounters(l: Ledger, h: History, op: Op)
    requires KeysKnown(l, h) && CountersAgree(l, h)
    ensures CountersAgree(Apply(l, op), Remember(l, h, op))
  {
    match op
    case Record(batch) => RecordCounters(l, h, batch);
    case CreateKey(key) => CreateKeyCounters(l, h, key);
    case _ =>
      forall k | k in Apply(l, op).keys
        ensures CountedCalls(Apply(l, op).raw, Remember(l, h, op), k) == CountedCalls(l.raw, h, k)
      {
        StepCounts(l, h, op, k);
      }
  }

  lemma StepKeeps(l: Ledger, h: History, op: Op)
    requires Represents(l, h) && WellFormed(op)
    ensures Represents(Apply(l, op), Remember(l, h, op))
  {
    StepTables(l, h, op);
    StepKnown(l, h, op);
    StepCounters(l, h, op);
  }

  // ---------- whole runs ----------

  const EMPTY := Ledger([], map[], map[], map[])
  const NO_HISTORY := History([], [], [])

  ghost function Run(l: Ledger, ops: seq<Op>): Ledger {
    if ops == [] then l else Apply(Run(l, ops[..|ops| - 1]), ops[|ops| - 1])
  }

  ghost function RunHistory(l: Ledger, h: History, ops: seq<Op>): History {
    if ops == [] then h
    else
      var n := |ops| - 1;
      Remember(Run(l, ops[..n]), RunHistory(l, h, ops[..n]), ops[n])
  }

  ghost predicate AllWellFormed(ops: seq<Op>) {
    forall op :: op in ops ==> WellFormed(op)
  }

  lemma {:induction false} RunRepresents(ops: seq<Op>)
    requires AllWellFormed(ops)
    ensures Represents(Run(EMPTY, ops), RunHistory(EMPTY, NO_HISTORY, ops))
  {
    if ops != [] {
      var n := |ops| - 1;
      RunRepresents(ops[..n]);
      StepKeeps(Run(EMPTY, ops[..n]), RunHistory(EMPTY, NO_HISTORY, ops[..n]), ops[n]);
    }
  }

  /**
   After any run, the counter of every live key equals its raw rows plus its hourly and daily
   totals plus the calls that have aged out of the daily table.
   */
  lemma KeyTotalsConserved(ops: seq<Op>, key: string)
    requires AllWellFormed(ops) && key in Run(EMPTY, ops).keys
    ensures var l := Run(EMPTY, ops);
            l.keys[key].totalCalls
            == Sum(l.raw, OfKey(key), Calls)
               + SumRows(l.hourly, RowOfKey(key), Calls)
               + SumRows(l.daily, RowOfKey(key), Calls)
               + Sum(RunHistory(EMPTY, NO_HISTORY, ops).aged, OfKey(key), Calls)
  {
    var l, h := Run(EMPTY, ops), RunHistory(EMPTY, NO_HISTORY, ops);
    RunRepresents(ops);
    SumRowsOfCalls(l.hourly, h.hourly, ByHour(), RowOfKey(key), OfKey(key), Calls);
    SumRowsOfCalls(l.daily, h.daily, ByDay(), RowOfKey(key), OfKey(key), Calls);
  }

  // ---------- volumes ----------

  function OfPair(key: string, tool: string): Call -> bool {
    (c: Call) => c.key == key && c.tool == tool
  }

  function RowOfPair(key: string, tool: string): Slot -> bool {
    (r: Slot) => r.key == key && r.tool == tool
  }

  /** Calls, successes or duration of a key and tool over all three tables. */
  ghost function Volume(l: Ledger, key: string, tool: string, m: Measure): int {
    Sum(l.raw, OfPair(key, tool), m)
    + SumRows(l.hourly, RowOfPair(key, tool), m) + SumRows(l.daily, RowOfPair(key, tool), m)
  }

  function CallVolume(raw: seq<Call>, h: History, p: Call -> bool, m: Measure): int {
    Sum(raw, p, m) + Sum(h.hourly, p, m) + Sum(h.daily, p, m)
  }

  lemma VolumeOfCalls(l: Ledger, h: History, key: string, tool: string, m: Measure)
    requires TablesAgree(l, h)
    ensures Volume(l, key, tool, m) == CallVolume(l.raw, h, OfPair(key, tool), m)
  {
    SumRowsOfCalls(l.hourly, h.hourly, ByHour(), RowOfPair(key, tool), OfPair(key, tool), m);
    SumRowsOfCalls(l.daily, h.daily, ByDay(), RowOfPair(key, tool), OfPair(key, tool), m);
  }

  lemma CompactHourMoves(l: Ledger, h: History, hour: int, p: Call -> bool, m: Measure)
    ensures CallVolume(Apply(l, CompactHour(hour)).raw, Remember(l, h, CompactHour(hour)), p, m)
            == CallVolume(l.raw, h, p, m)
  {
    MoveConserves(l.raw, h.hourly, Between(hour, HOUR), Not(Between(hour, HOUR)), p, m);
  }

  lemma CompactDayMoves(l: Ledger, h: History, day: int, p: Call -> bool, m: Measure)
    ensures CallVolume(l.raw, Remember(l, h, CompactDay(day)), p, m) == CallVolume(l.raw, h, p, m)
  {
    var q := RowBetween(day, DAY);
    MoveConserves(h.hourly, h.daily, Behind(ByHour(), q), Behind(ByHour(), RowNot(q)), p, m);
  }

  /** Compaction moves volume between tables and changes none of it. */
  lemma CompactionKeepsVolume(l: Ledger, h: History, op: Op, key: string, tool: string, m: Measure)
    requires TablesAgree(l, h) && WellFormed(op) && (op.CompactHour? || op.CompactDay?)
    ensures Volume(Apply(l, op), key, tool, m) == Volume(l, key, tool, m)
  {
    StepTables(l, h, op);
    VolumeOfCalls(l, h, key, tool, m);
    VolumeOfCalls(Apply(l, op), Remember(l, h, op), key, tool, m);
    match op
    case CompactHour(hour) => CompactHourMoves(l, h, hour, OfPair(key, tool), m);
    case CompactDay(day) => CompactDayMoves(l, h, day, OfPair(key, tool), m);
  }

  /** Recording an accepted batch adds exactly the batch's calls. */
  lemma RecordAddsVolume(l: Ledger, batch: seq<Call>, key: string, tool: string, m: Measure)
    requires AllKeysLive(l, batch)
    ensures Volume(RecordBatch(l, batch), key, tool, m) == Volume(l, key, tool, m) + Sum(batch, OfPair(key, tool), m)
  {
    SumConcat(l.raw, batch, OfPair(key, tool), m);
  }

  function DayRowOfPair(day: int, key: string, tool: string): Slot -> bool {
    (r: Slot) => day <= r.start < day + DAY && r.key == key && r.tool == tool
  }

  /** Dropping a day removes exactly the totals of that day's daily rows. */
  lemma DropRemovesVolume(l: Ledger, h: History, day: int, key: string, tool: string, m: Measure)
    requires TablesAgree(l, h) && day % DAY == 0
    ensures Volume(l, key, tool, m)
            == Volume(Apply(l, DropDay(day)), key, tool, m) + SumRows(l.daily, DayRowOfPair(day, key, tool), m)
  {
    var p, gone := OfPair(key, tool), DayRowOfPair(day, key, tool);
    StepTables(l, h, DropDay(day));
    VolumeOfCalls(l, h, key, tool, m);
    VolumeOfCalls(Apply(l, DropDay(day)), Remember(l, h, DropDay(day)), key, tool, m);
    SumRowsOfCalls(l.daily, h.daily, ByDay(), gone, Behind(ByDay(), gone), m);
    var stay := Behind(ByDay(), RowNot(RowBetween(day, DAY)));
    SumFilter(h.daily, stay, p, And(stay, p), m);
    SumSplit(h.daily, p, And(stay, p), Behind(ByDay(), gone), m);
  }

  lemma DeleteSum(calls: seq<Call>, gone: string, key: string, tool: string, m: Measure)
    ensures Sum(Filter(calls, Not(OfKey(gone))), OfPair(key, tool), m)
            == if key == gone then 0 else Sum(calls, OfPair(key, tool), m)
  {
    if key == gone {
      SumNothing(Filter(calls, Not(OfKey(gone))), OfPair(key, tool), m);
    } else {
      SumFilter(calls, Not(OfKey(gone)), OfPair(key, tool), OfPair(key, tool), m);
    }
  }

  lemma DeleteCallVolume(l: Ledger, h: History, gone: string, key: string, tool: string, m: Measure)
    ensures CallVolume(Apply(l, DeleteKey(gone)).raw, Remember(l, h, DeleteKey(gone)), OfPair(key, tool), m)
            == if key == gone then 0 else CallVolume(l.raw, h, OfPair(key, tool), m)
  {
    DeleteSum(l.raw, gone, key, tool, m);
    DeleteSum(h.hourly, gone, key, tool, m);
    DeleteSum(h.daily, gone, key, tool, m);
  }

  lemma DeleteVolume(l: Ledger, h: History, gone: string, key: string, tool: string, m: Measure)
    requires TablesAgree(l, h)
    ensures Volume(Apply(l, DeleteKey(gone)), key, tool, m) == if key == gone then 0 else Volume(l, key, tool, m)
  {
    StepTables(l, h, DeleteKey(gone));
    VolumeOfCalls(l, h, key, tool, m);
    VolumeOfCalls(Apply(l, DeleteKey(gone)), Remember(l, h, DeleteKey(gone)), key, tool, m);
    DeleteCallVolume(l, h, gone, key, tool, m);
  }

  /** What a step adds to the volume of a key and tool. */
  ghost function VolumeChange(l: Ledger, op: Op, key: string, tool: string, m: Measure): int {
    match op
    case Record(batch) => if AllKeysLive(l, batch) then Sum(batch, OfPair(key, tool), m) else 0
    case DropDay(day) => -SumRows(l.daily, DayRowOfPair(day, key, tool), m)
    case DeleteKey(gone) => if gone == key then -Volume(l, key, tool, m) else 0
    case _ => 0
  }

  /**
   After any run, calls, successes and duration of a key and tool change only by recording a batch, by dropping a
   day, and by deleting the key: by exactly the batch, that day's rows, and all of it.
   */
  lemma VolumeChangesOnlyBy(ops: seq<Op>, op: Op, key: string, tool: string, m: Measure)
    requires AllWellFormed(ops) && WellFormed(op)
    ensures var l := Run(EMPTY, ops);
            Volume(Apply(l, op), key, tool, m) == Volume(l, key, tool, m) + VolumeChange(l, op, key, tool, m)
  {
    RunRepresents(ops);
    StepVolume(Run(EMPTY, ops), RunHistory(EMPTY, NO_HISTORY, ops), op, key, tool, m);
  }

  lemma RefusedVolume(l: Ledger, batch: seq<Call>, key: string, tool: string, m: Measure)
    requires !AllKeysLive(l, batch)
    ensures Volume(Apply(l, Record(batch)), key, tool, m) == Volume(l, key, tool, m)
  {
  }

  lemma CreateVolume(l: Ledger, created: string, key: string, tool: string, m: Measure)
    ensures Volume(Apply(l, CreateKey(created)), key, tool, m) == Volume(l, key, tool, m)
  {
  }

  lemma StepVolume(l: Ledger, h: History, op: Op, key: string, tool: string, m: Measure)
    requires TablesAgree(l, h) && WellFormed(op)
    ensures Volume(Apply(l, op), key, tool, m) == Volume(l, key, tool, m) + VolumeChange(l, op, key, tool, m)
  {
    match op
    case Record(batch) =>
      if AllKeysLive(l, batch) {
        RecordAddsVolume(l, batch, key, tool, m);
      } else {
        RefusedVolume(l, batch, key, tool, m);
      }
    case CompactHour(_) => CompactionKeepsVolume(l, h, op, key, tool, m);
    case CompactDay(_) => CompactionKeepsVolume(l, h, op, key, tool, m);
    case DropDay(day) => DropRemovesVolume(l, h, day, key, tool, m);
    case CreateKey(created) => CreateVolume(l, created, key, tool, m);
    case DeleteKey(gone) => DeleteVolume(l, h, gone, key, tool, m);
  }

  // ---------- a batch against its records one by one ----------

  function Live(keys: map<string, KeyRow>): Call -> bool {
    (c: Call) => c.key in keys
  }

  lemma {:induction false} EachAddsRows(l: Ledger, batch: seq<Call>, n: nat)
    requires n <= |batch|
    ensures RecordFirst(l, batch, n).keys.Keys == l.keys.Keys
    ensures RecordFirst(l, batch, n).raw == l.raw + FilterTo(batch, n, Live(l.keys))
  {
    if n != 0 {
      EachAddsRows(l, batch, n - 1);
      var before := RecordFirst(l, batch, n - 1);
      assert AllKeysLive(before, [batch[n - 1]]) <==> batch[n - 1].key in l.keys;
    }
  }

  lemma {:induction false} LastUsePrefix(seen: Option<int>, batch: seq<Call>, c: Call, n: nat, k: string)
    requires n <= |batch|
    ensures LastUseTo(seen, batch + [c], n, k) == LastUseTo(seen, batch, n, k)
  {
    if n != 0 {
      LastUsePrefix(seen, batch, c, n - 1, k);
    }
  }

  lemma CreditKey(row: KeyRow, batch: seq<Call>, c: Call, k: string)
    ensures Sum(batch + [c], OfKey(k), Calls) == Sum(batch, OfKey(k), Calls) + Sum([c], OfKey(k), Calls)
    ensures LastUse(LastUse(row.lastUsedAt, batch, k), [c], k) == LastUse(row.lastUsedAt, batch + [c], k)
  {
    SumConcat(batch, [c], OfKey(k), Calls);
    LastUsePrefix(row.lastUsedAt, batch, c, |batch|, k);
    assert LastUseTo(LastUse(row.lastUsedAt, batch, k), [c], 0, k) == LastUse(row.lastUsedAt, batch, k);
  }

  lemma CreditOne(keys: map<string, KeyRow>, batch: seq<Call>, c: Call)
    ensures Credit(Credit(keys, batch), [c]) == Credit(keys, batch + [c])
  {
    forall k | k in keys
      ensures Credit(Credit(keys, batch), [c])[k] == Credit(keys, batch + [c])[k]
    {
      CreditKey(keys[k], batch, c, k);
    }
  }

  lemma OneMoreCall(l: Ledger, batch: seq<Call>, c: Call)
    requires AllKeysLive(l, batch) && c.key in l.keys
    ensures RecordBatch(RecordBatch(l, batch), [c]) == RecordBatch(l, batch + [c])
  {
    CreditOne(l.keys, batch, c);
    assert l.raw + batch + [c] == l.raw + (batch + [c]);
    assert AllKeysLive(RecordBatch(l, batch), [c]) && AllKeysLive(l, batch + [c]);
  }

  lemma NoCalls(l: Ledger)
    ensures RecordBatch(l, []) == l
  {
    assert Credit(l.keys, []) == l.keys;
    assert l.raw + [] == l.raw;
  }

  lemma {:induction false} LiveBatchIsEach(l: Ledger, batch: seq<Call>, n: nat)
    requires n <= |batch| && AllKeysLive(l, batch)
    ensures RecordFirst(l, batch, n) == RecordBatch(l, batch[..n])
  {
    if n == 0 {
      NoCalls(l);
      assert batch[..0] == [];
    } else {
      LiveBatchIsEach(l, batch, n - 1);
      assert batch[..n] == batch[..n - 1] + [batch[n - 1]];
      OneMoreCall(l, batch[..n - 1], batch[n - 1]);
    }
  }

  lemma {:induction false} DeadBatchIsNothing(l: Ledger, batch: seq<Call>, n: nat)
    requires n <= |batch| && NoKeyLive(l, batch)
    ensures RecordFirst(l, batch, n) == l
  {
    if n != 0 {
      DeadBatchIsNothing(l, batch, n - 1);
      assert batch[n - 1] in batch && [batch[n - 1]][0] == batch[n - 1];
    }
  }

  /**
   Recording a batch has the effect of recording its calls one by one exactly when the batch
   does not mix live keys with unknown ones: one unknown key rolls back the live ones too.
   */
  lemma BatchIsEachIffUnmixed(l: Ledger, batch: seq<Call>)
    ensures RecordEach(l, batch) == RecordBatch(l, batch) <==> AllKeysLive(l, batch) || NoKeyLive(l, batch)
  {
    assert batch[..|batch|] == batch;
    if AllKeysLive(l, batch) {
      LiveBatchIsEach(l, batch, |batch|);
    } else if NoKeyLive(l, batch) {
      DeadBatchIsNothing(l, batch, |batch|);
    } else {
      EachAddsRows(l, batch, |batch|);
      var c :| c in batch && c.key in l.keys;
      assert c in FilterTo(batch, |batch|, Live(l.keys));
    }
  }

  const CALL_A := Call("a", "t", 0, 0, true)
  const CALL_B := Call("b", "t", 0, 0, true)
  const ONLY_A := Ledger([], map[], map[], map["a" := KeyRow(0, None)])

  /** With key "a" alone, a batch of a call of "a" and one of "b" is lost whole, while one by one the call of "a" is kept. */
  lemma MixedBatchIsLost()
    ensures Run(EMPTY, [CreateKey("a")]) == ONLY_A
    ensures RecordBatch(ONLY_A, [CALL_A, CALL_B]) == ONLY_A
    ensures RecordEach(ONLY_A, [CALL_A, CALL_B]).raw == [CALL_A]
    ensures "a" in RecordEach(ONLY_A, [CALL_A, CALL_B]).keys && RecordEach(ONLY_A, [CALL_A, CALL_B]).keys["a"] == KeyRow(1, Some(0))
  {
    assert [CreateKey("a")][..0] == [];
    assert Run(EMPTY, []) == EMPTY;
    assert CALL_B in [CALL_A, CALL_B];
    var batch := [CALL_A, CALL_B];
    var l0 := RecordFirst(ONLY_A, batch, 0);
    var l1 := RecordFirst(ONLY_A, batch, 1);
    assert l1 == RecordBatch(l0, [CALL_A]);
    assert Sum([CALL_A], OfKey("a"), Calls) == SumTo([CALL_A], 0, OfKey("a"), Calls) + 1;
    assert LastUseTo(None, [CALL_A], 1, "a") == Later(LastUseTo(None, [CALL_A], 0, "a"), 0);
    assert l1 == Ledger([CALL_A], map[], map[], map["a" := KeyRow(1, Some(0))]);
    assert CALL_B in [CALL_B];
    assert RecordFirst(ONLY_A, batch, 2) == RecordBatch(l1, [CALL_B]) == l1;
  }
}
