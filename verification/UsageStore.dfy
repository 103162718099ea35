/**
 The usage part of the SQLite store as an object: the tables are fields, and every method does
 what the Go method and the SQL statements it issues do, row by row and bucket by bucket.
 */
module UsageStore {
  import opened GoTime
  import opened Basics
  import opened UsageTables
  import opened UsageLedger
  import opened UsageMaintenance
  import opened RetentionAges
  import opened SweepLoop
  import opened MaintenanceBeside

  /** apiKeyUsageUpdate: what one batch adds to one key. */
  datatype KeyUpdate = KeyUpdate(callCount: int, latest: int)

  datatype MaintenanceResult = MaintenanceResult(rawRows: int, hourlyRows: int, dailyRows: int)

  datatype Outcome = Completed(result: MaintenanceResult) | Rejected(error: PolicyError)

  // ---------- specifications of the row loops ----------

  /** The update of one key collected from the first n records of a batch. */
  ghost predicate CollectedFor(update: KeyUpdate, batch: seq<Call>, n: nat, k: string)
    requires n <= |batch|
  {
    && update.callCount == SumTo(batch, n, OfKey(k), Calls)
    && LastUseTo(None, batch, n, k) == Some(update.latest)
  }

  ghost predicate Collected(updates: map<string, KeyUpdate>, batch: seq<Call>, n: nat)
    requires n <= |batch|
  {
    && updates.Keys == (set i | 0 <= i < n :: batch[i].key)
    && forall k :: k in updates ==> CollectedFor(updates[k], batch, n, k)
  }

  /** Taking the maximum over a batch first and against the stored value last is the same maximum. */
  lemma {:induction false} LastUseOfLatest(seen: Option<int>, batch: seq<Call>, n: nat, k: string)
    requires n <= |batch|
    ensures LastUseTo(None, batch, n, k).None? ==> LastUseTo(seen, batch, n, k) == seen
    ensures LastUseTo(None, batch, n, k).Some? ==>
              LastUseTo(seen, batch, n, k) == Later(seen, LastUseTo(None, batch, n, k).value)
  {
    if n != 0 {
      LastUseOfLatest(seen, batch, n - 1, k);
    }
  }

  lemma {:induction false} NotCollected(batch: seq<Call>, n: nat, k: string)
    requires n <= |batch| && forall i :: 0 <= i < n ==> batch[i].key != k
    ensures SumTo(batch, n, OfKey(k), Calls) == 0 && LastUseTo(None, batch, n, k) == None
  {
    if n != 0 {
      NotCollected(batch, n - 1, k);
    }
  }

  /** The loop body's update of `keyUpdates` for one record. */
  function Collect(updates: map<string, KeyUpdate>, c: Call): map<string, KeyUpdate> {
    if c.key !in updates then updates[c.key := KeyUpdate(1, c.at)]
    else
      var u := updates[c.key];
      updates[c.key := KeyUpdate(u.callCount + 1, if u.latest < c.at then c.at else u.latest)]
  }

  lemma CollectOne(updates: map<string, KeyUpdate>, batch: seq<Call>, n: nat)
    requires n < |batch| && Collected(updates, batch, n)
    ensures Collected(Collect(updates, batch[n]), batch, n + 1)
  {
    var c, next := batch[n], Collect(updates, batch[n]);
    assert next.Keys == updates.Keys + {c.key};
    forall k | k in next ensures CollectedFor(next[k], batch, n + 1, k) {
      if k == c.key && k !in updates {
        NotCollected(batch, n, k);
      }
    }
  }

  /** Crediting the collected updates to a key is crediting the batch to it. */
  lemma CreditCollected(row: KeyRow, updates: map<string, KeyUpdate>, batch: seq<Call>, k: string)
    requires Collected(updates, batch, |batch|)
    ensures KeyRow(row.totalCalls + Sum(batch, OfKey(k), Calls), LastUse(row.lastUsedAt, batch, k))
            == if k in updates then Credited(row, updates[k]) else row
  {
    LastUseOfLatest(row.lastUsedAt, batch, |batch|, k);
    if k !in updates {
      forall i | 0 <= i < |batch| ensures batch[i].key != k {
        assert batch[i].key in updates.Keys;
      }
      NotCollected(batch, |batch|, k);
    }
  }

  /** SUM(...) over the hourly rows of one day, key and tool. */
  method SumDayGroup(rows: Rollup, day: int, k: Slot) returns (t: Totals)
    ensures t == RowTotals(rows, SameRowGroup(day, k))
  {
    var todo := set r | r in rows && SameRowGroup(day, k)(r);
    ghost var all := todo;
    t := NOTHING;
    while todo != {}
      invariant todo <= all
      invariant forall m :: SumSlots(all, rows, m) == t.Get(m) + SumSlots(todo, rows, m)
      decreases |todo|
    {
      var r :| r in todo;
      forall m { SumSlotsRemove(todo, rows, r, m); }
      t := t.Plus(rows[r]);
      todo := todo - {r};
    }
    assert t.calls == t.Get(Calls) && t.successes == t.Get(Successes) && t.durationMs == t.Get(Duration);
  }

  lemma GroupRowsAt(rows: Rollup, day: int)
    ensures GroupRows(rows, day).Keys == set r | r in rows && RowBetween(day, DAY)(r) :: Slot(r.key, day, r.tool)
    ensures forall k :: k in GroupRows(rows, day) ==> GroupRows(rows, day)[k] == RowTotals(rows, SameRowGroup(day, k))
  {
  }

  /** The rows that one hourly day contributes to the daily table. */
  method SelectDayGroups(rows: Rollup, day: int) returns (groups: Rollup)
    ensures groups == GroupRows(rows, day)
  {
    var slots := set r | r in rows && RowBetween(day, DAY)(r) :: Slot(r.key, day, r.tool);
    groups := SumDayGroups(rows, day, slots);
    GroupRowsAt(rows, day);
  }

  method SumDayGroups(rows: Rollup, day: int, slots: set<Slot>) returns (groups: Rollup)
    ensures groups.Keys == slots
    ensures forall k :: k in slots ==> groups[k] == RowTotals(rows, SameRowGroup(day, k))
  {
    var todo := slots;
    groups := map[];
    while todo != {}
      invariant todo <= slots && groups.Keys == slots - todo
      invariant forall k :: k in groups ==> groups[k] == RowTotals(rows, SameRowGroup(day, k))
      decreases |todo|
    {
      var k :| k in todo;
      var t := SumDayGroup(rows, day, k);
      groups := groups[k := t];
      todo := todo - {k};
    }
  }

  // ---------- grouping an hour ----------

  function HourSlot(c: Call, hour: int): Slot {
    Slot(c.key, hour, c.tool)
  }

  /** What the first n calls contribute to one row of an hour. */
  function GroupTo(calls: seq<Call>, n: nat, hour: int, k: Slot): Totals
    requires n <= |calls|
  {
    var p := And(Between(hour, HOUR), SameGroup(k));
    Totals(SumTo(calls, n, p, Calls), SumTo(calls, n, p, Successes), SumTo(calls, n, p, Duration))
  }

  lemma GroupStep(calls: seq<Call>, n: nat, hour: int, k: Slot)
    requires n < |calls|
    ensures GroupTo(calls, n + 1, hour, k)
            == if Between(hour, HOUR)(calls[n]) && SameGroup(k)(calls[n])
               then GroupTo(calls, n, hour, k).Plus(Single(calls[n])) else GroupTo(calls, n, hour, k)
  {
  }

  ghost predicate Grouped(groups: Rollup, calls: seq<Call>, n: nat, hour: int)
    requires n <= |calls|
  {
    && (forall k :: k in groups <==> exists i :: 0 <= i < n && Between(hour, HOUR)(calls[i]) && HourSlot(calls[i], hour) == k)
    && (forall k: Slot :: k.start == hour ==> Row(groups, k) == GroupTo(calls, n, hour, k))
  }

  /** The groups with one more call counted. */
  function WithCall(groups: Rollup, c: Call, hour: int): Rollup {
    if Between(hour, HOUR)(c) then groups[HourSlot(c, hour) := Row(groups, HourSlot(c, hour)).Plus(Single(c))] else groups
  }

  lemma GroupedRow(groups: Rollup, calls: seq<Call>, n: nat, hour: int, k: Slot)
    requires n < |calls| && k.start == hour && Row(groups, k) == GroupTo(calls, n, hour, k)
    ensures Row(WithCall(groups, calls[n], hour), k) == GroupTo(calls, n + 1, hour, k)
  {
    GroupStep(calls, n, hour, k);
  }

  lemma GroupedStep(groups: Rollup, calls: seq<Call>, n: nat, hour: int)
    requires n < |calls| && Grouped(groups, calls, n, hour)
    ensures Grouped(WithCall(groups, calls[n], hour), calls, n + 1, hour)
  {
    forall k: Slot | k.start == hour
      ensures Row(WithCall(groups, calls[n], hour), k) == GroupTo(calls, n + 1, hour, k)
    {
      GroupedRow(groups, calls, n, hour, k);
    }
  }

  lemma GroupedIsGroupCalls(groups: Rollup, calls: seq<Call>, hour: int)
    requires Grouped(groups, calls, |calls|, hour)
    ensures groups == GroupCalls(calls, hour)
  {
    forall k ensures k in groups <==> k in GroupCalls(calls, hour) {
      if k in GroupCalls(calls, hour) {
        var c :| c in calls && Between(hour, HOUR)(c) && Slot(c.key, hour, c.tool) == k;
        var i :| 0 <= i < |calls| && calls[i] == c;
        assert HourSlot(calls[i], hour) == k;
      }
    }
  }

  /** The rows that one raw hour contributes to the hourly table, gathered call by call. */
  method SelectHourGroups(calls: seq<Call>, hour: int) returns (groups: Rollup)
    ensures groups == GroupCalls(calls, hour)
  {
    groups := map[];
    for i := 0 to |calls|
      invariant Grouped(groups, calls, i, hour)
    {
      GroupedStep(groups, calls, i, hour);
      if hour <= calls[i].at < hour + HOUR {
        var k := HourSlot(calls[i], hour);
        groups := groups[k := Row(groups, k).Plus(Single(calls[i]))];
      }
    }
    GroupedIsGroupCalls(groups, calls, hour);
  }

  /** The table once all of the added rows but `todo` have been inserted. */
  ghost predicate UpsertedBut(r: Rollup, rows: Rollup, added: Rollup, todo: set<Slot>) {
    && (forall k :: k in r <==> k in rows || (k in added && k !in todo))
    && (forall k :: k in r ==> r[k] == if k in added && k !in todo then Row(rows, k).Plus(added[k]) else Row(rows, k))
  }

  lemma UpsertOne(r: Rollup, rows: Rollup, added: Rollup, todo: set<Slot>, k: Slot)
    requires UpsertedBut(r, rows, added, todo) && k in todo && k in added
    ensures UpsertedBut(r[k := Row(r, k).Plus(added[k])], rows, added, todo - {k})
  {
    assert Row(r, k) == Row(rows, k);
  }

  lemma UpsertedIsUpsert(r: Rollup, rows: Rollup, added: Rollup)
    requires UpsertedBut(r, rows, added, {})
    ensures r == Upsert(rows, added)
  {
    assert r.Keys == Upsert(rows, added).Keys;
    forall k | k in r ensures r[k] == Upsert(rows, added)[k] {
    }
  }

  /** INSERT ... ON CONFLICT DO UPDATE, one inserted row after another. */
  method UpsertRows(rows: Rollup, added: Rollup) returns (r: Rollup)
    ensures r == Upsert(rows, added)
  {
    r := rows;
    var todo := added.Keys;
    while todo != {}
      invariant todo <= added.Keys && UpsertedBut(r, rows, added, todo)
      decreases |todo|
    {
      var k :| k in todo;
      UpsertOne(r, rows, added, todo, k);
      r := r[k := Row(r, k).Plus(added[k])];
      todo := todo - {k};
    }
    UpsertedIsUpsert(r, rows, added);
  }

  /** DELETE of the raw rows of an hour. */
  method DeleteHour(calls: seq<Call>, hour: int) returns (kept: seq<Call>)
    ensures kept == Filter(calls, Not(Between(hour, HOUR)))
  {
    kept := [];
    for i := 0 to |calls|
      invariant kept == FilterTo(calls, i, Not(Between(hour, HOUR)))
    {
      if calls[i].at < hour || hour + HOUR <= calls[i].at {
        kept := kept + [calls[i]];
      }
    }
  }

  /** DELETE of the rollup rows of a day. */
  method DeleteDay(rows: Rollup, day: int) returns (kept: Rollup)
    ensures kept == Keep(rows, RowNot(RowBetween(day, DAY)))
  {
    kept := rows;
    var todo := rows.Keys;
    while todo != {}
      invariant todo <= rows.Keys
      invariant forall k :: k in kept <==> k in rows && (k in todo || !(day <= k.start < day + DAY))
      invariant forall k :: k in kept ==> kept[k] == rows[k]
      decreases |todo|
    {
      var k :| k in todo;
      if day <= k.start < day + DAY {
        kept := kept - {k};
      }
      todo := todo - {k};
    }
  }

  /** What a row of the hourly table gains when an hour is compacted. */
  function InRow(hour: int, k: Slot): Call -> bool {
    (c: Call) => hour <= c.at < hour + HOUR && c.key == k.key && c.tool == k.tool && k.start == hour
  }

  lemma HourRowGains(rows: Rollup, calls: seq<Call>, hour: int, k: Slot, m: Measure)
    ensures Row(Upsert(rows, GroupCalls(calls, hour)), k).Get(m) == Row(rows, k).Get(m) + Sum(calls, InRow(hour, k), m)
  {
    var groups := GroupCalls(calls, hour);
    if k in groups {
      SumEqual(calls, And(Between(hour, HOUR), SameGroup(k)), InRow(hour, k), m);
    } else {
      forall c | c in calls && Between(hour, HOUR)(c) ensures Slot(c.key, hour, c.tool) in groups {
      }
      assert forall c :: InRow(hour, k)(c) ==> Between(hour, HOUR)(c) && Slot(c.key, hour, c.tool) == k;
      SumNothing(calls, InRow(hour, k), m);
    }
  }

  /** The loop of persistPrimaryUsageBatch: an unknown key stops it before anything is committed. */
  method CollectUpdates(records: seq<Call>, keys: map<string, KeyRow>)
    returns (allLive: bool, updates: map<string, KeyUpdate>)
    ensures allLive <==> forall c :: c in records ==> c.key in keys
    ensures allLive ==> Collected(updates, records, |records|)
  {
    updates := map[];
    for i := 0 to |records|
      invariant Collected(updates, records, i)
      invariant forall j :: 0 <= j < i ==> records[j].key in keys
    {
      var record := records[i];
      if record.key !in keys {
        assert record in records;
        return false, updates;
      }
      CollectOne(updates, records, i);
      updates := Collect(updates, record);
    }
    return true, updates;
  }

  function Credited(row: KeyRow, update: KeyUpdate): KeyRow {
    KeyRow(row.totalCalls + update.callCount, Later(row.lastUsedAt, update.latest))
  }

  /** updateAPIKeyUsageBatch: one UPDATE per key, in any order. */
  method UpdateAPIKeys(keys: map<string, KeyRow>, updates: map<string, KeyUpdate>) returns (credited: map<string, KeyRow>)
    requires updates.Keys <= keys.Keys
    ensures credited == map k | k in keys :: if k in updates then Credited(keys[k], updates[k]) else keys[k]
  {
    credited := keys;
    var todo := updates.Keys;
    while todo != {}
      invariant todo <= updates.Keys
      invariant credited == map k | k in keys :: if k in updates && k !in todo then Credited(keys[k], updates[k]) else keys[k]
      decreases |todo|
    {
      var k :| k in todo;
      credited := credited[k := Credited(keys[k], updates[k])];
      todo := todo - {k};
    }
  }

  class SQLiteUsage {
    var raw: seq<Call>
    var hourly: Rollup
    var daily: Rollup
    var keys: map<string, KeyRow>

    ghost function View(): Ledger
      reads this
    {
      Ledger(raw, hourly, daily, keys)
    }

    constructor ()
      ensures View() == EMPTY
    {
      raw, hourly, daily, keys := [], map[], map[], map[];
    }

    /** persistPrimaryUsageBatch and updateAPIKeyUsageBatch: one transaction, committed at the end. */
    method RecordUsageBatch(records: seq<Call>) returns (committed: bool)
      modifies this
      ensures committed <==> old(AllKeysLive(View(), records))
      ensures View() == RecordBatch(old(View()), records)
    {
      var allLive, updates := CollectUpdates(records, keys);
      if !allLive {
        return false;
      }
      assert updates.Keys <= keys.Keys;
      var credited := UpdateAPIKeys(keys, updates);
      forall k | k in keys ensures credited[k] == Credit(keys, records)[k] {
        CreditCollected(keys[k], updates, records, k);
      }
      assert credited == Credit(keys, records);
      raw, keys := raw + records, credited;
      return true;
    }

    /** MIN(timestamp) of the raw rows in the search window, truncated to its hour. */
    method FindNextRawUsageHour(searchStart: int, cutoff: int) returns (bucket: Option<int>)
      ensures bucket == HourBucket(First(Times(raw), searchStart, cutoff))
    {
      var first: Option<int> := None;
      for i := 0 to |raw|
        invariant first.None? ==> forall j :: 0 <= j < i ==> !Candidate(raw[j].at, searchStart, cutoff)
        invariant first.Some? ==> first.value in Times(raw) && Candidate(first.value, searchStart, cutoff)
        invariant first.Some? ==> forall j :: 0 <= j < i && Candidate(raw[j].at, searchStart, cutoff) ==> first.value <= raw[j].at
      {
        var t := raw[i].at;
        assert raw[i] in raw;
        if Candidate(t, searchStart, cutoff) && (first.None? || t < first.value) {
          first := Some(t);
        }
      }
      bucket := if first.None? then None else Some(ToHour(first.value));
      if first.Some? {
        assert IsFirst(Times(raw), first.value, searchStart, cutoff);
      } else {
        assert NoneLeft(Times(raw), searchStart, cutoff);
      }
    }

    /** MIN(bucket_start) of the rollup rows in the search window, truncated to its day. */
    static method FindNextDay(rows: Rollup, searchStart: int, cutoff: int) returns (bucket: Option<int>)
      ensures bucket == DayBucket(First(Starts(rows), searchStart, cutoff))
    {
      var first: Option<int> := None;
      var todo := rows.Keys;
      while todo != {}
        invariant todo <= rows.Keys
        invariant first.None? ==> forall k :: k in rows && k !in todo ==> !Candidate(k.start, searchStart, cutoff)
        invariant first.Some? ==> first.value in Starts(rows) && Candidate(first.value, searchStart, cutoff)
        invariant first.Some? ==> forall k :: k in rows && k !in todo && Candidate(k.start, searchStart, cutoff) ==> first.value <= k.start
        decreases |todo|
      {
        var k :| k in todo;
        if Candidate(k.start, searchStart, cutoff) && (first.None? || k.start < first.value) {
          first := Some(k.start);
        }
        todo := todo - {k};
      }
      bucket := if first.None? then None else Some(ToDay(first.value));
      if first.Some? {
        assert IsFirst(Starts(rows), first.value, searchStart, cutoff);
      } else {
        assert NoneLeft(Starts(rows), searchStart, cutoff);
      }
    }

    /**
     One transaction: every hourly row gains exactly the calls of the hour that belong in it, no raw row of the
     hour is left, and every other raw row stays.
     */
    method CompactRawUsageHour(bucketStart: int) returns (rowsCompacted: int)
      modifies this
      ensures View() == Apply(old(View()), CompactHour(bucketStart))
      ensures rowsCompacted == |old(raw)| - |raw|
      ensures forall c :: c in raw <==> c in old(raw) && !(bucketStart <= c.at < bucketStart + HOUR)
      ensures forall k, m :: Row(hourly, k).Get(m) == Row(old(hourly), k).Get(m) + Sum(old(raw), InRow(bucketStart, k), m)
    {
      var groups := SelectHourGroups(raw, bucketStart);
      forall k, m ensures Row(Upsert(hourly, groups), k).Get(m) == Row(hourly, k).Get(m) + Sum(raw, InRow(bucketStart, k), m) {
        HourRowGains(hourly, raw, bucketStart, k, m);
      }
      hourly := UpsertRows(hourly, groups);
      var kept := DeleteHour(raw, bucketStart);
      rowsCompacted := |raw| - |kept|;
      raw := kept;
    }

    method CompactHourlyUsageDay(bucketStart: int) returns (rowsCompacted: int)
      modifies this
      ensures View() == Apply(old(View()), CompactDay(bucketStart))
      ensures rowsCompacted == |old(hourly)| - |hourly|
    {
      var groups := SelectDayGroups(hourly, bucketStart);
      daily := UpsertRows(daily, groups);
      var kept := DeleteDay(hourly, bucketStart);
      rowsCompacted := |hourly| - |kept|;
      hourly := kept;
    }

    /** One transaction: the daily rows of the day go, and every other row stays as it was. */
    method DeleteDailyUsageDay(bucketStart: int) returns (rowsDeleted: int)
      modifies this
      ensures View() == Apply(old(View()), DropDay(bucketStart))
      ensures rowsDeleted == |old(daily)| - |daily|
      ensures forall k :: k in daily <==> k in old(daily) && !(bucketStart <= k.start < bucketStart + DAY)
      ensures forall k :: k in daily ==> daily[k] == old(daily)[k]
    {
      var kept := DeleteDay(daily, bucketStart);
      rowsDeleted := |daily| - |kept|;
      daily := kept;
    }

    method CompactFoundHour(ghost searchStart: int, ghost cut: Cutoffs, bucketStart: int) returns (rows: int)
      requires HourBucket(First(Times(raw), searchStart, cut.raw)) == Some(bucketStart)
      modifies this
      ensures |raw| < |old(raw)| && rows == |old(raw)| - |raw|
      ensures RestOfRaw(View(), bucketStart + HOUR, cut) == RestOfRaw(old(View()), searchStart, cut)
    {
      ghost var l := View();
      rows := CompactRawUsageHour(bucketStart);
      RawTurn(l, searchStart, cut, bucketStart, View());
    }

    /** One turn of the raw loop: the next hour, if there is one, and its transaction. */
    method CompactNextHour(searchStart: int, cut: Cutoffs) returns (bucket: Option<int>, rows: int)
      modifies this
      ensures bucket.None? ==> View() == old(View()) && RestOfRaw(View(), searchStart, cut) == View() && rows == 0
      ensures bucket.Some? ==>
                && |raw| < |old(raw)| && rows == |old(raw)| - |raw|
                && RestOfRaw(View(), bucket.value + HOUR, cut) == RestOfRaw(old(View()), searchStart, cut)
    {
      ghost var l := View();
      bucket := FindNextRawUsageHour(searchStart, cut.raw);
      if bucket.None? {
        RawDone(l, searchStart, cut);
        return bucket, 0;
      }
      rows := CompactFoundHour(searchStart, cut, bucket.value);
    }

    method CompactFoundDay(ghost searchStart: int, ghost cut: Cutoffs, bucketStart: int) returns (rows: int)
      requires DayBucket(First(Starts(hourly), searchStart, cut.hourly)) == Some(bucketStart)
      modifies this
      ensures |hourly| < |old(hourly)| && rows == |old(hourly)| - |hourly|
      ensures RestOfHourly(View(), bucketStart + DAY, cut) == RestOfHourly(old(View()), searchStart, cut)
    {
      ghost var l := View();
      rows := CompactHourlyUsageDay(bucketStart);
      HourlyTurn(l, searchStart, cut, bucketStart, View());
    }

    /** One turn of the hourly loop. */
    method CompactNextDay(searchStart: int, cut: Cutoffs) returns (bucket: Option<int>, rows: int)
      modifies this
      ensures bucket.None? ==> View() == old(View()) && RestOfHourly(View(), searchStart, cut) == View() && rows == 0
      ensures bucket.Some? ==>
                && |hourly| < |old(hourly)| && rows == |old(hourly)| - |hourly|
                && RestOfHourly(View(), bucket.value + DAY, cut) == RestOfHourly(old(View()), searchStart, cut)
    {
      ghost var l := View();
      bucket := FindNextDay(hourly, searchStart, cut.hourly);
      if bucket.None? {
        HourlyDone(l, searchStart, cut);
        return bucket, 0;
      }
      rows := CompactFoundDay(searchStart, cut, bucket.value);
    }

    method DropFoundDay(ghost searchStart: int, ghost cut: Cutoffs, bucketStart: int) returns (rows: int)
      requires DayBucket(First(Starts(daily), searchStart, cut.daily)) == Some(bucketStart)
      modifies this
      ensures |daily| < |old(daily)| && rows == |old(daily)| - |daily|
      ensures RestOfDaily(View(), bucketStart + DAY, cut) == RestOfDaily(old(View()), searchStart, cut)
    {
      ghost var l := View();
      rows := DeleteDailyUsageDay(bucketStart);
      DailyTurn(l, searchStart, cut, bucketStart, View());
    }

    /** One turn of the daily loop. */
    method DropNextDay(searchStart: int, cut: Cutoffs) returns (bucket: Option<int>, rows: int)
      modifies this
      ensures bucket.None? ==> View() == old(View()) && RestOfDaily(View(), searchStart, cut) == View() && rows == 0
      ensures bucket.Some? ==>
                && |daily| < |old(daily)| && rows == |old(daily)| - |daily|
                && RestOfDaily(View(), bucket.value + DAY, cut) == RestOfDaily(old(View()), searchStart, cut)
    {
      ghost var l := View();
      bucket := FindNextDay(daily, searchStart, cut.daily);
      if bucket.None? {
        DailyDone(l, searchStart, cut);
        return bucket, 0;
      }
      rows := DropFoundDay(searchStart, cut, bucket.value);
    }

    /** The first loop of compactPrimaryUsage. */
    method CompactRaw(cut: Cutoffs) returns (rawRows: int)
      modifies this
      ensures View() == RestOfRaw(old(View()), 0, cut)
      ensures rawRows == |old(raw)| - |raw|
    {
      ghost var before := View();
      ghost var after := RestOfRaw(before, 0, cut);
      var searchStart := 0;
      rawRows := 0;
      while true
        invariant RestOfRaw(View(), searchStart, cut) == after
        invariant rawRows == |before.raw| - |raw|
        decreases |raw|
      {
        var bucket, rows := CompactNextHour(searchStart, cut);
        if bucket.None? {
          break;
        }
        rawRows := rawRows + rows;
        searchStart := bucket.value + HOUR;
      }
    }

    /** The second loop of compactPrimaryUsage. */
    method CompactHourly(cut: Cutoffs) returns (hourlyRows: int)
      modifies this
      ensures View() == RestOfHourly(old(View()), 0, cut)
      ensures hourlyRows == |old(hourly)| - |hourly|
    {
      ghost var before := View();
      ghost var after := RestOfHourly(before, 0, cut);
      var searchStart := 0;
      hourlyRows := 0;
      while true
        invariant RestOfHourly(View(), searchStart, cut) == after
        invariant hourlyRows == |before.hourly| - |hourly|
        decreases |hourly|
      {
        var bucket, rows := CompactNextDay(searchStart, cut);
        if bucket.None? {
          break;
        }
        hourlyRows := hourlyRows + rows;
        searchStart := bucket.value + DAY;
      }
    }

    /** The third loop of compactPrimaryUsage. */
    method DropDaily(cut: Cutoffs) returns (dailyRows: int)
      modifies this
      ensures View() == RestOfDaily(old(View()), 0, cut)
      ensures dailyRows == |old(daily)| - |daily|
    {
      ghost var before := View();
      ghost var after := RestOfDaily(before, 0, cut);
      var searchStart := 0;
      dailyRows := 0;
      while true
        invariant RestOfDaily(View(), searchStart, cut) == after
        invariant dailyRows == |before.daily| - |daily|
        decreases |daily|
      {
        var bucket, rows := DropNextDay(searchStart, cut);
        if bucket.None? {
          break;
        }
        dailyRows := dailyRows + rows;
        searchStart := bucket.value + DAY;
      }
    }

    method CompactPrimaryUsage(cut: Cutoffs) returns (result: MaintenanceResult)
      requires Aligned(cut)
      modifies this
      ensures View() == Pass(old(View()), cut)
      ensures Drained(View(), cut)
      ensures result == MaintenanceResult(
                          |old(raw)| - |raw|,
                          |AfterRaw(old(View()), cut).hourly| - |hourly|,
                          |AfterHourly(old(View()), cut).daily| - |daily|)
    {
      PassDrains(View(), cut);
      RawLoop(View(), 0, cut.raw);
      HourlyLoop(AfterRaw(View(), cut), 0, cut.hourly);
      DailyLoop(AfterHourly(View(), cut), 0, cut.daily);
      var rawRows := CompactRaw(cut);
      var hourlyRows := CompactHourly(cut);
      var dailyRows := DropDaily(cut);
      result := MaintenanceResult(rawRows, hourlyRows, dailyRows);
    }

    // ---------- a pass beside the rest of the service ----------

    method CreateAPIKey(key: string)
      modifies this
      ensures View() == Apply(old(View()), CreateKey(key))
    {
      if key !in keys {
        keys := keys[key := KeyRow(0, None)];
      }
    }

    method DeleteAPIKey(key: string)
      modifies this
      ensures View() == Apply(old(View()), DeleteKey(key))
    {
      raw := Filter(raw, Not(OfKey(key)));
      hourly := Keep(hourly, RowNot(RowOfKey(key)));
      daily := Keep(daily, RowNot(RowOfKey(key)));
      keys := keys - {key};
    }

    /** One thing others do between two turns. */
    method DoOther(op: Op)
      requires Foreign(op)
      modifies this
      ensures View() == Apply(old(View()), op)
    {
      match op
      case Record(batch) =>
        var _ := RecordUsageBatch(batch);
      case CreateKey(key) =>
        CreateAPIKey(key);
      case DeleteKey(key) =>
        DeleteAPIKey(key);
      case _ =>
    }

    method DoOthers(ops: seq<Op>)
      requires forall op :: op in ops ==> Foreign(op)
      modifies this
      ensures View() == Follow(old(View()), ops)
    {
      for i := 0 to |ops|
        invariant Follow(View(), ops[i..]) == Follow(old(View()), ops)
      {
        assert ops[i..][1..] == ops[i + 1..];
        DoOther(ops[i]);
      }
    }

    /** The lookup and the transaction of a turn. */
    method TakeTurn(tier: Tier, searchStart: int, cutoff: int) returns (bucket: Option<int>)
      modifies this
      ensures var found := First(TimesOf(tier, old(View())), searchStart, cutoff);
              && bucket == (if found.None? then None else Some(BucketOf(tier, found.value)))
              && View() == if found.None? then old(View()) else Apply(old(View()), TurnOp(tier, BucketOf(tier, found.value)))
    {
      match tier {
        case RawTier => bucket := FindNextRawUsageHour(searchStart, cutoff);
        case HourlyTier => bucket := FindNextDay(hourly, searchStart, cutoff);
        case DailyTier => bucket := FindNextDay(daily, searchStart, cutoff);
      }
      if bucket.Some? {
        match tier {
          case RawTier => var _ := CompactRawUsageHour(bucket.value);
          case HourlyTier => var _ := CompactHourlyUsageDay(bucket.value);
          case DailyTier => var _ := DeleteDailyUsageDay(bucket.value);
        }
      }
    }

    /** One turn, after whatever others have done before it. */
    method TurnBeside(tier: Tier, searchStart: int, cut: Cutoffs, others: Others, turn: nat) returns (bucket: Option<int>)
      requires AfterZero(View()) && AllForeign(others) && AllNew(others, cut.raw)
      requires searchStart >= 0 && SweptUpTo(TimesOf(tier, View()), searchStart, CutoffOf(tier, cut))
      modifies this
      ensures AfterZero(View()) && KeepsDrained(tier, old(View()), View(), cut) && Reachable(old(View()), View())
      ensures bucket.None? ==> DrainedOf(tier, View(), CutoffOf(tier, cut))
      ensures bucket.Some? ==>
                && searchStart < CutoffOf(tier, cut) && searchStart < bucket.value + Width(tier)
                && SweptUpTo(TimesOf(tier, View()), bucket.value + Width(tier), CutoffOf(tier, cut))
    {
      ghost var l := View();
      DoOthers(others(tier, turn));
      ghost var l1 := View();
      OthersStep(tier, l, l1, searchStart, cut, others, turn);
      bucket := TakeTurn(tier, searchStart, CutoffOf(tier, cut));
      ghost var found := First(TimesOf(tier, l1), searchStart, CutoffOf(tier, cut));
      if found.Some? {
        TurnStep(tier, l1, View(), searchStart, cut, found.value);
        ReachableOn(l, l1, View());
      } else {
        LastTurn(tier, l1, searchStart, CutoffOf(tier, cut));
      }
    }

    /**
     A loop of compactPrimaryUsage beside others that record nothing old. It ends because its search position moves
     towards the cutoff, and leaves no row of its table before the cutoff.
     */
    method LoopBeside(tier: Tier, cut: Cutoffs, others: Others)
      requires AfterZero(View()) && AllForeign(others) && AllNew(others, cut.raw)
      modifies this
      ensures AfterZero(View()) && DrainedOf(tier, View(), CutoffOf(tier, cut))
      ensures KeepsDrained(tier, old(View()), View(), cut) && Reachable(old(View()), View())
    {
      ghost var before := View();
      ForeignReachable(before, []);
      var cutoff := CutoffOf(tier, cut);
      var searchStart, turn := 0, 0;
      while true
        invariant AfterZero(View()) && searchStart >= 0 && turn >= 0 && SweptUpTo(TimesOf(tier, View()), searchStart, cutoff)
        invariant KeepsDrained(tier, before, View(), cut) && Reachable(before, View())
        decreases if cutoff > searchStart then cutoff - searchStart else 0
      {
        ghost var l := View();
        var bucket := TurnBeside(tier, searchStart, cut, others, turn);
        ReachableOn(before, l, View());
        if bucket.None? {
          break;
        }
        searchStart, turn := bucket.value + Width(tier), turn + 1;
      }
    }

    /** compactPrimaryUsage beside others that record nothing old: all three tables are drained, by a run of ledger steps. */
    method CompactPrimaryUsageBeside(cut: Cutoffs, others: Others)
      requires AfterZero(View()) && AllForeign(others) && AllNew(others, cut.raw)
      modifies this
      ensures Drained(View(), cut) && Reachable(old(View()), View())
    {
      ghost var before := View();
      LoopBeside(RawTier, cut, others);
      ghost var l1 := View();
      LoopBeside(HourlyTier, cut, others);
      ghost var l2 := View();
      LoopBeside(DailyTier, cut, others);
      ReachableOn(before, l1, l2);
      ReachableOn(before, l2, View());
      AllDrained(View(), cut);
    }

    /**
     RunUsageMaintenance, without the debug database and the WAL checkpoints. A bucket leaves its table exactly when all
     of it is older than the table's own retention, and what leaves a table is counted in the next one.
     */
    method RunUsageMaintenance(policy: Policy, now: int) returns (outcome: Outcome)
      modifies this
      ensures outcome.Rejected? <==> Validate(policy).Some?
      ensures outcome.Rejected? ==> View() == old(View())
      ensures outcome.Completed? ==> View() == Pass(old(View()), CutoffsAt(policy, now))
      ensures outcome.Completed? ==>
                && RawAged(old(View()), View(), policy, now) && HourlyAged(old(View()), View(), policy, now)
                && DailyAged(old(View()), View(), policy, now) && KeptByAge(old(View()), View(), policy, now)
      ensures outcome.Completed? ==>
                && outcome.result.rawRows == |old(raw)| - |raw|
                && outcome.result.hourlyRows == |AfterRaw(old(View()), CutoffsAt(policy, now)).hourly| - |hourly|
                && outcome.result.dailyRows == |AfterHourly(old(View()), CutoffsAt(policy, now)).daily| - |daily|
    {
      var error := Validate(policy);
      if error.Some? {
        return Rejected(error.value);
      }
      var cut := CutoffsAt(policy, now);
      PassByAge(View(), policy, now);
      PassKeepsByAge(View(), policy, now);
      var result := CompactPrimaryUsage(cut);
      return Completed(result);
    }
  }

  function HourBucket(found: Option<int>): Option<int> {
    if found.None? then None else Some(ToHour(found.value))
  }

  function DayBucket(found: Option<int>): Option<int> {
    if found.None? then None else Some(ToDay(found.value))
  }

  ghost function RestOfRaw(l: Ledger, searchStart: int, cut: Cutoffs): Ledger {
    Follow(l, RawSteps(l.raw, searchStart, cut.raw))
  }

  ghost function RestOfHourly(l: Ledger, searchStart: int, cut: Cutoffs): Ledger {
    Follow(l, HourlySteps(l.hourly, searchStart, cut.hourly))
  }

  ghost function RestOfDaily(l: Ledger, searchStart: int, cut: Cutoffs): Ledger {
    Follow(l, DailySteps(l.daily, searchStart, cut.daily))
  }

  /** A loop that finds no bucket has nothing left to do. */
  lemma RawDone(l: Ledger, searchStart: int, cut: Cutoffs)
    requires HourBucket(First(Times(l.raw), searchStart, cut.raw)).None?
    ensures RestOfRaw(l, searchStart, cut) == l
  {
  }

  lemma HourlyDone(l: Ledger, searchStart: int, cut: Cutoffs)
    requires DayBucket(First(Starts(l.hourly), searchStart, cut.hourly)).None?
    ensures RestOfHourly(l, searchStart, cut) == l
  {
  }

  lemma DailyDone(l: Ledger, searchStart: int, cut: Cutoffs)
    requires DayBucket(First(Starts(l.daily), searchStart, cut.daily)).None?
    ensures RestOfDaily(l, searchStart, cut) == l
  {
  }

  /** One turn of the raw loop takes the first of the remaining transactions. */
  lemma RawTurn(l: Ledger, searchStart: int, cut: Cutoffs, hour: int, l': Ledger)
    requires HourBucket(First(Times(l.raw), searchStart, cut.raw)) == Some(hour) && l' == Apply(l, CompactHour(hour))
    ensures |l'.raw| < |l.raw|
    ensures RestOfRaw(l', hour + HOUR, cut) == RestOfRaw(l, searchStart, cut)
  {
    HourShrinks(l.raw, First(Times(l.raw), searchStart, cut.raw).value);
    StepsFirst(l, CompactHour(hour), RawSteps(Without(l.raw, hour), hour + HOUR, cut.raw));
  }

  lemma HourlyTurn(l: Ledger, searchStart: int, cut: Cutoffs, day: int, l': Ledger)
    requires DayBucket(First(Starts(l.hourly), searchStart, cut.hourly)) == Some(day) && l' == Apply(l, CompactDay(day))
    ensures |l'.hourly| < |l.hourly|
    ensures RestOfHourly(l', day + DAY, cut) == RestOfHourly(l, searchStart, cut)
  {
    DayShrinks(l.hourly, First(Starts(l.hourly), searchStart, cut.hourly).value);
    FirstHourlyStep(l.hourly, searchStart, cut.hourly, day);
    CompactDayHourly(l, day);
    StepsFirst(l, CompactDay(day), HourlySteps(RowsWithout(l.hourly, day), day + DAY, cut.hourly));
  }

  lemma FirstHourlyStep(rows: Rollup, searchStart: int, cutoff: int, day: int)
    requires DayBucket(First(Starts(rows), searchStart, cutoff)) == Some(day)
    ensures HourlySteps(rows, searchStart, cutoff) == [CompactDay(day)] + HourlySteps(RowsWithout(rows, day), day + DAY, cutoff)
  {
  }

  lemma CompactDayHourly(l: Ledger, day: int)
    ensures Apply(l, CompactDay(day)).hourly == RowsWithout(l.hourly, day)
  {
  }

  lemma DailyTurn(l: Ledger, searchStart: int, cut: Cutoffs, day: int, l': Ledger)
    requires DayBucket(First(Starts(l.daily), searchStart, cut.daily)) == Some(day) && l' == Apply(l, DropDay(day))
    ensures |l'.daily| < |l.daily|
    ensures RestOfDaily(l', day + DAY, cut) == RestOfDaily(l, searchStart, cut)
  {
    DayShrinks(l.daily, First(Starts(l.daily), searchStart, cut.daily).value);
    StepsFirst(l, DropDay(day), DailySteps(RowsWithout(l.daily, day), day + DAY, cut.daily));
  }
}
