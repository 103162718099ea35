/**
 The limiter objects: a bounded registry changed in place, with the cleanup and rebuild loops, and the
 sharded address limiter whose entry counter is shared by all shards.
 */
module RateLimiters {
  import opened Basics
  import opened ExpiryRegistry
  import opened Streaks

  // ---------- the cleanup scan ----------

  ghost predicate SeenOk(seen: map<string, int>, reg: Registry, now: int, todo: set<string>) {
    && (forall k :: k in seen ==> k in reg.seen && seen[k] == reg.seen[k])
    && (forall k :: k in reg.seen ==> (k in seen <==> k in todo || !Expired(reg, reg.seen[k], now)))
  }

  /** The hint is the earliest expiry of the entries looked at and kept, 0 when there is none. */
  ghost predicate HintOk(seen: map<string, int>, next: int, ttl: int, todo: set<string>) {
    && (forall k :: k in seen && k !in todo ==> 0 < next <= seen[k] + ttl)
    && (next == 0 || exists k :: k in seen && k !in todo && next == seen[k] + ttl)
  }

  lemma ForgetOne(seen: map<string, int>, reg: Registry, now: int, next: int, todo: set<string>, key: string)
    requires SeenOk(seen, reg, now, todo) && HintOk(seen, next, reg.ttl, todo)
    requires key in todo && key in seen && Expired(reg, seen[key], now)
    ensures SeenOk(seen - {key}, reg, now, todo - {key}) && HintOk(seen - {key}, next, reg.ttl, todo - {key})
    ensures |seen - {key}| == |seen| - 1
  {
    var seen' := seen - {key};
    assert seen'.Keys == seen.Keys - {key};
    assert |seen'.Keys| == |seen'|;
    if next != 0 {
      var k :| k in seen && k !in todo && next == seen[k] + reg.ttl;
      assert k in seen' && k !in todo - {key};
    }
  }

  lemma KeepOne(seen: map<string, int>, reg: Registry, now: int, next: int, todo: set<string>, key: string)
    requires SeenOk(seen, reg, now, todo) && HintOk(seen, next, reg.ttl, todo)
    requires key in todo && key in seen && !Expired(reg, seen[key], now) && seen[key] > 0 && reg.ttl > 0
    ensures SeenOk(seen, reg, now, todo - {key})
    ensures HintOk(seen, Earlier(next, seen[key] + reg.ttl), reg.ttl, todo - {key})
  {
    var next' := Earlier(next, seen[key] + reg.ttl);
    if next' == next && next != 0 {
      var k :| k in seen && k !in todo && next == seen[k] + reg.ttl;
      assert k !in todo - {key};
    }
  }

  lemma ScanIsCleaned(seen: map<string, int>, reg: Registry, now: int, next: int)
    requires SeenOk(seen, reg, now, {}) && HintOk(seen, next, reg.ttl, {})
    ensures reg.(seen := seen, next := next, count := reg.count - (|reg.seen| - |seen|)) == Cleaned(reg, now)
  {
    assert seen == Kept(reg, now);
    var times := Expiries(reg, seen);
    if next != 0 {
      assert next in times;
      assert IsEarliest(next, times);
    }
  }

  /** The scan for expired entries, in any order; cleanupEndpointLimitersLocked is this and nothing else. */
  method CleanRegistry(reg: Registry, now: int) returns (r: Registry)
    requires WellFormed(reg)
    ensures r == Cleaned(reg, now)
    ensures forall k :: k in r.seen <==> k in reg.seen && Alive(reg.flavour, reg.ttl, reg.seen[k], now)
    ensures forall k :: k in r.seen ==> r.seen[k] == reg.seen[k]
  {
    var seen, removed, nextCheck := reg.seen, 0, 0;
    var todo := seen.Keys;
    while todo != {}
      invariant todo <= reg.seen.Keys
      invariant SeenOk(seen, reg, now, todo) && HintOk(seen, nextCheck, reg.ttl, todo)
      invariant removed == |reg.seen| - |seen|
    {
      var key :| key in todo;
      var expired := if reg.flavour.Address? then seen[key] < now - reg.ttl else seen[key] + reg.ttl <= now;
      if expired {
        ForgetOne(seen, reg, now, nextCheck, todo, key);
        seen := seen - {key};
        removed := removed + 1;
      } else {
        KeepOne(seen, reg, now, nextCheck, todo, key);
        nextCheck := Earlier(nextCheck, seen[key] + reg.ttl);
      }
      todo := todo - {key};
    }
    ScanIsCleaned(seen, reg, now, nextCheck);
    r := reg.(seen := seen, next := nextCheck, count := reg.count - removed);
  }

  /** One request to an endpoint's registry, up to the choice of token bucket. */
  method AllowAtEndpoint(reg: Registry, key: string, now: int) returns (r: Registry, dedicated: bool)
    requires WellFormed(reg) && reg.flavour.Endpoint? && now > 0
    ensures r == Allow(reg, key, now)
    ensures dedicated <==> !Diverted(reg, key, now)
    ensures dedicated <==> key in r.seen
  {
    RoomWellFormed(reg, now);
    if key in reg.seen {
      return reg.(seen := reg.seen[key := now]), true;
    }
    r := reg;
    if |reg.seen| >= reg.capacity && (reg.next == 0 || now >= reg.next) {
      r := CleanRegistry(reg, now);
    }
    dedicated := |r.seen| < r.capacity;
    if dedicated {
      r := r.(seen := r.seen[key := now], next := Earlier(r.next, now + r.ttl), count := r.count + 1);
    }
  }

  // ---------- one registry ----------

  class BoundedRegistry {
    const flavour: Flavour
    const ttl: int
    const capacity: nat
    var seen: map<string, int>
    var next: int
    var count: int
    var high: nat

    ghost function View(): Registry
      reads this
    {
      Registry(flavour, ttl, capacity, seen, next, count, high)
    }

    constructor (f: Flavour, idleTTL: int, maximumEntries: nat)
      ensures View() == New(f, idleTTL, maximumEntries)
    {
      flavour, ttl, capacity := f, idleTTL, maximumEntries;
      seen, next, count, high := map[], 0, 0, 0;
    }

    /** cleanupExpiredEntriesLocked and the scan of cleanupShardLocked */
    method RemoveExpired(now: int)
      requires WellFormed(View())
      modifies this
      ensures View() == Cleaned(old(View()), now)
    {
      var cleaned := CleanRegistry(Registry(flavour, ttl, capacity, seen, next, count, high), now);
      seen, next, count := cleaned.seen, cleaned.next, cleaned.count;
    }

    /** The tail of cleanupShardLocked: entries are copied into a new map and nothing is lost. */
    method Rebuild()
      modifies this
      ensures View() == Rebuilt(old(View()))
      ensures seen == old(seen)
      ensures high == if flavour.Address? && old(high) >= 256 && |seen| <= old(high) / 4 then |seen| else old(high)
    {
      if !flavour.Address? || high < MINIMUM_HIGH_FOR_REBUILD || |seen| > high / REBUILD_DIVISOR {
        return;
      }
      var rebuilt: map<string, int> := map[];
      var todo := seen.Keys;
      while todo != {}
        invariant todo <= seen.Keys
        invariant View() == old(View())
        invariant forall k :: k in rebuilt <==> k in seen && k !in todo
        invariant forall k :: k in rebuilt ==> rebuilt[k] == seen[k]
      {
        var key :| key in todo;
        rebuilt := rebuilt[key := seen[key]];
        todo := todo - {key};
      }
      assert rebuilt == seen;
      seen := rebuilt;
      high := |rebuilt|;
    }

    method MakeRoom(now: int)
      requires WellFormed(View())
      modifies this
      ensures View() == Room(old(View()), now)
    {
      var due := next == 0 || (if flavour.Address? then now > next else now >= next);
      if |seen| >= capacity && due {
        RemoveExpired(now);
        Rebuild();
      }
    }

    method AddEntry(key: string, now: int)
      modifies this
      ensures View() == Add(old(View()), key, now)
    {
      seen := seen[key := now];
      next := Earlier(next, now + ttl);
      if flavour.Address? && |seen| > high {
        high := |seen|;
      }
      count := count + 1;
    }

    /** allowAt and allowAuthRequest, up to the choice of token bucket */
    method AllowAt(key: string, now: int) returns (dedicated: bool)
      requires WellFormed(View()) && now > 0
      modifies this
      ensures View() == Allow(old(View()), key, now) && WellFormed(View())
      ensures dedicated <==> !Diverted(old(View()), key, now)
      ensures dedicated <==> key in seen
    {
      ghost var before := View();
      NextWellFormed(before, Request(key, now));
      RoomWellFormed(before, now);
      if key in seen {
        seen := seen[key := now];
        if !flavour.Endpoint? {
          next := Earlier(next, now + ttl);
        }
        return true;
      }
      MakeRoom(now);
      dedicated := |seen| < capacity;
      if dedicated {
        AddEntry(key, now);
      }
    }
  }

  // ---------- the sharded address limiter ----------

  /** The counter moves with the count of whichever shard a step works on. */
  datatype AddressLimiter = AddressLimiter(shards: seq<Registry>, current: int)

  ghost function ShardStep(l: AddressLimiter, i: nat, step: Step): AddressLimiter
    requires i < |l.shards|
  {
    var shard := Next(l.shards[i], step);
    AddressLimiter(l.shards[i := shard], l.current + shard.count - l.shards[i].count)
  }

  function Entries(shards: seq<Registry>): int {
    if shards == [] then 0 else Entries(shards[..|shards| - 1]) + |shards[|shards| - 1].seen|
  }

  lemma {:induction false} EntriesUpdate(shards: seq<Registry>, i: nat, shard: Registry)
    requires i < |shards|
    ensures Entries(shards[i := shard]) == Entries(shards) + |shard.seen| - |shards[i].seen|
  {
    var n := |shards| - 1;
    if i < n {
      EntriesUpdate(shards[..n], i, shard);
      assert shards[i := shard][..n] == shards[..n][i := shard];
    } else {
      assert shards[i := shard][..n] == shards[..n];
    }
  }

  ghost function RunShards(l: AddressLimiter, steps: seq<(nat, Step)>): AddressLimiter {
    if steps == [] then l
    else
      var before := RunShards(l, steps[..|steps| - 1]);
      var (i, step) := steps[|steps| - 1];
      if i < |before.shards| then ShardStep(before, i, step) else before
  }

  /** The shared counter is the number of entries in all shards together, after any run over any shards. */
  lemma {:induction false} SharedCounterIsTotal(l: AddressLimiter, steps: seq<(nat, Step)>)
    requires l.current == Entries(l.shards) && forall i :: 0 <= i < |l.shards| ==> WellFormed(l.shards[i])
    ensures var l' := RunShards(l, steps);
            l'.current == Entries(l'.shards) && forall i :: 0 <= i < |l'.shards| ==> WellFormed(l'.shards[i])
  {
    if steps != [] {
      SharedCounterIsTotal(l, steps[..|steps| - 1]);
      var before := RunShards(l, steps[..|steps| - 1]);
      var (i, step) := steps[|steps| - 1];
      if i < |before.shards| {
        NextWellFormed(before.shards[i], step);
        EntriesUpdate(before.shards, i, Next(before.shards[i], step));
      }
    }
  }

  // ---------- shared fallback buckets of the user limiter ----------

  datatype SharedBucket = Unused | SharedBucket(rpm: int, lastSeen: int)

  datatype Use = Use(rpm: int, now: int)

  /** A diverted request sets the rate of an idle bucket afresh, and may only lower that of an active one. */
  function UseShared(b: SharedBucket, u: Use, ttl: int): SharedBucket {
    if b.Unused? || b.lastSeen + ttl <= u.now then SharedBucket(u.rpm, u.now)
    else SharedBucket(if u.rpm < b.rpm then u.rpm else b.rpm, u.now)
  }

  function RunShared(uses: seq<Use>, ttl: int): SharedBucket {
    if uses == [] then Unused else UseShared(RunShared(uses[..|uses| - 1], ttl), uses[|uses| - 1], ttl)
  }

  function Readings(uses: seq<Use>): (times: seq<int>)
    ensures |times| == |uses| && forall i :: 0 <= i < |uses| ==> times[i] == uses[i].now
  {
    seq(|uses|, i requires 0 <= i < |uses| => uses[i].now)
  }

  /** `rpm` is the lowest rate asked for from position k on. */
  ghost predicate IsStrictest(uses: seq<Use>, k: nat, rpm: int) {
    && (forall i :: k <= i < |uses| ==> rpm <= uses[i].rpm)
    && (exists i :: k <= i < |uses| && rpm == uses[i].rpm)
  }

  lemma StrictestGrows(uses: seq<Use>, k: nat, rpm: int, u: Use)
    requires IsStrictest(uses, k, rpm)
    ensures IsStrictest(uses + [u], k, if u.rpm < rpm then u.rpm else rpm)
  {
    var longer := uses + [u];
    var i :| k <= i < |uses| && rpm == uses[i].rpm;
    assert longer[i] == uses[i] && longer[|uses|] == u;
  }

  /** The bucket stands for the uses from position k on: the last streak, at its strictest rate. */
  ghost predicate Summarises(b: SharedBucket, uses: seq<Use>, ttl: int, k: nat) {
    && uses != [] && b.SharedBucket? && b.lastSeen == uses[|uses| - 1].now
    && IsStreak(Readings(uses), ttl, k) && IsStrictest(uses, k, b.rpm)
  }

  lemma UseSummarises(b: SharedBucket, uses: seq<Use>, ttl: int, j: nat, u: Use)
    requires Summarises(b, uses, ttl, j)
    ensures Summarises(UseShared(b, u, ttl), uses + [u], ttl, if b.lastSeen + ttl <= u.now then |uses| else j)
  {
    assert Readings(uses + [u]) == Readings(uses) + [u.now];
    StreakGrows(Readings(uses), ttl, j, u.now);
    if b.lastSeen + ttl <= u.now {
      assert (uses + [u])[|uses|] == u;
    } else {
      StrictestGrows(uses, j, b.rpm, u);
    }
  }

  lemma FirstUse(u: Use, ttl: int)
    ensures Summarises(SharedBucket(u.rpm, u.now), [u], ttl, 0)
  {
    assert [u][0] == u;
  }

  /**
   After any sequence of diverted requests, a shared bucket has the strictest rate asked for since it was last
   idle, so it never becomes more permissive while it is in use.
   */
  lemma {:induction false} SharedBucketIsStrictest(uses: seq<Use>, ttl: int) returns (k: nat)
    requires uses != []
    ensures Summarises(RunShared(uses, ttl), uses, ttl, k)
  {
    var before, last := uses[..|uses| - 1], uses[|uses| - 1];
    OneMoreUse(uses, ttl);
    if before == [] {
      k := 0;
      FirstUse(last, ttl);
    } else {
      var j := SharedBucketIsStrictest(before, ttl);
      UseSummarises(RunShared(before, ttl), before, ttl, j, last);
      k := if RunShared(before, ttl).lastSeen + ttl <= last.now then |before| else j;
    }
  }

  lemma OneMoreUse(uses: seq<Use>, ttl: int)
    requires uses != []
    ensures var before, last := uses[..|uses| - 1], uses[|uses| - 1];
            && uses == before + [last]
            && RunShared(uses, ttl) == UseShared(RunShared(before, ttl), last, ttl)
            && (before == [] ==> uses == [last] && RunShared(before, ttl) == Unused)
  {
  }
}
