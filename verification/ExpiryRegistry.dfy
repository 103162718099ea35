/**
 The bounded registries of the rate limiters: per-user, per-address shard, and per authentication
 endpoint. A registry that is full looks for expired entries only when its lazily kept hint has come
 due. Clock readings are positive and come in any order; 0 is Go's zero time.
 */
module ExpiryRegistry {
  import opened Basics

  /** The three implementations differ in strictness at the expiry instant and in what a touch records. */
  datatype Flavour = User | Address | Endpoint

  datatype Registry = Registry(flavour: Flavour, ttl: int, capacity: nat, seen: map<string, int>, next: int, count: int, high: nat)

  const MINIMUM_HIGH_FOR_REBUILD := 256
  const REBUILD_DIVISOR := 4

  // ---------- the operations ----------

  predicate Expired(reg: Registry, lastSeen: int, now: int) {
    if reg.flavour.Address? then lastSeen < now - reg.ttl else lastSeen + reg.ttl <= now
  }

  predicate Due(reg: Registry, now: int) {
    reg.next == 0 || (if reg.flavour.Address? then now > reg.next else now >= reg.next)
  }

  function Earlier(next: int, expiry: int): int {
    if next == 0 || expiry < next then expiry else next
  }

  /** recordPotentialExpiryLocked */
  function Record(reg: Registry, lastSeen: int): Registry {
    reg.(next := Earlier(reg.next, lastSeen + reg.ttl))
  }

  /** A request of an identity that has an entry; the endpoint registry leaves its hint alone. */
  function Touch(reg: Registry, key: string, now: int): Registry {
    var touched := reg.(seen := reg.seen[key := now]);
    if reg.flavour.Endpoint? then touched else Record(touched, now)
  }

  function Kept(reg: Registry, now: int): map<string, int> {
    map k | k in reg.seen && !Expired(reg, reg.seen[k], now) :: reg.seen[k]
  }

  function Expiries(reg: Registry, seen: map<string, int>): set<int> {
    set k | k in seen :: seen[k] + reg.ttl
  }

  ghost function Cleaned(reg: Registry, now: int): Registry {
    var kept := Kept(reg, now);
    var times := Expiries(reg, kept);
    reg.(seen := kept, next := if exists t :: t in times then Earliest(times) else 0, count := reg.count - (|reg.seen| - |kept|))
  }

  /** Only address shards shrink the map they keep after a burst. */
  function Rebuilt(reg: Registry): Registry {
    if reg.flavour.Address? && reg.high >= MINIMUM_HIGH_FOR_REBUILD && |reg.seen| <= reg.high / REBUILD_DIVISOR
    then reg.(high := |reg.seen|) else reg
  }

  ghost function Cleanup(reg: Registry, now: int): Registry {
    Rebuilt(Cleaned(reg, now))
  }

  ghost function Room(reg: Registry, now: int): Registry {
    if |reg.seen| >= reg.capacity && Due(reg, now) then Cleanup(reg, now) else reg
  }

  function Add(reg: Registry, key: string, now: int): Registry {
    var added := Record(reg.(seen := reg.seen[key := now], count := reg.count + 1), now);
    if reg.flavour.Address? && |added.seen| > added.high then added.(high := |added.seen|) else added
  }

  /** allowAt and allowAuthRequest */
  ghost function Allow(reg: Registry, key: string, now: int): Registry {
    if key in reg.seen then Touch(reg, key, now)
    else if |Room(reg, now).seen| < reg.capacity then Add(Room(reg, now), key, now)
    else Room(reg, now)
  }

  /** The request is answered from a shared fallback bucket. */
  ghost predicate Diverted(reg: Registry, key: string, now: int) {
    key !in reg.seen && |Room(reg, now).seen| >= reg.capacity
  }

  datatype Step = Request(key: string, now: int) | Sweep(now: int)

  ghost function Next(reg: Registry, step: Step): Registry {
    if step.now <= 0 then reg
    else
      match step
      case Request(key, now) => Allow(reg, key, now)
      case Sweep(now) => Cleanup(reg, now)
  }

  ghost function Run(reg: Registry, steps: seq<Step>): Registry {
    if steps == [] then reg else Next(Run(reg, steps[..|steps| - 1]), steps[|steps| - 1])
  }

  function New(flavour: Flavour, ttl: int, capacity: nat): Registry {
    Registry(flavour, ttl, capacity, map[], 0, 0, 0)
  }

  // ---------- counters ----------

  ghost predicate WellFormed(reg: Registry) {
    && reg.count == |reg.seen| <= reg.capacity && reg.ttl > 0
    && (forall k :: k in reg.seen ==> reg.seen[k] > 0)
    && (reg.flavour.Address? ==> |reg.seen| <= reg.high)
    && (reg.next == 0 ==> reg.seen == map[])
  }

  lemma KeptSize(reg: Registry, now: int)
    ensures |Kept(reg, now)| <= |reg.seen|
  {
    var kept := Kept(reg, now);
    assert kept.Keys <= reg.seen.Keys;
    SubsetSize(kept.Keys, reg.seen.Keys);
    assert |kept| == |kept.Keys| && |reg.seen| == |reg.seen.Keys|;
  }

  lemma CleanupWellFormed(reg: Registry, now: int)
    requires WellFormed(reg)
    ensures WellFormed(Cleanup(reg, now))
  {
    KeptSize(reg, now);
    var kept := Kept(reg, now);
    var times := Expiries(reg, kept);
    if kept != map[] {
      var k :| k in kept;
      assert kept[k] + reg.ttl in times;
    }
    if (exists t :: t in times) {
      assert Earliest(times) > 0;
    }
  }

  predicate SameConfig(reg: Registry, reg': Registry) {
    reg'.flavour == reg.flavour && reg'.ttl == reg.ttl && reg'.capacity == reg.capacity
  }

  lemma RoomWellFormed(reg: Registry, now: int)
    requires WellFormed(reg)
    ensures WellFormed(Room(reg, now)) && SameConfig(reg, Room(reg, now))
    ensures Room(reg, now).seen.Keys <= reg.seen.Keys
  {
    CleanupWellFormed(reg, now);
  }

  lemma AddWellFormed(reg: Registry, key: string, now: int)
    requires WellFormed(reg) && key !in reg.seen && |reg.seen| < reg.capacity && now > 0
    ensures WellFormed(Add(reg, key, now)) && SameConfig(reg, Add(reg, key, now))
  {
  }

  lemma NextWellFormed(reg: Registry, step: Step)
    requires WellFormed(reg)
    ensures WellFormed(Next(reg, step)) && SameConfig(reg, Next(reg, step))
  {
    CleanupWellFormed(reg, step.now);
    if step.Request? && step.now > 0 && step.key !in reg.seen {
      RoomWellFormed(reg, step.now);
      if |Room(reg, step.now).seen| < reg.capacity {
        AddWellFormed(Room(reg, step.now), step.key, step.now);
      }
    }
  }

  lemma {:induction false} RunWellFormed(reg: Registry, steps: seq<Step>)
    requires WellFormed(reg)
    ensures WellFormed(Run(reg, steps)) && SameConfig(reg, Run(reg, steps))
  {
    if steps != [] {
      RunWellFormed(reg, steps[..|steps| - 1]);
      NextWellFormed(Run(reg, steps[..|steps| - 1]), steps[|steps| - 1]);
    }
  }

  // ---------- the hint ----------

  /** The hint is at or before the expiry of every entry. */
  ghost predicate HintSafe(reg: Registry) {
    forall k :: k in reg.seen ==> reg.next <= reg.seen[k] + reg.ttl
  }

  lemma CleanupHintSafe(reg: Registry, now: int)
    ensures HintSafe(Cleanup(reg, now))
    ensures forall k :: k in Cleanup(reg, now).seen ==> !Expired(reg, Cleanup(reg, now).seen[k], now)
  {
    var kept := Kept(reg, now);
    var times := Expiries(reg, kept);
    forall k | k in kept ensures kept[k] + reg.ttl in times {
    }
  }

  lemma NextHintSafe(reg: Registry, step: Step)
    requires WellFormed(reg) && HintSafe(reg) && !reg.flavour.Endpoint?
    ensures HintSafe(Next(reg, step))
  {
    RequestHintSafe(reg, step);
  }

  lemma RequestHintSafe(reg: Registry, step: Step)
    requires WellFormed(reg) && HintSafe(reg)
    ensures (step.Request? && step.key in reg.seen && reg.flavour.Endpoint?) || HintSafe(Next(reg, step))
  {
    CleanupHintSafe(reg, step.now);
    RoomWellFormed(reg, step.now);
  }

  lemma {:induction false} RunHintSafe(reg: Registry, steps: seq<Step>)
    requires WellFormed(reg) && HintSafe(reg) && !reg.flavour.Endpoint?
    ensures HintSafe(Run(reg, steps))
  {
    if steps != [] {
      RunWellFormed(reg, steps[..|steps| - 1]);
      RunHintSafe(reg, steps[..|steps| - 1]);
      NextHintSafe(Run(reg, steps[..|steps| - 1]), steps[|steps| - 1]);
    }
  }

  lemma SafeDiversion(reg: Registry, key: string, now: int, k: string)
    requires WellFormed(reg) && HintSafe(reg) && Diverted(reg, key, now) && k in Room(reg, now).seen
    ensures !Expired(reg, Room(reg, now).seen[k], now)
  {
    CleanupHintSafe(reg, now);
  }

  /**
   User registries and address shards: after any run, with clock readings in any order, a new identity is
   diverted only from a registry none of whose entries has expired. The counter is the size of the map.
   */
  lemma NeverDivertsNeedlessly(flavour: Flavour, ttl: int, capacity: nat, steps: seq<Step>, key: string, now: int)
    requires ttl > 0 && !flavour.Endpoint?
    ensures var reg := Run(New(flavour, ttl, capacity), steps);
            && reg.count == |reg.seen| <= capacity
            && (Diverted(reg, key, now) ==>
                  forall k :: k in Room(reg, now).seen ==> !Expired(reg, Room(reg, now).seen[k], now))
  {
    var reg := Run(New(flavour, ttl, capacity), steps);
    RunWellFormed(New(flavour, ttl, capacity), steps);
    RunHintSafe(New(flavour, ttl, capacity), steps);
    if Diverted(reg, key, now) {
      forall k | k in Room(reg, now).seen ensures !Expired(reg, Room(reg, now).seen[k], now) {
        SafeDiversion(reg, key, now, k);
      }
    }
  }

  /** Seen within the idle time; an address still counts at the very instant the time is up. */
  predicate Alive(flavour: Flavour, ttl: int, lastSeen: int, now: int) {
    if flavour.Address? then now <= lastSeen + ttl else now < lastSeen + ttl
  }

  /** The entries of identities whose last request was within the idle time. */
  function AliveKeys(reg: Registry, now: int): set<string> {
    set k | k in reg.seen && Alive(reg.flavour, reg.ttl, reg.seen[k], now)
  }

  lemma AliveAreKept(reg: Registry, now: int)
    ensures Kept(reg, now).Keys == AliveKeys(reg, now) && |Kept(reg, now)| == |AliveKeys(reg, now)|
    ensures AliveKeys(reg, now) <= reg.seen.Keys && |AliveKeys(reg, now)| <= |reg.seen|
  {
    assert |Kept(reg, now)| == |Kept(reg, now).Keys| && |reg.seen| == |reg.seen.Keys|;
    SubsetSize(AliveKeys(reg, now), reg.seen.Keys);
  }

  /**
   User registries and address shards: after any run, with clock readings in any order, a request is diverted if and
   only if its identity has no entry and as many others as the capacity made their last request within the idle time.
   */
  lemma DivertedIffFullOfLive(flavour: Flavour, ttl: int, capacity: nat, steps: seq<Step>, key: string, now: int)
    requires ttl > 0 && !flavour.Endpoint?
    ensures var reg := Run(New(flavour, ttl, capacity), steps);
            Diverted(reg, key, now) <==> key !in reg.seen && |AliveKeys(reg, now)| == capacity
  {
    var reg := Run(New(flavour, ttl, capacity), steps);
    RunWellFormed(New(flavour, ttl, capacity), steps);
    RunHintSafe(New(flavour, ttl, capacity), steps);
    AliveAreKept(reg, now);
    if |reg.seen| == capacity && !Due(reg, now) {
      AllAlive(reg, now);
    }
  }

  lemma AllAlive(reg: Registry, now: int)
    requires WellFormed(reg) && HintSafe(reg) && !Due(reg, now) && !reg.flavour.Endpoint?
    ensures |AliveKeys(reg, now)| == |reg.seen|
  {
    assert AliveKeys(reg, now) == reg.seen.Keys;
    assert |reg.seen| == |reg.seen.Keys|;
  }

  // ---------- what an entry says ----------

  /** The clock reading of an identity's last request in a run. */
  function LastRequest(steps: seq<Step>, key: string): Option<int> {
    if steps == [] then None
    else
      var step := steps[|steps| - 1];
      if step.Request? && step.key == key && step.now > 0 then Some(step.now) else LastRequest(steps[..|steps| - 1], key)
  }

  lemma NextSeen(reg: Registry, step: Step, key: string)
    requires key in Next(reg, step).seen
    ensures Next(reg, step).seen[key]
            == if step.Request? && step.key == key && step.now > 0 then step.now
               else if key in reg.seen then reg.seen[key] else 0
  {
  }

  /** After any run an entry, of any registry, holds the reading of its identity's last request. */
  lemma {:induction false} SeenIsLastRequest(flavour: Flavour, ttl: int, capacity: nat, steps: seq<Step>, key: string)
    requires ttl > 0
    ensures var reg := Run(New(flavour, ttl, capacity), steps);
            key in reg.seen ==> LastRequest(steps, key) == Some(reg.seen[key])
  {
    if steps != [] {
      var before := Run(New(flavour, ttl, capacity), steps[..|steps| - 1]);
      SeenIsLastRequest(flavour, ttl, capacity, steps[..|steps| - 1], key);
      if key in Run(New(flavour, ttl, capacity), steps).seen {
        NextSeen(before, steps[|steps| - 1], key);
        RunWellFormed(New(flavour, ttl, capacity), steps);
      }
    }
  }

  lemma OnlyExpiredForgotten(reg: Registry, step: Step, key: string)
    requires key in reg.seen && key !in Next(reg, step).seen
    ensures step.now > 0 && Expired(reg, reg.seen[key], step.now)
  {
  }

  /**
   Over any run, an identity that had an entry and later has none lost it at a step by whose reading its last request
   until then had expired.
   */
  lemma {:induction false} ForgottenOnlyAfterExpiry(flavour: Flavour, ttl: int, capacity: nat, steps: seq<Step>, i: nat, j: nat, key: string)
    returns (k: nat)
    requires ttl > 0 && i <= j <= |steps|
    requires key in Run(New(flavour, ttl, capacity), steps[..i]).seen && key !in Run(New(flavour, ttl, capacity), steps[..j]).seen
    ensures i <= k < j && LastRequest(steps[..k], key).Some?
    ensures Expired(New(flavour, ttl, capacity), LastRequest(steps[..k], key).value, steps[k].now)
    decreases j
  {
    var before := Run(New(flavour, ttl, capacity), steps[..j - 1]);
    assert i < j && steps[..j][..j - 1] == steps[..j - 1];
    if key in before.seen {
      k := j - 1;
      OnlyExpiredForgotten(before, steps[k], key);
      SeenIsLastRequest(flavour, ttl, capacity, steps[..k], key);
      RunWellFormed(New(flavour, ttl, capacity), steps[..k]);
    } else {
      k := ForgottenOnlyAfterExpiry(flavour, ttl, capacity, steps, i, j - 1, key);
    }
  }

  // ---------- needless diversions ----------

  /** A diversion of `key` at `now` while some entry could have been removed. */
  ghost predicate NeedlessDiversion(reg: Registry, key: string, now: int) {
    Diverted(reg, key, now) && exists k :: k in Room(reg, now).seen && Expired(reg, Room(reg, now).seen[k], now)
  }
}
