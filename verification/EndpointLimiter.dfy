/**
 The registry of one rate-limited authentication endpoint. Unlike the other registries it does not
 record the expiry of an entry it touches; but every request first sweeps all registries when the
 last sweep is five minutes old, and a sweep sets the hint exactly. Whether a late hint can matter
 depends on both.
 */
module EndpointLimiter {
  import opened Basics
  import opened ExpiryRegistry

  /** authProtectorCleanupInterval and authRateLimiterIdleTTL, in nanoseconds */
  const CLEANUP_INTERVAL: int := 300_000_000_000
  const IDLE_TTL: int := 1_800_000_000_000

  /** A registry with the time of the last sweep, which all endpoints and the login attempts share. */
  datatype Limiter = Limiter(reg: Registry, lastCleanup: int)

  /** cleanupLocked */
  ghost function Swept(e: Limiter, now: int): Limiter {
    if now - e.lastCleanup < CLEANUP_INTERVAL then e else Limiter(Cleanup(e.reg, now), now)
  }

  /** allowAuthRequest; a Sweep is a request for another endpoint, or a login attempt. */
  ghost function Next(e: Limiter, step: Step): Limiter {
    if step.now <= 0 then e
    else
      match step
      case Request(key, now) => Limiter(Allow(Swept(e, now).reg, key, now), Swept(e, now).lastCleanup)
      case Sweep(now) => Swept(e, now)
  }

  ghost function Run(e: Limiter, steps: seq<Step>): Limiter {
    if steps == [] then e else Next(Run(e, steps[..|steps| - 1]), steps[|steps| - 1])
  }

  function New(capacity: nat, now: int): Limiter {
    Limiter(ExpiryRegistry.New(Endpoint, IDLE_TTL, capacity), now)
  }

  /** The request is sent to a shared bucket although an entry could have been removed for it. */
  ghost predicate NeedlesslyDiverted(e: Limiter, key: string, now: int) {
    NeedlessDiversion(Swept(e, now).reg, key, now)
  }

  ghost predicate Valid(e: Limiter) {
    WellFormed(e.reg) && e.reg.flavour.Endpoint? && e.reg.ttl >= CLEANUP_INTERVAL
  }

  lemma SweptValid(e: Limiter, now: int)
    requires Valid(e)
    ensures Valid(Swept(e, now)) && SameConfig(e.reg, Swept(e, now).reg)
  {
    CleanupWellFormed(e.reg, now);
  }

  lemma NextValid(e: Limiter, step: Step)
    requires Valid(e)
    ensures Valid(Next(e, step)) && SameConfig(e.reg, Next(e, step).reg)
  {
    SweptValid(e, step.now);
    NextWellFormed(Swept(e, step.now).reg, step);
  }

  lemma {:induction false} RunValid(e: Limiter, steps: seq<Step>)
    requires Valid(e)
    ensures Valid(Run(e, steps)) && SameConfig(e.reg, Run(e, steps).reg)
  {
    if steps != [] {
      RunValid(e, steps[..|steps| - 1]);
      NextValid(Run(e, steps[..|steps| - 1]), steps[|steps| - 1]);
    }
  }

  // ---------- a limiter is a registry ----------

  /** What a step of the limiter is for its registry. */
  function AsSteps(e: Limiter, step: Step): seq<Step> {
    if step.now <= 0 then []
    else
      (if step.now - e.lastCleanup < CLEANUP_INTERVAL then [] else [Sweep(step.now)]) + (if step.Request? then [step] else [])
  }

  ghost function RunSteps(e: Limiter, steps: seq<Step>): seq<Step> {
    if steps == [] then [] else RunSteps(e, steps[..|steps| - 1]) + AsSteps(Run(e, steps[..|steps| - 1]), steps[|steps| - 1])
  }

  lemma OneMore(reg: Registry, steps: seq<Step>, step: Step)
    ensures ExpiryRegistry.Run(reg, steps + [step]) == ExpiryRegistry.Next(ExpiryRegistry.Run(reg, steps), step)
  {
    assert (steps + [step])[..|steps|] == steps;
  }

  lemma StepIsSteps(e: Limiter, reg: Registry, before: seq<Step>, step: Step)
    requires ExpiryRegistry.Run(reg, before) == e.reg
    ensures ExpiryRegistry.Run(reg, before + AsSteps(e, step)) == Next(e, step).reg
  {
    var swept := if step.now - e.lastCleanup < CLEANUP_INTERVAL then [] else [Sweep(step.now)];
    OneMore(reg, before, Sweep(step.now));
    OneMore(reg, before + swept, step);
    assert before + [] == before;
    assert before + swept + [step] == before + (swept + [step]) && before + swept + [] == before + swept;
  }

  /** The registry of a run is a run of a registry, so what holds of every registry holds of it. */
  lemma {:induction false} RegistryIsARun(e: Limiter, steps: seq<Step>)
    ensures Run(e, steps).reg == ExpiryRegistry.Run(e.reg, RunSteps(e, steps))
  {
    if steps != [] {
      RegistryIsARun(e, steps[..|steps| - 1]);
      StepIsSteps(Run(e, steps[..|steps| - 1]), e.reg, RunSteps(e, steps[..|steps| - 1]), steps[|steps| - 1]);
    }
  }

  // ---------- when a late hint matters ----------

  /** Some entry expires before the hint, and before the next sweep is due. */
  ghost predicate AtRisk(e: Limiter) {
    exists k :: k in e.reg.seen && Exposed(e, e.reg.seen[k])
  }

  predicate Exposed(e: Limiter, seen: int) {
    seen + e.reg.ttl < e.reg.next && seen + e.reg.ttl < e.lastCleanup + CLEANUP_INTERVAL
  }

  lemma SweepEndsRisk(e: Limiter, now: int)
    requires now - e.lastCleanup >= CLEANUP_INTERVAL
    ensures !AtRisk(Swept(e, now)) && HintSafe(Swept(e, now).reg)
  {
    CleanupHintSafe(e.reg, now);
  }

  /** Without risk no request, of whatever identity and at whatever time, is diverted needlessly. */
  lemma NoRiskNoNeed(e: Limiter, key: string, now: int)
    requires Valid(e) && !AtRisk(e)
    ensures !NeedlesslyDiverted(e, key, now)
  {
    SweptValid(e, now);
    if now - e.lastCleanup >= CLEANUP_INTERVAL {
      SweepEndsRisk(e, now);
      NoExpiredLeft(Swept(e, now).reg, key, now);
    } else {
      forall k | k in Room(e.reg, now).seen && Diverted(e.reg, key, now) ensures !Expired(e.reg, Room(e.reg, now).seen[k], now) {
        if Due(e.reg, now) {
          CleanupHintSafe(e.reg, now);
        } else {
          assert !Exposed(e, e.reg.seen[k]);
        }
      }
    }
  }

  lemma NoExpiredLeft(reg: Registry, key: string, now: int)
    requires WellFormed(reg) && HintSafe(reg)
    ensures !NeedlessDiversion(reg, key, now)
  {
    if Diverted(reg, key, now) {
      forall k | k in Room(reg, now).seen ensures !Expired(reg, Room(reg, now).seen[k], now) {
        SafeDiversion(reg, key, now, k);
      }
    }
  }

  /** A new identity can be diverted needlessly at some time if and only if the registry is full and some entry is exposed. */
  lemma DivertsNeedlesslyIffAtRisk(e: Limiter, key: string)
    requires Valid(e) && key !in e.reg.seen
    ensures (exists now :: now > 0 && NeedlesslyDiverted(e, key, now)) <==> |e.reg.seen| >= e.reg.capacity && AtRisk(e)
  {
    if |e.reg.seen| >= e.reg.capacity && AtRisk(e) {
      var k :| k in e.reg.seen && Exposed(e, e.reg.seen[k]);
      var now := e.reg.seen[k] + e.reg.ttl;
      assert Swept(e, now) == e && Room(e.reg, now) == e.reg;
      assert Expired(e.reg, Room(e.reg, now).seen[k], now);
      assert NeedlesslyDiverted(e, key, now);
    }
    if now :| now > 0 && NeedlesslyDiverted(e, key, now) {
      if !AtRisk(e) {
        NoRiskNoNeed(e, key, now);
        assert false;
      }
      FullWhenDiverted(e, key, now);
    }
  }

  lemma FullWhenDiverted(e: Limiter, key: string, now: int)
    requires Valid(e) && NeedlesslyDiverted(e, key, now)
    ensures |e.reg.seen| >= e.reg.capacity
  {
    KeptSize(e.reg, now);
    KeptSize(Swept(e, now).reg, now);
  }

  /**
   A step puts a registry at risk if and only if it is a request of a known identity whose reading expires before the
   hint and before the next sweep is due.
   */
  lemma StepCreatesRiskIff(e: Limiter, step: Step)
    requires Valid(e) && !AtRisk(e) && step.now > 0
    ensures AtRisk(Next(e, step)) <==> step.Request? && step.key in e.reg.seen && Exposed(e, step.now)
  {
    if step.now - e.lastCleanup >= CLEANUP_INTERVAL {
      SweptStep(e, step);
    } else if step.Request? {
      UnsweptRequest(e, step);
    }
  }

  /** A request that sweeps first leaves every entry with at least the interval to go. */
  lemma SweptStep(e: Limiter, step: Step)
    requires Valid(e) && step.now > 0 && step.now - e.lastCleanup >= CLEANUP_INTERVAL
    ensures !AtRisk(Next(e, step))
  {
    SweptValid(e, step.now);
    SweepEndsRisk(e, step.now);
    if step.Request? {
      RequestHintSafe(Swept(e, step.now).reg, step);
    }
  }

  lemma UnsweptRequest(e: Limiter, step: Step)
    requires Valid(e) && !AtRisk(e) && step.Request? && step.now > 0 && step.now - e.lastCleanup < CLEANUP_INTERVAL
    ensures AtRisk(Next(e, step)) <==> step.key in e.reg.seen && Exposed(e, step.now)
  {
    if step.key in e.reg.seen {
      TouchRisk(e, step.key, step.now);
    } else {
      NewKeyNoRisk(e, step);
    }
  }

  lemma TouchRisk(e: Limiter, key: string, now: int)
    requires Valid(e) && !AtRisk(e) && key in e.reg.seen
    ensures AtRisk(e.(reg := Touch(e.reg, key, now))) <==> Exposed(e, now)
  {
    var e' := e.(reg := Touch(e.reg, key, now));
    assert e'.reg.seen[key] == now;
    forall k | k in e'.reg.seen ensures Exposed(e', e'.reg.seen[k]) <==> k == key && Exposed(e, now) {
    }
  }

  lemma NewKeyNoRisk(e: Limiter, step: Step)
    requires Valid(e) && !AtRisk(e) && step.Request? && step.now > 0 && step.now - e.lastCleanup < CLEANUP_INTERVAL
    requires step.key !in e.reg.seen
    ensures !AtRisk(Next(e, step))
  {
    CleanupHintSafe(e.reg, step.now);
    RoomWellFormed(e.reg, step.now);
  }

  // ---------- runs ----------

  /** No request reads a clock so far behind the last sweep that its entry would expire before the next one is due. */
  ghost predicate Timely(e: Limiter, steps: seq<Step>) {
    forall i :: 0 <= i < |steps| && steps[i].Request? ==>
      steps[i].now + e.reg.ttl >= Run(e, steps[..i]).lastCleanup + CLEANUP_INTERVAL
  }

  lemma {:induction false} TimelyRunNoRisk(e: Limiter, steps: seq<Step>)
    requires Valid(e) && !AtRisk(e) && Timely(e, steps)
    ensures !AtRisk(Run(e, steps))
  {
    if steps != [] {
      var before, step := steps[..|steps| - 1], steps[|steps| - 1];
      assert Timely(e, before) by {
        forall i | 0 <= i < |before| && before[i].Request?
          ensures before[i].now + e.reg.ttl >= Run(e, before[..i]).lastCleanup + CLEANUP_INTERVAL
        {
          assert before[..i] == steps[..i] && before[i] == steps[i];
        }
      }
      TimelyRunNoRisk(e, before);
      RunValid(e, before);
      if step.now > 0 {
        StepCreatesRiskIff(Run(e, before), step);
      }
    }
  }

  /**
   Over any run in which no request reads a time more than the idle time less the interval behind the last sweep, an
   endpoint never diverts a request while it holds an expired entry, and its counter is the size of its map.
   */
  lemma TimelyRunNeverDivertsNeedlessly(capacity: nat, start: int, steps: seq<Step>, key: string, now: int)
    requires Timely(New(capacity, start), steps)
    ensures var e := Run(New(capacity, start), steps);
            !NeedlesslyDiverted(e, key, now) && e.reg.count == |e.reg.seen| <= capacity
  {
    TimelyRunNoRisk(New(capacity, start), steps);
    RunValid(New(capacity, start), steps);
    NoRiskNoNeed(Run(New(capacity, start), steps), key, now);
  }

  predicate Ordered(steps: seq<Step>, start: int) {
    && (forall i :: 0 <= i < |steps| ==> start <= steps[i].now)
    && (forall i, j :: 0 <= i < j < |steps| ==> steps[i].now <= steps[j].now)
  }

  lemma LastSweep(e: Limiter, step: Step)
    ensures Next(e, step).lastCleanup == e.lastCleanup || Next(e, step).lastCleanup == step.now
  {
  }

  lemma {:induction false} SweptByThen(e: Limiter, steps: seq<Step>, n: nat)
    requires n <= |steps| && Ordered(steps, e.lastCleanup)
    ensures Run(e, steps[..n]).lastCleanup <= if n == 0 then e.lastCleanup else steps[n - 1].now
  {
    if n > 0 {
      SweptByThen(e, steps, n - 1);
      assert steps[..n][..n - 1] == steps[..n - 1];
      LastSweep(Run(e, steps[..n - 1]), steps[n - 1]);
      assert n > 1 ==> steps[n - 2].now <= steps[n - 1].now;
    }
  }

  /** A clock that does not go back is timely. */
  lemma OrderedIsTimely(e: Limiter, steps: seq<Step>)
    requires Valid(e) && Ordered(steps, e.lastCleanup)
    ensures Timely(e, steps)
  {
    forall i | 0 <= i < |steps| && steps[i].Request?
      ensures steps[i].now + e.reg.ttl >= Run(e, steps[..i]).lastCleanup + CLEANUP_INTERVAL
    {
      SweptByThen(e, steps, i);
      assert i > 0 ==> steps[i - 1].now <= steps[i].now;
    }
  }

  // ---------- the exception is real ----------

  const MINUTE: int := 60_000_000_000

  const ONE_SEEN: Limiter := Limiter(Registry(Endpoint, IDLE_TTL, 1, map["a" := 2], 2 + IDLE_TTL, 1, 0), 1)
  const SWEPT_LATER: Limiter := ONE_SEEN.(lastCleanup := 26 * MINUTE)
  const READ_LATE: Limiter := Limiter(Registry(Endpoint, IDLE_TTL, 1, map["a" := 1], 2 + IDLE_TTL, 1, 0), 26 * MINUTE)

  lemma ReachOneSeen()
    ensures Next(New(1, 1), Request("a", 2)) == ONE_SEEN
  {
    assert Room(New(1, 1).reg, 2) == New(1, 1).reg;
  }

  lemma ReachSweptLater()
    ensures Next(ONE_SEEN, Sweep(26 * MINUTE)) == SWEPT_LATER
  {
    assert Kept(ONE_SEEN.reg, 26 * MINUTE) == ONE_SEEN.reg.seen;
    var times := Expiries(ONE_SEEN.reg, ONE_SEEN.reg.seen);
    assert "a" in ONE_SEEN.reg.seen && ONE_SEEN.reg.seen["a"] + IDLE_TTL in times;
    assert forall t :: t in times ==> t == 2 + IDLE_TTL;
  }

  lemma ReachReadLate()
    ensures Next(SWEPT_LATER, Request("a", 1)) == READ_LATE
  {
  }

  /**
   An address first seen at 2 and again by a request that read 1 but came after a sweep at 26 minutes: half an hour
   after 1 its entry has expired, and another address is diverted all the same.
   */
  lemma CanDivertNeedlessly()
    ensures var e := Run(New(1, 1), [Request("a", 2), Sweep(26 * MINUTE), Request("a", 1)]);
            NeedlesslyDiverted(e, "b", 1 + IDLE_TTL)
  {
    var steps := [Request("a", 2), Sweep(26 * MINUTE), Request("a", 1)];
    assert steps[..2][..1] == steps[..1] && steps[..1][..0] == [];
    assert Run(New(1, 1), []) == New(1, 1);
    assert Run(New(1, 1), steps[..1]) == Next(New(1, 1), steps[0]);
    assert Run(New(1, 1), steps[..2]) == Next(Run(New(1, 1), steps[..1]), steps[1]);
    ReachOneSeen();
    ReachSweptLater();
    ReachReadLate();
    assert Run(New(1, 1), steps) == READ_LATE;
    assert Room(READ_LATE.reg, 1 + IDLE_TTL) == READ_LATE.reg;
    assert "a" in READ_LATE.reg.seen;
  }
}
