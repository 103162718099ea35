/**
 The protector object: fields changed in place under its mutex, with the cleanup scan as a loop.
 Each method is proved to take exactly the steps of LoginRuns.
 */
module AuthProtectorObject {
  import opened Basics
  import opened LoginProtector
  import opened LoginRuns
  import opened LoginAdmission
  import ExpiryRegistry
  import EndpointLimiter
  import RateLimiters

  // ---------- the cleanup scan ----------

  /** What a scan has built up so far. */
  datatype Scan = Scan(entries: map<string, Ref>, removed: int, known: bool, next: int)

  predicate Idle(e: Entry, window: int) {
    e.inFlight == 0 && Expiry(e, window) != 0
  }

  /** One turn of the scan's loop. */
  function Look(scan: Scan, key: string, e: Entry, window: int, now: int): Scan {
    if Removable(e, window, now) then scan.(entries := scan.entries - {key}, removed := scan.removed + 1)
    else if Idle(e, window) && (!scan.known || Expiry(e, window) < scan.next)
    then scan.(known := true, next := Expiry(e, window))
    else scan
  }

  ghost predicate EntriesOk(entries: map<string, Ref>, heap: map<Ref, Entry>, reg: Registry, window: int, now: int, todo: set<string>) {
    && (forall k :: k in entries ==> k in reg.entries && entries[k] == reg.entries[k])
    && (forall k :: k in reg.entries ==> (k in entries <==> k in todo || !Removable(At(heap, reg.entries[k]), window, now)))
  }

  /** The hint is the earliest expiry of the idle entries looked at and kept. */
  ghost predicate HintOk(scan: Scan, heap: map<Ref, Entry>, window: int, todo: set<string>) {
    && (forall k :: k in scan.entries && k !in todo && Idle(At(heap, scan.entries[k]), window) ==>
          scan.known && scan.next <= Expiry(At(heap, scan.entries[k]), window))
    && (scan.known ==> exists k :: k in scan.entries && k !in todo && Idle(At(heap, scan.entries[k]), window)
                                   && scan.next == Expiry(At(heap, scan.entries[k]), window))
    && (!scan.known ==> scan.next == 0)
  }

  lemma LookEntries(scan: Scan, heap: map<Ref, Entry>, reg: Registry, window: int, now: int, todo: set<string>, key: string)
    requires EntriesOk(scan.entries, heap, reg, window, now, todo) && key in todo && todo <= reg.entries.Keys
    ensures key in scan.entries
    ensures EntriesOk(Look(scan, key, At(heap, scan.entries[key]), window, now).entries, heap, reg, window, now, todo - {key})
  {
  }

  lemma LookHint(scan: Scan, heap: map<Ref, Entry>, window: int, now: int, todo: set<string>, key: string)
    requires HintOk(scan, heap, window, todo) && key in todo && key in scan.entries
    ensures HintOk(Look(scan, key, At(heap, scan.entries[key]), window, now), heap, window, todo - {key})
  {
    var e := At(heap, scan.entries[key]);
    var scan' := Look(scan, key, e, window, now);
    if scan.known {
      var k :| k in scan.entries && k !in todo && Idle(At(heap, scan.entries[k]), window)
               && scan.next == Expiry(At(heap, scan.entries[k]), window);
      assert k in scan'.entries && k !in todo - {key};
    }
  }

  lemma LookCounts(scan: Scan, key: string, e: Entry, window: int, now: int)
    requires key in scan.entries
    ensures var scan' := Look(scan, key, e, window, now);
            scan'.removed + |scan'.entries| == scan.removed + |scan.entries|
  {
    assert (scan.entries - {key}).Keys == scan.entries.Keys - {key};
    assert |(scan.entries - {key}).Keys| == |scan.entries - {key}|;
  }

  lemma ScanIsCleanup(scan: Scan, heap: map<Ref, Entry>, reg: Registry, window: int, now: int)
    requires EntriesOk(scan.entries, heap, reg, window, now, {}) && HintOk(scan, heap, window, {})
    requires scan.removed + |scan.entries| == |reg.entries|
    ensures reg.(entries := scan.entries, known := scan.known, next := scan.next, count := reg.count - scan.removed)
            == Cleanup(heap, reg, window, now)
  {
    assert scan.entries == Kept(heap, reg, window, now);
    var times := IdleExpiries(heap, scan.entries, window);
    if scan.known {
      assert scan.next in times;
      assert IsEarliest(scan.next, times);
    }
  }

  /** cleanupLoginFailuresLocked and cleanupUsernameFailuresLocked; a map is scanned in any order. */
  method CleanupRegistry(heap: map<Ref, Entry>, reg: Registry, window: int, now: int) returns (r: Registry)
    ensures r == Cleanup(heap, reg, window, now)
    ensures forall k :: k in r.entries <==>
              k in reg.entries && var e := At(heap, reg.entries[k]);
                                  e.inFlight != 0 || (e.lastFailure != 0 && e.lastFailure + window > now) || e.lockedUntil > now
  {
    var scan := Scan(reg.entries, 0, false, 0);
    var todo := reg.entries.Keys;
    while todo != {}
      invariant todo <= reg.entries.Keys
      invariant EntriesOk(scan.entries, heap, reg, window, now, todo) && HintOk(scan, heap, window, todo)
      invariant scan.removed + |scan.entries| == |reg.entries|
    {
      var key :| key in todo;
      LookEntries(scan, heap, reg, window, now, todo, key);
      LookHint(scan, heap, window, now, todo, key);
      LookCounts(scan, key, At(heap, scan.entries[key]), window, now);
      scan := Look(scan, key, At(heap, scan.entries[key]), window, now);
      todo := todo - {key};
    }
    ScanIsCleanup(scan, heap, reg, window, now);
    r := reg.(entries := scan.entries, known := scan.known, next := scan.next, count := reg.count - scan.removed);
  }

  // ---------- the object ----------

  /** Only one side of one attempt may differ. */
  ghost predicate OnlySide(attempts: Attempts, attempts': Attempts, id: AttemptId, kind: Kind) {
    && (forall x :: x != id ==> AttemptOf(attempts', x) == AttemptOf(attempts, x))
    && (kind.Source? ==> AttemptOf(attempts', id).username == AttemptOf(attempts, id).username)
    && (kind.Username? ==> AttemptOf(attempts', id).source == AttemptOf(attempts, id).source)
  }

  ghost predicate EndpointsOk(endpoints: seq<ExpiryRegistry.Registry>) {
    forall i :: 0 <= i < |endpoints| ==> endpoints[i].flavour.Endpoint? && ExpiryRegistry.WellFormed(endpoints[i])
  }

  /** Every endpoint registry has been cleaned. */
  ghost predicate AllCleaned(endpoints: seq<ExpiryRegistry.Registry>, before: seq<ExpiryRegistry.Registry>, n: nat, now: int) {
    && n <= |endpoints| == |before|
    && (forall i :: 0 <= i < n ==> endpoints[i] == ExpiryRegistry.Cleanup(before[i], now))
    && (forall i :: n <= i < |endpoints| ==> endpoints[i] == before[i])
  }

  lemma CleanedOk(endpoints: seq<ExpiryRegistry.Registry>, before: seq<ExpiryRegistry.Registry>, now: int)
    requires EndpointsOk(before) && AllCleaned(endpoints, before, |before|, now)
    ensures EndpointsOk(endpoints)
  {
    forall i | 0 <= i < |endpoints| ensures endpoints[i].flavour.Endpoint? && ExpiryRegistry.WellFormed(endpoints[i]) {
      ExpiryRegistry.CleanupWellFormed(before[i], now);
    }
  }

  method CleanEndpoints(before: seq<ExpiryRegistry.Registry>, now: int) returns (endpoints: seq<ExpiryRegistry.Registry>)
    requires EndpointsOk(before)
    ensures AllCleaned(endpoints, before, |before|, now) && EndpointsOk(endpoints)
  {
    endpoints := before;
    for i := 0 to |before|
      invariant AllCleaned(endpoints, before, i, now)
    {
      var cleaned := RateLimiters.CleanRegistry(before[i], now);
      endpoints := endpoints[i := cleaned];
    }
    CleanedOk(endpoints, before, now);
  }

  lemma RunOne(s: State, steps: seq<Step>, step: Step)
    ensures Run(s, steps + [step]) == Next(Run(s, steps), step)
  {
    assert (steps + [step])[..|steps|] == steps;
  }

  /** Cleaning both registries at the time of a call does not change whom it admits. */
  lemma SweepKeepsAdmits(s: State, steps: seq<Step>, kind: Kind, key: string, slot: nat, now: int)
    requires Inv(s) && !kind.Fallback? && now > 0
    requires steps == [] || steps == [CleanupStep(Source, now), CleanupStep(Username, now)]
    ensures Inv(Run(s, steps)) && (Admits(Run(s, steps), kind, key, slot, now) <==> Admits(s, kind, key, slot, now))
  {
    RunKeeps(s, steps);
    if steps != [] {
      var s1 := Next(s, CleanupStep(Source, now));
      RunOne(s, [], CleanupStep(Source, now));
      RunOne(s, [] + [CleanupStep(Source, now)], CleanupStep(Username, now));
      assert steps == [] + [CleanupStep(Source, now)] + [CleanupStep(Username, now)];
      NextKeeps(s, CleanupStep(Source, now));
      CleanupKeepsAdmits(s, Source, kind, key, slot, now);
      CleanupKeepsAdmits(s1, Username, kind, key, slot, now);
    }
  }

  class AuthProtector {
    const config: Config
    var heap: map<Ref, Entry>
    var nextRef: Ref
    var failures: Registry
    var usernameFailures: Registry
    var fallbacks: map<nat, Ref>
    var attempts: Attempts
    var lastCleanup: int
    /** One bounded registry per rate-limited endpoint. */
    var endpoints: seq<ExpiryRegistry.Registry>

    ghost function View(): State
      reads this
    {
      State(config, heap, nextRef, failures, usernameFailures, fallbacks, attempts)
    }

    constructor (c: Config, sourceCapacity: nat, usernameCapacity: nat, limits: seq<ExpiryRegistry.Registry>, now: int)
      ensures View() == New(c, sourceCapacity, usernameCapacity) && lastCleanup == now && endpoints == limits
    {
      endpoints := limits;
      config, heap, nextRef := c, map[], 0;
      failures := Registry(map[], false, 0, sourceCapacity, 0);
      usernameFailures := Registry(map[], false, 0, usernameCapacity, 0);
      fallbacks, attempts, lastCleanup := map[], map[], now;
    }

    method CleanupFailures(kind: Kind, now: int)
      requires !kind.Fallback?
      modifies this
      ensures View() == SetReg(old(View()), kind, Cleanup(old(heap), Reg(old(View()), kind), config.window, now))
      ensures lastCleanup == old(lastCleanup) && endpoints == old(endpoints)
    {
      if kind.Source? {
        failures := CleanupRegistry(heap, failures, config.window, now);
      } else {
        usernameFailures := CleanupRegistry(heap, usernameFailures, config.window, now);
      }
    }

    method MakeRoomFor(kind: Kind, now: int)
      requires !kind.Fallback?
      modifies this
      ensures View() == Room(old(View()), kind, now)
      ensures lastCleanup == old(lastCleanup) && endpoints == old(endpoints)
    {
      var reg := if kind.Source? then failures else usernameFailures;
      if |reg.entries| >= reg.capacity && reg.known && reg.next <= now {
        CleanupFailures(kind, now);
      }
    }

    method ReserveEntry(id: AttemptId, r: Reservation, now: int) returns (ok: bool)
      modifies this
      ensures View() == ReserveAt(old(View()), id, r, now)
      ensures lastCleanup == old(lastCleanup) && endpoints == old(endpoints)
      ensures ok <==> Reserve(At(old(heap), r.ref), config.threshold, now).Some?
    {
      var reserved := Reserve(At(heap, r.ref), config.threshold, now);
      ok := reserved.Some?;
      if ok {
        heap := heap[r.ref := reserved.value];
        attempts := Hold(attempts, id, r);
      }
    }

    method CreateEntry(id: AttemptId, kind: Kind, key: string)
      requires !kind.Fallback?
      modifies this
      ensures View() == Create(old(View()), id, kind, key)
      ensures lastCleanup == old(lastCleanup) && endpoints == old(endpoints)
    {
      if kind.Source? {
        failures := failures.(entries := failures.entries[key := nextRef], count := failures.count + 1);
      } else {
        usernameFailures := usernameFailures.(entries := usernameFailures.entries[key := nextRef], count := usernameFailures.count + 1);
      }
      heap := heap[nextRef := Entry(kind, 0, 0, 0, 1, [])];
      attempts := Hold(attempts, id, Reservation(kind, key, nextRef));
      nextRef := nextRef + 1;
    }

    method FallbackEntry(slot: nat) returns (r: Ref)
      modifies this
      ensures View() == WithFallback(old(View()), slot)
      ensures slot in fallbacks && r == fallbacks[slot]
      ensures lastCleanup == old(lastCleanup) && endpoints == old(endpoints)
    {
      if slot !in fallbacks {
        fallbacks := fallbacks[slot := nextRef];
        heap := heap[nextRef := Entry(Fallback, 0, 0, 0, 0, [])];
        nextRef := nextRef + 1;
      }
      r := fallbacks[slot];
    }

    /** The source side of an attempt, with what it leaves undecided for the username side. */
    method ReserveFirst(id: AttemptId, key: string, ghost username: string, ghost slot: nat, now: int) returns (ok: bool)
      requires Inv(View()) && now > 0 && AttemptOf(attempts, id) == Attempt(None, None)
      modifies this
      ensures Inv(View()) && View() == ReserveKey(old(View()), id, Source, key, 0, now)
      ensures OnlySide(old(attempts), attempts, id, Source)
      ensures lastCleanup == old(lastCleanup) && endpoints == old(endpoints)
      ensures ok <==> Held(attempts, id, Source).Some?
      ensures ok <==> Admits(old(View()), Source, key, 0, now)
      ensures Admits(View(), Username, username, slot, now) <==> Admits(old(View()), Username, username, slot, now)
    {
      ReserveIffAdmits(View(), id, Source, key, 0, now);
      SourceKeepsAdmits(View(), id, key, username, slot, now);
      ReserveKeyKeeps(View(), id, Source, key, 0, now);
      ok := ReserveSource(id, key, now);
    }

    /** The username side. */
    method ReserveSecond(id: AttemptId, key: string, slot: nat, now: int) returns (ok: bool)
      requires Inv(View()) && now > 0 && Held(attempts, id, Username).None?
      modifies this
      ensures Inv(View()) && View() == ReserveKey(old(View()), id, Username, key, slot, now)
      ensures OnlySide(old(attempts), attempts, id, Username)
      ensures lastCleanup == old(lastCleanup) && endpoints == old(endpoints)
      ensures ok <==> Held(attempts, id, Username).Some?
      ensures ok <==> Admits(old(View()), Username, key, slot, now)
    {
      ReserveIffAdmits(View(), id, Username, key, slot, now);
      ReserveKeyKeeps(View(), id, Username, key, slot, now);
      ok := ReserveUsername(id, key, slot, now);
    }

    /** reserveSourceFailureLocked */
    method ReserveSource(id: AttemptId, key: string, now: int) returns (ok: bool)
      requires Held(attempts, id, Source).None?
      modifies this
      ensures View() == ReserveKey(old(View()), id, Source, key, 0, now)
      ensures OnlySide(old(attempts), attempts, id, Source)
      ensures lastCleanup == old(lastCleanup) && endpoints == old(endpoints)
      ensures ok <==> Held(attempts, id, Source).Some?
    {
      if key in failures.entries {
        ok := ReserveEntry(id, Reservation(Source, key, failures.entries[key]), now);
      } else {
        MakeRoomFor(Source, now);
        ok := |failures.entries| < failures.capacity;
        if ok {
          CreateEntry(id, Source, key);
        }
      }
    }

    /** reserveUsernameFailureLocked */
    method ReserveUsername(id: AttemptId, key: string, slot: nat, now: int) returns (ok: bool)
      requires Held(attempts, id, Username).None?
      modifies this
      ensures View() == ReserveKey(old(View()), id, Username, key, slot, now)
      ensures OnlySide(old(attempts), attempts, id, Username)
      ensures lastCleanup == old(lastCleanup) && endpoints == old(endpoints)
      ensures ok <==> Held(attempts, id, Username).Some?
    {
      if key in usernameFailures.entries {
        ok := ReserveEntry(id, Reservation(Username, key, usernameFailures.entries[key]), now);
      } else {
        MakeRoomFor(Username, now);
        if |usernameFailures.entries| < usernameFailures.capacity {
          CreateEntry(id, Username, key);
          ok := true;
        } else {
          var shared := FallbackEntry(slot);
          ok := ReserveEntry(id, Reservation(Fallback, key, shared), now);
        }
      }
    }

    /** completeFailureReservationLocked, on one side of an attempt */
    method CompleteSide(id: AttemptId, kind: Kind, outcome: Outcome, now: int)
      requires config.Valid() && !kind.Fallback?
      modifies this
      ensures View() == ReleaseSide(old(View()), id, kind, outcome, now)
      ensures OnlySide(old(attempts), attempts, id, kind) && Held(attempts, id, kind).None?
      ensures lastCleanup == old(lastCleanup) && endpoints == old(endpoints)
    {
      var held := Held(attempts, id, kind);
      if held.None? {
        return;
      }
      var r := held.value;
      attempts := Drop(attempts, id, kind);
      var e := At(heap, r.ref);
      if e.inFlight <= 0 {
        return;
      }
      if !r.kind.Fallback? {
        var reg := if r.kind.Source? then failures else usernameFailures;
        if r.key !in reg.entries || reg.entries[r.key] != r.ref {
          return;
        }
        var reg' := RegAfter(reg, r.key, Release(e, config, outcome, now), config.window, now);
        if r.kind.Source? {
          failures := reg';
        } else {
          usernameFailures := reg';
        }
      }
      heap := heap[r.ref := Release(e, config, outcome, now)];
    }

    /** cleanupLocked: every endpoint registry, then both failure registries, at most once per interval */
    method CleanupLocked(now: int) returns (ghost steps: seq<Step>)
      requires Inv(View()) && EndpointsOk(endpoints) && now > 0
      modifies this
      ensures View() == Run(old(View()), steps) && attempts == old(attempts) && EndpointsOk(endpoints)
      ensures now - old(lastCleanup) < EndpointLimiter.CLEANUP_INTERVAL ==>
                steps == [] && endpoints == old(endpoints) && lastCleanup == old(lastCleanup)
      ensures now - old(lastCleanup) >= EndpointLimiter.CLEANUP_INTERVAL ==>
                && lastCleanup == now && steps == [CleanupStep(Source, now), CleanupStep(Username, now)]
                && AllCleaned(endpoints, old(endpoints), |old(endpoints)|, now)
    {
      steps := [];
      if now - lastCleanup < EndpointLimiter.CLEANUP_INTERVAL {
        return;
      }
      lastCleanup := now;
      endpoints := CleanEndpoints(endpoints, now);
      RunOne(View(), [], CleanupStep(Source, now));
      RunOne(View(), [CleanupStep(Source, now)], CleanupStep(Username, now));
      CleanupFailures(Source, now);
      CleanupFailures(Username, now);
      steps := [CleanupStep(Source, now), CleanupStep(Username, now)];
      assert steps == [CleanupStep(Source, now)] + [CleanupStep(Username, now)];
      assert [CleanupStep(Source, now)] == [] + [CleanupStep(Source, now)];
    }

    /** cleanupLocked is a sweep for every endpoint. */
    ghost predicate EndpointStepped(before: seq<ExpiryRegistry.Registry>, last: int, i: nat, step: ExpiryRegistry.Step)
      reads this
    {
      && |endpoints| == |before|
      && forall j :: 0 <= j < |endpoints| ==>
           EndpointLimiter.Limiter(endpoints[j], lastCleanup)
           == EndpointLimiter.Next(EndpointLimiter.Limiter(before[j], last), if j == i then step else ExpiryRegistry.Sweep(step.now))
    }

    /**
     allowAuthRequest: every registry is swept when that is due, and then the endpoint's own one is asked; an endpoint
     without a limit has none.
     */
    method AllowAuthRequest(i: nat, clientIP: string, now: int) returns (dedicated: bool, ghost steps: seq<Step>)
      requires Inv(View()) && EndpointsOk(endpoints) && now > 0
      modifies this
      ensures EndpointStepped(old(endpoints), old(lastCleanup), i, ExpiryRegistry.Request(clientIP, now))
      ensures EndpointsOk(endpoints) && View() == Run(old(View()), steps)
      ensures i < |endpoints| ==> (dedicated <==> clientIP in endpoints[i].seen)
    {
      steps := CleanupLocked(now);
      if i >= |endpoints| {
        return true, steps;
      }
      ExpiryRegistry.NextWellFormed(endpoints[i], ExpiryRegistry.Request(clientIP, now));
      var reg;
      reg, dedicated := RateLimiters.AllowAtEndpoint(endpoints[i], clientIP, now);
      endpoints := endpoints[i := reg];
    }

    /** cleanupLocked as a login attempt does it first. */
    method CleanupForLogin(ghost sourceKey: string, ghost username: string, ghost slot: nat, now: int) returns (ghost steps: seq<Step>)
      requires Inv(View()) && EndpointsOk(endpoints) && now > 0
      modifies this
      ensures Inv(View()) && View() == Run(old(View()), steps) && attempts == old(attempts) && EndpointsOk(endpoints)
      ensures Admits(View(), Source, sourceKey, 0, now) <==> Admits(old(View()), Source, sourceKey, 0, now)
      ensures Admits(View(), Username, username, slot, now) <==> Admits(old(View()), Username, username, slot, now)
    {
      ghost var start := View();
      steps := CleanupLocked(now);
      SweepKeepsAdmits(start, steps, Source, sourceKey, 0, now);
      SweepKeepsAdmits(start, steps, Username, username, slot, now);
    }

    /**
     beginLoginAttempt: admitted if and only if neither key finds a locked or exhausted entry and the source key has an
     entry or room for one. An admitted attempt holds both sides, a refused one neither.
     */
    method BeginLoginAttempt(id: AttemptId, sourceKey: string, username: string, slot: nat, now: int)
      returns (admitted: bool, ghost steps: seq<Step>)
      requires Inv(View()) && EndpointsOk(endpoints) && now > 0 && AttemptOf(attempts, id) == Attempt(None, None)
      modifies this
      ensures EndpointsOk(endpoints)
      ensures View() == Run(old(View()), steps) && Inv(View())
      ensures admitted <==> Admits(old(View()), Source, sourceKey, 0, now) && Admits(old(View()), Username, username, slot, now)
      ensures admitted <==> Held(attempts, id, Source).Some?
      ensures admitted <==> Held(attempts, id, Username).Some?
      ensures forall x :: x != id ==> AttemptOf(attempts, x) == AttemptOf(old(attempts), x)
    {
      ghost var start := View();
      steps := CleanupForLogin(sourceKey, username, slot, now);
      RunOne(start, steps, ReserveStep(id, Source, sourceKey, 0, now));
      admitted := ReserveFirst(id, sourceKey, username, slot, now);
      steps := steps + [ReserveStep(id, Source, sourceKey, 0, now)];
      if admitted {
        admitted, steps := ReserveOther(id, username, slot, now, start, steps);
      }
    }

    /** The rest of beginLoginAttempt: the username side, or the source side given back. */
    method ReserveOther(id: AttemptId, username: string, slot: nat, now: int, ghost start: State, ghost before: seq<Step>)
      returns (admitted: bool, ghost steps: seq<Step>)
      requires Inv(View()) && now > 0 && View() == Run(start, before)
      requires Held(attempts, id, Source).Some? && Held(attempts, id, Username).None?
      modifies this
      ensures View() == Run(start, steps) && Inv(View()) && endpoints == old(endpoints)
      ensures admitted <==> Admits(old(View()), Username, username, slot, now)
      ensures admitted <==> Held(attempts, id, Source).Some?
      ensures admitted <==> Held(attempts, id, Username).Some?
      ensures forall x :: x != id ==> AttemptOf(attempts, x) == AttemptOf(old(attempts), x)
    {
      RunOne(start, before, ReserveStep(id, Username, username, slot, now));
      admitted := ReserveSecond(id, username, slot, now);
      steps := before + [ReserveStep(id, Username, username, slot, now)];
      if !admitted {
        RunOne(start, steps, ReleaseStep(id, Source, Abandoned, now));
        ReleaseSideKeeps(View(), id, Source, Abandoned, now);
        CompleteSide(id, Source, Abandoned, now);
        steps := steps + [ReleaseStep(id, Source, Abandoned, now)];
      }
    }

    /** loginAttempt.complete; an attempt that was completed before holds nothing, so nothing changes. */
    method Complete(id: AttemptId, outcome: Outcome, now: int)
      requires Inv(View()) && now > 0
      modifies this
      ensures endpoints == old(endpoints)
      ensures View() == Run(old(View()), [ReleaseStep(id, Source, outcome, now), ReleaseStep(id, Username, outcome, now)])
      ensures Inv(View()) && AttemptOf(attempts, id) == Attempt(None, None)
      ensures AttemptOf(old(attempts), id) == Attempt(None, None) ==> View() == old(View())
      ensures forall x :: x != id ==> AttemptOf(attempts, x) == AttemptOf(old(attempts), x)
    {
      ghost var start := View();
      RunOne(start, [], ReleaseStep(id, Source, outcome, now));
      RunOne(start, [ReleaseStep(id, Source, outcome, now)], ReleaseStep(id, Username, outcome, now));
      assert [ReleaseStep(id, Source, outcome, now)] == [] + [ReleaseStep(id, Source, outcome, now)];
      assert [ReleaseStep(id, Source, outcome, now), ReleaseStep(id, Username, outcome, now)]
          == [ReleaseStep(id, Source, outcome, now)] + [ReleaseStep(id, Username, outcome, now)];
      CompleteSide(id, Source, outcome, now);
      CompleteSide(id, Username, outcome, now);
      RunKeeps(start, [ReleaseStep(id, Source, outcome, now), ReleaseStep(id, Username, outcome, now)]);
    }
  }
}
