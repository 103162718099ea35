/**
 Every run of the login-failure protector. A login attempt begins by reserving its source side and
 then its username side, giving the first back when the second is refused, and completes by giving
 both back; registries are cleaned in between. What holds of each failure entry after any run of
 those steps, when a lockout may be set, and when a full registry may turn a new key away.
 */
module LoginRuns {
  import opened Basics
  import opened LoginProtector
  import opened Streaks

  datatype Step =
    | ReserveStep(id: AttemptId, kind: Kind, key: string, slot: nat, now: int)
    | ReleaseStep(id: AttemptId, kind: Kind, outcome: Outcome, now: int)
    | CleanupStep(kind: Kind, now: int)

  /** An attempt reserves a side only while it holds nothing there. */
  predicate Enabled(s: State, step: Step) {
    && s.config.Valid() && step.now > 0 && !step.kind.Fallback?
    && (step.ReserveStep? ==> Held(s.attempts, step.id, step.kind).None?)
  }

  ghost function Next(s: State, step: Step): State {
    if !Enabled(s, step) then s
    else
      match step
      case ReserveStep(id, kind, key, slot, now) => ReserveKey(s, id, kind, key, slot, now)
      case ReleaseStep(id, kind, outcome, now) => ReleaseSide(s, id, kind, outcome, now)
      case CleanupStep(kind, now) => SetReg(s, kind, Cleanup(s.heap, Reg(s, kind), s.config.window, now))
  }

  ghost function Run(s: State, steps: seq<Step>): State {
    if steps == [] then s else Next(Run(s, steps[..|steps| - 1]), steps[|steps| - 1])
  }

  /** NewAuthProtector */
  function New(c: Config, sourceCapacity: nat, usernameCapacity: nat): State {
    State(c, map[], 0, Registry(map[], false, 0, sourceCapacity, 0), Registry(map[], false, 0, usernameCapacity, 0),
          map[], map[])
  }

  // ---------- every run keeps the invariant ----------

  lemma NextKeeps(s: State, step: Step)
    requires Inv(s)
    ensures Inv(Next(s, step))
  {
    if Enabled(s, step) {
      match step
      case ReserveStep(id, kind, key, slot, now) =>
        ReserveKeyKeeps(s, id, kind, key, slot, now);
      case ReleaseStep(id, kind, outcome, now) =>
        ReleaseSideKeeps(s, id, kind, outcome, now);
      case CleanupStep(kind, now) =>
        CleanupKeeps(s, kind, now);
    }
  }

  lemma {:induction false} RunKeeps(s: State, steps: seq<Step>)
    requires Inv(s)
    ensures Inv(Run(s, steps))
  {
    if steps != [] {
      RunKeeps(s, steps[..|steps| - 1]);
      NextKeeps(Run(s, steps[..|steps| - 1]), steps[|steps| - 1]);
    }
  }

  /**
   After any run: every entry counts exactly the uncompleted attempts that hold it, and either at most
   one attempt is in flight or failures and attempts together stay within the threshold.
   */
  lemma InFlightIsHolders(c: Config, sourceCapacity: nat, usernameCapacity: nat, steps: seq<Step>, r: Ref)
    requires c.Valid()
    ensures var s := Run(New(c, sourceCapacity, usernameCapacity), steps);
            r in s.heap ==>
              && s.heap[r].inFlight == |Holders(s.attempts, r)|
              && (s.heap[r].inFlight <= 1 || s.heap[r].failureCount + s.heap[r].inFlight <= s.config.threshold)
  {
    var s := Run(New(c, sourceCapacity, usernameCapacity), steps);
    RunKeeps(New(c, sourceCapacity, usernameCapacity), steps);
    assert r in s.heap ==> RefOk(s, r);
  }

  /** After any run: a dedicated entry an attempt holds is still the one registered under its key. */
  lemma HeldStaysRegistered(c: Config, sourceCapacity: nat, usernameCapacity: nat, steps: seq<Step>, id: AttemptId, kind: Kind)
    requires c.Valid()
    ensures var s := Run(New(c, sourceCapacity, usernameCapacity), steps);
            var held := Held(s.attempts, id, kind);
            held.Some? ==>
              && held.value.ref in s.heap
              && (held.value.kind.Fallback?
                  || (held.value.key in Reg(s, held.value.kind).entries
                      && Reg(s, held.value.kind).entries[held.value.key] == held.value.ref))
  {
    var s := Run(New(c, sourceCapacity, usernameCapacity), steps);
    RunKeeps(New(c, sourceCapacity, usernameCapacity), steps);
    if id in s.attempts {
      assert AttemptOk(s, s.attempts[id]);
    }
  }

  /** After any run: each counter is the size of its map, which is within its capacity. */
  lemma CountersAreSizes(c: Config, sourceCapacity: nat, usernameCapacity: nat, steps: seq<Step>)
    requires c.Valid()
    ensures var s := Run(New(c, sourceCapacity, usernameCapacity), steps);
            && s.source.count == |s.source.entries| <= s.source.capacity
            && s.username.count == |s.username.entries| <= s.username.capacity
  {
    RunKeeps(New(c, sourceCapacity, usernameCapacity), steps);
  }

  // ---------- when a lockout is set ----------

  function LockOf(heap: map<Ref, Entry>, r: Ref): int {
    At(heap, r).lockedUntil
  }

  /** What an entry remembers, apart from attempts in flight. */
  function Past(e: Entry): Entry {
    e.(kind := Fallback, inFlight := 0)
  }

  lemma NewKeepsPast(s: State, id: AttemptId, kind: Kind, key: string, slot: nat, now: int, r: Ref)
    requires s.nextRef !in s.heap && !kind.Fallback?
    ensures Past(At(ReserveNew(s, id, kind, key, slot, now).heap, r)) == Past(At(s.heap, r))
  {
  }

  lemma ReserveKeepsPast(s: State, id: AttemptId, kind: Kind, key: string, slot: nat, now: int, r: Ref)
    requires s.nextRef !in s.heap && !kind.Fallback?
    ensures Past(At(ReserveKey(s, id, kind, key, slot, now).heap, r)) == Past(At(s.heap, r))
  {
    NewKeepsPast(Room(s, kind, now), id, kind, key, slot, now, r);
  }

  /** The lockout an entry gets from a failure at a given time. */
  predicate FreshLockout(c: Config, e: Entry, outcome: Outcome, now: int) {
    && outcome.Failed? && e.inFlight == 0 && e.failureCount >= c.threshold
    && e.lockedUntil == now + Min(c.maxLockout, c.baseLockout * Pow2(Min(e.failureCount - c.threshold, 8)))
  }

  lemma ReleaseLocks(e: Entry, c: Config, outcome: Outcome, now: int)
    requires c.Valid() && EntryOk(e, c) && e.inFlight > 0 && now > 0
    ensures var e' := Release(e, c, outcome, now);
            e'.lockedUntil != e.lockedUntil && e'.lockedUntil != 0 ==> FreshLockout(c, e', outcome, now)
  {
    ReleaseOk(e, c, outcome, now);
    var n := Release(e, c, outcome, now).failureCount;
    if n >= c.threshold {
      LockoutIsCappedDoubling(c, n);
    }
  }

  /** Giving one side back touches only its own entry, and locks that entry only as its last attempt fails. */
  lemma ReleaseSetsLock(s: State, id: AttemptId, kind: Kind, outcome: Outcome, now: int, r: Ref)
    requires Inv(s) && now > 0
    ensures var s' := ReleaseSide(s, id, kind, outcome, now);
            LockOf(s'.heap, r) != LockOf(s.heap, r) && LockOf(s'.heap, r) != 0 ==>
              FreshLockout(s.config, At(s'.heap, r), outcome, now)
  {
    if Held(s.attempts, id, kind).Some? {
      var mine := Held(s.attempts, id, kind).value.ref;
      ReleaseHeap(s, id, kind, outcome, now);
      assert RefOk(s, mine);
      HeldInFlight(s, id, mine);
      ReleaseLocks(s.heap[mine], s.config, outcome, now);
    }
  }

  /**
   In every run, a step that sets a lockout is a failed completion that leaves nothing in flight on that
   entry, and the lockout lasts exactly the base doubled per excess failure, capped.
   */
  lemma LockoutSetByLastAttempt(c: Config, sourceCapacity: nat, usernameCapacity: nat, steps: seq<Step>, step: Step, r: Ref)
    requires c.Valid()
    ensures var s := Run(New(c, sourceCapacity, usernameCapacity), steps);
            var s' := Next(s, step);
            LockOf(s'.heap, r) != LockOf(s.heap, r) && LockOf(s'.heap, r) != 0 ==>
              step.ReleaseStep? && FreshLockout(s.config, At(s'.heap, r), step.outcome, step.now)
  {
    var s := Run(New(c, sourceCapacity, usernameCapacity), steps);
    RunKeeps(New(c, sourceCapacity, usernameCapacity), steps);
    StepSetsLock(s, step, r);
  }

  lemma StepSetsLock(s: State, step: Step, r: Ref)
    requires Inv(s)
    ensures var s' := Next(s, step);
            LockOf(s'.heap, r) != LockOf(s.heap, r) && LockOf(s'.heap, r) != 0 ==>
              step.ReleaseStep? && FreshLockout(s.config, At(s'.heap, r), step.outcome, step.now)
  {
    if Enabled(s, step) {
      match step
      case ReserveStep(id, kind, key, slot, now) =>
        NobodyHolds(s);
        ReserveKeepsPast(s, id, kind, key, slot, now, r);
      case ReleaseStep(id, kind, outcome, now) =>
        ReleaseSetsLock(s, id, kind, outcome, now, r);
      case CleanupStep(kind, now) =>
    }
  }

  // ---------- what an entry remembers ----------

  /** The times of the failures since the last success. */
  function Failures(log: seq<Event>): seq<int> {
    if log == [] then []
    else
      var before := Failures(log[..|log| - 1]);
      match log[|log| - 1].outcome
      case Succeeded => []
      case Failed => before + [log[|log| - 1].now]
      case Abandoned => before
  }

  /** The lockout, if any, that a streak of n failures ending at a time leaves. */
  function LockAfter(c: Config, n: int, last: int): int {
    if n >= c.threshold then last + Min(c.maxLockout, c.baseLockout * Pow2(Min(n - c.threshold, 8))) else 0
  }

  /** The entry's fields are those of the last streak of failures since the last success. */
  ghost predicate RemembersStreak(e: Entry, c: Config) {
    var times := Failures(e.log);
    if times == [] then e.failureCount == 0 && e.lastFailure == 0 && e.lockedUntil == 0
    else
      var last := times[|times| - 1];
      && last > 0 && e.lastFailure == last
      && e.lockedUntil == LockAfter(c, e.failureCount, last)
      && 0 < e.failureCount <= |times| && IsStreak(times, c.window, |times| - e.failureCount)
  }

  lemma LogGrows(log: seq<Event>, outcome: Outcome, now: int)
    ensures var longer := Failures(log + [Event(outcome, now)]);
            longer == match outcome
                      case Succeeded => []
                      case Failed => Failures(log) + [now]
                      case Abandoned => Failures(log)
  {
    assert (log + [Event(outcome, now)])[..|log|] == log;
  }

  /** The failure count once a failure comes in. */
  function CountAfter(e: Entry, c: Config, now: int): int {
    if e.lastFailure != 0 && e.lastFailure + c.window <= now then 1 else e.failureCount + 1
  }

  lemma FailFields(e: Entry, c: Config, now: int)
    requires c.Valid() && RemembersStreak(e, c)
    ensures var e' := Release(e, c, Failed, now);
            && e'.log == e.log + [Event(Failed, now)] && e'.lastFailure == now
            && e'.failureCount == CountAfter(e, c, now)
            && e'.lockedUntil == LockAfter(c, CountAfter(e, c, now), now)
  {
    var n := CountAfter(e, c, now);
    if n >= c.threshold {
      LockoutIsCappedDoubling(c, n);
    }
  }

  lemma FailStreak(e: Entry, c: Config, now: int)
    requires c.Valid() && RemembersStreak(e, c)
    ensures var times, n := Failures(e.log) + [now], CountAfter(e, c, now);
            0 < n <= |times| && IsStreak(times, c.window, |times| - n)
  {
    var times := Failures(e.log);
    if times != [] {
      StreakGrows(times, c.window, |times| - e.failureCount, now);
    }
  }

  lemma ReleaseRemembers(e: Entry, c: Config, outcome: Outcome, now: int)
    requires c.Valid() && now > 0 && RemembersStreak(e, c)
    ensures RemembersStreak(Release(e, c, outcome, now), c)
  {
    LogGrows(e.log, outcome, now);
    if outcome.Failed? {
      FailFields(e, c, now);
      FailStreak(e, c, now);
    }
  }

  lemma StepRemembers(s: State, step: Step, r: Ref)
    requires Inv(s) && RemembersStreak(At(s.heap, r), s.config)
    ensures RemembersStreak(At(Next(s, step).heap, r), s.config)
  {
    if Enabled(s, step) {
      match step
      case ReserveStep(id, kind, key, slot, now) =>
        NobodyHolds(s);
        ReserveKeepsPast(s, id, kind, key, slot, now, r);
        SamePast(At(s.heap, r), At(Next(s, step).heap, r), s.config);
      case ReleaseStep(id, kind, outcome, now) =>
        if Held(s.attempts, id, kind).Some? {
          ReleaseHeap(s, id, kind, outcome, now);
          ReleaseRemembers(At(s.heap, r), s.config, outcome, now);
        }
      case CleanupStep(kind, now) =>
    }
  }

  lemma SamePast(e: Entry, e': Entry, c: Config)
    requires RemembersStreak(e, c) && Past(e) == Past(e')
    ensures RemembersStreak(e', c)
  {
    assert e'.log == Past(e').log && e'.failureCount == Past(e').failureCount;
    assert e'.lastFailure == Past(e').lastFailure && e'.lockedUntil == Past(e').lockedUntil;
  }

  lemma ReserveKeepsConfig(s: State, id: AttemptId, kind: Kind, key: string, slot: nat, now: int)
    requires !kind.Fallback?
    ensures ReserveKey(s, id, kind, key, slot, now).config == s.config
  {
    assert Room(s, kind, now).config == s.config;
  }

  lemma StepKeepsConfig(s: State, step: Step)
    ensures Next(s, step).config == s.config
  {
    if step.ReserveStep? && Enabled(s, step) {
      ReserveKeepsConfig(s, step.id, step.kind, step.key, step.slot, step.now);
    }
  }

  /**
   After any run, an entry's failure count, last failure and lockout are exactly those of its last streak: the
   failures since its last success, each less than a window after the one before.
   */
  lemma EntriesRememberStreaks(c: Config, sourceCapacity: nat, usernameCapacity: nat, steps: seq<Step>, r: Ref, k: nat)
    requires c.Valid()
    ensures var e := At(Run(New(c, sourceCapacity, usernameCapacity), steps).heap, r);
            var times := Failures(e.log);
            && (times == [] ==> e.failureCount == 0 && e.lastFailure == 0 && e.lockedUntil == 0)
            && (times != [] ==> e.lastFailure == times[|times| - 1] && e.lockedUntil == LockAfter(c, e.failureCount, e.lastFailure))
            && (times != [] ==> (IsStreak(times, c.window, k) <==> e.failureCount == |times| - k))
  {
    RunRemembers(c, sourceCapacity, usernameCapacity, steps, r);
    StreakIsCounted(At(Run(New(c, sourceCapacity, usernameCapacity), steps).heap, r), c, k);
  }

  lemma StreakIsCounted(e: Entry, c: Config, k: nat)
    requires RemembersStreak(e, c)
    ensures var times := Failures(e.log);
            && (times == [] ==> e.failureCount == 0 && e.lastFailure == 0 && e.lockedUntil == 0)
            && (times != [] ==> e.lastFailure == times[|times| - 1] && e.lockedUntil == LockAfter(c, e.failureCount, e.lastFailure))
            && (times != [] ==> (IsStreak(times, c.window, k) <==> e.failureCount == |times| - k))
  {
    var times := Failures(e.log);
    if times != [] && IsStreak(times, c.window, k) {
      StreakUnique(times, c.window, k, |times| - e.failureCount);
    }
  }

  lemma {:induction false} RunRemembers(c: Config, sourceCapacity: nat, usernameCapacity: nat, steps: seq<Step>, r: Ref)
    requires c.Valid()
    ensures RemembersStreak(At(Run(New(c, sourceCapacity, usernameCapacity), steps).heap, r), c)
    ensures Run(New(c, sourceCapacity, usernameCapacity), steps).config == c
  {
    if steps != [] {
      var before := Run(New(c, sourceCapacity, usernameCapacity), steps[..|steps| - 1]);
      RunRemembers(c, sourceCapacity, usernameCapacity, steps[..|steps| - 1], r);
      RunKeeps(New(c, sourceCapacity, usernameCapacity), steps[..|steps| - 1]);
      StepRemembers(before, steps[|steps| - 1], r);
      StepKeepsConfig(before, steps[|steps| - 1]);
    }
  }

  // ---------- a full registry ----------

  /**
   In every run, a registry that is still full after room was looked for holds no removable entry: a new
   key is refused, or sent to a shared entry, only when nothing could have been removed.
   */
  lemma FullMeansNothingRemovable(c: Config, sourceCapacity: nat, usernameCapacity: nat, steps: seq<Step>, kind: Kind, now: int)
    requires c.Valid() && !kind.Fallback?
    ensures var s := Run(New(c, sourceCapacity, usernameCapacity), steps);
            var reg := Reg(Room(s, kind, now), kind);
            |reg.entries| >= reg.capacity ==>
              forall k :: k in reg.entries ==> !Removable(At(s.heap, reg.entries[k]), s.config.window, now)
  {
    var s := Run(New(c, sourceCapacity, usernameCapacity), steps);
    RunKeeps(New(c, sourceCapacity, usernameCapacity), steps);
    NothingRemovable(s, kind, now);
  }

  lemma NothingRemovable(s: State, kind: Kind, now: int)
    requires Inv(s) && !kind.Fallback?
    ensures var reg := MakeRoom(s.heap, Reg(s, kind), s.config.window, now);
            |reg.entries| >= reg.capacity ==>
              forall k :: k in reg.entries ==> !Removable(At(s.heap, reg.entries[k]), s.config.window, now)
  {
    var reg := Reg(s, kind);
    forall k | k in reg.entries && (reg.known ==> reg.next > now)
      ensures !Removable(At(s.heap, reg.entries[k]), s.config.window, now)
    {
      assert RefOk(s, reg.entries[k]);
      assert Hinted(reg, s.heap[reg.entries[k]], s.config.window);
    }
  }
}
