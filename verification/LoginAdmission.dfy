/**
 Which login attempts are admitted, said without the reservation code: by the entries the two keys
 have before the call. And how long a lockout keeps a key out.
 */
module LoginAdmission {
  import opened Basics
  import opened Streaks
  import opened LoginProtector
  import opened LoginRuns

  /** An entry turns an attempt away while it is locked, or while its attempts in flight could exhaust the threshold. */
  predicate Refuses(e: Entry, threshold: int, now: int) {
    e.lockedUntil > now || (e.inFlight > 0 && e.failureCount + e.inFlight >= threshold)
  }

  /** What a key finds: an entry, room for a new one, or neither. */
  datatype Target = Existing(entry: Entry) | Fresh | Full

  /** There is room, or removing what has expired makes room. */
  predicate HasRoom(s: State, kind: Kind, now: int)
    requires !kind.Fallback?
  {
    |Kept(s.heap, Reg(s, kind), s.config.window, now)| < Reg(s, kind).capacity
  }

  function TargetOf(s: State, kind: Kind, key: string, slot: nat, now: int): Target
    requires !kind.Fallback?
  {
    if key in Reg(s, kind).entries then Existing(At(s.heap, Reg(s, kind).entries[key]))
    else if HasRoom(s, kind, now) then Fresh
    else if kind.Source? then Full
    else if slot in s.fallbacks then Existing(At(s.heap, s.fallbacks[slot]))
    else Fresh
  }

  predicate Admits(s: State, kind: Kind, key: string, slot: nat, now: int)
    requires !kind.Fallback?
  {
    match TargetOf(s, kind, key, slot, now)
    case Existing(e) => !Refuses(e, s.config.threshold, now)
    case Fresh => true
    case Full => false
  }

  // ---------- one side ----------

  lemma KeptSize(heap: map<Ref, Entry>, reg: Registry, window: int, now: int)
    ensures |Kept(heap, reg, window, now)| <= |reg.entries|
    ensures (forall k :: k in reg.entries ==> !Removable(At(heap, reg.entries[k]), window, now)) ==> Kept(heap, reg, window, now) == reg.entries
    ensures (exists k :: k in reg.entries && Removable(At(heap, reg.entries[k]), window, now)) ==> |Kept(heap, reg, window, now)| < |reg.entries|
  {
    var kept := Kept(heap, reg, window, now);
    assert |kept| == |kept.Keys| && |reg.entries| == |reg.entries.Keys|;
    SubsetSize(kept.Keys, reg.entries.Keys);
    if k :| k in reg.entries && Removable(At(heap, reg.entries[k]), window, now) {
      SubsetSize(kept.Keys, reg.entries.Keys - {k});
    }
  }

  /** Looking for room finds room exactly when removing everything removable would. */
  lemma RoomIffRoom(s: State, kind: Kind, now: int)
    requires Inv(s) && !kind.Fallback?
    ensures var reg := Reg(Room(s, kind, now), kind);
            |reg.entries| < reg.capacity <==> HasRoom(s, kind, now)
  {
    var reg := Reg(s, kind);
    KeptSize(s.heap, reg, s.config.window, now);
    if |reg.entries| >= reg.capacity && !(reg.known && reg.next <= now) {
      NothingRemovable(s, kind, now);
    }
  }

  lemma ReserveAtIff(s: State, id: AttemptId, kind: Kind, r: Reservation, now: int)
    requires Held(s.attempts, id, kind).None? && !kind.Fallback? && (r.kind.Source? <==> kind.Source?)
    ensures Held(ReserveAt(s, id, r, now).attempts, id, kind).Some? <==> !Refuses(At(s.heap, r.ref), s.config.threshold, now)
  {
  }

  lemma CreateHolds(s: State, id: AttemptId, kind: Kind, key: string)
    requires !kind.Fallback?
    ensures Held(Create(s, id, kind, key).attempts, id, kind).Some?
  {
  }

  lemma FallbackIff(s: State, id: AttemptId, key: string, slot: nat, now: int)
    requires Inv(s) && Held(s.attempts, id, Username).None? && now > 0
    ensures Held(ReserveFallback(s, id, key, slot, now).attempts, id, Username).Some?
            <==> slot in s.fallbacks ==> !Refuses(At(s.heap, s.fallbacks[slot]), s.config.threshold, now)
  {
    var s1 := WithFallback(s, slot);
    ReserveAtIff(s1, id, Username, Reservation(Fallback, key, s1.fallbacks[slot]), now);
  }

  /** A side is reserved if and only if what its key finds lets it in. */
  lemma ReserveIffAdmits(s: State, id: AttemptId, kind: Kind, key: string, slot: nat, now: int)
    requires Inv(s) && !kind.Fallback? && Held(s.attempts, id, kind).None? && now > 0
    ensures Held(ReserveKey(s, id, kind, key, slot, now).attempts, id, kind).Some? <==> Admits(s, kind, key, slot, now)
  {
    if key in Reg(s, kind).entries {
      ReserveAtIff(s, id, kind, Reservation(kind, key, Reg(s, kind).entries[key]), now);
    } else {
      NewIffAdmits(s, id, kind, key, slot, now);
    }
  }

  lemma NewIffAdmits(s: State, id: AttemptId, kind: Kind, key: string, slot: nat, now: int)
    requires Inv(s) && !kind.Fallback? && Held(s.attempts, id, kind).None? && key !in Reg(s, kind).entries && now > 0
    ensures Held(ReserveNew(Room(s, kind, now), id, kind, key, slot, now).attempts, id, kind).Some? <==> Admits(s, kind, key, slot, now)
  {
    var s1 := Room(s, kind, now);
    RoomIffRoom(s, kind, now);
    RoomKeeps(s, kind, now);
    if HasRoom(s, kind, now) {
      CreateHolds(s1, id, kind, key);
    } else if kind.Username? {
      FallbackIff(s1, id, key, slot, now);
    }
  }

  // ---------- both sides ----------

  lemma KeptTwice(heap: map<Ref, Entry>, reg: Registry, window: int, now: int)
    ensures Kept(heap, Cleanup(heap, reg, window, now), window, now) == Kept(heap, reg, window, now)
  {
  }

  /** Cleaning the other registry leaves this side as it is. */
  lemma CleanupOtherSide(s: State, of: Kind, kind: Kind, now: int)
    requires !of.Fallback? && !kind.Fallback? && of != kind
    ensures SameSide(s, SetReg(s, of, Cleanup(s.heap, Reg(s, of), s.config.window, now)), kind)
  {
  }

  lemma CleanupOwnSide(s: State, kind: Kind, key: string, slot: nat, now: int)
    requires Inv(s) && !kind.Fallback?
    ensures Admits(SetReg(s, kind, Cleanup(s.heap, Reg(s, kind), s.config.window, now)), kind, key, slot, now) <==> Admits(s, kind, key, slot, now)
  {
    var s' := SetReg(s, kind, Cleanup(s.heap, Reg(s, kind), s.config.window, now));
    KeptTwice(s.heap, Reg(s, kind), s.config.window, now);
    assert HasRoom(s', kind, now) <==> HasRoom(s, kind, now);
    if key in Reg(s, kind).entries && key !in Reg(s', kind).entries {
      RemovedLetsIn(s, kind, key, now);
    }
  }

  /** An entry that a cleanup removes would let an attempt in, and leaves room. */
  lemma RemovedLetsIn(s: State, kind: Kind, key: string, now: int)
    requires Inv(s) && !kind.Fallback? && key in Reg(s, kind).entries && key !in Kept(s.heap, Reg(s, kind), s.config.window, now)
    ensures HasRoom(s, kind, now) && !Refuses(At(s.heap, Reg(s, kind).entries[key]), s.config.threshold, now)
  {
    KeptSize(s.heap, Reg(s, kind), s.config.window, now);
  }

  /** Cleaning a registry at the time of the call decides nothing: an entry it removes would have let the attempt in. */
  lemma CleanupKeepsAdmits(s: State, of: Kind, kind: Kind, key: string, slot: nat, now: int)
    requires Inv(s) && !of.Fallback? && !kind.Fallback?
    ensures Admits(SetReg(s, of, Cleanup(s.heap, Reg(s, of), s.config.window, now)), kind, key, slot, now) <==> Admits(s, kind, key, slot, now)
  {
    if of == kind {
      CleanupOwnSide(s, kind, key, slot, now);
    } else {
      CleanupOtherSide(s, of, kind, now);
      SameSideAdmits(s, SetReg(s, of, Cleanup(s.heap, Reg(s, of), s.config.window, now)), kind, key, slot, now);
    }
  }

  /** What two states have in common for one side. */
  ghost predicate SameSide(s: State, s': State, kind: Kind)
    requires !kind.Fallback?
  {
    && Reg(s', kind) == Reg(s, kind) && s'.fallbacks == s.fallbacks && s'.config == s.config
    && (forall k :: k in Reg(s, kind).entries ==> At(s'.heap, Reg(s, kind).entries[k]) == At(s.heap, Reg(s, kind).entries[k]))
    && (forall i :: i in s.fallbacks ==> At(s'.heap, s.fallbacks[i]) == At(s.heap, s.fallbacks[i]))
  }

  lemma SameSideAdmits(s: State, s': State, kind: Kind, key: string, slot: nat, now: int)
    requires !kind.Fallback? && SameSide(s, s', kind)
    ensures Admits(s', kind, key, slot, now) <==> Admits(s, kind, key, slot, now)
  {
    assert Kept(s'.heap, Reg(s', kind), s.config.window, now) == Kept(s.heap, Reg(s, kind), s.config.window, now);
  }

  /** A new entry, or one of a source key, is none of the username side's. */
  lemma OtherEntry(s: State, s': State, x: Ref, e: Entry)
    requires RegsOk(s) && FallbacksOk(s) && (x !in s.heap || s.heap[x].kind.Source?)
    requires s'.heap == s.heap[x := e] && s'.username == s.username && s'.fallbacks == s.fallbacks && s'.config == s.config
    ensures SameSide(s, s', Username)
  {
  }

  lemma SourceLeavesUsername(s: State, id: AttemptId, key: string, now: int)
    requires Inv(s)
    ensures SameSide(s, ReserveKey(s, id, Source, key, 0, now), Username)
  {
    if key in s.source.entries {
      var r := s.source.entries[key];
      var reserved := Reserve(At(s.heap, r), s.config.threshold, now);
      if reserved.Some? {
        OtherEntry(s, ReserveAt(s, id, Reservation(Source, key, r), now), r, reserved.value);
      }
    } else {
      NobodyHolds(s);
      NewSourceLeavesUsername(s, id, key, now);
    }
  }

  lemma NewSourceLeavesUsername(s: State, id: AttemptId, key: string, now: int)
    requires RegsOk(s) && FallbacksOk(s) && s.nextRef !in s.heap
    ensures SameSide(s, ReserveNew(Room(s, Source, now), id, Source, key, 0, now), Username)
  {
    var s' := ReserveNew(Room(s, Source, now), id, Source, key, 0, now);
    if s'.heap != s.heap {
      OtherEntry(s, s', s.nextRef, Entry(Source, 0, 0, 0, 1, []));
    }
  }

  /** The username side decides as it would have before the source side was reserved. */
  lemma SourceKeepsAdmits(s: State, id: AttemptId, sourceKey: string, key: string, slot: nat, now: int)
    requires Inv(s)
    ensures Admits(ReserveKey(s, id, Source, sourceKey, 0, now), Username, key, slot, now) <==> Admits(s, Username, key, slot, now)
  {
    SourceLeavesUsername(s, id, sourceKey, now);
    SameSideAdmits(s, ReserveKey(s, id, Source, sourceKey, 0, now), Username, key, slot, now);
  }

  // ---------- a lockout keeps a key out ----------

  /** A streak of n failures ending at `last`, n at least the threshold, locks until then. */
  function LockedUntil(c: Config, n: int, last: int): int
    requires n >= c.threshold
  {
    last + Min(c.maxLockout, c.baseLockout * Pow2(Min(n - c.threshold, 8)))
  }

  /** The failures of a log from the k-th on are a streak that still locks. */
  ghost predicate StreakLocks(log: seq<Event>, c: Config, k: nat, now: int) {
    var times := Failures(log);
    IsStreak(times, c.window, k) && |times| - k >= c.threshold && now < LockedUntil(c, |times| - k, times[|times| - 1])
  }

  /**
   After any run: a key whose entry ends in a streak of at least the threshold of failures admits nothing before the
   base lockout, doubled per failure over the threshold and capped, has passed since the last of them.
   */
  lemma LockedKeyIsRefused(c: Config, sourceCapacity: nat, usernameCapacity: nat, steps: seq<Step>, kind: Kind, key: string, k: nat, slot: nat, now: int)
    requires c.Valid() && !kind.Fallback?
    requires var s := Run(New(c, sourceCapacity, usernameCapacity), steps);
             key in Reg(s, kind).entries && StreakLocks(At(s.heap, Reg(s, kind).entries[key]).log, c, k, now)
    ensures !Admits(Run(New(c, sourceCapacity, usernameCapacity), steps), kind, key, slot, now)
  {
    var s := Run(New(c, sourceCapacity, usernameCapacity), steps);
    RunRemembers(c, sourceCapacity, usernameCapacity, steps, Reg(s, kind).entries[key]);
    StreakRefuses(At(s.heap, Reg(s, kind).entries[key]), c, k, now);
  }

  lemma StreakRefuses(e: Entry, c: Config, k: nat, now: int)
    requires c.Valid() && RemembersStreak(e, c) && StreakLocks(e.log, c, k, now)
    ensures Refuses(e, c.threshold, now)
  {
    StreakIsCounted(e, c, k);
  }

  /** An entry that is locked and that no attempt holds. */
  predicate LockedIdle(s: State, r: Ref, until: int) {
    r in s.heap && s.heap[r].lockedUntil == until && s.heap[r].inFlight == 0
  }

  ghost predicate KeyLocked(s: State, kind: Kind, key: string, until: int)
    requires !kind.Fallback?
  {
    key in Reg(s, kind).entries && LockedIdle(s, Reg(s, kind).entries[key], until)
  }

  lemma ReserveLeavesLocked(s: State, id: AttemptId, of: Kind, other: string, slot: nat, now: int, kind: Kind, key: string, until: int)
    requires Inv(s) && !of.Fallback? && !kind.Fallback? && now < until && KeyLocked(s, kind, key, until)
    ensures var s' := ReserveKey(s, id, of, other, slot, now);
            KeyLocked(s', kind, key, until) && s'.heap[Reg(s', kind).entries[key]] == s.heap[Reg(s, kind).entries[key]]
  {
    NobodyHolds(s);
    var r := Reg(s, kind).entries[key];
    if other in Reg(s, of).entries {
      ReserveAtLeavesLocked(s, id, Reservation(of, other, Reg(s, of).entries[other]), now, r, until);
    } else {
      RoomLeavesLocked(s, of, now, kind, key, until);
      NewLeavesLocked(Room(s, of, now), id, of, other, slot, now, kind, key, until);
    }
  }

  lemma ReserveAtLeavesLocked(s: State, id: AttemptId, res: Reservation, now: int, r: Ref, until: int)
    requires LockedIdle(s, r, until) && now < until
    ensures var s' := ReserveAt(s, id, res, now);
            LockedIdle(s', r, until) && s'.heap[r] == s.heap[r] && s'.source == s.source && s'.username == s.username
  {
  }

  lemma RoomLeavesLocked(s: State, of: Kind, now: int, kind: Kind, key: string, until: int)
    requires !of.Fallback? && !kind.Fallback? && now < until && KeyLocked(s, kind, key, until)
    ensures var s' := Room(s, of, now);
            KeyLocked(s', kind, key, until) && s'.heap == s.heap && s'.nextRef == s.nextRef
            && Reg(s', kind).entries[key] == Reg(s, kind).entries[key]
            && forall k :: k in Reg(s', of).entries ==> k in Reg(s, of).entries
  {
  }

  lemma NewLeavesLocked(s: State, id: AttemptId, of: Kind, other: string, slot: nat, now: int, kind: Kind, key: string, until: int)
    requires !of.Fallback? && !kind.Fallback? && now < until && KeyLocked(s, kind, key, until)
    requires s.nextRef !in s.heap && other !in Reg(s, of).entries
    ensures var s' := ReserveNew(s, id, of, other, slot, now);
            KeyLocked(s', kind, key, until) && s'.heap[Reg(s', kind).entries[key]] == s.heap[Reg(s, kind).entries[key]]
  {
    if |Reg(s, of).entries| >= Reg(s, of).capacity && !of.Source? {
      var s1 := WithFallback(s, slot);
      ReserveAtLeavesLocked(s1, id, Reservation(Fallback, other, s1.fallbacks[slot]), now, Reg(s, kind).entries[key], until);
    }
  }

  /** Nobody can give back what nobody holds. */
  lemma ReleaseLeavesLocked(s: State, id: AttemptId, of: Kind, outcome: Outcome, now: int, kind: Kind, key: string, until: int)
    requires Inv(s) && !of.Fallback? && !kind.Fallback? && now > 0 && KeyLocked(s, kind, key, until)
    ensures var s' := ReleaseSide(s, id, of, outcome, now);
            KeyLocked(s', kind, key, until) && s'.heap[Reg(s', kind).entries[key]] == s.heap[Reg(s, kind).entries[key]]
  {
    if Held(s.attempts, id, of).Some? {
      ReleaseTakesEffect(s, id, of, outcome, now);
      ReleaseKeepsKey(s, Held(s.attempts, id, of).value, outcome, now, kind, key);
      SideKeepsRegs(s, id, of, outcome, now, kind);
    }
  }

  /** Giving a side back changes a registry only by giving its entry back. */
  lemma SideKeepsRegs(s: State, id: AttemptId, of: Kind, outcome: Outcome, now: int, kind: Kind)
    requires s.config.Valid() && !kind.Fallback? && Held(s.attempts, id, of).Some?
    ensures Reg(ReleaseSide(s, id, of, outcome, now), kind) == Reg(ReleaseAt(s, Held(s.attempts, id, of).value, outcome, now), kind)
  {
  }

  /** Giving an entry back takes no other entry's key off its registry. */
  lemma ReleaseKeepsKey(s: State, res: Reservation, outcome: Outcome, now: int, kind: Kind, key: string)
    requires s.config.Valid() && !kind.Fallback? && key in Reg(s, kind).entries && Reg(s, kind).entries[key] != res.ref
    ensures var s' := ReleaseAt(s, res, outcome, now);
            key in Reg(s', kind).entries && Reg(s', kind).entries[key] == Reg(s, kind).entries[key]
  {
  }

  lemma StepLeavesLocked(s: State, step: Step, kind: Kind, key: string, until: int)
    requires Inv(s) && !kind.Fallback? && step.now < until && KeyLocked(s, kind, key, until)
    ensures var s' := Next(s, step);
            KeyLocked(s', kind, key, until) && s'.heap[Reg(s', kind).entries[key]] == s.heap[Reg(s, kind).entries[key]]
  {
    if Enabled(s, step) {
      match step
      case ReserveStep(id, of, other, slot, now) =>
        ReserveLeavesLocked(s, id, of, other, slot, now, kind, key, until);
      case ReleaseStep(id, of, outcome, now) =>
        ReleaseLeavesLocked(s, id, of, outcome, now, kind, key, until);
      case CleanupStep(of, now) =>
        CleanupLeavesLocked(s, of, now, kind, key, until);
    }
  }

  lemma CleanupLeavesLocked(s: State, of: Kind, now: int, kind: Kind, key: string, until: int)
    requires !of.Fallback? && !kind.Fallback? && now < until && KeyLocked(s, kind, key, until)
    ensures var s' := SetReg(s, of, Cleanup(s.heap, Reg(s, of), s.config.window, now));
            KeyLocked(s', kind, key, until) && Reg(s', kind).entries[key] == Reg(s, kind).entries[key]
  {
  }

  /**
   Once a key is locked with nothing in flight, it stays so: whatever steps follow, as long as they read times before
   the lockout's end, the entry does not change and no attempt on the key is admitted.
   */
  lemma {:induction false} LockoutHolds(s: State, later: seq<Step>, kind: Kind, key: string, until: int, slot: nat, now: int)
    requires Inv(s) && !kind.Fallback? && KeyLocked(s, kind, key, until)
    requires now < until && forall i :: 0 <= i < |later| ==> later[i].now < until
    ensures var s' := Run(s, later);
            && KeyLocked(s', kind, key, until) && s'.heap[Reg(s', kind).entries[key]] == s.heap[Reg(s, kind).entries[key]]
            && !Admits(s', kind, key, slot, now)
  {
    if later != [] {
      var n := |later| - 1;
      LockoutHolds(s, later[..n], kind, key, until, slot, now);
      RunKeeps(s, later[..n]);
      StepLeavesLocked(Run(s, later[..n]), later[n], kind, key, until);
    }
  }

  // ---------- shared entries ----------

  /** A slot's shared entry, once made, is that slot's for good. */
  lemma SlotStays(s: State, step: Step, slot: nat)
    requires slot in s.fallbacks
    ensures slot in Next(s, step).fallbacks && Next(s, step).fallbacks[slot] == s.fallbacks[slot]
  {
    if Enabled(s, step) && step.ReserveStep? {
      ReserveKeepsSlot(s, step.id, step.kind, step.key, step.slot, step.now, slot);
    }
  }

  lemma ReserveKeepsSlot(s: State, id: AttemptId, kind: Kind, key: string, other: nat, now: int, slot: nat)
    requires !kind.Fallback? && slot in s.fallbacks
    ensures var s' := ReserveKey(s, id, kind, key, other, now);
            slot in s'.fallbacks && s'.fallbacks[slot] == s.fallbacks[slot]
  {
    assert Room(s, kind, now).fallbacks == s.fallbacks;
  }

  ghost predicate SlotLocked(s: State, slot: nat, until: int) {
    slot in s.fallbacks && LockedIdle(s, s.fallbacks[slot], until)
  }

  lemma StepLeavesSlotLocked(s: State, step: Step, slot: nat, until: int)
    requires Inv(s) && step.now < until && SlotLocked(s, slot, until)
    ensures SlotLocked(Next(s, step), slot, until)
  {
    SlotStays(s, step, slot);
    if Enabled(s, step) {
      match step
      case ReserveStep(id, of, other, otherSlot, now) =>
        NobodyHolds(s);
        ReserveLeavesEntry(s, id, of, other, otherSlot, now, s.fallbacks[slot], until);
      case ReleaseStep(id, of, outcome, now) =>
        if Held(s.attempts, id, of).Some? {
          ReleaseTakesEffect(s, id, of, outcome, now);
        }
      case CleanupStep(of, now) =>
    }
  }

  lemma ReserveLeavesEntry(s: State, id: AttemptId, of: Kind, other: string, otherSlot: nat, now: int, r: Ref, until: int)
    requires s.nextRef !in s.heap && !of.Fallback? && now < until && LockedIdle(s, r, until)
    ensures LockedIdle(ReserveKey(s, id, of, other, otherSlot, now), r, until)
  {
    if other in Reg(s, of).entries {
      ReserveAtLeavesLocked(s, id, Reservation(of, other, Reg(s, of).entries[other]), now, r, until);
    } else {
      NewLeavesEntry(Room(s, of, now), id, of, other, otherSlot, now, r, until);
    }
  }

  lemma NewLeavesEntry(s: State, id: AttemptId, of: Kind, other: string, otherSlot: nat, now: int, r: Ref, until: int)
    requires s.nextRef !in s.heap && !of.Fallback? && now < until && LockedIdle(s, r, until)
    ensures LockedIdle(ReserveNew(s, id, of, other, otherSlot, now), r, until)
  {
    if |Reg(s, of).entries| >= Reg(s, of).capacity && !of.Source? {
      var s1 := WithFallback(s, otherSlot);
      ReserveAtLeavesLocked(s1, id, Reservation(Fallback, other, s1.fallbacks[otherSlot]), now, r, until);
    }
  }

  /**
   A locked shared entry stays so too, whatever steps follow with readings before the lockout's end: a username that has
   no entry and no room for one, and falls back to that slot, is not admitted.
   */
  lemma {:induction false} SharedLockoutHolds(s: State, later: seq<Step>, slot: nat, until: int, key: string, now: int)
    requires Inv(s) && SlotLocked(s, slot, until)
    requires now < until && forall i :: 0 <= i < |later| ==> later[i].now < until
    ensures var s' := Run(s, later);
            && SlotLocked(s', slot, until)
            && (key !in s'.username.entries && !HasRoom(s', Username, now) ==> !Admits(s', Username, key, slot, now))
  {
    if later != [] {
      var n := |later| - 1;
      SharedLockoutHolds(s, later[..n], slot, until, key, now);
      RunKeeps(s, later[..n]);
      StepLeavesSlotLocked(Run(s, later[..n]), later[n], slot, until);
    }
  }
}
