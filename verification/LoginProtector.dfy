/**
 The login-failure protector. Failure entries live on a heap and are shared by reference between
 a bounded registry, or a fallback slot, and the attempts that hold them. An attempt reserves a
 source entry and a username entry, and gives both back when it completes. Everything happens
 under one mutex, so each reservation and each release is one step; clock readings are positive
 and come in any order.
 */
module LoginProtector {
  import opened Basics

  type Ref = nat
  type AttemptId = nat

  /** The registry, or the fallback slots, an entry was made for. */
  datatype Kind = Source | Username | Fallback

  datatype Outcome = Abandoned | Failed | Succeeded

  datatype Event = Event(outcome: Outcome, now: int)

  /** A loginFailureEntry; 0 is Go's zero time. `log` is every completion so far, and only claims look at it. */
  datatype Entry = Entry(kind: Kind, failureCount: int, lastFailure: int, lockedUntil: int, inFlight: int, log: seq<Event>)

  /** `known` and `next` are the lazily kept hint of when an entry may first be removed. */
  datatype Registry = Registry(entries: map<string, Ref>, known: bool, next: int, capacity: nat, count: int)

  datatype Reservation = Reservation(kind: Kind, key: string, ref: Ref)

  datatype Attempt = Attempt(source: Option<Reservation>, username: Option<Reservation>)

  datatype Config = Config(threshold: int, window: int, baseLockout: int, maxLockout: int) {
    predicate Valid() {
      threshold > 0 && window > 0 && 0 < baseLockout <= maxLockout
    }
  }

  datatype State = State(
    config: Config,
    heap: map<Ref, Entry>,
    nextRef: Ref,
    source: Registry,
    username: Registry,
    fallbacks: map<nat, Ref>,
    attempts: map<AttemptId, Attempt>)

  // ---------- lockout length ----------

  /** lockoutDurationForFailures, with its division instead of a product that could overflow. */
  function Lockout(c: Config, failureCount: int): int
    requires c.Valid()
  {
    var excess := failureCount - c.threshold;
    var low := if excess < 0 then 0 else excess;
    var shift := if low > 8 then 8 else low;
    if c.baseLockout > c.maxLockout / Pow2(shift) then c.maxLockout else c.baseLockout * Pow2(shift)
  }

  /** The lockout is the base doubled once per excess failure, eight times at most, capped at the maximum. */
  lemma LockoutIsCappedDoubling(c: Config, failureCount: int)
    requires c.Valid() && failureCount >= c.threshold
    ensures Lockout(c, failureCount) == Min(c.maxLockout, c.baseLockout * Pow2(Min(failureCount - c.threshold, 8)))
    ensures 0 < Lockout(c, failureCount) <= c.maxLockout
  {
    var m := Pow2(Min(failureCount - c.threshold, 8));
    var q := c.maxLockout / m;
    QuotientBounds(c.maxLockout, m, q);
    ScaleMonotone(m, q + 1, c.baseLockout);
    ScaleMonotone(m, c.baseLockout, q);
    ScaleMonotone(c.baseLockout, 1, m);
  }

  // ---------- entries ----------

  /** reserveExistingFailureEntryLocked: None when the attempt is refused. */
  function Reserve(e: Entry, threshold: int, now: int): Option<Entry> {
    if e.lockedUntil > now then None
    else if e.inFlight > 0 && e.failureCount + e.inFlight >= threshold then None
    else Some(e.(inFlight := e.inFlight + 1))
  }

  /** The entry after one of its attempts has completed. */
  function Release(e: Entry, c: Config, outcome: Outcome, now: int): Entry
    requires c.Valid()
  {
    var e1 := e.(inFlight := e.inFlight - 1, log := e.log + [Event(outcome, now)]);
    match outcome
    case Abandoned => e1
    case Succeeded => e1.(failureCount := 0, lastFailure := 0, lockedUntil := 0)
    case Failed =>
      var expired := e.lastFailure != 0 && e.lastFailure + c.window <= now;
      var e2 := if expired then e1.(failureCount := 0, lockedUntil := 0) else e1;
      var e3 := e2.(failureCount := e2.failureCount + 1, lastFailure := now);
      if e3.failureCount >= c.threshold then e3.(lockedUntil := now + Lockout(c, e3.failureCount)) else e3
  }

  function Expiry(e: Entry, window: int): int {
    var x := if e.lastFailure != 0 then e.lastFailure + window else 0;
    if e.lockedUntil > x then e.lockedUntil else x
  }

  predicate Removable(e: Entry, window: int, now: int) {
    e.inFlight == 0 && (e.lastFailure == 0 || e.lastFailure + window <= now) && e.lockedUntil <= now
  }

  // ---------- registries ----------

  /** The entry behind a reference; every reference in use points at one. */
  function At(heap: map<Ref, Entry>, r: Ref): Entry {
    if r in heap then heap[r] else Entry(Fallback, 0, 0, 0, 0, [])
  }

  function Kept(heap: map<Ref, Entry>, reg: Registry, window: int, now: int): map<string, Ref> {
    map k | k in reg.entries && !Removable(At(heap, reg.entries[k]), window, now) :: reg.entries[k]
  }

  /** The expiries of entries no attempt holds. */
  function IdleExpiries(heap: map<Ref, Entry>, entries: map<string, Ref>, window: int): set<int> {
    set k | k in entries && At(heap, entries[k]).inFlight == 0 && Expiry(At(heap, entries[k]), window) != 0
      :: Expiry(At(heap, entries[k]), window)
  }

  /** cleanupLoginFailuresLocked and cleanupUsernameFailuresLocked. */
  ghost function Cleanup(heap: map<Ref, Entry>, reg: Registry, window: int, now: int): Registry
  {
    var kept := Kept(heap, reg, window, now);
    var times := IdleExpiries(heap, kept, window);
    reg.(entries := kept,
         known := exists t :: t in times,
         next := if exists t :: t in times then Earliest(times) else 0,
         count := reg.count - (|reg.entries| - |kept|))
  }

  /** Room for a new key is looked for only when the registry is full and the hint has come due. */
  ghost function MakeRoom(heap: map<Ref, Entry>, reg: Registry, window: int, now: int): Registry
  {
    if |reg.entries| >= reg.capacity && reg.known && reg.next <= now then Cleanup(heap, reg, window, now) else reg
  }

  /** recordLoginFailureExpiryLocked and recordUsernameFailureExpiryLocked. */
  function RecordExpiry(reg: Registry, e: Entry, window: int): Registry {
    var expiry := Expiry(e, window);
    if expiry == 0 then reg
    else if !reg.known || expiry < reg.next then reg.(known := true, next := expiry)
    else reg
  }

  /** The registry an entry belongs to, once one of its attempts has completed. */
  function RegAfter(reg: Registry, key: string, e: Entry, window: int, now: int): Registry {
    if e.inFlight == 0 && e.failureCount == 0 && e.lockedUntil <= now
    then reg.(entries := reg.entries - {key}, count := reg.count - 1)
    else if e.inFlight == 0 then RecordExpiry(reg, e, window)
    else reg
  }

  // ---------- the steps ----------

  function Reg(s: State, kind: Kind): Registry
    requires !kind.Fallback?
  {
    if kind.Source? then s.source else s.username
  }

  function SetReg(s: State, kind: Kind, reg: Registry): State
    requires !kind.Fallback?
  {
    if kind.Source? then s.(source := reg) else s.(username := reg)
  }

  type Attempts = map<AttemptId, Attempt>

  function AttemptOf(attempts: Attempts, id: AttemptId): Attempt {
    if id in attempts then attempts[id] else Attempt(None, None)
  }

  function Held(attempts: Attempts, id: AttemptId, kind: Kind): Option<Reservation> {
    var a := AttemptOf(attempts, id);
    if kind.Source? then a.source else a.username
  }

  function Hold(attempts: Attempts, id: AttemptId, r: Reservation): Attempts {
    var a := AttemptOf(attempts, id);
    attempts[id := if r.kind.Source? then a.(source := Some(r)) else a.(username := Some(r))]
  }

  function Drop(attempts: Attempts, id: AttemptId, kind: Kind): Attempts {
    var a := AttemptOf(attempts, id);
    attempts[id := if kind.Source? then a.(source := None) else a.(username := None)]
  }

  /** Reserve an entry that exists; the state is unchanged when the attempt is refused. */
  function ReserveAt(s: State, id: AttemptId, r: Reservation, now: int): State
  {
    match Reserve(At(s.heap, r.ref), s.config.threshold, now)
    case None => s
    case Some(e) => s.(heap := s.heap[r.ref := e], attempts := Hold(s.attempts, id, r))
  }

  function Create(s: State, id: AttemptId, kind: Kind, key: string): State
    requires !kind.Fallback?
  {
    var reg := Reg(s, kind);
    var s1 := SetReg(s, kind, reg.(entries := reg.entries[key := s.nextRef], count := reg.count + 1));
    s1.(heap := s.heap[s.nextRef := Entry(kind, 0, 0, 0, 1, [])],
        nextRef := s.nextRef + 1,
        attempts := Hold(s.attempts, id, Reservation(kind, key, s.nextRef)))
  }

  /** The shared entry of a fallback slot, made on first use. */
  function WithFallback(s: State, slot: nat): State {
    if slot in s.fallbacks then s
    else s.(fallbacks := s.fallbacks[slot := s.nextRef],
            heap := s.heap[s.nextRef := Entry(Fallback, 0, 0, 0, 0, [])],
            nextRef := s.nextRef + 1)
  }

  /** One registry, after room for a new key has been looked for. */
  ghost function Room(s: State, kind: Kind, now: int): State
    requires !kind.Fallback?
  {
    SetReg(s, kind, MakeRoom(s.heap, Reg(s, kind), s.config.window, now))
  }

  function ReserveFallback(s: State, id: AttemptId, key: string, slot: nat, now: int): State {
    var s1 := WithFallback(s, slot);
    ReserveAt(s1, id, Reservation(Fallback, key, s1.fallbacks[slot]), now)
  }

  /** A key without an entry gets one of its own, or the shared one; a full source registry refuses. */
  function ReserveNew(s: State, id: AttemptId, kind: Kind, key: string, slot: nat, now: int): State
    requires !kind.Fallback?
  {
    if |Reg(s, kind).entries| < Reg(s, kind).capacity then Create(s, id, kind, key)
    else if kind.Source? then s
    else ReserveFallback(s, id, key, slot, now)
  }

  /** reserveSourceFailureLocked and reserveUsernameFailureLocked; `slot` is the key's fallback bucket. */
  ghost function ReserveKey(s: State, id: AttemptId, kind: Kind, key: string, slot: nat, now: int): State
    requires !kind.Fallback?
  {
    if key in Reg(s, kind).entries
    then ReserveAt(s, id, Reservation(kind, key, Reg(s, kind).entries[key]), now)
    else ReserveNew(Room(s, kind, now), id, kind, key, slot, now)
  }

  /** completeFailureReservationLocked */
  function ReleaseAt(s: State, r: Reservation, outcome: Outcome, now: int): State
    requires s.config.Valid()
  {
    var e := At(s.heap, r.ref);
    if e.inFlight <= 0 then s
    else if !r.kind.Fallback? && !(r.key in Reg(s, r.kind).entries && Reg(s, r.kind).entries[r.key] == r.ref) then s
    else
      var e' := Release(e, s.config, outcome, now);
      var s1 := s.(heap := s.heap[r.ref := e']);
      if r.kind.Fallback? then s1
      else SetReg(s1, r.kind, RegAfter(Reg(s, r.kind), r.key, e', s.config.window, now))
  }

  function ReleaseSide(s: State, id: AttemptId, kind: Kind, outcome: Outcome, now: int): State
    requires s.config.Valid()
  {
    var r := Held(s.attempts, id, kind);
    if r.None? then s
    else ReleaseAt(s, r.value, outcome, now).(attempts := Drop(s.attempts, id, kind))
  }

  // ---------- the invariant ----------

  predicate Holds(a: Attempt, r: Ref) {
    (a.source.Some? && a.source.value.ref == r) || (a.username.Some? && a.username.value.ref == r)
  }

  /** The uncompleted attempts that hold an entry. */
  function Holders(attempts: Attempts, r: Ref): set<AttemptId> {
    set id | id in attempts && Holds(attempts[id], r)
  }

  /** Either at most one attempt is in flight, or failures and attempts stay within the threshold. */
  predicate EntryOk(e: Entry, c: Config) {
    && 0 <= e.inFlight && 0 <= e.failureCount && 0 <= e.lockedUntil
    && (e.failureCount == 0 ==> e.lastFailure == 0 && e.lockedUntil == 0)
    && (e.failureCount > 0 ==> e.lastFailure > 0)
    && (e.inFlight <= 1 || e.failureCount + e.inFlight <= c.threshold)
  }

  /** An entry that may expire is covered by the hint. */
  predicate Hinted(reg: Registry, e: Entry, window: int) {
    e.inFlight == 0 ==> e.failureCount > 0 && reg.known && reg.next <= Expiry(e, window)
  }

  ghost predicate RegOk(heap: map<Ref, Entry>, reg: Registry, kind: Kind, window: int) {
    && reg.count == |reg.entries| <= reg.capacity
    && (forall k :: k in reg.entries ==>
          && reg.entries[k] in heap && heap[reg.entries[k]].kind == kind
          && Hinted(reg, heap[reg.entries[k]], window))
  }

  ghost predicate RefOk(s: State, r: Ref)
    requires r in s.heap
  {
    r < s.nextRef && EntryOk(s.heap[r], s.config) && s.heap[r].inFlight == |Holders(s.attempts, r)|
  }

  ghost predicate HeapOk(s: State) {
    forall r :: r in s.heap ==> RefOk(s, r)
  }

  predicate ReservationOk(s: State, r: Reservation) {
    && r.ref in s.heap && s.heap[r.ref].kind == r.kind
    && (!r.kind.Fallback? ==> r.key in Reg(s, r.kind).entries && Reg(s, r.kind).entries[r.key] == r.ref)
  }

  /** A held entry is on the heap, and a held dedicated entry is registered under its key. */
  predicate AttemptOk(s: State, a: Attempt) {
    && (a.source.Some? ==> a.source.value.kind.Source? && ReservationOk(s, a.source.value))
    && (a.username.Some? ==> !a.username.value.kind.Source? && ReservationOk(s, a.username.value))
  }

  predicate AttemptsOk(s: State) {
    forall id :: id in s.attempts ==> AttemptOk(s, s.attempts[id])
  }

  predicate FallbacksOk(s: State) {
    forall i :: i in s.fallbacks ==> s.fallbacks[i] in s.heap && s.heap[s.fallbacks[i]].kind.Fallback?
  }

  /** Keys of one registry name different entries. */
  predicate Unshared(reg: Registry) {
    forall k, l :: k in reg.entries && l in reg.entries && reg.entries[k] == reg.entries[l] ==> k == l
  }

  ghost predicate RegsOk(s: State) {
    && RegOk(s.heap, s.source, Source, s.config.window) && Unshared(s.source)
    && RegOk(s.heap, s.username, Username, s.config.window) && Unshared(s.username)
  }

  ghost predicate Inv(s: State) {
    s.config.Valid() && HeapOk(s) && RegsOk(s) && FallbacksOk(s) && AttemptsOk(s)
  }

  // ---------- entries ----------

  /** A release keeps the entry well formed, and leaves a lockout only when nothing is in flight any more. */
  lemma ReleaseOk(e: Entry, c: Config, outcome: Outcome, now: int)
    requires c.Valid() && EntryOk(e, c) && e.inFlight > 0 && now > 0
    ensures var e' := Release(e, c, outcome, now);
            && EntryOk(e', c) && e'.inFlight == e.inFlight - 1 && e'.kind == e.kind
            && (e'.lockedUntil != e.lockedUntil && e'.lockedUntil != 0 ==>
                  e'.inFlight == 0 && outcome.Failed? && e'.failureCount >= c.threshold
                  && e'.lockedUntil == now + Lockout(c, e'.failureCount))
  {
    if outcome.Failed? {
      var n := if e.lastFailure != 0 && e.lastFailure + c.window <= now then 1 else e.failureCount + 1;
      if n >= c.threshold {
        LockoutIsCappedDoubling(c, n);
      }
    }
  }

  lemma ExpiryPositive(e: Entry, c: Config)
    requires c.Valid() && EntryOk(e, c) && e.failureCount > 0
    ensures Expiry(e, c.window) > 0
    ensures forall now :: Removable(e, c.window, now) ==> Expiry(e, c.window) <= now
    ensures forall now :: e.inFlight == 0 && Expiry(e, c.window) <= now ==> Removable(e, c.window, now)
  {
  }

  // ---------- who holds what ----------

  lemma HoldAdds(attempts: Attempts, id: AttemptId, r: Reservation, x: Ref)
    requires Held(attempts, id, r.kind).None?
    ensures Holders(Hold(attempts, id, r), x) == Holders(attempts, x) + if x == r.ref then {id} else {}
  {
  }

  lemma DropRemoves(s: State, id: AttemptId, kind: Kind, x: Ref)
    requires Held(s.attempts, id, kind).Some? && AttemptOk(s, AttemptOf(s.attempts, id))
    ensures Holders(Drop(s.attempts, id, kind), x)
            == Holders(s.attempts, x) - if x == Held(s.attempts, id, kind).value.ref then {id} else {}
    ensures id in Holders(s.attempts, Held(s.attempts, id, kind).value.ref)
  {
  }

  lemma NotHolding(s: State, id: AttemptId, r: Ref)
    requires r in s.heap && Held(s.attempts, id, s.heap[r].kind).None?
    requires id in s.attempts ==> AttemptOk(s, s.attempts[id])
    ensures id !in Holders(s.attempts, r)
  {
  }

  /** A held entry has an attempt in flight. */
  lemma HeldInFlight(s: State, id: AttemptId, r: Ref)
    requires HeapOk(s) && id in s.attempts && r in s.heap && Holds(s.attempts[id], r)
    ensures s.heap[r].inFlight > 0
  {
    assert RefOk(s, r);
    assert id in Holders(s.attempts, r);
  }

  /** No attempt holds an entry that has not been made yet. */
  lemma NobodyHolds(s: State)
    requires HeapOk(s) && AttemptsOk(s)
    ensures s.nextRef !in s.heap && Holders(s.attempts, s.nextRef) == {}
  {
    assert s.nextRef in s.heap ==> RefOk(s, s.nextRef);
    forall id | id in s.attempts ensures !Holds(s.attempts[id], s.nextRef) {
      assert AttemptOk(s, s.attempts[id]);
    }
  }

  // ---------- what a step may change without breaking the rest ----------

  /** Entries stay where they are, of the kind they were made for, and change only while they are held. */
  predicate HeapGrows(heap: map<Ref, Entry>, heap': map<Ref, Entry>) {
    forall r :: r in heap ==> r in heap' && heap'[r].kind == heap[r].kind && (heap'[r] == heap[r] || heap'[r].inFlight > 0)
  }

  predicate KindsKept(heap: map<Ref, Entry>, heap': map<Ref, Entry>) {
    forall r :: r in heap ==> r in heap' && heap'[r].kind == heap[r].kind
  }

  lemma RegFrame(heap: map<Ref, Entry>, heap': map<Ref, Entry>, reg: Registry, kind: Kind, window: int)
    requires RegOk(heap, reg, kind, window) && HeapGrows(heap, heap')
    ensures RegOk(heap', reg, kind, window)
  {
  }

  lemma FallbackFrame(s: State, s': State)
    requires FallbacksOk(s) && KindsKept(s.heap, s'.heap) && s.fallbacks == s'.fallbacks
    ensures FallbacksOk(s')
  {
  }

  predicate KeepsKeys(reg: Registry, reg': Registry) {
    forall k :: k in reg.entries ==> k in reg'.entries && reg'.entries[k] == reg.entries[k]
  }

  lemma AttemptFrame(s: State, s': State, a: Attempt)
    requires AttemptOk(s, a) && KindsKept(s.heap, s'.heap)
    requires KeepsKeys(s.source, s'.source) && KeepsKeys(s.username, s'.username)
    ensures AttemptOk(s', a)
  {
  }

  lemma HoldFrame(s: State, s': State, id: AttemptId, r: Reservation)
    requires AttemptsOk(s) && KindsKept(s.heap, s'.heap)
    requires KeepsKeys(s.source, s'.source) && KeepsKeys(s.username, s'.username)
    requires s'.attempts == Hold(s.attempts, id, r) && ReservationOk(s', r)
    ensures AttemptsOk(s')
  {
    forall x | x in s'.attempts ensures AttemptOk(s', s'.attempts[x]) {
      AttemptFrame(s, s', AttemptOf(s.attempts, x));
    }
  }

  // ---------- what every step keeps ----------

  lemma CleanupRegOk(heap: map<Ref, Entry>, reg: Registry, kind: Kind, c: Config, now: int)
    requires c.Valid() && RegOk(heap, reg, kind, c.window)
    requires forall r :: r in heap ==> EntryOk(heap[r], c)
    ensures RegOk(heap, Cleanup(heap, reg, c.window, now), kind, c.window)
    ensures forall k :: k in reg.entries && heap[reg.entries[k]].inFlight > 0 ==>
              k in Cleanup(heap, reg, c.window, now).entries
              && Cleanup(heap, reg, c.window, now).entries[k] == reg.entries[k]
  {
    var kept := Kept(heap, reg, c.window, now);
    var times := IdleExpiries(heap, kept, c.window);
    assert kept.Keys <= reg.entries.Keys;
    SubsetSize(kept.Keys, reg.entries.Keys);
    assert |kept| == |kept.Keys| && |reg.entries| == |reg.entries.Keys|;
    forall k | k in kept && heap[kept[k]].inFlight == 0
      ensures Expiry(heap[kept[k]], c.window) in times
    {
      ExpiryPositive(heap[kept[k]], c);
    }
  }

  /** Cleaning one registry keeps the invariant: only entries no attempt holds are forgotten. */
  lemma CleanupKeeps(s: State, kind: Kind, now: int)
    requires Inv(s) && !kind.Fallback?
    ensures Inv(SetReg(s, kind, Cleanup(s.heap, Reg(s, kind), s.config.window, now)))
  {
    CleanupRegOk(s.heap, Reg(s, kind), kind, s.config, now);
    var s' := SetReg(s, kind, Cleanup(s.heap, Reg(s, kind), s.config.window, now));
    forall r | r in s'.heap ensures RefOk(s', r) {
      assert RefOk(s, r);
    }
    forall id | id in s'.attempts ensures AttemptOk(s', s'.attempts[id]) {
      CleanupAttempt(s, kind, now, id);
    }
  }

  lemma CleanupAttempt(s: State, kind: Kind, now: int, id: AttemptId)
    requires HeapOk(s) && AttemptsOk(s) && !kind.Fallback? && id in s.attempts
    ensures AttemptOk(SetReg(s, kind, Cleanup(s.heap, Reg(s, kind), s.config.window, now)), s.attempts[id])
  {
    var a := s.attempts[id];
    assert AttemptOk(s, a);
    if a.source.Some? {
      HeldInFlight(s, id, a.source.value.ref);
    }
    if a.username.Some? {
      HeldInFlight(s, id, a.username.value.ref);
    }
  }

  lemma ReserveAtRef(s: State, id: AttemptId, r: Reservation, now: int, x: Ref)
    requires s.config.Valid() && HeapOk(s) && AttemptsOk(s) && ReservationOk(s, r) && Held(s.attempts, id, r.kind).None?
    requires x in ReserveAt(s, id, r, now).heap
    ensures RefOk(ReserveAt(s, id, r, now), x)
  {
    assert RefOk(s, x);
    HoldAdds(s.attempts, id, r, x);
    NotHolding(s, id, r.ref);
  }

  lemma ReserveAtHeap(s: State, id: AttemptId, r: Reservation, now: int)
    requires s.config.Valid() && HeapOk(s) && AttemptsOk(s) && ReservationOk(s, r) && Held(s.attempts, id, r.kind).None?
    ensures HeapOk(ReserveAt(s, id, r, now)) && HeapGrows(s.heap, ReserveAt(s, id, r, now).heap)
  {
    assert RefOk(s, r.ref);
    forall x | x in ReserveAt(s, id, r, now).heap ensures RefOk(ReserveAt(s, id, r, now), x) {
      ReserveAtRef(s, id, r, now, x);
    }
  }

  lemma ReserveAtRegs(s: State, id: AttemptId, r: Reservation, now: int)
    requires RegsOk(s) && r.ref in s.heap && HeapGrows(s.heap, ReserveAt(s, id, r, now).heap)
    ensures RegsOk(ReserveAt(s, id, r, now))
  {
    var s' := ReserveAt(s, id, r, now);
    RegFrame(s.heap, s'.heap, s.source, Source, s.config.window);
    RegFrame(s.heap, s'.heap, s.username, Username, s.config.window);
  }

  lemma ReserveAtKeeps(s: State, id: AttemptId, r: Reservation, now: int)
    requires Inv(s) && ReservationOk(s, r) && Held(s.attempts, id, r.kind).None?
    ensures Inv(ReserveAt(s, id, r, now))
  {
    var s' := ReserveAt(s, id, r, now);
    if s' != s {
      ReserveAtHeap(s, id, r, now);
      ReserveAtRegs(s, id, r, now);
      FallbackFrame(s, s');
      HoldFrame(s, s', id, r);
    }
  }

  lemma CreateRef(s: State, id: AttemptId, kind: Kind, key: string, x: Ref)
    requires HeapOk(s) && AttemptsOk(s) && !kind.Fallback? && Held(s.attempts, id, kind).None?
    requires x in Create(s, id, kind, key).heap
    ensures RefOk(Create(s, id, kind, key), x)
  {
    NobodyHolds(s);
    assert x in s.heap ==> RefOk(s, x);
    HoldAdds(s.attempts, id, Reservation(kind, key, s.nextRef), x);
    assert |{id}| == 1;
  }

  lemma CreateHeap(s: State, id: AttemptId, kind: Kind, key: string)
    requires HeapOk(s) && AttemptsOk(s) && !kind.Fallback? && Held(s.attempts, id, kind).None?
    ensures HeapOk(Create(s, id, kind, key)) && HeapGrows(s.heap, Create(s, id, kind, key).heap)
  {
    NobodyHolds(s);
    forall x | x in Create(s, id, kind, key).heap ensures RefOk(Create(s, id, kind, key), x) {
      CreateRef(s, id, kind, key, x);
    }
  }

  lemma RegAdd(heap: map<Ref, Entry>, reg: Registry, kind: Kind, window: int, key: string, r: Ref)
    requires RegOk(heap, reg, kind, window) && Unshared(reg) && key !in reg.entries && |reg.entries| < reg.capacity
    requires r in heap && heap[r].kind == kind && heap[r].inFlight > 0
    requires forall k :: k in reg.entries ==> reg.entries[k] != r
    ensures var reg' := reg.(entries := reg.entries[key := r], count := reg.count + 1);
            RegOk(heap, reg', kind, window) && Unshared(reg')
  {
  }

  lemma CreateRegs(s: State, id: AttemptId, kind: Kind, key: string)
    requires RegsOk(s) && !kind.Fallback? && s.nextRef !in s.heap
    requires key !in Reg(s, kind).entries && |Reg(s, kind).entries| < Reg(s, kind).capacity
    ensures RegsOk(Create(s, id, kind, key))
  {
    var heap := Create(s, id, kind, key).heap;
    CreateReg(s.heap, s.source, Source, kind, s.config.window, key, s.nextRef);
    CreateReg(s.heap, s.username, Username, kind, s.config.window, key, s.nextRef);
  }

  /** A new entry leaves the other registry alone, and is added to its own. */
  lemma CreateReg(heap: map<Ref, Entry>, reg: Registry, of: Kind, kind: Kind, window: int, key: string, r: Ref)
    requires RegOk(heap, reg, of, window) && Unshared(reg) && r !in heap
    requires of == kind ==> key !in reg.entries && |reg.entries| < reg.capacity
    ensures var heap' := heap[r := Entry(kind, 0, 0, 0, 1, [])];
            var reg' := if of == kind then reg.(entries := reg.entries[key := r], count := reg.count + 1) else reg;
            RegOk(heap', reg', of, window) && Unshared(reg')
  {
    var heap' := heap[r := Entry(kind, 0, 0, 0, 1, [])];
    RegFrame(heap, heap', reg, of, window);
    if of == kind {
      RegAdd(heap', reg, kind, window, key, r);
    }
  }

  lemma CreateKeys(s: State, id: AttemptId, kind: Kind, key: string)
    requires !kind.Fallback? && key !in Reg(s, kind).entries
    ensures var s' := Create(s, id, kind, key);
            && KeepsKeys(s.source, s'.source) && KeepsKeys(s.username, s'.username)
            && ReservationOk(s', Reservation(kind, key, s.nextRef))
            && s'.attempts == Hold(s.attempts, id, Reservation(kind, key, s.nextRef))
            && s'.fallbacks == s.fallbacks && s'.config == s.config
  {
  }

  lemma CreateKeeps(s: State, id: AttemptId, kind: Kind, key: string)
    requires Inv(s) && !kind.Fallback? && Held(s.attempts, id, kind).None?
    requires key !in Reg(s, kind).entries && |Reg(s, kind).entries| < Reg(s, kind).capacity
    ensures Inv(Create(s, id, kind, key))
  {
    var s' := Create(s, id, kind, key);
    NobodyHolds(s);
    CreateHeap(s, id, kind, key);
    CreateRegs(s, id, kind, key);
    CreateKeys(s, id, kind, key);
    FallbackFrame(s, s');
    HoldFrame(s, s', id, Reservation(kind, key, s.nextRef));
  }

  lemma WithFallbackHeap(s: State, slot: nat)
    requires HeapOk(s) && AttemptsOk(s)
    ensures HeapOk(WithFallback(s, slot)) && HeapGrows(s.heap, WithFallback(s, slot).heap)
  {
    NobodyHolds(s);
    var s' := WithFallback(s, slot);
    forall x | x in s'.heap ensures RefOk(s', x) {
      assert x in s.heap ==> RefOk(s, x);
    }
  }

  lemma WithFallbackAttempts(s: State, slot: nat)
    requires AttemptsOk(s) && KindsKept(s.heap, WithFallback(s, slot).heap)
    ensures AttemptsOk(WithFallback(s, slot))
  {
    var s' := WithFallback(s, slot);
    forall id | id in s'.attempts ensures AttemptOk(s', s'.attempts[id]) {
      AttemptFrame(s, s', s.attempts[id]);
    }
  }

  lemma WithFallbackKeeps(s: State, slot: nat)
    requires Inv(s)
    ensures Inv(WithFallback(s, slot)) && slot in WithFallback(s, slot).fallbacks
    ensures WithFallback(s, slot).attempts == s.attempts
  {
    WithFallbackHeap(s, slot);
    WithFallbackAttempts(s, slot);
    WithFallbackRegs(s, slot);
  }

  lemma WithFallbackRegs(s: State, slot: nat)
    requires RegsOk(s) && FallbacksOk(s) && HeapGrows(s.heap, WithFallback(s, slot).heap)
    ensures RegsOk(WithFallback(s, slot)) && FallbacksOk(WithFallback(s, slot))
  {
    var s' := WithFallback(s, slot);
    RegFrame(s.heap, s'.heap, s.source, Source, s.config.window);
    RegFrame(s.heap, s'.heap, s.username, Username, s.config.window);
  }

  lemma RoomKeeps(s: State, kind: Kind, now: int)
    requires Inv(s) && !kind.Fallback?
    ensures Inv(Room(s, kind, now)) && Room(s, kind, now).attempts == s.attempts
    ensures forall k :: k in Reg(Room(s, kind, now), kind).entries ==> k in Reg(s, kind).entries
  {
    var reg := MakeRoom(s.heap, Reg(s, kind), s.config.window, now);
    if reg == Reg(s, kind) {
      SameReg(s, kind);
    } else {
      CleanupKeeps(s, kind, now);
      OnlyReg(s, kind, reg);
    }
  }

  lemma SameReg(s: State, kind: Kind)
    requires !kind.Fallback?
    ensures SetReg(s, kind, Reg(s, kind)) == s
  {
  }

  lemma OnlyReg(s: State, kind: Kind, reg: Registry)
    requires !kind.Fallback?
    ensures SetReg(s, kind, reg).attempts == s.attempts && Reg(SetReg(s, kind, reg), kind) == reg
  {
  }

  lemma ReserveNewKeeps(s: State, id: AttemptId, kind: Kind, key: string, slot: nat, now: int)
    requires Inv(s) && !kind.Fallback? && Held(s.attempts, id, kind).None? && key !in Reg(s, kind).entries
    ensures Inv(ReserveNew(s, id, kind, key, slot, now))
  {
    if |Reg(s, kind).entries| < Reg(s, kind).capacity {
      CreateKeeps(s, id, kind, key);
    } else if !kind.Source? {
      WithFallbackKeeps(s, slot);
      var s1 := WithFallback(s, slot);
      ReserveAtKeeps(s1, id, Reservation(Fallback, key, s1.fallbacks[slot]), now);
    }
  }

  lemma ReserveKeyKeeps(s: State, id: AttemptId, kind: Kind, key: string, slot: nat, now: int)
    requires Inv(s) && !kind.Fallback? && Held(s.attempts, id, kind).None?
    ensures Inv(ReserveKey(s, id, kind, key, slot, now))
  {
    if key in Reg(s, kind).entries {
      ReserveAtKeeps(s, id, Reservation(kind, key, Reg(s, kind).entries[key]), now);
    } else {
      RoomKeeps(s, kind, now);
      ReserveNewKeeps(Room(s, kind, now), id, kind, key, slot, now);
    }
  }

  // ---------- giving a reservation back ----------

  lemma RegReleased(heap: map<Ref, Entry>, reg: Registry, kind: Kind, window: int, r: Ref, e: Entry)
    requires RegOk(heap, reg, kind, window)
    requires forall k :: k in reg.entries ==> reg.entries[k] != r
    ensures RegOk(heap[r := e], reg, kind, window)
  {
  }

  lemma RegForgets(heap: map<Ref, Entry>, reg: Registry, kind: Kind, window: int, key: string)
    requires RegOk(heap, reg, kind, window) && Unshared(reg) && key in reg.entries
    ensures var reg' := reg.(entries := reg.entries - {key}, count := reg.count - 1);
            && RegOk(heap, reg', kind, window) && Unshared(reg')
            && (forall k :: k in reg'.entries ==> reg'.entries[k] != reg.entries[key])
  {
    assert (reg.entries - {key}).Keys == reg.entries.Keys - {key};
    assert |(reg.entries - {key}).Keys| == |reg.entries - {key}|;
  }

  lemma RegRecords(heap: map<Ref, Entry>, reg: Registry, kind: Kind, c: Config, key: string, e: Entry)
    requires c.Valid() && EntryOk(e, c) && e.failureCount > 0 && e.kind == kind
    requires RegOk(heap, reg, kind, c.window) && Unshared(reg) && key in reg.entries
    ensures RegOk(heap[reg.entries[key] := e], RecordExpiry(reg, e, c.window), kind, c.window)
    ensures RecordExpiry(reg, e, c.window).entries == reg.entries
  {
    ExpiryPositive(e, c);
  }

  /** A held side is really given back: its entry is on the heap, in flight and registered. */
  lemma ReleaseTakesEffect(s: State, id: AttemptId, kind: Kind, outcome: Outcome, now: int)
    requires s.config.Valid() && HeapOk(s) && AttemptsOk(s) && now > 0 && Held(s.attempts, id, kind).Some?
    ensures var r := Held(s.attempts, id, kind).value;
            var s' := ReleaseSide(s, id, kind, outcome, now);
            && r.ref in s.heap && s.heap[r.ref].inFlight > 0 && EntryOk(s.heap[r.ref], s.config)
            && s'.heap == s.heap[r.ref := Release(s.heap[r.ref], s.config, outcome, now)]
            && s'.attempts == Drop(s.attempts, id, kind) && s'.nextRef == s.nextRef && s'.config == s.config
  {
    var r := Held(s.attempts, id, kind).value;
    assert AttemptOk(s, s.attempts[id]);
    HeldInFlight(s, id, r.ref);
    assert RefOk(s, r.ref);
  }

  lemma ReleaseRef(s: State, s': State, id: AttemptId, kind: Kind, e: Entry, x: Ref)
    requires HeapOk(s) && AttemptsOk(s) && Held(s.attempts, id, kind).Some?
    requires var r := Held(s.attempts, id, kind).value.ref;
             && r in s.heap && EntryOk(e, s.config) && e.inFlight == s.heap[r].inFlight - 1
             && s'.heap == s.heap[r := e] && s'.attempts == Drop(s.attempts, id, kind)
             && s'.nextRef == s.nextRef && s'.config == s.config
    requires x in s'.heap
    ensures RefOk(s', x)
  {
    assert RefOk(s, x);
    assert AttemptOk(s, s.attempts[id]);
    DropRemoves(s, id, kind, x);
  }

  /** The held entry as it will be, and who still holds what. */
  lemma ReleaseHeap(s: State, id: AttemptId, kind: Kind, outcome: Outcome, now: int)
    requires s.config.Valid() && HeapOk(s) && AttemptsOk(s) && now > 0 && Held(s.attempts, id, kind).Some?
    ensures var r := Held(s.attempts, id, kind).value;
            var s' := ReleaseSide(s, id, kind, outcome, now);
            && r.ref in s.heap && s'.heap == s.heap[r.ref := Release(s.heap[r.ref], s.config, outcome, now)]
            && EntryOk(s'.heap[r.ref], s.config) && s'.heap[r.ref].kind == s.heap[r.ref].kind
            && HeapOk(s')
  {
    ReleaseTakesEffect(s, id, kind, outcome, now);
    var r := Held(s.attempts, id, kind).value;
    var s' := ReleaseSide(s, id, kind, outcome, now);
    ReleaseOk(s.heap[r.ref], s.config, outcome, now);
    forall x | x in s'.heap ensures RefOk(s', x) {
      ReleaseRef(s, s', id, kind, Release(s.heap[r.ref], s.config, outcome, now), x);
    }
  }

  lemma ReleaseRegs(s: State, id: AttemptId, kind: Kind, outcome: Outcome, now: int)
    requires Inv(s) && now > 0 && Held(s.attempts, id, kind).Some?
    ensures RegsOk(ReleaseSide(s, id, kind, outcome, now))
  {
    var r := Held(s.attempts, id, kind).value;
    assert AttemptOk(s, s.attempts[id]);
    HeldInFlight(s, id, r.ref);
    ReleaseHeap(s, id, kind, outcome, now);
    ReleaseAtRegs(s, r, outcome, now);
  }

  lemma ReleaseAtRegs(s: State, r: Reservation, outcome: Outcome, now: int)
    requires s.config.Valid() && RegsOk(s) && ReservationOk(s, r) && s.heap[r.ref].inFlight > 0 && now > 0
    requires EntryOk(Release(s.heap[r.ref], s.config, outcome, now), s.config)
    ensures RegsOk(ReleaseAt(s, r, outcome, now))
  {
    var e := Release(s.heap[r.ref], s.config, outcome, now);
    var c := s.config;
    if !r.kind.Source? {
      RegReleased(s.heap, s.source, Source, c.window, r.ref, e);
    }
    if !r.kind.Username? {
      RegReleased(s.heap, s.username, Username, c.window, r.ref, e);
    }
    if !r.kind.Fallback? {
      OwnRegReleased(s.heap, Reg(s, r.kind), r.kind, c, r.key, e, now);
    }
  }

  lemma OwnRegReleased(heap: map<Ref, Entry>, reg: Registry, kind: Kind, c: Config, key: string, e: Entry, now: int)
    requires c.Valid() && RegOk(heap, reg, kind, c.window) && Unshared(reg) && key in reg.entries
    requires EntryOk(e, c) && e.kind == kind && now > 0
    ensures var reg' := RegAfter(reg, key, e, c.window, now);
            RegOk(heap[reg.entries[key] := e], reg', kind, c.window) && Unshared(reg')
  {
    if e.inFlight == 0 && e.failureCount == 0 && e.lockedUntil <= now {
      RegForgets(heap, reg, kind, c.window, key);
      RegReleased(heap, RegAfter(reg, key, e, c.window, now), kind, c.window, reg.entries[key], e);
    } else if e.inFlight == 0 {
      RegRecords(heap, reg, kind, c, key, e);
    }
  }

  lemma ReleaseAtShape(s: State, r: Reservation, outcome: Outcome, now: int, other: Kind, key: string)
    requires s.config.Valid() && r.ref in s.heap && !other.Fallback? && key in Reg(s, other).entries
    ensures var s' := ReleaseAt(s, r, outcome, now);
            && r.ref in s'.heap
            && ((s'.heap[r.ref].inFlight == 0 && other == r.kind && key == r.key)
                || (key in Reg(s', other).entries && Reg(s', other).entries[key] == Reg(s, other).entries[key]))
  {
  }

  lemma DropOnly(attempts: Attempts, id: AttemptId, kind: Kind, x: AttemptId, other: Kind)
    requires Held(Drop(attempts, id, kind), x, other).Some?
    ensures Held(attempts, x, other) == Held(Drop(attempts, id, kind), x, other)
    ensures id in attempts && x in Drop(attempts, id, kind) ==> x in attempts
  {
  }

  /** An attempt that still holds a dedicated entry finds it registered: the entry is forgotten only by its last holder. */
  lemma ReleaseReservation(s: State, s': State, mine: Reservation, r: Reservation, outcome: Outcome, now: int)
    requires s.config.Valid() && mine.ref in s.heap && ReservationOk(s, mine) && ReservationOk(s, r)
    requires KindsKept(s.heap, s'.heap) && s'.heap[r.ref].inFlight > 0
    requires s' == ReleaseAt(s, mine, outcome, now).(attempts := s'.attempts)
    ensures ReservationOk(s', r)
  {
    if !r.kind.Fallback? {
      ReleaseAtShape(s, mine, outcome, now, r.kind, r.key);
    }
  }

  lemma ReleaseAttempt(s: State, s': State, id: AttemptId, kind: Kind, outcome: Outcome, now: int, x: AttemptId)
    requires s.config.Valid() && AttemptsOk(s) && Held(s.attempts, id, kind).Some?
    requires s' == ReleaseSide(s, id, kind, outcome, now) && HeapOk(s') && KindsKept(s.heap, s'.heap)
    requires x in s'.attempts
    ensures AttemptOk(s', s'.attempts[x])
  {
    var mine := Held(s.attempts, id, kind).value;
    assert AttemptOk(s, s.attempts[id]) && AttemptOk(s, s.attempts[x]);
    var a := s'.attempts[x];
    if a.source.Some? {
      DropOnly(s.attempts, id, kind, x, Source);
      HeldInFlight(s', x, a.source.value.ref);
      ReleaseReservation(s, s', mine, a.source.value, outcome, now);
    }
    if a.username.Some? {
      DropOnly(s.attempts, id, kind, x, Username);
      HeldInFlight(s', x, a.username.value.ref);
      ReleaseReservation(s, s', mine, a.username.value, outcome, now);
    }
  }

  lemma ReleaseHeldKeeps(s: State, s': State, id: AttemptId, kind: Kind, outcome: Outcome, now: int)
    requires Inv(s) && now > 0 && Held(s.attempts, id, kind).Some? && s' == ReleaseSide(s, id, kind, outcome, now)
    ensures HeapOk(s') && RegsOk(s') && KindsKept(s.heap, s'.heap) && s'.config == s.config
  {
    ReleaseTakesEffect(s, id, kind, outcome, now);
    ReleaseHeap(s, id, kind, outcome, now);
    ReleaseRegs(s, id, kind, outcome, now);
  }

  lemma ReleaseSideKeeps(s: State, id: AttemptId, kind: Kind, outcome: Outcome, now: int)
    requires Inv(s) && now > 0
    ensures Inv(ReleaseSide(s, id, kind, outcome, now))
  {
    if Held(s.attempts, id, kind).Some? {
      ReleaseHeldKeeps(s, ReleaseSide(s, id, kind, outcome, now), id, kind, outcome, now);
      ReleaseRest(s, id, kind, outcome, now);
    }
  }

  lemma ReleaseRest(s: State, id: AttemptId, kind: Kind, outcome: Outcome, now: int)
    requires s.config.Valid() && AttemptsOk(s) && FallbacksOk(s) && Held(s.attempts, id, kind).Some?
    requires HeapOk(ReleaseSide(s, id, kind, outcome, now)) && KindsKept(s.heap, ReleaseSide(s, id, kind, outcome, now).heap)
    ensures FallbacksOk(ReleaseSide(s, id, kind, outcome, now))
    ensures AttemptsOk(ReleaseSide(s, id, kind, outcome, now))
  {
    var s' := ReleaseSide(s, id, kind, outcome, now);
    FallbackFrame(s, s');
    forall x | x in s'.attempts ensures AttemptOk(s', s'.attempts[x]) {
      ReleaseAttempt(s, s', id, kind, outcome, now, x);
    }
  }
}
