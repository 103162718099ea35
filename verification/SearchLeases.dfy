/**
 The search concurrency limiter. Entries are shared by reference between the map of users and the
 release closures of live leases; limits change while leases are held, and idle entries are dropped.
 Every operation runs under one mutex.
 */
module SearchLeases {
  import opened Basics

  type Ref = nat
  type LeaseId = nat

  datatype Entry = Entry(active: int, lastSeen: int)

  datatype Lease = Lease(user: string, ref: Ref)

  /** `leases` holds the leases not yet released, `issued` every lease ever granted. */
  datatype State = State(
    globalLimit: int,
    perUserLimit: int,
    globalActive: int,
    entries: map<string, Ref>,
    heap: map<Ref, Entry>,
    nextRef: Ref,
    leases: map<LeaseId, Lease>,
    issued: set<LeaseId>)

  /** searchConcurrencyEntryIdleTimeout, in nanoseconds */
  const IDLE_TIMEOUT: int := 1_800_000_000_000

  // ---------- the operations ----------

  function At(heap: map<Ref, Entry>, r: Ref): Entry {
    if r in heap then heap[r] else Entry(0, 0)
  }

  function Active(s: State, user: string): int {
    if user in s.entries then At(s.heap, s.entries[user]).active else 0
  }

  predicate ValidLimits(globalLimit: int, perUserLimit: int) {
    0 < perUserLimit <= globalLimit
  }

  /** The user's entry, made if missing, marked as seen. */
  function Seen(s: State, user: string, now: int): State {
    if user in s.entries
    then s.(heap := s.heap[s.entries[user] := Entry(Active(s, user), now)])
    else s.(entries := s.entries[user := s.nextRef], heap := s.heap[s.nextRef := Entry(0, now)], nextRef := s.nextRef + 1)
  }

  function Grant(s: State, id: LeaseId, user: string): State
    requires user in s.entries
  {
    var r := s.entries[user];
    s.(globalActive := s.globalActive + 1,
       heap := s.heap[r := Entry(At(s.heap, r).active + 1, At(s.heap, r).lastSeen)],
       leases := s.leases[id := Lease(user, r)],
       issued := s.issued + {id})
  }

  /** tryAcquire */
  function Acquire(s: State, id: LeaseId, user: string, now: int): State {
    if s.globalActive >= s.globalLimit then s
    else if Active(s, user) >= s.perUserLimit then Seen(s, user, now)
    else Grant(Seen(s, user, now), id, user)
  }

  /** The release closure; its sync.Once makes every call after the first do nothing. */
  function Release(s: State, id: LeaseId, now: int): State {
    if id !in s.leases then s
    else
      var r := s.leases[id].ref;
      s.(globalActive := s.globalActive - 1,
         heap := s.heap[r := Entry(At(s.heap, r).active - 1, now)],
         leases := s.leases - {id})
  }

  function WithLimits(s: State, globalLimit: int, perUserLimit: int): State {
    if ValidLimits(globalLimit, perUserLimit) then s.(globalLimit := globalLimit, perUserLimit := perUserLimit) else s
  }

  predicate IsIdle(e: Entry, now: int) {
    e.active == 0 && e.lastSeen < now - IDLE_TIMEOUT
  }

  /** cleanupIdleEntries */
  function Cleanup(s: State, now: int): State {
    s.(entries := map u | u in s.entries && !IsIdle(At(s.heap, s.entries[u]), now) :: s.entries[u])
  }

  datatype Op =
    | AcquireOp(id: LeaseId, user: string, now: int)
    | ReleaseOp(id: LeaseId, now: int)
    | UpdateOp(globalLimit: int, perUserLimit: int)
    | CleanupOp(now: int)

  function Next(s: State, op: Op): State {
    match op
    case AcquireOp(id, user, now) => if id in s.issued then s else Acquire(s, id, user, now)
    case ReleaseOp(id, now) => Release(s, id, now)
    case UpdateOp(globalLimit, perUserLimit) => WithLimits(s, globalLimit, perUserLimit)
    case CleanupOp(now) => Cleanup(s, now)
  }

  function Run(s: State, ops: seq<Op>): State {
    if ops == [] then s else Next(Run(s, ops[..|ops| - 1]), ops[|ops| - 1])
  }

  function New(globalLimit: int, perUserLimit: int): State {
    State(globalLimit, perUserLimit, 0, map[], map[], 0, map[], {})
  }

  // ---------- the invariant ----------

  /** The live leases of a user. */
  function LeasesOf(leases: map<LeaseId, Lease>, user: string): set<LeaseId> {
    set id | id in leases && leases[id].user == user
  }

  /** Users share no entry. */
  predicate Unshared(s: State) {
    && (forall u :: u in s.entries ==> s.entries[u] in s.heap)
    && (forall r :: r in s.heap ==> r < s.nextRef)
    && (forall u, v :: u in s.entries && v in s.entries && s.entries[u] == s.entries[v] ==> u == v)
  }

  /** A live lease's closure points at the entry its user is registered under. */
  predicate Registered(s: State) {
    && (forall id :: id in s.leases ==> s.leases[id].user in s.entries && s.entries[s.leases[id].user] == s.leases[id].ref)
    && s.leases.Keys <= s.issued
  }

  predicate Counted(s: State, user: string) {
    Active(s, user) == |LeasesOf(s.leases, user)|
  }

  ghost predicate Inv(s: State) {
    && Unshared(s) && Registered(s) && s.globalActive == |s.leases| && ValidLimits(s.globalLimit, s.perUserLimit)
    && forall u :: Counted(s, u)
  }

  // ---------- what every operation keeps ----------

  lemma SeenKeeps(s: State, user: string, now: int)
    requires Inv(s)
    ensures Inv(Seen(s, user, now)) && user in Seen(s, user, now).entries
    ensures forall u :: Active(Seen(s, user, now), u) == Active(s, u)
  {
    var s' := Seen(s, user, now);
    forall u ensures Active(s', u) == Active(s, u) && Counted(s', u) {
      assert Counted(s, u);
    }
  }

  lemma GrantCounted(s: State, id: LeaseId, user: string, u: string)
    requires Unshared(s) && Counted(s, u) && user in s.entries && id !in s.leases
    ensures Counted(Grant(s, id, user), u)
    ensures |LeasesOf(Grant(s, id, user).leases, u)| == |LeasesOf(s.leases, u)| + if u == user then 1 else 0
  {
    assert LeasesOf(Grant(s, id, user).leases, u) == LeasesOf(s.leases, u) + if u == user then {id} else {};
  }

  lemma GrantKeeps(s: State, id: LeaseId, user: string)
    requires Inv(s) && user in s.entries && id !in s.issued
    ensures Inv(Grant(s, id, user))
  {
    var s' := Grant(s, id, user);
    assert s'.leases.Keys == s.leases.Keys + {id};
    assert |s'.leases| == |s'.leases.Keys|;
    forall u ensures Counted(s', u) {
      assert Counted(s, u);
      GrantCounted(s, id, user, u);
    }
  }

  lemma ReleaseKeeps(s: State, id: LeaseId, now: int)
    requires Inv(s)
    ensures Inv(Release(s, id, now))
  {
    if id in s.leases {
      var s' := Release(s, id, now);
      var user := s.leases[id].user;
      assert s'.leases.Keys == s.leases.Keys - {id};
      assert |s'.leases| == |s'.leases.Keys|;
      forall u ensures Counted(s', u) {
        assert Counted(s, u);
        assert id in LeasesOf(s.leases, user);
        assert LeasesOf(s'.leases, u) == LeasesOf(s.leases, u) - if u == user then {id} else {};
      }
    }
  }

  /** Cleanup drops only entries of users without a live lease. */
  lemma CleanupKeeps(s: State, now: int)
    requires Inv(s)
    ensures Inv(Cleanup(s, now))
    ensures forall u :: LeasesOf(s.leases, u) != {} ==> u in Cleanup(s, now).entries
  {
    var s' := Cleanup(s, now);
    forall u ensures Counted(s', u) && (LeasesOf(s.leases, u) != {} ==> u in s'.entries) {
      assert Counted(s, u);
      if LeasesOf(s.leases, u) != {} {
        var id :| id in LeasesOf(s.leases, u);
        assert |LeasesOf(s.leases, u)| > 0;
      }
    }
    forall id | id in s.leases ensures s.leases[id].user in s'.entries {
      assert id in LeasesOf(s.leases, s.leases[id].user);
    }
  }

  lemma NextKeeps(s: State, op: Op)
    requires Inv(s)
    ensures Inv(Next(s, op))
  {
    match op
    case AcquireOp(id, user, now) =>
      SeenKeeps(s, user, now);
      if id !in s.issued {
        GrantKeeps(Seen(s, user, now), id, user);
      }
    case ReleaseOp(id, now) =>
      ReleaseKeeps(s, id, now);
    case UpdateOp(globalLimit, perUserLimit) =>
      UpdateKeeps(s, globalLimit, perUserLimit);
    case CleanupOp(now) =>
      CleanupKeeps(s, now);
  }

  lemma UpdateKeeps(s: State, globalLimit: int, perUserLimit: int)
    requires Inv(s)
    ensures Inv(WithLimits(s, globalLimit, perUserLimit))
  {
    forall u ensures Counted(WithLimits(s, globalLimit, perUserLimit), u) {
      assert Counted(s, u);
    }
  }

  lemma {:induction false} RunKeeps(s: State, ops: seq<Op>)
    requires Inv(s)
    ensures Inv(Run(s, ops))
  {
    if ops != [] {
      RunKeeps(s, ops[..|ops| - 1]);
      NextKeeps(Run(s, ops[..|ops| - 1]), ops[|ops| - 1]);
    }
  }

  // ---------- counts add up ----------

  ghost function Pick(users: set<string>): (u: string)
    requires users != {}
    ensures u in users
  {
    var u :| u in users; u
  }

  ghost function SumOver(users: set<string>, active: map<string, int>): int
    requires users <= active.Keys
  {
    if users == {} then 0 else active[Pick(users)] + SumOver(users - {Pick(users)}, active)
  }

  ghost function Total(active: map<string, int>): int {
    SumOver(active.Keys, active)
  }

  function LeasesAmong(leases: map<LeaseId, Lease>, users: set<string>): set<LeaseId> {
    set id | id in leases && leases[id].user in users
  }

  lemma LeasesSplit(leases: map<LeaseId, Lease>, users: set<string>, u: string)
    requires u in users
    ensures |LeasesAmong(leases, users)| == |LeasesOf(leases, u)| + |LeasesAmong(leases, users - {u})|
  {
    assert LeasesAmong(leases, users) == LeasesOf(leases, u) + LeasesAmong(leases, users - {u});
    assert LeasesOf(leases, u) !! LeasesAmong(leases, users - {u});
  }

  lemma {:induction false} SumIsLeases(leases: map<LeaseId, Lease>, users: set<string>, active: map<string, int>)
    requires users <= active.Keys && forall u :: u in active ==> active[u] == |LeasesOf(leases, u)|
    ensures SumOver(users, active) == |LeasesAmong(leases, users)|
  {
    if users == {} {
      assert LeasesAmong(leases, users) == {};
    } else {
      LeasesSplit(leases, users, Pick(users));
      SumIsLeases(leases, users - {Pick(users)}, active);
    }
  }

  function ActiveCounts(s: State): map<string, int> {
    map u | u in s.entries :: Active(s, u)
  }

  /**
   After any run: the global count is the number of live leases and the sum of the users' counts, each user's
   count is the number of that user's live leases, and so no count is negative.
   */
  lemma CountsAreLeases(globalLimit: int, perUserLimit: int, ops: seq<Op>)
    requires ValidLimits(globalLimit, perUserLimit)
    ensures var s := Run(New(globalLimit, perUserLimit), ops);
            && s.globalActive == |s.leases| == Total(ActiveCounts(s))
            && (forall u :: Active(s, u) == |LeasesOf(s.leases, u)|)
            && (forall id :: id in s.leases ==> s.leases[id].user in s.entries)
  {
    var s := Run(New(globalLimit, perUserLimit), ops);
    NewInv(globalLimit, perUserLimit);
    RunKeeps(New(globalLimit, perUserLimit), ops);
    forall u ensures Active(s, u) == |LeasesOf(s.leases, u)| {
      assert Counted(s, u);
    }
    SumIsLeases(s.leases, ActiveCounts(s).Keys, ActiveCounts(s));
    assert LeasesAmong(s.leases, ActiveCounts(s).Keys) == s.leases.Keys;
    assert |s.leases| == |s.leases.Keys|;
  }

  lemma NewInv(globalLimit: int, perUserLimit: int)
    requires ValidLimits(globalLimit, perUserLimit)
    ensures Inv(New(globalLimit, perUserLimit))
  {
    var s := New(globalLimit, perUserLimit);
    forall u ensures Counted(s, u) {
      assert LeasesOf(s.leases, u) == {};
    }
  }

  /** The limits of the last update that was valid, or those the limiter was made with. */
  function InForce(globalLimit: int, perUserLimit: int, ops: seq<Op>): (int, int) {
    if ops == [] then (globalLimit, perUserLimit)
    else
      var op := ops[|ops| - 1];
      if op.UpdateOp? && 0 < op.perUserLimit <= op.globalLimit then (op.globalLimit, op.perUserLimit)
      else InForce(globalLimit, perUserLimit, ops[..|ops| - 1])
  }

  lemma {:induction false} LimitsAreInForce(globalLimit: int, perUserLimit: int, ops: seq<Op>)
    ensures var s := Run(New(globalLimit, perUserLimit), ops);
            (s.globalLimit, s.perUserLimit) == InForce(globalLimit, perUserLimit, ops)
  {
    if ops != [] {
      LimitsAreInForce(globalLimit, perUserLimit, ops[..|ops| - 1]);
    }
  }

  /**
   After any run, a new lease is granted if and only if the live leases, in all and of that user, are below the
   limits of the last valid update before that step; no other lease is touched.
   */
  lemma AdmittedBelowBothLimits(globalLimit: int, perUserLimit: int, ops: seq<Op>, id: LeaseId, user: string, now: int)
    requires ValidLimits(globalLimit, perUserLimit)
    requires id !in Run(New(globalLimit, perUserLimit), ops).issued
    ensures var s := Run(New(globalLimit, perUserLimit), ops);
            var s' := Next(s, AcquireOp(id, user, now));
            var limits := InForce(globalLimit, perUserLimit, ops);
            && (id in s'.leases <==> |s.leases| < limits.0 && |LeasesOf(s.leases, user)| < limits.1)
            && s'.leases - {id} == s.leases && (id in s'.leases ==> s'.leases[id].user == user)
            && (id in s'.leases ==> |s'.leases| <= limits.0 && |LeasesOf(s'.leases, user)| <= limits.1)
  {
    NewInv(globalLimit, perUserLimit);
    RunKeeps(New(globalLimit, perUserLimit), ops);
    LimitsAreInForce(globalLimit, perUserLimit, ops);
    assert Counted(Run(New(globalLimit, perUserLimit), ops), user);
    AcquireIsExact(Run(New(globalLimit, perUserLimit), ops), id, user, now);
  }

  lemma LeaseAdded(leases: map<LeaseId, Lease>, id: LeaseId, lease: Lease)
    requires id !in leases
    ensures |leases[id := lease]| == |leases| + 1 && leases[id := lease] - {id} == leases == leases - {id}
    ensures |LeasesOf(leases[id := lease], lease.user)| == |LeasesOf(leases, lease.user)| + 1
  {
    assert LeasesOf(leases[id := lease], lease.user) == LeasesOf(leases, lease.user) + {id};
    assert leases[id := lease].Keys == leases.Keys + {id};
    assert |leases[id := lease]| == |leases[id := lease].Keys|;
  }

  lemma AcquireLeases(s: State, id: LeaseId, user: string, now: int)
    ensures Acquire(s, id, user, now).leases
            == if s.globalActive < s.globalLimit && Active(s, user) < s.perUserLimit
               then s.leases[id := Lease(user, Seen(s, user, now).entries[user])] else s.leases
  {
  }

  lemma AcquireIsExact(s: State, id: LeaseId, user: string, now: int)
    requires s.globalActive == |s.leases| && Counted(s, user) && id !in s.leases
    ensures var s' := Acquire(s, id, user, now);
            && (id in s'.leases <==> |s.leases| < s.globalLimit && |LeasesOf(s.leases, user)| < s.perUserLimit)
            && s'.leases - {id} == s.leases && (id in s'.leases ==> s'.leases[id].user == user)
            && (id in s'.leases ==> |s'.leases| <= s.globalLimit && |LeasesOf(s'.leases, user)| <= s.perUserLimit)
  {
    AcquireLeases(s, id, user, now);
    LeaseAdded(s.leases, id, Lease(user, Seen(s, user, now).entries[user]));
  }

  /** Releasing a lease again changes nothing, at any time and after any other operations. */
  lemma ReleasedForGood(s: State, id: LeaseId, first: int, ops: seq<Op>, second: int)
    requires id in s.issued
    ensures var s' := Run(Release(s, id, first), ops);
            Release(s', id, second) == s'
  {
    StaysReleased(Release(s, id, first), id, ops);
  }

  lemma {:induction false} StaysReleased(s: State, id: LeaseId, ops: seq<Op>)
    requires id in s.issued && id !in s.leases
    ensures id in Run(s, ops).issued && id !in Run(s, ops).leases
  {
    if ops != [] {
      StaysReleased(s, id, ops[..|ops| - 1]);
    }
  }

  // ---------- when an entry is dropped ----------

  /** The user whose entry an operation marks as seen, and when. */
  function Touches(s: State, op: Op): Option<(string, int)> {
    match op
    case AcquireOp(id, user, now) => if id in s.issued || s.globalActive >= s.globalLimit then None else Some((user, now))
    case ReleaseOp(id, now) => if id in s.leases then Some((s.leases[id].user, now)) else None
    case _ => None
  }

  /** The time of the last operation of a run that marked a user as seen. */
  function LastTouch(s: State, ops: seq<Op>, user: string): Option<int> {
    if ops == [] then None
    else
      var n := |ops| - 1;
      var touch := Touches(Run(s, ops[..n]), ops[n]);
      if touch.Some? && touch.value.0 == user then Some(touch.value.1) else LastTouch(s, ops[..n], user)
  }

  function SeenAt(s: State, user: string): Option<int> {
    if user in s.entries then Some(At(s.heap, s.entries[user]).lastSeen) else None
  }

  lemma AcquireSeen(s: State, op: Op, user: string)
    requires Unshared(s) && op.AcquireOp?
    ensures var touch := Touches(s, op);
            SeenAt(Next(s, op), user)
            == if touch.Some? && touch.value.0 == user then Some(touch.value.1) else SeenAt(s, user)
  {
  }

  lemma ReleaseSeen(s: State, op: Op, user: string)
    requires Unshared(s) && Registered(s) && op.ReleaseOp?
    ensures var touch := Touches(s, op);
            SeenAt(Next(s, op), user)
            == if touch.Some? && touch.value.0 == user then Some(touch.value.1) else SeenAt(s, user)
  {
  }

  /** After any run a registered user's entry was last seen when an operation of that user last got to it. */
  lemma {:induction false} SeenIsLastTouch(globalLimit: int, perUserLimit: int, ops: seq<Op>, user: string)
    requires ValidLimits(globalLimit, perUserLimit)
    ensures var s := Run(New(globalLimit, perUserLimit), ops);
            user in s.entries ==> SeenAt(s, user) == LastTouch(New(globalLimit, perUserLimit), ops, user)
  {
    if ops != [] {
      var n := |ops| - 1;
      var before := Run(New(globalLimit, perUserLimit), ops[..n]);
      SeenIsLastTouch(globalLimit, perUserLimit, ops[..n], user);
      NewInv(globalLimit, perUserLimit);
      RunKeeps(New(globalLimit, perUserLimit), ops[..n]);
      match ops[n]
      case AcquireOp(_, _, _) => AcquireSeen(before, ops[n], user);
      case ReleaseOp(_, _) => ReleaseSeen(before, ops[n], user);
      case _ =>
    }
  }

  /**
   An entry is dropped by a cleanup and by nothing else, exactly when its user holds no lease and was last seen more
   than half an hour before.
   */
  lemma DroppedOnlyWhenIdle(s: State, op: Op, user: string)
    requires Inv(s) && user in s.entries
    ensures user !in Next(s, op).entries
            <==> op.CleanupOp? && LeasesOf(s.leases, user) == {} && SeenAt(s, user).value < op.now - 1_800_000_000_000
    ensures user in Next(s, op).entries ==> Next(s, op).entries[user] == s.entries[user]
  {
    assert Counted(s, user);
  }

  lemma ReleaseCounts(s: State, id: LeaseId, now: int)
    requires Inv(Release(s, id, now))
    ensures Release(s, id, now).leases == s.leases - {id}
    ensures forall u :: Active(Release(s, id, now), u) == |LeasesOf(s.leases - {id}, u)|
  {
    var s' := Release(s, id, now);
    assert s'.leases == s.leases - {id};
    forall u ensures Active(s', u) == |LeasesOf(s'.leases, u)| {
      assert Counted(s', u);
    }
  }

  // ---------- the object ----------

  class SearchConcurrencyLimiter {
    var globalLimit: int
    var perUserLimit: int
    var globalActive: int
    var entries: map<string, Ref>
    var heap: map<Ref, Entry>
    var nextRef: Ref
    var leases: map<LeaseId, Lease>
    var issued: set<LeaseId>

    ghost function View(): State
      reads this
    {
      State(globalLimit, perUserLimit, globalActive, entries, heap, nextRef, leases, issued)
    }

    /** The user's entry, made if missing, marked as seen. */
    method Touch(user: string, now: int) returns (r: Ref)
      modifies this
      ensures View() == Seen(old(View()), user, now)
      ensures user in entries && r == entries[user] && r in heap && heap[r].active == Active(old(View()), user)
    {
      if user !in entries {
        entries := entries[user := nextRef];
        heap := heap[nextRef := Entry(0, now)];
        nextRef := nextRef + 1;
      } else {
        heap := heap[entries[user] := At(heap, entries[user]).(lastSeen := now)];
      }
      r := entries[user];
    }

    method TryAcquire(id: LeaseId, user: string, now: int) returns (granted: bool)
      modifies this
      ensures View() == Acquire(old(View()), id, user, now)
      ensures granted <==> old(globalActive) < globalLimit && Active(old(View()), user) < perUserLimit
    {
      if globalActive >= globalLimit {
        return false;
      }
      var r := Touch(user, now);
      if heap[r].active >= perUserLimit {
        return false;
      }
      globalActive := globalActive + 1;
      heap := heap[r := heap[r].(active := heap[r].active + 1)];
      leases := leases[id := Lease(user, r)];
      issued := issued + {id};
      return true;
    }

    /**
     The release closure: the lease is gone, every other lease stays, and all counts are again those of the live
     leases, however often it is called.
     */
    method ReleaseLease(id: LeaseId, now: int)
      requires Inv(View())
      modifies this
      ensures View() == Release(old(View()), id, now) && Inv(View())
      ensures leases == old(leases) - {id} && globalActive == |leases|
      ensures forall u :: Active(View(), u) == |LeasesOf(leases, u)|
      ensures id !in old(leases) ==> View() == old(View())
    {
      ReleaseKeeps(View(), id, now);
      ReleaseCounts(View(), id, now);
      DropLease(id, now);
    }

    method DropLease(id: LeaseId, now: int)
      modifies this
      ensures View() == Release(old(View()), id, now)
    {
      if id in leases {
        var r := leases[id].ref;
        leases := leases - {id};
        globalActive := globalActive - 1;
        heap := heap[r := Entry(At(heap, r).active - 1, now)];
      }
    }

    /** Limits that make sense replace the old ones for later requests; others change nothing. */
    method UpdateLimits(newGlobalLimit: int, newPerUserLimit: int) returns (ok: bool)
      modifies this
      ensures View() == WithLimits(old(View()), newGlobalLimit, newPerUserLimit)
      ensures ok <==> 0 < newPerUserLimit <= newGlobalLimit
      ensures (globalLimit, perUserLimit)
              == if ok then (newGlobalLimit, newPerUserLimit) else (old(globalLimit), old(perUserLimit))
    {
      if newGlobalLimit <= 0 || newPerUserLimit <= 0 || newPerUserLimit > newGlobalLimit {
        return false;
      }
      globalLimit, perUserLimit := newGlobalLimit, newPerUserLimit;
      return true;
    }

    method CleanupIdleEntries(now: int)
      modifies this
      ensures View() == Cleanup(old(View()), now)
      ensures forall u :: u in entries <==>
                u in old(entries) && var e := At(heap, old(entries)[u]);
                                     e.active != 0 || e.lastSeen >= now - 1_800_000_000_000
    {
      var kept := entries;
      var todo := entries.Keys;
      while todo != {}
        invariant todo <= entries.Keys
        invariant View() == old(View())
        invariant forall u :: u in kept <==> u in entries && (u in todo || !IsIdle(At(heap, entries[u]), now))
        invariant forall u :: u in kept ==> kept[u] == entries[u]
      {
        var u :| u in todo;
        if IsIdle(At(heap, entries[u]), now) {
          kept := kept - {u};
        }
        todo := todo - {u};
      }
      entries := kept;
      assert entries == Cleanup(old(View()), now).entries;
    }
  }
}
