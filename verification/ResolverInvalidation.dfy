/**
 Loads, shards and invalidation of the resolver cache, as interleaved steps. A load reads the
 generation when its flight is created, and asks the store; later it locks a shard, compares the
 generation again, inserts, and unlocks. InvalidateAll bumps the generation and then clears the
 shards one lock at a time. Each shard is a CacheShard, and remembers the operations it has seen.
 A load may lock any shard, so every way of choosing a shard by hash is covered.
 */
module ResolverInvalidation {
  import opened Basics
  import CacheShard

  type Pid = nat

  datatype Lock = Free | HeldBy(pid: Pid)

  datatype Shard = Shard(lru: CacheShard.Shard, lock: Lock, log: seq<CacheShard.Op>)

  /** A store load for a hash, the generation it had read, and what it produced. */
  datatype Load = Load(hash: string, generation: nat, snapshot: int)

  datatype Proc =
    | Idle
    | Loading(hash: string, gen: nat)
    | Loaded(load: Load)
    | Locked(load: Load, shard: nat)
    | Checked(load: Load, shard: nat)
    | Invalidating(bump: nat, next: nat)
    | Returned(bump: nat)

  /** `cleared` records which shard an InvalidateAll call has cleared since its bump. */
  datatype State = State(
    generation: nat,
    shards: seq<Shard>,
    procs: map<Pid, Proc>,
    loads: set<Load>,
    cleared: set<(nat, nat)>)

  datatype Action =
    | ReadGeneration(pid: Pid, hash: string)
    | FinishLoad(pid: Pid, snapshot: int)
    | GiveUp(pid: Pid)
    | LockShard(pid: Pid, shard: nat)
    | CheckGeneration(pid: Pid)
    | Insert(pid: Pid, until: int)
    | LookUp(shard: nat, hash: string, now: int)
    | Expire(shard: nat, now: int)
    | Bump(pid: Pid)
    | ClearNext(pid: Pid)
    | Return(pid: Pid)
    | CloseBump

  function ProcOf(s: State, pid: Pid): Proc {
    if pid in s.procs then s.procs[pid] else Idle
  }

  predicate Enabled(s: State, a: Action) {
    match a
    case ReadGeneration(p, _) => ProcOf(s, p).Idle?
    case FinishLoad(p, _) => ProcOf(s, p).Loading?
    case GiveUp(p) => ProcOf(s, p).Loading? || ProcOf(s, p).Loaded? || (ProcOf(s, p).Locked? && ProcOf(s, p).shard < |s.shards|)
    case LockShard(p, i) => ProcOf(s, p).Loaded? && i < |s.shards| && s.shards[i].lock.Free?
    case CheckGeneration(p) => ProcOf(s, p).Locked? && ProcOf(s, p).shard < |s.shards|
    case Insert(p, _) => ProcOf(s, p).Checked? && ProcOf(s, p).shard < |s.shards|
    case LookUp(i, _, _) => i < |s.shards| && s.shards[i].lock.Free?
    case Expire(i, _) => i < |s.shards| && s.shards[i].lock.Free?
    case Bump(p) => ProcOf(s, p).Idle?
    case ClearNext(p) =>
      var q := ProcOf(s, p);
      q.Invalidating? && q.next < |s.shards| && s.shards[q.next].lock.Free?
    case Return(p) => ProcOf(s, p).Invalidating? && ProcOf(s, p).next == |s.shards|
    case CloseBump => true
  }

  function Unlock(s: State, i: nat): seq<Shard>
    requires i < |s.shards|
  {
    s.shards[i := s.shards[i].(lock := Free)]
  }

  /** An operation on a shard that leaves its lock free. */
  function Operate(shard: Shard, op: CacheShard.Op): Shard {
    Shard(CacheShard.Apply(shard.lru, op), Free, shard.log + [op])
  }

  function StoreOf(load: Load, until: int): CacheShard.Op {
    CacheShard.Store(load.hash, CacheShard.Loaded(load.snapshot, load.generation), until)
  }

  function Take(s: State, a: Action): State
    requires Enabled(s, a)
  {
    match a
    case ReadGeneration(p, h) => s.(procs := s.procs[p := Loading(h, s.generation)])
    case FinishLoad(p, v) =>
      var load := Load(ProcOf(s, p).hash, ProcOf(s, p).gen, v);
      s.(procs := s.procs[p := Loaded(load)], loads := s.loads + {load})
    case GiveUp(p) =>
      var q := ProcOf(s, p);
      if q.Locked? then s.(shards := Unlock(s, q.shard), procs := s.procs[p := Idle])
      else s.(procs := s.procs[p := Idle])
    case LockShard(p, i) =>
      s.(shards := s.shards[i := s.shards[i].(lock := HeldBy(p))], procs := s.procs[p := Locked(ProcOf(s, p).load, i)])
    case CheckGeneration(p) =>
      var q := ProcOf(s, p);
      if q.load.generation == s.generation then s.(procs := s.procs[p := Checked(q.load, q.shard)])
      else s.(shards := Unlock(s, q.shard), procs := s.procs[p := Idle])
    case Insert(p, until) =>
      var q := ProcOf(s, p);
      s.(shards := s.shards[q.shard := Operate(s.shards[q.shard], StoreOf(q.load, until))], procs := s.procs[p := Idle])
    case LookUp(i, h, now) => s.(shards := s.shards[i := Operate(s.shards[i], CacheShard.Lookup(h, now))])
    case Expire(i, now) => s.(shards := s.shards[i := Operate(s.shards[i], CacheShard.RemoveExpired(now))])
    case Bump(p) => s.(generation := s.generation + 1, procs := s.procs[p := Invalidating(s.generation + 1, 0)])
    case ClearNext(p) =>
      var q := ProcOf(s, p);
      s.(shards := s.shards[q.next := Operate(s.shards[q.next], CacheShard.Clear)],
         procs := s.procs[p := Invalidating(q.bump, q.next + 1)],
         cleared := s.cleared + {(q.bump, q.next)})
    case Return(p) => s.(procs := s.procs[p := Returned(ProcOf(s, p).bump)])
    case CloseBump => s.(generation := s.generation + 1)
  }

  /** An action that is not enabled does not happen, so every sequence of actions is a run. */
  function Next(s: State, a: Action): State {
    if Enabled(s, a) then Take(s, a) else s
  }

  function Initial(capacities: seq<nat>): State {
    State(0, seq(|capacities|, i requires 0 <= i < |capacities| => Shard(CacheShard.Start(capacities[i]), Free, [])), map[], {}, {})
  }

  function Run(s: State, acts: seq<Action>): State {
    if acts == [] then s else Next(Run(s, acts[..|acts| - 1]), acts[|acts| - 1])
  }

  // ---------- the invariant ----------

  /** No entry of the shard, and no insertion already past its check, is older than the bump. */
  ghost predicate Clean(s: State, bump: nat, i: nat)
    requires i < |s.shards|
  {
    && (forall h :: h in s.shards[i].lru.byHash ==> bump <= s.shards[i].lru.byHash[h].value.generation)
    && (forall p :: p in s.procs && s.procs[p].Checked? && s.procs[p].shard == i ==> bump <= s.procs[p].load.generation)
  }

  ghost predicate LocksHeld(s: State) {
    forall p :: p in s.procs && (s.procs[p].Locked? || s.procs[p].Checked?) ==>
      s.procs[p].shard < |s.shards| && s.shards[s.procs[p].shard].lock == HeldBy(p)
  }

  ghost predicate ClearedClean(s: State) {
    forall c :: c in s.cleared ==> c.0 <= s.generation && c.1 < |s.shards| && Clean(s, c.0, c.1)
  }

  ghost predicate Progress(s: State) {
    && (forall p :: p in s.procs && s.procs[p].Invalidating? ==> s.procs[p].bump <= s.generation)
    && (forall p, i :: p in s.procs && s.procs[p].Invalidating? && 0 <= i < s.procs[p].next ==>
          (s.procs[p].bump, i) in s.cleared)
    && (forall p, i :: p in s.procs && s.procs[p].Returned? && 0 <= i < |s.shards| ==>
          (s.procs[p].bump, i) in s.cleared)
  }

  ghost predicate Inv(s: State) {
    LocksHeld(s) && ClearedClean(s) && Progress(s)
  }

  lemma NextKeepsLocks(s: State, a: Action)
    requires LocksHeld(s)
    ensures LocksHeld(Next(s, a))
  {
  }

  lemma NextKeepsProgress(s: State, a: Action)
    requires Progress(s)
    ensures Progress(Next(s, a))
  {
  }

  /** The operation an action performs on a shard, if any. */
  function OpOn(s: State, a: Action, i: nat): Option<CacheShard.Op>
    requires i < |s.shards| && Enabled(s, a)
  {
    match a
    case Insert(p, until) => if ProcOf(s, p).shard == i then Some(StoreOf(ProcOf(s, p).load, until)) else None
    case LookUp(j, h, now) => if i == j then Some(CacheShard.Lookup(h, now)) else None
    case Expire(j, now) => if i == j then Some(CacheShard.RemoveExpired(now)) else None
    case ClearNext(p) => if ProcOf(s, p).next == i then Some(CacheShard.Clear) else None
    case _ => None
  }

  lemma ShardChanges(s: State, a: Action, i: nat)
    requires i < |s.shards| && Enabled(s, a)
    ensures |Next(s, a).shards| == |s.shards|
    ensures var op := OpOn(s, a, i);
            && (op.None? ==> Next(s, a).shards[i].lru == s.shards[i].lru && Next(s, a).shards[i].log == s.shards[i].log)
            && (op.Some? ==> Next(s, a).shards[i] == Operate(s.shards[i], op.value))
  {
  }

  /** An entry was there before, or is the load that the action inserts. */
  lemma EntryCameFrom(s: State, a: Action, i: nat, h: string)
    requires i < |s.shards| && Enabled(s, a)
    requires |Next(s, a).shards| == |s.shards| && h in Next(s, a).shards[i].lru.byHash
    ensures var e := Next(s, a).shards[i].lru.byHash[h];
            || (h in s.shards[i].lru.byHash && s.shards[i].lru.byHash[h] == e)
            || (a.Insert? && ProcOf(s, a.pid).shard == i && ProcOf(s, a.pid).load.hash == h
                && e.value == CacheShard.Loaded(ProcOf(s, a.pid).load.snapshot, ProcOf(s, a.pid).load.generation))
  {
    ShardChanges(s, a, i);
    var op := OpOn(s, a, i);
    if op.Some? {
      CacheShard.ApplyAddsOnlyStored(s.shards[i].lru, op.value, h);
    }
  }

  lemma StepKeepsEntries(s: State, a: Action, bump: nat, i: nat, h: string)
    requires i < |s.shards| && Clean(s, bump, i) && Enabled(s, a)
    requires |Next(s, a).shards| == |s.shards| && h in Next(s, a).shards[i].lru.byHash
    ensures bump <= Next(s, a).shards[i].lru.byHash[h].value.generation
  {
    EntryCameFrom(s, a, i, h);
  }

  /** An insertion passes its check only with the current generation. */
  lemma StepKeepsChecked(s: State, a: Action, bump: nat, i: nat, p: Pid)
    requires i < |s.shards| && Clean(s, bump, i) && bump <= s.generation && Enabled(s, a)
    requires p in Next(s, a).procs && Next(s, a).procs[p].Checked? && Next(s, a).procs[p].shard == i
    ensures bump <= Next(s, a).procs[p].load.generation
  {
  }

  /** A shard that is being cleared is locked by nobody, so no insertion into it is past its check. */
  lemma ClearIsClean(s: State, a: Action, bump: nat, i: nat)
    requires LocksHeld(s) && Progress(s) && Enabled(s, a) && a.ClearNext? && ProcOf(s, a.pid).next == i && ProcOf(s, a.pid).bump == bump
    ensures i < |Next(s, a).shards| && bump <= Next(s, a).generation && Clean(Next(s, a), bump, i)
  {
  }

  lemma GenerationStep(s: State, a: Action)
    ensures s.generation <= Next(s, a).generation
  {
  }

  lemma StepKeepsClean(s: State, a: Action, c: (nat, nat))
    requires Inv(s) && Enabled(s, a) && c in Next(s, a).cleared
    ensures c.0 <= Next(s, a).generation && c.1 < |Next(s, a).shards| && Clean(Next(s, a), c.0, c.1)
  {
    if c in s.cleared {
      ShardChanges(s, a, c.1);
      GenerationStep(s, a);
      forall h | h in Next(s, a).shards[c.1].lru.byHash
        ensures c.0 <= Next(s, a).shards[c.1].lru.byHash[h].value.generation
      {
        StepKeepsEntries(s, a, c.0, c.1, h);
      }
      forall p | p in Next(s, a).procs && Next(s, a).procs[p].Checked? && Next(s, a).procs[p].shard == c.1
        ensures c.0 <= Next(s, a).procs[p].load.generation
      {
        StepKeepsChecked(s, a, c.0, c.1, p);
      }
    } else {
      ClearIsClean(s, a, c.0, c.1);
    }
  }

  lemma NextKeepsClean(s: State, a: Action)
    requires Inv(s)
    ensures ClearedClean(Next(s, a))
  {
    if Enabled(s, a) {
      forall c | c in Next(s, a).cleared
        ensures c.0 <= Next(s, a).generation && c.1 < |Next(s, a).shards| && Clean(Next(s, a), c.0, c.1)
      {
        StepKeepsClean(s, a, c);
      }
    }
  }

  lemma SameShardCount(s: State, a: Action)
    ensures |Next(s, a).shards| == |s.shards|
  {
  }

  lemma {:induction false} RunKeepsInv(s: State, acts: seq<Action>)
    requires Inv(s)
    ensures Inv(Run(s, acts)) && |Run(s, acts).shards| == |s.shards|
  {
    if acts != [] {
      var n := |acts| - 1;
      RunKeepsInv(s, acts[..n]);
      NextKeepsLocks(Run(s, acts[..n]), acts[n]);
      NextKeepsClean(Run(s, acts[..n]), acts[n]);
      NextKeepsProgress(Run(s, acts[..n]), acts[n]);
      SameShardCount(Run(s, acts[..n]), acts[n]);
    }
  }

  // ---------- where entries come from ----------

  /** The load a process carries on its way to a shard. */
  predicate Carries(q: Proc) {
    q.Loaded? || q.Locked? || q.Checked?
  }

  /** Every entry, and every load on its way into a shard, is what a store load for that hash produced. */
  ghost predicate Sourced(s: State) {
    && (forall p :: p in s.procs && Carries(s.procs[p]) ==> s.procs[p].load in s.loads)
    && (forall i, h :: 0 <= i < |s.shards| && h in s.shards[i].lru.byHash ==> LoadOf(s, i, h) in s.loads)
  }

  function LoadOf(s: State, i: nat, h: string): Load
    requires i < |s.shards| && h in s.shards[i].lru.byHash
  {
    var value := s.shards[i].lru.byHash[h].value;
    Load(h, value.generation, value.snapshot)
  }

  lemma LoadsStay(s: State, a: Action)
    ensures s.loads <= Next(s, a).loads
  {
  }

  lemma CarriedLoad(s: State, a: Action, p: Pid)
    requires Sourced(s) && p in Next(s, a).procs && Carries(Next(s, a).procs[p])
    ensures Next(s, a).procs[p].load in Next(s, a).loads
  {
  }

  lemma EntryLoad(s: State, a: Action, i: nat, h: string)
    requires Sourced(s) && Enabled(s, a) && i < |s.shards| && |Next(s, a).shards| == |s.shards|
    requires h in Next(s, a).shards[i].lru.byHash
    ensures LoadOf(Next(s, a), i, h) in s.loads
  {
    EntryCameFrom(s, a, i, h);
    if h in s.shards[i].lru.byHash && s.shards[i].lru.byHash[h] == Next(s, a).shards[i].lru.byHash[h] {
      assert LoadOf(s, i, h) in s.loads;
    } else {
      assert s.procs[a.pid].load in s.loads;
    }
  }

  lemma NextSourced(s: State, a: Action)
    requires Sourced(s)
    ensures Sourced(Next(s, a))
  {
    if Enabled(s, a) {
      LoadsStay(s, a);
      SameShardCount(s, a);
      forall p | p in Next(s, a).procs && Carries(Next(s, a).procs[p]) ensures Next(s, a).procs[p].load in Next(s, a).loads {
        CarriedLoad(s, a, p);
      }
      forall i, h | 0 <= i < |Next(s, a).shards| && h in Next(s, a).shards[i].lru.byHash
        ensures LoadOf(Next(s, a), i, h) in Next(s, a).loads
      {
        EntryLoad(s, a, i, h);
      }
    }
  }

  /** Every shard is in the state its own operations lead to. */
  ghost predicate Logged(s: State, i: nat, capacity: nat) {
    i < |s.shards| && s.shards[i].lru == CacheShard.Run(capacity, s.shards[i].log)
  }

  lemma NextLogged(s: State, a: Action, i: nat, capacity: nat)
    requires Logged(s, i, capacity)
    ensures Logged(Next(s, a), i, capacity)
  {
    if Enabled(s, a) {
      ShardChanges(s, a, i);
      var op := OpOn(s, a, i);
      if op.Some? {
        assert (s.shards[i].log + [op.value])[..|s.shards[i].log|] == s.shards[i].log;
      }
    }
  }

  lemma {:induction false} RunSourced(capacities: seq<nat>, acts: seq<Action>)
    ensures Sourced(Run(Initial(capacities), acts))
  {
    if acts != [] {
      RunSourced(capacities, acts[..|acts| - 1]);
      NextSourced(Run(Initial(capacities), acts[..|acts| - 1]), acts[|acts| - 1]);
    }
  }

  /** In every interleaving each shard is a run of its own operations, so what holds of every cache shard holds of it. */
  lemma {:induction false} ShardsAreRuns(capacities: seq<nat>, acts: seq<Action>, i: nat)
    requires i < |capacities|
    ensures Logged(Run(Initial(capacities), acts), i, capacities[i])
  {
    if acts != [] {
      ShardsAreRuns(capacities, acts[..|acts| - 1], i);
      NextLogged(Run(Initial(capacities), acts[..|acts| - 1]), acts[|acts| - 1], i, capacities[i]);
    }
  }

  // ---------- the claims ----------

  lemma {:induction false} ReturnedStays(s: State, acts: seq<Action>, p: Pid, bump: nat)
    requires ProcOf(s, p) == Returned(bump)
    ensures ProcOf(Run(s, acts), p) == Returned(bump)
  {
    if acts != [] {
      ReturnedStays(s, acts[..|acts| - 1], p, bump);
    }
  }

  lemma ReturnedIsClean(s: State, p: Pid, bump: nat, i: nat, h: string)
    requires Inv(s) && ProcOf(s, p) == Returned(bump) && i < |s.shards| && h in s.shards[i].lru.byHash
    ensures bump <= s.shards[i].lru.byHash[h].value.generation
  {
    assert (bump, i) in s.cleared;
    assert Clean(s, bump, i);
  }

  /**
   In every interleaving, once an InvalidateAll call with the given bump has returned, no shard
   ever again holds an entry whose load had read an older generation.
   */
  lemma InvalidationIsFinal(capacities: seq<nat>, before: seq<Action>, after: seq<Action>, p: Pid, bump: nat)
    requires ProcOf(Run(Initial(capacities), before), p) == Returned(bump)
    ensures var t := Run(Run(Initial(capacities), before), after);
            forall i, h :: 0 <= i < |t.shards| && h in t.shards[i].lru.byHash ==>
              bump <= t.shards[i].lru.byHash[h].value.generation
  {
    var s := Run(Initial(capacities), before);
    RunKeepsInv(Initial(capacities), before);
    RunKeepsInv(s, after);
    ReturnedStays(s, after, p, bump);
    var t := Run(s, after);
    forall i, h | 0 <= i < |t.shards| && h in t.shards[i].lru.byHash
      ensures bump <= t.shards[i].lru.byHash[h].value.generation
    {
      ReturnedIsClean(t, p, bump, i, h);
    }
  }

  /** What a lookup in a shard would find. */
  function Found(s: State, i: nat, hash: string, now: int): Option<CacheShard.Loaded>
    requires i < |s.shards|
  {
    CacheShard.Result(s.shards[i].lru, hash, now)
  }

  /**
   In every interleaving, every hit is what a store load for that hash produced, that load read its generation at or
   after the bump of every InvalidateAll call that has returned, and the shard has not been told anything newer
   about the hash since it was last cleared.
   */
  lemma HitsAreLoadedAndFresh(capacities: seq<nat>, acts: seq<Action>, i: nat, hash: string, now: int)
    requires i < |capacities| && i < |Run(Initial(capacities), acts).shards|
    requires Found(Run(Initial(capacities), acts), i, hash, now).Some?
    ensures var s := Run(Initial(capacities), acts);
            var v := Found(s, i, hash, now).value;
            && Load(hash, v.generation, v.snapshot) in s.loads
            && (forall p :: p in s.procs && s.procs[p].Returned? ==> s.procs[p].bump <= v.generation)
            && hash in CacheShard.Unbounded(s.shards[i].log) && CacheShard.Unbounded(s.shards[i].log)[hash].value == v
            && now < CacheShard.Unbounded(s.shards[i].log)[hash].until
  {
    var s := Run(Initial(capacities), acts);
    RunSourced(capacities, acts);
    assert LoadOf(s, i, hash) in s.loads;
    RunKeepsInv(Initial(capacities), acts);
    forall p | p in s.procs && s.procs[p].Returned? ensures s.procs[p].bump <= s.shards[i].lru.byHash[hash].value.generation {
      ReturnedIsClean(s, p, s.procs[p].bump, i, hash);
    }
    ShardsAreRuns(capacities, acts, i);
    CacheShard.HitIsLatestStore(capacities[i], s.shards[i].log, hash, now);
  }

  // ---------- loads are kept ----------

  /**
   A load whose generation is still current when it holds its shard's lock is stored: once it has passed the check, its
   insertion makes a lookup before the expiry find it. A load from before a bump leaves the shard as it was and lets go.
   */
  lemma CurrentLoadIsStored(s: State, p: Pid, until: int, now: int)
    requires Enabled(s, CheckGeneration(p)) && now < until
    requires CacheShard.Coherent(s.shards[ProcOf(s, p).shard].lru) && s.shards[ProcOf(s, p).shard].lru.maxEntries > 0
    ensures var q := ProcOf(s, p);
            var checked := Next(s, CheckGeneration(p));
            var stored := Next(checked, Insert(p, until));
            && (q.load.generation == s.generation ==>
                  Found(stored, q.shard, q.load.hash, now) == Some(CacheShard.Loaded(q.load.snapshot, q.load.generation)))
            && (q.load.generation != s.generation ==>
                  stored.shards == s.shards[q.shard := s.shards[q.shard].(lock := Free)] && ProcOf(stored, p) == Idle)
  {
    var q := ProcOf(s, p);
    if q.load.generation == s.generation {
      var shard := s.shards[q.shard].lru;
      CacheShard.StoredIsThere(shard, q.load.hash, CacheShard.Loaded(q.load.snapshot, q.load.generation), until);
      CacheShard.EvictShrinks(CacheShard.Inserted(shard, q.load.hash, CacheShard.Loaded(q.load.snapshot, q.load.generation), until));
    }
  }

  /**
   In every interleaving, a shard still has what was last stored in it for a hash, unless it was cleared since, something
   found it expired, or as many other hashes as the shard's capacity were used since its own last use.
   */
  lemma RecentLoadIsFound(capacities: seq<nat>, acts: seq<Action>, i: nat, hash: string, now: int)
    requires i < |capacities| && i < |Run(Initial(capacities), acts).shards|
    requires var log := Run(Initial(capacities), acts).shards[i].log;
             && hash in CacheShard.Unbounded(log) && CacheShard.NotExpired(log, hash) && now < CacheShard.Unbounded(log)[hash].until
             && |CacheShard.UsedSince(capacities[i], log, hash)| < capacities[i]
    ensures var s := Run(Initial(capacities), acts);
            Found(s, i, hash, now) == Some(CacheShard.Unbounded(s.shards[i].log)[hash].value)
  {
    ShardsAreRuns(capacities, acts, i);
    CacheShard.RecentHits(capacities[i], Run(Initial(capacities), acts).shards[i].log, hash, now);
  }

  lemma {:induction false} GenerationGrows(s: State, acts: seq<Action>)
    ensures s.generation <= Run(s, acts).generation
  {
    if acts != [] {
      GenerationGrows(s, acts[..|acts| - 1]);
    }
  }

  /** A generation is older than a bump exactly when it was read before that bump. */
  lemma BumpSeparatesReads(s: State, early: seq<Action>, late: seq<Action>, p: Pid)
    requires ProcOf(Run(s, early), p).Idle?
    ensures var t := Run(s, early);
            var u := Next(t, Bump(p));
            && s.generation < u.procs[p].bump
            && u.procs[p].bump <= Run(u, late).generation
  {
    GenerationGrows(s, early);
    GenerationGrows(Next(Run(s, early), Bump(p)), late);
  }

  // ---------- invalidation in time ----------

  /** The step by which a load of a hash reads a generation. */
  predicate ReadsAt(s: State, a: Action, hash: string, g: nat) {
    a.ReadGeneration? && Enabled(s, a) && a.hash == hash && s.generation == g
  }

  /** Some step from position b on reads the generation for the hash. */
  ghost predicate ReadFrom(capacities: seq<nat>, acts: seq<Action>, b: nat, hash: string, g: nat) {
    exists j :: b <= j < |acts| && ReadsAt(Run(Initial(capacities), acts[..j]), acts[j], hash, g)
  }

  /** The load a process is at work on. */
  function WorkOf(q: Proc): Option<(string, nat)> {
    match q
    case Loading(hash, gen) => Some((hash, gen))
    case Loaded(load) => Some((load.hash, load.generation))
    case Locked(load, _) => Some((load.hash, load.generation))
    case Checked(load, _) => Some((load.hash, load.generation))
    case _ => None
  }

  lemma WorkCameFrom(s: State, a: Action, p: Pid)
    requires WorkOf(ProcOf(Next(s, a), p)).Some?
    ensures var work := WorkOf(ProcOf(Next(s, a), p)).value;
            WorkOf(ProcOf(s, p)) == Some(work) || ReadsAt(s, a, work.0, work.1)
  {
  }

  lemma LoadCameFrom(s: State, a: Action, load: Load)
    requires load in Next(s, a).loads
    ensures load in s.loads || (a.FinishLoad? && WorkOf(ProcOf(s, a.pid)) == Some((load.hash, load.generation)))
  {
  }

  lemma ReadLonger(capacities: seq<nat>, acts: seq<Action>, hash: string, g: nat)
    requires acts != []
    ensures ReadFrom(capacities, acts[..|acts| - 1], 0, hash, g) ==> ReadFrom(capacities, acts, 0, hash, g)
    ensures ReadsAt(Run(Initial(capacities), acts[..|acts| - 1]), acts[|acts| - 1], hash, g) ==> ReadFrom(capacities, acts, 0, hash, g)
  {
    var before := acts[..|acts| - 1];
    if ReadFrom(capacities, before, 0, hash, g) {
      var j :| 0 <= j < |before| && ReadsAt(Run(Initial(capacities), before[..j]), before[j], hash, g);
      assert before[..j] == acts[..j] && before[j] == acts[j];
    }
  }

  /** Every load at work was begun by a step that read its generation then. */
  lemma {:induction false} WorkWasRead(capacities: seq<nat>, acts: seq<Action>, p: Pid)
    requires WorkOf(ProcOf(Run(Initial(capacities), acts), p)).Some?
    ensures var work := WorkOf(ProcOf(Run(Initial(capacities), acts), p)).value;
            ReadFrom(capacities, acts, 0, work.0, work.1)
  {
    var n := |acts| - 1;
    var work := WorkOf(ProcOf(Run(Initial(capacities), acts), p)).value;
    WorkCameFrom(Run(Initial(capacities), acts[..n]), acts[n], p);
    ReadLonger(capacities, acts, work.0, work.1);
    if !ReadsAt(Run(Initial(capacities), acts[..n]), acts[n], work.0, work.1) {
      WorkWasRead(capacities, acts[..n], p);
    }
  }

  lemma {:induction false} LoadWasRead(capacities: seq<nat>, acts: seq<Action>, load: Load)
    requires load in Run(Initial(capacities), acts).loads
    ensures ReadFrom(capacities, acts, 0, load.hash, load.generation)
  {
    var n := |acts| - 1;
    var before := Run(Initial(capacities), acts[..n]);
    LoadCameFrom(before, acts[n], load);
    ReadLonger(capacities, acts, load.hash, load.generation);
    if load in before.loads {
      LoadWasRead(capacities, acts[..n], load);
    } else {
      WorkWasRead(capacities, acts[..n], acts[n].pid);
    }
  }

  /** The bump of an InvalidateAll call that is clearing or has returned. */
  function BumpOf(q: Proc): Option<nat> {
    if q.Invalidating? || q.Returned? then Some(q.bump) else None
  }

  lemma BumpStays(s: State, a: Action, p: Pid)
    requires BumpOf(ProcOf(s, p)).Some?
    ensures BumpOf(ProcOf(Next(s, a), p)) == BumpOf(ProcOf(s, p))
  {
  }

  lemma {:induction false} BumpIsKept(capacities: seq<nat>, acts: seq<Action>, b: nat, p: Pid)
    requires b < |acts| && acts[b] == Bump(p) && Enabled(Run(Initial(capacities), acts[..b]), acts[b])
    ensures BumpOf(ProcOf(Run(Initial(capacities), acts), p)) == Some(Run(Initial(capacities), acts[..b]).generation + 1)
  {
    var n := |acts| - 1;
    if b < n {
      assert acts[..n][..b] == acts[..b] && acts[..n][b] == acts[b];
      BumpIsKept(capacities, acts[..n], b, p);
      BumpStays(Run(Initial(capacities), acts[..n]), acts[n], p);
    } else {
      BumpSets(Run(Initial(capacities), acts[..n]), p);
    }
  }

  lemma BumpSets(s: State, p: Pid)
    requires Enabled(s, Bump(p))
    ensures BumpOf(ProcOf(Next(s, Bump(p)), p)) == Some(s.generation + 1)
  {
  }

  lemma {:induction false} GenerationOrdered(capacities: seq<nat>, acts: seq<Action>, i: nat, j: nat)
    requires i <= j <= |acts|
    ensures Run(Initial(capacities), acts[..i]).generation <= Run(Initial(capacities), acts[..j]).generation
    decreases j
  {
    if i < j {
      GenerationOrdered(capacities, acts, i, j - 1);
      assert acts[..j][..j - 1] == acts[..j - 1];
      GenerationStays(Run(Initial(capacities), acts[..j - 1]), acts[j - 1]);
    }
  }

  lemma GenerationStays(s: State, a: Action)
    ensures s.generation <= Next(s, a).generation
  {
  }

  /**
   In every interleaving, once the InvalidateAll call that bumped the generation at step b has returned, every entry of
   every shard is what a load produced that read the generation, and then asked the store, after step b.
   */
  lemma EntriesWereReadAfterBump(capacities: seq<nat>, acts: seq<Action>, b: nat, p: Pid, i: nat, h: string)
    requires b < |acts| && acts[b] == Bump(p) && Enabled(Run(Initial(capacities), acts[..b]), acts[b])
    requires var s := Run(Initial(capacities), acts); ProcOf(s, p).Returned? && i < |s.shards| && h in s.shards[i].lru.byHash
    ensures LoadOf(Run(Initial(capacities), acts), i, h) in Run(Initial(capacities), acts).loads
    ensures ReadFrom(capacities, acts, b + 1, h, Run(Initial(capacities), acts).shards[i].lru.byHash[h].value.generation)
  {
    var s := Run(Initial(capacities), acts);
    var load := LoadOf(s, i, h);
    RunSourced(capacities, acts);
    RunKeepsInv(Initial(capacities), acts);
    BumpIsKept(capacities, acts, b, p);
    ReturnedIsClean(s, p, s.procs[p].bump, i, h);
    LoadWasRead(capacities, acts, load);
    var j :| 0 <= j < |acts| && ReadsAt(Run(Initial(capacities), acts[..j]), acts[j], load.hash, load.generation);
    if j <= b {
      GenerationOrdered(capacities, acts, j, b);
    }
  }
}
