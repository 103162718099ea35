/**
 The whole resolver: calls and their flights, and the cache they look into and fill, taking steps
 together where one piece of code does both. A hit is a lookup that finds an entry, creating a
 flight reads the generation, a load that returns a snapshot is what may then be stored, and a call
 completes its flight only when it has stored or given up storing.
 */
module ResolverCalls {
  import opened Basics
  import Flights = ResolverFlights
  import Cache = ResolverInvalidation

  type Pid = nat

  datatype State = State(calls: Flights.State, cache: Cache.State)

  datatype Action =
    | OnCalls(call: Flights.Action)
    | OnCache(step: Cache.Action)
    | HitBefore(pid: Pid, shard: nat, now: int)
    | HitInside(pid: Pid, shard: nat, now: int)
    | StartFlight(pid: Pid, flight: Flights.FlightId)
    | LoadSucceeds(pid: Pid, snapshot: int)
    | LoadFails(pid: Pid, error: Flights.Error)
    | LoadPanics(pid: Pid)
    | NotAdmitted(pid: Pid, saturated: bool)

  function Call(s: State, p: Pid): Flights.Proc {
    Flights.ProcOf(s.calls, p)
  }

  function Storing(s: State, p: Pid): Cache.Proc {
    Cache.ProcOf(s.cache, p)
  }

  /** What a call would find in a shard. */
  function Found(s: State, shard: nat, hash: string, now: int): Option<int> {
    if shard < |s.cache.shards| && Cache.Found(s.cache, shard, hash, now).Some?
    then Some(Cache.Found(s.cache, shard, hash, now).value.snapshot) else None
  }

  /** Steps of a call that the cache takes no part in. */
  predicate Alone(a: Flights.Action) {
    !(a.HitEarly? || a.HitLate? || a.CreateFlight? || a.LoadReturns? || a.LoadPanics? || a.Saturate? || a.EndBeforeAdmission?)
  }

  /** The hash a call is about, before it holds the flight mutex and while it does. */
  function HashOf(s: State, p: Pid): string {
    if Call(s, p).Passed? || Call(s, p).Entered? then Call(s, p).hash else ""
  }

  function CallPart(s: State, a: Action): Option<Flights.Action> {
    match a
    case OnCalls(call) => Some(call)
    case OnCache(_) => None
    case HitBefore(p, i, now) =>
      var found := Found(s, i, HashOf(s, p), now);
      if found.Some? then Some(Flights.HitEarly(p, found.value)) else None
    case HitInside(p, i, now) =>
      var found := Found(s, i, HashOf(s, p), now);
      if found.Some? then Some(Flights.HitLate(p, found.value)) else None
    case StartFlight(p, f) => Some(Flights.CreateFlight(p, f))
    case LoadSucceeds(p, v) => Some(Flights.LoadReturns(p, Flights.Value(v)))
    case LoadFails(p, e) => Some(Flights.LoadReturns(p, Flights.Err(e)))
    case LoadPanics(p) => Some(Flights.LoadPanics(p))
    case NotAdmitted(p, saturated) => Some(if saturated then Flights.Saturate(p) else Flights.EndBeforeAdmission(p))
  }

  function CachePart(s: State, a: Action): Option<Cache.Action> {
    match a
    case OnCalls(_) => None
    case OnCache(step) => Some(step)
    case HitBefore(p, i, now) => Some(Cache.LookUp(i, HashOf(s, p), now))
    case HitInside(p, i, now) => Some(Cache.LookUp(i, HashOf(s, p), now))
    case StartFlight(p, _) => Some(Cache.ReadGeneration(p, HashOf(s, p)))
    case LoadSucceeds(p, v) => Some(Cache.FinishLoad(p, v))
    case _ => Some(Cache.GiveUp(a.pid))
  }

  /** Both parts can be taken, and code that comes later has waited for code that comes earlier. */
  predicate Enabled(s: State, a: Action) {
    && (CallPart(s, a).Some? ==> Flights.Enabled(s.calls, CallPart(s, a).value))
    && (CachePart(s, a).Some? ==> Cache.Enabled(s.cache, CachePart(s, a).value))
    && (a.HitBefore? || a.HitInside? ==> CallPart(s, a).Some?)
    && (a.OnCalls? ==> Alone(a.call) && (a.call.Complete? ==> Storing(s, a.call.pid).Idle?))
    && (a.OnCache? ==>
          && !a.step.ReadGeneration? && !a.step.FinishLoad?
          && (a.step.LockShard? || a.step.GiveUp? ==> Call(s, a.step.pid).Finishing?))
  }

  function Next(s: State, a: Action): State {
    if !Enabled(s, a) then s
    else
      State(if CallPart(s, a).Some? then Flights.Next(s.calls, CallPart(s, a).value) else s.calls,
            if CachePart(s, a).Some? then Cache.Next(s.cache, CachePart(s, a).value) else s.cache)
  }

  function Run(s: State, acts: seq<Action>): State {
    if acts == [] then s else Next(Run(s, acts[..|acts| - 1]), acts[|acts| - 1])
  }

  function Initial(capacity: nat, capacities: seq<nat>): State {
    State(Flights.Initial(capacity), Cache.Initial(capacities))
  }

  // ---------- both parts are runs of their own machines ----------

  function CallActs(s: State, acts: seq<Action>): seq<Flights.Action> {
    if acts == [] then []
    else
      var n := |acts| - 1;
      var before := Run(s, acts[..n]);
      CallActs(s, acts[..n])
      + if Enabled(before, acts[n]) && CallPart(before, acts[n]).Some? then [CallPart(before, acts[n]).value] else []
  }

  function CacheActs(s: State, acts: seq<Action>): seq<Cache.Action> {
    if acts == [] then []
    else
      var n := |acts| - 1;
      var before := Run(s, acts[..n]);
      CacheActs(s, acts[..n])
      + if Enabled(before, acts[n]) && CachePart(before, acts[n]).Some? then [CachePart(before, acts[n]).value] else []
  }

  lemma OneMoreCall(s: Flights.State, acts: seq<Flights.Action>, a: Flights.Action)
    ensures Flights.Run(s, acts + [a]) == Flights.Next(Flights.Run(s, acts), a)
  {
    assert (acts + [a])[..|acts|] == acts;
  }

  lemma OneMoreStep(s: Cache.State, acts: seq<Cache.Action>, a: Cache.Action)
    ensures Cache.Run(s, acts + [a]) == Cache.Next(Cache.Run(s, acts), a)
  {
    assert (acts + [a])[..|acts|] == acts;
  }

  /** The calls of a run are a run of the flight machine, so what holds of all its runs holds here. */
  lemma {:induction false} CallsAreARun(s: State, acts: seq<Action>)
    ensures Run(s, acts).calls == Flights.Run(s.calls, CallActs(s, acts))
  {
    if acts != [] {
      var n := |acts| - 1;
      var before := Run(s, acts[..n]);
      CallsAreARun(s, acts[..n]);
      if Enabled(before, acts[n]) && CallPart(before, acts[n]).Some? {
        OneMoreCall(s.calls, CallActs(s, acts[..n]), CallPart(before, acts[n]).value);
      } else {
        assert CallActs(s, acts) == CallActs(s, acts[..n]);
      }
    }
  }

  /** The cache of a run is a run of the cache machine. */
  lemma {:induction false} CacheIsARun(s: State, acts: seq<Action>)
    ensures Run(s, acts).cache == Cache.Run(s.cache, CacheActs(s, acts))
  {
    if acts != [] {
      var n := |acts| - 1;
      var before := Run(s, acts[..n]);
      CacheIsARun(s, acts[..n]);
      if Enabled(before, acts[n]) && CachePart(before, acts[n]).Some? {
        OneMoreStep(s.cache, CacheActs(s, acts[..n]), CachePart(before, acts[n]).value);
      } else {
        assert CacheActs(s, acts) == CacheActs(s, acts[..n]);
      }
    }
  }

  // ---------- answers come from loads ----------

  /** A store load for the hash produced the snapshot. */
  ghost predicate WasLoaded(loads: set<Cache.Load>, hash: string, snapshot: int) {
    exists g: nat :: Cache.Load(hash, g, snapshot) in loads
  }

  ghost predicate OutcomeOk(loads: set<Cache.Load>, hash: string, out: Flights.Outcome) {
    out.Value? ==> WasLoaded(loads, hash, out.snapshot)
  }

  predicate Carries(q: Flights.Proc) {
    q.Releasing? || q.Finishing? || q.Unlisting? || q.Done?
  }

  predicate OnFlight(q: Flights.Proc) {
    q.Leading? || q.Loading? || q.Releasing? || q.Finishing? || q.Unlisting?
  }

  ghost predicate CallOk(s: State, p: Pid) {
    var q := Call(s, p);
    && (Carries(q) ==> OutcomeOk(s.cache.loads, q.hash, q.out))
    && (OnFlight(q) ==> q.flight in s.calls.flights && s.calls.flights[q.flight].hash == q.hash)
    && (q.Leading? || q.Loading? ==> Storing(s, p).Loading? && Storing(s, p).hash == q.hash)
  }

  ghost predicate FlightOk(s: State, f: Flights.FlightId)
    requires f in s.calls.flights
  {
    var fl := s.calls.flights[f];
    fl.result.Some? ==> OutcomeOk(s.cache.loads, fl.hash, fl.result.value)
  }

  ghost predicate Inv(s: State) {
    && Flights.Inv(s.calls) && Cache.Sourced(s.cache)
    && (forall p :: CallOk(s, p))
    && (forall f :: f in s.calls.flights ==> FlightOk(s, f))
  }

  lemma LoadedStays(loads: set<Cache.Load>, more: set<Cache.Load>, hash: string, out: Flights.Outcome)
    requires OutcomeOk(loads, hash, out) && loads <= more
    ensures OutcomeOk(more, hash, out)
  {
    if out.Value? {
      var g: nat :| Cache.Load(hash, g, out.snapshot) in loads;
      assert Cache.Load(hash, g, out.snapshot) in more;
    }
  }

  lemma FlightKeepsHash(s: Flights.State, a: Flights.Action, f: Flights.FlightId)
    requires Flights.Inv(s) && f in s.flights
    ensures f in Flights.Next(s, a).flights && Flights.Next(s, a).flights[f].hash == s.flights[f].hash
  {
    assert Flights.FlightOk(s.flights[f]);
    Flights.FlightStays(s, a, f);
  }

  /** A call that does not move stays as it was while others move and loads are added. */
  lemma StillCallOk(s: State, s': State, p: Pid)
    requires CallOk(s, p) && Call(s', p) == Call(s, p) && s.cache.loads <= s'.cache.loads
    requires forall f :: f in s.calls.flights ==> f in s'.calls.flights && s'.calls.flights[f].hash == s.calls.flights[f].hash
    requires Call(s, p).Leading? || Call(s, p).Loading? ==> Storing(s', p) == Storing(s, p)
    ensures CallOk(s', p)
  {
    if Carries(Call(s, p)) {
      LoadedStays(s.cache.loads, s'.cache.loads, Call(s, p).hash, Call(s, p).out);
    }
  }

  lemma KeepsHashes(s: State, a: Action)
    requires Flights.Inv(s.calls)
    ensures forall f :: f in s.calls.flights ==> f in Next(s, a).calls.flights && Next(s, a).calls.flights[f].hash == s.calls.flights[f].hash
  {
    if Enabled(s, a) && CallPart(s, a).Some? {
      forall f | f in s.calls.flights
        ensures f in Next(s, a).calls.flights && Next(s, a).calls.flights[f].hash == s.calls.flights[f].hash
      {
        FlightKeepsHash(s.calls, CallPart(s, a).value, f);
      }
    }
  }

  lemma LoadsGrow(s: State, a: Action)
    ensures s.cache.loads <= Next(s, a).cache.loads
  {
    if Enabled(s, a) && CachePart(s, a).Some? {
      Cache.LoadsStay(s.cache, CachePart(s, a).value);
    }
  }

  /** The process of a cache step, if it has one. */
  function CacheActor(a: Cache.Action): Option<Pid> {
    if a.LookUp? || a.Expire? || a.CloseBump? then None else Some(a.pid)
  }

  lemma OtherStoringStays(s: Cache.State, a: Cache.Action, p: Pid)
    requires CacheActor(a) != Some(p)
    ensures Cache.ProcOf(Cache.Next(s, a), p) == Cache.ProcOf(s, p)
  {
  }

  /** A load in progress is left alone by every cache step but its own end. */
  lemma LoadingStays(s: Cache.State, a: Cache.Action, p: Pid)
    requires Cache.ProcOf(s, p).Loading? && !(a.FinishLoad? && a.pid == p) && !(a.GiveUp? && a.pid == p)
    ensures Cache.ProcOf(Cache.Next(s, a), p) == Cache.ProcOf(s, p)
  {
  }

  // ---------- what each kind of step keeps ----------

  lemma CacheStepCallOk(s: State, a: Action, p: Pid)
    requires Inv(s) && Enabled(s, a) && a.OnCache?
    ensures CallOk(Next(s, a), p)
  {
    assert CallOk(s, p);
    LoadsGrow(s, a);
    KeepsHashes(s, a);
    if Call(s, p).Leading? || Call(s, p).Loading? {
      LoadingStays(s.cache, a.step, p);
    }
    StillCallOk(s, Next(s, a), p);
  }

  /** A step of one's own, with no part for the cache, changes neither hash nor flight nor outcome. */
  lemma OwnStep(s: Flights.State, a: Flights.Action, p: Pid)
    requires Alone(a) && Flights.Actor(a) == Some(p)
    ensures var q, q' := Flights.ProcOf(s, p), Flights.ProcOf(Flights.Next(s, a), p);
            && (Carries(q') ==> !q'.out.Value? || (Carries(q) && q.hash == q'.hash && q.out == q'.out))
            && (OnFlight(q') ==> OnFlight(q) && q.flight == q'.flight && q.hash == q'.hash)
            && (q'.Leading? || q'.Loading? ==> q.Leading? || q.Loading?)
  {
  }

  lemma CallStepCallOk(s: State, a: Action, p: Pid)
    requires Inv(s) && Enabled(s, a) && a.OnCalls?
    ensures CallOk(Next(s, a), p)
  {
    assert CallOk(s, p);
    KeepsHashes(s, a);
    if Flights.Actor(a.call) == Some(p) {
      OwnStep(s.calls, a.call, p);
    } else {
      Flights.OthersStay(s.calls, a.call, p);
      StillCallOk(s, Next(s, a), p);
    }
  }

  lemma FoundWasLoaded(s: State, shard: nat, hash: string, now: int)
    requires Cache.Sourced(s.cache) && Found(s, shard, hash, now).Some?
    ensures WasLoaded(s.cache.loads, hash, Found(s, shard, hash, now).value)
  {
    assert Cache.LoadOf(s.cache, shard, hash) in s.cache.loads;
  }

  lemma HitOk(s: State, a: Action)
    requires Inv(s) && Enabled(s, a) && (a.HitBefore? || a.HitInside?)
    ensures Call(Next(s, a), a.pid).Done? && CallOk(Next(s, a), a.pid)
  {
    LoadsGrow(s, a);
    var hash := HashOf(s, a.pid);
    FoundWasLoaded(s, a.shard, hash, a.now);
    LoadedStays(s.cache.loads, Next(s, a).cache.loads, hash, Flights.Value(Found(s, a.shard, hash, a.now).value));
  }

  lemma NewLeader(s: Flights.State, p: Pid, f: Flights.FlightId)
    requires Flights.Enabled(s, Flights.CreateFlight(p, f))
    ensures var s' := Flights.Next(s, Flights.CreateFlight(p, f));
            && Flights.ProcOf(s', p) == Flights.Leading(Flights.ProcOf(s, p).hash, f)
            && f in s'.flights && s'.flights[f].hash == Flights.ProcOf(s, p).hash
  {
  }

  lemma NewLoad(s: Cache.State, p: Pid, hash: string)
    requires Cache.Enabled(s, Cache.ReadGeneration(p, hash))
    ensures Cache.ProcOf(Cache.Next(s, Cache.ReadGeneration(p, hash)), p) == Cache.Loading(hash, s.generation)
  {
  }

  lemma StartOk(s: State, a: Action)
    requires Enabled(s, a) && a.StartFlight?
    ensures CallOk(Next(s, a), a.pid)
  {
    NewLeader(s.calls, a.pid, a.flight);
    NewLoad(s.cache, a.pid, HashOf(s, a.pid));
  }

  /** A load that ends, in whatever way, leaves the call on its flight with an outcome. */
  lemma LoadEnds(s: Flights.State, a: Flights.Action)
    requires Flights.Enabled(s, a) && (a.LoadReturns? || a.LoadPanics? || a.Saturate? || a.EndBeforeAdmission?)
    ensures var q, q' := Flights.ProcOf(s, a.pid), Flights.ProcOf(Flights.Next(s, a), a.pid);
            && (q.Leading? || q.Loading?) && (q'.Releasing? || q'.Finishing?) && q'.hash == q.hash && q'.flight == q.flight
            && (if a.LoadReturns? then q'.out == a.out else q'.out.Err?)
  {
  }

  lemma LoadAdded(s: Cache.State, p: Pid, snapshot: int)
    requires Cache.ProcOf(s, p).Loading?
    ensures Cache.Load(Cache.ProcOf(s, p).hash, Cache.ProcOf(s, p).gen, snapshot) in Cache.Next(s, Cache.FinishLoad(p, snapshot)).loads
  {
  }

  lemma LoadOk(s: State, a: Action)
    requires Inv(s) && Enabled(s, a) && a.LoadSucceeds?
    ensures CallOk(Next(s, a), a.pid)
  {
    assert CallOk(s, a.pid);
    LoadEnds(s.calls, CallPart(s, a).value);
    LoadAdded(s.cache, a.pid, a.snapshot);
    KeepsHashes(s, a);
  }

  lemma FailOk(s: State, a: Action)
    requires Inv(s) && Enabled(s, a) && (a.LoadFails? || a.LoadPanics? || a.NotAdmitted?)
    ensures CallOk(Next(s, a), a.pid)
  {
    assert CallOk(s, a.pid);
    LoadEnds(s.calls, CallPart(s, a).value);
    KeepsHashes(s, a);
  }

  lemma BothOthers(s: State, a: Action, p: Pid)
    requires Inv(s) && Enabled(s, a) && !a.OnCalls? && !a.OnCache? && a.pid != p
    ensures CallOk(Next(s, a), p)
  {
    assert CallOk(s, p);
    LoadsGrow(s, a);
    KeepsHashes(s, a);
    Flights.OthersStay(s.calls, CallPart(s, a).value, p);
    OtherStoringStays(s.cache, CachePart(s, a).value, p);
    StillCallOk(s, Next(s, a), p);
  }

  lemma NextCallOk(s: State, a: Action, p: Pid)
    requires Inv(s) && Enabled(s, a)
    ensures CallOk(Next(s, a), p)
  {
    if a.OnCalls? {
      CallStepCallOk(s, a, p);
    } else if a.OnCache? {
      CacheStepCallOk(s, a, p);
    } else if a.pid != p {
      BothOthers(s, a, p);
    } else if a.HitBefore? || a.HitInside? {
      HitOk(s, a);
    } else if a.StartFlight? {
      StartOk(s, a);
    } else if a.LoadSucceeds? {
      LoadOk(s, a);
    } else {
      FailOk(s, a);
    }
  }

  /** A flight gets its result from its leader, or from Close. */
  lemma ResultCameFrom(s: Flights.State, a: Flights.Action, f: Flights.FlightId)
    requires Flights.CompletedOnce(s) && Flights.InsideOnce(s)
    requires f in Flights.Next(s, a).flights && Flights.Next(s, a).flights[f].result.Some?
    ensures var result := Flights.Next(s, a).flights[f].result;
            || (f in s.flights && s.flights[f].result == result)
            || result == Some(Flights.Err(Flights.Closed))
            || (a.Complete? && Flights.ProcOf(s, a.pid).Finishing? && Flights.ProcOf(s, a.pid).flight == f
                && result == Some(Flights.ProcOf(s, a.pid).out))
  {
    if f !in s.flights {
      Flights.NewFlightIsFresh(s, a, f);
    } else {
      assert Flights.FlightOk(s.flights[f]);
      if s.flights[f].once.Fresh? {
        Flights.WhoCompletes(s, a, f);
      } else {
        Flights.FlightStays(s, a, f);
      }
    }
  }

  lemma NextFlightOk(s: State, a: Action, f: Flights.FlightId)
    requires Inv(s) && Enabled(s, a) && f in Next(s, a).calls.flights
    ensures FlightOk(Next(s, a), f)
  {
    LoadsGrow(s, a);
    KeepsHashes(s, a);
    if Next(s, a).calls.flights[f].result.Some? {
      if CallPart(s, a).None? {
        assert FlightOk(s, f);
        LoadedStays(s.cache.loads, Next(s, a).cache.loads, s.calls.flights[f].hash, s.calls.flights[f].result.value);
      } else {
        NextResultOk(s, a, f);
      }
    }
  }

  lemma NextResultOk(s: State, a: Action, f: Flights.FlightId)
    requires Inv(s) && Enabled(s, a) && CallPart(s, a).Some?
    requires f in Next(s, a).calls.flights && Next(s, a).calls.flights[f].result.Some?
    requires s.cache.loads <= Next(s, a).cache.loads
    requires f in s.calls.flights ==> Next(s, a).calls.flights[f].hash == s.calls.flights[f].hash
    ensures FlightOk(Next(s, a), f)
  {
    var call := CallPart(s, a).value;
    ResultCameFrom(s.calls, call, f);
    ResultOk(s, call, Next(s, a).calls.flights[f], Next(s, a).cache.loads, f);
  }

  /** A result that was there before, comes from Close, or is what a leader carries. */
  lemma ResultOk(s: State, call: Flights.Action, fl: Flights.Flight, loads: set<Cache.Load>, f: Flights.FlightId)
    requires (forall p :: CallOk(s, p)) && (forall g :: g in s.calls.flights ==> FlightOk(s, g))
    requires s.cache.loads <= loads && fl.result.Some? && (f in s.calls.flights ==> fl.hash == s.calls.flights[f].hash)
    requires || (f in s.calls.flights && s.calls.flights[f].result == fl.result)
             || fl.result == Some(Flights.Err(Flights.Closed))
             || (call.Complete? && Call(s, call.pid).Finishing? && Call(s, call.pid).flight == f && fl.result == Some(Call(s, call.pid).out))
    ensures OutcomeOk(loads, fl.hash, fl.result.value)
  {
    if f in s.calls.flights && s.calls.flights[f].result == fl.result {
      assert FlightOk(s, f);
      LoadedStays(s.cache.loads, loads, fl.hash, fl.result.value);
    } else if fl.result != Some(Flights.Err(Flights.Closed)) {
      assert CallOk(s, call.pid);
      LoadedStays(s.cache.loads, loads, fl.hash, fl.result.value);
    }
  }

  lemma NextKeeps(s: State, a: Action)
    requires Inv(s)
    ensures Inv(Next(s, a))
  {
    if Enabled(s, a) {
      if CallPart(s, a).Some? {
        Flights.KeepsInv(s.calls, CallPart(s, a).value);
      }
      if CachePart(s, a).Some? {
        Cache.NextSourced(s.cache, CachePart(s, a).value);
      }
      forall p ensures CallOk(Next(s, a), p) {
        NextCallOk(s, a, p);
      }
      forall f | f in Next(s, a).calls.flights ensures FlightOk(Next(s, a), f) {
        NextFlightOk(s, a, f);
      }
    }
  }

  lemma InitialInv(capacity: nat, capacities: seq<nat>)
    ensures Inv(Initial(capacity, capacities))
  {
    Flights.InitialInv(capacity);
    forall p ensures CallOk(Initial(capacity, capacities), p) {
    }
  }

  lemma {:induction false} RunKeeps(capacity: nat, capacities: seq<nat>, acts: seq<Action>)
    ensures Inv(Run(Initial(capacity, capacities), acts))
  {
    if acts == [] {
      InitialInv(capacity, capacities);
    } else {
      RunKeeps(capacity, capacities, acts[..|acts| - 1]);
      NextKeeps(Run(Initial(capacity, capacities), acts[..|acts| - 1]), acts[|acts| - 1]);
    }
  }

  // ---------- the claims ----------

  /**
   In every interleaving of calls, loads, stores, evictions, invalidations and Close, a call that answers with a
   snapshot, from the cache or from a flight, answers with what a store load for its own hash produced.
   */
  lemma EveryAnswerWasLoaded(capacity: nat, capacities: seq<nat>, acts: seq<Action>, p: Pid)
    ensures var s := Run(Initial(capacity, capacities), acts);
            var q := Call(s, p);
            && (q.Done? && q.out.Value? ==> WasLoaded(s.cache.loads, q.hash, q.out.snapshot))
            && (q.Returned? && q.out.Value? ==>
                  q.flight in s.calls.flights && WasLoaded(s.cache.loads, s.calls.flights[q.flight].hash, q.out.snapshot))
  {
    RunKeeps(capacity, capacities, acts);
    AnswerWasLoaded(Run(Initial(capacity, capacities), acts), p);
  }

  lemma AnswerWasLoaded(s: State, p: Pid)
    requires Inv(s)
    ensures var q := Call(s, p);
            && (q.Done? && q.out.Value? ==> WasLoaded(s.cache.loads, q.hash, q.out.snapshot))
            && (q.Returned? && q.out.Value? ==>
                  q.flight in s.calls.flights && WasLoaded(s.cache.loads, s.calls.flights[q.flight].hash, q.out.snapshot))
  {
    assert CallOk(s, p);
    if Call(s, p).Returned? && Call(s, p).out.Value? {
      ReturnedFromFlight(s.calls, p);
      assert FlightOk(s, Call(s, p).flight);
    }
  }

  lemma ReturnedFromFlight(s: Flights.State, p: Pid)
    requires Flights.Inv(s) && Flights.ProcOf(s, p).Returned? && Flights.ProcOf(s, p).out.Value?
    ensures Flights.ProcOf(s, p).flight in s.flights && s.flights[Flights.ProcOf(s, p).flight].result == Some(Flights.ProcOf(s, p).out)
  {
    assert Flights.ReturnOk(s, Flights.ProcOf(s, p));
  }

  /** The entry a hit returns, with the generation its load had read. */
  function HitEntry(s: State, a: Action): Option<Cache.Load> {
    if !Enabled(s, a) || !(a.HitBefore? || a.HitInside?) || a.shard >= |s.cache.shards| then None
    else
      var hash := HashOf(s, a.pid);
      var found := Cache.Found(s.cache, a.shard, hash, a.now);
      if found.None? then None else Some(Cache.Load(hash, found.value.generation, found.value.snapshot))
  }

  /**
   In every interleaving, a hit answers with a store load for that hash which read its generation at or after the bump
   of every InvalidateAll call that had returned before the hit.
   */
  lemma HitsAreFresh(capacity: nat, capacities: seq<nat>, acts: seq<Action>, a: Action)
    requires Enabled(Run(Initial(capacity, capacities), acts), a) && (a.HitBefore? || a.HitInside?)
    ensures var s := Run(Initial(capacity, capacities), acts);
            var load := HitEntry(s, a);
            && load.Some? && load.value in s.cache.loads
            && Call(Next(s, a), a.pid) == Flights.Done(load.value.hash, Flights.Value(load.value.snapshot))
            && (forall p :: p in s.cache.procs && s.cache.procs[p].Returned? ==> s.cache.procs[p].bump <= load.value.generation)
  {
    var s0 := Initial(capacity, capacities);
    var s := Run(s0, acts);
    CacheIsARun(s0, acts);
    Cache.RunKeepsInv(s0.cache, CacheActs(s0, acts));
    HitAnswers(s, a);
    Cache.HitsAreLoadedAndFresh(capacities, CacheActs(s0, acts), a.shard, HashOf(s, a.pid), a.now);
  }

  /** A hit answers with the entry it found. */
  lemma HitAnswers(s: State, a: Action)
    requires Enabled(s, a) && (a.HitBefore? || a.HitInside?)
    ensures a.shard < |s.cache.shards| && Cache.Found(s.cache, a.shard, HashOf(s, a.pid), a.now).Some?
    ensures var found := Cache.Found(s.cache, a.shard, HashOf(s, a.pid), a.now).value;
            && HitEntry(s, a) == Some(Cache.Load(HashOf(s, a.pid), found.generation, found.snapshot))
            && Call(Next(s, a), a.pid) == Flights.Done(HashOf(s, a.pid), Flights.Value(found.snapshot))
  {
  }
}
