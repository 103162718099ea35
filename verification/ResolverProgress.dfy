/**
 No call of the resolver is ever stuck: as long as some call, or Close, is on its way, a step of the
 code itself is possible, and every step uses up one of the few that a call can take.
 */
module ResolverProgress {
  import opened Basics
  import opened ResolverFlights
  import opened FinishedFlights

  /** The flight mutex is held by a call inside the critical section. */
  predicate MutexHeld(s: State) {
    s.mutex.Some? ==> ProcOf(s, s.mutex.value).Entered?
  }

  /** A completion that is running has someone who will end it. */
  ghost predicate RunnersThere(s: State) {
    forall f :: f in s.flights ==> RunnerThere(s, f)
  }

  predicate RunnerThere(s: State, f: FlightId)
    requires f in s.flights
  {
    match s.flights[f].once
    case Running(ByLeader) => ProcOf(s, s.flights[f].leader).Unlisting? && ProcOf(s, s.flights[f].leader).flight == f
    case Running(ByClose) => s.closer.CloserUnlisting? && s.closer.flight == f
    case _ => true
  }

  lemma KeepsMutexHeld(s: State, a: Action)
    requires MutexHeld(s)
    ensures MutexHeld(Next(s, a))
  {
  }

  /** A completion starts to run with the step of its runner. */
  lemma StartsRunning(s: State, a: Action, f: FlightId)
    requires LeadersOk(s) && f in s.flights && s.flights[f].once.Fresh? && f in Next(s, a).flights
    ensures RunnerThere(Next(s, a), f)
  {
    if !TouchesFlights(a) {
      FlightsUntouched(s, a);
    } else if a.Complete? && Enabled(s, a) {
      assert Leads(s, a.pid, s.procs[a.pid].flight);
    }
  }

  /** A leader that is to unlist its flight goes on to, whatever others do. */
  lemma KeepsLeaderRunner(s: State, a: Action, f: FlightId)
    requires InsideOnce(s) && f in s.flights && RunningBy(s, f, ByLeader) && RunnerThere(s, f)
    requires f in Next(s, a).flights && Next(s, a).flights[f] == s.flights[f]
    ensures RunnerThere(Next(s, a), f)
  {
    var p := s.flights[f].leader;
    if Actor(a) == Some(p) {
      OwnUnlisting(s, a, p);
    } else {
      OthersStay(s, a, p);
    }
  }

  lemma OwnUnlisting(s: State, a: Action, p: Pid)
    requires Actor(a) == Some(p) && ProcOf(s, p).Unlisting? && RunningBy(s, ProcOf(s, p).flight, ByLeader)
    ensures ProcOf(Next(s, a), p) == ProcOf(s, p) || Next(s, a).flights != s.flights
    ensures ProcOf(Next(s, a), p) == ProcOf(s, p)
            || (ProcOf(s, p).flight in Next(s, a).flights && Next(s, a).flights[ProcOf(s, p).flight].once.Over?)
  {
  }

  lemma KeepsCloseRunner(s: State, a: Action, f: FlightId)
    requires InsideOnce(s) && f in s.flights && RunningBy(s, f, ByClose) && RunnerThere(s, f)
    requires f in Next(s, a).flights && Next(s, a).flights[f] == s.flights[f]
    ensures RunnerThere(Next(s, a), f)
  {
  }

  lemma KeepsRunner(s: State, a: Action, f: FlightId)
    requires LeadersOk(s) && InsideOnce(s) && RunnersThere(s) && f in Next(s, a).flights
    ensures RunnerThere(Next(s, a), f)
  {
    if f !in s.flights {
      NewFlightIsFresh(s, a, f);
    } else if s.flights[f].once.Fresh? {
      StartsRunning(s, a, f);
    } else {
      AfterCompleted(s, a, f);
      assert RunnerThere(s, f);
      if Next(s, a).flights[f] == s.flights[f] && s.flights[f].once.Running? {
        if s.flights[f].once.who.ByLeader? {
          KeepsLeaderRunner(s, a, f);
        } else {
          KeepsCloseRunner(s, a, f);
        }
      }
    }
  }

  ghost predicate Ready(s: State) {
    Inv(s) && Tidy(s) && MutexHeld(s) && RunnersThere(s)
  }

  lemma {:induction false} RunReady(capacity: nat, acts: seq<Action>)
    ensures Ready(Run(Initial(capacity), acts))
  {
    RunTidy(capacity, acts);
    if acts != [] {
      var before := Run(Initial(capacity), acts[..|acts| - 1]);
      RunReady(capacity, acts[..|acts| - 1]);
      KeepsMutexHeld(before, acts[|acts| - 1]);
      forall f | f in Run(Initial(capacity), acts).flights ensures RunnerThere(Run(Initial(capacity), acts), f) {
        KeepsRunner(before, acts[|acts| - 1], f);
      }
    }
  }

  // ---------- a step is possible ----------

  /** A call that has begun and not returned. */
  predicate UnderWay(q: Proc) {
    !q.Idle? && !q.Returned? && !q.Done?
  }

  /** A step of the code, and not one by which a call or Close begins or a context ends. */
  predicate IsProgress(a: Action) {
    !(a.RejectClosed? || a.PassCheck? || a.CloseFlag? || a.EndBeforeAdmission? || a.EndWhileWaiting?)
  }

  ghost predicate CanGoOn(s: State) {
    exists a :: IsProgress(a) && Enabled(s, a)
  }

  lemma Possible(s: State, a: Action)
    requires IsProgress(a) && Enabled(s, a)
    ensures CanGoOn(s)
  {
  }

  /** Whoever holds the mutex can go on. */
  lemma HolderGoesOn(s: State)
    requires MutexHeld(s) && s.mutex.Some?
    ensures CanGoOn(s)
  {
    var p := s.mutex.value;
    if ProcOf(s, p).hash in s.inFlight {
      Possible(s, Join(p));
    } else {
      Possible(s, HitLate(p, 0));
    }
  }

  lemma UnlisterGoesOn(s: State, p: Pid)
    requires Ready(s) && ProcOf(s, p).Unlisting?
    ensures CanGoOn(s)
  {
    if s.mutex.Some? {
      HolderGoesOn(s);
    } else {
      assert RunningBy(s, s.procs[p].flight, ByLeader);
      Possible(s, Unlist(p));
    }
  }

  /** A completion that is running can be ended. */
  lemma RunnerGoesOn(s: State, f: FlightId)
    requires Ready(s) && f in s.flights && s.flights[f].once.Running?
    ensures CanGoOn(s)
  {
    assert RunnerThere(s, f);
    if s.flights[f].once.who.ByLeader? {
      UnlisterGoesOn(s, s.flights[f].leader);
    } else if s.mutex.Some? {
      HolderGoesOn(s);
    } else {
      Possible(s, CloseUnlist);
    }
  }

  lemma LeaderGoesOn(s: State, p: Pid)
    requires Ready(s) && Leader(ProcOf(s, p))
    ensures CanGoOn(s)
  {
    var q := ProcOf(s, p);
    match q
    case Leading(_, _) => Possible(s, if |s.admitted| < s.capacity then Admit(p) else Saturate(p));
    case Loading(_, _) => Possible(s, LoadPanics(p));
    case Releasing(_, _, _) => Possible(s, ReleaseAdmission(p));
    case Finishing(_, f, _, _) =>
      assert Leads(s, p, f);
      if s.flights[f].once.Running? {
        RunnerGoesOn(s, f);
      } else {
        Possible(s, Complete(p));
      }
    case Unlisting(_, _, _, _) => UnlisterGoesOn(s, p);
  }

  lemma WaiterGoesOn(s: State, p: Pid)
    requires Ready(s) && ProcOf(s, p).Waiting?
    ensures CanGoOn(s)
  {
    var f := s.procs[p].flight;
    assert f in s.flights && FlightOk(s.flights[f]);
    if s.flights[f].result.Some? {
      Possible(s, Deliver(p));
    } else {
      assert StillLed(s, f);
      LeaderGoesOn(s, s.flights[f].leader);
    }
  }

  /** In every interleaving, as long as some call has not returned, some step is possible that is neither a new call nor the end of a context. */
  lemma NoCallIsStuck(capacity: nat, acts: seq<Action>, p: Pid)
    requires UnderWay(ProcOf(Run(Initial(capacity), acts), p))
    ensures CanGoOn(Run(Initial(capacity), acts))
  {
    var s := Run(Initial(capacity), acts);
    RunReady(capacity, acts);
    var q := ProcOf(s, p);
    if q.Waiting? {
      WaiterGoesOn(s, p);
    } else if Leader(q) {
      LeaderGoesOn(s, p);
    } else if s.mutex.Some? {
      HolderGoesOn(s);
    } else if s.closed {
      Possible(s, LeaveClosed(p));
    } else {
      Possible(s, Enter(p));
    }
  }

  /** In every interleaving, as long as Close has begun and not returned, some such step is possible. */
  lemma CloseIsNotStuck(capacity: nat, acts: seq<Action>)
    requires var s := Run(Initial(capacity), acts); !s.closer.Open? && !s.closer.Finished?
    ensures CanGoOn(Run(Initial(capacity), acts))
  {
    var s := Run(Initial(capacity), acts);
    RunReady(capacity, acts);
    if s.closer.Completing? {
      CompletingGoesOn(s);
    } else if s.mutex.Some? {
      HolderGoesOn(s);
    } else {
      Possible(s, if s.closer.Flagged? then CloseSnapshot else CloseUnlist);
    }
  }

  lemma CompletingGoesOn(s: State)
    requires Ready(s) && s.closer.Completing?
    ensures CanGoOn(s)
  {
    if s.closer.todo == map[] {
      Possible(s, CloseFinish);
    } else {
      var h :| h in s.closer.todo;
      var f := s.closer.todo[h];
      assert HashIs(s, f, h);
      if s.flights[f].once.Running? {
        RunnerGoesOn(s, f);
      } else {
        Possible(s, CloseComplete(h));
      }
    }
  }

  // ---------- and steps are used up ----------

  /** How many steps of its own a call can still take. */
  function StepsLeft(q: Proc): nat {
    match q
    case Idle => 9
    case Passed(_) => 8
    case Entered(_) => 7
    case Leading(_, _) => 6
    case Loading(_, _) => 5
    case Releasing(_, _, _) => 4
    case Finishing(_, _, _, _) => 3
    case Unlisting(_, _, _, _) => 2
    case Waiting(_) => 1
    case Returned(_, _, _) => 0
    case Done(_, _) => 0
  }

  /** Every step of a call uses up one of at most nine, and none of another call's, so every call returns if steps are taken. */
  lemma StepUsesUp(s: State, a: Action, p: Pid)
    requires Enabled(s, a) && Actor(a).Some?
    ensures StepsLeft(ProcOf(Next(s, a), a.pid)) < StepsLeft(ProcOf(s, a.pid)) <= 9
    ensures p != a.pid ==> ProcOf(Next(s, a), p) == ProcOf(s, p)
  {
    OwnStepUsesUp(s, a);
    if p != a.pid {
      OthersStay(s, a, p);
    }
  }

  lemma OwnStepUsesUp(s: State, a: Action)
    requires Enabled(s, a) && Actor(a).Some?
    ensures StepsLeft(ProcOf(Next(s, a), a.pid)) < StepsLeft(ProcOf(s, a.pid)) <= 9
  {
  }

  /** What Close has left: whether it has taken its snapshot, and then its completions, each in two steps. */
  function CloseLeft(c: Closer): (nat, nat) {
    match c
    case Open => (3, 0)
    case Flagged => (2, 0)
    case Completing(todo) => (1, 2 * |todo|)
    case CloserUnlisting(_, _, todo) => (1, 2 * |todo| + 1)
    case Finished => (0, 0)
  }

  lemma CloseUsesUp(s: State, a: Action)
    requires Enabled(s, a) && Actor(a).None?
    ensures var before, after := CloseLeft(s.closer), CloseLeft(Next(s, a).closer);
            after.0 < before.0 || (after.0 == before.0 && after.1 < before.1)
  {
    if a.CloseComplete? {
      var rest := s.closer.todo - {a.hash};
      assert rest.Keys == s.closer.todo.Keys - {a.hash};
      assert |rest| == |rest.Keys| && |s.closer.todo| == |s.closer.todo.Keys|;
    }
  }

  // ---------- joining ----------

  /**
   In every interleaving, a call in the critical section goes on to wait for the unfinished flight of its hash if there
   is one, and otherwise answers from the cache or leads a new flight.
   */
  lemma JoinsUnfinished(capacity: nat, acts: seq<Action>, a: Action, f: FlightId)
    requires var s := Run(Initial(capacity), acts); Enabled(s, a) && Actor(a).Some? && ProcOf(s, a.pid).Entered?
    ensures var s := Run(Initial(capacity), acts);
            var q, q' := ProcOf(s, a.pid), ProcOf(Next(s, a), a.pid);
            && (f in s.flights && s.flights[f].hash == q.hash && !s.flights[f].once.Over? ==> q' == Waiting(f))
            && (q'.Waiting? ==> q'.flight in s.flights && s.flights[q'.flight].hash == q.hash && !s.flights[q'.flight].once.Over?)
            && (q'.Waiting? || q'.Done? || (q'.Leading? && q'.flight !in s.flights))
  {
    var s := Run(Initial(capacity), acts);
    TableIsUnfinished(capacity, acts, ProcOf(s, a.pid).hash, f);
    if ProcOf(s, a.pid).hash in s.inFlight {
      TableIsUnfinished(capacity, acts, ProcOf(s, a.pid).hash, s.inFlight[ProcOf(s, a.pid).hash]);
    }
    EnteredSteps(s, a);
  }

  lemma EnteredSteps(s: State, a: Action)
    requires Enabled(s, a) && Actor(a).Some? && ProcOf(s, a.pid).Entered?
    ensures var q, q' := ProcOf(s, a.pid), ProcOf(Next(s, a), a.pid);
            && (q.hash in s.inFlight ==> q' == Waiting(s.inFlight[q.hash]))
            && (q.hash !in s.inFlight ==> q'.Done? || (q'.Leading? && q'.flight !in s.flights))
  {
  }
}
