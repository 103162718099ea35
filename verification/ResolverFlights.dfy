/**
 Single-flight loading in the resolver, as interleaved steps: the critical section of flightMu,
 the admission channel, the store load (which may panic), completeFlight in its two halves, and
 Close, which completes the flights it finds. Cache lookups appear as the choice to hit or miss, and
 the check of `closed` that comes before the first of them is a step of its own.
 */
module ResolverFlights {
  import opened Basics

  type Pid = nat
  type FlightId = nat

  datatype Error = Saturated | Closed | LoadPanicked | ContextEnded | StoreFailed(code: int)

  datatype Outcome = Value(snapshot: int) | Err(error: Error)

  datatype Completer = ByLeader | ByClose

  /** The sync.Once of a flight: its function has not run, is running until the flight is unlisted, or has returned. */
  datatype Once = Fresh | Running(who: Completer) | Over(who: Completer)

  datatype Flight = Flight(hash: string, leader: Pid, result: Option<Outcome>, completions: nat, once: Once)

  /** What a leader does once it has called completeFlight. */
  datatype Exit = ThenWait | ThenRefuse | ThenContextEnd | ThenPanic

  datatype Reason = FromFlight | OwnContextEnded | Refused | Panicking

  datatype Proc =
    | Idle
    | Passed(hash: string)
    | Entered(hash: string)
    | Leading(hash: string, flight: FlightId)
    | Loading(hash: string, flight: FlightId)
    | Releasing(hash: string, flight: FlightId, out: Outcome)
    | Finishing(hash: string, flight: FlightId, out: Outcome, exit: Exit)
    | Unlisting(hash: string, flight: FlightId, out: Outcome, exit: Exit)
    | Waiting(flight: FlightId)
    | Returned(flight: FlightId, out: Outcome, reason: Reason)
    | Done(hash: string, out: Outcome)

  datatype Closer =
    | Open
    | Flagged
    | Completing(todo: map<string, FlightId>)
    | CloserUnlisting(hash: string, flight: FlightId, todo: map<string, FlightId>)
    | Finished

  datatype State = State(
    capacity: nat,
    closed: bool,
    mutex: Option<Pid>,
    inFlight: map<string, FlightId>,
    flights: map<FlightId, Flight>,
    admitted: set<Pid>,
    procs: map<Pid, Proc>,
    closer: Closer)

  datatype Action =
    | RejectClosed(pid: Pid, hash: string)
    | PassCheck(pid: Pid, hash: string)
    | HitEarly(pid: Pid, snapshot: int)
    | Enter(pid: Pid)
    | LeaveClosed(pid: Pid)
    | Join(pid: Pid)
    | HitLate(pid: Pid, snapshot: int)
    | CreateFlight(pid: Pid, flight: FlightId)
    | Admit(pid: Pid)
    | EndBeforeAdmission(pid: Pid)
    | Saturate(pid: Pid)
    | LoadReturns(pid: Pid, out: Outcome)
    | LoadPanics(pid: Pid)
    | ReleaseAdmission(pid: Pid)
    | Complete(pid: Pid)
    | Unlist(pid: Pid)
    | Deliver(pid: Pid)
    | EndWhileWaiting(pid: Pid)
    | CloseFlag
    | CloseSnapshot
    | CloseComplete(hash: string)
    | CloseUnlist
    | CloseFinish

  function ProcOf(s: State, p: Pid): Proc {
    if p in s.procs then s.procs[p] else Idle
  }

  predicate Enabled(s: State, a: Action) {
    match a
    case RejectClosed(p, _) => ProcOf(s, p).Idle? && s.closed
    case PassCheck(p, _) => ProcOf(s, p).Idle? && !s.closed
    case HitEarly(p, _) => ProcOf(s, p).Passed?
    case Enter(p) => ProcOf(s, p).Passed? && s.mutex.None? && !s.closed
    case LeaveClosed(p) => ProcOf(s, p).Passed? && s.mutex.None? && s.closed
    case Join(p) => ProcOf(s, p).Entered? && ProcOf(s, p).hash in s.inFlight
    case HitLate(p, _) => ProcOf(s, p).Entered? && ProcOf(s, p).hash !in s.inFlight
    case CreateFlight(p, f) => ProcOf(s, p).Entered? && ProcOf(s, p).hash !in s.inFlight && f !in s.flights
    case Admit(p) => ProcOf(s, p).Leading? && |s.admitted| < s.capacity
    case EndBeforeAdmission(p) => ProcOf(s, p).Leading?
    case Saturate(p) => ProcOf(s, p).Leading? && |s.admitted| >= s.capacity
    case LoadReturns(p, out) => ProcOf(s, p).Loading?
    case LoadPanics(p) => ProcOf(s, p).Loading?
    case ReleaseAdmission(p) => ProcOf(s, p).Releasing?
    case Complete(p) => ProcOf(s, p).Finishing? && ProcOf(s, p).flight in s.flights && !s.flights[ProcOf(s, p).flight].once.Running?
    case Unlist(p) => ProcOf(s, p).Unlisting? && s.mutex.None? && ProcOf(s, p).flight in s.flights
    case Deliver(p) => ProcOf(s, p).Waiting? && ProcOf(s, p).flight in s.flights && s.flights[ProcOf(s, p).flight].result.Some?
    case EndWhileWaiting(p) => ProcOf(s, p).Waiting?
    case CloseFlag => s.closer.Open?
    case CloseSnapshot => s.closer.Flagged? && s.mutex.None?
    case CloseComplete(h) =>
      && s.closer.Completing? && h in s.closer.todo && s.closer.todo[h] in s.flights
      && !s.flights[s.closer.todo[h]].once.Running?
    case CloseUnlist => s.closer.CloserUnlisting? && s.mutex.None? && s.closer.flight in s.flights
    case CloseFinish => s.closer.Completing? && s.closer.todo == map[]
  }

  /**
   sync.Once around the result: only the first completion of a flight has an effect, and a later one waits until
   the first has returned.
   */
  function CompleteOnce(s: State, f: FlightId, out: Outcome, who: Completer): map<FlightId, Flight>
    requires f in s.flights
  {
    if !s.flights[f].once.Fresh? then s.flights
    else s.flights[f := s.flights[f].(result := Some(out), completions := s.flights[f].completions + 1, once := Running(who))]
  }

  function LeaveOnce(s: State, f: FlightId, who: Completer): map<FlightId, Flight>
    requires f in s.flights
  {
    s.flights[f := s.flights[f].(once := Over(who))]
  }

  function Delist(s: State, h: string, f: FlightId): map<string, FlightId> {
    if h in s.inFlight && s.inFlight[h] == f then s.inFlight - {h} else s.inFlight
  }

  /** Where a leader goes once completeFlight has returned. */
  function AfterCompletion(q: Proc): Proc
    requires q.Finishing? || q.Unlisting?
  {
    match q.exit
    case ThenWait => Waiting(q.flight)
    case ThenRefuse => Returned(q.flight, q.out, Refused)
    case ThenContextEnd => Returned(q.flight, q.out, OwnContextEnded)
    case ThenPanic => Returned(q.flight, q.out, Panicking)
  }

  function Take(s: State, a: Action): State
    requires Enabled(s, a)
  {
    match a
    case RejectClosed(p, h) => s.(procs := s.procs[p := Done(h, Err(Closed))])
    case PassCheck(p, h) => s.(procs := s.procs[p := Passed(h)])
    case HitEarly(p, v) => s.(procs := s.procs[p := Done(ProcOf(s, p).hash, Value(v))])
    case Enter(p) => s.(mutex := Some(p), procs := s.procs[p := Entered(ProcOf(s, p).hash)])
    case LeaveClosed(p) => s.(procs := s.procs[p := Done(ProcOf(s, p).hash, Err(Closed))])
    case Join(p) => s.(mutex := None, procs := s.procs[p := Waiting(s.inFlight[ProcOf(s, p).hash])])
    case HitLate(p, v) => s.(mutex := None, procs := s.procs[p := Done(ProcOf(s, p).hash, Value(v))])
    case CreateFlight(p, f) =>
      var h := ProcOf(s, p).hash;
      s.(mutex := None,
         inFlight := s.inFlight[h := f],
         flights := s.flights[f := Flight(h, p, None, 0, Fresh)],
         procs := s.procs[p := Leading(h, f)])
    case Admit(p) =>
      var q := ProcOf(s, p);
      s.(admitted := s.admitted + {p}, procs := s.procs[p := Loading(q.hash, q.flight)])
    case EndBeforeAdmission(p) =>
      var q := ProcOf(s, p);
      s.(procs := s.procs[p := Finishing(q.hash, q.flight, Err(ContextEnded), ThenContextEnd)])
    case Saturate(p) =>
      var q := ProcOf(s, p);
      s.(procs := s.procs[p := Finishing(q.hash, q.flight, Err(Saturated), ThenRefuse)])
    case LoadReturns(p, out) =>
      var q := ProcOf(s, p);
      s.(procs := s.procs[p := Releasing(q.hash, q.flight, out)])
    case LoadPanics(p) =>
      var q := ProcOf(s, p);
      s.(admitted := s.admitted - {p}, procs := s.procs[p := Finishing(q.hash, q.flight, Err(LoadPanicked), ThenPanic)])
    case ReleaseAdmission(p) =>
      var q := ProcOf(s, p);
      s.(admitted := s.admitted - {p}, procs := s.procs[p := Finishing(q.hash, q.flight, q.out, ThenWait)])
    case Complete(p) =>
      var q := ProcOf(s, p);
      if !s.flights[q.flight].once.Fresh? then s.(procs := s.procs[p := AfterCompletion(q)])
      else s.(flights := CompleteOnce(s, q.flight, q.out, ByLeader),
              procs := s.procs[p := Unlisting(q.hash, q.flight, q.out, q.exit)])
    case Unlist(p) =>
      var q := ProcOf(s, p);
      s.(inFlight := Delist(s, q.hash, q.flight),
         flights := LeaveOnce(s, q.flight, ByLeader),
         procs := s.procs[p := AfterCompletion(q)])
    case Deliver(p) =>
      var q := ProcOf(s, p);
      s.(procs := s.procs[p := Returned(q.flight, s.flights[q.flight].result.value, FromFlight)])
    case EndWhileWaiting(p) => s.(procs := s.procs[p := Returned(ProcOf(s, p).flight, Err(ContextEnded), OwnContextEnded)])
    case CloseFlag => s.(closed := true, closer := Flagged)
    case CloseSnapshot => s.(closer := Completing(s.inFlight))
    case CloseComplete(h) =>
      var f := s.closer.todo[h];
      s.(flights := CompleteOnce(s, f, Err(Closed), ByClose),
         closer := if !s.flights[f].once.Fresh? then Completing(s.closer.todo - {h})
                   else CloserUnlisting(h, f, s.closer.todo - {h}))
    case CloseUnlist =>
      s.(inFlight := Delist(s, s.closer.hash, s.closer.flight),
         flights := LeaveOnce(s, s.closer.flight, ByClose),
         closer := Completing(s.closer.todo))
    case CloseFinish => s.(closer := Finished)
  }

  /** An action that is not enabled does not happen, so every sequence of actions is a run. */
  function Next(s: State, a: Action): State {
    if Enabled(s, a) then Take(s, a) else s
  }

  function Initial(capacity: nat): State {
    State(capacity, false, None, map[], map[], {}, map[], Open)
  }

  function Run(s: State, acts: seq<Action>): State {
    if acts == [] then s else Next(Run(s, acts[..|acts| - 1]), acts[|acts| - 1])
  }

  // ---------- the invariant ----------

  /** A leader that has not yet called completeFlight. */
  predicate Active(q: Proc) {
    q.Leading? || q.Loading? || q.Releasing? || q.Finishing?
  }

  predicate Snapshotted(s: State) {
    s.closer.Completing? || s.closer.CloserUnlisting? || s.closer.Finished?
  }

  ghost predicate MutexOk(s: State) {
    forall p :: p in s.procs && s.procs[p].Entered? ==> s.mutex == Some(p)
  }

  ghost predicate CloseOk(s: State) {
    && (!s.closer.Open? ==> s.closed)
    && (Snapshotted(s) ==> forall p :: p in s.procs ==> !s.procs[p].Entered?)
  }

  ghost predicate FlightsListed(s: State) {
    && (forall h :: h in s.inFlight ==> s.inFlight[h] in s.flights)
    && (s.closer.Completing? || s.closer.CloserUnlisting? ==>
          forall h :: h in s.closer.todo ==> s.closer.todo[h] in s.flights)
  }

  ghost predicate Leads(s: State, p: Pid, f: FlightId) {
    f in s.flights && s.flights[f].leader == p
  }

  ghost predicate LeadersOk(s: State) {
    && (forall p :: p in s.procs && (Active(s.procs[p]) || s.procs[p].Unlisting?) ==> Leads(s, p, s.procs[p].flight))
    && (forall p :: p in s.procs && Active(s.procs[p]) ==> Listed(s, s.procs[p]))
  }

  predicate Listed(s: State, q: Proc)
    requires Active(q)
  {
    Snapshotted(s) || (q.hash in s.inFlight && s.inFlight[q.hash] == q.flight)
  }

  ghost predicate OneLeaderPerHash(s: State) {
    forall p, q :: p in s.procs && q in s.procs && p != q && Active(s.procs[p]) && Active(s.procs[q]) ==>
      s.procs[p].hash != s.procs[q].hash
  }

  /** Before its leader completes a flight, only Close can have completed it. */
  ghost predicate OnlyCloseCompletes(s: State) {
    forall p :: p in s.procs && Active(s.procs[p]) && s.procs[p].flight in s.flights ==>
      OpenOrTaken(s.flights[s.procs[p].flight])
  }

  /** Close was the one to complete the flight. */
  predicate TakenByClose(fl: Flight) {
    !fl.once.Fresh? && fl.once.who.ByClose?
  }

  predicate OpenOrTaken(fl: Flight) {
    fl.once.Fresh? || TakenByClose(fl)
  }

  /** A flight without a result still has its leader on the way to completing it. */
  ghost predicate Led(s: State) {
    forall f :: f in s.flights && s.flights[f].result.None? ==>
      var p := s.flights[f].leader;
      p in s.procs && Active(s.procs[p]) && s.procs[p].flight == f
  }

  ghost predicate AdmissionOk(s: State) {
    && |s.admitted| <= s.capacity
    && (forall p :: p in s.admitted <==> HoldsAdmission(s, p))
  }

  predicate FlightOk(fl: Flight) {
    && (fl.result.None? <==> fl.once.Fresh?)
    && fl.completions == (if fl.result.Some? then 1 else 0)
    && (TakenByClose(fl) ==> fl.result == Some(Err(Closed)))
  }

  ghost predicate CompletedOnce(s: State) {
    forall f :: f in s.flights ==> FlightOk(s.flights[f])
  }

  /** Whoever is about to unlist a flight is still inside its sync.Once. */
  ghost predicate InsideOnce(s: State) {
    && (forall p :: p in s.procs && s.procs[p].Unlisting? ==> RunningBy(s, s.procs[p].flight, ByLeader))
    && (s.closer.CloserUnlisting? ==> RunningBy(s, s.closer.flight, ByClose))
  }

  predicate RunningBy(s: State, f: FlightId, who: Completer) {
    f in s.flights && s.flights[f].once == Running(who)
  }

  predicate FinishingOk(q: Proc)
    requires q.Finishing?
  {
    match q.exit
    case ThenWait => true
    case ThenRefuse => q.out == Err(Saturated)
    case ThenContextEnd => q.out == Err(ContextEnded)
    case ThenPanic => q.out == Err(LoadPanicked)
  }

  /** What a call is about to return agrees with its flight. */
  ghost predicate LeavingOk(s: State) {
    && (forall p :: p in s.procs && s.procs[p].Finishing? ==> FinishingOk(s.procs[p]))
    && (forall p :: p in s.procs && s.procs[p].Unlisting? ==>
          && s.procs[p].flight in s.flights
          && s.flights[s.procs[p].flight].result == Some(s.procs[p].out)
          && FinishingOk(Finishing(s.procs[p].hash, s.procs[p].flight, s.procs[p].out, s.procs[p].exit)))
    && (forall p :: p in s.procs && s.procs[p].Waiting? ==> s.procs[p].flight in s.flights)
  }

  /** What a call has returned agrees with its flight. */
  ghost predicate ReturnsOk(s: State) {
    forall p :: p in s.procs && s.procs[p].Returned? ==> ReturnOk(s, s.procs[p])
  }

  predicate ReturnOk(s: State, q: Proc)
    requires q.Returned?
  {
    && q.flight in s.flights
    && match q.reason
       case FromFlight => s.flights[q.flight].result == Some(q.out)
       case OwnContextEnded => q.out == Err(ContextEnded)
       case Panicking => s.flights[q.flight].result.Some? && q.out == Err(LoadPanicked)
       case Refused =>
         q.out == Err(Saturated)
         && (s.flights[q.flight].result == Some(Err(Saturated)) || TakenByClose(s.flights[q.flight]))
  }

  ghost predicate Inv(s: State) {
    && MutexOk(s) && CloseOk(s) && FlightsListed(s) && LeadersOk(s) && OneLeaderPerHash(s)
    && OnlyCloseCompletes(s) && Led(s) && AdmissionOk(s) && CompletedOnce(s) && InsideOnce(s) && LeavingOk(s) && ReturnsOk(s)
  }

  lemma KeepsMutex(s: State, a: Action)
    requires MutexOk(s)
    ensures MutexOk(Next(s, a))
  {
  }

  lemma KeepsClose(s: State, a: Action)
    requires MutexOk(s) && CloseOk(s)
    ensures CloseOk(Next(s, a))
  {
  }

  lemma KeepsListed(s: State, a: Action)
    requires FlightsListed(s)
    ensures FlightsListed(Next(s, a))
  {
  }

  /** The call a step belongs to; the steps of Close belong to none. */
  function Actor(a: Action): Option<Pid> {
    if a.CloseFlag? || a.CloseSnapshot? || a.CloseComplete? || a.CloseUnlist? || a.CloseFinish? then None else Some(a.pid)
  }

  /** A step moves only the call it belongs to. */
  lemma OthersStay(s: State, a: Action, p: Pid)
    requires Actor(a) != Some(p)
    ensures ProcOf(Next(s, a), p) == ProcOf(s, p) && (p in Next(s, a).procs <==> p in s.procs)
  {
  }

  /** Steps that touch the flights. */
  predicate TouchesFlights(a: Action) {
    a.CreateFlight? || a.Complete? || a.Unlist? || a.CloseComplete? || a.CloseUnlist?
  }

  lemma FlightsUntouched(s: State, a: Action)
    requires !TouchesFlights(a)
    ensures Next(s, a).flights == s.flights
  {
  }

  /** What a leader's own step may make of it. */
  lemma OwnLeaderStep(s: State, a: Action)
    requires Actor(a).Some? && (Active(ProcOf(Next(s, a), a.pid)) || ProcOf(Next(s, a), a.pid).Unlisting?)
    ensures var q, q' := ProcOf(s, a.pid), ProcOf(Next(s, a), a.pid);
            || ((Active(q) || (q.Unlisting? && !Active(q'))) && q.hash == q'.hash && q.flight == q'.flight)
            || (a.CreateFlight? && Enabled(s, a) && q.hash == q'.hash && q'.flight == a.flight)
  {
  }

  /** A leader was one before, of the same flight, or has just created its flight. */
  lemma BecameLeader(s: State, a: Action, p: Pid)
    requires p in Next(s, a).procs && (Active(Next(s, a).procs[p]) || Next(s, a).procs[p].Unlisting?)
    ensures var q := Next(s, a).procs[p];
            || (p in s.procs && (Active(s.procs[p]) || (s.procs[p].Unlisting? && !Active(q)))
                && s.procs[p].hash == q.hash && s.procs[p].flight == q.flight)
            || (a.CreateFlight? && a.pid == p && Enabled(s, a) && ProcOf(s, p).hash == q.hash && q.flight == a.flight)
  {
    if Actor(a) == Some(p) {
      OwnLeaderStep(s, a);
    } else {
      OthersStay(s, a, p);
    }
  }

  /** Flights stay, with their leader and hash, and a result once set never changes, nor who set it. */
  lemma FlightStays(s: State, a: Action, f: FlightId)
    requires f in s.flights && FlightOk(s.flights[f]) && InsideOnce(s)
    ensures f in Next(s, a).flights && Next(s, a).flights[f].leader == s.flights[f].leader
    ensures Next(s, a).flights[f].hash == s.flights[f].hash
    ensures !s.flights[f].once.Fresh? ==>
              && Next(s, a).flights[f].result == s.flights[f].result
              && !Next(s, a).flights[f].once.Fresh? && Next(s, a).flights[f].once.who == s.flights[f].once.who
  {
    if !TouchesFlights(a) {
      FlightsUntouched(s, a);
    }
  }

  lemma KeepsLeads(s: State, a: Action, p: Pid)
    requires LeadersOk(s) && CompletedOnce(s) && InsideOnce(s)
    requires p in Next(s, a).procs && (Active(Next(s, a).procs[p]) || Next(s, a).procs[p].Unlisting?)
    ensures Leads(Next(s, a), p, Next(s, a).procs[p].flight)
  {
    BecameLeader(s, a, p);
    if p in s.procs && (Active(s.procs[p]) || s.procs[p].Unlisting?) {
      assert Leads(s, p, s.procs[p].flight);
      FlightStays(s, a, s.procs[p].flight);
    }
  }

  /** A hash leaves the table of flights only with its own flight, and by the leader or by Close. */
  lemma StaysListed(s: State, a: Action, h: string)
    requires h in s.inFlight && LeadersOk(s) && !Snapshotted(Next(s, a))
    ensures || (h in Next(s, a).inFlight && Next(s, a).inFlight[h] == s.inFlight[h])
            || (a.Unlist? && ProcOf(s, a.pid).Unlisting? && ProcOf(s, a.pid).flight == s.inFlight[h])
  {
  }

  lemma KeepsListing(s: State, a: Action, p: Pid)
    requires LeadersOk(s)
    requires p in Next(s, a).procs && Active(Next(s, a).procs[p])
    ensures Listed(Next(s, a), Next(s, a).procs[p])
  {
    BecameLeader(s, a, p);
    if p in s.procs && Active(s.procs[p]) && !Snapshotted(Next(s, a)) {
      assert Listed(s, s.procs[p]) && Leads(s, p, s.procs[p].flight);
      assert !Snapshotted(s);
      StaysListed(s, a, s.procs[p].hash);
      if a.Unlist? && ProcOf(s, a.pid).Unlisting? {
        assert Leads(s, a.pid, s.procs[a.pid].flight);
      }
    }
  }

  lemma KeepsLeaders(s: State, a: Action)
    requires MutexOk(s) && CloseOk(s) && FlightsListed(s) && LeadersOk(s) && OneLeaderPerHash(s)
    requires CompletedOnce(s) && InsideOnce(s)
    ensures LeadersOk(Next(s, a))
  {
    var s' := Next(s, a);
    forall p | p in s'.procs && (Active(s'.procs[p]) || s'.procs[p].Unlisting?)
      ensures Leads(s', p, s'.procs[p].flight)
    {
      KeepsLeads(s, a, p);
    }
    forall p | p in s'.procs && Active(s'.procs[p])
      ensures Listed(s', s'.procs[p])
    {
      KeepsListing(s, a, p);
    }
  }

  /** A flight is only created while no active leader has the same hash. */
  lemma KeepsOneLeader(s: State, a: Action)
    requires MutexOk(s) && CloseOk(s) && LeadersOk(s) && OneLeaderPerHash(s)
    ensures OneLeaderPerHash(Next(s, a))
  {
    forall p, q | p in Next(s, a).procs && q in Next(s, a).procs && p != q
                  && Active(Next(s, a).procs[p]) && Active(Next(s, a).procs[q])
      ensures Next(s, a).procs[p].hash != Next(s, a).procs[q].hash
    {
      BecameLeader(s, a, p);
      BecameLeader(s, a, q);
      if p in s.procs && Active(s.procs[p]) {
        assert Listed(s, s.procs[p]);
      }
      if q in s.procs && Active(s.procs[q]) {
        assert Listed(s, s.procs[q]);
      }
    }
  }

  lemma KeepsOnlyClose(s: State, a: Action)
    requires LeadersOk(s) && FlightsListed(s) && OnlyCloseCompletes(s) && CompletedOnce(s) && InsideOnce(s)
    ensures OnlyCloseCompletes(Next(s, a))
  {
    forall p | p in Next(s, a).procs && Active(Next(s, a).procs[p]) && Next(s, a).procs[p].flight in Next(s, a).flights
      ensures OpenOrTaken(Next(s, a).flights[Next(s, a).procs[p].flight])
    {
      KeepsOpen(s, a, p);
    }
  }

  /** A flight is completed by Close, or by the leader on its way out. */
  lemma NewResult(s: State, a: Action, f: FlightId)
    requires f in s.flights && s.flights[f].once.Fresh? && InsideOnce(s)
    ensures f in Next(s, a).flights
    ensures || OpenOrTaken(Next(s, a).flights[f])
            || (a.Complete? && ProcOf(s, a.pid).Finishing? && ProcOf(s, a.pid).flight == f && !Active(ProcOf(Next(s, a), a.pid)))
  {
  }

  lemma SameLeader(s: State, p: Pid, q: Pid)
    requires LeadersOk(s)
    ensures Active(ProcOf(s, p)) && Active(ProcOf(s, q)) && ProcOf(s, p).flight == ProcOf(s, q).flight ==> p == q
  {
    if Active(ProcOf(s, p)) && Active(ProcOf(s, q)) {
      assert Leads(s, p, ProcOf(s, p).flight) && Leads(s, q, ProcOf(s, q).flight);
    }
  }

  lemma KeepsOpen(s: State, a: Action, p: Pid)
    requires LeadersOk(s) && OnlyCloseCompletes(s) && CompletedOnce(s) && InsideOnce(s)
    requires p in Next(s, a).procs && Active(Next(s, a).procs[p]) && Next(s, a).procs[p].flight in Next(s, a).flights
    ensures OpenOrTaken(Next(s, a).flights[Next(s, a).procs[p].flight])
  {
    BecameLeader(s, a, p);
    if p in s.procs && Active(s.procs[p]) {
      var f := s.procs[p].flight;
      assert Leads(s, p, f);
      FlightStays(s, a, f);
      if s.flights[f].once.Fresh? {
        if a.Complete? {
          SameLeader(s, p, a.pid);
        }
        NewResult(s, a, f);
      }
    }
  }

  predicate HasLeader(s: State, f: FlightId)
    requires f in s.flights
  {
    var p := s.flights[f].leader;
    p in s.procs && Active(s.procs[p]) && s.procs[p].flight == f
  }

  /** A leader stops being one only by completing its flight. */
  lemma StopsLeading(s: State, a: Action)
    requires Actor(a).Some? && Active(ProcOf(s, a.pid)) && InsideOnce(s)
    ensures var q, q' := ProcOf(s, a.pid), ProcOf(Next(s, a), a.pid);
            || (Active(q') && q'.flight == q.flight)
            || (q.flight in s.flights && q.flight in Next(s, a).flights && !Next(s, a).flights[q.flight].once.Fresh?)
  {
  }

  lemma KeepsLeader(s: State, a: Action, f: FlightId)
    requires LeadersOk(s) && InsideOnce(s) && f in s.flights && f in Next(s, a).flights && HasLeader(s, f)
    requires Next(s, a).flights[f].once.Fresh? && Next(s, a).flights[f].leader == s.flights[f].leader
    ensures HasLeader(Next(s, a), f)
  {
    var p := s.flights[f].leader;
    if Actor(a) == Some(p) {
      StopsLeading(s, a);
    } else {
      OthersStay(s, a, p);
    }
  }

  lemma NewFlightHasLeader(s: State, a: Action, f: FlightId)
    requires f !in s.flights && f in Next(s, a).flights
    ensures HasLeader(Next(s, a), f)
  {
  }

  lemma KeepsLed(s: State, a: Action)
    requires LeadersOk(s) && Led(s) && CompletedOnce(s) && InsideOnce(s)
    ensures Led(Next(s, a))
  {
    KeepsCompleted(s, a);
    forall f | f in Next(s, a).flights && Next(s, a).flights[f].result.None? ensures HasLeader(Next(s, a), f) {
      assert FlightOk(Next(s, a).flights[f]);
      if f in s.flights {
        assert FlightOk(s.flights[f]);
        FlightStays(s, a, f);
        assert HasLeader(s, f);
        KeepsLeader(s, a, f);
      } else {
        NewFlightHasLeader(s, a, f);
      }
    }
  }

  predicate HoldsAdmission(s: State, p: Pid) {
    p in s.procs && (s.procs[p].Loading? || s.procs[p].Releasing?)
  }

  lemma KeepsHolder(s: State, a: Action, p: Pid)
    requires p in s.admitted <==> HoldsAdmission(s, p)
    ensures p in Next(s, a).admitted <==> HoldsAdmission(Next(s, a), p)
  {
  }

  lemma KeepsAdmittedSize(s: State, a: Action)
    requires |s.admitted| <= s.capacity
    ensures |Next(s, a).admitted| <= s.capacity
  {
  }

  lemma KeepsAdmission(s: State, a: Action)
    requires AdmissionOk(s)
    ensures AdmissionOk(Next(s, a))
  {
    KeepsCapacity(s, a);
    KeepsAdmittedSize(s, a);
    forall p ensures p in Next(s, a).admitted <==> HoldsAdmission(Next(s, a), p) {
      KeepsHolder(s, a, p);
    }
  }

  lemma KeepsCompleted(s: State, a: Action)
    requires CompletedOnce(s) && InsideOnce(s)
    ensures CompletedOnce(Next(s, a))
  {
    forall f | f in Next(s, a).flights ensures FlightOk(Next(s, a).flights[f]) {
      KeepsFlightOk(s, a, f);
    }
  }

  /** The action is the one by which Close completes a flight. */
  predicate CloseTakes(s: State, a: Action, f: FlightId) {
    a.CloseComplete? && Enabled(s, a) && s.closer.todo[a.hash] == f && s.flights[f].once.Fresh?
  }

  /** The action is a call's own completeFlight on its flight. */
  predicate LeaderCompletes(s: State, a: Action, p: Pid, f: FlightId) {
    a == Complete(p) && Enabled(s, a) && ProcOf(s, p).flight == f
  }

  /** A new flight is not completed yet. */
  lemma NewFlightIsFresh(s: State, a: Action, f: FlightId)
    requires f !in s.flights && f in Next(s, a).flights
    ensures Next(s, a).flights[f].once.Fresh? && Next(s, a).flights[f].result.None? && Next(s, a).flights[f].completions == 0
  {
  }

  /** A flight that becomes completed is so by Close or by a call's completeFlight. */
  lemma WhoCompletes(s: State, a: Action, f: FlightId)
    requires InsideOnce(s) && f in s.flights && s.flights[f].once.Fresh?
    ensures f in Next(s, a).flights
    ensures var fl := Next(s, a).flights[f];
            || fl == s.flights[f]
            || (CloseTakes(s, a, f)
                && fl == s.flights[f].(result := Some(Err(Closed)), completions := s.flights[f].completions + 1, once := Running(ByClose)))
            || (a.Complete? && LeaderCompletes(s, a, a.pid, f)
                && fl == s.flights[f].(result := Some(ProcOf(s, a.pid).out), completions := s.flights[f].completions + 1, once := Running(ByLeader)))
  {
    if !TouchesFlights(a) {
      FlightsUntouched(s, a);
    }
  }

  /** The end of a flight's sync.Once changes nothing but that it is over. */
  lemma AfterCompleted(s: State, a: Action, f: FlightId)
    requires InsideOnce(s) && f in s.flights && !s.flights[f].once.Fresh?
    ensures f in Next(s, a).flights
    ensures Next(s, a).flights[f] == s.flights[f] || Next(s, a).flights[f] == s.flights[f].(once := Over(s.flights[f].once.who))
  {
    if !TouchesFlights(a) {
      FlightsUntouched(s, a);
    }
  }

  lemma KeepsFlightOk(s: State, a: Action, f: FlightId)
    requires CompletedOnce(s) && InsideOnce(s) && f in Next(s, a).flights
    ensures FlightOk(Next(s, a).flights[f])
  {
    if f !in s.flights {
      NewFlightIsFresh(s, a, f);
    } else {
      assert FlightOk(s.flights[f]);
      if s.flights[f].once.Fresh? {
        WhoCompletes(s, a, f);
      } else {
        AfterCompleted(s, a, f);
      }
    }
  }

  /** A process that is to unlist a flight was to before, or has just completed the flight. */
  lemma BecameUnlister(s: State, a: Action, p: Pid)
    requires p in Next(s, a).procs && Next(s, a).procs[p].Unlisting?
    ensures || (p in s.procs && s.procs[p] == Next(s, a).procs[p])
            || (a == Complete(p) && Enabled(s, a) && RunningBy(Next(s, a), Next(s, a).procs[p].flight, ByLeader))
  {
  }

  /** A running once ends only with the step of whoever runs it. */
  lemma StaysRunning(s: State, a: Action, f: FlightId, who: Completer)
    requires RunningBy(s, f, who) && InsideOnce(s)
    ensures || RunningBy(Next(s, a), f, who)
            || (who.ByLeader? && a.Unlist? && ProcOf(s, a.pid).Unlisting? && ProcOf(s, a.pid).flight == f && !ProcOf(Next(s, a), a.pid).Unlisting?)
            || (who.ByClose? && a.CloseUnlist? && !Next(s, a).closer.CloserUnlisting?)
  {
  }

  lemma KeepsUnlister(s: State, a: Action, p: Pid)
    requires LeadersOk(s) && InsideOnce(s) && p in Next(s, a).procs && Next(s, a).procs[p].Unlisting?
    ensures RunningBy(Next(s, a), Next(s, a).procs[p].flight, ByLeader)
  {
    BecameUnlister(s, a, p);
    if p in s.procs && s.procs[p] == Next(s, a).procs[p] {
      StaysRunning(s, a, s.procs[p].flight, ByLeader);
      assert Leads(s, p, s.procs[p].flight);
      if a.Unlist? && ProcOf(s, a.pid).Unlisting? {
        assert Leads(s, a.pid, s.procs[a.pid].flight);
      }
    }
  }

  lemma KeepsClosing(s: State, a: Action)
    requires InsideOnce(s)
    ensures Next(s, a).closer.CloserUnlisting? ==> RunningBy(Next(s, a), Next(s, a).closer.flight, ByClose)
  {
    if s.closer.CloserUnlisting? {
      StaysRunning(s, a, s.closer.flight, ByClose);
    }
  }

  lemma KeepsInside(s: State, a: Action)
    requires LeadersOk(s) && InsideOnce(s)
    ensures InsideOnce(Next(s, a))
  {
    forall p | p in Next(s, a).procs && Next(s, a).procs[p].Unlisting?
      ensures RunningBy(Next(s, a), Next(s, a).procs[p].flight, ByLeader)
    {
      KeepsUnlister(s, a, p);
    }
    KeepsClosing(s, a);
  }

  ghost predicate LeavesOk(s: State, q: Proc) {
    && (q.Finishing? ==> FinishingOk(q))
    && (q.Unlisting? ==>
          && q.flight in s.flights
          && s.flights[q.flight].result == Some(q.out)
          && FinishingOk(Finishing(q.hash, q.flight, q.out, q.exit)))
    && (q.Waiting? ==> q.flight in s.flights)
  }

  /** A call that has not moved is as it was: its flight keeps its result. */
  lemma SameLeaves(s: State, a: Action, p: Pid)
    requires LeavingOk(s) && CompletedOnce(s) && InsideOnce(s) && p in s.procs
    ensures LeavesOk(Next(s, a), s.procs[p])
  {
    var q := s.procs[p];
    assert LeavesOk(s, q);
    if q.Unlisting? || q.Waiting? {
      assert FlightOk(s.flights[q.flight]);
      FlightStays(s, a, q.flight);
    }
  }

  lemma NowFinishing(s: State, a: Action)
    requires Actor(a).Some? && ProcOf(Next(s, a), a.pid).Finishing? && ProcOf(Next(s, a), a.pid) != ProcOf(s, a.pid)
    ensures FinishingOk(ProcOf(Next(s, a), a.pid))
  {
  }

  lemma NowUnlisting(s: State, a: Action)
    requires Actor(a).Some? && ProcOf(Next(s, a), a.pid).Unlisting? && ProcOf(Next(s, a), a.pid) != ProcOf(s, a.pid)
    requires ProcOf(s, a.pid).Finishing? ==> FinishingOk(ProcOf(s, a.pid))
    ensures LeavesOk(Next(s, a), ProcOf(Next(s, a), a.pid))
  {
  }

  lemma NowWaiting(s: State, a: Action)
    requires FlightsListed(s) && Actor(a).Some? && ProcOf(Next(s, a), a.pid).Waiting? && ProcOf(Next(s, a), a.pid) != ProcOf(s, a.pid)
    ensures ProcOf(Next(s, a), a.pid).flight in Next(s, a).flights
  {
  }

  lemma MovedLeaves(s: State, a: Action)
    requires LeavingOk(s) && FlightsListed(s) && Actor(a).Some? && a.pid in Next(s, a).procs
    requires ProcOf(Next(s, a), a.pid) != ProcOf(s, a.pid)
    ensures LeavesOk(Next(s, a), Next(s, a).procs[a.pid])
  {
    var q' := ProcOf(Next(s, a), a.pid);
    if q'.Finishing? {
      NowFinishing(s, a);
    } else if q'.Unlisting? {
      NowUnlisting(s, a);
    } else if q'.Waiting? {
      NowWaiting(s, a);
    }
  }

  lemma KeepsLeaves(s: State, a: Action, p: Pid)
    requires LeavingOk(s) && LeadersOk(s) && FlightsListed(s) && CompletedOnce(s) && InsideOnce(s) && p in Next(s, a).procs
    ensures LeavesOk(Next(s, a), Next(s, a).procs[p])
  {
    if Actor(a) != Some(p) {
      OthersStay(s, a, p);
    }
    if p in s.procs && s.procs[p] == Next(s, a).procs[p] {
      SameLeaves(s, a, p);
    } else if ProcOf(Next(s, a), p) != ProcOf(s, p) {
      MovedLeaves(s, a);
    }
  }

  lemma KeepsLeaving(s: State, a: Action)
    requires LeavingOk(s) && LeadersOk(s) && FlightsListed(s) && CompletedOnce(s) && InsideOnce(s)
    ensures LeavingOk(Next(s, a))
  {
    forall p | p in Next(s, a).procs ensures LeavesOk(Next(s, a), Next(s, a).procs[p]) {
      KeepsLeaves(s, a, p);
    }
  }

  lemma ReturnedStays(s: State, a: Action, p: Pid)
    requires p in s.procs && s.procs[p].Returned?
    ensures p in Next(s, a).procs && Next(s, a).procs[p] == s.procs[p]
  {
  }

  lemma OldReturn(s: State, a: Action, q: Proc)
    requires q.Returned? && ReturnOk(s, q) && CompletedOnce(s) && InsideOnce(s)
    ensures ReturnOk(Next(s, a), q)
  {
    assert FlightOk(s.flights[q.flight]);
    FlightStays(s, a, q.flight);
  }

  lemma KeepsReturn(s: State, a: Action, p: Pid)
    requires LeavingOk(s) && ReturnsOk(s) && LeadersOk(s) && OnlyCloseCompletes(s) && CompletedOnce(s) && InsideOnce(s)
    requires p in Next(s, a).procs && Next(s, a).procs[p].Returned?
    ensures ReturnOk(Next(s, a), Next(s, a).procs[p])
  {
    if p in s.procs && s.procs[p].Returned? {
      ReturnedStays(s, a, p);
      OldReturn(s, a, s.procs[p]);
    } else {
      if Actor(a) != Some(p) {
        OthersStay(s, a, p);
      }
      NewReturn(s, a);
    }
  }

  lemma NewReturn(s: State, a: Action)
    requires LeavingOk(s) && LeadersOk(s) && OnlyCloseCompletes(s) && CompletedOnce(s) && InsideOnce(s) && Actor(a).Some?
    requires a.pid in Next(s, a).procs && Next(s, a).procs[a.pid].Returned? && !ProcOf(s, a.pid).Returned?
    ensures ReturnOk(Next(s, a), Next(s, a).procs[a.pid])
  {
    var p := a.pid;
    assert p in s.procs && LeavesOk(s, s.procs[p]);
    if Active(s.procs[p]) {
      assert Leads(s, p, s.procs[p].flight);
    }
  }

  lemma KeepsInv(s: State, a: Action)
    requires Inv(s)
    ensures Inv(Next(s, a))
  {
    KeepsMutex(s, a);
    KeepsClose(s, a);
    KeepsListed(s, a);
    KeepsLeaders(s, a);
    KeepsOneLeader(s, a);
    KeepsOnlyClose(s, a);
    KeepsLed(s, a);
    KeepsAdmission(s, a);
    KeepsCompleted(s, a);
    KeepsInside(s, a);
    KeepsLeaving(s, a);
    forall p | p in Next(s, a).procs && Next(s, a).procs[p].Returned?
      ensures ReturnOk(Next(s, a), Next(s, a).procs[p])
    {
      KeepsReturn(s, a, p);
    }
  }

  lemma KeepsCapacity(s: State, a: Action)
    ensures Next(s, a).capacity == s.capacity
  {
  }

  lemma {:induction false} RunKeepsInv(s: State, acts: seq<Action>)
    requires Inv(s)
    ensures Inv(Run(s, acts)) && Run(s, acts).capacity == s.capacity
  {
    if acts != [] {
      var n := |acts| - 1;
      var before := Run(s, acts[..n]);
      RunKeepsInv(s, acts[..n]);
      KeepsInv(before, acts[n]);
      KeepsCapacity(before, acts[n]);
    }
  }

  lemma InitialInv(capacity: nat)
    ensures Inv(Initial(capacity))
  {
  }

  // ---------- the claims ----------

  function LoadingNow(s: State): set<Pid> {
    set p | p in s.procs && s.procs[p].Loading?
  }

  ghost predicate LoadsBounded(s: State) {
    && (forall p, q :: p in s.procs && q in s.procs && p != q && s.procs[p].Loading? && s.procs[q].Loading? ==>
          s.procs[p].hash != s.procs[q].hash)
    && |LoadingNow(s)| <= s.capacity
  }

  lemma InvBoundsLoads(s: State)
    requires OneLeaderPerHash(s) && AdmissionOk(s)
    ensures LoadsBounded(s)
  {
    SubsetSize(LoadingNow(s), s.admitted);
  }

  /** In every run, at most one store load per hash is in progress, and no more than admitted in all. */
  lemma LoadsAreBounded(capacity: nat, acts: seq<Action>)
    ensures LoadsBounded(Run(Initial(capacity), acts)) && Run(Initial(capacity), acts).capacity == capacity
  {
    InitialInv(capacity);
    RunKeepsInv(Initial(capacity), acts);
    InvBoundsLoads(Run(Initial(capacity), acts));
  }

  ghost predicate CompletesOnce(s: State, f: FlightId)
    requires f in s.flights
  {
    && s.flights[f].completions <= 1
    && (s.flights[f].completions == 1 <==> s.flights[f].result.Some?)
    && (!(s.flights[f].leader in s.procs && Active(s.procs[s.flights[f].leader])) ==> s.flights[f].completions == 1)
  }

  /**
   In every run a flight is completed at most once, and by the time its leader has left
   completeFlight, returned or panicked, exactly once.
   */
  lemma FlightsCompleteOnce(capacity: nat, acts: seq<Action>, f: FlightId)
    requires f in Run(Initial(capacity), acts).flights
    ensures CompletesOnce(Run(Initial(capacity), acts), f)
  {
    InitialInv(capacity);
    RunKeepsInv(Initial(capacity), acts);
  }

  /** In every run, once a flight has a result it keeps it, and who set it. */
  lemma {:induction false} ResultIsFinal(s: State, acts: seq<Action>, f: FlightId)
    requires Inv(s) && f in s.flights && s.flights[f].result.Some?
    ensures f in Run(s, acts).flights && Run(s, acts).flights[f].result == s.flights[f].result
    ensures !Run(s, acts).flights[f].once.Fresh? && Run(s, acts).flights[f].once.who == s.flights[f].once.who
  {
    if acts != [] {
      ResultIsFinal(s, acts[..|acts| - 1], f);
      RunKeepsInv(s, acts[..|acts| - 1]);
      FlightStays(Run(s, acts[..|acts| - 1]), acts[|acts| - 1], f);
    }
  }

  // ---------- after Close ----------

  /** A call that had not passed the check of `closed` when Close set it has not started, or was turned away. */
  predicate TurnedAway(q: Proc) {
    q.Idle? || (q.Done? && q.out == Err(Closed))
  }

  lemma StaysTurnedAway(s: State, a: Action, p: Pid)
    requires s.closed && TurnedAway(ProcOf(s, p))
    ensures Next(s, a).closed && TurnedAway(ProcOf(Next(s, a), p))
  {
    if Actor(a) != Some(p) {
      OthersStay(s, a, p);
    }
  }

  /**
   However a run goes on once the resolver is closed, a call that begins then answers Closed and nothing else: it never
   hits, joins or loads. A call that had passed the check before may still hit.
   */
  lemma {:induction false} CallsAfterCloseAreRefused(s: State, acts: seq<Action>, p: Pid)
    requires s.closed && TurnedAway(ProcOf(s, p))
    ensures Run(s, acts).closed && TurnedAway(ProcOf(Run(s, acts), p))
  {
    if acts != [] {
      CallsAfterCloseAreRefused(s, acts[..|acts| - 1], p);
      StaysTurnedAway(Run(s, acts[..|acts| - 1]), acts[|acts| - 1], p);
    }
  }

  /** The check and the lookup are apart: a call may hit after Close has begun. */
  lemma HitAfterClose(snapshot: int) returns (acts: seq<Action>)
    ensures exists i :: 0 <= i < |acts| - 1 && acts[i].CloseFlag? && Enabled(Run(Initial(1), acts[..i]), acts[i])
    ensures ProcOf(Run(Initial(1), acts), 1) == Done("a", Value(snapshot))
  {
    acts := [PassCheck(1, "a"), CloseFlag, HitEarly(1, snapshot)];
    var s1 := Initial(1).(procs := map[1 := Passed("a")]);
    assert acts[..1] == [PassCheck(1, "a")] && acts[..1][..0] == [];
    assert Run(Initial(1), acts[..1]) == s1;
    assert acts[..2][..1] == acts[..1] && acts[..2][1] == CloseFlag;
    assert Run(Initial(1), acts[..2]) == s1.(closed := true, closer := Flagged);
    assert Enabled(s1, acts[1]);
  }

  // ---------- who completed a flight first ----------

  ghost predicate CloseTookFirst(capacity: nat, acts: seq<Action>, p: Pid, f: FlightId) {
    exists i, j :: 0 <= i < j < |acts| && CloseTakes(Run(Initial(capacity), acts[..i]), acts[i], f)
                   && LeaderCompletes(Run(Initial(capacity), acts[..j]), acts[j], p, f)
  }

  lemma NewlyTaken(s: State, a: Action, f: FlightId)
    requires CompletedOnce(s) && InsideOnce(s) && f in Next(s, a).flights && TakenByClose(Next(s, a).flights[f])
    ensures (f in s.flights && TakenByClose(s.flights[f])) || CloseTakes(s, a, f)
  {
    if f !in s.flights {
      NewFlightIsFresh(s, a, f);
    } else if s.flights[f].once.Fresh? {
      WhoCompletes(s, a, f);
    } else {
      assert FlightOk(s.flights[f]);
      FlightStays(s, a, f);
    }
  }

  lemma {:induction false} TakenMeansCloseTook(capacity: nat, acts: seq<Action>, f: FlightId) returns (i: nat)
    requires f in Run(Initial(capacity), acts).flights && TakenByClose(Run(Initial(capacity), acts).flights[f])
    ensures i < |acts| && CloseTakes(Run(Initial(capacity), acts[..i]), acts[i], f)
  {
    var n := |acts| - 1;
    var before := Run(Initial(capacity), acts[..n]);
    InitialInv(capacity);
    RunKeepsInv(Initial(capacity), acts[..n]);
    NewlyTaken(before, acts[n], f);
    if CloseTakes(before, acts[n], f) {
      i := n;
    } else {
      i := TakenMeansCloseTook(capacity, acts[..n], f);
      assert acts[..n][..i] == acts[..i];
    }
  }

  /** A call that left completeFlight, refused or about to unlist, has gone through it. */
  predicate WentThrough(q: Proc) {
    q.Unlisting? || (q.Returned? && q.reason.Refused?)
  }

  lemma OwnThrough(s: State, a: Action)
    requires Actor(a).Some? && WentThrough(ProcOf(Next(s, a), a.pid))
    ensures var q, q' := ProcOf(s, a.pid), ProcOf(Next(s, a), a.pid);
            (WentThrough(q) && q.flight == q'.flight) || LeaderCompletes(s, a, a.pid, q'.flight)
  {
  }

  lemma NewlyThrough(s: State, a: Action, p: Pid)
    requires WentThrough(ProcOf(Next(s, a), p))
    ensures var q, q' := ProcOf(s, p), ProcOf(Next(s, a), p);
            (WentThrough(q) && q.flight == q'.flight) || LeaderCompletes(s, a, p, q'.flight)
  {
    if Actor(a) == Some(p) {
      OwnThrough(s, a);
    } else {
      OthersStay(s, a, p);
    }
  }

  lemma {:induction false} ThroughMeansCompleted(capacity: nat, acts: seq<Action>, p: Pid) returns (j: nat)
    requires WentThrough(ProcOf(Run(Initial(capacity), acts), p))
    ensures j < |acts| && LeaderCompletes(Run(Initial(capacity), acts[..j]), acts[j], p, ProcOf(Run(Initial(capacity), acts), p).flight)
  {
    var n := |acts| - 1;
    var before := Run(Initial(capacity), acts[..n]);
    NewlyThrough(before, acts[n], p);
    if WentThrough(ProcOf(before, p)) && ProcOf(before, p).flight == ProcOf(Run(Initial(capacity), acts), p).flight {
      j := ThroughMeansCompleted(capacity, acts[..n], p);
      assert acts[..n][..j] == acts[..j];
    } else {
      j := n;
    }
  }

  lemma CompletedAfter(s: State, a: Action, p: Pid, f: FlightId)
    requires LeaderCompletes(s, a, p, f)
    ensures f in Next(s, a).flights && !Next(s, a).flights[f].once.Fresh?
  {
  }

  lemma TakenAfter(s: State, a: Action, f: FlightId)
    requires CloseTakes(s, a, f)
    ensures f in Next(s, a).flights && TakenByClose(Next(s, a).flights[f])
  {
  }

  /** What is completed at one point of a run is still completed, by the same party, at every later one. */
  lemma StaysCompleted(capacity: nat, acts: seq<Action>, i: nat, j: nat, f: FlightId)
    requires i <= j <= |acts|
    requires var s := Run(Initial(capacity), acts[..i]); f in s.flights && !s.flights[f].once.Fresh?
    ensures var s, t := Run(Initial(capacity), acts[..i]), Run(Initial(capacity), acts[..j]);
            f in t.flights && !t.flights[f].once.Fresh? && t.flights[f].once.who == s.flights[f].once.who
            && t.flights[f].result == s.flights[f].result
    decreases j
  {
    if i < j {
      StaysCompleted(capacity, acts, i, j - 1, f);
      InitialInv(capacity);
      RunKeepsInv(Initial(capacity), acts[..j - 1]);
      RunPrefix(Initial(capacity), acts, j - 1);
      FlightStays(Run(Initial(capacity), acts[..j - 1]), acts[j - 1], f);
    }
  }

  lemma RunPrefix(s: State, acts: seq<Action>, n: nat)
    requires n < |acts|
    ensures Run(s, acts[..n + 1]) == Next(Run(s, acts[..n]), acts[n])
  {
    assert acts[..n + 1][..n] == acts[..n];
  }

  lemma TakenMeansFirst(capacity: nat, acts: seq<Action>, p: Pid, f: FlightId)
    requires WentThrough(ProcOf(Run(Initial(capacity), acts), p)) && ProcOf(Run(Initial(capacity), acts), p).flight == f
    requires f in Run(Initial(capacity), acts).flights && TakenByClose(Run(Initial(capacity), acts).flights[f])
    ensures CloseTookFirst(capacity, acts, p, f)
  {
    var i := TakenMeansCloseTook(capacity, acts, f);
    var j := ThroughMeansCompleted(capacity, acts, p);
    if j < i {
      CompletedStays(capacity, acts, j, i, p, f);
      assert false;
    }
  }

  lemma CompletedStays(capacity: nat, acts: seq<Action>, j: nat, i: nat, p: Pid, f: FlightId)
    requires j < i < |acts| && LeaderCompletes(Run(Initial(capacity), acts[..j]), acts[j], p, f)
    ensures f in Run(Initial(capacity), acts[..i]).flights && !Run(Initial(capacity), acts[..i]).flights[f].once.Fresh?
  {
    RunPrefix(Initial(capacity), acts, j);
    CompletedAfter(Run(Initial(capacity), acts[..j]), acts[j], p, f);
    StaysCompleted(capacity, acts, j + 1, i, f);
  }

  lemma FirstMeansTaken(capacity: nat, acts: seq<Action>, p: Pid, f: FlightId)
    requires CloseTookFirst(capacity, acts, p, f)
    ensures f in Run(Initial(capacity), acts).flights && TakenByClose(Run(Initial(capacity), acts).flights[f])
  {
    var i, j :| 0 <= i < j < |acts| && CloseTakes(Run(Initial(capacity), acts[..i]), acts[i], f)
                && LeaderCompletes(Run(Initial(capacity), acts[..j]), acts[j], p, f);
    TakenStays(capacity, acts, i, f);
  }

  lemma TakenStays(capacity: nat, acts: seq<Action>, i: nat, f: FlightId)
    requires i < |acts| && CloseTakes(Run(Initial(capacity), acts[..i]), acts[i], f)
    ensures f in Run(Initial(capacity), acts).flights && TakenByClose(Run(Initial(capacity), acts).flights[f])
  {
    RunPrefix(Initial(capacity), acts, i);
    TakenAfter(Run(Initial(capacity), acts[..i]), acts[i], f);
    StaysCompleted(capacity, acts, i + 1, |acts|, f);
    assert acts[..|acts|] == acts;
  }

  /** A refused leader's flight was taken by Close if and only if Close completed it before the leader tried to. */
  lemma TakenIffCloseTookFirst(capacity: nat, acts: seq<Action>, p: Pid)
    requires WentThrough(ProcOf(Run(Initial(capacity), acts), p))
    requires ProcOf(Run(Initial(capacity), acts), p).flight in Run(Initial(capacity), acts).flights
    ensures var s := Run(Initial(capacity), acts);
            TakenByClose(s.flights[ProcOf(s, p).flight]) <==> CloseTookFirst(capacity, acts, p, ProcOf(s, p).flight)
  {
    var f := ProcOf(Run(Initial(capacity), acts), p).flight;
    if TakenByClose(Run(Initial(capacity), acts).flights[f]) {
      TakenMeansFirst(capacity, acts, p, f);
    }
    if CloseTookFirst(capacity, acts, p, f) {
      FirstMeansTaken(capacity, acts, p, f);
    }
  }

  /**
   In every run, a call that went through a flight, whose own context did not end and whose load
   did not panic, returned the flight's result if and only if it was not a leader turned away by a
   full admission channel whose flight Close had completed before the leader tried to.
   */
  lemma CallersShareTheResult(capacity: nat, acts: seq<Action>, p: Pid)
    requires ProcOf(Run(Initial(capacity), acts), p).Returned?
    requires !ProcOf(Run(Initial(capacity), acts), p).reason.OwnContextEnded?
    requires !ProcOf(Run(Initial(capacity), acts), p).reason.Panicking?
    ensures var s := Run(Initial(capacity), acts);
            var q := ProcOf(s, p);
            && q.flight in s.flights && s.flights[q.flight].result.Some?
            && (s.flights[q.flight].result == Some(q.out)
                <==> !(q.reason.Refused? && CloseTookFirst(capacity, acts, p, q.flight)))
  {
    InitialInv(capacity);
    RunKeepsInv(Initial(capacity), acts);
    var s := Run(Initial(capacity), acts);
    var q := ProcOf(s, p);
    assert ReturnOk(s, q);
    assert FlightOk(s.flights[q.flight]);
    if q.reason.Refused? {
      TakenIffCloseTookFirst(capacity, acts, p);
    }
  }

  // ---------- the exception is real ----------

  const LED: State := State(
    1, false, None, map["a" := 10], map[10 := Flight("a", 1, None, 0, Fresh)], {}, map[1 := Leading("a", 10)], Open)

  /** The first call has the only admission, and a second is about to lead a flight for another hash. */
  const ENTERED: State := LED.(
    mutex := Some(2), admitted := {1}, procs := map[1 := Loading("a", 10), 2 := Entered("b")])

  /** The second call leads its flight, and a third is about to join it. */
  const JOINING: State := State(
    1, false, Some(3), map["a" := 10, "b" := 20],
    map[10 := Flight("a", 1, None, 0, Fresh), 20 := Flight("b", 2, None, 0, Fresh)],
    {1}, map[1 := Loading("a", 10), 2 := Leading("b", 20), 3 := Entered("b")], Open)

  const CLOSING: State := JOINING.(
    closed := true, mutex := None, procs := JOINING.procs[3 := Waiting(20)], closer := Completing(JOINING.inFlight))

  function Three(s: State, a: Action, b: Action, c: Action): State {
    Next(Next(Next(s, a), b), c)
  }

  lemma RunStep(s: State, acts: seq<Action>, a: Action)
    ensures Run(s, acts + [a]) == Next(Run(s, acts), a)
  {
    assert (acts + [a])[..|acts|] == acts;
  }

  lemma RunThree(s: State, acts: seq<Action>, a: Action, b: Action, c: Action)
    ensures Run(s, acts + [a, b, c]) == Three(Run(s, acts), a, b, c)
  {
    RunStep(s, acts, a);
    RunStep(s, acts + [a], b);
    RunStep(s, acts + [a] + [b], c);
    assert acts + [a, b, c] == acts + [a] + [b] + [c];
  }

  lemma ReachLed()
    ensures Three(Initial(1), PassCheck(1, "a"), Enter(1), CreateFlight(1, 10)) == LED
  {
  }

  lemma ReachEntered()
    ensures Three(LED, Admit(1), PassCheck(2, "b"), Enter(2)) == ENTERED
  {
    var s := Next(Next(LED, Admit(1)), PassCheck(2, "b"));
    assert s == ENTERED.(mutex := None, procs := map[1 := Loading("a", 10), 2 := Passed("b")]);
  }

  lemma ReachJoining()
    ensures Three(ENTERED, CreateFlight(2, 20), PassCheck(3, "b"), Enter(3)) == JOINING
  {
    var s := Next(ENTERED, CreateFlight(2, 20));
    assert s == JOINING.(mutex := None, procs := map[1 := Loading("a", 10), 2 := Leading("b", 20)]);
    assert Next(s, PassCheck(3, "b")) == s.(procs := s.procs[3 := Passed("b")]);
  }

  lemma ReachClosing()
    ensures Three(JOINING, Join(3), CloseFlag, CloseSnapshot) == CLOSING
  {
  }

  const TAKEN: State := CLOSING.(
    closer := CloserUnlisting("b", 20, map["a" := 10]),
    flights := CLOSING.flights[20 := Flight("b", 2, Some(Err(Closed)), 1, Running(ByClose))])

  lemma ReachTaken()
    ensures Next(CLOSING, CloseComplete("b")) == TAKEN
  {
    assert CLOSING.closer.todo - {"b"} == map["a" := 10];
  }

  /** Close has completed and unlisted the flight before its leader finds the admission channel full. */
  const OVERTAKEN: State := CLOSING.(
    inFlight := map["a" := 10],
    closer := Completing(map["a" := 10]),
    flights := CLOSING.flights[20 := Flight("b", 2, Some(Err(Closed)), 1, Over(ByClose))])

  lemma ReachOvertaken()
    ensures Next(TAKEN, CloseUnlist) == OVERTAKEN
  {
    assert TAKEN.inFlight - {"b"} == map["a" := 10];
    assert TAKEN.flights[20 := Flight("b", 2, Some(Err(Closed)), 1, Over(ByClose))] == OVERTAKEN.flights;
  }

  const REFUSED: State := OVERTAKEN.(procs := OVERTAKEN.procs[2 := Finishing("b", 20, Err(Saturated), ThenRefuse)])

  lemma ReachRefused()
    ensures Next(OVERTAKEN, Saturate(2)) == REFUSED
  {
  }

  const LEFT: State := REFUSED.(procs := REFUSED.procs[2 := Returned(20, Err(Saturated), Refused)])

  lemma ReachLeft()
    ensures Next(REFUSED, Complete(2)) == LEFT
  {
  }

  lemma ReachDisagreement()
    ensures var s := Next(LEFT, Deliver(3));
            ProcOf(s, 2) == Returned(20, Err(Saturated), Refused) && ProcOf(s, 3) == Returned(20, Err(Closed), FromFlight)
  {
  }

  /** A leader may return Saturated while a caller that joined its flight gets Closed. */
  lemma RefusedLeaderDisagrees() returns (acts: seq<Action>)
    ensures var s := Run(Initial(1), acts);
            ProcOf(s, 2) == Returned(20, Err(Saturated), Refused) && ProcOf(s, 3) == Returned(20, Err(Closed), FromFlight)
  {
    acts := [] + [PassCheck(1, "a"), Enter(1), CreateFlight(1, 10)];
    RunThree(Initial(1), [], PassCheck(1, "a"), Enter(1), CreateFlight(1, 10));
    ReachLed();
    RunThree(Initial(1), acts, Admit(1), PassCheck(2, "b"), Enter(2));
    acts := acts + [Admit(1), PassCheck(2, "b"), Enter(2)];
    ReachEntered();
    RunThree(Initial(1), acts, CreateFlight(2, 20), PassCheck(3, "b"), Enter(3));
    acts := acts + [CreateFlight(2, 20), PassCheck(3, "b"), Enter(3)];
    ReachJoining();
    RunThree(Initial(1), acts, Join(3), CloseFlag, CloseSnapshot);
    acts := acts + [Join(3), CloseFlag, CloseSnapshot];
    ReachClosing();
    RunStep(Initial(1), acts, CloseComplete("b"));
    RunStep(Initial(1), acts + [CloseComplete("b")], CloseUnlist);
    acts := acts + [CloseComplete("b")] + [CloseUnlist];
    ReachTaken();
    ReachOvertaken();
    ReachRefused();
    ReachLeft();
    RunThree(Initial(1), acts, Saturate(2), Complete(2), Deliver(3));
    acts := acts + [Saturate(2), Complete(2), Deliver(3)];
    ReachDisagreement();
  }
}
