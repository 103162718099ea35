/**
 What becomes of a flight once it is finished: it is no longer listed under its hash, so a call that
 comes later loads afresh instead of waiting for a result that is already old.
 */
module FinishedFlights {
  import opened Basics
  import opened ResolverFlights

  /** A leader that is still on its way through completeFlight, or before it. */
  predicate Leader(q: Proc) {
    Active(q) || q.Unlisting?
  }

  predicate HashIs(s: State, f: FlightId, h: string) {
    f in s.flights && s.flights[f].hash == h
  }

  /** Whoever may unlist a flight looks for it under the flight's own hash. */
  ghost predicate HashesAgree(s: State) {
    && (forall p :: p in s.procs && Leader(s.procs[p]) ==> HashIs(s, s.procs[p].flight, s.procs[p].hash))
    && (s.closer.Completing? || s.closer.CloserUnlisting? ==> forall h :: h in s.closer.todo ==> HashIs(s, s.closer.todo[h], h))
    && (s.closer.CloserUnlisting? ==> HashIs(s, s.closer.flight, s.closer.hash))
  }

  /** A listed flight is listed under its own hash, and its completion is not over. */
  ghost predicate ListedUnfinished(s: State) {
    forall h :: h in s.inFlight ==> HashIs(s, s.inFlight[h], h) && !s.flights[s.inFlight[h]].once.Over?
  }

  predicate StillLed(s: State, f: FlightId)
    requires f in s.flights
  {
    var p := s.flights[f].leader;
    p in s.procs && Leader(s.procs[p]) && s.procs[p].flight == f
  }

  /** A leader leaves completeFlight only when the completion is over. */
  ghost predicate LeftIsOver(s: State) {
    forall f :: f in s.flights ==> StillLed(s, f) || s.flights[f].once.Over?
  }

  /** A flight stays listed until its completion is over. */
  ghost predicate UnfinishedListed(s: State) {
    forall f :: f in s.flights ==> s.flights[f].once.Over? || IsListed(s, f)
  }

  predicate IsListed(s: State, f: FlightId)
    requires f in s.flights
  {
    s.flights[f].hash in s.inFlight && s.inFlight[s.flights[f].hash] == f
  }

  /** After its snapshot Close still has before it whatever is listed. */
  ghost predicate CloseHasAll(s: State) {
    match s.closer
    case Completing(todo) => forall h :: h in s.inFlight ==> h in todo && todo[h] == s.inFlight[h]
    case CloserUnlisting(hash, flight, todo) =>
      forall h :: h in s.inFlight ==> (h in todo && todo[h] == s.inFlight[h]) || (h == hash && s.inFlight[h] == flight)
    case Finished => s.inFlight == map[]
    case _ => true
  }

  ghost predicate Tidy(s: State) {
    HashesAgree(s) && ListedUnfinished(s) && LeftIsOver(s) && UnfinishedListed(s) && CloseHasAll(s)
  }

  // ---------- every step keeps it ----------

  lemma HashStays(s: State, a: Action, f: FlightId, h: string)
    requires CompletedOnce(s) && InsideOnce(s) && HashIs(s, f, h)
    ensures HashIs(Next(s, a), f, h)
  {
    assert FlightOk(s.flights[f]);
    FlightStays(s, a, f);
  }

  lemma KeepsLeaderHash(s: State, a: Action, p: Pid)
    requires CompletedOnce(s) && InsideOnce(s) && HashesAgree(s) && p in Next(s, a).procs && Leader(Next(s, a).procs[p])
    ensures HashIs(Next(s, a), Next(s, a).procs[p].flight, Next(s, a).procs[p].hash)
  {
    BecameLeader(s, a, p);
    if p in s.procs && Leader(s.procs[p]) {
      HashStays(s, a, s.procs[p].flight, s.procs[p].hash);
    }
  }

  /** What Close has still to complete was so before, or is what it found listed. */
  lemma TodoCameFrom(s: State, a: Action)
    requires Next(s, a).closer.Completing? || Next(s, a).closer.CloserUnlisting?
    ensures var todo := Next(s, a).closer.todo;
            || (a.CloseSnapshot? && todo == s.inFlight)
            || ((s.closer.Completing? || s.closer.CloserUnlisting?) && forall h :: h in todo ==> h in s.closer.todo && todo[h] == s.closer.todo[h])
    ensures Next(s, a).closer.CloserUnlisting? ==>
              var c := Next(s, a).closer;
              || s.closer == c
              || (s.closer.Completing? && c.hash in s.closer.todo && s.closer.todo[c.hash] == c.flight)
  {
  }

  lemma KeepsHashes(s: State, a: Action)
    requires CompletedOnce(s) && InsideOnce(s) && HashesAgree(s) && ListedUnfinished(s)
    ensures HashesAgree(Next(s, a))
  {
    var s' := Next(s, a);
    forall p | p in s'.procs && Leader(s'.procs[p]) ensures HashIs(s', s'.procs[p].flight, s'.procs[p].hash) {
      KeepsLeaderHash(s, a, p);
    }
    if s'.closer.Completing? || s'.closer.CloserUnlisting? {
      TodoCameFrom(s, a);
      forall h | h in s'.closer.todo ensures HashIs(s', s'.closer.todo[h], h) {
        HashStays(s, a, s'.closer.todo[h], h);
      }
      if s'.closer.CloserUnlisting? {
        HashStays(s, a, s'.closer.flight, s'.closer.hash);
      }
    }
  }

  lemma NewlyListed(s: State, a: Action, h: string)
    requires h in Next(s, a).inFlight
    ensures || (h in s.inFlight && s.inFlight[h] == Next(s, a).inFlight[h])
            || (a.CreateFlight? && Next(s, a).inFlight[h] !in s.flights && HashIs(Next(s, a), Next(s, a).inFlight[h], h))
  {
  }

  /** A completion is over with the step that unlists the flight. */
  lemma BecameOver(s: State, a: Action, f: FlightId)
    requires f in s.flights && !s.flights[f].once.Over? && f in Next(s, a).flights && Next(s, a).flights[f].once.Over?
    ensures || (a.Unlist? && ProcOf(s, a.pid).Unlisting? && ProcOf(s, a.pid).flight == f
                && Next(s, a).inFlight == Delist(s, ProcOf(s, a.pid).hash, f))
            || (a.CloseUnlist? && s.closer.CloserUnlisting? && s.closer.flight == f
                && Next(s, a).inFlight == Delist(s, s.closer.hash, f))
  {
    if !TouchesFlights(a) {
      FlightsUntouched(s, a);
    }
  }

  lemma KeepsListedOne(s: State, a: Action, h: string)
    requires CompletedOnce(s) && InsideOnce(s) && HashesAgree(s) && ListedUnfinished(s) && h in Next(s, a).inFlight
    ensures var f := Next(s, a).inFlight[h];
            HashIs(Next(s, a), f, h) && !Next(s, a).flights[f].once.Over?
  {
    var f := Next(s, a).inFlight[h];
    NewlyListed(s, a, h);
    if h in s.inFlight && s.inFlight[h] == f {
      HashStays(s, a, f, h);
      if Next(s, a).flights[f].once.Over? {
        BecameOver(s, a, f);
        assert false;
      }
    } else {
      NewFlightIsFresh(s, a, f);
    }
  }

  lemma KeepsUnfinished(s: State, a: Action)
    requires CompletedOnce(s) && InsideOnce(s) && HashesAgree(s) && ListedUnfinished(s)
    ensures ListedUnfinished(Next(s, a))
  {
    forall h | h in Next(s, a).inFlight
      ensures HashIs(Next(s, a), Next(s, a).inFlight[h], h) && !Next(s, a).flights[Next(s, a).inFlight[h]].once.Over?
    {
      KeepsListedOne(s, a, h);
    }
  }

  lemma StaysOver(s: State, a: Action, f: FlightId)
    requires InsideOnce(s) && f in s.flights && s.flights[f].once.Over?
    ensures f in Next(s, a).flights && Next(s, a).flights[f].once.Over?
  {
    AfterCompleted(s, a, f);
  }

  lemma LeavesOver(s: State, a: Action)
    requires Actor(a).Some? && Leader(ProcOf(s, a.pid)) && InsideOnce(s)
    ensures var q, q' := ProcOf(s, a.pid), ProcOf(Next(s, a), a.pid);
            || (Leader(q') && q'.flight == q.flight)
            || (q.flight in Next(s, a).flights && Next(s, a).flights[q.flight].once.Over?)
  {
  }

  lemma KeepsLeft(s: State, a: Action)
    requires CompletedOnce(s) && InsideOnce(s) && LeftIsOver(s)
    ensures LeftIsOver(Next(s, a))
  {
    var s' := Next(s, a);
    forall f | f in s'.flights ensures StillLed(s', f) || s'.flights[f].once.Over? {
      if f !in s.flights {
        NewFlightHasLeader(s, a, f);
      } else if s.flights[f].once.Over? {
        StaysOver(s, a, f);
      } else {
        assert FlightOk(s.flights[f]);
        FlightStays(s, a, f);
        if Actor(a) == Some(s.flights[f].leader) {
          LeavesOver(s, a);
        } else {
          OthersStay(s, a, s.flights[f].leader);
        }
      }
    }
  }

  lemma NewFlightIsListed(s: State, a: Action, f: FlightId)
    requires f !in s.flights && f in Next(s, a).flights
    ensures IsListed(Next(s, a), f)
  {
  }

  /** A listed flight is unlisted only as its completion ends. */
  lemma ListedStays(s: State, a: Action, f: FlightId)
    requires HashesAgree(s) && InsideOnce(s) && f in s.flights && IsListed(s, f)
    requires f in Next(s, a).flights && Next(s, a).flights[f].hash == s.flights[f].hash && !Next(s, a).flights[f].once.Over?
    ensures IsListed(Next(s, a), f)
  {
    if a.CreateFlight? {
      assert Next(s, a).inFlight == s.inFlight || ProcOf(s, a.pid).hash !in s.inFlight;
    } else if !a.Unlist? && !a.CloseUnlist? {
      SameTable(s, a);
    }
  }

  lemma SameTable(s: State, a: Action)
    requires !a.CreateFlight? && !a.Unlist? && !a.CloseUnlist?
    ensures Next(s, a).inFlight == s.inFlight
  {
  }

  lemma KeepsUnfinishedListed(s: State, a: Action)
    requires CompletedOnce(s) && InsideOnce(s) && HashesAgree(s) && UnfinishedListed(s)
    ensures UnfinishedListed(Next(s, a))
  {
    var s' := Next(s, a);
    forall f | f in s'.flights ensures s'.flights[f].once.Over? || IsListed(s', f) {
      if f !in s.flights {
        NewFlightIsListed(s, a, f);
      } else if s.flights[f].once.Over? {
        StaysOver(s, a, f);
      } else {
        assert FlightOk(s.flights[f]);
        FlightStays(s, a, f);
        if !s'.flights[f].once.Over? {
          ListedStays(s, a, f);
        }
      }
    }
  }

  /** Once Close has taken its snapshot nothing more is listed. */
  lemma NothingNewListed(s: State, a: Action, h: string)
    requires CloseOk(s) && Snapshotted(s) && h in Next(s, a).inFlight
    ensures h in s.inFlight && s.inFlight[h] == Next(s, a).inFlight[h]
  {
  }

  /** What Close takes off its list is no longer in the table, or is what it unlists next. */
  lemma TakenOff(s: State, h: string)
    requires ListedUnfinished(s) && CloseHasAll(s) && Enabled(s, CloseComplete(h))
    ensures CloseHasAll(Next(s, CloseComplete(h)))
  {
    var f := s.closer.todo[h];
    if s.flights[f].once.Over? {
      assert h !in s.inFlight;
    }
  }

  lemma UnlistedByClose(s: State)
    requires CloseHasAll(s) && Enabled(s, CloseUnlist)
    ensures CloseHasAll(Next(s, CloseUnlist))
  {
  }

  lemma OtherCloseStep(s: State, a: Action)
    requires CloseHasAll(s) && (a.CloseFlag? || a.CloseSnapshot? || a.CloseFinish?)
    ensures CloseHasAll(Next(s, a))
  {
  }

  lemma KeepsCloseHasAll(s: State, a: Action)
    requires CloseOk(s) && ListedUnfinished(s) && HashesAgree(s) && CloseHasAll(s)
    ensures CloseHasAll(Next(s, a))
  {
    if Enabled(s, a) {
      if Actor(a).None? {
        match a
        case CloseComplete(h) => TakenOff(s, h);
        case CloseUnlist => UnlistedByClose(s);
        case _ => OtherCloseStep(s, a);
      } else {
        CloserStays(s, a);
        if Snapshotted(s) {
          FewerListed(s, a);
        }
      }
    }
  }

  lemma FewerListed(s: State, a: Action)
    requires CloseOk(s) && Snapshotted(s)
    ensures forall h :: h in Next(s, a).inFlight ==> h in s.inFlight && s.inFlight[h] == Next(s, a).inFlight[h]
  {
    forall h | h in Next(s, a).inFlight ensures h in s.inFlight && s.inFlight[h] == Next(s, a).inFlight[h] {
      NothingNewListed(s, a, h);
    }
  }

  lemma CloserStays(s: State, a: Action)
    requires Actor(a).Some?
    ensures Next(s, a).closer == s.closer
  {
  }

  lemma KeepsTidy(s: State, a: Action)
    requires Inv(s) && Tidy(s)
    ensures Inv(Next(s, a)) && Tidy(Next(s, a))
  {
    KeepsInv(s, a);
    KeepsHashes(s, a);
    KeepsUnfinished(s, a);
    KeepsLeft(s, a);
    KeepsUnfinishedListed(s, a);
    KeepsCloseHasAll(s, a);
  }

  lemma {:induction false} RunTidy(capacity: nat, acts: seq<Action>)
    ensures Inv(Run(Initial(capacity), acts)) && Tidy(Run(Initial(capacity), acts))
  {
    if acts == [] {
      InitialInv(capacity);
    } else {
      RunTidy(capacity, acts[..|acts| - 1]);
      KeepsTidy(Run(Initial(capacity), acts[..|acts| - 1]), acts[|acts| - 1]);
    }
  }

  // ---------- the claims ----------

  /** In every interleaving the table holds exactly the flights whose completion is not over, each under its own hash. */
  lemma TableIsUnfinished(capacity: nat, acts: seq<Action>, h: string, f: FlightId)
    ensures var s := Run(Initial(capacity), acts);
            h in s.inFlight && s.inFlight[h] == f <==> f in s.flights && s.flights[f].hash == h && !s.flights[f].once.Over?
  {
    RunTidy(capacity, acts);
  }

  /** In every interleaving, once Close has returned every flight is finished: it has its result, and the table is empty. */
  lemma CloseFinishesFlights(capacity: nat, acts: seq<Action>, f: FlightId)
    ensures var s := Run(Initial(capacity), acts);
            s.closer.Finished? ==> s.inFlight == map[] && (f in s.flights ==> s.flights[f].once.Over? && s.flights[f].result.Some?)
  {
    RunTidy(capacity, acts);
    var s := Run(Initial(capacity), acts);
    assert f in s.flights ==> FlightOk(s.flights[f]);
  }

  /** A call that takes part in a flight, as its leader or waiting for it. */
  predicate IsOn(q: Proc, f: FlightId) {
    (Leader(q) || q.Waiting? || q.Returned?) && q.flight == f
  }

  lemma BoardsOnlyListed(s: State, a: Action, p: Pid, f: FlightId)
    requires !IsOn(ProcOf(s, p), f) && IsOn(ProcOf(Next(s, a), p), f)
    ensures f !in s.flights || exists h :: h in s.inFlight && s.inFlight[h] == f
  {
    if Actor(a) == Some(p) {
      OwnBoarding(s, a, f);
    } else {
      OthersStay(s, a, p);
    }
  }

  lemma OwnBoarding(s: State, a: Action, f: FlightId)
    requires Actor(a).Some? && !IsOn(ProcOf(s, a.pid), f) && IsOn(ProcOf(Next(s, a), a.pid), f)
    ensures f !in s.flights || exists h :: h in s.inFlight && s.inFlight[h] == f
  {
    if a.Join? {
      assert ProcOf(s, a.pid).hash in s.inFlight;
    }
  }

  lemma NobodyBoards(s: State, a: Action, p: Pid, f: FlightId)
    requires Inv(s) && Tidy(s) && f in s.flights && s.flights[f].once.Over? && !IsOn(ProcOf(s, p), f)
    ensures f in Next(s, a).flights && Next(s, a).flights[f].once.Over? && !IsOn(ProcOf(Next(s, a), p), f)
  {
    StaysOver(s, a, f);
    if IsOn(ProcOf(Next(s, a), p), f) {
      BoardsOnlyListed(s, a, p, f);
    }
  }

  /**
   In every interleaving, a call that is not part of a flight by the time the flight's leader, or Close, has left
   completeFlight is never part of it: it neither waits for it nor returns its result.
   */
  lemma {:induction false} LaterCallsLoadAfresh(capacity: nat, acts: seq<Action>, i: nat, p: Pid, f: FlightId)
    requires i <= |acts| && f in Run(Initial(capacity), acts[..i]).flights
    requires var s := Run(Initial(capacity), acts[..i]);
             (s.flights[f].once.Over? || !StillLed(s, f)) && !IsOn(ProcOf(s, p), f)
    ensures var s := Run(Initial(capacity), acts);
            f in s.flights && s.flights[f].once.Over? && !IsOn(ProcOf(s, p), f)
  {
    if i == |acts| {
      RunTidy(capacity, acts);
      assert acts[..i] == acts;
    } else {
      var n := |acts| - 1;
      assert acts[..n][..i] == acts[..i];
      LaterCallsLoadAfresh(capacity, acts[..n], i, p, f);
      NobodyBoardsAt(capacity, acts, p, f);
    }
  }

  lemma NobodyBoardsAt(capacity: nat, acts: seq<Action>, p: Pid, f: FlightId)
    requires acts != []
    requires var s := Run(Initial(capacity), acts[..|acts| - 1]); f in s.flights && s.flights[f].once.Over? && !IsOn(ProcOf(s, p), f)
    ensures var s := Run(Initial(capacity), acts); f in s.flights && s.flights[f].once.Over? && !IsOn(ProcOf(s, p), f)
  {
    var n := |acts| - 1;
    RunTidy(capacity, acts[..n]);
    NobodyBoards(Run(Initial(capacity), acts[..n]), acts[n], p, f);
  }

  // ---------- refusals ----------

  /** The step by which a leader finds the admission channel full. */
  predicate FindsFull(s: State, a: Action, p: Pid) {
    a == Saturate(p) && Enabled(s, a) && |s.admitted| >= s.capacity
  }

  ghost predicate FoundFull(capacity: nat, acts: seq<Action>, p: Pid) {
    exists i :: 0 <= i < |acts| && FindsFull(Run(Initial(capacity), acts[..i]), acts[i], p)
  }

  predicate Refusing(q: Proc) {
    ((q.Finishing? || q.Unlisting?) && q.exit.ThenRefuse?) || (q.Returned? && q.reason.Refused?)
  }

  lemma NewlyRefusing(s: State, a: Action, p: Pid)
    requires Refusing(ProcOf(Next(s, a), p))
    ensures Refusing(ProcOf(s, p)) || FindsFull(s, a, p)
  {
    if Actor(a) != Some(p) {
      OthersStay(s, a, p);
    }
  }

  /** In every interleaving a call is refused only when every admission was taken at its own step. */
  lemma {:induction false} RefusedOnlyWhenFull(capacity: nat, acts: seq<Action>, p: Pid)
    requires Refusing(ProcOf(Run(Initial(capacity), acts), p))
    ensures FoundFull(capacity, acts, p)
  {
    var n := |acts| - 1;
    var before := Run(Initial(capacity), acts[..n]);
    NewlyRefusing(before, acts[n], p);
    if Refusing(ProcOf(before, p)) {
      RefusedOnlyWhenFull(capacity, acts[..n], p);
      var i :| 0 <= i < n && FindsFull(Run(Initial(capacity), acts[..n][..i]), acts[..n][i], p);
      assert acts[..n][..i] == acts[..i] && acts[..n][i] == acts[i];
    } else {
      assert FindsFull(Run(Initial(capacity), acts[..n]), acts[n], p);
    }
  }
}
