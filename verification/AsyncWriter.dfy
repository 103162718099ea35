/**
 The asynchronous usage writer as an interleaved machine: any number of Enqueue calls, one worker
 and one Close. A step is one lock operation, one access to a shared field, or one channel
 operation; what a goroutine does on its own between two of those is folded into the next step.
 A send on, or a second close of, a closed channel sets `panicked`.
 */
module AsyncWriter {
  import opened Basics

  type Record = nat

  datatype Lock = Free | Checking(record: Record) | Sending(record: Record) | Stopping | Closing

  /** Writing hands the batch to the store, Cleaning runs its cleanups; `last` is set once the channel has run dry. */
  datatype Worker = Selecting | Received | Collecting | Writing(last: bool) | Cleaning(last: bool) | Draining | Exited

  datatype Closer = NotClosing | InCritical | AwaitingWorker | DrainingQueue | Grace | Returned

  datatype State = State(
    capacity: nat,
    batchSize: nat,
    lock: Lock,
    accepting: bool,
    closed: bool,
    cancelled: bool,
    queue: seq<Record>,
    batch: seq<Record>,
    worker: Worker,
    closer: Closer,
    panicked: bool,
    // what has happened so far
    offered: set<Record>,
    refused: set<Record>,
    admitted: seq<Record>,
    handed: seq<seq<Record>>,
    discarded: seq<Record>,
    cleaned: seq<Record>)

  datatype Action =
    | EnqueueLock(record: Record)
    | EnqueueCheck
    | EnqueueSend
    | EnqueueDiscard(record: Record)
    | CloseLock
    | CloseStop
    | CloseChannel
    | CloseJoin
    | CloseTimeout
    | CloseDrainOne
    | CloseDrainEnd
    | CloseReturn
    | WorkerCancelled
    | WorkerReceive
    | WorkerCheck
    | WorkerRunDry
    | WorkerCollect
    | WorkerStopCollecting
    | WorkerAbort
    | WorkerWrite
    | WorkerCleanup
    | WorkerDrainOne
    | WorkerDrainEnd

  // ---------- the steps ----------

  predicate Enabled(s: State, a: Action) {
    match a
    case EnqueueLock(r) => s.lock.Free? && r !in s.offered
    case EnqueueCheck => s.lock.Checking?
    case EnqueueSend => s.lock.Sending?
    case EnqueueDiscard(r) => r in s.refused
    case CloseLock => s.lock.Free? && s.closer.NotClosing?
    case CloseStop => s.lock.Stopping?
    case CloseChannel => s.lock.Closing?
    case CloseJoin => s.closer.AwaitingWorker? && s.worker.Exited?
    case CloseTimeout => s.closer.AwaitingWorker?
    case CloseDrainOne => s.closer.DrainingQueue? && s.queue != []
    case CloseDrainEnd => s.closer.DrainingQueue? && s.queue == []
    case CloseReturn => s.closer.Grace?
    case WorkerCancelled => s.worker.Selecting? && s.cancelled
    case WorkerReceive => s.worker.Selecting? && s.queue != []
    case WorkerCheck => s.worker.Received?
    case WorkerRunDry => (s.worker.Selecting? || (s.worker.Collecting? && |s.batch| < s.batchSize)) && s.queue == [] && s.closed
    case WorkerCollect => s.worker.Collecting? && s.queue != [] && |s.batch| < s.batchSize
    case WorkerStopCollecting => s.worker.Collecting?
    case WorkerAbort => s.worker.Collecting? && s.cancelled && |s.batch| < s.batchSize
    case WorkerWrite => s.worker.Writing?
    case WorkerCleanup => s.worker.Cleaning?
    case WorkerDrainOne => s.worker.Draining? && s.queue != []
    case WorkerDrainEnd => s.worker.Draining? && s.queue == []
  }

  /** discardRecord counts the record as dropped and runs its cleanup. */
  function Discard(s: State, records: seq<Record>): State {
    s.(discarded := s.discarded + records, cleaned := s.cleaned + records)
  }

  function Send(s: State, r: Record): State {
    if s.closed then s.(panicked := true)
    else if |s.queue| < s.capacity then s.(lock := Free, queue := s.queue + [r], admitted := s.admitted + [r])
    else s.(lock := Free, refused := s.refused + {r})
  }

  function DrainOne(s: State): State
    requires s.queue != []
  {
    Discard(s.(queue := s.queue[1..]), [s.queue[0]])
  }

  function TakeEnqueue(s: State, a: Action): State
    requires Enabled(s, a)
  {
    match a
    case EnqueueLock(r) => s.(lock := Checking(r), offered := s.offered + {r})
    case EnqueueCheck =>
      if s.accepting then s.(lock := Sending(s.lock.record))
      else s.(lock := Free, refused := s.refused + {s.lock.record})
    case EnqueueSend => Send(s, s.lock.record)
    case EnqueueDiscard(r) => Discard(s.(refused := s.refused - {r}), [r])
    case _ => s
  }

  function TakeClose(s: State, a: Action): State
    requires Enabled(s, a)
  {
    match a
    case CloseLock => s.(lock := Stopping, closer := InCritical)
    case CloseStop => s.(lock := Closing, accepting := false)
    case CloseChannel =>
      if s.closed then s.(panicked := true) else s.(lock := Free, closed := true, closer := AwaitingWorker)
    case CloseJoin => s.(cancelled := true, closer := Returned)
    case CloseTimeout => s.(cancelled := true, closer := DrainingQueue)
    case CloseDrainOne => DrainOne(s)
    case CloseDrainEnd => s.(closer := Grace)
    case CloseReturn => s.(closer := Returned)
    case _ => s
  }

  /** `discardBatch` followed by the drain loop. */
  function GiveUp(s: State): State {
    Discard(s.(batch := [], worker := Draining), s.batch)
  }

  function TakeWorker(s: State, a: Action): State
    requires Enabled(s, a)
  {
    match a
    case WorkerCancelled => s.(worker := Draining)
    case WorkerReceive => s.(queue := s.queue[1..], batch := [s.queue[0]], worker := Received)
    case WorkerCheck => if s.cancelled then GiveUp(s) else s.(worker := Collecting)
    case WorkerRunDry => if s.worker.Selecting? then s.(worker := Exited) else s.(worker := Writing(true))
    case WorkerCollect => s.(queue := s.queue[1..], batch := s.batch + [s.queue[0]])
    case WorkerStopCollecting => s.(worker := Writing(false))
    case WorkerAbort => GiveUp(s)
    case WorkerWrite => s.(handed := s.handed + [s.batch], worker := Cleaning(s.worker.last))
    case WorkerCleanup =>
      s.(cleaned := s.cleaned + s.batch, batch := [], worker := if s.worker.last then Exited else Selecting)
    case WorkerDrainOne => DrainOne(s)
    case WorkerDrainEnd => s.(worker := Exited)
    case _ => s
  }

  /** A finished or crashed machine takes no more steps. */
  function Next(s: State, a: Action): State {
    if s.panicked || !Enabled(s, a) then s
    else if a.EnqueueLock? || a.EnqueueCheck? || a.EnqueueSend? || a.EnqueueDiscard? then TakeEnqueue(s, a)
    else if a.CloseLock? || a.CloseStop? || a.CloseChannel? || a.CloseJoin? || a.CloseTimeout? || a.CloseDrainOne?
            || a.CloseDrainEnd? || a.CloseReturn? then TakeClose(s, a)
    else TakeWorker(s, a)
  }

  function Run(s: State, actions: seq<Action>): State {
    if actions == [] then s else Next(Run(s, actions[..|actions| - 1]), actions[|actions| - 1])
  }

  function New(capacity: nat, batchSize: nat): State {
    State(capacity, batchSize, Free, true, false, false, [], [], Selecting, NotClosing, false,
          {}, {}, [], [], [], [])
  }

  // ---------- the protocol ----------

  /** Who may be in the critical section, and what the flags then say. */
  predicate Protocol(s: State) {
    && !s.panicked
    && (s.closer.NotClosing? ==> s.accepting && !s.closed && !s.cancelled)
    && (s.closer.InCritical? <==> s.lock.Stopping? || s.lock.Closing?)
    && (s.lock.Stopping? ==> !s.closed && !s.cancelled && s.accepting)
    && (s.lock.Closing? ==> !s.closed && !s.cancelled && !s.accepting)
    && (s.lock.Sending? ==> s.closer.NotClosing?)
    && (!s.closer.NotClosing? && !s.closer.InCritical? ==> s.closed && !s.accepting)
    && (s.closer.DrainingQueue? || s.closer.Grace? ==> s.cancelled)
    && (s.cancelled ==> s.closed)
  }

  lemma NextProtocol(s: State, a: Action)
    requires Protocol(s)
    ensures Protocol(Next(s, a))
  {
  }

  /** What the worker's position says about its batch and the queue. */
  predicate WorkerOk(s: State) {
    && s.batchSize > 0
    && (s.worker.Selecting? || s.worker.Draining? || s.worker.Exited? ==> s.batch == [])
    && (s.worker.Received? || s.worker.Collecting? || s.worker.Writing? || s.worker.Cleaning? ==> 1 <= |s.batch| <= s.batchSize)
    && (s.worker.Draining? ==> s.cancelled)
    && ((s.worker.Writing? || s.worker.Cleaning?) && s.worker.last ==> s.closed && s.queue == [])
    && (s.worker.Exited? ==> s.closed && s.queue == [])
    && (s.closer.Grace? ==> s.queue == [])
    && |s.queue| <= s.capacity
    && (forall i :: 0 <= i < |s.handed| ==> 1 <= |s.handed[i]| <= s.batchSize)
  }

  lemma EnqueueWorker(s: State, a: Action)
    requires Protocol(s) && WorkerOk(s) && Enabled(s, a)
    ensures WorkerOk(TakeEnqueue(s, a))
  {
  }

  lemma CloseWorker(s: State, a: Action)
    requires Protocol(s) && WorkerOk(s) && Enabled(s, a)
    ensures WorkerOk(TakeClose(s, a))
  {
  }

  lemma WorkerWorker(s: State, a: Action)
    requires Protocol(s) && WorkerOk(s) && Enabled(s, a)
    ensures WorkerOk(TakeWorker(s, a))
  {
  }

  lemma NextWorker(s: State, a: Action)
    requires Protocol(s) && WorkerOk(s)
    ensures WorkerOk(Next(s, a))
  {
    if Enabled(s, a) {
      EnqueueWorker(s, a);
      CloseWorker(s, a);
      WorkerWorker(s, a);
    }
  }

  // ---------- where each record is ----------

  function Flat(batches: seq<seq<Record>>): seq<Record> {
    if batches == [] then [] else Flat(batches[..|batches| - 1]) + batches[|batches| - 1]
  }

  lemma FlatAppend(batches: seq<seq<Record>>, batch: seq<Record>)
    ensures Flat(batches + [batch]) == Flat(batches) + batch
  {
    assert (batches + [batch])[..|batches|] == batches;
  }

  function Times(records: seq<Record>, r: Record): nat {
    if records == [] then 0 else Times(records[..|records| - 1], r) + if records[|records| - 1] == r then 1 else 0
  }

  lemma {:induction false} TimesConcat(a: seq<Record>, b: seq<Record>, r: Record)
    ensures Times(a + b, r) == Times(a, r) + Times(b, r)
  {
    if b == [] {
      assert a + b == a;
    } else {
      assert (a + b)[..|a + b| - 1] == a + b[..|b| - 1];
      TimesConcat(a, b[..|b| - 1], r);
    }
  }

  lemma TimesOne(x: Record, r: Record)
    ensures Times([x], r) == if x == r then 1 else 0
  {
  }

  /** Whether an Enqueue call holds the record inside the critical section. */
  function InCall(l: Lock, r: Record): nat {
    if (l.Checking? || l.Sending?) && l.record == r then 1 else 0
  }

  /** The part of the worker's batch that is not yet the store's. */
  function InHand(s: State): seq<Record> {
    if s.worker.Cleaning? then [] else s.batch
  }

  /** How often a record is found, over every place it may be. */
  function Places(s: State, r: Record): nat {
    InCall(s.lock, r) + (if r in s.refused then 1 else 0) + Times(s.queue, r) + Times(InHand(s), r) + Times(Flat(s.handed), r) + Times(s.discarded, r)
  }

  /** Every offered record is in exactly one place. */
  predicate Conserved(s: State, r: Record) {
    Places(s, r) == if r in s.offered then 1 else 0
  }

  lemma TimesHead(records: seq<Record>, r: Record)
    requires records != []
    ensures Times(records, r) == Times([records[0]], r) + Times(records[1..], r)
  {
    assert records == [records[0]] + records[1..];
    TimesConcat([records[0]], records[1..], r);
  }

  lemma TimesLast(records: seq<Record>, x: Record, r: Record)
    ensures Times(records + [x], r) == Times(records, r) + if x == r then 1 else 0
  {
    TimesConcat(records, [x], r);
    TimesOne(x, r);
  }

  lemma SendConserved(s: State, r: Record)
    requires !s.closed && s.lock.Sending? && Conserved(s, r)
    ensures Conserved(Send(s, s.lock.record), r)
  {
    var x := s.lock.record;
    if |s.queue| < s.capacity {
      TimesLast(s.queue, x, r);
      assert Send(s, x) == s.(lock := Free, queue := s.queue + [x], admitted := s.admitted + [x]);
    } else {
      assert Send(s, x) == s.(lock := Free, refused := s.refused + {x});
      assert x in s.refused ==> Places(s, x) >= 2;
    }
  }

  lemma RefusedConserved(s: State, x: Record, r: Record)
    requires x in s.refused && Conserved(s, r)
    ensures Conserved(Discard(s.(refused := s.refused - {x}), [x]), r)
  {
    TimesConcat(s.discarded, [x], r);
    TimesOne(x, r);
  }

  lemma EnqueueConserved(s: State, a: Action, r: Record)
    requires Protocol(s) && Conserved(s, r) && Enabled(s, a)
    ensures Conserved(TakeEnqueue(s, a), r)
  {
    match a
    case EnqueueSend =>
      SendConserved(s, r);
    case EnqueueDiscard(x) =>
      RefusedConserved(s, x, r);
    case _ =>
  }

  lemma DrainConserved(s: State, r: Record)
    requires s.queue != [] && Conserved(s, r)
    ensures Conserved(DrainOne(s), r)
  {
    TimesHead(s.queue, r);
    TimesConcat(s.discarded, [s.queue[0]], r);
  }

  lemma CloseConserved(s: State, a: Action, r: Record)
    requires Protocol(s) && Conserved(s, r) && Enabled(s, a)
    ensures Conserved(TakeClose(s, a), r)
  {
    if a.CloseDrainOne? {
      DrainConserved(s, r);
    }
  }

  lemma GiveUpConserved(s: State, r: Record)
    requires !s.worker.Cleaning? && Conserved(s, r)
    ensures Conserved(GiveUp(s), r)
  {
    TimesConcat(s.discarded, s.batch, r);
  }

  lemma CollectConserved(s: State, a: Action, r: Record)
    requires WorkerOk(s) && Conserved(s, r) && Enabled(s, a) && (a.WorkerReceive? || a.WorkerCollect?)
    ensures Conserved(TakeWorker(s, a), r)
  {
    TimesHead(s.queue, r);
    TimesConcat(s.batch, [s.queue[0]], r);
  }

  lemma WriteConserved(s: State, r: Record)
    requires s.worker.Writing? && Conserved(s, r)
    ensures Conserved(TakeWorker(s, WorkerWrite), r)
  {
    FlatAppend(s.handed, s.batch);
    TimesConcat(Flat(s.handed), s.batch, r);
  }

  lemma WorkerConserved(s: State, a: Action, r: Record)
    requires WorkerOk(s) && Conserved(s, r) && Enabled(s, a)
    ensures Conserved(TakeWorker(s, a), r)
  {
    match a
    case WorkerReceive =>
      CollectConserved(s, a, r);
    case WorkerCollect =>
      CollectConserved(s, a, r);
    case WorkerCheck =>
      GiveUpConserved(s, r);
    case WorkerAbort =>
      GiveUpConserved(s, r);
    case WorkerWrite =>
      WriteConserved(s, r);
    case WorkerDrainOne =>
      DrainConserved(s, r);
    case _ =>
  }

  lemma NextConserved(s: State, a: Action, r: Record)
    requires Protocol(s) && WorkerOk(s) && Conserved(s, r)
    ensures Conserved(Next(s, a), r)
  {
    if Enabled(s, a) {
      EnqueueConserved(s, a, r);
      CloseConserved(s, a, r);
      WorkerConserved(s, a, r);
    }
  }

  /** Cleanups have run for what was discarded and for what the store has had, and for nothing else. */
  predicate CleanedOnce(s: State, r: Record) {
    Times(s.cleaned, r) + (if s.worker.Cleaning? then Times(s.batch, r) else 0) == Times(s.discarded, r) + Times(Flat(s.handed), r)
  }

  lemma DiscardCleaned(s: State, records: seq<Record>, r: Record)
    requires CleanedOnce(s, r)
    ensures CleanedOnce(Discard(s, records), r)
  {
    TimesConcat(s.cleaned, records, r);
    TimesConcat(s.discarded, records, r);
  }

  /** Steps that neither discard nor clean up change nothing that cleanups are counted from. */
  lemma CleanedFrame(s: State, s': State, r: Record)
    requires CleanedOnce(s, r) && s'.cleaned == s.cleaned && s'.discarded == s.discarded && s'.handed == s.handed
    requires s'.worker == s.worker && s'.batch == s.batch
    ensures CleanedOnce(s', r)
  {
  }

  lemma EnqueueKeepsCleanups(s: State, a: Action)
    requires Enabled(s, a) && !a.EnqueueDiscard?
    ensures var s' := TakeEnqueue(s, a);
            && s'.cleaned == s.cleaned && s'.discarded == s.discarded && s'.handed == s.handed
            && s'.worker == s.worker && s'.batch == s.batch
  {
  }

  lemma RefusedCleaned(s: State, x: Record, r: Record)
    requires CleanedOnce(s, r)
    ensures CleanedOnce(Discard(s.(refused := s.refused - {x}), [x]), r)
  {
    CleanedFrame(s, s.(refused := s.refused - {x}), r);
    DiscardCleaned(s.(refused := s.refused - {x}), [x], r);
  }

  lemma EnqueueCleaned(s: State, a: Action, r: Record)
    requires CleanedOnce(s, r) && Enabled(s, a)
    ensures CleanedOnce(TakeEnqueue(s, a), r)
  {
    if a.EnqueueDiscard? {
      RefusedCleaned(s, a.record, r);
    } else {
      EnqueueKeepsCleanups(s, a);
      CleanedFrame(s, TakeEnqueue(s, a), r);
    }
  }

  lemma CloseCleaned(s: State, a: Action, r: Record)
    requires CleanedOnce(s, r) && Enabled(s, a)
    ensures CleanedOnce(TakeClose(s, a), r)
  {
    if a.CloseDrainOne? {
      DiscardCleaned(s, [s.queue[0]], r);
    }
  }

  lemma GiveUpCleaned(s: State, r: Record)
    requires CleanedOnce(s, r) && !s.worker.Cleaning?
    ensures CleanedOnce(GiveUp(s), r)
  {
    DiscardCleaned(s, s.batch, r);
  }

  lemma WriteCleaned(s: State, r: Record)
    requires CleanedOnce(s, r) && s.worker.Writing?
    ensures CleanedOnce(TakeWorker(s, WorkerWrite), r)
  {
    FlatAppend(s.handed, s.batch);
    TimesConcat(Flat(s.handed), s.batch, r);
  }

  lemma CleanupCleaned(s: State, r: Record)
    requires CleanedOnce(s, r) && s.worker.Cleaning?
    ensures CleanedOnce(TakeWorker(s, WorkerCleanup), r)
  {
    TimesConcat(s.cleaned, s.batch, r);
  }

  lemma WorkerCleaned(s: State, a: Action, r: Record)
    requires CleanedOnce(s, r) && Enabled(s, a)
    ensures CleanedOnce(TakeWorker(s, a), r)
  {
    match a
    case WorkerDrainOne =>
      DiscardCleaned(s, [s.queue[0]], r);
    case WorkerCheck =>
      GiveUpCleaned(s, r);
    case WorkerAbort =>
      GiveUpCleaned(s, r);
    case WorkerWrite =>
      WriteCleaned(s, r);
    case WorkerCleanup =>
      CleanupCleaned(s, r);
    case _ =>
  }

  lemma NextCleaned(s: State, a: Action, r: Record)
    requires CleanedOnce(s, r) && Enabled(s, a)
    ensures CleanedOnce(Next(s, a), r)
  {
    EnqueueCleaned(s, a, r);
    CloseCleaned(s, a, r);
    WorkerCleaned(s, a, r);
  }

  // ---------- order ----------

  /** `a` can be had from `b` by leaving elements out. */
  predicate Subsequence(a: seq<Record>, b: seq<Record>) {
    || a == []
    || (b != [] && ((a[|a| - 1] == b[|b| - 1] && Subsequence(a[..|a| - 1], b[..|b| - 1])) || Subsequence(a, b[..|b| - 1])))
  }

  lemma {:induction false} DropLast(a: seq<Record>, b: seq<Record>)
    requires a != [] && Subsequence(a, b)
    ensures Subsequence(a[..|a| - 1], b)
  {
    if a[|a| - 1] == b[|b| - 1] && Subsequence(a[..|a| - 1], b[..|b| - 1]) {
    } else {
      DropLast(a, b[..|b| - 1]);
    }
  }

  lemma {:induction false} DropSuffix(a: seq<Record>, c: seq<Record>, b: seq<Record>)
    requires Subsequence(a + c, b)
    ensures Subsequence(a, b)
  {
    if c == [] {
      assert a + c == a;
    } else {
      DropLast(a + c, b);
      assert (a + c)[..|a + c| - 1] == a + c[..|c| - 1];
      DropSuffix(a, c[..|c| - 1], b);
    }
  }

  lemma TakeOne(a: seq<Record>, b: seq<Record>, x: Record)
    requires Subsequence(a, b)
    ensures Subsequence(a, b + [x]) && Subsequence(a + [x], b + [x])
  {
    assert (b + [x])[..|b|] == b && (a + [x])[..|a|] == a;
  }

  /** The queue is the tail of what was admitted, and what was given to the worker came before it, in order. */
  predicate Ordered(admitted: seq<Record>, queue: seq<Record>, given: seq<Record>) {
    && |queue| <= |admitted|
    && admitted == Taken(admitted, queue) + queue
    && Subsequence(given, Taken(admitted, queue))
  }

  /** What has left the queue so far, in order of admission. */
  function Taken(admitted: seq<Record>, queue: seq<Record>): seq<Record>
    requires |queue| <= |admitted|
  {
    admitted[..|admitted| - |queue|]
  }

  lemma AdmitOrdered(admitted: seq<Record>, queue: seq<Record>, given: seq<Record>, r: Record)
    requires Ordered(admitted, queue, given)
    ensures Ordered(admitted + [r], queue + [r], given)
  {
    assert Taken(admitted + [r], queue + [r]) == Taken(admitted, queue);
    assert admitted + [r] == Taken(admitted, queue) + (queue + [r]);
  }

  /** One record leaves the queue, to be dropped or to be given to the worker. */
  lemma LeaveOrdered(admitted: seq<Record>, queue: seq<Record>, given: seq<Record>)
    requires Ordered(admitted, queue, given) && queue != []
    ensures Ordered(admitted, queue[1..], given) && Ordered(admitted, queue[1..], given + [queue[0]])
  {
    assert Taken(admitted, queue[1..]) == Taken(admitted, queue) + [queue[0]];
    assert admitted == Taken(admitted, queue[1..]) + queue[1..];
    TakeOne(given, Taken(admitted, queue), queue[0]);
  }

  /** What the worker was given: handed to the store, or still in hand. */
  function Given(s: State): seq<Record> {
    Flat(s.handed) + InHand(s)
  }

  predicate InOrder(s: State) {
    Ordered(s.admitted, s.queue, Given(s))
  }

  /** The order depends on what was admitted, queued, handed over and is in hand, and on nothing else. */
  lemma SameOrder(s: State, s': State)
    requires InOrder(s)
    requires s'.admitted == s.admitted && s'.queue == s.queue && s'.handed == s.handed && InHand(s') == InHand(s)
    ensures InOrder(s')
  {
  }

  lemma SendInOrder(s: State, r: Record)
    requires InOrder(s)
    ensures InOrder(Send(s, r))
  {
    if !s.closed && |s.queue| < s.capacity {
      AdmitOrdered(s.admitted, s.queue, Given(s), r);
      assert InHand(Send(s, r)) == InHand(s);
    } else {
      SameOrder(s, Send(s, r));
    }
  }

  lemma EnqueueInOrder(s: State, a: Action)
    requires InOrder(s) && Enabled(s, a)
    ensures InOrder(TakeEnqueue(s, a))
  {
    if a.EnqueueSend? {
      SendInOrder(s, s.lock.record);
    } else {
      SameOrder(s, TakeEnqueue(s, a));
    }
  }

  lemma DrainInOrder(s: State)
    requires InOrder(s) && s.queue != []
    ensures InOrder(DrainOne(s))
  {
    LeaveOrdered(s.admitted, s.queue, Given(s));
    assert InHand(DrainOne(s)) == InHand(s);
  }

  lemma CloseInOrder(s: State, a: Action)
    requires InOrder(s) && Enabled(s, a)
    ensures InOrder(TakeClose(s, a))
  {
    if a.CloseDrainOne? {
      DrainInOrder(s);
    } else {
      SameOrder(s, TakeClose(s, a));
    }
  }

  lemma Grouping(a: seq<Record>, b: seq<Record>, x: Record)
    ensures (a + b) + [x] == a + (b + [x]) && a + [] == a && [] + [x] == [x]
  {
  }

  /** The worker takes the head of the queue in hand. */
  lemma InHandInOrder(s: State, s': State)
    requires InOrder(s) && s.queue != []
    requires s'.admitted == s.admitted && s'.queue == s.queue[1..]
    requires s'.handed == s.handed && InHand(s') == InHand(s) + [s.queue[0]]
    ensures InOrder(s')
  {
    LeaveOrdered(s.admitted, s.queue, Given(s));
    Grouping(Flat(s.handed), InHand(s), s.queue[0]);
  }

  lemma ReceiveInOrder(s: State)
    requires InOrder(s) && WorkerOk(s) && Enabled(s, WorkerReceive)
    ensures InOrder(TakeWorker(s, WorkerReceive))
  {
    Grouping([], [], s.queue[0]);
    InHandInOrder(s, TakeWorker(s, WorkerReceive));
  }

  lemma CollectInOrder(s: State)
    requires InOrder(s) && Enabled(s, WorkerCollect)
    ensures InOrder(TakeWorker(s, WorkerCollect))
  {
    InHandInOrder(s, TakeWorker(s, WorkerCollect));
  }

  lemma WriteInOrder(s: State)
    requires InOrder(s) && s.worker.Writing?
    ensures InOrder(TakeWorker(s, WorkerWrite))
  {
    FlatAppend(s.handed, s.batch);
    Grouping(Flat(s.handed) + s.batch, [], 0);
    assert Given(TakeWorker(s, WorkerWrite)) == Given(s);
  }

  lemma GiveUpInOrder(s: State)
    requires InOrder(s)
    ensures InOrder(GiveUp(s))
  {
    DropSuffix(Flat(s.handed), InHand(s), Taken(s.admitted, s.queue));
    Grouping(Flat(s.handed), [], 0);
  }

  /** The steps of the worker that move nothing. */
  lemma OtherInOrder(s: State, a: Action)
    requires InOrder(s) && WorkerOk(s) && Enabled(s, a)
    requires !a.WorkerReceive? && !a.WorkerCollect? && !a.WorkerCheck? && !a.WorkerAbort? && !a.WorkerWrite? && !a.WorkerDrainOne?
    ensures InOrder(TakeWorker(s, a))
  {
    SameOrder(s, TakeWorker(s, a));
  }

  lemma CheckInOrder(s: State)
    requires InOrder(s) && s.worker.Received?
    ensures InOrder(TakeWorker(s, WorkerCheck))
  {
    if s.cancelled {
      GiveUpInOrder(s);
    } else {
      SameOrder(s, TakeWorker(s, WorkerCheck));
    }
  }

  lemma WorkerInOrder(s: State, a: Action)
    requires InOrder(s) && WorkerOk(s) && Enabled(s, a)
    ensures InOrder(TakeWorker(s, a))
  {
    match a
    case WorkerReceive =>
      ReceiveInOrder(s);
    case WorkerCollect =>
      CollectInOrder(s);
    case WorkerCheck =>
      CheckInOrder(s);
    case WorkerAbort =>
      GiveUpInOrder(s);
    case WorkerWrite =>
      WriteInOrder(s);
    case WorkerDrainOne =>
      DrainInOrder(s);
    case _ =>
      OtherInOrder(s, a);
  }

  lemma NextInOrder(s: State, a: Action)
    requires InOrder(s) && WorkerOk(s)
    ensures InOrder(Next(s, a))
  {
    if Enabled(s, a) {
      EnqueueInOrder(s, a);
      CloseInOrder(s, a);
      WorkerInOrder(s, a);
    }
  }

  // ---------- every run ----------

  lemma {:induction false} RunProtocol(capacity: nat, batchSize: nat, actions: seq<Action>)
    requires batchSize > 0
    ensures var s := Run(New(capacity, batchSize), actions);
            Protocol(s) && WorkerOk(s) && InOrder(s)
  {
    if actions != [] {
      var before := Run(New(capacity, batchSize), actions[..|actions| - 1]);
      RunProtocol(capacity, batchSize, actions[..|actions| - 1]);
      NextProtocol(before, actions[|actions| - 1]);
      NextWorker(before, actions[|actions| - 1]);
      NextInOrder(before, actions[|actions| - 1]);
    }
  }

  lemma {:induction false} RunConserved(capacity: nat, batchSize: nat, actions: seq<Action>, r: Record)
    requires batchSize > 0
    ensures var s := Run(New(capacity, batchSize), actions);
            Conserved(s, r) && CleanedOnce(s, r)
  {
    if actions != [] {
      var before := Run(New(capacity, batchSize), actions[..|actions| - 1]);
      RunProtocol(capacity, batchSize, actions[..|actions| - 1]);
      RunConserved(capacity, batchSize, actions[..|actions| - 1], r);
      NextConserved(before, actions[|actions| - 1], r);
      if Enabled(before, actions[|actions| - 1]) {
        NextCleaned(before, actions[|actions| - 1], r);
      }
    }
  }

  /** In every interleaving nothing is sent on the closed channel and the channel is closed once. */
  lemma NeverPanics(capacity: nat, batchSize: nat, actions: seq<Action>)
    requires batchSize > 0
    ensures !Run(New(capacity, batchSize), actions).panicked
  {
    RunProtocol(capacity, batchSize, actions);
  }

  /**
   In every interleaving a record is handed to the store at most once or discarded at most once, never both,
   and cleaned up at most once, only after it was handed over or discarded.
   */
  lemma DisposedAtMostOnce(capacity: nat, batchSize: nat, actions: seq<Action>, r: Record)
    requires batchSize > 0
    ensures var s := Run(New(capacity, batchSize), actions);
            && Times(Flat(s.handed), r) + Times(s.discarded, r) <= 1
            && Times(s.cleaned, r) <= Times(Flat(s.handed), r) + Times(s.discarded, r)
  {
    RunConserved(capacity, batchSize, actions, r);
  }

  /** The queue is within its capacity, batches hold between one record and batchSize, and what is handed over is admitted and in admission order. */
  lemma HandedInAdmissionOrder(capacity: nat, batchSize: nat, actions: seq<Action>)
    requires batchSize > 0
    ensures var s := Run(New(capacity, batchSize), actions);
            && (forall i :: 0 <= i < |s.handed| ==> 1 <= |s.handed[i]| <= s.batchSize)
            && Subsequence(Flat(s.handed), s.admitted)
            && |s.queue| <= s.capacity
  {
    RunProtocol(capacity, batchSize, actions);
    var s := Run(New(capacity, batchSize), actions);
    DropSuffix(Flat(s.handed), InHand(s), Taken(s.admitted, s.queue));
    Extend(Flat(s.handed), Taken(s.admitted, s.queue), s.queue);
  }

  lemma {:induction false} Extend(a: seq<Record>, b: seq<Record>, c: seq<Record>)
    requires Subsequence(a, b)
    ensures Subsequence(a, b + c)
  {
    if c == [] {
      assert b + c == b;
    } else {
      assert (b + c)[..|b + c| - 1] == b + c[..|c| - 1];
      Extend(a, b, c[..|c| - 1]);
    }
  }

  /**
   Once Close and the worker have finished and every Enqueue call has returned, each offered record was handed
   over once or discarded once, its cleanup ran exactly once, and the queue and the batch are empty.
   */
  lemma NothingRemains(capacity: nat, batchSize: nat, actions: seq<Action>, r: Record)
    requires batchSize > 0
    ensures var s := Run(New(capacity, batchSize), actions);
            s.closer.Returned? && s.worker.Exited? && s.lock.Free? && s.refused == {} ==>
              && s.queue == [] && s.batch == []
              && (r in s.offered ==> Times(Flat(s.handed), r) + Times(s.discarded, r) == 1 && Times(s.cleaned, r) == 1)
              && (r !in s.offered ==> Times(Flat(s.handed), r) + Times(s.discarded, r) == 0 && Times(s.cleaned, r) == 0)
  {
    RunProtocol(capacity, batchSize, actions);
    RunConserved(capacity, batchSize, actions, r);
  }

  // ---------- nothing is lost before cancellation ----------

  /** Until the worker is cancelled, what was admitted is what was handed over, then what is in hand, then the queue. */
  predicate Lossless(s: State) {
    !s.cancelled ==> s.admitted == Flat(s.handed) + InHand(s) + s.queue
  }

  lemma TakeLossless(s: State, a: Action)
    requires WorkerOk(s) && Lossless(s) && Enabled(s, a) && (a.WorkerReceive? || a.WorkerCollect?)
    ensures Lossless(TakeWorker(s, a))
  {
    Regroup(Flat(s.handed), InHand(s), s.queue);
    assert a.WorkerReceive? ==> [] + [s.queue[0]] == [s.queue[0]];
  }

  lemma Regroup(a: seq<Record>, b: seq<Record>, queue: seq<Record>)
    requires queue != []
    ensures a + b + queue == a + (b + [queue[0]]) + queue[1..]
  {
  }

  lemma WriteLossless(s: State)
    requires Lossless(s) && s.worker.Writing?
    ensures Lossless(TakeWorker(s, WorkerWrite))
  {
    FlatAppend(s.handed, s.batch);
    Grouping(Flat(s.handed) + s.batch, [], 0);
    assert Given(TakeWorker(s, WorkerWrite)) == Given(s);
  }

  lemma SendLossless(s: State, r: Record)
    requires Lossless(s)
    ensures Lossless(Send(s, r))
  {
    if !s.closed && |s.queue| < s.capacity {
      Grouping(Flat(s.handed) + InHand(s), s.queue, r);
      assert InHand(Send(s, r)) == InHand(s);
    }
  }

  lemma NextLossless(s: State, a: Action)
    requires Protocol(s) && WorkerOk(s) && Lossless(s)
    ensures Lossless(Next(s, a))
  {
    if Enabled(s, a) {
      if a.WorkerReceive? || a.WorkerCollect? {
        TakeLossless(s, a);
      } else if a.WorkerWrite? {
        WriteLossless(s);
      } else if a.EnqueueSend? {
        SendLossless(s, s.lock.record);
      }
    }
  }

  /** In every interleaving, as long as Close has not cancelled the worker no admitted record is lost or reordered. */
  lemma {:induction false} LosslessUntilCancelled(capacity: nat, batchSize: nat, actions: seq<Action>)
    requires batchSize > 0
    ensures Lossless(Run(New(capacity, batchSize), actions))
  {
    if actions != [] {
      var before := Run(New(capacity, batchSize), actions[..|actions| - 1]);
      RunProtocol(capacity, batchSize, actions[..|actions| - 1]);
      LosslessUntilCancelled(capacity, batchSize, actions[..|actions| - 1]);
      NextLossless(before, actions[|actions| - 1]);
    }
  }

  // ---------- after cancellation ----------

  /** Batches that are handed over or still may be without another look at the cancellation. */
  function Committed(s: State): nat {
    |s.handed| + if s.worker.Collecting? || s.worker.Writing? then 1 else 0
  }

  lemma CancelledCommitsNoMore(s: State, a: Action)
    requires s.cancelled
    ensures Next(s, a).cancelled && Committed(Next(s, a)) <= Committed(s)
  {
  }

  lemma {:induction false} CancelledRun(s: State, later: seq<Action>)
    requires s.cancelled
    ensures Run(s, later).cancelled && Committed(Run(s, later)) <= Committed(s)
  {
    if later != [] {
      CancelledRun(s, later[..|later| - 1]);
      CancelledCommitsNoMore(Run(s, later[..|later| - 1]), later[|later| - 1]);
    }
  }

  /** In every interleaving, once Close has cancelled the worker at most one more batch goes to the store: the one being collected or written. */
  lemma OneBatchAfterCancellation(s: State, later: seq<Action>)
    requires s.cancelled
    ensures |Run(s, later).handed| <= |s.handed| + 1
    ensures !s.worker.Collecting? && !s.worker.Writing? ==> |Run(s, later).handed| <= |s.handed|
  {
    CancelledRun(s, later);
  }

  // ---------- why a record is turned away ----------

  /** The step by which an Enqueue call finds the writer closed, or the queue full. */
  predicate TurnsAway(s: State, a: Action, r: Record) {
    || (a.EnqueueCheck? && s.lock == Checking(r) && !s.accepting)
    || (a.EnqueueSend? && s.lock == Sending(r) && |s.queue| >= s.capacity)
  }

  ghost predicate WasTurnedAway(s: State, actions: seq<Action>, r: Record) {
    exists i :: 0 <= i < |actions| && TurnsAway(Run(s, actions[..i]), actions[i], r)
  }

  lemma {:induction false} SubsequenceElements(a: seq<Record>, b: seq<Record>, r: Record)
    requires Subsequence(a, b) && r in a
    ensures r in b
  {
    if r != a[|a| - 1] && !Subsequence(a, b[..|b| - 1]) {
      assert r in a[..|a| - 1];
      SubsequenceElements(a[..|a| - 1], b[..|b| - 1], r);
    } else if Subsequence(a, b[..|b| - 1]) {
      SubsequenceElements(a, b[..|b| - 1], r);
    }
  }

  /** What is queued or in hand was admitted. */
  lemma InsideWasAdmitted(s: State, r: Record)
    requires InOrder(s) && (r in s.queue || r in InHand(s))
    ensures r in s.admitted
  {
    if r in InHand(s) {
      SubsequenceElements(Given(s), Taken(s.admitted, s.queue), r);
    }
  }

  lemma NewlyRefused(s: State, a: Action, r: Record)
    requires Protocol(s) && r in Next(s, a).refused
    ensures r in s.refused || TurnsAway(s, a, r)
  {
  }

  lemma NewlyDiscarded(s: State, a: Action, r: Record)
    requires WorkerOk(s) && r in Next(s, a).discarded
    ensures r in s.discarded || r in s.refused || r in s.queue || r in InHand(s)
  {
  }

  lemma AdmittedStays(s: State, a: Action, r: Record)
    requires r in s.admitted
    ensures r in Next(s, a).admitted
  {
  }

  lemma LongerRun(s: State, actions: seq<Action>, r: Record)
    requires actions != []
    ensures WasTurnedAway(s, actions[..|actions| - 1], r) ==> WasTurnedAway(s, actions, r)
    ensures TurnsAway(Run(s, actions[..|actions| - 1]), actions[|actions| - 1], r) ==> WasTurnedAway(s, actions, r)
  {
    var before := actions[..|actions| - 1];
    if WasTurnedAway(s, before, r) {
      var i :| 0 <= i < |before| && TurnsAway(Run(s, before[..i]), before[i], r);
      assert before[..i] == actions[..i] && before[i] == actions[i];
    }
  }

  /**
   In every interleaving, a record that was refused, or discarded without ever being admitted, met a closed writer or
   a full queue at its own Enqueue call.
   */
  lemma {:induction false} TurnedAwayOnlyWhenClosedOrFull(capacity: nat, batchSize: nat, actions: seq<Action>, r: Record)
    requires batchSize > 0
    ensures var s := Run(New(capacity, batchSize), actions);
            r in s.refused || (r in s.discarded && r !in s.admitted) ==> WasTurnedAway(New(capacity, batchSize), actions, r)
  {
    if actions != [] {
      var s0 := New(capacity, batchSize);
      var before, a := Run(s0, actions[..|actions| - 1]), actions[|actions| - 1];
      TurnedAwayOnlyWhenClosedOrFull(capacity, batchSize, actions[..|actions| - 1], r);
      RunProtocol(capacity, batchSize, actions[..|actions| - 1]);
      LongerRun(s0, actions, r);
      if r in Next(before, a).refused {
        NewlyRefused(before, a, r);
      } else if r in Next(before, a).discarded && r !in Next(before, a).admitted {
        DiscardedUnadmitted(before, a, r);
      }
    }
  }

  lemma DiscardedUnadmitted(s: State, a: Action, r: Record)
    requires WorkerOk(s) && InOrder(s) && r in Next(s, a).discarded && r !in Next(s, a).admitted
    ensures r in s.refused || (r in s.discarded && r !in s.admitted)
  {
    NewlyDiscarded(s, a, r);
    if r in s.admitted {
      AdmittedStays(s, a, r);
    } else if r in s.queue || r in InHand(s) {
      InsideWasAdmitted(s, r);
    }
  }

  // ---------- shutting down ----------

  function WorkerRank(w: Worker): nat {
    match w
    case Exited => 0
    case Draining => 1
    case Selecting => 2
    case Cleaning(_) => 3
    case Writing(_) => 4
    case Collecting => 5
    case Received => 6
  }

  function CloserRank(c: Closer): nat {
    match c
    case Returned => 0
    case Grace => 1
    case DrainingQueue => 2
    case AwaitingWorker => 3
    case InCritical => 4
    case NotClosing => 5
  }

  /** Steps that are left once the channel is closed. */
  function StepsLeft(s: State): nat {
    8 * |s.queue| + WorkerRank(s.worker) + CloserRank(s.closer)
  }

  predicate OfEnqueue(a: Action) {
    a.EnqueueLock? || a.EnqueueCheck? || a.EnqueueSend? || a.EnqueueDiscard?
  }

  /**
   Once the channel is closed, Enqueue calls add no work, every step of the worker or of Close uses some up, and
   one of them can always be taken until both have finished: shutting down takes a bounded number of steps.
   */
  lemma ShutdownIsBounded(capacity: nat, batchSize: nat, actions: seq<Action>, a: Action)
    requires batchSize > 0 && Run(New(capacity, batchSize), actions).closed
    ensures var s := Run(New(capacity, batchSize), actions);
            && (Enabled(s, a) && OfEnqueue(a) ==> StepsLeft(Next(s, a)) == StepsLeft(s))
            && (Enabled(s, a) && !OfEnqueue(a) ==> StepsLeft(Next(s, a)) < StepsLeft(s))
            && ((s.worker.Exited? && s.closer.Returned?) || exists b :: Enabled(s, b) && !OfEnqueue(b))
  {
    var s := Run(New(capacity, batchSize), actions);
    RunProtocol(capacity, batchSize, actions);
    if Enabled(s, a) {
      ClosedStep(s, a);
    }
    SomethingEnabled(s);
  }

  lemma ClosedStep(s: State, a: Action)
    requires Protocol(s) && WorkerOk(s) && s.closed && Enabled(s, a)
    ensures if OfEnqueue(a) then StepsLeft(Next(s, a)) == StepsLeft(s) else StepsLeft(Next(s, a)) < StepsLeft(s)
  {
  }

  lemma SomethingEnabled(s: State)
    requires Protocol(s) && WorkerOk(s) && s.closed
    ensures (s.worker.Exited? && s.closer.Returned?) || exists b :: Enabled(s, b) && !OfEnqueue(b)
  {
    match s.worker
    case Selecting => assert Enabled(s, if s.queue == [] then WorkerRunDry else WorkerReceive);
    case Received => assert Enabled(s, WorkerCheck);
    case Collecting => assert Enabled(s, WorkerStopCollecting);
    case Writing(_) => assert Enabled(s, WorkerWrite);
    case Cleaning(_) => assert Enabled(s, WorkerCleanup);
    case Draining => assert Enabled(s, if s.queue == [] then WorkerDrainEnd else WorkerDrainOne);
    case Exited =>
      match s.closer
      case AwaitingWorker => assert Enabled(s, CloseJoin);
      case DrainingQueue => assert Enabled(s, CloseDrainEnd);
      case Grace => assert Enabled(s, CloseReturn);
      case _ =>
  }
}
