/**
 A retention pass beside the rest of the service. Its loops run one transaction per bucket, and
 between two of them batches may be recorded and keys created and deleted. A loop ends because its
 search position moves towards the cutoff, whatever is recorded meanwhile; and if nothing older than
 the raw cutoff is recorded meanwhile, the pass drains all three tables.
 */
module MaintenanceBeside {
  import opened GoTime
  import opened Basics
  import opened UsageTables
  import opened UsageLedger
  import opened UsageMaintenance
  import opened SweepLoop

  /** The three loops, by the table they look into. */
  datatype Tier = RawTier | HourlyTier | DailyTier

  /** What others do before a turn of a loop looks for its bucket. */
  type Others = (Tier, nat) -> seq<Op>

  function TimesOf(tier: Tier, l: Ledger): set<int> {
    match tier
    case RawTier => Times(l.raw)
    case HourlyTier => Starts(l.hourly)
    case DailyTier => Starts(l.daily)
  }

  function Width(tier: Tier): int {
    if tier.RawTier? then HOUR else DAY
  }

  function BucketOf(tier: Tier, t: int): (b: int)
    ensures b <= t < b + Width(tier) && b % Width(tier) == 0 && (t >= 0 ==> b >= 0)
  {
    if tier.RawTier? then ToHour(t) else ToDay(t)
  }

  /** The transaction of one turn. */
  function TurnOp(tier: Tier, bucket: int): Op {
    match tier
    case RawTier => CompactHour(bucket)
    case HourlyTier => CompactDay(bucket)
    case DailyTier => DropDay(bucket)
  }

  function CutoffOf(tier: Tier, cut: Cutoffs): int {
    match tier
    case RawTier => cut.raw
    case HourlyTier => cut.hourly
    case DailyTier => cut.daily
  }

  /** What others may do: record, at times not before Go's zero time, and create and delete keys. */
  predicate Foreign(op: Op) {
    match op
    case Record(batch) => forall c :: c in batch ==> c.at >= 0
    case CreateKey(_) => true
    case DeleteKey(_) => true
    case _ => false
  }

  predicate NothingOld(op: Op, cutoff: int) {
    op.Record? ==> forall c :: c in op.batch ==> c.at >= cutoff
  }

  ghost predicate AllForeign(others: Others) {
    forall tier, i, op :: op in others(tier, i) ==> Foreign(op)
  }

  ghost predicate AllNew(others: Others, cutoff: int) {
    forall tier, i, op :: op in others(tier, i) ==> NothingOld(op, cutoff)
  }

  /** No row lies before Go's zero time. */
  ghost predicate AfterZero(l: Ledger) {
    forall tier, t :: t in TimesOf(tier, l) ==> t >= 0
  }

  // ---------- single steps ----------

  lemma ForeignTimes(l: Ledger, op: Op, tier: Tier, t: int)
    requires Foreign(op) && t in TimesOf(tier, Apply(l, op))
    ensures t in TimesOf(tier, l) || (tier.RawTier? && op.Record? && exists c :: c in op.batch && c.at == t)
  {
  }

  lemma ForeignAfterZero(l: Ledger, op: Op)
    requires AfterZero(l) && Foreign(op)
    ensures AfterZero(Apply(l, op))
  {
    forall tier, t | t in TimesOf(tier, Apply(l, op)) ensures t >= 0 {
      ForeignTimes(l, op, tier, t);
    }
  }

  /** A loop's transactions add rows to the next coarser table and to no other. */
  predicate Feeds(tier: Tier, other: Tier) {
    (tier.RawTier? && other.HourlyTier?) || (tier.HourlyTier? && other.DailyTier?)
  }

  lemma TurnTimes(l: Ledger, tier: Tier, bucket: int, other: Tier, t: int)
    requires t in TimesOf(other, Apply(l, TurnOp(tier, bucket)))
    ensures t in TimesOf(other, l) || (t == bucket && Feeds(tier, other))
    ensures tier == other ==> !(bucket <= t < bucket + Width(tier))
  {
  }

  lemma TurnAfterZero(l: Ledger, tier: Tier, bucket: int)
    requires AfterZero(l) && bucket >= 0
    ensures AfterZero(Apply(l, TurnOp(tier, bucket)))
  {
    forall other, t | t in TimesOf(other, Apply(l, TurnOp(tier, bucket))) ensures t >= 0 {
      TurnTimes(l, tier, bucket, other, t);
    }
  }

  lemma {:induction false} FollowAfterZero(l: Ledger, ops: seq<Op>)
    requires AfterZero(l) && forall op :: op in ops ==> Foreign(op)
    ensures AfterZero(Follow(l, ops))
    decreases |ops|
  {
    if ops != [] {
      ForeignAfterZero(l, ops[0]);
      FollowAfterZero(Apply(l, ops[0]), ops[1..]);
    }
  }

  // ---------- the loops ----------

  /** One of the three loops, with what others do before each of its turns. */
  ghost function LoopOf(tier: Tier, others: Others): Loop<Ledger> {
    Loop((l: Ledger) => TimesOf(tier, l),
         (t: int) => BucketOf(tier, t),
         Width(tier),
         (l: Ledger, bucket: int) => Apply(l, TurnOp(tier, bucket)),
         (l: Ledger, i: nat) => Follow(l, others(tier, i)))
  }

  ghost function RowsAfterZero(): Ledger -> bool {
    (l: Ledger) => AfterZero(l)
  }

  lemma LoopSound(tier: Tier, others: Others)
    requires AllForeign(others)
    ensures Sound(LoopOf(tier, others), RowsAfterZero())
  {
    var loop, ok := LoopOf(tier, others), RowsAfterZero();
    forall l, i | ok(l) ensures ok(loop.others(l, i)) {
      FollowAfterZero(l, others(tier, i));
    }
    forall l, t | ok(l) && t in loop.times(l) ensures ok(loop.take(l, loop.bucket(t))) {
      TurnAfterZero(l, tier, BucketOf(tier, t));
    }
  }

  // ---------- what a loop drains ----------

  ghost predicate DrainedOf(tier: Tier, l: Ledger, cutoff: int) {
    forall t :: t in TimesOf(tier, l) ==> cutoff <= t
  }

  /** What others record is never before this table's cutoff. */
  predicate NoOldRows(tier: Tier, cutoff: int, op: Op) {
    tier.RawTier? ==> NothingOld(op, cutoff)
  }

  lemma {:induction false} OthersAddNothingOld(tier: Tier, l: Ledger, ops: seq<Op>, cutoff: int, t: int)
    requires forall op :: op in ops ==> Foreign(op) && NoOldRows(tier, cutoff, op)
    requires t in TimesOf(tier, Follow(l, ops)) && t < cutoff
    ensures t in TimesOf(tier, l)
    decreases |ops|
  {
    if ops != [] {
      OthersAddNothingOld(tier, Apply(l, ops[0]), ops[1..], cutoff, t);
      ForeignTimes(l, ops[0], tier, t);
    }
  }

  lemma LoopClears(tier: Tier, others: Others, cutoff: int)
    requires AllForeign(others) && (tier.RawTier? ==> AllNew(others, cutoff))
    ensures Clears(LoopOf(tier, others), cutoff)
  {
    var loop := LoopOf(tier, others);
    forall l, b, t | t in loop.times(loop.take(l, b)) ensures t in loop.times(l) && !(b <= t < b + loop.width) {
      TurnTimes(l, tier, b, tier, t);
    }
    forall l, i, t | t in loop.times(loop.others(l, i)) && t < cutoff ensures t in loop.times(l) {
      OthersAddNothingOld(tier, l, others(tier, i), cutoff, t);
    }
  }

  ghost function IsDrained(tier: Tier, cutoff: int): Ledger -> bool {
    (l: Ledger) => DrainedOf(tier, l, cutoff)
  }

  lemma OthersKeepDrained(tier: Tier, l: Ledger, ops: seq<Op>, cutoff: int)
    requires DrainedOf(tier, l, cutoff) && forall op :: op in ops ==> Foreign(op) && NoOldRows(tier, cutoff, op)
    ensures DrainedOf(tier, Follow(l, ops), cutoff)
  {
    forall t | t in TimesOf(tier, Follow(l, ops)) && t < cutoff ensures t in TimesOf(tier, l) {
      OthersAddNothingOld(tier, l, ops, cutoff, t);
    }
  }

  lemma TurnKeepsDrained(tier: Tier, other: Tier, l: Ledger, bucket: int, cutoff: int)
    requires DrainedOf(other, l, cutoff) && !Feeds(tier, other)
    ensures DrainedOf(other, Apply(l, TurnOp(tier, bucket)), cutoff)
  {
    forall t | t in TimesOf(other, Apply(l, TurnOp(tier, bucket))) ensures cutoff <= t {
      TurnTimes(l, tier, bucket, other, t);
    }
  }

  /** A loop leaves drained what an earlier loop has drained. */
  lemma LoopKeepsDrained(tier: Tier, other: Tier, others: Others, cutoff: int)
    requires AllForeign(others) && !Feeds(tier, other) && (other.RawTier? ==> AllNew(others, cutoff))
    ensures Kept(LoopOf(tier, others), IsDrained(other, cutoff))
  {
    var loop, p := LoopOf(tier, others), IsDrained(other, cutoff);
    forall l, i | p(l) ensures p(loop.others(l, i)) {
      OthersKeepDrained(other, l, others(tier, i), cutoff);
    }
    forall l, t | p(l) && t in loop.times(l) ensures p(loop.take(l, loop.bucket(t))) {
      TurnKeepsDrained(tier, other, l, BucketOf(tier, t), cutoff);
    }
  }

  // ---------- a pass ----------

  /** The ledger when a loop of a pass ends. */
  ghost function AfterLoop(tier: Tier, l: Ledger, cut: Cutoffs, others: Others): Ledger
    requires AfterZero(l) && AllForeign(others)
  {
    LoopSound(tier, others);
    End(LoopOf(tier, others), RowsAfterZero(), l, 0, CutoffOf(tier, cut), 0)
  }

  lemma AfterLoopAfterZero(tier: Tier, l: Ledger, cut: Cutoffs, others: Others)
    requires AfterZero(l) && AllForeign(others)
    ensures AfterZero(AfterLoop(tier, l, cut, others))
  {
    var ok := RowsAfterZero();
    LoopSound(tier, others);
    EndKeeps(LoopOf(tier, others), ok, ok, l, 0, CutoffOf(tier, cut), 0);
    assert ok(AfterLoop(tier, l, cut, others));
  }

  lemma AfterLoopDrained(tier: Tier, l: Ledger, cut: Cutoffs, others: Others)
    requires AfterZero(l) && AllForeign(others) && AllNew(others, cut.raw)
    ensures DrainedOf(tier, AfterLoop(tier, l, cut, others), CutoffOf(tier, cut))
  {
    var loop := LoopOf(tier, others);
    LoopSound(tier, others);
    LoopClears(tier, others, CutoffOf(tier, cut));
    EndDrains(loop, RowsAfterZero(), l, 0, CutoffOf(tier, cut), 0);
    var end := AfterLoop(tier, l, cut, others);
    assert loop.times(end) == TimesOf(tier, end);
  }

  lemma AfterLoopStillDrained(tier: Tier, other: Tier, l: Ledger, cut: Cutoffs, others: Others)
    requires AfterZero(l) && AllForeign(others) && AllNew(others, cut.raw)
    requires !Feeds(tier, other) && DrainedOf(other, l, CutoffOf(other, cut))
    ensures DrainedOf(other, AfterLoop(tier, l, cut, others), CutoffOf(other, cut))
  {
    var p := IsDrained(other, CutoffOf(other, cut));
    LoopSound(tier, others);
    LoopKeepsDrained(tier, other, others, CutoffOf(other, cut));
    assert p(l);
    EndKeeps(LoopOf(tier, others), RowsAfterZero(), p, l, 0, CutoffOf(tier, cut), 0);
    assert p(AfterLoop(tier, l, cut, others));
  }

  lemma AllDrained(l: Ledger, cut: Cutoffs)
    requires DrainedOf(RawTier, l, cut.raw) && DrainedOf(HourlyTier, l, cut.hourly) && DrainedOf(DailyTier, l, cut.daily)
    ensures Drained(l, cut)
  {
    forall c | c in l.raw ensures cut.raw <= c.at {
      assert c.at in TimesOf(RawTier, l);
    }
    forall k | k in l.hourly ensures cut.hourly <= k.start {
      assert k.start in TimesOf(HourlyTier, l);
    }
    forall k | k in l.daily ensures cut.daily <= k.start {
      assert k.start in TimesOf(DailyTier, l);
    }
  }

  /**
   A whole pass, beside others that record nothing before the raw cutoff: its loops end, and afterwards no raw row is
   before the raw cutoff, no hourly row before the hourly one and no daily row before the daily one.
   */
  lemma PassBesideDrains(l: Ledger, cut: Cutoffs, others: Others)
    requires AfterZero(l) && AllForeign(others) && AllNew(others, cut.raw)
    ensures AfterZero(AfterLoop(RawTier, l, cut, others))
    ensures AfterZero(AfterLoop(HourlyTier, AfterLoop(RawTier, l, cut, others), cut, others))
    ensures Drained(AfterLoop(DailyTier, AfterLoop(HourlyTier, AfterLoop(RawTier, l, cut, others), cut, others), cut, others), cut)
  {
    AfterLoopAfterZero(RawTier, l, cut, others);
    AfterLoopDrained(RawTier, l, cut, others);
    var l1 := AfterLoop(RawTier, l, cut, others);
    AfterLoopAfterZero(HourlyTier, l1, cut, others);
    AfterLoopDrained(HourlyTier, l1, cut, others);
    AfterLoopStillDrained(HourlyTier, RawTier, l1, cut, others);
    var l2 := AfterLoop(HourlyTier, l1, cut, others);
    AfterLoopDrained(DailyTier, l2, cut, others);
    AfterLoopStillDrained(DailyTier, RawTier, l2, cut, others);
    AfterLoopStillDrained(DailyTier, HourlyTier, l2, cut, others);
    AllDrained(AfterLoop(DailyTier, l2, cut, others), cut);
  }

  // ---------- a loop is a run ----------

  /** The ledger can be had from the first one by a run of well-formed steps. */
  ghost predicate Reachable(from: Ledger, l: Ledger) {
    exists ops :: AllWellFormed(ops) && l == Run(from, ops)
  }

  ghost function ReachableFrom(from: Ledger): Ledger -> bool {
    (l: Ledger) => Reachable(from, l)
  }

  lemma {:induction false} RunConcat(l: Ledger, a: seq<Op>, b: seq<Op>)
    ensures Run(l, a + b) == Run(Run(l, a), b)
  {
    if b == [] {
      assert a + b == a;
    } else {
      assert (a + b)[..|a + b| - 1] == a + b[..|b| - 1];
      RunConcat(l, a, b[..|b| - 1]);
    }
  }

  lemma StillReachable(from: Ledger, l: Ledger, more: seq<Op>)
    requires Reachable(from, l) && AllWellFormed(more)
    ensures Reachable(from, Run(l, more))
  {
    var ops :| AllWellFormed(ops) && l == Run(from, ops);
    RunConcat(from, ops, more);
    assert AllWellFormed(ops + more);
  }

  lemma OneStep(l: Ledger, op: Op)
    ensures Run(l, [op]) == Apply(l, op)
  {
    assert [op][..0] == [];
    assert Run(l, []) == l;
  }

  lemma TurnWellFormed(tier: Tier, t: int)
    ensures WellFormed(TurnOp(tier, BucketOf(tier, t)))
  {
  }

  lemma LoopKeepsReachable(tier: Tier, from: Ledger, others: Others)
    requires AllForeign(others)
    ensures Kept(LoopOf(tier, others), ReachableFrom(from))
  {
    var loop, p := LoopOf(tier, others), ReachableFrom(from);
    forall l, i | p(l) ensures p(loop.others(l, i)) {
      FollowIsRun(l, others(tier, i));
      forall op | op in others(tier, i) ensures WellFormed(op) {
        assert Foreign(op);
      }
      StillReachable(from, l, others(tier, i));
    }
    forall l, t | p(l) && t in loop.times(l) ensures p(loop.take(l, loop.bucket(t))) {
      var op := TurnOp(tier, BucketOf(tier, t));
      TurnWellFormed(tier, t);
      OneStep(l, op);
      StillReachable(from, l, [op]);
    }
  }

  /** Whatever others do, the end of a loop is reached by a run of well-formed steps, so what holds after every run holds there. */
  lemma LoopIsRun(tier: Tier, l: Ledger, cut: Cutoffs, others: Others)
    requires AfterZero(l) && AllForeign(others)
    ensures Reachable(l, AfterLoop(tier, l, cut, others))
  {
    var p := ReachableFrom(l);
    LoopSound(tier, others);
    LoopKeepsReachable(tier, l, others);
    assert Run(l, []) == l && AllWellFormed([]);
    assert p(l);
    EndKeeps(LoopOf(tier, others), RowsAfterZero(), p, l, 0, CutoffOf(tier, cut), 0);
    assert p(AfterLoop(tier, l, cut, others));
  }

  // ---------- a turn, for the object ----------

  /** What a pass has drained by the time a loop runs. */
  ghost predicate KeepsDrained(tier: Tier, l: Ledger, l': Ledger, cut: Cutoffs) {
    forall other: Tier :: !Feeds(tier, other) && DrainedOf(other, l, CutoffOf(other, cut)) ==> DrainedOf(other, l', CutoffOf(other, cut))
  }

  lemma OthersStep(tier: Tier, l: Ledger, l1: Ledger, searchStart: int, cut: Cutoffs, others: Others, turn: nat)
    requires AfterZero(l) && AllForeign(others) && AllNew(others, cut.raw) && l1 == Follow(l, others(tier, turn))
    requires SweptUpTo(TimesOf(tier, l), searchStart, CutoffOf(tier, cut))
    ensures AfterZero(l1) && SweptUpTo(TimesOf(tier, l1), searchStart, CutoffOf(tier, cut)) && KeepsDrained(tier, l, l1, cut)
    ensures Reachable(l, l1)
  {
    FollowAfterZero(l, others(tier, turn));
    forall t | t in TimesOf(tier, l1) && t < CutoffOf(tier, cut) ensures t in TimesOf(tier, l) {
      OthersAddNothingOld(tier, l, others(tier, turn), CutoffOf(tier, cut), t);
    }
    forall other: Tier | DrainedOf(other, l, CutoffOf(other, cut)) ensures DrainedOf(other, l1, CutoffOf(other, cut)) {
      OthersKeepDrained(other, l, others(tier, turn), CutoffOf(other, cut));
    }
    ForeignReachable(l, others(tier, turn));
  }

  lemma ForeignReachable(l: Ledger, ops: seq<Op>)
    requires forall op :: op in ops ==> Foreign(op)
    ensures Reachable(l, Follow(l, ops))
  {
    FollowIsRun(l, ops);
    assert AllWellFormed(ops);
  }

  lemma LastTurn(tier: Tier, l: Ledger, searchStart: int, cutoff: int)
    requires First(TimesOf(tier, l), searchStart, cutoff).None? && SweptUpTo(TimesOf(tier, l), searchStart, cutoff)
    ensures DrainedOf(tier, l, cutoff)
  {
    forall t | t in TimesOf(tier, l) ensures cutoff <= t {
      assert !Candidate(t, searchStart, cutoff);
    }
  }

  lemma TurnStep(tier: Tier, l: Ledger, l2: Ledger, searchStart: int, cut: Cutoffs, t: int)
    requires AfterZero(l) && searchStart >= 0 && SweptUpTo(TimesOf(tier, l), searchStart, CutoffOf(tier, cut))
    requires First(TimesOf(tier, l), searchStart, CutoffOf(tier, cut)) == Some(t) && l2 == Apply(l, TurnOp(tier, BucketOf(tier, t)))
    ensures searchStart <= t < CutoffOf(tier, cut)
    ensures AfterZero(l2) && SweptUpTo(TimesOf(tier, l2), BucketOf(tier, t) + Width(tier), CutoffOf(tier, cut))
    ensures KeepsDrained(tier, l, l2, cut) && Reachable(l, l2)
  {
    var bucket := BucketOf(tier, t);
    TurnAfterZero(l, tier, bucket);
    forall u | u in TimesOf(tier, l2) ensures u in TimesOf(tier, l) && !(bucket <= u < bucket + Width(tier)) {
      TurnTimes(l, tier, bucket, tier, u);
    }
    TurnSweeps(TimesOf(tier, l), TimesOf(tier, l2), searchStart, CutoffOf(tier, cut), t, bucket, Width(tier));
    forall other: Tier | !Feeds(tier, other) && DrainedOf(other, l, CutoffOf(other, cut)) ensures DrainedOf(other, l2, CutoffOf(other, cut)) {
      TurnKeepsDrained(tier, other, l, bucket, CutoffOf(other, cut));
    }
    TurnWellFormed(tier, t);
    OneStep(l, TurnOp(tier, bucket));
    assert AllWellFormed([TurnOp(tier, bucket)]);
  }

  lemma ReachableOn(a: Ledger, b: Ledger, c: Ledger)
    requires Reachable(a, b) && Reachable(b, c)
    ensures Reachable(a, c)
  {
    var more :| AllWellFormed(more) && c == Run(b, more);
    StillReachable(a, b, more);
  }
}
