/**
 A loop that looks up the earliest instant from its search position on, before a cutoff, handles the
 bucket that contains it, and moves the position past that bucket; between turns others act on the
 same state. What a turn and the others do is left open here: when such a loop ends, what it has
 cleared by then, and what it keeps.
 */
module SweepLoop {
  import opened Basics
  import opened UsageMaintenance

  datatype Loop<!S> = Loop(
    times: S -> set<int>,
    bucket: int -> int,
    width: int,
    take: (S, int) -> S,
    others: (S, nat) -> S)

  /** A property that every turn and everything the others do keeps. */
  ghost predicate Kept<S(!new)>(loop: Loop<S>, p: S -> bool) {
    && (forall s, i :: p(s) ==> p(loop.others(s, i)))
    && (forall s, t :: p(s) && t in loop.times(s) ==> p(loop.take(s, loop.bucket(t))))
  }

  /** States hold no instant before zero, and a bucket holds the instants it is for. */
  ghost predicate Sound<S(!new)>(loop: Loop<S>, ok: S -> bool) {
    && Kept(loop, ok)
    && (forall s, t :: ok(s) && t in loop.times(s) ==> t >= 0)
    && (forall t :: loop.bucket(t) <= t < loop.bucket(t) + loop.width)
  }

  /** The state when the loop ends. What brings it to an end is that the search position moves towards the cutoff. */
  ghost function End<S(!new)>(loop: Loop<S>, ok: S -> bool, s: S, searchStart: int, cutoff: int, turn: nat): S
    requires Sound(loop, ok) && ok(s) && searchStart >= 0
    decreases if cutoff > searchStart then cutoff - searchStart else 0
  {
    var s1 := loop.others(s, turn);
    match First(loop.times(s1), searchStart, cutoff)
    case None => s1
    case Some(t) => End(loop, ok, loop.take(s1, loop.bucket(t)), loop.bucket(t) + loop.width, cutoff, turn + 1)
  }

  /** What a loop and the others keep holds at its end. */
  lemma {:induction false} EndKeeps<S(!new)>(loop: Loop<S>, ok: S -> bool, p: S -> bool, s: S, searchStart: int, cutoff: int, turn: nat)
    requires Sound(loop, ok) && ok(s) && searchStart >= 0 && Kept(loop, p) && p(s)
    ensures p(End(loop, ok, s, searchStart, cutoff, turn))
    decreases if cutoff > searchStart then cutoff - searchStart else 0
  {
    var s1 := loop.others(s, turn);
    match First(loop.times(s1), searchStart, cutoff)
    case None =>
    case Some(t) =>
      EndKeeps(loop, ok, p, loop.take(s1, loop.bucket(t)), loop.bucket(t) + loop.width, cutoff, turn + 1);
  }

  /** A turn clears its bucket and adds nothing; the others add nothing before the cutoff. */
  ghost predicate Clears<S(!new)>(loop: Loop<S>, cutoff: int) {
    && (forall s, b, t :: t in loop.times(loop.take(s, b)) ==> t in loop.times(s) && !(b <= t < b + loop.width))
    && (forall s, i, t :: t in loop.times(loop.others(s, i)) && t < cutoff ==> t in loop.times(s))
  }

  /** Nothing before the cutoff lies behind the search position. */
  predicate SweptUpTo(times: set<int>, searchStart: int, cutoff: int) {
    forall t :: t in times && t < cutoff ==> searchStart <= t
  }

  lemma TurnSweeps(times: set<int>, left: set<int>, searchStart: int, cutoff: int, t: int, bucket: int, width: int)
    requires First(times, searchStart, cutoff) == Some(t) && SweptUpTo(times, searchStart, cutoff) && bucket <= t < bucket + width
    requires forall u :: u in left ==> u in times && !(bucket <= u < bucket + width)
    ensures SweptUpTo(left, bucket + width, cutoff)
  {
    forall u | u in left && u < cutoff ensures bucket + width <= u {
      assert Candidate(u, searchStart, cutoff);
    }
  }

  /** A loop whose others add nothing old ends with nothing before the cutoff. */
  lemma {:induction false} EndDrains<S(!new)>(loop: Loop<S>, ok: S -> bool, s: S, searchStart: int, cutoff: int, turn: nat)
    requires Sound(loop, ok) && ok(s) && searchStart >= 0 && Clears(loop, cutoff) && SweptUpTo(loop.times(s), searchStart, cutoff)
    ensures forall t :: t in loop.times(End(loop, ok, s, searchStart, cutoff, turn)) ==> cutoff <= t
    decreases if cutoff > searchStart then cutoff - searchStart else 0
  {
    var s1 := loop.others(s, turn);
    match First(loop.times(s1), searchStart, cutoff)
    case None =>
      forall t | t in loop.times(s1) ensures cutoff <= t {
        assert !Candidate(t, searchStart, cutoff);
      }
    case Some(t) =>
      var s2 := loop.take(s1, loop.bucket(t));
      TurnSweeps(loop.times(s1), loop.times(s2), searchStart, cutoff, t, loop.bucket(t), loop.width);
      EndDrains(loop, ok, s2, loop.bucket(t) + loop.width, cutoff, turn + 1);
  }
}
