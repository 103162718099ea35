/** Streaks: the latest run of instants each of which came less than a window after the one before. */
module Streaks {
  predicate Close(times: seq<int>, window: int, i: nat)
    requires 0 < i < |times|
  {
    times[i] - times[i - 1] < window
  }

  /** The instants from position k on are the last streak. */
  predicate IsStreak(times: seq<int>, window: int, k: nat) {
    && k < |times|
    && (k == 0 || !Close(times, window, k))
    && (forall i :: k < i < |times| ==> Close(times, window, i))
  }

  /** There is only one last streak. */
  lemma StreakUnique(times: seq<int>, window: int, j: nat, k: nat)
    requires IsStreak(times, window, j) && IsStreak(times, window, k)
    ensures j == k
  {
  }

  /** One more instant extends the streak, or starts a new one. */
  lemma StreakGrows(times: seq<int>, window: int, k: nat, t: int)
    requires IsStreak(times, window, k)
    ensures IsStreak(times + [t], window, if t - times[|times| - 1] >= window then |times| else k)
  {
    var longer := times + [t];
    forall i | 0 < i < |times| ensures Close(longer, window, i) <==> Close(times, window, i) {
    }
  }
}
