/**
 The eight traffic buckets of a statistics response. Bucket borders are laid out with ceiling
 division, while the SQL that fills them computes a bucket index with a truncating division and
 a clamp; the lemmas say that the two agree.
 */
module TrafficBuckets {
  import opened Basics

  const BUCKETS: int := 8

  /** Integer division as Go and SQLite do it: the quotient is truncated toward zero. */
  function TruncDiv(a: int, b: int): int
    requires b > 0
  {
    if a >= 0 then a / b else -((-a) / b)
  }

  function DivideCeiling(numerator: int, denominator: int): (q: int)
    requires numerator >= 0 && denominator > 0
    ensures denominator * (q - 1) < numerator <= denominator * q
  {
    var q := TruncDiv(numerator + denominator - 1, denominator);
    assert denominator * q + (numerator + denominator - 1) % denominator == numerator + denominator - 1;
    q
  }

  /** The offset, in seconds from the range start, at which bucket i starts. */
  function Border(i: int, duration: int): int
    requires 0 <= i <= BUCKETS && duration > 0
  {
    DivideCeiling(duration * i, BUCKETS)
  }

  predicate Inside(offset: int, i: int, duration: int)
    requires 0 <= i < BUCKETS && duration > 0
  {
    Border(i, duration) <= offset < Border(i + 1, duration)
  }

  /** MIN(7, MAX(0, ((t - start) * 8) / duration)) for a row t - start seconds into the range. */
  function BucketIndex(offset: int, duration: int): (i: int)
    requires duration > 0
    ensures 0 <= i < BUCKETS
  {
    var raw := TruncDiv(offset * BUCKETS, duration);
    var low := if raw > 0 then raw else 0;
    if low < 7 then low else 7
  }

  /** A row inside the range gets index i exactly when it lies between the borders of bucket i. */
  lemma IndexIsBucket(offset: int, duration: int, i: int)
    requires 0 <= offset < duration && 0 <= i < BUCKETS
    ensures BucketIndex(offset, duration) == i <==> Inside(offset, i, duration)
  {
    var q := (offset * 8) / duration;
    QuotientBounds(offset * 8, duration, q);
    QuotientBounds(offset * 8, duration, i);
    ScaleMonotone(duration, 8, q);
    assert BucketIndex(offset, duration) == q;
    assert duration * i <= offset * 8 <==> Border(i, duration) <= offset;
    assert duration * (i + 1) <= offset * 8 <==> Border(i + 1, duration) <= offset;
  }

  /** The borders cover the range from 0 to the whole duration, in order. */
  lemma BordersCover(duration: int, i: int)
    requires duration > 0 && 0 <= i < BUCKETS
    ensures Border(0, duration) == 0 && Border(BUCKETS, duration) == duration
    ensures Border(i, duration) <= Border(i + 1, duration)
  {
  }

  /** Every instant of the range lies in exactly one bucket. */
  lemma BucketsPartition(offset: int, duration: int)
    requires 0 <= offset < duration
    ensures exists i :: 0 <= i < BUCKETS && Inside(offset, i, duration)
    ensures forall i, j | 0 <= i < BUCKETS && 0 <= j < BUCKETS ::
              Inside(offset, i, duration) && Inside(offset, j, duration) ==> i == j
  {
    IndexIsBucket(offset, duration, BucketIndex(offset, duration));
    forall i | 0 <= i < BUCKETS && Inside(offset, i, duration)
      ensures i == BucketIndex(offset, duration)
    {
      IndexIsBucket(offset, duration, i);
    }
  }

  /** Rows selected before the range fall into the first bucket, rows at its end into the last. */
  lemma ClampSendsToEnds(offset: int, duration: int)
    requires duration > 0
    ensures offset < 0 ==> BucketIndex(offset, duration) == 0
    ensures offset >= duration ==> BucketIndex(offset, duration) == 7
  {
    if offset >= duration {
      var q := (offset * 8) / duration;
      QuotientBounds(offset * 8, duration, q);
      ScaleMonotone(duration, q + 1, 8);
    }
  }

  // ---------- building and filling the buckets ----------

  datatype Bucket = Bucket(start: int, end: int, calls: int)

  /** createEmptyUsageTrafficBuckets */
  method CreateEmptyBuckets(rangeStart: int, rangeEnd: int) returns (buckets: seq<Bucket>)
    requires rangeStart < rangeEnd
    ensures |buckets| == BUCKETS
    ensures forall i :: 0 <= i < BUCKETS ==>
              buckets[i] == Bucket(rangeStart + Border(i, rangeEnd - rangeStart),
                                   rangeStart + Border(i + 1, rangeEnd - rangeStart), 0)
    ensures buckets[0].start == rangeStart && buckets[BUCKETS - 1].end == rangeEnd
    ensures forall i :: 0 < i < BUCKETS ==> buckets[i].start == buckets[i - 1].end
  {
    var duration := rangeEnd - rangeStart;
    buckets := [];
    for bucketIndex := 0 to BUCKETS
      invariant |buckets| == bucketIndex
      invariant forall i :: 0 <= i < bucketIndex ==>
                  buckets[i] == Bucket(rangeStart + Border(i, duration), rangeStart + Border(i + 1, duration), 0)
    {
      var startOffset := DivideCeiling(duration * bucketIndex, BUCKETS);
      var endOffset := DivideCeiling(duration * (bucketIndex + 1), BUCKETS);
      buckets := buckets + [Bucket(rangeStart + startOffset, rangeStart + endOffset, 0)];
    }
    BordersCover(duration, 0);
    buckets := buckets[BUCKETS - 1 := buckets[BUCKETS - 1].(end := rangeEnd)];
  }

  /** A selected row of one usage table: its timestamp and the calls it stands for. */
  datatype Sample = Sample(at: int, calls: int)

  function InBucket(samples: seq<Sample>, n: nat, start: int, duration: int, i: int): int
    requires n <= |samples| && duration > 0
  {
    if n == 0 then 0
    else
      var s := samples[n - 1];
      InBucket(samples, n - 1, start, duration, i)
      + if BucketIndex(s.at - start, duration) == i then s.calls else 0
  }

  function CallsOf(samples: seq<Sample>, n: nat): int
    requires n <= |samples|
  {
    if n == 0 then 0 else CallsOf(samples, n - 1) + samples[n - 1].calls
  }

  /** Grouping by bucket index loses no call. */
  lemma {:induction false} BucketsSumToSelected(samples: seq<Sample>, n: nat, start: int, duration: int)
    requires n <= |samples| && duration > 0
    ensures InBucket(samples, n, start, duration, 0) + InBucket(samples, n, start, duration, 1)
            + InBucket(samples, n, start, duration, 2) + InBucket(samples, n, start, duration, 3)
            + InBucket(samples, n, start, duration, 4) + InBucket(samples, n, start, duration, 5)
            + InBucket(samples, n, start, duration, 6) + InBucket(samples, n, start, duration, 7)
            == CallsOf(samples, n)
  {
    if n != 0 {
      BucketsSumToSelected(samples, n - 1, start, duration);
      var i := BucketIndex(samples[n - 1].at - start, duration);
      assert i == 0 || i == 1 || i == 2 || i == 3 || i == 4 || i == 5 || i == 6 || i == 7;
    }
  }

  /** addUsageTrafficSource: one source adds to each bucket exactly its rows with that index. */
  method AddTrafficSource(buckets: seq<Bucket>, samples: seq<Sample>, duration: int) returns (filled: seq<Bucket>)
    requires |buckets| == BUCKETS && duration > 0
    ensures |filled| == BUCKETS
    ensures forall i :: 0 <= i < BUCKETS ==>
              filled[i] == buckets[i].(calls := buckets[i].calls
                                                + InBucket(samples, |samples|, buckets[0].start, duration, i))
  {
    filled := buckets;
    for n := 0 to |samples|
      invariant |filled| == BUCKETS
      invariant forall i :: 0 <= i < BUCKETS ==>
                  filled[i] == buckets[i].(calls := buckets[i].calls
                                                    + InBucket(samples, n, buckets[0].start, duration, i))
    {
      var i := BucketIndex(samples[n].at - buckets[0].start, duration);
      filled := filled[i := filled[i].(calls := filled[i].calls + samples[n].calls)];
    }
  }
}
