/** The 64-bit arithmetic that cuts a window into buckets. */
module BucketTimes {
  import opened Timeline

  const TWO_64: int := 0x1_0000_0000_0000_0000

  type U64 = x: int | 0 <= x < TWO_64

  function Unsigned(t: Timestamp): U64 {
    if t >= 0 then t else t + TWO_64
  }

  function WrappingSub(a: U64, b: U64): U64 {
    if a >= b then a - b else a - b + TWO_64
  }

  function WrappingMul(a: U64, b: U64): U64 {
    a * b % TWO_64
  }

  /** Unsigned subtraction of the two bit patterns. */
  function Distance(from: Timestamp, to: Timestamp): U64 {
    WrappingSub(Unsigned(to), Unsigned(from))
  }

  lemma DistanceIs(from: Timestamp, to: Timestamp)
    requires from <= to
    ensures Distance(from, to) == to - from
  {
  }

  function AddTimestamp(value: Timestamp, offset: Timestamp): (r: Option<Timestamp>)
    ensures r == if TIMESTAMP_MIN <= value + offset <= TIMESTAMP_MAX then Some(value + offset) else None
  {
    if (offset > 0 && value > TIMESTAMP_MAX - offset) || (offset < 0 && value < TIMESTAMP_MIN - offset) then None
    else Some(value + offset)
  }

  /** Succeeds exactly when the mathematical sum is a timestamp, and is that sum. */
  function AddNonNegativeTimestampOffset(value: Timestamp, offset: U64): (r: Option<Timestamp>)
    ensures r == if value + offset <= TIMESTAMP_MAX then Some(value + offset) else None
  {
    if value >= 0 then
      if offset > TIMESTAMP_MAX - Unsigned(value) then None else Some(value + offset)
    else
      var magnitude: U64 := -(value + 1) + 1;
      if offset < magnitude then
        var remaining := magnitude - offset;
        if remaining == TIMESTAMP_MAX + 1 then Some(TIMESTAMP_MIN) else Some(-remaining)
      else
        var positive := offset - magnitude;
        if positive > TIMESTAMP_MAX then None else Some(positive)
  }

  function BucketCount(start: Timestamp, end: Timestamp, interval: U64): nat
    requires interval > 0
  {
    var span := Distance(start, end);
    span / interval + if span % interval != 0 then 1 else 0
  }

  /** The bucket of an effective time inside the window. */
  function BucketOf(start: Timestamp, t: Timestamp, interval: U64): nat
    requires interval > 0
  {
    Distance(start, t) / interval
  }

  function BucketIndexForTime(time: Timestamp, start: Timestamp, end: Timestamp, count: nat, interval: U64): nat
    requires count > 0 && interval > 0
  {
    if time <= start then 0
    else if time >= end then count - 1
    else Min(count - 1, BucketOf(start, time, interval))
  }

  predicate InBucket(start: int, interval: int, k: int, t: int) {
    start + k * interval <= t < start + (k + 1) * interval
  }

  lemma Quotient(x: int, d: int)
    requires d > 0
    ensures x / d * d <= x < (x / d + 1) * d
  {
    assert x == x / d * d + x % d;
  }

  lemma Scaled(a: int, b: int, d: int)
    requires d > 0 && a <= b
    ensures a * d <= b * d
  {
    assert (b - a) * d >= 0;
  }

  lemma QuotientIs(x: int, d: int, q: int)
    requires d > 0 && q * d <= x < (q + 1) * d
    ensures x / d == q
  {
    Quotient(x, d);
    if x / d < q { Scaled(x / d + 1, q, d); }
    if q < x / d { Scaled(q + 1, x / d, d); }
  }

  lemma BucketExists(span: int, interval: int, x: int)
    requires interval > 0 && 0 <= x < span
    ensures x / interval < span / interval + if span % interval != 0 then 1 else 0
  {
    var k, n := x / interval, span / interval;
    Quotient(x, interval);
    assert span == n * interval + span % interval;
    assert (n + 1) * interval == n * interval + interval;
    if k > n { Scaled(n + 1, k, interval); }
  }

  lemma QuotientGrows(x: int, y: int, d: int)
    requires d > 0 && x <= y
    ensures x / d <= y / d
  {
    Quotient(x, d);
    Quotient(y, d);
    if y / d < x / d { Scaled(y / d + 1, x / d, d); }
  }

  /** Every instant of the window lies in exactly one bucket, and that bucket exists. */
  lemma OneBucketEach(start: Timestamp, end: Timestamp, interval: U64, t: Timestamp, j: int)
    requires interval > 0 && start <= t < end
    ensures BucketOf(start, t, interval) < BucketCount(start, end, interval)
    ensures InBucket(start, interval, j, t) <==> j == BucketOf(start, t, interval)
  {
    DistanceIs(start, t);
    DistanceIs(start, end);
    BucketExists(end - start, interval, t - start);
    Quotient(t - start, interval);
    if InBucket(start, interval, j, t) { QuotientIs(t - start, interval, j); }
  }

  lemma BucketInside(span: int, interval: int, k: int)
    requires interval > 0 && 0 <= k < span / interval + (if span % interval != 0 then 1 else 0) && 0 <= span
    ensures 0 <= k * interval < span
  {
    Quotient(span, interval);
    Scaled(0, k, interval);
    Scaled(k, span / interval, interval);
    assert span == span / interval * interval + span % interval;
    if k < span / interval {
      Scaled(k + 1, span / interval, interval);
      assert (k + 1) * interval == k * interval + interval;
    }
  }

  lemma SmallProduct(a: U64, b: U64)
    requires 0 <= a * b < TWO_64
    ensures WrappingMul(a, b) == a * b
  {
  }

  lemma FactorFits(k: nat, interval: int)
    requires interval > 0 && k * interval < TWO_64
    ensures k < TWO_64 && k * interval < (k + 1) * interval
  {
    assert k * 1 <= k * interval by { assert k * (interval - 1) >= 0; }
    assert (k + 1) * interval == k * interval + interval;
  }

  /** Bucket starts never wrap or overflow, lie inside the window and increase. */
  lemma BucketStartFits(start: Timestamp, end: Timestamp, interval: U64, k: nat)
    requires interval > 0 && start <= end && k < BucketCount(start, end, interval)
    ensures k < TWO_64 && WrappingMul(k, interval) == k * interval
    ensures start <= start + k * interval < end
    ensures AddNonNegativeTimestampOffset(start, WrappingMul(k, interval)) == Some(start + k * interval)
    ensures start + k * interval < start + (k + 1) * interval
  {
    hide WrappingMul, AddNonNegativeTimestampOffset;
    DistanceIs(start, end);
    BucketInside(end - start, interval, k);
    FactorFits(k, interval);
    SmallProduct(k, interval);
  }

  /** The index search clamps to the window and otherwise finds the containing bucket. */
  lemma {:induction false} IndexForTimeMeaning(time: Timestamp, start: Timestamp, end: Timestamp, interval: U64)
    requires interval > 0 && start < end
    ensures var count := BucketCount(start, end, interval);
            count > 0 &&
            var k := BucketIndexForTime(time, start, end, count, interval);
            k < count
            && (time < start ==> k == 0) && (time >= end ==> k == count - 1)
            && (start <= time < end ==> InBucket(start, interval, k, time))
  {
    OneBucketEach(start, end, interval, start, 0);
    if start <= time < end {
      OneBucketEach(start, end, interval, time, BucketOf(start, time, interval));
      if time == start { OneBucketEach(start, end, interval, start, 0); assert InBucket(start, interval, 0, start); }
    }
  }
}
