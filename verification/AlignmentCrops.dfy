/** Cropping a full alignment by sample time, against taking its target buckets. */
module AlignmentCrops {
  import opened Timeline
  import opened WindowServices
  import opened BucketTimes
  import opened BucketIntervals
  import opened AlignedRows
  import opened Alignments
  import opened AlignmentRanges

  /** One sample a bucket, stamped with the bucket's start. */
  ghost predicate OnGrid(samples: seq<AlignedSample>, g: Grid)
    requires g.interval > 0
  {
    |samples| == g.Count() && forall k :: 0 <= k < |samples| ==> samples[k].time == g.BucketStart(k)
  }

  lemma FullIsOnGrid(data: WindowData, configs: seq<SequenceConfig>)
    requires FullAlignment(data, configs, map[], None).Aligned?
    ensures data.start <= data.end && InferredInterval(data.values, ConfigIds(configs)).Some?
    ensures var interval := InferredInterval(data.values, ConfigIds(configs)).value;
            0 < interval < TWO_64 && OnGrid(FullAlignment(data, configs, map[], None).samples, Grid(data.start, data.end, interval))
  {
    hide InferredInterval, AllAlign, SampleValues, MissingOver, Distinct;
  }

  lemma SearchStops(samples: seq<AlignedSample>, g: Grid, t: int, j: nat)
    requires g.Valid() && OnGrid(samples, g) && j <= |samples|
    requires j > 0 ==> g.BucketStart(j - 1) < t
    requires j < |samples| ==> t <= g.BucketStart(j)
    ensures FirstSampleFrom(samples, t) == j
  {
    hide FirstSampleFrom;
    var k := FirstSampleFrom(samples, t);
    if k < j {
      Scaled(k, j - 1, g.interval);
    } else if j < k {
      Scaled(j, k - 1, g.interval);
    }
  }

  /** Where the crop ends: behind the bucket of the range's end, unless the range ends before the window. */
  lemma {:induction false} CropEnd(samples: seq<AlignedSample>, g: Grid, range: AlignmentRange)
    requires g.Valid() && g.Count() > 0 && OnGrid(samples, g) && range.start <= range.end
    ensures FirstSampleFrom(samples, range.end + 1) == if g.start <= range.end then TargetLast(g, range) + 1 else 0
  {
    hide FirstSampleFrom, Grid.Count, BucketIndexForTime;
    CountIsZero(g);
    TargetsInside(g, range);
    IndexForTimeMeaning(range.end, g.start, g.end, g.interval);
    var n, k := CountOf(g), BucketIndexForTime(range.end, g.start, g.end, g.Count(), g.interval);
    if range.end < g.start {
      SearchStops(samples, g, range.end + 1, 0);
    } else {
      BucketStartFits(g.start, g.end, g.interval, k);
      SearchStops(samples, g, range.end + 1, k + 1);
    }
  }

  function CountOf(g: Grid): (n: nat)
    requires g.interval > 0
    ensures n == BucketCount(g.start, g.end, g.interval) == g.Count()
  {
    g.Count()
  }

  predicate StartsABucket(g: Grid, t: Timestamp)
    requires g.interval > 0
  {
    g.start < t < g.end && (t - g.start) % g.interval == 0
  }

  /** Where the crop starts: at the affected bucket, or one behind it when the range starts inside a bucket or past the window. */
  lemma {:induction false} CropStart(samples: seq<AlignedSample>, g: Grid, range: AlignmentRange)
    requires g.Valid() && g.Count() > 0 && OnGrid(samples, g) && range.start <= range.end
    ensures FirstSampleFrom(samples, range.start) ==
            BucketIndexForTime(range.start, g.start, g.end, g.Count(), g.interval)
            + if range.start <= g.start || StartsABucket(g, range.start) then 0 else 1
  {
    hide FirstSampleFrom, Grid.Count, BucketIndexForTime;
    CountIsZero(g);
    IndexForTimeMeaning(range.start, g.start, g.end, g.interval);
    var n, k := CountOf(g), BucketIndexForTime(range.start, g.start, g.end, g.Count(), g.interval);
    if range.start <= g.start {
      AtTheStart(g, range.start);
      SearchStops(samples, g, range.start, 0);
    } else if range.start >= g.end {
      BucketStartFits(g.start, g.end, g.interval, n - 1);
      SearchStops(samples, g, range.start, n);
    } else {
      InsideBucket(g.start, g.interval, k, range.start);
      if StartsABucket(g, range.start) {
        if k > 0 { BucketStartFits(g.start, g.end, g.interval, k - 1); }
        SearchStops(samples, g, range.start, k);
      } else {
        SearchStops(samples, g, range.start, k + 1);
      }
    }
  }

  lemma AtTheStart(g: Grid, t: Timestamp)
    requires g.interval > 0 && g.Count() > 0 && t <= g.start
    ensures BucketIndexForTime(t, g.start, g.end, g.Count(), g.interval) == 0
  {
  }

  lemma InsideBucket(start: int, interval: int, k: int, t: int)
    requires interval > 0 && InBucket(start, interval, k, t)
    ensures (t - start) % interval == 0 <==> t == start + k * interval
  {
    QuotientIs(t - start, interval, k);
    assert t - start == (t - start) / interval * interval + (t - start) % interval;
  }

  lemma SameStretch(samples: seq<AlignedSample>, g: Grid, a: nat, b: nat, c: nat, d: nat)
    requires g.Valid() && OnGrid(samples, g) && a <= b <= |samples| && c < d <= |samples|
    ensures samples[a..b] == samples[c..d] <==> a == c && b == d
  {
    if samples[a..b] == samples[c..d] {
      assert samples[a..b][0] == samples[a] && samples[c..d][0] == samples[c];
      if a < c { Scaled(a + 1, c, g.interval); } else if c < a { Scaled(c + 1, a, g.interval); }
      assert a * g.interval + g.interval == (a + 1) * g.interval && c * g.interval + g.interval == (c + 1) * g.interval;
    }
  }

  /** The range reaches the window and starts at or before it, on a bucket
      boundary, or in one of the buckets the prefix takes in anyway. */
  predicate CropsToTargets(g: Grid, range: AlignmentRange)
    requires g.interval > 0 && g.Count() > 0
  {
    && g.start <= range.end
    && (range.start <= g.start || StartsABucket(g, range.start)
        || BucketIndexForTime(range.start, g.start, g.end, g.Count(), g.interval) < range.prefixSamples)
  }

  /** The crop keeps exactly the target buckets under that condition on grid and range alone. */
  lemma {:induction false} CropMatchesTargetsExactly(samples: seq<AlignedSample>, missing: nat, g: Grid, range: AlignmentRange)
    requires g.Valid() && g.Count() > 0 && OnGrid(samples, g) && range.start <= range.end
    ensures TargetFirst(g, range) <= TargetLast(g, range) < |samples|
    ensures Crop(Aligned(samples, missing), range).samples == samples[TargetFirst(g, range)..TargetLast(g, range) + 1]
            <==> CropsToTargets(g, range)
  {
    hide FirstSampleFrom, Grid.Count, BucketIndexForTime, StartsABucket;
    TargetsInside(g, range);
    CropEnd(samples, g, range);
    CropStart(samples, g, range);
    CropOrder(samples, range.start, range.end + 1);
    var first, last := FirstSampleFrom(samples, range.start), FirstSampleFrom(samples, range.end + 1);
    SameStretch(samples, g, first - Min(range.prefixSamples, first), last, TargetFirst(g, range), TargetLast(g, range) + 1);
    CountIsZero(g);
    AtStartIsFirst(g, range);
  }

  lemma AtStartIsFirst(g: Grid, range: AlignmentRange)
    requires g.interval > 0 && g.Count() > 0
    ensures range.start <= g.start ==> BucketIndexForTime(range.start, g.start, g.end, g.Count(), g.interval) == 0
  {
  }

  /** The same on what full alignment answers. */
  lemma CropOfFullExactly(data: WindowData, configs: seq<SequenceConfig>, range: AlignmentRange)
    requires FullAlignment(data, configs, map[], None).Aligned? && data.start < data.end && range.start <= range.end
    ensures InferredInterval(data.values, ConfigIds(configs)).Some? && 0 < InferredInterval(data.values, ConfigIds(configs)).value < TWO_64
    ensures var full := FullAlignment(data, configs, map[], None);
            var g := Grid(data.start, data.end, InferredInterval(data.values, ConfigIds(configs)).value);
            && g.Count() > 0 && TargetFirst(g, range) <= TargetLast(g, range) < |full.samples|
            && (Crop(full, range).samples == full.samples[TargetFirst(g, range)..TargetLast(g, range) + 1] <==> CropsToTargets(g, range))
  {
    hide InferredInterval, FullAlignment, OnGrid, Crop, TargetFirst, TargetLast, CropsToTargets, Grid.Count;
    FullIsOnGrid(data, configs);
    var full := FullAlignment(data, configs, map[], None);
    var g := Grid(data.start, data.end, InferredInterval(data.values, ConfigIds(configs)).value);
    CountIsZero(g);
    CropMatchesTargetsExactly(full.samples, full.missing, g, range);
  }

  /** Buckets at 0 and 10, the range from 5 to 12: both buckets are targets, and
      the crop keeps only the sample at 10. */
  lemma CropLosesABucket()
    ensures var g, range := Grid(0, 20, 10), AlignmentRange(5, 12, 0);
            var samples := [AlignedSample(0, map[]), AlignedSample(10, map[])];
            && OnGrid(samples, g) && TargetFirst(g, range) == 0 && TargetLast(g, range) == 1
            && Crop(Aligned(samples, 0), range).samples == [AlignedSample(10, map[])]
  {
    var g, range := Grid(0, 20, 10), AlignmentRange(5, 12, 0);
    var samples := [AlignedSample(0, map[]), AlignedSample(10, map[])];
    assert OnGrid(samples, g);
    SearchStops(samples, g, 5, 1);
    SearchStops(samples, g, 13, 2);
  }

  /** A crop keeps the samples between the range's ends and, before them, as many as
      the prefix asks for, or all there are. */
  lemma {:induction false} CropMeaning(samples: seq<AlignedSample>, missing: nat, range: AlignmentRange)
    requires range.start <= range.end && forall i, j :: 0 <= i < j < |samples| ==> samples[i].time < samples[j].time
    ensures exists lo: nat, first: nat, last: nat ::
              && lo <= first <= last <= |samples| && Crop(Aligned(samples, missing), range).samples == samples[lo..last]
              && (forall i :: 0 <= i < |samples| ==> (first <= i < last <==> range.start <= samples[i].time <= range.end))
              && (forall i :: 0 <= i < first ==> samples[i].time < range.start)
              && first - lo == Min(range.prefixSamples, first)
  {
    hide FirstSampleFrom;
    CropOrder(samples, range.start, range.end + 1);
    var first, last := FirstSampleFrom(samples, range.start), FirstSampleFrom(samples, range.end + 1);
    var lo := first - Min(range.prefixSamples, first);
    assert Crop(Aligned(samples, missing), range).samples == samples[lo..last];
    assert forall i :: 0 <= i < |samples| ==> (first <= i < last <==> range.start <= samples[i].time <= range.end);
  }
}
