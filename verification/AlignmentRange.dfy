/** The fast path: align only the buckets around an affected range, unless the
    local window cannot know what the full one knows. */
module AlignmentRanges {
  import opened Timeline
  import opened WindowServices
  import opened BucketTimes
  import opened BucketAggregation
  import opened BucketIntervals
  import opened GapFill
  import opened AlignedRows
  import opened AlignedSlices
  import opened Alignments

  datatype AlignmentRange = AlignmentRange(start: Timestamp, end: Timestamp, prefixSamples: nat)

  function FirstSampleFrom(samples: seq<AlignedSample>, t: int): (k: nat)
    ensures k <= |samples|
    ensures forall i :: 0 <= i < k ==> samples[i].time < t
    ensures k < |samples| ==> t <= samples[k].time
  {
    if samples == [] || t <= samples[0].time then 0 else 1 + FirstSampleFrom(samples[1..], t)
  }

  /** Full alignment cut down afterwards, by sample time. */
  function Crop(full: AlignmentResult, range: AlignmentRange): AlignmentResult
    requires range.start <= range.end
  {
    if full.Invalid? then Invalid
    else
      var first := FirstSampleFrom(full.samples, range.start);
      var last := FirstSampleFrom(full.samples, range.end + 1);
      CropOrder(full.samples, range.start, range.end + 1);
      Aligned(full.samples[first - Min(range.prefixSamples, first)..last], 0)
  }

  lemma CropOrder(samples: seq<AlignedSample>, t: int, u: int)
    requires t <= u
    ensures FirstSampleFrom(samples, t) <= FirstSampleFrom(samples, u)
  {
  }

  // ----- the target stretch -----

  function TargetFirst(g: Grid, range: AlignmentRange): nat
    requires g.interval > 0 && g.Count() > 0
  {
    var affected := BucketIndexForTime(range.start, g.start, g.end, g.Count(), g.interval);
    if affected > range.prefixSamples then affected - range.prefixSamples else 0
  }

  function TargetLast(g: Grid, range: AlignmentRange): nat
    requires g.interval > 0 && g.Count() > 0
  {
    Max(BucketIndexForTime(range.start, g.start, g.end, g.Count(), g.interval),
        BucketIndexForTime(range.end, g.start, g.end, g.Count(), g.interval))
  }

  /** The stretch lies in the window, and ends with the bucket of the range's end. */
  lemma TargetsInside(g: Grid, range: AlignmentRange)
    requires g.Valid() && g.Count() > 0 && range.start <= range.end
    ensures TargetFirst(g, range) <= TargetLast(g, range) < g.Count()
    ensures TargetLast(g, range) == BucketIndexForTime(range.end, g.start, g.end, g.Count(), g.interval)
  {
    var a := BucketIndexForTime(range.start, g.start, g.end, g.Count(), g.interval);
    var b := BucketIndexForTime(range.end, g.start, g.end, g.Count(), g.interval);
    if g.start < range.start && range.end < g.end {
      DistanceIs(g.start, range.start);
      DistanceIs(g.start, range.end);
      QuotientGrows(range.start - g.start, range.end - g.start, g.interval);
    }
  }

  ghost predicate AllSorted(values: map<SequenceId, seq<Point>>) {
    forall id :: id in values ==> Nondecreasing(values[id])
  }

  ghost predicate AllAnchored(values: map<SequenceId, seq<Point>>, g: Grid, range: AlignmentRange)
    requires g.interval > 0 && g.Count() > 0
  {
    forall id :: id in values ==> Anchored(values[id], g, TargetFirst(g, range), TargetLast(g, range))
  }

  // ----- the guard -----

  ghost predicate Between(points: seq<Point>, x: int, y: int) {
    exists i :: 0 <= i < |points| && x <= points[i].time < y
  }

  function CellEnd(g: Grid, k: nat): int
    requires g.interval > 0
  {
    if k + 1 < g.Count() then g.BucketStart(k + 1) else g.end
  }

  lemma OccupiedIsBetween(points: seq<Point>, g: Grid, k: nat)
    requires g.Valid() && k < g.Count()
    ensures Occupied(points, g, k) <==> Between(points, g.BucketStart(k), CellEnd(g, k))
  {
    hide Grid.Covers, Grid.Count;
    forall i | 0 <= i < |points|
      ensures g.Covers(k, points[i].time) <==> g.BucketStart(k) <= points[i].time < CellEnd(g, k)
    {
      CellIs(g, k, points[i].time);
    }
  }

  lemma CellIs(g: Grid, k: nat, t: Timestamp)
    requires g.Valid() && k < g.Count()
    ensures g.Covers(k, t) <==> g.BucketStart(k) <= t < CellEnd(g, k)
  {
    CoversExactly(g, k, t);
    BucketStartFits(g.start, g.end, g.interval, k);
    if k + 1 < g.Count() {
      BucketStartFits(g.start, g.end, g.interval, k + 1);
    } else if g.BucketStart(k) <= t < g.end {
      OneBucketEach(g.start, g.end, g.interval, t, BucketOf(g.start, t, g.interval));
      var j := BucketOf(g.start, t, g.interval);
      if j < k { Scaled(j + 1, k, g.interval); }
    }
  }

  /** Binary search inside a local slice sees exactly the points of a stretch of it. */
  lemma {:induction false} SearchSees(points: seq<Point>, first: nat, last: nat, x: int, y: int)
    requires Nondecreasing(points) && first <= last <= |points| && x <= y
    requires forall i :: 0 <= i < first ==> points[i].time < x
    requires forall i :: last <= i < |points| ==> y <= points[i].time
    ensures var k := LowerBound(points[..last], first, x);
            && (k < last && points[k].time < y <==> Between(points, x, y))
            && (k != LowerBound(points[..last], k, y) <==> Between(points, x, y))
  {
    var upto := points[..last];
    var k := LowerBound(upto, first, x);
    assert k < last ==> upto[k] == points[k];
    if k < last && points[k].time < y { assert Between(points, x, y); }
    if i :| 0 <= i < |points| && x <= points[i].time < y {
      assert upto[i] == points[i];
    }
  }

  /** The fallback test of one sequence. */
  method IsAnchored(points: seq<Point>, g: Grid, targetFirst: nat, targetLast: nat) returns (anchored: bool, kept: seq<Point>)
    requires Nondecreasing(points) && g.Valid() && targetFirst <= targetLast < g.Count()
    ensures anchored <==> Anchored(points, g, targetFirst, targetLast)
    ensures var sub := SubGrid(g, LocalFirst(targetFirst), LocalLast(targetLast, g.Count()) + 1);
            kept == Kept(points, sub.start, sub.end)
  {
    hide LowerBound, Occupied, Between, Nondecreasing, Grid.Count;
    var count := g.Count();
    var localFirst, localLast := LocalFirst(targetFirst), LocalLast(targetLast, count);
    var localStart := g.BucketStart(localFirst);
    var localEnd := CellEnd(g, localLast);
    var targetStart := g.BucketStart(targetFirst);
    var targetEnd := CellEnd(g, targetLast);
    var lastTargetStart := g.BucketStart(targetLast);
    StretchOrder(g, targetFirst, targetLast);
    SubGridEnds(g, localFirst, localLast);
    var localBegin := LowerBound(points, 0, localStart);
    var localFinish := LowerBound(points, localBegin, localEnd);
    OutsideSlice(points, localStart, localEnd);
    var upto := points[..localFinish];
    var targetBegin := LowerBound(upto, localBegin, targetStart);
    var firstTargetFinish := LowerBound(upto, targetBegin, CellEnd(g, targetFirst));
    var lastTargetBegin := LowerBound(upto, localBegin, lastTargetStart);
    var rightContextBegin := LowerBound(upto, localBegin, targetEnd);
    SearchSees(points, localBegin, localFinish, targetStart, CellEnd(g, targetFirst));
    SearchSees(points, localBegin, localFinish, lastTargetStart, targetEnd);
    ContextSees(points, localBegin, localFinish, localStart, targetStart, localEnd);
    RightContextSees(points, localBegin, localFinish, targetEnd, localEnd);
    var hasLeftContext := targetBegin != localBegin;
    var hasRightContext := rightContextBegin != localFinish;
    var hasFirstTargetValue := targetBegin != firstTargetFinish;
    var hasLastTargetValue := lastTargetBegin != localFinish && points[lastTargetBegin].time < targetEnd;
    kept := points[localBegin..localFinish];
    anchored := !((targetFirst != 0 && !hasFirstTargetValue && !hasLeftContext)
                  || (targetLast + 1 < count && !hasLastTargetValue && !hasRightContext));
    OccupiedIsBetween(points, g, targetFirst);
    OccupiedIsBetween(points, g, targetLast);
    if targetFirst != 0 { OccupiedIsBetween(points, g, targetFirst - 1); }
    if targetLast + 1 < count { OccupiedIsBetween(points, g, targetLast + 1); }
  }

  lemma StretchOrder(g: Grid, targetFirst: nat, targetLast: nat)
    requires g.Valid() && targetFirst <= targetLast < g.Count()
    ensures var localFirst, localLast := LocalFirst(targetFirst), LocalLast(targetLast, g.Count());
            && localFirst <= targetFirst && targetLast <= localLast < g.Count()
            && g.BucketStart(localFirst) <= g.BucketStart(targetFirst) <= g.BucketStart(targetLast)
            && g.BucketStart(targetFirst) <= CellEnd(g, targetFirst) <= CellEnd(g, targetLast) <= CellEnd(g, localLast)
            && g.BucketStart(targetLast) <= CellEnd(g, targetLast)
  {
    hide Grid.Count;
    var localFirst, localLast := LocalFirst(targetFirst), LocalLast(targetLast, g.Count());
    Scaled(localFirst, targetFirst, g.interval);
    Scaled(targetFirst, targetLast, g.interval);
    CellEndsGrow(g, targetFirst, targetLast);
    CellEndsGrow(g, targetLast, localLast);
    CellEndsGrow(g, targetFirst, targetFirst);
    CellEndsGrow(g, targetLast, targetLast);
  }

  lemma CellEndsGrow(g: Grid, j: nat, k: nat)
    requires g.Valid() && j <= k < g.Count()
    ensures g.BucketStart(j) < CellEnd(g, j) <= CellEnd(g, k)
  {
    BucketStartFits(g.start, g.end, g.interval, j);
    BucketStartFits(g.start, g.end, g.interval, k);
    if j + 1 < g.Count() { BucketStartFits(g.start, g.end, g.interval, j + 1); }
    if k + 1 < g.Count() { Scaled(j + 1, k + 1, g.interval); }
  }

  lemma SubGridEnds(g: Grid, lo: nat, last: nat)
    requires g.Valid() && lo <= last < g.Count()
    ensures SubGrid(g, lo, last + 1).start == g.BucketStart(lo) && SubGrid(g, lo, last + 1).end == CellEnd(g, last)
    ensures SubGrid(g, lo, last + 1).interval == g.interval
  {
  }

  lemma {:induction false} OutsideSlice(points: seq<Point>, start: int, end: int)
    requires Nondecreasing(points) && start <= end
    ensures var first := LowerBound(points, 0, start);
            var last := LowerBound(points, first, end);
            && (forall i :: 0 <= i < first ==> points[i].time < start)
            && (forall i :: last <= i < |points| ==> end <= points[i].time)
            && (forall i :: first <= i < last ==> start <= points[i].time < end)
  {
  }

  lemma ContextSees(points: seq<Point>, first: nat, last: nat, start: int, x: int, end: int)
    requires Nondecreasing(points) && first <= last <= |points| && start <= x <= end
    requires forall i :: 0 <= i < first ==> points[i].time < start
    requires forall i :: first <= i < last ==> start <= points[i].time < end
    requires forall i :: last <= i < |points| ==> end <= points[i].time
    ensures LowerBound(points[..last], first, x) != first <==> Between(points, start, x)
  {
    var upto := points[..last];
    var k := LowerBound(upto, first, x);
    assert forall i :: 0 <= i < last ==> upto[i] == points[i];
    if k != first { assert Between(points, start, x) by { assert points[first].time < x; } }
  }

  lemma RightContextSees(points: seq<Point>, first: nat, last: nat, x: int, end: int)
    requires Nondecreasing(points) && first <= last <= |points| && x <= end
    requires forall i :: 0 <= i < first ==> points[i].time < x
    requires forall i :: first <= i < last ==> points[i].time < end
    requires forall i :: last <= i < |points| ==> end <= points[i].time
    ensures LowerBound(points[..last], first, x) != last <==> Between(points, x, end)
  {
    var upto := points[..last];
    var k := LowerBound(upto, first, x);
    assert forall i :: 0 <= i < last ==> upto[i] == points[i];
    if k != last { assert x <= points[k].time < end; }
  }

  // ----- the range overload -----

  ghost predicate Acceptable(data: WindowData, ids: seq<SequenceId>, range: AlignmentRange) {
    && range.start <= range.end && data.start <= data.end && "" !in ids
    && InferredInterval(data.values, ids).Some?
  }

  ghost function GridOf(data: WindowData, ids: seq<SequenceId>): (g: Grid)
    requires data.start <= data.end && InferredInterval(data.values, ids).Some?
    ensures g.Valid() && g.start == data.start && g.end == data.end && g.interval <= TIMESTAMP_MAX
  {
    InferredIsSmallestDistance(data.values, ids);
    Grid(data.start, data.end, InferredInterval(data.values, ids).value)
  }

  /** The window around the targets that the fast path aligns on its own. */
  ghost function LocalWindow(data: WindowData, g: Grid, range: AlignmentRange): WindowData
    requires g.Valid() && g.Count() > 0 && range.start <= range.end
  {
    TargetsInside(g, range);
    var sub := SubGrid(g, LocalFirst(TargetFirst(g, range)), LocalLast(TargetLast(g, range), g.Count()) + 1);
    WindowData(sub.start, sub.end, map id | id in data.values :: Kept(data.values[id], sub.start, sub.end))
  }

  /** The target buckets of what full alignment makes of the local window. */
  ghost function FastAnswer(data: WindowData, g: Grid, configs: seq<SequenceConfig>, range: AlignmentRange): AlignmentResult
    requires g.Valid() && g.Count() > 0 && g.interval <= TIMESTAMP_MAX && range.start <= range.end
  {
    TargetsInside(g, range);
    var first, last := TargetFirst(g, range), TargetLast(g, range);
    CutSamples(FullAlignment(LocalWindow(data, g, range), configs, map[], Some(g.interval)), first - LocalFirst(first), last - first + 1)
  }

  /** Aligning around an affected range. Whenever full alignment succeeds, the
      fast path's samples are exactly its target buckets; when the window is
      unsorted or a boundary bucket has no neighbour to fill from, the answer
      is the full one, cropped. */
  method AlignRange(data: WindowData, ids: seq<SequenceId>, kinds: map<SequenceId, SeriesKind>, range: AlignmentRange)
    returns (result: AlignmentResult, fast: bool)
    requires Distinct(ids) && forall id :: id in ids <==> id in data.values
    ensures !Acceptable(data, ids, range) ==> result == Invalid
    ensures Acceptable(data, ids, range) && AllSorted(data.values) && data.start == data.end ==> result == Invalid
    ensures fast <==>
            && Acceptable(data, ids, range) && AllSorted(data.values) && data.start < data.end
            && GridOf(data, ids).Count() > 0 && AllAnchored(data.values, GridOf(data, ids), range)
    ensures fast ==> result == FastAnswer(data, GridOf(data, ids), DefaultConfigs(ids, kinds), range)
    ensures var full := FullAlignment(data, DefaultConfigs(ids, kinds), map[], None);
            && (fast && full.Aligned? ==>
                  var g := GridOf(data, ids);
                  && TargetFirst(g, range) <= TargetLast(g, range) < |full.samples|
                  && result == Aligned(full.samples[TargetFirst(g, range)..TargetLast(g, range) + 1], 0))
            && (!fast && Acceptable(data, ids, range) && !(AllSorted(data.values) && data.start == data.end) ==>
                  result == Crop(full, range))
  {
    hide FullAlignment, InferredInterval, Anchored, Nondecreasing, Grid.Count, TargetFirst, TargetLast, SubGrid, LowerBound, Kept, Crop, LocalWindow, CutSamples, FastAnswer;
    hide LocalFirst, LocalLast, ConfigIds;
    hide Distinct;
    fast := false;
    if range.start > range.end || data.start > data.end || "" in ids { return Invalid, false; }
    var configs := DefaultConfigs(ids, kinds);
    var interval := InferBucketInterval(data.values, ids);
    if interval.None? { return Invalid, false; }
    InferredIsSmallestDistance(data.values, ids);
    var sorted := CheckSorted(data.values, ids);
    if !sorted {
      var full := AlignWindow(data, configs, map[], None);
      return Crop(full, range), false;
    }
    var g := Grid(data.start, data.end, interval.value);
    var count := g.Count();
    CountIsZero(g);
    if count == 0 { return Invalid, false; }
    TargetsInside(g, range);
    var targetFirst, targetLast := TargetFirst(g, range), TargetLast(g, range);
    var localFirst, localLast := LocalFirst(targetFirst), LocalLast(targetLast, count);
    LocalInside(targetFirst, targetLast, count);
    var localStart, localEnd := LocalBounds(g, localFirst, localLast);
    var anchored, local := SelectLocal(data.values, ids, g, targetFirst, targetLast);
    if !anchored {
      var full := AlignWindow(data, configs, map[], None);
      return Crop(full, range), false;
    }
    var window := WindowData(localStart, localEnd, local);
    var aligned := AlignWindow(window, configs, map[], Some(interval.value));
    FastPath(data, configs, window, g, range);
    fast := true;
    result := CutSamples(aligned, targetFirst - localFirst, targetLast - targetFirst + 1);
  }

  lemma LocalInside(first: nat, last: nat, count: nat)
    requires first <= last < count
    ensures LocalFirst(first) <= first && LocalFirst(first) <= LocalLast(last, count) < count
  {
  }

  /** The local answer, and what it has to do with the full one. */
  lemma FastPath(data: WindowData, configs: seq<SequenceConfig>, window: WindowData, g: Grid, range: AlignmentRange)
    requires g.Valid() && g.start == data.start && g.end == data.end && range.start <= range.end && g.Count() > 0 && g.interval <= TIMESTAMP_MAX
    requires InferredInterval(data.values, ConfigIds(configs)) == Some(g.interval)
    requires TargetFirst(g, range) <= TargetLast(g, range) < g.Count()
    requires forall id :: id in ConfigIds(configs) <==> id in data.values
    requires AllSorted(data.values) && AllAnchored(data.values, g, range)
    requires var sub := SubGrid(g, LocalFirst(TargetFirst(g, range)), LocalLast(TargetLast(g, range), g.Count()) + 1);
             && window.start == sub.start && window.end == sub.end
             && forall id :: (id in data.values <==> id in window.values) && (id in window.values ==> window.values[id] == Kept(data.values[id], sub.start, sub.end))
    ensures LocalFirst(TargetFirst(g, range)) <= TargetFirst(g, range)
    ensures CutSamples(FullAlignment(window, configs, map[], Some(g.interval)), TargetFirst(g, range) - LocalFirst(TargetFirst(g, range)),
                       TargetLast(g, range) - TargetFirst(g, range) + 1) == FastAnswer(data, g, configs, range)
    ensures var full := FullAlignment(data, configs, map[], None);
            full.Aligned? ==> TargetLast(g, range) < |full.samples|
                              && FastAnswer(data, g, configs, range) == Aligned(full.samples[TargetFirst(g, range)..TargetLast(g, range) + 1], 0)
  {
    hide SubGrid, Kept, Grid.Count, TargetFirst, TargetLast, InferredInterval, FullAlignment, CutSamples, Nondecreasing, Anchored, LocalWindow;
    LocalIs(data, window, g, range);
    forall i | 0 <= i < |configs| ensures configs[i].id in data.values { assert ConfigIds(configs)[i] in ConfigIds(configs); }
    LocalAlignmentAgrees(data, configs, window, g, TargetFirst(g, range), TargetLast(g, range));
  }

  lemma LocalIs(data: WindowData, window: WindowData, g: Grid, range: AlignmentRange)
    requires g.Valid() && g.Count() > 0 && range.start <= range.end
    requires TargetFirst(g, range) <= TargetLast(g, range) < g.Count()
    requires var sub := SubGrid(g, LocalFirst(TargetFirst(g, range)), LocalLast(TargetLast(g, range), g.Count()) + 1);
             && window.start == sub.start && window.end == sub.end
             && forall id :: (id in data.values <==> id in window.values) && (id in window.values ==> window.values[id] == Kept(data.values[id], sub.start, sub.end))
    ensures window == LocalWindow(data, g, range)
  {
    hide SubGrid, Kept, Grid.Count, TargetFirst, TargetLast;
  }

  method CheckSorted(values: map<SequenceId, seq<Point>>, ids: seq<SequenceId>) returns (sorted: bool)
    requires forall id :: id in ids <==> id in values
    ensures sorted <==> AllSorted(values)
  {
    hide Nondecreasing;
    for i := 0 to |ids|
      invariant forall j :: 0 <= j < i ==> Nondecreasing(values[ids[j]])
    {
      var one := IsSorted(values[ids[i]]);
      if !one { return false; }
    }
    sorted := true;
  }

  method SelectLocal(values: map<SequenceId, seq<Point>>, ids: seq<SequenceId>, g: Grid, targetFirst: nat, targetLast: nat)
    returns (anchored: bool, local: map<SequenceId, seq<Point>>)
    requires (forall id :: id in ids <==> id in values) && AllSorted(values)
    requires g.Valid() && targetFirst <= targetLast < g.Count()
    ensures anchored <==> forall id :: id in values ==> Anchored(values[id], g, targetFirst, targetLast)
    ensures var sub := SubGrid(g, LocalFirst(targetFirst), LocalLast(targetLast, g.Count()) + 1);
            anchored ==> forall id :: (id in ids <==> id in local) && (id in ids ==> local[id] == Kept(values[id], sub.start, sub.end))
  {
    hide Anchored, Nondecreasing, Grid.Count, SubGrid, Kept;
    ghost var sub := SubGrid(g, LocalFirst(targetFirst), LocalLast(targetLast, g.Count()) + 1);
    local := map[];
    for i := 0 to |ids|
      invariant forall id :: id in local ==> id in ids
      invariant forall j :: 0 <= j < i ==> ids[j] in local && local[ids[j]] == Kept(values[ids[j]], sub.start, sub.end)
      invariant forall j :: 0 <= j < i ==> Anchored(values[ids[j]], g, targetFirst, targetLast)
    {
      var one, kept := IsAnchored(values[ids[i]], g, targetFirst, targetLast);
      if !one { return false, map[]; }
      local := local[ids[i] := kept];
    }
    anchored := true;
  }

  lemma CountIsZero(g: Grid)
    requires g.Valid()
    ensures g.Count() == 0 <==> g.start == g.end
  {
    DistanceIs(g.start, g.end);
    if g.start < g.end { OneBucketEach(g.start, g.end, g.interval, g.start, 0); }
  }

  /** The local window's ends; neither addition can overflow. */
  method LocalBounds(g: Grid, localFirst: nat, localLast: nat) returns (localStart: Timestamp, localEnd: Timestamp)
    requires g.Valid() && localFirst <= localLast < g.Count()
    ensures localStart == SubGrid(g, localFirst, localLast + 1).start && localEnd == SubGrid(g, localFirst, localLast + 1).end
  {
    BucketStartFits(g.start, g.end, g.interval, localFirst);
    localStart := AddNonNegativeTimestampOffset(g.start, WrappingMul(localFirst, g.interval)).value;
    localEnd := g.end;
    if localLast + 1 < g.Count() {
      BucketStartFits(g.start, g.end, g.interval, localLast + 1);
      localEnd := AddNonNegativeTimestampOffset(g.start, WrappingMul(localLast + 1, g.interval)).value;
    }
  }

  /** The target buckets of a local result. */
  function CutSamples(aligned: AlignmentResult, offset: nat, size: nat): AlignmentResult {
    if aligned.Invalid? then Invalid
    else if aligned.samples == [] || offset >= |aligned.samples| then Aligned([], 0)
    else Aligned(aligned.samples[offset..Min(|aligned.samples|, offset + size)], 0)
  }

  lemma {:induction false} SameSampleValues(configs: seq<SequenceConfig>, a: seq<Buckets>, b: seq<Buckets>, n: nat, j: nat, k: nat)
    requires n <= |configs| == |a| == |b|
    requires forall i :: 0 <= i < |a| ==> j < |a[i]| && k < |b[i]| && a[i][j] == b[i][k]
    ensures SampleValues(configs, a, n, j) == SampleValues(configs, b, n, k)
    decreases n
  {
    if n > 0 { SameSampleValues(configs, a, b, n - 1, j, k); }
  }

  lemma LocalRowOf(data: WindowData, config: SequenceConfig, window: WindowData, g: Grid, first: nat, last: nat)
    requires g.Valid() && first <= last < g.Count()
    requires config.id in data.values && config.id in window.values
    requires var sub := SubGrid(g, LocalFirst(first), LocalLast(last, g.Count()) + 1);
             window.values[config.id] == Kept(data.values[config.id], sub.start, sub.end)
    requires Nondecreasing(data.values[config.id]) && Anchored(data.values[config.id], g, first, last)
    requires RowOf(data, g, config, map[]).Some?
    ensures var lo, hi := LocalFirst(first), LocalLast(last, g.Count()) + 1;
            var sub := SubGrid(g, lo, hi);
            var local := RowOf(window, sub, config, map[]);
            && sub.Count() == hi - lo && local.Some? && |local.value| == hi - lo && |RowOf(data, g, config, map[]).value| == g.Count()
            && forall k :: first <= k <= last ==> local.value[k - lo] == RowOf(data, g, config, map[]).value[k]
  {
    hide SubGrid, AlignedRow, Kept, Nondecreasing, Anchored, Grid.Count;
    LocalRowAgrees(data.values[config.id], g, first, last, config.aggregation, config.fillMethod);
    RowLength(data, g, config, map[]);
    RowLength(window, SubGrid(g, LocalFirst(first), LocalLast(last, g.Count()) + 1), config, map[]);
  }

  /** All sequences at once: the local result's target samples are the full result's. */
  lemma LocalAlignmentAgrees(data: WindowData, configs: seq<SequenceConfig>, window: WindowData, g: Grid, first: nat, last: nat)
    requires g.Valid() && g.start == data.start && g.end == data.end && first <= last < g.Count()
    requires InferredInterval(data.values, ConfigIds(configs)) == Some(g.interval) && g.interval <= TIMESTAMP_MAX
    requires var sub := SubGrid(g, LocalFirst(first), LocalLast(last, g.Count()) + 1);
             && window.start == sub.start && window.end == sub.end
             && forall i :: 0 <= i < |configs| ==>
                              && configs[i].id in data.values && configs[i].id in window.values
                              && window.values[configs[i].id] == Kept(data.values[configs[i].id], sub.start, sub.end)
                              && Nondecreasing(data.values[configs[i].id]) && Anchored(data.values[configs[i].id], g, first, last)
    ensures var full := FullAlignment(data, configs, map[], None);
            var local := FullAlignment(window, configs, map[], Some(g.interval));
            full.Aligned? ==> first <= last < |full.samples| &&
                              CutSamples(local, first - LocalFirst(first), last - first + 1) == Aligned(full.samples[first..last + 1], 0)
  {
    hide SubGrid, Kept, InferredInterval, RowOf, Nondecreasing, Anchored, Grid.Count, SampleValues, MissingOver, Distinct;
    var lo, hi := LocalFirst(first), LocalLast(last, g.Count()) + 1;
    var sub := SubGrid(g, lo, hi);
    var full := FullAlignment(data, configs, map[], None);
    if full.Aligned? {
      SubGridCount(g, lo, hi);
      SubGridEnds(g, lo, hi - 1);
      forall i | 0 <= i < |configs|
        ensures var row := RowOf(window, sub, configs[i], map[]);
                row.Some? && |row.value| == hi - lo
                && forall k :: first <= k <= last ==> row.value[k - lo] == RowsOf(data, g, configs, map[])[i][k]
      {
        LocalRowOf(data, configs[i], window, g, first, last);
      }
      assert AllAlign(window, sub, configs, map[]);
      SamplesAgree(g, sub, configs, RowsOf(data, g, configs, map[]), RowsOf(window, sub, configs, map[]), lo, first, last);
    }
  }

  lemma SamplesAgree(g: Grid, sub: Grid, configs: seq<SequenceConfig>, rows: seq<Buckets>, local: seq<Buckets>, lo: nat, first: nat, last: nat)
    requires g.Valid() && sub.Valid() && lo <= first <= last < g.Count() && last < lo + sub.Count()
    requires sub.start == g.BucketStart(lo) && sub.interval == g.interval
    requires |rows| == |local| == |configs|
    requires forall i :: 0 <= i < |configs| ==> |rows[i]| == g.Count() && |local[i]| == sub.Count()
    requires forall i, k :: 0 <= i < |configs| && first <= k <= last ==> local[i][k - lo] == rows[i][k]
    ensures CutSamples(GridAlignment(sub, configs, local), first - lo, last - first + 1)
            == Aligned(GridAlignment(g, configs, rows).samples[first..last + 1], 0)
  {
    hide SampleValues, MissingOver, Grid.Count;
    var a, b := GridAlignment(sub, configs, local).samples, GridAlignment(g, configs, rows).samples;
    forall k | first <= k <= last ensures a[k - lo] == b[k] {
      SameSampleValues(configs, local, rows, |configs|, k - lo, k);
      assert lo * g.interval + (k - lo) * g.interval == k * g.interval;
    }
    assert a[first - lo..last - lo + 1] == b[first..last + 1];
  }
}
