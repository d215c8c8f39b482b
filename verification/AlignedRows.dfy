/** Aligning one sequence: its points into buckets, the buckets summarised, the
    gaps filled. */
module AlignedRows {
  import opened Timeline
  import opened BucketTimes
  import opened BucketAggregation
  import opened GapFill

  /** A window cut into buckets of one width. */
  datatype Grid = Grid(start: Timestamp, end: Timestamp, interval: U64) {
    predicate Valid() { start <= end && interval > 0 }

    function Count(): nat
      requires interval > 0
    {
      BucketCount(start, end, interval)
    }

    function BucketStart(k: nat): int { start + k * interval }

    predicate Covers(k: nat, t: Timestamp)
      requires interval > 0
    {
      start <= t < end && BucketOf(start, t, interval) == k
    }
  }

  predicate Lands(g: Grid, shift: Timestamp, k: nat, p: Point)
    requires g.interval > 0
  {
    var effective := AddTimestamp(p.time, shift);
    effective.Some? && g.Covers(k, effective.value)
  }

  /** The points of one bucket, in arrival order. */
  function CellPoints(points: seq<Point>, g: Grid, shift: Timestamp, k: nat): (r: seq<Point>)
    requires g.interval > 0
  {
    if points == [] then []
    else
      CellPoints(points[..|points| - 1], g, shift, k)
      + if Lands(g, shift, k, points[|points| - 1]) then [points[|points| - 1]] else []
  }

  ghost predicate Shiftable(points: seq<Point>, shift: Timestamp) {
    forall i :: 0 <= i < |points| ==> AddTimestamp(points[i].time, shift).Some?
  }

  ghost function RawRow(points: seq<Point>, g: Grid, shift: Timestamp, aggregation: Aggregation): (r: Buckets)
    requires g.interval > 0
    ensures |r| == g.Count() && forall k :: 0 <= k < g.Count() ==> r[k] == Summary(CellPoints(points, g, shift, k), aggregation)
  {
    seq(g.Count(), k requires 0 <= k < g.Count() => Summary(CellPoints(points, g, shift, k), aggregation))
  }

  ghost predicate Summarisable(points: seq<Point>, g: Grid, shift: Timestamp, aggregation: Aggregation)
    requires g.interval > 0
  {
    forall k :: 0 <= k < g.Count() ==> Folded(CellPoints(points, g, shift, k), aggregation).Some?
  }

  /** The aligned values of a sequence, or nothing when alignment fails: a lag
      overflowed, a numeric aggregation met a non-number, or a linear gap did. */
  ghost function AlignedRow(points: seq<Point>, g: Grid, shift: Timestamp, aggregation: Aggregation, fill: FillMethod): Option<Buckets>
    requires g.interval > 0
  {
    var raw := RawRow(points, g, shift, aggregation);
    if Shiftable(points, shift) && Summarisable(points, g, shift, aggregation) && Fillable(raw, fill) then Some(Fill(raw, fill))
    else None
  }

  // ----- the algorithm -----

  method AlignSequence(points: seq<Point>, g: Grid, shift: Timestamp, aggregation: Aggregation, fill: FillMethod)
    returns (row: Option<Buckets>)
    requires g.Valid()
    ensures row == AlignedRow(points, g, shift, aggregation, fill)
  {
    hide Folded, CellPoints, Fillable, Fill, BucketAccumulator.Add, BucketAccumulator.Finish, Summary;
    var count := g.Count();
    var buckets := new BucketAccumulator[count](_ => EMPTY_BUCKET);
    EmptyCells(g, shift, aggregation);
    for i := 0 to |points|
      invariant Shiftable(points[..i], shift)
      invariant forall k :: 0 <= k < count ==> Folded(CellPoints(points[..i], g, shift, k), aggregation) == Some(buckets[k])
    {
      var p := points[i];
      assert points[..i + 1] == points[..i] + [p];
      var effective := AddTimestamp(p.time, shift);
      if effective.None? {
        return None;
      }
      forall k: nat { CellStep(points, i, g, shift, k, aggregation); }
      if g.start <= effective.value < g.end {
        var k := BucketOf(g.start, effective.value, g.interval);
        OneBucketEach(g.start, g.end, g.interval, effective.value, k);
        var added := buckets[k].Add(p, aggregation);
        if added.None? {
          RejectedForGood(points, i, g, shift, k, aggregation);
          return None;
        }
        buckets[k] := added.value;
      }
    }
    assert points[..|points|] == points;
    var values := new Option<Value>[count](_ => None);
    for k := 0 to count
      modifies values
      invariant forall j :: 0 <= j < k ==> values[j] == Summary(CellPoints(points, g, shift, j), aggregation)
    {
      FinishIsSummary(CellPoints(points, g, shift, k), aggregation);
      values[k] := buckets[k].Finish(aggregation);
    }
    assert values[..] == RawRow(points, g, shift, aggregation);
    var ok := FillValues(values, fill);
    row := if ok then Some(values[..]) else None;
  }

  lemma EmptyCells(g: Grid, shift: Timestamp, aggregation: Aggregation)
    requires g.interval > 0
    ensures forall k: nat :: Folded(CellPoints([], g, shift, k), aggregation) == Some(EMPTY_BUCKET)
  {
  }

  lemma CellStep(points: seq<Point>, i: nat, g: Grid, shift: Timestamp, k: nat, aggregation: Aggregation)
    requires i < |points| && g.interval > 0
    ensures CellPoints(points[..i + 1], g, shift, k) ==
            CellPoints(points[..i], g, shift, k) + if Lands(g, shift, k, points[i]) then [points[i]] else []
    ensures Folded(CellPoints(points[..i], g, shift, k), aggregation).Some? ==>
              Folded(CellPoints(points[..i + 1], g, shift, k), aggregation) ==
              var before := Folded(CellPoints(points[..i], g, shift, k), aggregation);
              if Lands(g, shift, k, points[i]) then before.value.Add(points[i], aggregation) else before
  {
    hide Lands, BucketAccumulator.Add;
    assert points[..i + 1][..i] == points[..i];
    var cell := CellPoints(points[..i], g, shift, k);
    assert (cell + [points[i]])[..|cell|] == cell && cell + [] == cell;
  }

  lemma {:induction false} CellGrows(points: seq<Point>, i: nat, g: Grid, shift: Timestamp, k: nat)
    requires i <= |points| && g.interval > 0
    ensures CellPoints(points[..i], g, shift, k) <= CellPoints(points, g, shift, k)
    decreases |points|
  {
    if i == |points| {
      assert points[..i] == points;
    } else {
      CellGrows(points[..|points| - 1], i, g, shift, k);
      assert points[..|points| - 1][..i] == points[..i];
    }
  }

  /** A rejected point fails its bucket whatever comes later. */
  lemma RejectedForGood(points: seq<Point>, i: nat, g: Grid, shift: Timestamp, k: nat, aggregation: Aggregation)
    requires i < |points| && g.interval > 0
    requires Folded(CellPoints(points[..i + 1], g, shift, k), aggregation).None?
    ensures Folded(CellPoints(points, g, shift, k), aggregation).None?
  {
    hide Folded, CellPoints;
    var part, whole := CellPoints(points[..i + 1], g, shift, k), CellPoints(points, g, shift, k);
    CellGrows(points, i + 1, g, shift, k);
    FoldedTracks(part, aggregation);
    FoldedTracks(whole, aggregation);
    assert forall j :: 0 <= j < |part| ==> part[j] == whole[j];
  }

  lemma FinishIsSummary(points: seq<Point>, aggregation: Aggregation)
    requires Folded(points, aggregation).Some?
    ensures Folded(points, aggregation).value.Finish(aggregation) == Summary(points, aggregation)
  {
  }

  // ----- the points of a bucket, and of a part of the window -----

  /** The points that land in a bucket, each once and in order; every point in
      the window lands in exactly one. */
  lemma {:induction false} EveryPointHasOneBucket(g: Grid, shift: Timestamp, p: Point)
    requires g.Valid() && AddTimestamp(p.time, shift).Some?
    ensures g.start <= p.time + shift < g.end <==> exists k: nat :: k < g.Count() && Lands(g, shift, k, p)
    ensures forall j: nat, k: nat :: Lands(g, shift, j, p) && Lands(g, shift, k, p) ==> j == k
    ensures forall k: nat :: Lands(g, shift, k, p) ==> g.BucketStart(k) <= p.time + shift < g.BucketStart(k + 1)
  {
    var t := AddTimestamp(p.time, shift).value;
    if g.start <= t < g.end {
      var k := BucketOf(g.start, t, g.interval);
      OneBucketEach(g.start, g.end, g.interval, t, k);
      assert Lands(g, shift, k, p);
    }
  }

  lemma {:induction false} CellsConcat(a: seq<Point>, b: seq<Point>, g: Grid, shift: Timestamp, k: nat)
    requires g.interval > 0
    ensures CellPoints(a + b, g, shift, k) == CellPoints(a, g, shift, k) + CellPoints(b, g, shift, k)
    decreases |b|
  {
    hide Lands;
    if b == [] {
      assert a + b == a;
    } else {
      CellsConcat(a, b[..|b| - 1], g, shift, k);
      assert (a + b)[..|a + b| - 1] == a + b[..|b| - 1];
      assert (a + b)[|a + b| - 1] == b[|b| - 1];
    }
  }

  lemma {:induction false} NoneLand(points: seq<Point>, g: Grid, shift: Timestamp, k: nat)
    requires g.interval > 0
    ensures CellPoints(points, g, shift, k) == [] <==> forall i :: 0 <= i < |points| ==> !Lands(g, shift, k, points[i])
    decreases |points|
  {
    hide Lands;
    if points != [] {
      var front := points[..|points| - 1];
      NoneLand(front, g, shift, k);
      assert forall i :: 0 <= i < |front| ==> front[i] == points[i];
    }
  }

  lemma {:induction false} SameLandings(points: seq<Point>, g: Grid, h: Grid, shift: Timestamp, k: nat, j: nat)
    requires g.interval > 0 && h.interval > 0
    requires forall i :: 0 <= i < |points| ==> (Lands(g, shift, k, points[i]) <==> Lands(h, shift, j, points[i]))
    ensures CellPoints(points, g, shift, k) == CellPoints(points, h, shift, j)
    decreases |points|
  {
    hide Lands;
    if points != [] {
      var front := points[..|points| - 1];
      assert forall i :: 0 <= i < |front| ==> front[i] == points[i];
      SameLandings(front, g, h, shift, k, j);
    }
  }
}
