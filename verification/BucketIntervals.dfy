/** Inferring the bucket width: the smallest distance between two instants of
    one sequence. */
module BucketIntervals {
  import opened Timeline
  import opened SortedUnique
  import opened BucketTimes
  import opened WindowServices

  function Observe(smallest: Option<int>, previous: Timestamp, current: Timestamp): Option<int> {
    var gap := Distance(previous, current);
    if gap == 0 || gap > TIMESTAMP_MAX then smallest
    else if smallest.None? || gap < smallest.value then Some(gap)
    else smallest
  }

  function NeighbourGaps(points: seq<Point>, smallest: Option<int>): Option<int> {
    if |points| < 2 then smallest
    else Observe(NeighbourGaps(points[..|points| - 1], smallest), points[|points| - 2].time, points[|points| - 1].time)
  }

  ghost function SequenceGaps(points: seq<Point>, smallest: Option<int>): Option<int> {
    NeighbourGaps(if Nondecreasing(points) then points else InOrder(AsMap(points)), smallest)
  }

  ghost function InferredInterval(values: map<SequenceId, seq<Point>>, ids: seq<SequenceId>): Option<int> {
    if ids == [] then None
    else
      var smallest, id := InferredInterval(values, ids[..|ids| - 1]), ids[|ids| - 1];
      if id in values && |values[id]| >= 2 then SequenceGaps(values[id], smallest) else smallest
  }

  /** A distance some two of the instants are apart, small enough for an interval. */
  ghost predicate Apart(points: seq<Point>, gap: int) {
    0 < gap <= TIMESTAMP_MAX && exists i, j :: 0 <= i < |points| && 0 <= j < |points| && points[j].time - points[i].time == gap
  }

  ghost predicate Improves(r: Option<int>, smallest: Option<int>, points: seq<Point>) {
    && (r == smallest || (r.Some? && Apart(points, r.value)))
    && (smallest.Some? ==> r.Some? && r.value <= smallest.value)
    && (forall gap :: Apart(points, gap) ==> r.Some? && r.value <= gap)
  }

  lemma {:induction false} NeighbourGapsSuffice(points: seq<Point>, smallest: Option<int>)
    requires Nondecreasing(points)
    ensures Improves(NeighbourGaps(points, smallest), smallest, points)
    decreases |points|
  {
    if |points| >= 2 {
      var n := |points| - 1;
      var front := points[..n];
      NeighbourGapsSuffice(front, smallest);
      var before := NeighbourGaps(front, smallest);
      var r := NeighbourGaps(points, smallest);
      DistanceIs(points[n - 1].time, points[n].time);
      var step := points[n].time - points[n - 1].time;
      assert front[n - 1] == points[n - 1];
      if r.Some? {
        if r == before { if r != smallest { ApartGrows(front, points, r.value); } } else { assert Apart(points, step); }
      }
      forall gap | Apart(points, gap) ensures r.Some? && r.value <= gap { ApartInFront(points, gap); }
    }
  }

  /** A distance to the last instant is at least the last step, or was there without it. */
  lemma ApartInFront(points: seq<Point>, gap: int)
    requires Nondecreasing(points) && |points| >= 2 && Apart(points, gap)
    ensures var n := |points| - 1;
            Apart(points[..n], gap) || 0 < points[n].time - points[n - 1].time <= gap
  {
    var n := |points| - 1;
    var front := points[..n];
    var i, j :| 0 <= i < |points| && 0 <= j < |points| && points[j].time - points[i].time == gap;
    assert i < j;
    assert front[i] == points[i];
    if j < n {
      assert front[j] == points[j];
    } else if points[n].time == points[n - 1].time {
      assert front[n - 1].time == points[j].time;
    }
  }

  lemma ApartGrows(front: seq<Point>, points: seq<Point>, gap: int)
    requires front <= points && Apart(front, gap)
    ensures Apart(points, gap)
  {
    var i, j :| 0 <= i < |front| && 0 <= j < |front| && front[j].time - front[i].time == gap;
    assert points[i] == front[i] && points[j] == front[j];
  }

  lemma {:induction false} KeysAreTimes(points: seq<Point>, t: Timestamp)
    ensures t in AsMap(points) <==> exists i :: 0 <= i < |points| && points[i].time == t
    decreases |points|
  {
    if points != [] {
      var front := points[..|points| - 1];
      KeysAreTimes(front, t);
      if i :| 0 <= i < |front| && front[i].time == t { assert points[i].time == t; }
      if i :| 0 <= i < |points| && points[i].time == t && i < |front| { assert front[i].time == t; }
    }
  }

  lemma {:induction false} ApartInOrder(points: seq<Point>, gap: int)
    ensures Apart(points, gap) <==> Apart(InOrder(AsMap(points)), gap)
  {
    hide AsMap, InOrder;
    var sorted := InOrder(AsMap(points));
    if Apart(points, gap) { SameTimesApart(points, sorted, gap); }
    if Apart(sorted, gap) { SameTimesApart(sorted, points, gap); }
  }

  lemma {:induction false} SameTimesApart(a: seq<Point>, b: seq<Point>, gap: int)
    requires AsMap(a) == AsMap(b) && Apart(a, gap)
    ensures Apart(b, gap)
  {
    hide AsMap;
    var i, j :| 0 <= i < |a| && 0 <= j < |a| && a[j].time - a[i].time == gap;
    KeysAreTimes(a, a[i].time);
    KeysAreTimes(a, a[j].time);
    KeysAreTimes(b, a[i].time);
    KeysAreTimes(b, a[j].time);
  }

  lemma {:induction false} SequenceGapsSuffice(points: seq<Point>, smallest: Option<int>)
    ensures Improves(SequenceGaps(points, smallest), smallest, points)
  {
    hide AsMap, InOrder, NeighbourGaps, Apart;
    if Nondecreasing(points) {
      NeighbourGapsSuffice(points, smallest);
    } else {
      NeighbourGapsSuffice(InOrder(AsMap(points)), smallest);
      forall gap ensures Apart(points, gap) <==> Apart(InOrder(AsMap(points)), gap) { ApartInOrder(points, gap); }
    }
  }

  ghost predicate SomewhereApart(values: map<SequenceId, seq<Point>>, ids: seq<SequenceId>, gap: int) {
    exists id :: id in ids && id in values && Apart(values[id], gap)
  }

  /** The inferred interval is the smallest such distance in any sequence, and
      there is none exactly when no sequence has two distinct instants within reach. */
  lemma {:induction false} InferredIsSmallestDistance(values: map<SequenceId, seq<Point>>, ids: seq<SequenceId>)
    ensures var r := InferredInterval(values, ids);
            && (r.Some? ==> 0 < r.value <= TIMESTAMP_MAX && SomewhereApart(values, ids, r.value))
            && forall gap :: SomewhereApart(values, ids, gap) ==> r.Some? && r.value <= gap
    decreases |ids|
  {
    hide Apart, SequenceGaps;
    if ids != [] {
      var front, id := ids[..|ids| - 1], ids[|ids| - 1];
      InferredIsSmallestDistance(values, front);
      var smallest, r := InferredInterval(values, front), InferredInterval(values, ids);
      assert ids == front + [id];
      if id in values {
        if |values[id]| >= 2 { SequenceGapsSuffice(values[id], smallest); } else { NoDistance(values[id]); }
      }
      if r.Some? && r == smallest {
        var other :| other in front && other in values && Apart(values[other], r.value);
        assert other in ids;
      } else if r.Some? {
        ApartIsPositive(values[id], r.value);
        assert id in ids && Apart(values[id], r.value);
      }
      forall gap | SomewhereApart(values, ids, gap) ensures r.Some? && r.value <= gap {
        var other :| other in ids && other in values && Apart(values[other], gap);
        if other in front { assert SomewhereApart(values, front, gap); }
      }
    }
  }

  lemma ApartIsPositive(points: seq<Point>, gap: int)
    requires Apart(points, gap)
    ensures 0 < gap <= TIMESTAMP_MAX
  {
  }

  lemma NoDistance(points: seq<Point>)
    requires |points| < 2
    ensures forall gap :: !Apart(points, gap)
  {
  }

  method ObserveAll(points: seq<Point>, smallest: Option<int>) returns (r: Option<int>)
    ensures r == NeighbourGaps(points, smallest)
  {
    r := smallest;
    if points == [] { return; }
    for i := 1 to |points|
      invariant r == NeighbourGaps(points[..i], smallest)
    {
      assert points[..i + 1][..i] == points[..i];
      r := Observe(r, points[i - 1].time, points[i].time);
    }
    assert points[..|points|] == points;
  }

  method IsSorted(points: seq<Point>) returns (sorted: bool)
    ensures sorted <==> Nondecreasing(points)
  {
    if points == [] { return true; }
    for i := 1 to |points|
      invariant Nondecreasing(points[..i])
    {
      if points[i].time < points[i - 1].time { return false; }
      assert points[..i + 1] == points[..i] + [points[i]];
    }
    assert points[..|points|] == points;
    sorted := true;
  }

  method InferBucketInterval(values: map<SequenceId, seq<Point>>, ids: seq<SequenceId>) returns (interval: Option<int>)
    ensures interval == InferredInterval(values, ids)
  {
    hide InOrder, NeighbourGaps;
    interval := None;
    for i := 0 to |ids|
      invariant interval == InferredInterval(values, ids[..i])
    {
      assert ids[..i + 1][..i] == ids[..i];
      if ids[i] in values && |values[ids[i]]| >= 2 {
        var points := values[ids[i]];
        var sorted := IsSorted(points);
        if !sorted { points := SortUnique(points); }
        interval := ObserveAll(points, interval);
      }
    }
    assert ids[..|ids|] == ids;
  }
}
