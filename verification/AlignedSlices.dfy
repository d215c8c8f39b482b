/** Aligning a stretch of buckets on its own: the same buckets, the same values. */
module AlignedSlices {
  import opened Timeline
  import opened BucketTimes
  import opened BucketAggregation
  import opened GapFill
  import opened AlignedRows

  /** Buckets lo..hi of a window as a window of their own. */
  ghost function SubGrid(g: Grid, lo: nat, hi: nat): (r: Grid)
    requires g.Valid() && lo < hi <= g.Count()
    ensures r.Valid() && g.start <= r.start && r.end <= g.end
  {
    BucketStartFits(g.start, g.end, g.interval, lo);
    if hi < g.Count() then
      BucketStartFits(g.start, g.end, g.interval, hi);
      Scaled(lo, hi, g.interval);
      Grid(g.BucketStart(lo), g.BucketStart(hi), g.interval)
    else Grid(g.BucketStart(lo), g.end, g.interval)
  }

  lemma ShiftedQuotient(x: int, d: int, q: int)
    requires d > 0
    ensures (x - q * d) / d == x / d - q && (x - q * d) % d == x % d
  {
    Quotient(x, d);
    var k := x / d;
    assert (k - q) * d == k * d - q * d;
    assert (k - q + 1) * d == (k + 1) * d - q * d;
    QuotientIs(x - q * d, d, k - q);
  }

  lemma SubGridCount(g: Grid, lo: nat, hi: nat)
    requires g.Valid() && lo < hi <= g.Count()
    ensures SubGrid(g, lo, hi).Count() == hi - lo
  {
    var sub := SubGrid(g, lo, hi);
    DistanceIs(g.start, g.end);
    DistanceIs(sub.start, sub.end);
    if hi < g.Count() {
      assert sub.end - sub.start == hi * g.interval - lo * g.interval;
      ShiftedQuotient(hi * g.interval, g.interval, lo);
      ExactQuotient(hi, g.interval);
    } else {
      ShiftedQuotient(g.end - g.start, g.interval, lo);
    }
  }

  lemma ExactQuotient(q: int, d: int)
    requires d > 0
    ensures q * d / d == q && q * d % d == 0
  {
    assert (q + 1) * d == q * d + d;
    QuotientIs(q * d, d, q);
  }

  lemma CoversExactly(g: Grid, k: nat, t: Timestamp)
    requires g.Valid()
    ensures g.Covers(k, t) <==> g.start <= t < g.end && g.BucketStart(k) <= t < g.BucketStart(k + 1)
  {
    if g.start <= t < g.end { OneBucketEach(g.start, g.end, g.interval, t, k); }
  }

  lemma SubGridCovers(g: Grid, lo: nat, hi: nat, k: nat, t: Timestamp)
    requires g.Valid() && lo <= k < hi <= g.Count()
    ensures SubGrid(g, lo, hi).Covers(k - lo, t) <==> g.Covers(k, t)
    ensures g.Covers(k, t) ==> SubGrid(g, lo, hi).start <= t < SubGrid(g, lo, hi).end
  {
    var sub := SubGrid(g, lo, hi);
    CoversExactly(g, k, t);
    CoversExactly(sub, k - lo, t);
    assert sub.BucketStart(k - lo) == g.BucketStart(k) by { assert lo * g.interval + (k - lo) * g.interval == k * g.interval; }
    assert sub.BucketStart(k - lo + 1) == g.BucketStart(k + 1) by { assert lo * g.interval + (k - lo + 1) * g.interval == (k + 1) * g.interval; }
    Scaled(lo, k, g.interval);
    if hi < g.Count() { Scaled(k + 1, hi, g.interval); }
  }

  /** The points a sub-window keeps of an ordered vector. */
  function Kept(points: seq<Point>, start: int, end: int): (r: seq<Point>) {
    var first := LowerBound(points, 0, start);
    points[first..LowerBound(points, first, end)]
  }

  lemma KeptExactly(points: seq<Point>, start: int, end: int)
    requires Nondecreasing(points)
    ensures var first := LowerBound(points, 0, start);
            var last := LowerBound(points, first, end);
            forall i :: 0 <= i < |points| && !(first <= i < last) ==> !(start <= points[i].time < end)
  {
  }

  lemma {:induction false} SliceCells(points: seq<Point>, g: Grid, lo: nat, hi: nat, k: nat)
    requires Nondecreasing(points) && g.Valid() && lo <= k < hi <= g.Count()
    ensures var sub := SubGrid(g, lo, hi);
            CellPoints(Kept(points, sub.start, sub.end), sub, 0, k - lo) == CellPoints(points, g, 0, k)
  {
    hide SubGrid, Grid.Covers, LowerBound, Nondecreasing, CellPoints;
    var sub := SubGrid(g, lo, hi);
    var first := LowerBound(points, 0, sub.start);
    var last := LowerBound(points, first, sub.end);
    KeptExactly(points, sub.start, sub.end);
    forall i | 0 <= i < |points|
      ensures Lands(sub, 0, k - lo, points[i]) <==> Lands(g, 0, k, points[i])
      ensures Lands(g, 0, k, points[i]) ==> first <= i < last
    {
      SubGridCovers(g, lo, hi, k, points[i].time);
    }
    CellsInside(points, g, first, last, k);
    SameLandings(points[first..last], g, sub, 0, k, k - lo);
  }

  /** Points that land all lie in a stretch: the stretch has the cell's points. */
  lemma {:induction false} CellsInside(points: seq<Point>, g: Grid, first: nat, last: nat, k: nat)
    requires g.interval > 0 && first <= last <= |points|
    requires forall i :: 0 <= i < |points| && Lands(g, 0, k, points[i]) ==> first <= i < last
    ensures CellPoints(points[first..last], g, 0, k) == CellPoints(points, g, 0, k)
  {
    hide CellPoints, Lands;
    var before, kept, after := points[..first], points[first..last], points[last..];
    assert forall i :: 0 <= i < |after| ==> after[i] == points[last + i];
    NoneLand(before, g, 0, k);
    NoneLand(after, g, 0, k);
    CellsConcat(before, kept + after, g, 0, k);
    CellsConcat(kept, after, g, 0, k);
    assert points == before + (kept + after);
  }

  /** A local window's summaries are the full window's, bucket by bucket. */
  lemma SliceRaw(points: seq<Point>, g: Grid, lo: nat, hi: nat, aggregation: Aggregation)
    requires Nondecreasing(points) && g.Valid() && lo < hi <= g.Count()
    ensures var sub := SubGrid(g, lo, hi);
            && RawRow(Kept(points, sub.start, sub.end), sub, 0, aggregation) == RawRow(points, g, 0, aggregation)[lo..hi]
            && (Summarisable(points, g, 0, aggregation) ==> Summarisable(Kept(points, sub.start, sub.end), sub, 0, aggregation))
  {
    hide SubGrid, CellPoints, Folded, Summary, Kept;
    var sub := SubGrid(g, lo, hi);
    var kept := Kept(points, sub.start, sub.end);
    SubGridCount(g, lo, hi);
    forall j | 0 <= j < hi - lo ensures CellPoints(kept, sub, 0, j) == CellPoints(points, g, 0, lo + j) {
      SliceCells(points, g, lo, hi, lo + j);
    }
    assert RawRow(kept, sub, 0, aggregation) == RawRow(points, g, 0, aggregation)[lo..hi];
  }

  ghost predicate Occupied(points: seq<Point>, g: Grid, k: nat)
    requires g.interval > 0
  {
    exists i :: 0 <= i < |points| && g.Covers(k, points[i].time)
  }

  lemma {:induction false} OccupiedIsKnown(points: seq<Point>, g: Grid, k: nat, aggregation: Aggregation)
    requires g.Valid() && k < g.Count() && Summarisable(points, g, 0, aggregation)
    ensures RawRow(points, g, 0, aggregation)[k].Some? <==> Occupied(points, g, k)
  {
    hide Folded, CellPoints, Summary;
    var cell := CellPoints(points, g, 0, k);
    NoneLand(points, g, 0, k);
    if cell == [] { SummaryOfNothing(aggregation); } else { SummaryMeaning(cell, aggregation); FoldedTracks(cell, aggregation); }
    if Occupied(points, g, k) {
      var i :| 0 <= i < |points| && g.Covers(k, points[i].time);
      assert Lands(g, 0, k, points[i]);
    }
    if i :| 0 <= i < |points| && Lands(g, 0, k, points[i]) { assert g.Covers(k, points[i].time); }
  }

  lemma SummaryOfNothing(aggregation: Aggregation)
    ensures Summary([], aggregation).None?
  {
  }

  /** The outermost target buckets are occupied or have an occupied neighbour
      in the local window, or are at the window's edge. */
  ghost predicate Anchored(points: seq<Point>, g: Grid, targetFirst: nat, targetLast: nat)
    requires g.interval > 0
  {
    && (targetFirst == 0 || Occupied(points, g, targetFirst) || Occupied(points, g, targetFirst - 1))
    && (targetLast + 1 >= g.Count() || Occupied(points, g, targetLast) || Occupied(points, g, targetLast + 1))
  }

  function LocalFirst(targetFirst: nat): nat { if targetFirst == 0 then 0 else targetFirst - 1 }

  function LocalLast(targetLast: nat, count: nat): nat
    requires targetLast < count
  {
    if targetLast + 1 < count then targetLast + 1 else count - 1
  }

  lemma AnchoredIsLocal(values: Buckets, lo: nat, hi: nat, first: nat, last: nat, i: nat)
    requires first <= i <= last < |values| && lo == LocalFirst(first) && hi == LocalLast(last, |values|) + 1
    requires first == 0 || values[first].Some? || values[first - 1].Some?
    requires last + 1 >= |values| || values[last].Some? || values[last + 1].Some?
    ensures LocallyKnown(values, lo, hi, i)
  {
  }

  /** If the full alignment of a sequence succeeds and the target stretch is
      anchored, aligning the local window alone gives the same target values. */
  lemma LocalRowAgrees(points: seq<Point>, g: Grid, first: nat, last: nat, aggregation: Aggregation, fill: FillMethod)
    requires Nondecreasing(points) && g.Valid() && first <= last < g.Count() && Anchored(points, g, first, last)
    requires AlignedRow(points, g, 0, aggregation, fill).Some?
    ensures var lo, hi := LocalFirst(first), LocalLast(last, g.Count()) + 1;
            var sub := SubGrid(g, lo, hi);
            var local := AlignedRow(Kept(points, sub.start, sub.end), sub, 0, aggregation, fill);
            && sub.Count() == hi - lo && local.Some?
            && forall k :: first <= k <= last ==> local.value[k - lo] == AlignedRow(points, g, 0, aggregation, fill).value[k]
  {
    hide SubGrid, Kept, RawRow, Summarisable, Fillable, FilledAt, LocallyKnown, Occupied, Nondecreasing;
    var lo, hi := LocalFirst(first), LocalLast(last, g.Count()) + 1;
    var raw := RawRow(points, g, 0, aggregation);
    SubGridCount(g, lo, hi);
    SliceRaw(points, g, lo, hi, aggregation);
    SliceFillable(raw, lo, hi, fill);
    forall k: nat | k < g.Count() ensures raw[k].Some? <==> Occupied(points, g, k) { OccupiedIsKnown(points, g, k, aggregation); }
    forall k | first <= k <= last ensures FilledAt(raw[lo..hi], k - lo, fill) == FilledAt(raw, k, fill) {
      AnchoredIsLocal(raw, lo, hi, first, last, k);
      SliceFill(raw, lo, hi, k, fill);
    }
    assert forall k :: first <= k <= last ==> Fill(raw[lo..hi], fill)[k - lo] == Fill(raw, fill)[k];
  }
}
