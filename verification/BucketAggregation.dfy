/** Summarising the points of one bucket as they stream in. */
module BucketAggregation {
  import opened Timeline

  datatype Aggregation = First | Last | Average | Maximum | Minimum

  datatype SeriesKind = Unspecified | Continuous | Discrete | Categorical

  function DefaultAggregation(kind: SeriesKind): Aggregation {
    match kind
    case Continuous => Average
    case Discrete | Categorical => Last
    case Unspecified => First
  }

  predicate NeedsNumbers(aggregation: Aggregation) {
    aggregation != First && aggregation != Last
  }

  /** Held by value in a vector of buckets and updated there. */
  datatype BucketAccumulator = BucketAccumulator(
    hasValue: bool,
    firstTime: Timestamp,
    lastTime: Timestamp,
    firstValue: Value,
    lastValue: Value,
    sum: real,
    minimum: real,
    maximum: real,
    count: nat)
  {
    function Add(point: Point, aggregation: Aggregation): Option<BucketAccumulator> {
      if NeedsNumbers(aggregation) && point.value.NonNumeric? then None
      else
        var counted :=
          if !NeedsNumbers(aggregation) then this
          else
            var amount := point.value.amount;
            this.(minimum := if !hasValue || amount < minimum then amount else minimum,
                  maximum := if !hasValue || maximum < amount then amount else maximum,
                  sum := sum + amount, count := count + 1);
        if !hasValue then
          Some(counted.(hasValue := true, firstTime := point.time, lastTime := point.time,
                        firstValue := point.value, lastValue := point.value))
        else
          var early := if point.time < firstTime then counted.(firstTime := point.time, firstValue := point.value) else counted;
          Some(if point.time > lastTime then early.(lastTime := point.time, lastValue := point.value) else early)
    }

    function Finish(aggregation: Aggregation): Option<Value> {
      if !hasValue then None
      else
        match aggregation
        case First => Some(firstValue)
        case Last => Some(lastValue)
        case Average => if count == 0 then None else Some(Number(sum / count as real))
        case Maximum => Some(Number(maximum))
        case Minimum => Some(Number(minimum))
    }
  }

  const EMPTY_BUCKET := BucketAccumulator(false, 0, 0, NonNumeric, NonNumeric, 0.0, 0.0, 0.0, 0)

  /** A bucket after a run of points, or nothing once one was rejected. */
  function Folded(points: seq<Point>, aggregation: Aggregation): Option<BucketAccumulator> {
    if points == [] then Some(EMPTY_BUCKET)
    else
      var before := Folded(points[..|points| - 1], aggregation);
      if before.None? then None else before.value.Add(points[|points| - 1], aggregation)
  }

  function Summary(points: seq<Point>, aggregation: Aggregation): Option<Value> {
    var folded := Folded(points, aggregation);
    if folded.None? then None else folded.value.Finish(aggregation)
  }

  // ----- what the streamed state stands for -----

  ghost predicate AllNumbers(points: seq<Point>) {
    forall i :: 0 <= i < |points| ==> points[i].value.Number?
  }

  /** The first of the points at the smallest time. */
  ghost predicate IsEarliest(points: seq<Point>, i: nat) {
    i < |points| && forall j :: 0 <= j < |points| ==> points[i].time <= points[j].time && (j < i ==> points[i].time < points[j].time)
  }

  /** The first of the points at the largest time. */
  ghost predicate IsLatest(points: seq<Point>, i: nat) {
    i < |points| && forall j :: 0 <= j < |points| ==> points[j].time <= points[i].time && (j < i ==> points[j].time < points[i].time)
  }

  ghost predicate Greatest(points: seq<Point>, x: real) {
    && (exists i :: 0 <= i < |points| && points[i].value == Number(x))
    && forall i :: 0 <= i < |points| && points[i].value.Number? ==> points[i].value.amount <= x
  }

  ghost predicate Least(points: seq<Point>, x: real) {
    && (exists i :: 0 <= i < |points| && points[i].value == Number(x))
    && forall i :: 0 <= i < |points| && points[i].value.Number? ==> x <= points[i].value.amount
  }

  ghost function Total(points: seq<Point>): real {
    if points == [] then 0.0
    else Total(points[..|points| - 1]) + if points[|points| - 1].value.Number? then points[|points| - 1].value.amount else 0.0
  }

  ghost predicate FirstIs(points: seq<Point>, p: Point) {
    exists i: nat :: IsEarliest(points, i) && points[i] == p
  }

  ghost predicate LastIs(points: seq<Point>, p: Point) {
    exists i: nat :: IsLatest(points, i) && points[i] == p
  }

  ghost predicate Tracks(b: BucketAccumulator, points: seq<Point>, aggregation: Aggregation) {
    && b.hasValue
    && FirstIs(points, Point(b.firstTime, b.firstValue))
    && LastIs(points, Point(b.lastTime, b.lastValue))
    && (NeedsNumbers(aggregation) ==>
          b.count == |points| && b.sum == Total(points) && Greatest(points, b.maximum) && Least(points, b.minimum))
  }

  lemma AddTracks(b: BucketAccumulator, points: seq<Point>, p: Point, aggregation: Aggregation)
    requires Tracks(b, points, aggregation) && (NeedsNumbers(aggregation) ==> p.value.Number?)
    ensures b.Add(p, aggregation).Some? && Tracks(b.Add(p, aggregation).value, points + [p], aggregation)
  {
    hide FirstIs, LastIs, Greatest, Least;
    EndsMove(points, p, Point(b.firstTime, b.firstValue), Point(b.lastTime, b.lastValue));
    if NeedsNumbers(aggregation) {
      assert (points + [p])[..|points|] == points;
      ExtremesGrow(points, p, b.minimum, b.maximum);
    }
  }

  lemma EndsMove(points: seq<Point>, p: Point, first: Point, last: Point)
    requires FirstIs(points, first) && LastIs(points, last)
    ensures FirstIs(points + [p], if p.time < first.time then p else first)
    ensures LastIs(points + [p], if p.time > last.time then p else last)
  {
    var all, n := points + [p], |points|;
    assert all[n] == p && forall i :: 0 <= i < n ==> all[i] == points[i];
    var e: nat :| IsEarliest(points, e) && points[e] == first;
    assert IsEarliest(all, if p.time < first.time then n else e);
    var l: nat :| IsLatest(points, l) && points[l] == last;
    assert IsLatest(all, if p.time > last.time then n else l);
  }

  lemma ExtremesGrow(points: seq<Point>, p: Point, least: real, greatest: real)
    requires Least(points, least) && Greatest(points, greatest) && p.value.Number?
    ensures Least(points + [p], if p.value.amount < least then p.value.amount else least)
    ensures Greatest(points + [p], if greatest < p.value.amount then p.value.amount else greatest)
  {
    var all, n := points + [p], |points|;
    assert forall i :: 0 <= i < n ==> all[i] == points[i];
    assert all[n] == p;
    var i :| 0 <= i < n && points[i].value == Number(least);
    assert all[i].value == Number(least);
    var j :| 0 <= j < n && points[j].value == Number(greatest);
    assert all[j].value == Number(greatest);
  }

  /** The streamed state fails exactly on a non-number under a numeric
      aggregation, and otherwise tracks the points' extremes, sum and ends. */
  lemma {:induction false} FoldedTracks(points: seq<Point>, aggregation: Aggregation)
    ensures Folded(points, aggregation).Some? <==> !NeedsNumbers(aggregation) || AllNumbers(points)
    ensures Folded(points, aggregation).Some? && points != [] ==> Tracks(Folded(points, aggregation).value, points, aggregation)
    ensures points == [] ==> Folded(points, aggregation) == Some(EMPTY_BUCKET)
    decreases |points|
  {
    if points == [] { return; }
    hide Tracks, BucketAccumulator.Add, NeedsNumbers, Folded, AllNumbers;
    var front, p := points[..|points| - 1], points[|points| - 1];
    FoldedTracks(front, aggregation);
    assert points == front + [p];
    NumbersGrow(front, p);
    FoldedStep(front, p, aggregation);
    if Folded(front, aggregation).Some? {
      AddRejects(Folded(front, aggregation).value, p, aggregation);
      if NeedsNumbers(aggregation) && !p.value.Number? { return; }
      if front == [] { OneTracks(p, aggregation); } else { AddTracks(Folded(front, aggregation).value, front, p, aggregation); }
    }
  }

  lemma {:induction false} FoldedStep(front: seq<Point>, p: Point, aggregation: Aggregation)
    ensures Folded(front + [p], aggregation) == if Folded(front, aggregation).None? then None else Folded(front, aggregation).value.Add(p, aggregation)
  {
    hide BucketAccumulator.Add;
    assert (front + [p])[..|front|] == front;
  }

  lemma NumbersGrow(front: seq<Point>, p: Point)
    ensures AllNumbers(front + [p]) <==> AllNumbers(front) && p.value.Number?
  {
    var all := front + [p];
    assert all[|front|] == p && forall i :: 0 <= i < |front| ==> all[i] == front[i];
  }

  lemma AddRejects(b: BucketAccumulator, p: Point, aggregation: Aggregation)
    ensures b.Add(p, aggregation).None? <==> NeedsNumbers(aggregation) && !p.value.Number?
  {
  }

  lemma OneTracks(p: Point, aggregation: Aggregation)
    requires NeedsNumbers(aggregation) ==> p.value.Number?
    ensures EMPTY_BUCKET.Add(p, aggregation).Some? && Tracks(EMPTY_BUCKET.Add(p, aggregation).value, [p], aggregation)
  {
    assert IsEarliest([p], 0) && IsLatest([p], 0) && FirstIs([p], p) && LastIs([p], p);
    assert [p][0] == p && [p][..0] == [];
  }

  /** What each aggregation answers for a non-empty bucket. */
  lemma SummaryMeaning(points: seq<Point>, aggregation: Aggregation)
    requires points != []
    ensures Summary(points, aggregation).Some? <==> !NeedsNumbers(aggregation) || AllNumbers(points)
    ensures Summary(points, aggregation).Some? ==>
              var v := Summary(points, aggregation).value;
              match aggregation
              case First => exists i: nat :: IsEarliest(points, i) && points[i].value == v
              case Last => exists i: nat :: IsLatest(points, i) && points[i].value == v
              case Average => v == Number(Total(points) / |points| as real)
              case Maximum => v.Number? && Greatest(points, v.amount)
              case Minimum => v.Number? && Least(points, v.amount)
  {
    hide Folded, Total, IsEarliest, IsLatest, Greatest, Least, AllNumbers;
    FoldedTracks(points, aggregation);
  }

  /** The total is the sum of the numbers among the points. */
  lemma {:induction false} TotalAdds(a: seq<Point>, b: seq<Point>)
    ensures Total([]) == 0.0
    ensures forall p: Point :: Total([p]) == if p.value.Number? then p.value.amount else 0.0
    ensures Total(a + b) == Total(a) + Total(b)
    decreases |b|
  {
    forall p: Point ensures Total([p]) == if p.value.Number? then p.value.amount else 0.0 { assert [p][..0] == []; }
    if b == [] {
      assert a + b == a;
    } else {
      TotalAdds(a, b[..|b| - 1]);
      assert (a + b)[..|a + b| - 1] == a + b[..|b| - 1];
    }
  }
}
