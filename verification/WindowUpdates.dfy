/** What a batch tells its consumers: per sequence, the affected range, whether
    it only appended, and whether eviction took points. */
module WindowUpdates {
  import opened Timeline
  import opened WindowServices

  datatype SequenceUpdate = SequenceUpdate(safe: bool, start: Option<Timestamp>, end: Option<Timestamp>, evicted: bool)

  datatype WindowUpdate = WindowUpdate(
    safe: bool,
    start: Option<Timestamp>,
    end: Option<Timestamp>,
    evicted: bool,
    windowStart: Option<Timestamp>,
    changed: seq<SequenceId>,
    sequences: map<SequenceId, SequenceUpdate>)

  /** `first..last` are the extreme times of the points. */
  ghost predicate SpansTimes(points: seq<Point>, first: Option<Timestamp>, last: Option<Timestamp>) {
    && (points == [] ==> first.None? && last.None?)
    && (points != [] ==>
          && first.Some? && last.Some?
          && (forall i :: 0 <= i < |points| ==> first.value <= points[i].time <= last.value)
          && (exists i :: 0 <= i < |points| && points[i].time == first.value)
          && (exists i :: 0 <= i < |points| && points[i].time == last.value))
  }

  function Earlier(a: Option<Timestamp>, t: Timestamp): Option<Timestamp> {
    if a.None? || t < a.value then Some(t) else a
  }

  function Later(a: Option<Timestamp>, t: Timestamp): Option<Timestamp> {
    if a.None? || t > a.value then Some(t) else a
  }

  lemma SpanGrows(points: seq<Point>, p: Point, first: Option<Timestamp>, last: Option<Timestamp>)
    requires SpansTimes(points, first, last)
    ensures SpansTimes(points + [p], Earlier(first, p.time), Later(last, p.time))
  {
    var all := points + [p];
    assert all[|points|] == p && forall i :: 0 <= i < |points| ==> all[i] == points[i];
    if points != [] {
      var i :| 0 <= i < |points| && points[i].time == first.value;
      var j :| 0 <= j < |points| && points[j].time == last.value;
      assert all[i].time == first.value && all[j].time == last.value;
    }
  }

  ghost predicate Scanned(sequences: map<SequenceId, SequenceUpdate>, batch: seq<RawPoint>, id: SequenceId) {
    && (id in sequences <==> PointsOf(batch, id) != [])
    && (id in sequences ==> SpansTimes(PointsOf(batch, id), sequences[id].start, sequences[id].end))
  }

  ghost predicate AllScanned(sequences: map<SequenceId, SequenceUpdate>, batch: seq<RawPoint>) {
    forall id :: Scanned(sequences, batch, id)
  }

  /** The batch's points, whatever their sequence. */
  function PointsOfAll(batch: seq<RawPoint>): (r: seq<Point>)
    ensures |r| == |batch| && forall i :: 0 <= i < |batch| ==> r[i] == Point(batch[i].time, batch[i].value)
  {
    seq(|batch|, i requires 0 <= i < |batch| => Point(batch[i].time, batch[i].value))
  }

  /** One more point of the batch. */
  function Touched(sequences: map<SequenceId, SequenceUpdate>, p: RawPoint): map<SequenceId, SequenceUpdate> {
    var own := if p.sequence in sequences then sequences[p.sequence] else SequenceUpdate(false, None, None, false);
    sequences[p.sequence := own.(start := Earlier(own.start, p.time), end := Later(own.end, p.time))]
  }

  /** What the report says of one sequence. */
  ghost predicate Describes(update: WindowUpdate, batch: seq<RawPoint>, safe: map<SequenceId, bool>, evicted: seq<SequenceId>, id: SequenceId) {
    var points := PointsOf(batch, id);
    && (id in update.changed <==> points != [] || id in evicted)
    && (id in update.sequences <==> id in update.changed)
    && (id in update.sequences ==>
          var own := update.sequences[id];
          && own.start.Some? && own.end.Some?
          && (own.safe <==> id in safe && safe[id])
          && (own.evicted <==> id in evicted)
          && (points != [] ==> SpansTimes(points, own.start, own.end))
          && (points == [] ==> own.start == update.windowStart && own.end == if update.end.Some? then update.end else update.windowStart))
  }

  /** Scanning the batch, then folding in the outcome of the sequence tasks and of eviction. */
  method DescribeUpdate(batch: seq<RawPoint>, windowStart: Timestamp, safe: map<SequenceId, bool>, evicted: seq<SequenceId>)
    returns (update: WindowUpdate)
    requires forall id :: id in safe <==> PointsOf(batch, id) != []
    ensures update.windowStart == Some(windowStart) && (update.evicted <==> evicted != [])
    ensures update.safe <==> forall id :: id in safe ==> safe[id]
    ensures SpansTimes(PointsOfAll(batch), update.start, update.end)
    ensures forall id :: Describes(update, batch, safe, evicted, id)
  {
    hide PointsOf, SpansTimes;
    var changed, sequences, start, end := ScanBatch(batch);
    var allSafe := forall id <- safe.Keys :: safe[id];
    var marked: map<SequenceId, SequenceUpdate> := map id | id in sequences :: sequences[id].(safe := id in safe && safe[id], evicted := id in evicted);
    for i := 0 to |evicted|
      invariant forall id :: id in changed <==> id in sequences || id in evicted[..i]
      invariant forall id :: id in marked <==> id in sequences || id in evicted[..i]
      invariant forall id :: id in marked ==> Marked(marked[id], sequences, safe, evicted, windowStart, end, id)
    {
      var id := evicted[i];
      assert evicted[..i + 1] == evicted[..i] + [id];
      if id !in marked {
        marked := marked[id := SequenceUpdate(false, Some(windowStart), if end.Some? then end else Some(windowStart), true)];
        changed := changed + [id];
      }
    }
    assert evicted[..|evicted|] == evicted;
    update := WindowUpdate(allSafe, start, end, evicted != [], Some(windowStart), changed, marked);
    forall id ensures Describes(update, batch, safe, evicted, id) {
      assert Scanned(sequences, batch, id);
      SpanIsSome(PointsOf(batch, id));
    }
  }

  lemma SpanIsSome(points: seq<Point>)
    ensures forall first, last :: SpansTimes(points, first, last) && points != [] ==> first.Some? && last.Some?
  {
  }

  ghost predicate Marked(own: SequenceUpdate, scanned: map<SequenceId, SequenceUpdate>, safe: map<SequenceId, bool>, evicted: seq<SequenceId>,
                         windowStart: Timestamp, end: Option<Timestamp>, id: SequenceId)
  {
    if id in scanned then own == scanned[id].(safe := id in safe && safe[id], evicted := id in evicted)
    else own == SequenceUpdate(false, Some(windowStart), if end.Some? then end else Some(windowStart), true) && id in evicted
  }

  method ScanBatch(batch: seq<RawPoint>)
    returns (changed: seq<SequenceId>, sequences: map<SequenceId, SequenceUpdate>, start: Option<Timestamp>, end: Option<Timestamp>)
    ensures forall id :: id in changed <==> id in sequences
    ensures AllScanned(sequences, batch) && SpansTimes(PointsOfAll(batch), start, end)
  {
    hide AllScanned, PointsOf, SpansTimes;
    changed, sequences, start, end := [], map[], None, None;
    NothingScanned();
    SpanOfNothing();
    assert batch[..0] == [] && PointsOfAll([]) == [];
    for i := 0 to |batch|
      invariant forall id :: id in changed <==> id in sequences
      invariant AllScanned(sequences, batch[..i]) && SpansTimes(PointsOfAll(batch[..i]), start, end)
    {
      var p := batch[i];
      if p.sequence !in sequences { changed := changed + [p.sequence]; }
      ScanStep(batch, i, sequences);
      assert PointsOfAll(batch[..i + 1]) == PointsOfAll(batch[..i]) + [Point(p.time, p.value)];
      SpanGrows(PointsOfAll(batch[..i]), Point(p.time, p.value), start, end);
      sequences := Touched(sequences, p);
      start, end := Earlier(start, p.time), Later(end, p.time);
    }
    assert batch[..|batch|] == batch;
  }

  lemma NothingScanned()
    ensures AllScanned(map[], [])
  {
  }

  lemma ScanStep(batch: seq<RawPoint>, i: nat, sequences: map<SequenceId, SequenceUpdate>)
    requires i < |batch| && AllScanned(sequences, batch[..i])
    ensures AllScanned(Touched(sequences, batch[i]), batch[..i + 1])
  {
    hide SpansTimes, PointsOf;
    var p, after := batch[i], Touched(sequences, batch[i]);
    var upto := batch[..i + 1];
    forall id ensures Scanned(after, upto, id) {
      assert Scanned(sequences, batch[..i], id);
      PointsStep(batch, i, id);
      if id == p.sequence {
        SpanOfNothing();
        var own := if id in sequences then sequences[id] else SequenceUpdate(false, None, None, false);
        SpanGrows(PointsOf(batch[..i], id), Point(p.time, p.value), own.start, own.end);
      } else {
        assert PointsOf(batch[..i], id) + [] == PointsOf(batch[..i], id);
      }
    }
  }

  lemma SpanOfNothing()
    ensures SpansTimes([], None, None)
  {
  }

  lemma {:induction false} PointsStep(batch: seq<RawPoint>, i: nat, id: SequenceId)
    requires i < |batch|
    ensures PointsOf(batch[..i + 1], id) == PointsOf(batch[..i], id) + if id == batch[i].sequence then [Point(batch[i].time, batch[i].value)] else []
  {
    assert batch[..i + 1][..i] == batch[..i];
  }
}
