/** The hot window of one sequence: an append vector with a lazily evicted
    prefix, an ordered buffer of late corrections, and running statistics. */
module SequenceWindows {
  import opened Timeline
  import opened MonotoneDeque
  import opened OrderedMerge
  import opened SortedUnique
  import opened WindowQueries

  const LATE_POINT_FLUSH_THRESHOLD := 64
  const COMPACTION_THRESHOLD := 4096

  /** Vector and buffer are ordered, and `latest` bounds everything stored. */
  ghost predicate Stored(v: seq<Point>, l: seq<Point>, begin: nat, latest: Option<Timestamp>) {
    && begin <= |v|
    && StrictlyIncreasing(v)
    && StrictlyIncreasing(l)
    && (latest.None? ==> v == [] && l == [])
    && (latest.Some? ==> AllBelow(v, latest.value + 1) && AllBelow(l, latest.value + 1))
  }

  /** The simple meaning: the live suffix with late corrections laid over it. */
  ghost function LiveMap(v: seq<Point>, l: seq<Point>, begin: nat): Series
    requires begin <= |v|
  {
    AsMap(v[begin..]) + AsMap(l)
  }

  class SequenceWindow {
    var points: seq<Point>
    var latePoints: seq<Point>
    var activeBegin: nat
    var latestTime: Option<Timestamp>
    var statisticsValid: bool
    var statisticsCount: nat
    var nonNumericCount: nat
    var statisticsSum: real
    var minimumDeque: seq<Sample>
    var maximumDeque: seq<Sample>

    ghost predicate Shape()
      reads this
    {
      activeBegin <= |points| && Stored(points, latePoints, activeBegin, latestTime)
    }

    /** The running statistics describe exactly the points of `s`. */
    ghost predicate Tracks(s: seq<Point>)
      reads this
    {
      && statisticsCount == NumericCount(s)
      && statisticsCount + nonNumericCount == |s|
      && statisticsSum == NumericSum(s)
      && minimumDeque == SuffixExtremes(Lowest, s)
      && maximumDeque == SuffixExtremes(Highest, s)
    }

    ghost predicate StatisticsAgree()
      reads this
      requires activeBegin <= |points|
    {
      statisticsValid ==> latePoints == [] && Tracks(points[activeBegin..])
    }

    /** What holds of a window between operations. */
    ghost predicate Valid()
      reads this
      ensures Valid() ==> activeBegin <= |points|
    {
      && Shape()
      && StatisticsAgree()
      && |latePoints| < LATE_POINT_FLUSH_THRESHOLD
      && (activeBegin < COMPACTION_THRESHOLD || 2 * activeBegin < |points|)
    }

    ghost function Live(): Series
      reads this
      requires activeBegin <= |points|
    {
      LiveMap(points, latePoints, activeBegin)
    }

    constructor ()
      ensures Valid() && Live() == map[] && latestTime == None && statisticsValid
    {
      points, latePoints, activeBegin, latestTime := [], [], 0, None;
      statisticsValid, statisticsCount, nonNumericCount, statisticsSum := true, 0, 0, 0.0;
      minimumDeque, maximumDeque := [], [];
    }

    predicate Empty()
      reads this
    {
      activeBegin >= |points| && latePoints == []
    }

    method ResetStatistics()
      modifies `statisticsValid, `statisticsCount, `nonNumericCount, `statisticsSum, `minimumDeque, `maximumDeque
      ensures statisticsValid && Tracks([])
    {
      statisticsValid := true;
      statisticsCount, nonNumericCount, statisticsSum := 0, 0, 0.0;
      minimumDeque, maximumDeque := [], [];
    }

    method AppendStatistic(p: Point, ghost s: seq<Point>)
      requires statisticsValid ==> Tracks(s)
      modifies `statisticsCount, `nonNumericCount, `statisticsSum, `minimumDeque, `maximumDeque
      ensures statisticsValid ==> Tracks(s + [p])
    {
      if !statisticsValid {
        return;
      }
      SuffixExtremesAppend(Lowest, s, p);
      SuffixExtremesAppend(Highest, s, p);
      assert (s + [p])[..|s|] == s;
      if p.value.NonNumeric? {
        nonNumericCount := nonNumericCount + 1;
        return;
      }
      var value := p.value.amount;
      statisticsCount := statisticsCount + 1;
      statisticsSum := statisticsSum + value;
      minimumDeque := PushExtreme(Lowest, minimumDeque, p.time, value);
      maximumDeque := PushExtreme(Highest, maximumDeque, p.time, value);
    }

    method RemoveStatistic(p: Point, ghost s: seq<Point>)
      requires StrictlyIncreasing([p] + s)
      requires statisticsValid ==> Tracks([p] + s)
      modifies `statisticsCount, `nonNumericCount, `statisticsSum, `minimumDeque, `maximumDeque
      ensures statisticsValid ==> Tracks(s)
    {
      hide NumericCount, NumericSum, SuffixExtremes;
      if !statisticsValid {
        return;
      }
      ghost var whole := [p] + s;
      assert whole[1..] == s;
      DropFirstTotals(whole);
      SuffixExtremesDropFirst(Lowest, whole);
      SuffixExtremesDropFirst(Highest, whole);
      if p.value.NonNumeric? {
        CountAtMostLength(s);
        if nonNumericCount != 0 {
          nonNumericCount := nonNumericCount - 1;
        }
        return;
      }
      if statisticsCount != 0 {
        statisticsCount := statisticsCount - 1;
      }
      statisticsSum := statisticsSum - p.value.amount;
      if minimumDeque != [] && minimumDeque[0].time == p.time {
        minimumDeque := minimumDeque[1..];
      }
      if maximumDeque != [] && maximumDeque[0].time == p.time {
        maximumDeque := maximumDeque[1..];
      }
    }

    method CompactSequence()
      requires activeBegin <= |points|
      modifies `points, `activeBegin
      ensures activeBegin == 0 && points == old(points[activeBegin..])
    {
      if activeBegin == 0 {
        return;
      }
      if activeBegin >= |points| {
        points := [];
        activeBegin := 0;
        return;
      }
      points := points[activeBegin..];
      activeBegin := 0;
    }

    /** Folds sorted points into the vector; the buffer is already empty here. */
    method MergeSortedPoints(incoming: seq<Point>)
      requires Shape() && latePoints == [] && StrictlyIncreasing(incoming)
      modifies `points, `activeBegin, `latestTime, `statisticsValid
      ensures Shape() && activeBegin == 0 && !statisticsValid
      ensures Live() == old(Live()) + AsMap(incoming)
      ensures latestTime == if incoming == [] then old(latestTime) else LastTime(Live())
    {
      hide AsMap, Stored, StrictlyIncreasing, LastTime;
      statisticsValid := false;
      StoredCompact(points, latePoints, activeBegin, latestTime);
      CompactSequence();
      AsMapNil(latePoints);
      assert points[activeBegin..] == points;
      if incoming == [] {
        AsMapNil(incoming);
        return;
      }
      points := FoldInto(points, incoming);
      activeBegin := 0;
      latestTime := Some(points[|points| - 1].time);
      StoredSorted(points);
      LastTimeOf(points);
      assert points[activeBegin..] == points;
      LiveWithoutLate(points, activeBegin);
    }

    method FlushLatePoints()
      requires Shape() && StatisticsAgree()
      modifies `points, `latePoints, `activeBegin, `latestTime, `statisticsValid
      ensures Shape() && StatisticsAgree() && latePoints == []
      ensures Live() == old(Live())
      ensures old(latePoints) != [] ==> activeBegin == 0
      ensures old(latePoints) == [] ==> unchanged(this)
      ensures old(latePoints) != [] ==> latestTime == LastTime(Live())
    {
      hide AsMap, Stored, StrictlyIncreasing, LastTime;
      if latePoints == [] {
        return;
      }
      var incoming := latePoints;
      StoredWithoutLate(points, latePoints, activeBegin, latestTime);
      latePoints := [];
      AsMapNil(latePoints);
      MergeSortedPoints(incoming);
    }

    /** Resets the statistics and feeds them every live point of the vector. */
    method RescanVector()
      requires activeBegin <= |points|
      modifies `statisticsValid, `statisticsCount, `nonNumericCount, `statisticsSum, `minimumDeque, `maximumDeque
      ensures statisticsValid && Tracks(points[activeBegin..])
    {
      hide NumericCount, NumericSum, SuffixExtremes;
      ResetStatistics();
      var index := activeBegin;
      assert points[activeBegin..index] == [];
      while index < |points|
        invariant activeBegin <= index <= |points|
        invariant Tracks(points[activeBegin..index])
        modifies `statisticsCount, `nonNumericCount, `statisticsSum, `minimumDeque, `maximumDeque
      {
        AppendStatistic(points[index], points[activeBegin..index]);
        assert points[activeBegin..index] + [points[index]] == points[activeBegin..index + 1];
        index := index + 1;
      }
      assert points[activeBegin..|points|] == points[activeBegin..];
    }

    method RebuildStatistics()
      requires Valid()
      modifies this
      ensures Valid() && statisticsValid
      ensures Live() == old(Live())
      ensures latestTime == if old(latePoints) == [] then old(latestTime) else LastTime(Live())
    {
      hide AsMap, Stored, NumericCount, NumericSum, SuffixExtremes, LastTime;
      FlushLatePoints();
      RescanVector();
    }

    /** Throws the content away for a new batch, the last duplicate winning. */
    method ReplaceSequence(data: seq<Point>)
      modifies this
      ensures Valid() && statisticsValid
      ensures Live() == AsMap(data) && latestTime == LastTime(Live())
    {
      hide AsMap, Stored, StrictlyIncreasing, LastTime, NumericCount, NumericSum, SuffixExtremes;
      points := SortUnique(data);
      activeBegin := 0;
      latePoints := [];
      latestTime := if points == [] then None else Some(points[|points| - 1].time);
      StoredSorted(points);
      LastTimeOf(points);
      AsMapNil(latePoints);
      assert points[0..] == points;
      RescanVector();
    }

    /** Takes every point of a closed time range out of the vector. */
    method EraseSpan(first: Timestamp, last: Timestamp)
      requires Shape() && latePoints == [] && first <= last
      modifies `points, `activeBegin
      ensures Shape() && activeBegin == 0
      ensures Live() == EraseRange(old(Live()), first, last)
    {
      hide AsMap, Stored, StrictlyIncreasing, EraseRange, LiveMap;
      LiveWithoutLate(points, activeBegin);
      StoredCompact(points, latePoints, activeBegin, latestTime);
      CompactSequence();
      assert points[activeBegin..] == points;
      var begin := LowerBound(points, 0, first);
      var finish := if last == TIMESTAMP_MAX then |points| else UpperBound(points, 0, last);
      StoredCut(points, begin, finish, first, last, latestTime);
      points := points[..begin] + points[finish..];
      LiveWithoutLate(points, activeBegin);
      assert points[activeBegin..] == points;
    }

    /** Rewrites one closed time range of a derived sequence. */
    method PatchRange(first: Timestamp, last: Timestamp, data: seq<Point>)
      requires Valid() && first <= last
      modifies this
      ensures Valid() && !statisticsValid
      ensures Live() == EraseRange(old(Live()), first, last) + AsMap(data)
      ensures data != [] ==> latestTime == LastTime(Live())
      ensures data == [] ==> latestTime == if old(latePoints) == [] then old(latestTime) else LastTime(old(Live()))
    {
      hide AsMap, Stored, NumericCount, NumericSum, SuffixExtremes, EraseRange, LiveMap, LastTime, InOrder;
      FlushLatePoints();
      EraseSpan(first, last);
      var patch := SortUnique(data);
      ListingIsEmpty(data);
      MergeSortedPoints(patch);
    }

    method AppendPoints(incoming: seq<Point>)
      requires Valid() && StrictlyIncreasing(incoming) && incoming != []
      requires latestTime.None? || incoming[0].time > latestTime.value
      modifies this
      ensures Valid()
      ensures Live() == old(Live()) + AsMap(incoming)
      ensures latestTime == Some(incoming[|incoming| - 1].time)
      ensures points == old(points) + incoming && latePoints == old(latePoints) && statisticsValid == old(statisticsValid)
    {
      hide AsMap, Stored, StrictlyIncreasing, NumericCount, NumericSum, SuffixExtremes;
      ghost var suffix := points[activeBegin..];
      StoredAppend(points, activeBegin, latePoints, incoming, latestTime);
      assert suffix + incoming[..0] == suffix;
      for k := 0 to |incoming|
        invariant points == old(points) + incoming[..k]
        invariant latestTime == if k == 0 then old(latestTime) else Some(incoming[k - 1].time)
        invariant statisticsValid ==> Tracks(suffix + incoming[..k])
        modifies `points, `latestTime, `statisticsCount, `nonNumericCount, `statisticsSum, `minimumDeque, `maximumDeque
      {
        points := points + [incoming[k]];
        latestTime := Some(points[|points| - 1].time);
        AppendStatistic(points[|points| - 1], suffix + incoming[..k]);
        assert suffix + incoming[..k] + [incoming[k]] == suffix + incoming[..k + 1];
      }
      assert incoming[..|incoming|] == incoming;
      assert points[activeBegin..] == suffix + incoming;
    }

    method BufferLatePoints(incoming: seq<Point>)
      requires Shape() && StrictlyIncreasing(incoming)
      modifies `latePoints, `latestTime, `statisticsValid
      ensures Shape() && !statisticsValid
      ensures Live() == old(Live()) + AsMap(incoming)
      ensures AsMap(latePoints) == AsMap(old(latePoints)) + AsMap(incoming)
      ensures latestTime == if incoming == [] then old(latestTime) else Later(old(latestTime), Some(incoming[|incoming| - 1].time))
    {
      hide AsMap, Stored;
      statisticsValid := false;
      AsMapNil(incoming[..0]);
      for k := 0 to |incoming|
        invariant Shape() && !statisticsValid
        invariant AsMap(latePoints) == AsMap(old(latePoints)) + AsMap(incoming[..k])
        invariant latestTime == if k == 0 then old(latestTime) else Later(old(latestTime), Some(incoming[k - 1].time))
      {
        var p := incoming[k];
        StoredPut(points, latePoints, activeBegin, latestTime, p);
        assert incoming[..k + 1] == incoming[..k] + [p];
        WriteLast(incoming[..k], p);
        OverlayTop(AsMap(old(latePoints)), AsMap(incoming[..k]), p.time, p.value, p.value);
        latePoints := Put(latePoints, p);
        if latestTime.None? || p.time > latestTime.value {
          latestTime := Some(p.time);
        }
      }
      assert incoming[..|incoming|] == incoming;
    }

    /** Buffers corrections, and folds the buffer into the vector once it has grown enough. */
    method BufferOrFlush(incoming: seq<Point>)
      requires Valid() && StrictlyIncreasing(incoming)
      modifies `points, `latePoints, `activeBegin, `latestTime, `statisticsValid
      ensures Valid()
      ensures Live() == old(Live()) + AsMap(incoming)
      ensures latestTime ==
              if incoming == [] then old(latestTime)
              else if Flushes(old(latePoints), incoming) then LastTime(Live())
              else Later(old(latestTime), Some(incoming[|incoming| - 1].time))
    {
      hide AsMap, Stored, StrictlyIncreasing, NumericCount, NumericSum, SuffixExtremes, LastTime, LiveMap, Later;
      StoredWithoutLate(points, latePoints, activeBegin, latestTime);
      BufferLatePoints(incoming);
      BufferSize(points, latePoints, activeBegin, latestTime);
      if incoming == [] { NothingBuffered(old(latePoints), incoming, latePoints); }
      if |latePoints| >= LATE_POINT_FLUSH_THRESHOLD {
        FlushLatePoints();
      }
    }

    /** One sequence's share of a batch. `incoming` is already sorted; the flag
        says whether it arrived strictly increasing. */
    method UpdateSequence(incoming: seq<Point>, strictlyIncreasing: bool) returns (incrementalSafe: bool)
      requires Valid() && StrictlyIncreasing(incoming)
      modifies this
      ensures Valid()
      ensures Live() == old(Live()) + AsMap(incoming)
      ensures incrementalSafe <==> strictlyIncreasing && incoming != []
                                   && (old(latestTime).None? || incoming[0].time > old(latestTime).value)
      ensures latestTime ==
              if incoming == [] then old(latestTime)
              else if incrementalSafe || old(Live()) == map[] then Some(incoming[|incoming| - 1].time)
              else if Flushes(old(latePoints), incoming) then LastTime(Live())
              else Later(old(latestTime), Some(incoming[|incoming| - 1].time))
    {
      hide AsMap, Stored, StrictlyIncreasing, NumericCount, NumericSum, SuffixExtremes, LastTime, LiveMap, Flushes, Later;
      NothingLive(points, latePoints, activeBegin);
      LastTimeOf(incoming);
      assert map[] + AsMap(incoming) == AsMap(incoming);
      var hasActivePoints := !Empty();
      var appendOnly := strictlyIncreasing && incoming != []
                        && (latestTime.None? || incoming[0].time > latestTime.value);
      if appendOnly {
        AppendPoints(incoming);
        incrementalSafe := true;
      } else if !hasActivePoints && latePoints == [] {
        MergeSortedPoints(incoming);
        incrementalSafe := false;
      } else {
        BufferOrFlush(incoming);
        incrementalSafe := false;
      }
    }

    /** One sequence's share of a batch as it arrived. */
    method TakeBatch(batch: seq<Point>) returns (safe: bool)
      requires Valid()
      modifies this
      ensures Valid() && Live() == old(Live()) + AsMap(batch)
      ensures safe <==> AppendsOnly(old(latestTime), batch)
      ensures latestTime.Some? && latestTime != old(latestTime) ==> latestTime.value in Live()
      ensures Attained(old(latestTime), old(Live())) ==>
                latestTime == Update(batch).LatestOn(old(Live()), old(latestTime)) && Attained(latestTime, Live())
    {
      hide AsMap, Stored, StrictlyIncreasing, InOrder, NumericCount, NumericSum, SuffixExtremes, LiveMap, LastTime, Later, Flushes;
      ghost var m, latest := Live(), latestTime;
      LatestBoundsLive(points, latePoints, activeBegin, latestTime);
      LastTimeHeld(m);
      var increasing := ArrivedIncreasing(batch);
      var sorted := SortUnique(batch);
      SortedAlready(batch);
      safe := UpdateSequence(sorted, increasing);
      SortedLast(sorted, latest, batch);
      if Attained(latest, m) { UpdateMovesLatest(m, latest, batch, Live()); }
      LastTimeHeld(Live());
      LatestBoundsLive(points, latePoints, activeBegin, latestTime);
      AttainedStep(Update(batch), m, latest, Live(), latestTime);
    }

    /** Takes the points before `firstActive` out of the statistics. */
    method RemoveExpired(firstActive: nat)
      requires activeBegin <= firstActive <= |points| && StrictlyIncreasing(points)
      requires statisticsValid ==> Tracks(points[activeBegin..])
      modifies `statisticsCount, `nonNumericCount, `statisticsSum, `minimumDeque, `maximumDeque
      ensures statisticsValid ==> Tracks(points[firstActive..])
    {
      hide NumericCount, NumericSum, SuffixExtremes;
      var index := activeBegin;
      while index < firstActive
        invariant activeBegin <= index <= firstActive
        invariant statisticsValid ==> Tracks(points[index..])
      {
        assert points[index..] == [points[index]] + points[index + 1..];
        RemoveStatistic(points[index], points[index + 1..]);
        index := index + 1;
      }
    }

    /** Evicts everything before `start`; says whether anything live went. */
    method Prune(start: Timestamp) returns (evicted: bool)
      requires Valid()
      modifies this
      ensures Valid() && latestTime == old(latestTime)
      ensures Live() == DropBelow(old(Live()), start)
      ensures evicted <==> Expires(old(Live()), start)
      ensures LatePruned(old(latePoints), start, latePoints) && (statisticsValid <==> old(statisticsValid) && latePoints == old(latePoints))
      ensures VectorPruned(old(points), old(activeBegin), start, points, activeBegin)
    {
      hide AsMap, Stored, StrictlyIncreasing, NumericCount, NumericSum, SuffixExtremes, DropBelow, Expires, LiveMap;
      var firstActive := LowerBound(points, activeBegin, start);
      var lateEnd := LowerBound(latePoints, 0, start);
      StoredPrune(points, activeBegin, latePoints, start, latestTime);
      RemoveExpired(firstActive);
      evicted := firstActive != activeBegin || lateEnd != 0;
      if lateEnd != 0 {
        statisticsValid := false;
      }
      activeBegin := firstActive;
      latePoints := latePoints[lateEnd..];
      StoredCompact(points, latePoints, activeBegin, latestTime);
      if activeBegin >= COMPACTION_THRESHOLD && activeBegin * 2 >= |points| {
        CompactSequence();
        assert points[activeBegin..] == points;
      }
    }

    /** Range query with positional context on both sides. */
    method QueryData(start: Timestamp, end: Timestamp, preceding: nat, following: nat)
      returns (output: seq<Point>, count: nat)
      requires Valid() && start <= end
      ensures output == Excerpt(InOrder(Live()), start, end, preceding, following)
      ensures count == |output|
    {
      hide AsMap, StrictlyIncreasing, InOrder, Excerpt, NumericCount, NumericSum, SuffixExtremes;
      StoredCompact(points, latePoints, activeBegin, latestTime);
      output, count := QueryMerged(points[activeBegin..], latePoints, start, end, preceding, following);
    }

    /** Statistics from the cache, rebuilt first when a correction spoiled it. */
    method QueryStatistics() returns (answer: StatisticsAnswer)
      requires Valid()
      modifies this
      ensures Valid() && Live() == old(Live())
      ensures latestTime == if old(statisticsValid || latePoints == []) then old(latestTime) else LastTime(Live())
      ensures answer == ScratchStatistics(InOrder(Live()))
    {
      hide LastTime, AsMap, Stored, StrictlyIncreasing, InOrder, NumericCount, NumericSum, SuffixExtremes, LiveMap;
      if !statisticsValid {
        RebuildStatistics();
      }
      LiveListing(points, activeBegin, latestTime);
      ghost var live := points[activeBegin..];
      FrontIsScanBest(Lowest, live);
      FrontIsScanBest(Highest, live);
      if nonNumericCount != 0 {
        answer := NonNumericContent;
      } else if statisticsCount == 0 {
        answer := NoSamples;
      } else {
        ScratchDefined(live);
        var average := statisticsSum / (statisticsCount as real);
        answer := StatisticsAnswer.Statistics(statisticsCount, average, maximumDeque[0].amount, minimumDeque[0].amount);
      }
    }

    /** Carries out one operation. */
    method Perform(op: Operation)
      requires Valid() && op.Sound()
      modifies this
      ensures Valid() && Live() == op.On(old(Live()))
      ensures latestTime.Some? && latestTime != old(latestTime) ==> latestTime.value in old(Live()) || latestTime.value in Live()
      ensures forall t :: t in Live() ==> latestTime.Some? && t <= latestTime.value
      ensures op.Replace? ==> latestTime == LastTime(Live())
      ensures Attained(old(latestTime), old(Live())) ==>
                latestTime == op.LatestOn(old(Live()), old(latestTime))
                && ((op.Patch? ==> op.data != []) ==> Attained(latestTime, Live()))
    {
      hide AsMap, Stored, InOrder, NumericCount, NumericSum, SuffixExtremes, LiveMap, EraseRange, DropBelow, LastTime, Later, Flushes;
      ghost var m, latest := Live(), latestTime;
      LatestBoundsLive(points, latePoints, activeBegin, latestTime);
      NothingLive(points, latePoints, activeBegin);
      LastTimeHeld(m);
      match op {
        case Update(batch) => var _ := TakeBatch(batch);
        case Evict(start) => var _ := Prune(start);
        case Replace(data) => ReplaceSequence(data);
        case Patch(first, last, data) => PatchRange(first, last, data);
        case Measure => var _ := QueryStatistics();
      }
      LastTimeHeld(Live());
      LatestBoundsLive(points, latePoints, activeBegin, latestTime);
      AttainedStep(op, m, latest, Live(), latestTime);
    }

    /** Any sequential run of operations keeps the window equal to a plain map. */
    method Run(ops: seq<Operation>)
      requires Valid() && forall i :: 0 <= i < |ops| ==> ops[i].Sound()
      modifies this
      ensures Valid() && Live() == MapAfter(ops, old(Live()))
      ensures Attained(old(latestTime), old(Live())) && NoEmptyPatch(ops) ==>
                latestTime == LatestAfter(ops, old(Live()), old(latestTime)) && Attained(latestTime, Live())
      ensures forall written :: AllWritten(old(latestTime), old(Live()), written) ==> AllWritten(latestTime, Live(), Written(ops, written))
    {
      hide *;
      ghost var m, latest := Live(), latestTime;
      NothingRun(m, latest);
      assert ops[..0] == [];
      for i := 0 to |ops|
        invariant Valid() && Live() == MapAfter(ops[..i], m)
        invariant Attained(latest, m) && NoEmptyPatch(ops) ==> latestTime == LatestAfter(ops[..i], m, latest) && Attained(latestTime, Live())
        invariant forall written :: AllWritten(latest, m, written) ==> AllWritten(latestTime, Live(), Written(ops[..i], written))
      {
        ghost var mid, midLatest := Live(), latestTime;
        Perform(ops[i]);
        RunStep(ops, i, m, latest, mid, midLatest, Live(), latestTime);
      }
      assert ops[..|ops|] == ops;
    }
  }

  /** An operation on one sequence window. */
  datatype Operation =
    | Update(batch: seq<Point>)
    | Evict(start: Timestamp)
    | Replace(data: seq<Point>)
    | Patch(first: Timestamp, last: Timestamp, data: seq<Point>)
    | Measure
  {
    predicate Sound() { Patch? ==> first <= last }

    /** Its effect on the plain map: last write wins, old keys go, ranges are rewritten. */
    ghost function On(m: Series): Series {
      match this
      case Update(batch) => m + AsMap(batch)
      case Evict(start) => DropBelow(m, start)
      case Replace(data) => AsMap(data)
      case Patch(first, last, data) => EraseRange(m, first, last) + AsMap(data)
      case Measure => m
    }

    /** Its effect on the latest time of a window that holds `m`. */
    ghost function LatestOn(m: Series, latest: Option<Timestamp>): Option<Timestamp> {
      match this
      case Update(batch) => if m == map[] && batch != [] then LastTime(AsMap(batch)) else Later(latest, LastTime(AsMap(batch)))
      case Evict(_) => latest
      case Replace(data) => LastTime(AsMap(data))
      case Patch(_, _, data) => if data == [] then latest else LastTime(On(m))
      case Measure => latest
    }

    /** Every instant written since the last replacement. */
    ghost function WrittenOn(written: set<Timestamp>): set<Timestamp> {
      match this
      case Update(batch) => written + AsMap(batch).Keys
      case Replace(data) => AsMap(data).Keys
      case Patch(_, _, data) => written + AsMap(data).Keys
      case Evict(_) => written
      case Measure => written
    }
  }

  ghost function MapAfter(ops: seq<Operation>, m: Series): Series {
    if ops == [] then m else ops[|ops| - 1].On(MapAfter(ops[..|ops| - 1], m))
  }

  ghost function LatestAfter(ops: seq<Operation>, m: Series, latest: Option<Timestamp>): Option<Timestamp> {
    if ops == [] then latest
    else ops[|ops| - 1].LatestOn(MapAfter(ops[..|ops| - 1], m), LatestAfter(ops[..|ops| - 1], m, latest))
  }

  ghost function Written(ops: seq<Operation>, before: set<Timestamp>): set<Timestamp> {
    if ops == [] then before else ops[|ops| - 1].WrittenOn(Written(ops[..|ops| - 1], before))
  }

  ghost predicate NoEmptyPatch(ops: seq<Operation>) {
    forall i :: 0 <= i < |ops| && ops[i].Patch? ==> ops[i].data != []
  }

  /** The latest time is the greatest live instant unless nothing is live. */
  ghost predicate Attained(latest: Option<Timestamp>, m: Series) {
    m != map[] ==> latest == LastTime(m)
  }

  ghost predicate AllWritten(latest: Option<Timestamp>, m: Series, written: set<Timestamp>) {
    (forall t :: t in m ==> t in written) && (latest.Some? ==> latest.value in written)
  }

  lemma LatestBoundsLive(v: seq<Point>, l: seq<Point>, begin: nat, latest: Option<Timestamp>)
    requires Stored(v, l, begin, latest)
    ensures forall t :: t in LiveMap(v, l, begin) ==> latest.Some? && t <= latest.value
  {
    hide AsMap, LowerBound;
    var live := v[begin..];
    forall t | t in LiveMap(v, l, begin) ensures latest.Some? && t <= latest.value {
      AsMapAt(live, t);
      AsMapAt(l, t);
    }
  }

  lemma LastTimeHeld(m: Series)
    ensures LastTime(m).Some? <==> m != map[]
    ensures LastTime(m).Some? ==> LastTime(m).value in m && forall t :: t in m ==> t <= LastTime(m).value
  {
  }

  lemma SortedLast(sorted: seq<Point>, latest: Option<Timestamp>, batch: seq<Point>)
    requires sorted == InOrder(AsMap(batch))
    ensures sorted == [] <==> batch == []
    ensures sorted != [] ==> var last := sorted[|sorted| - 1].time;
                             LastTime(AsMap(batch)) == Some(last) && last in AsMap(batch) && Later(latest, Some(last)) in [latest, Some(last)]
  {
    hide InOrder, AsMap;
    ListingIsEmpty(batch);
    LastTimeOf(sorted);
    if sorted != [] { AsMapOfPoint(sorted, |sorted| - 1); }
  }

  /** All branches of an update move the latest time alike while it is attained. */
  lemma UpdateMovesLatest(m: Series, latest: Option<Timestamp>, batch: seq<Point>, after: Series)
    requires forall t :: t in m ==> latest.Some? && t <= latest.value
    requires after == m + AsMap(batch) && Attained(latest, m)
    ensures batch == [] ==> Update(batch).LatestOn(m, latest) == latest
    ensures m == map[] && batch != [] ==> Update(batch).LatestOn(m, latest) == LastTime(AsMap(batch))
    ensures m != map[] && batch != [] ==> Update(batch).LatestOn(m, latest) == Later(latest, LastTime(AsMap(batch))) == LastTime(after)
  {
    hide AsMap, LastTime;
    AsMapNil([]);
    LastTimeHeld(m);
    LastTimeHeld(after);
    LastTimeHeld(AsMap(batch));
  }

  lemma NothingRun(m: Series, latest: Option<Timestamp>)
    ensures MapAfter([], m) == m && LatestAfter([], m, latest) == latest
    ensures forall written :: Written([], written) == written
  {
  }

  lemma RunStep(ops: seq<Operation>, i: nat, m: Series, latest: Option<Timestamp>, mid: Series, midLatest: Option<Timestamp>, now: Series, nowLatest: Option<Timestamp>)
    requires i < |ops| && mid == MapAfter(ops[..i], m) && now == ops[i].On(mid)
    requires nowLatest.Some? && nowLatest != midLatest ==> nowLatest.value in mid || nowLatest.value in now
    requires ops[i].Replace? ==> nowLatest == LastTime(now)
    requires Attained(midLatest, mid) ==> nowLatest == ops[i].LatestOn(mid, midLatest)
    requires forall t :: t in now ==> nowLatest.Some? && t <= nowLatest.value
    ensures now == MapAfter(ops[..i + 1], m)
    ensures NoEmptyPatch(ops) && Attained(midLatest, mid) ==> Attained(nowLatest, now)
    ensures midLatest == LatestAfter(ops[..i], m, latest) && Attained(midLatest, mid) ==> nowLatest == LatestAfter(ops[..i + 1], m, latest)
    ensures forall written :: AllWritten(midLatest, mid, Written(ops[..i], written)) ==> AllWritten(nowLatest, now, Written(ops[..i + 1], written))
  {
    assert ops[..i + 1][..i] == ops[..i];
    hide MapAfter, LatestAfter;
    AttainedStep(ops[i], mid, midLatest, now, nowLatest);
    forall written | AllWritten(midLatest, mid, Written(ops[..i], written)) ensures AllWritten(nowLatest, now, Written(ops[..i + 1], written)) {
      WrittenStep(ops[i], mid, midLatest, now, nowLatest, Written(ops[..i], written));
    }
  }

  lemma AttainedStep(op: Operation, mid: Series, midLatest: Option<Timestamp>, now: Series, nowLatest: Option<Timestamp>)
    requires now == op.On(mid) && (Attained(midLatest, mid) ==> nowLatest == op.LatestOn(mid, midLatest))
    requires forall t :: t in now ==> nowLatest.Some? && t <= nowLatest.value
    ensures Attained(midLatest, mid) && (op.Patch? ==> op.data != []) ==> Attained(nowLatest, now)
  {
    hide AsMap, EraseRange;
    LastTimeHeld(mid);
    LastTimeHeld(now);
    match op {
      case Update(batch) =>
        AsMapNil([]);
        LastTimeHeld(AsMap(batch));
        if batch != [] { ListedTime(batch); }
      case Evict(start) =>
        if now != map[] && Attained(midLatest, mid) {
          assert LastTime(now).value in mid;
          assert midLatest.value in now;
        }
      case _ =>
    }
  }

  lemma ListedTime(batch: seq<Point>)
    requires batch != []
    ensures AsMap(batch) != map[]
  {
    assert batch[|batch| - 1].time in AsMap(batch);
  }

  lemma WrittenStep(op: Operation, mid: Series, midLatest: Option<Timestamp>, now: Series, nowLatest: Option<Timestamp>, written: set<Timestamp>)
    requires now == op.On(mid) && AllWritten(midLatest, mid, written)
    requires nowLatest.Some? && nowLatest != midLatest ==> nowLatest.value in mid || nowLatest.value in now
    requires op.Replace? ==> nowLatest == LastTime(now)
    ensures AllWritten(nowLatest, now, op.WrittenOn(written))
  {
    hide AsMap;
    LastTimeHeld(now);
  }

  /** The batch arrived in strictly increasing order and beyond everything seen. */
  ghost predicate AppendsOnly(latest: Option<Timestamp>, incoming: seq<Point>) {
    && incoming != []
    && StrictlyIncreasing(incoming)
    && (latest.None? || incoming[0].time > latest.value)
  }

  lemma {:induction false} SortedAlready(s: seq<Point>)
    ensures StrictlyIncreasing(s) ==> InOrder(AsMap(s)) == s
    ensures s == [] <==> InOrder(AsMap(s)) == []
  {
    hide AsMap, InOrder;
    ListingIsEmpty(s);
    if StrictlyIncreasing(s) { InOrderOfAsMap(s); }
  }

  /** Whether a batch arrived in strictly increasing time order. */
  method ArrivedIncreasing(batch: seq<Point>) returns (increasing: bool)
    ensures increasing <==> StrictlyIncreasing(batch)
  {
    increasing := true;
    var index := 1;
    while index < |batch|
      invariant 1 <= index <= Max(|batch|, 1)
      invariant StrictlyIncreasing(batch[..Min(index, |batch|)])
    {
      if batch[index].time <= batch[index - 1].time {
        return false;
      }
      assert forall i :: 0 <= i < index ==> batch[i] == batch[..index][i];
      index := index + 1;
    }
    assert batch[..|batch|] == batch;
  }

  /** With no late corrections the live listing is the live vector. */
  lemma LiveListing(v: seq<Point>, begin: nat, latest: Option<Timestamp>)
    requires Stored(v, [], begin, latest)
    ensures InOrder(LiveMap(v, [], begin)) == v[begin..]
  {
    hide AsMap, InOrder;
    LiveWithoutLate(v, begin);
    InOrderOfAsMap(v[begin..]);
  }

  /** Pops the beaten back of a deque and pushes the new amount. */
  method PushExtreme(kind: Extreme, deque: seq<Sample>, time: Timestamp, value: real) returns (pushed: seq<Sample>)
    ensures pushed == PopBack(kind, deque, value) + [Sample(time, value)]
  {
    pushed := deque;
    while pushed != [] && !Beats(kind, pushed[|pushed| - 1].amount, value)
      invariant PopBack(kind, pushed, value) == PopBack(kind, deque, value)
    {
      pushed := pushed[..|pushed| - 1];
    }
    pushed := pushed + [Sample(time, value)];
  }

  /** Writes sorted points into an ordered vector behind a moving search index. */
  method InsertSorted(base: seq<Point>, incoming: seq<Point>) returns (merged: seq<Point>)
    requires StrictlyIncreasing(base) && StrictlyIncreasing(incoming)
    ensures StrictlyIncreasing(merged) && AsMap(merged) == AsMap(base) + AsMap(incoming)
  {
    hide AsMap;
    merged := base;
    var searchBegin: nat := 0;
    AsMapNil(incoming[..0]);
    for k := 0 to |incoming|
      invariant searchBegin <= |merged| && StrictlyIncreasing(merged)
      invariant AsMap(merged) == AsMap(base) + AsMap(incoming[..k])
      invariant k < |incoming| ==> forall i :: 0 <= i < searchBegin ==> merged[i].time < incoming[k].time
    {
      var p := incoming[k];
      var index := LowerBound(merged, searchBegin, p.time);
      SpliceMeaning(merged, index, p);
      assert incoming[..k + 1] == incoming[..k] + [p];
      WriteLast(incoming[..k], p);
      OverlayTop(AsMap(base), AsMap(incoming[..k]), p.time, p.value, p.value);
      merged := Splice(merged, index, p);
      searchBegin := index + 1;
      assert merged[index] == p;
    }
    assert incoming[..|incoming|] == incoming;
  }

  /** Merges sorted points into an ordered vector: appended whole when all are newer. */
  method FoldInto(base: seq<Point>, incoming: seq<Point>) returns (merged: seq<Point>)
    requires StrictlyIncreasing(base) && StrictlyIncreasing(incoming) && incoming != []
    ensures StrictlyIncreasing(merged) && merged != []
    ensures AsMap(merged) == AsMap(base) + AsMap(incoming)
  {
    hide AsMap;
    if base == [] || incoming[0].time > base[|base| - 1].time {
      AppendRun(base, incoming);
      merged := base + incoming;
    } else {
      merged := InsertSorted(base, incoming);
      AsMapEmpty(base, incoming, merged);
    }
  }

  /** The corrections before `start` are gone. */
  ghost predicate LatePruned(before: seq<Point>, start: Timestamp, after: seq<Point>) {
    after == before[LowerBound(before, 0, start)..]
  }

  /** The points before `start` join the dead prefix, which is dropped once it is long
      enough in itself and next to the rest. */
  ghost predicate VectorPruned(before: seq<Point>, begin: nat, start: Timestamp, after: seq<Point>, newBegin: nat)
    requires begin <= |before|
  {
    var k := LowerBound(before, begin, start);
    if k >= COMPACTION_THRESHOLD && k * 2 >= |before| then newBegin == 0 && after == before[k..] else newBegin == k && after == before
  }

  /** The corrections waiting with these would reach the flush threshold. */
  ghost predicate Flushes(late: seq<Point>, incoming: seq<Point>) {
    |AsMap(late) + AsMap(incoming)| >= LATE_POINT_FLUSH_THRESHOLD
  }

  lemma NothingBuffered(before: seq<Point>, incoming: seq<Point>, after: seq<Point>)
    requires incoming == [] && AsMap(after) == AsMap(before) + AsMap(incoming) && |AsMap(after)| == |after|
    requires StrictlyIncreasing(before)
    ensures |after| == |before|
  {
    SizeOfMap(before);
    assert AsMap(before) + map[] == AsMap(before);
  }

  lemma BufferSize(v: seq<Point>, l: seq<Point>, begin: nat, latest: Option<Timestamp>)
    requires Stored(v, l, begin, latest)
    ensures |AsMap(l)| == |l|
  {
    SizeOfMap(l);
  }

  lemma ListingIsEmpty(data: seq<Point>)
    ensures InOrder(AsMap(data)) == [] <==> data == []
  {
    hide AsMap, InOrder;
    AsMapNil([]);
    if data == [] {
      InOrderOfAsMap([]);
    } else {
      WriteLast(data[..|data| - 1], data[|data| - 1]);
      assert data == data[..|data| - 1] + [data[|data| - 1]];
      assert data[|data| - 1].time in AsMap(data);
    }
  }

  lemma NothingLive(v: seq<Point>, l: seq<Point>, begin: nat)
    requires begin <= |v|
    ensures LiveMap(v, l, begin) == map[] <==> begin == |v| && l == []
  {
    assert begin < |v| ==> v[|v| - 1].time in AsMap(v[begin..]);
    assert l != [] ==> l[|l| - 1].time in AsMap(l);
  }

  lemma LiveWithoutLate(v: seq<Point>, begin: nat)
    requires begin <= |v|
    ensures LiveMap(v, [], begin) == AsMap(v[begin..])
  {
  }

  /** Something in the map lies before `start`. */
  ghost predicate Expires(m: Series, start: int) {
    exists t :: t in m && t < start
  }

  lemma CountAtMostLength(s: seq<Point>)
    ensures NumericCount(s) <= |s|
  {
    if s != [] { DropFirstTotals(s); }
  }

  lemma {:induction false} AppendRun(s: seq<Point>, t: seq<Point>)
    requires StrictlyIncreasing(s) && StrictlyIncreasing(t)
    requires s == [] || t == [] || s[|s| - 1].time < t[0].time
    ensures StrictlyIncreasing(s + t) && AsMap(s + t) == AsMap(s) + AsMap(t)
  {
    hide AsMap;
    AsMapConcat(s, t);
  }

  lemma {:induction false} AsMapEmpty(base: seq<Point>, incoming: seq<Point>, merged: seq<Point>)
    requires incoming != [] && AsMap(merged) == AsMap(base) + AsMap(incoming)
    ensures merged != []
  {
    assert incoming[|incoming| - 1].time in AsMap(merged);
  }

  lemma StoredSorted(v: seq<Point>)
    requires StrictlyIncreasing(v)
    ensures Stored(v, [], 0, if v == [] then None else Some(v[|v| - 1].time))
  {
  }

  lemma StoredWithoutLate(v: seq<Point>, l: seq<Point>, begin: nat, latest: Option<Timestamp>)
    requires Stored(v, l, begin, latest)
    ensures Stored(v, [], begin, latest) && StrictlyIncreasing(l) && StrictlyIncreasing(v)
  {
  }

  lemma StoredCompact(v: seq<Point>, l: seq<Point>, begin: nat, latest: Option<Timestamp>)
    requires Stored(v, l, begin, latest)
    ensures Stored(v[begin..], l, 0, latest)
    ensures StrictlyIncreasing(v) && StrictlyIncreasing(v[begin..]) && StrictlyIncreasing(l)
    ensures LiveMap(v[begin..], l, 0) == LiveMap(v, l, begin)
  {
    hide AsMap;
    assert v[begin..][0..] == v[begin..];
  }

  lemma {:induction false} StoredPut(v: seq<Point>, l: seq<Point>, begin: nat, latest: Option<Timestamp>, p: Point)
    requires Stored(v, l, begin, latest)
    ensures Stored(v, Put(l, p), begin, if latest.None? || p.time > latest.value then Some(p.time) else latest)
    ensures AsMap(Put(l, p)) == AsMap(l)[p.time := p.value]
  {
    hide AsMap;
    SpliceMeaning(l, LowerBound(l, 0, p.time), p);
  }

  /** Points newer than everything stored also overlay every late correction. */
  lemma {:induction false} StoredAppend(v: seq<Point>, begin: nat, l: seq<Point>, incoming: seq<Point>, latest: Option<Timestamp>)
    requires Stored(v, l, begin, latest) && StrictlyIncreasing(incoming) && incoming != []
    requires latest.None? || latest.value < incoming[0].time
    ensures Stored(v + incoming, l, begin, Some(incoming[|incoming| - 1].time))
    ensures AsMap(v[begin..] + incoming) + AsMap(l) == LiveMap(v, l, begin) + AsMap(incoming)
  {
    hide AsMap;
    AsMapConcat(v[begin..], incoming);
    AsMapKeysBelow(l, incoming[0].time);
    AsMapKeysBelow(incoming, incoming[0].time);
    SwapOverlay(AsMap(v[begin..]), AsMap(incoming), AsMap(l), incoming[0].time);
  }

  lemma {:induction false} SwapOverlay(a: Series, n: Series, l: Series, t: int)
    requires KeysBelow(l, t) && KeysFrom(n, t)
    ensures (a + n) + l == (a + l) + n
  {
  }

  lemma {:induction false} StoredCut(s: seq<Point>, begin: nat, finish: nat, first: Timestamp, last: Timestamp, latest: Option<Timestamp>)
    requires Stored(s, [], 0, latest) && first <= last
    requires begin == LowerBound(s, 0, first)
    requires finish == if last == TIMESTAMP_MAX then |s| else UpperBound(s, 0, last)
    ensures begin <= finish
    ensures Stored(s[..begin] + s[finish..], [], 0, latest)
    ensures AsMap(s[..begin] + s[finish..]) == EraseRange(AsMap(s), first, last)
  {
    hide AsMap, EraseRange;
    CutSides(s, begin, finish, first, last);
    CutMap(s, begin, finish, first, last);
  }

  lemma {:induction false} CutMap(s: seq<Point>, begin: nat, finish: nat, first: Timestamp, last: Timestamp)
    requires StrictlyIncreasing(s) && first <= last && begin <= finish <= |s|
    requires AllBelow(s[..begin], first) && AllFrom(s[begin..finish], first)
    requires AllBelow(s[begin..finish], last + 1) && AllFrom(s[finish..], last + 1)
    ensures AsMap(s[..begin] + s[finish..]) == EraseRange(AsMap(s), first, last)
  {
    hide AsMap, EraseRange, AllBelow, AllFrom, KeysBelow, KeysFrom;
    var a, gone, b := s[..begin], s[begin..finish], s[finish..];
    AsMapKeysBelow(a, first);
    AsMapKeysBelow(gone, first);
    AsMapKeysBelow(gone, last + 1);
    AsMapKeysBelow(b, last + 1);
    AsMapConcat(a, b);
    AsMapConcat(a, gone);
    AsMapConcat(a + gone, b);
    assert a + gone + b == s;
    EraseMiddle(AsMap(a), AsMap(gone), AsMap(b), first, last);
  }

  lemma {:induction false} CutSides(s: seq<Point>, begin: nat, finish: nat, first: Timestamp, last: Timestamp)
    requires StrictlyIncreasing(s) && first <= last
    requires begin == LowerBound(s, 0, first)
    requires finish == if last == TIMESTAMP_MAX then |s| else UpperBound(s, 0, last)
    ensures begin <= finish
    ensures StrictlyIncreasing(s[..begin] + s[finish..])
    ensures AllBelow(s[..begin], first) && AllFrom(s[begin..finish], first)
    ensures AllBelow(s[begin..finish], last + 1) && AllFrom(s[finish..], last + 1)
  {
    hide LowerBound, UpperBound;
  }

  lemma {:induction false} EraseMiddle(a: Series, g: Series, b: Series,
                    first: Timestamp, last: Timestamp)
    requires first <= last
    requires KeysBelow(a, first) && KeysFrom(g, first) && KeysBelow(g, last + 1) && KeysFrom(b, last + 1)
    ensures a + b == EraseRange(a + g + b, first, last)
  {
  }

  lemma {:induction false} StoredPrune(v: seq<Point>, begin: nat, l: seq<Point>, start: Timestamp, latest: Option<Timestamp>)
    requires Stored(v, l, begin, latest)
    ensures StrictlyIncreasing(v)
    ensures var k, j := LowerBound(v, begin, start), LowerBound(l, 0, start);
            var live := LiveMap(v, l, begin);
            && Stored(v, l[j..], k, latest)
            && LiveMap(v, l[j..], k) == DropBelow(live, start)
            && (k != begin || j != 0 <==> Expires(live, start))
  {
    hide AsMap, DropBelow, Expires;
    PruneMeaning(v, begin, l, start);
    PruneWitness(v, begin, l, start);
  }

  lemma {:induction false} PruneMeaning(v: seq<Point>, begin: nat, l: seq<Point>, start: Timestamp)
    requires begin <= |v| && StrictlyIncreasing(v) && StrictlyIncreasing(l)
    ensures LiveMap(v, l[LowerBound(l, 0, start)..], LowerBound(v, begin, start))
            == DropBelow(LiveMap(v, l, begin), start)
  {
    hide AsMap;
    var k := LowerBound(v, begin, start);
    var active := v[begin..];
    LowerBoundIs(active, 0, start, k - begin);
    assert active[k - begin..] == v[k..];
    SuffixIsDropBelow(active, start);
    SuffixIsDropBelow(l, start);
  }

  lemma PruneWitness(v: seq<Point>, begin: nat, l: seq<Point>, start: Timestamp)
    requires begin <= |v| && StrictlyIncreasing(v) && StrictlyIncreasing(l)
    ensures LowerBound(v, begin, start) != begin || LowerBound(l, 0, start) != 0 <==>
            Expires(LiveMap(v, l, begin), start)
  {
    hide AsMap, Expires;
    LowerBoundIs(v[begin..], 0, start, LowerBound(v, begin, start) - begin);
    ExpiresIffFirst(v[begin..], start);
    ExpiresIffFirst(l, start);
    ExpiresSplits(AsMap(v[begin..]), AsMap(l), start);
  }

  lemma ExpiresSplits(a: Series, b: Series, start: int)
    ensures Expires(a + b, start) <==> Expires(a, start) || Expires(b, start)
  {
    if Expires(a, start) {
      var t :| t in a && t < start;
      assert t in a + b;
    }
    if Expires(b, start) {
      var t :| t in b && t < start;
      assert t in a + b;
    }
  }

  lemma {:induction false} ExpiresIffFirst(s: seq<Point>, start: int)
    requires StrictlyIncreasing(s)
    ensures LowerBound(s, 0, start) != 0 <==> Expires(AsMap(s), start)
  {
    hide AsMap;
    if LowerBound(s, 0, start) != 0 {
      AsMapOfPoint(s, 0);
      assert s[0].time < start;
    } else {
      AsMapKeysBelow(s, start);
    }
  }
}
