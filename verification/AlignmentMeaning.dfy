/** What the samples of an alignment show, told from the points and the kind of
    each sequence. */
module AlignmentMeanings {
  import opened Timeline
  import opened WindowServices
  import opened BucketTimes
  import opened BucketAggregation
  import opened GapFill
  import opened AlignedRows
  import opened AlignedSlices
  import opened Alignments
  import opened AlignmentRanges

  // ----- whose value a sample carries -----

  /** A sample holds the given sequences' values of one bucket, each under its own id, and nothing else. */
  ghost predicate Carries(sample: AlignedSample, configs: seq<SequenceConfig>, rows: seq<Buckets>, n: nat, k: nat)
    requires n <= |configs| == |rows| && forall i :: 0 <= i < |rows| ==> k < |rows[i]|
  {
    && (forall i :: 0 <= i < n ==>
                      (configs[i].id in sample.values <==> rows[i][k].Some?)
                      && (rows[i][k].Some? ==> sample.values[configs[i].id] == rows[i][k].value))
    && (forall id :: id in sample.values ==> exists i :: 0 <= i < n && configs[i].id == id)
  }

  lemma {:induction false} SampleCarries(configs: seq<SequenceConfig>, rows: seq<Buckets>, n: nat, k: nat, time: Timestamp)
    requires n <= |configs| == |rows| && Distinct(ConfigIds(configs)) && forall i :: 0 <= i < |rows| ==> k < |rows[i]|
    ensures Carries(AlignedSample(time, SampleValues(configs, rows, n, k)), configs, rows, n, k)
    decreases n
  {
    if n > 0 {
      SampleCarries(configs, rows, n - 1, k, time);
      var ids := ConfigIds(configs);
      assert forall i :: 0 <= i < n - 1 ==> ids[i] != ids[n - 1];
    }
  }

  /** Every sample of a full alignment is stamped with its bucket's start and
      carries each configured sequence's value of that bucket; the missing count
      is the number of buckets without a value. */
  lemma FullAlignmentCarries(data: WindowData, configs: seq<SequenceConfig>, shifts: map<SequenceId, Timestamp>, requested: Option<Timestamp>)
    requires FullAlignment(data, configs, shifts, requested).Aligned?
    ensures IntervalFor(data, configs, requested).Some? && 0 < IntervalFor(data, configs, requested).value < TWO_64 && data.start <= data.end
    ensures var g := Grid(data.start, data.end, IntervalFor(data, configs, requested).value);
            var samples := FullAlignment(data, configs, shifts, requested).samples;
            && AllAlign(data, g, configs, shifts) && |samples| == g.Count()
            && FullAlignment(data, configs, shifts, requested).missing == |Gaps(RowsOf(data, g, configs, shifts))|
            && forall k :: 0 <= k < |samples| ==>
                             && samples[k].time == g.BucketStart(k)
                             && Carries(samples[k], configs, RowsOf(data, g, configs, shifts), |configs|, k)
  {
    hide SampleValues, MissingOver, IntervalFor, Carries, Distinct, Gaps, Grid.BucketStart;
    var g := Grid(data.start, data.end, IntervalFor(data, configs, requested).value);
    var rows := RowsOf(data, g, configs, shifts);
    MissingIsGapCount(rows);
    var samples := FullAlignment(data, configs, shifts, requested).samples;
    forall k | 0 <= k < |samples| ensures Carries(samples[k], configs, rows, |configs|, k) { SampleCarries(configs, rows, |configs|, k, BucketTime(g, k)); }
  }

  /** The fast answer carries the local window's values; where full alignment
      succeeds these are the full window's values of the target buckets. */
  lemma FastAnswerCarries(data: WindowData, g: Grid, configs: seq<SequenceConfig>, range: AlignmentRange)
    requires g.Valid() && g.Count() > 0 && 0 < g.interval <= TIMESTAMP_MAX && range.start <= range.end
    requires FastAnswer(data, g, configs, range).Aligned?
    ensures TargetFirst(g, range) <= TargetLast(g, range) < g.Count()
    ensures var local, offset := LocalWindow(data, g, range), TargetFirst(g, range) - LocalFirst(TargetFirst(g, range));
            var sub := Grid(local.start, local.end, g.interval);
            var samples := FastAnswer(data, g, configs, range).samples;
            && local.start <= local.end && AllAlign(local, sub, configs, map[])
            && |samples| == TargetLast(g, range) - TargetFirst(g, range) + 1 && offset + |samples| <= sub.Count()
            && forall j :: 0 <= j < |samples| ==>
                             && samples[j].time == g.BucketStart(TargetFirst(g, range) + j)
                             && Carries(samples[j], configs, RowsOf(local, sub, configs, map[]), |configs|, offset + j)
  {
    hide SubGrid, FullAlignment, Carries, TargetFirst, TargetLast, AllAlign, Grid.Count, Grid.BucketStart, LocalWindow, BucketIndexForTime;
    TargetsInside(g, range);
    var first, last := TargetFirst(g, range), TargetLast(g, range);
    var local, offset := LocalWindow(data, g, range), first - LocalFirst(first);
    LocalGrid(data, g, range);
    var aligned := FullAlignment(local, configs, map[], Some(g.interval));
    FullAlignmentCarries(local, configs, map[], Some(g.interval));
    var samples := FastAnswer(data, g, configs, range).samples;
    assert samples == aligned.samples[offset..offset + (last - first + 1)];
    forall j | 0 <= j < |samples| ensures samples[j] == aligned.samples[offset + j] && samples[j].time == g.BucketStart(first + j) {
      BucketsApart(g, local.start, LocalFirst(first), offset + j);
    }
  }

  lemma BucketsApart(g: Grid, start: Timestamp, lo: nat, k: nat)
    requires start == g.BucketStart(lo)
    ensures forall end: Timestamp :: Grid(start, end, g.interval).BucketStart(k) == g.BucketStart(lo + k)
  {
    assert lo * g.interval + k * g.interval == (lo + k) * g.interval;
  }

  /** The local window is a stretch of whole buckets that holds the targets. */
  lemma LocalGrid(data: WindowData, g: Grid, range: AlignmentRange)
    requires g.Valid() && g.Count() > 0 && range.start <= range.end && TargetFirst(g, range) <= TargetLast(g, range) < g.Count()
    ensures var local, first, last := LocalWindow(data, g, range), TargetFirst(g, range), TargetLast(g, range);
            && LocalFirst(first) <= first && local.start <= local.end
            && local.start == g.BucketStart(LocalFirst(first))
            && last - LocalFirst(first) < Grid(local.start, local.end, g.interval).Count()
  {
    hide TargetFirst, TargetLast, Grid.Count;
    var first, last := TargetFirst(g, range), TargetLast(g, range);
    var lo, hi := LocalFirst(first), LocalLast(last, g.Count()) + 1;
    SubGridCount(g, lo, hi);
    SubGridEnds(g, lo, hi - 1);
    hide SubGrid, CellEnd;
  }

  // ----- how many values are missing -----

  /** The buckets without a value, by sequence. */
  ghost function Gaps(rows: seq<Buckets>): set<(int, int)> {
    set i, k | 0 <= i < |rows| && 0 <= k < |rows[i]| && IsGap(rows, i, k) :: (i, k)
  }

  ghost predicate IsGap(rows: seq<Buckets>, i: int, k: int) {
    0 <= i < |rows| && 0 <= k < |rows[i]| && rows[i][k].None?
  }

  /** The missing count is the number of buckets without a value, over all sequences. */
  lemma {:induction false} MissingIsGapCount(rows: seq<Buckets>)
    ensures MissingOver(rows) == |Gaps(rows)|
    decreases |rows|
  {
    if rows != [] {
      var front, row := rows[..|rows| - 1], rows[|rows| - 1];
      MissingIsGapCount(front);
      assert rows == front + [row];
      GapsOfOneMore(front, row);
    }
  }

  lemma {:induction false} GapsOfOneMore(front: seq<Buckets>, row: Buckets)
    ensures |Gaps(front + [row])| == |Gaps(front)| + MissingIn(row)
    decreases |row|
  {
    hide Gaps;
    if row == [] {
      EmptyRowGaps(front);
    } else {
      GapsOfOneMore(front, row[..|row| - 1]);
      LastBucketsGap(front, row);
    }
  }

  lemma EmptyRowGaps(front: seq<Buckets>)
    ensures Gaps(front + [[]]) == Gaps(front)
  {
    forall i, k ensures IsGap(front + [[]], i, k) <==> IsGap(front, i, k) {
      if 0 <= i < |front| { assert (front + [[]])[i] == front[i]; }
    }
    hide IsGap;
  }

  lemma LastBucketsGap(front: seq<Buckets>, row: Buckets)
    requires row != []
    ensures var i, k, before := |front|, |row| - 1, Gaps(front + [row[..|row| - 1]]);
            (i, k) !in before && Gaps(front + [row]) == if row[k].None? then before + {(i, k)} else before
  {
    var i, last := |front|, |row| - 1;
    var less, more := front + [row[..last]], front + [row];
    forall j, k
      ensures IsGap(more, j, k) <==> IsGap(less, j, k) || (j == i && k == last && row[last].None?)
      ensures !IsGap(less, i, last)
    {
      if 0 <= j < i { assert more[j] == less[j] == front[j]; }
    }
    hide IsGap;
  }

  // ----- what a bucket shows -----

  /** The point belongs to bucket `k`. */
  ghost predicate In(g: Grid, shift: Timestamp, k: nat, p: Point) {
    g.BucketStart(k) <= p.time + shift < g.BucketStart(k + 1) && p.time + shift < g.end
  }

  ghost predicate HasPoints(points: seq<Point>, g: Grid, shift: Timestamp, k: nat) {
    exists i :: 0 <= i < |points| && In(g, shift, k, points[i])
  }

  /** What a sequence of a kind shows of a bucket with points: a continuous one
      their average, a discrete or categorical one the latest, an unregistered one
      the earliest. */
  ghost predicate ShowsPoints(kind: SeriesKind, points: seq<Point>, g: Grid, shift: Timestamp, k: nat, v: Option<Value>)
    requires g.interval > 0
  {
    match kind
    case Continuous =>
      var cell := CellPoints(points, g, shift, k);
      cell != [] && v == Some(Number(Total(cell) / |cell| as real))
    case Discrete | Categorical =>
      exists i :: 0 <= i < |points| && In(g, shift, k, points[i]) && v == Some(points[i].value)
                  && forall j :: 0 <= j < |points| && In(g, shift, k, points[j]) ==> points[j].time <= points[i].time
    case Unspecified =>
      exists i :: 0 <= i < |points| && In(g, shift, k, points[i]) && v == Some(points[i].value)
                  && forall j :: 0 <= j < |points| && In(g, shift, k, points[j]) ==> points[i].time <= points[j].time
  }

  /** Buckets `a` and `b` have points and nothing between them has. */
  ghost predicate Neighbours(points: seq<Point>, g: Grid, shift: Timestamp, a: nat, b: nat) {
    HasPoints(points, g, shift, a) && HasPoints(points, g, shift, b) && NoPoints(points, g, shift, a + 1, b)
  }

  ghost predicate NoPoints(points: seq<Point>, g: Grid, shift: Timestamp, from: int, to: int) {
    forall k: nat :: from <= k < to ==> !HasPoints(points, g, shift, k)
  }

  /** What it shows of an empty bucket between two others: a continuous one the
      point on the chord, a discrete or categorical one the earlier value, an
      unregistered one the nearer value, the earlier of two equally near. */
  ghost predicate ShowsGap(kind: SeriesKind, row: Buckets, a: nat, k: nat, b: nat)
    requires a < k < b < |row|
  {
    match kind
    case Continuous => OnChord(row, a, k, b)
    case Discrete | Categorical => row[k] == row[a]
    case Unspecified => row[k] == if k - a <= b - k then row[a] else row[b]
  }

  ghost predicate OnChord(row: Buckets, a: nat, k: nat, b: nat)
    requires a < k < b < |row|
  {
    && row[a].Some? && row[k].Some? && row[b].Some? && row[a].value.Number? && row[k].value.Number? && row[b].value.Number?
    && (row[k].value.amount - row[a].value.amount) * (b - a) as real == (row[b].value.amount - row[a].value.amount) * (k - a) as real
  }

  /** A whole row: buckets with points, gaps between them, the two edges. */
  ghost predicate RowShows(kind: SeriesKind, points: seq<Point>, g: Grid, shift: Timestamp, row: Buckets)
    requires g.interval > 0
  {
    && |row| == g.Count()
    && (forall k :: 0 <= k < |row| && HasPoints(points, g, shift, k) ==> ShowsPoints(kind, points, g, shift, k, row[k]))
    && (forall a, k, b :: 0 <= a < k < b < |row| && Neighbours(points, g, shift, a, b) ==> ShowsGap(kind, row, a, k, b))
    && (forall a, k :: 0 <= a < k < |row| && HasPoints(points, g, shift, a) && NoPoints(points, g, shift, a + 1, |row|) ==> row[k] == row[a])
    && (forall k, b :: 0 <= k < b < |row| && HasPoints(points, g, shift, b) && NoPoints(points, g, shift, 0, b) ==>
                         row[k] == if kind.Discrete? || kind.Categorical? then None else row[b])
    && (NoPoints(points, g, shift, 0, |row|) ==> forall k :: 0 <= k < |row| ==> row[k].None?)
  }

  lemma InIsLanding(g: Grid, shift: Timestamp, k: nat, p: Point)
    requires g.Valid() && AddTimestamp(p.time, shift).Some? && k < g.Count()
    ensures In(g, shift, k, p) <==> Lands(g, shift, k, p)
  {
    CellIs(g, k, AddTimestamp(p.time, shift).value);
    BucketStartFits(g.start, g.end, g.interval, k);
    if k + 1 < g.Count() { BucketStartFits(g.start, g.end, g.interval, k + 1); }
  }

  /** The points of a cell are those that belong to its bucket. */
  lemma {:induction false} CellHas(points: seq<Point>, g: Grid, shift: Timestamp, k: nat, p: Point)
    requires g.Valid() && Shiftable(points, shift) && k < g.Count()
    ensures p in CellPoints(points, g, shift, k) <==> p in points && In(g, shift, k, p)
    decreases |points|
  {
    hide In, Lands;
    if points != [] {
      var front, last := points[..|points| - 1], points[|points| - 1];
      assert points == front + [last];
      assert AddTimestamp(points[|points| - 1].time, shift).Some?;
      CellHas(front, g, shift, k, p);
      InIsLanding(g, shift, k, last);
    }
  }

  lemma {:induction false} BucketShows(kind: SeriesKind, points: seq<Point>, g: Grid, shift: Timestamp, k: nat)
    requires g.Valid() && Shiftable(points, shift) && k < g.Count()
    ensures var v := Summary(CellPoints(points, g, shift, k), DefaultAggregation(kind));
            Folded(CellPoints(points, g, shift, k), DefaultAggregation(kind)).Some? ==>
              (v.Some? <==> HasPoints(points, g, shift, k))
              && (HasPoints(points, g, shift, k) ==> ShowsPoints(kind, points, g, shift, k, v))
  {
    hide Folded, Summary, CellPoints, In, Total;
    var cell, how := CellPoints(points, g, shift, k), DefaultAggregation(kind);
    forall p ensures p in cell <==> p in points && In(g, shift, k, p) { CellHas(points, g, shift, k, p); }
    FoldedTracks(cell, how);
    if i :| 0 <= i < |points| && In(g, shift, k, points[i]) { assert points[i] in cell; }
    if cell == [] {
      SummaryOfNothing(how);
    } else {
      SummaryMeaning(cell, how);
      assert cell[0] in points && In(g, shift, k, cell[0]);
      if Folded(cell, how).Some? && how != Average { OnePointShows(kind, points, g, shift, k, cell); }
    }
  }

  lemma OnePointShows(kind: SeriesKind, points: seq<Point>, g: Grid, shift: Timestamp, k: nat, cell: seq<Point>)
    requires g.interval > 0 && !kind.Continuous? && cell != [] && forall p :: p in cell <==> p in points && In(g, shift, k, p)
    ensures DefaultAggregation(kind).First? ==>
              forall e: nat :: IsEarliest(cell, e) ==> ShowsPoints(kind, points, g, shift, k, Some(cell[e].value))
    ensures DefaultAggregation(kind).Last? ==>
              forall e: nat :: IsLatest(cell, e) ==> ShowsPoints(kind, points, g, shift, k, Some(cell[e].value))
  {
    hide In;
    forall e: nat | IsEarliest(cell, e) || IsLatest(cell, e)
      ensures exists i :: 0 <= i < |points| && points[i] == cell[e] && In(g, shift, k, points[i])
    {
      assert cell[e] in cell;
    }
    forall j | 0 <= j < |points| && In(g, shift, k, points[j]) ensures exists e :: 0 <= e < |cell| && cell[e] == points[j] {
      assert points[j] in cell;
    }
  }

  /** The row that alignment gives a sequence of a kind by default. */
  lemma {:induction false} DefaultRowShows(kind: SeriesKind, points: seq<Point>, g: Grid, shift: Timestamp)
    requires g.Valid() && AlignedRow(points, g, shift, DefaultAggregation(kind), DefaultFillMethod(kind)).Some?
    ensures RowShows(kind, points, g, shift, AlignedRow(points, g, shift, DefaultAggregation(kind), DefaultFillMethod(kind)).value)
  {
    hide Folded, Summary, CellPoints, HasPoints, ShowsPoints, DefaultAggregation, Grid.Count;
    var raw := RawRow(points, g, shift, DefaultAggregation(kind));
    forall k | 0 <= k < |raw|
      ensures raw[k].Some? <==> HasPoints(points, g, shift, k)
      ensures HasPoints(points, g, shift, k) ==> ShowsPoints(kind, points, g, shift, k, raw[k])
    {
      BucketShows(kind, points, g, shift, k);
    }
    FilledRowShows(kind, points, g, shift, raw);
  }

  lemma FilledRowShows(kind: SeriesKind, points: seq<Point>, g: Grid, shift: Timestamp, raw: Buckets)
    requires g.interval > 0 && |raw| == g.Count() && Fillable(raw, DefaultFillMethod(kind))
    requires forall k :: 0 <= k < |raw| ==> (raw[k].Some? <==> HasPoints(points, g, shift, k))
    requires forall k :: 0 <= k < |raw| && HasPoints(points, g, shift, k) ==> ShowsPoints(kind, points, g, shift, k, raw[k])
    ensures RowShows(kind, points, g, shift, Fill(raw, DefaultFillMethod(kind)))
  {
    hide HasPoints, ShowsPoints, PreviousKnown, NextKnown, Fillable, OnChord, OnSegment;
    var how := DefaultFillMethod(kind);
    var row := Fill(raw, how);
    forall a, k, b | 0 <= a < k < b < |row| && Neighbours(points, g, shift, a, b) ensures ShowsGap(kind, row, a, k, b) {
      GapShows(raw, how, a, k, b);
    }
    forall a, k | 0 <= a < k < |row| && HasPoints(points, g, shift, a) && NoPoints(points, g, shift, a + 1, |row|) ensures row[k] == row[a] {
      KnownBefore(raw, a, k);
      NothingAfter(raw, k);
    }
    forall k, b | 0 <= k < b < |row| && HasPoints(points, g, shift, b) && NoPoints(points, g, shift, 0, b)
      ensures row[k] == if kind.Discrete? || kind.Categorical? then None else row[b]
    {
      KnownAfter(raw, k, b);
      NothingBefore(raw, k);
    }
    if NoPoints(points, g, shift, 0, |row|) {
      forall k | 0 <= k < |row| ensures row[k].None? {
        NothingBefore(raw, k);
        NothingAfter(raw, k);
      }
    }
  }

  lemma GapShows(raw: Buckets, how: FillMethod, a: nat, k: nat, b: nat)
    requires a < k < b < |raw| && raw[a].Some? && raw[b].Some? && forall j :: a < j < b ==> raw[j].None?
    requires Fillable(raw, how)
    ensures var row := Fill(raw, how);
            && row[a] == raw[a] && row[b] == raw[b]
            && (how == Linear ==> OnChord(row, a, k, b))
            && (how == Previous ==> row[k] == row[a])
            && (how == Next ==> row[k] == row[b])
            && (how == Near ==> row[k] == if k - a <= b - k then row[a] else row[b])
  {
    hide PreviousKnown, NextKnown, OnSegment, Fillable, OnChord, Fill;
    KnownBefore(raw, a, k);
    KnownAfter(raw, k, b);
    if how == Linear { ChordShows(raw, a, k, b); }
  }

  lemma ChordShows(raw: Buckets, a: nat, k: nat, b: nat)
    requires a < k < b < |raw| && raw[a].Some? && raw[b].Some? && raw[k].None? && Fillable(raw, Linear)
    requires PreviousKnown(raw, k) == Some(a) && NextKnown(raw, k + 1) == Some(b)
    ensures OnChord(Fill(raw, Linear), a, k, b)
  {
    hide PreviousKnown, NextKnown, OnSegment, Fillable, Fill;
    LinearIsOnTheChord(raw, k);
    assert Fill(raw, Linear)[a] == raw[a] && Fill(raw, Linear)[b] == raw[b];
    hide FilledAt;
  }

  lemma KnownBefore(raw: Buckets, a: nat, k: nat)
    requires a < k < |raw| && raw[a].Some? && forall j :: a < j <= k ==> raw[j].None?
    ensures PreviousKnown(raw, k) == Some(a)
  {
  }

  lemma KnownAfter(raw: Buckets, k: nat, b: nat)
    requires k < b < |raw| && raw[b].Some? && forall j :: k <= j < b ==> raw[j].None?
    ensures NextKnown(raw, k + 1) == Some(b)
  {
  }

  lemma NothingBefore(raw: Buckets, k: nat)
    requires k < |raw| && forall j :: 0 <= j <= k ==> raw[j].None?
    ensures PreviousKnown(raw, k) == None
  {
  }

  lemma NothingAfter(raw: Buckets, k: nat)
    requires k < |raw| && forall j :: k <= j < |raw| ==> raw[j].None?
    ensures NextKnown(raw, k + 1) == None
  {
  }

  function KindOf(kinds: map<SequenceId, SeriesKind>, id: SequenceId): SeriesKind {
    if id in kinds then kinds[id] else Unspecified
  }

  /** The samples carry this row for the sequence, bucket by bucket. */
  ghost predicate CarryRow(samples: seq<AlignedSample>, g: Grid, id: SequenceId, row: Buckets) {
    |samples| == |row| &&
    forall k :: 0 <= k < |samples| ==>
                  && samples[k].time == g.BucketStart(k)
                  && (id in samples[k].values <==> row[k].Some?)
                  && (row[k].Some? ==> samples[k].values[id] == row[k].value)
  }

  /** Whenever full alignment succeeds under the defaults, its samples carry for each
      sequence a row that is right for the sequence's kind. The fast answer is then
      a stretch of these samples. */
  lemma DefaultSamplesShow(data: WindowData, ids: seq<SequenceId>, kinds: map<SequenceId, SeriesKind>, i: nat)
    requires i < |ids| && FullAlignment(data, DefaultConfigs(ids, kinds), map[], None).Aligned?
    ensures var configs := DefaultConfigs(ids, kinds);
            && IntervalFor(data, configs, None).Some? && 0 < IntervalFor(data, configs, None).value < TWO_64 && data.start <= data.end
            && var g := Grid(data.start, data.end, IntervalFor(data, configs, None).value);
               exists row: Buckets ::
                 && RowShows(KindOf(kinds, ids[i]), PointsFor(data, ids[i]), g, 0, row)
                 && CarryRow(FullAlignment(data, configs, map[], None).samples, g, ids[i], row)
  {
    var configs := DefaultConfigs(ids, kinds);
    FullAlignmentCarries(data, configs, map[], None);
    hide FullAlignment, RowShows, IntervalFor, AlignedRow, Grid.Count;
    var g := Grid(data.start, data.end, IntervalFor(data, configs, None).value);
    var row := RowsOf(data, g, configs, map[])[i];
    assert configs[i].id == ids[i];
    DefaultRowShows(KindOf(kinds, ids[i]), PointsFor(data, ids[i]), g, 0);
    assert RowOf(data, g, configs[i], map[]) == Some(row);
  }

  // ----- when alignment fails -----

  /** A sequence cannot be aligned exactly when a lag leaves the range of timestamps, a
      point of the window is not a number where numbers are needed, or a linear gap
      lies between two buckets that do not both show numbers. */
  lemma {:induction false} FailsExactly(points: seq<Point>, g: Grid, shift: Timestamp, aggregation: Aggregation, fill: FillMethod)
    requires g.Valid()
    ensures AlignedRow(points, g, shift, aggregation, fill).None? <==>
            || (exists i :: 0 <= i < |points| && !(TIMESTAMP_MIN <= points[i].time + shift <= TIMESTAMP_MAX))
            || (NeedsNumbers(aggregation) && exists i :: 0 <= i < |points| && points[i].value.NonNumeric? && g.start <= points[i].time + shift < g.end)
            || (fill == Linear && exists a, b :: UnevenGap(RawRow(points, g, shift, aggregation), a, b))
  {
    hide RawRow, UnevenGap, Summarisable, Fillable;
    if Shiftable(points, shift) {
      SummarisableExactly(points, g, shift, aggregation);
      FillableExactly(RawRow(points, g, shift, aggregation));
      if fill != Linear { OnlyLinearFails(RawRow(points, g, shift, aggregation), fill); }
    } else {
      var i :| 0 <= i < |points| && AddTimestamp(points[i].time, shift).None?;
      assert !(TIMESTAMP_MIN <= points[i].time + shift <= TIMESTAMP_MAX);
    }
  }

  /** Known buckets `a` and `b` enclose missing ones only, and do not both show numbers. */
  ghost predicate UnevenGap(row: Buckets, a: int, b: int) {
    && 0 <= a && a + 1 < b < |row| && row[a].Some? && row[b].Some? && (forall k :: a < k < b ==> row[k].None?)
    && !(row[a].value.Number? && row[b].value.Number?)
  }

  lemma OnlyLinearFails(row: Buckets, fill: FillMethod)
    requires fill != Linear
    ensures Fillable(row, fill)
  {
  }

  lemma {:induction false} FillableExactly(row: Buckets)
    ensures Fillable(row, Linear) <==> !exists a, b :: UnevenGap(row, a, b)
  {
    if !Fillable(row, Linear) {
      var i :| 0 <= i < |row| && row[i].None? && !Bridgeable(row, i);
      hide PreviousKnown, NextKnown;
      assert UnevenGap(row, PreviousKnown(row, i).value, NextKnown(row, i + 1).value);
    }
    if a, b :| UnevenGap(row, a, b) {
      KnownBefore(row, a, a + 1);
      KnownAfter(row, a + 1, b);
      hide PreviousKnown, NextKnown;
      assert !Bridgeable(row, a + 1);
    }
  }

  lemma {:induction false} SummarisableExactly(points: seq<Point>, g: Grid, shift: Timestamp, aggregation: Aggregation)
    requires g.Valid() && Shiftable(points, shift)
    ensures Summarisable(points, g, shift, aggregation) <==>
            !(NeedsNumbers(aggregation) && exists i :: 0 <= i < |points| && points[i].value.NonNumeric? && g.start <= points[i].time + shift < g.end)
  {
    hide Folded, CellPoints, Lands, NeedsNumbers, Grid.Count, AddTimestamp;
    if i :| 0 <= i < |points| && points[i].value.NonNumeric? && g.start <= points[i].time + shift < g.end {
      CellOf(points, g, shift, i, aggregation);
    }
    if k :| 0 <= k < g.Count() && Folded(CellPoints(points, g, shift, k), aggregation).None? {
      CulpritOf(points, g, shift, k, aggregation);
    }
  }

  lemma CellOf(points: seq<Point>, g: Grid, shift: Timestamp, i: nat, aggregation: Aggregation)
    requires g.Valid() && Shiftable(points, shift) && i < |points| && g.start <= points[i].time + shift < g.end && points[i].value.NonNumeric?
    ensures NeedsNumbers(aggregation) ==> exists k :: 0 <= k < g.Count() && Folded(CellPoints(points, g, shift, k), aggregation).None?
  {
    hide Folded, CellPoints, Lands, Grid.Count, In;
    assert AddTimestamp(points[i].time, shift).Some?;
    EveryPointHasOneBucket(g, shift, points[i]);
    var k: nat :| k < g.Count() && Lands(g, shift, k, points[i]);
    InIsLanding(g, shift, k, points[i]);
    CellHas(points, g, shift, k, points[i]);
    var cell := CellPoints(points, g, shift, k);
    var j :| 0 <= j < |cell| && cell[j] == points[i];
    FoldedTracks(cell, aggregation);
  }

  lemma CulpritOf(points: seq<Point>, g: Grid, shift: Timestamp, k: nat, aggregation: Aggregation)
    requires g.Valid() && Shiftable(points, shift) && k < g.Count() && Folded(CellPoints(points, g, shift, k), aggregation).None?
    ensures NeedsNumbers(aggregation)
    ensures exists i :: 0 <= i < |points| && points[i].value.NonNumeric? && g.start <= points[i].time + shift < g.end
  {
    hide Folded, CellPoints, Lands, Grid.Count, NeedsNumbers, In, Shiftable;
    var cell := CellPoints(points, g, shift, k);
    FoldedTracks(cell, aggregation);
    var j :| 0 <= j < |cell| && !cell[j].value.Number?;
    CellHas(points, g, shift, k, cell[j]);
    InWindow(g, shift, k, cell[j]);
  }

  lemma InWindow(g: Grid, shift: Timestamp, k: nat, p: Point)
    requires g.Valid() && k < g.Count() && In(g, shift, k, p)
    ensures g.start <= p.time + shift < g.end
  {
    hide Grid.Count;
    assert k * g.interval >= 0;
  }
}
