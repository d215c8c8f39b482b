/** Aligning whole windows: the full algorithm, and the local one that stands in
    for it around an affected range. */
module Alignments {
  import opened Timeline
  import opened WindowServices
  import opened BucketTimes
  import opened BucketAggregation
  import opened BucketIntervals
  import opened GapFill
  import opened AlignedRows

  datatype WindowData = WindowData(start: Timestamp, end: Timestamp, values: map<SequenceId, seq<Point>>)

  datatype SequenceConfig = SequenceConfig(id: SequenceId, aggregation: Aggregation, fillMethod: FillMethod)

  datatype AlignedSample = AlignedSample(time: Timestamp, values: map<SequenceId, Value>)

  /** Success is partial exactly when values are missing after the fill. */
  datatype AlignmentResult = Invalid | Aligned(samples: seq<AlignedSample>, missing: nat)

  function ConfigIds(configs: seq<SequenceConfig>): (r: seq<SequenceId>)
    ensures |r| == |configs| && forall i :: 0 <= i < |configs| ==> r[i] == configs[i].id
  {
    seq(|configs|, i requires 0 <= i < |configs| => configs[i].id)
  }

  function DefaultConfigs(ids: seq<SequenceId>, kinds: map<SequenceId, SeriesKind>): (r: seq<SequenceConfig>)
    ensures ConfigIds(r) == ids
  {
    seq(|ids|, i requires 0 <= i < |ids| =>
      var kind := if ids[i] in kinds then kinds[ids[i]] else Unspecified;
      SequenceConfig(ids[i], DefaultAggregation(kind), DefaultFillMethod(kind)))
  }

  function PointsFor(data: WindowData, id: SequenceId): seq<Point> {
    if id in data.values then data.values[id] else []
  }

  function ShiftOf(shifts: map<SequenceId, Timestamp>, id: SequenceId): Timestamp {
    if id in shifts then shifts[id] else 0
  }

  function BucketTime(g: Grid, k: nat): (t: Timestamp)
    requires g.Valid() && k < g.Count()
    ensures t == g.BucketStart(k)
  {
    BucketStartFits(g.start, g.end, g.interval, k);
    g.BucketStart(k)
  }

  ghost function RowOf(data: WindowData, g: Grid, config: SequenceConfig, shifts: map<SequenceId, Timestamp>): Option<Buckets>
    requires g.interval > 0
  {
    AlignedRow(PointsFor(data, config.id), g, ShiftOf(shifts, config.id), config.aggregation, config.fillMethod)
  }

  ghost predicate AllAlign(data: WindowData, g: Grid, configs: seq<SequenceConfig>, shifts: map<SequenceId, Timestamp>)
    requires g.interval > 0
  {
    forall i :: 0 <= i < |configs| ==> RowOf(data, g, configs[i], shifts).Some?
  }

  ghost function RowsOf(data: WindowData, g: Grid, configs: seq<SequenceConfig>, shifts: map<SequenceId, Timestamp>): (r: seq<Buckets>)
    requires g.interval > 0 && AllAlign(data, g, configs, shifts)
    ensures |r| == |configs|
    ensures forall i :: 0 <= i < |configs| ==> r[i] == RowOf(data, g, configs[i], shifts).value && |r[i]| == g.Count()
  {
    seq(|configs|, i requires 0 <= i < |configs| => RowOf(data, g, configs[i], shifts).value)
  }

  /** The values one bucket holds, over the first `n` sequences. */
  function SampleValues(configs: seq<SequenceConfig>, rows: seq<Buckets>, n: nat, k: nat): map<SequenceId, Value>
    requires n <= |configs| == |rows| && forall i :: 0 <= i < |rows| ==> k < |rows[i]|
  {
    if n == 0 then map[]
    else
      var before := SampleValues(configs, rows, n - 1, k);
      if rows[n - 1][k].Some? then before[configs[n - 1].id := rows[n - 1][k].value] else before
  }

  function MissingIn(row: Buckets): nat {
    if row == [] then 0 else MissingIn(row[..|row| - 1]) + if row[|row| - 1].None? then 1 else 0
  }

  function MissingOver(rows: seq<Buckets>): nat {
    if rows == [] then 0 else MissingOver(rows[..|rows| - 1]) + MissingIn(rows[|rows| - 1])
  }

  ghost predicate WellFormed(data: WindowData, configs: seq<SequenceConfig>) {
    data.start <= data.end && configs != [] && Distinct(ConfigIds(configs)) && "" !in ConfigIds(configs)
  }

  ghost function IntervalFor(data: WindowData, configs: seq<SequenceConfig>, requested: Option<Timestamp>): Option<int> {
    if requested.Some? then requested else InferredInterval(data.values, ConfigIds(configs))
  }

  /** What full alignment answers. */
  ghost function FullAlignment(data: WindowData, configs: seq<SequenceConfig>, shifts: map<SequenceId, Timestamp>,
                               requested: Option<Timestamp>): AlignmentResult
  {
    var interval := IntervalFor(data, configs, requested);
    if !WellFormed(data, configs) || interval.None? || !(0 < interval.value < TWO_64) then Invalid
    else
      var g := Grid(data.start, data.end, interval.value);
      if AllAlign(data, g, configs, shifts) then GridAlignment(g, configs, RowsOf(data, g, configs, shifts)) else Invalid
  }

  ghost function GridAlignment(g: Grid, configs: seq<SequenceConfig>, rows: seq<Buckets>): (r: AlignmentResult)
    requires g.Valid() && |rows| == |configs| && forall i :: 0 <= i < |rows| ==> |rows[i]| == g.Count()
    ensures r.Aligned? && |r.samples| == g.Count()
  {
    Aligned(seq(g.Count(), k requires 0 <= k < g.Count() => AlignedSample(BucketTime(g, k), SampleValues(configs, rows, |configs|, k))),
            MissingOver(rows))
  }

  /** Sample times strictly increase and stay inside the window. */
  lemma SampleTimesIncrease(g: Grid, configs: seq<SequenceConfig>, rows: seq<Buckets>, j: nat, k: nat)
    requires g.Valid() && |rows| == |configs| && forall i :: 0 <= i < |rows| ==> |rows[i]| == g.Count()
    requires j < k < g.Count()
    ensures var s := GridAlignment(g, configs, rows).samples;
            g.start <= s[j].time < s[k].time < g.end && s[k].time - s[j].time == (k - j) * g.interval
  {
    BucketStartFits(g.start, g.end, g.interval, j);
    BucketStartFits(g.start, g.end, g.interval, k);
    assert k * g.interval - j * g.interval == (k - j) * g.interval;
    Scaled(1, k - j, g.interval);
  }

  method AlignWindow(data: WindowData, configs: seq<SequenceConfig>, shifts: map<SequenceId, Timestamp>, requested: Option<Timestamp>)
    returns (result: AlignmentResult)
    ensures result == FullAlignment(data, configs, shifts, requested)
  {
    hide AlignedRow, InferredInterval, SampleValues, MissingIn;
    if data.start > data.end || configs == [] { return Invalid; }
    var seen: set<SequenceId> := {};
    for i := 0 to |configs|
      invariant forall id :: id in seen <==> id in ConfigIds(configs)[..i]
      invariant Distinct(ConfigIds(configs)[..i]) && "" !in ConfigIds(configs)[..i]
    {
      assert ConfigIds(configs)[..i + 1] == ConfigIds(configs)[..i] + [configs[i].id];
      if configs[i].id == "" || configs[i].id in seen {
        RepeatedOrEmpty(ConfigIds(configs), i);
        return Invalid;
      }
      seen := seen + {configs[i].id};
    }
    assert ConfigIds(configs)[..|configs|] == ConfigIds(configs);
    var interval: Option<int>;
    if requested.Some? {
      if requested.value <= 0 { return Invalid; }
      interval := requested;
    } else {
      interval := InferBucketInterval(data.values, ConfigIds(configs));
      if interval.None? { return Invalid; }
      InferredIsSmallestDistance(data.values, ConfigIds(configs));
    }
    var g := Grid(data.start, data.end, interval.value);
    result := AlignOnGrid(data, g, configs, shifts);
  }

  lemma RepeatedOrEmpty(ids: seq<SequenceId>, i: nat)
    requires i < |ids| && (ids[i] == "" || ids[i] in ids[..i])
    ensures !Distinct(ids) || "" in ids
  {
    if ids[i] in ids[..i] { var j :| 0 <= j < i && ids[..i][j] == ids[i]; }
  }

  method AlignOnGrid(data: WindowData, g: Grid, configs: seq<SequenceConfig>, shifts: map<SequenceId, Timestamp>)
    returns (result: AlignmentResult)
    requires g.Valid() && Distinct(ConfigIds(configs))
    ensures result == if AllAlign(data, g, configs, shifts) then GridAlignment(g, configs, RowsOf(data, g, configs, shifts)) else Invalid
  {
    hide AlignedRow, SampleValues, MissingIn, Distinct, MissingOver;
    var rows: seq<Buckets> := [];
    for i := 0 to |configs|
      invariant |rows| == i
      invariant forall j :: 0 <= j < i ==> RowOf(data, g, configs[j], shifts) == Some(rows[j]) && |rows[j]| == g.Count()
    {
      var row := AlignSequence(PointsFor(data, configs[i].id), g, ShiftOf(shifts, configs[i].id), configs[i].aggregation, configs[i].fillMethod);
      if row.None? { return Invalid; }
      RowLength(data, g, configs[i], shifts);
      rows := rows + [row.value];
    }
    assert rows == RowsOf(data, g, configs, shifts);
    var samples := CollectSamples(g, configs, rows);
    var missing := CountMissing(rows);
    result := Aligned(samples, missing);
  }

  lemma RowLength(data: WindowData, g: Grid, config: SequenceConfig, shifts: map<SequenceId, Timestamp>)
    requires g.interval > 0
    ensures RowOf(data, g, config, shifts).Some? ==> |RowOf(data, g, config, shifts).value| == g.Count()
  {
  }

  /** Rows turned into samples, sequence by sequence, then stamped with bucket times. */
  method CollectSamples(g: Grid, configs: seq<SequenceConfig>, rows: seq<Buckets>) returns (samples: seq<AlignedSample>)
    requires g.Valid() && |rows| == |configs| && forall i :: 0 <= i < |rows| ==> |rows[i]| == g.Count()
    ensures samples == GridAlignment(g, configs, rows).samples
  {
    var count := g.Count();
    var values := new map<SequenceId, Value>[count](_ => map[]);
    for i := 0 to |configs|
      invariant forall k :: 0 <= k < count ==> values[k] == SampleValues(configs, rows, i, k)
    {
      for k := 0 to count
        invariant forall j :: 0 <= j < count ==> values[j] == SampleValues(configs, rows, if j < k then i + 1 else i, j)
      {
        if rows[i][k].Some? { values[k] := values[k][configs[i].id := rows[i][k].value]; }
      }
    }
    samples := [];
    for k := 0 to count
      invariant |samples| == k && forall j :: 0 <= j < k ==> samples[j] == GridAlignment(g, configs, rows).samples[j]
      invariant forall j :: 0 <= j < count ==> values[j] == SampleValues(configs, rows, |configs|, j)
    {
      BucketStartFits(g.start, g.end, g.interval, k);
      var time := AddNonNegativeTimestampOffset(g.start, WrappingMul(k, g.interval));
      samples := samples + [AlignedSample(time.value, values[k])];
    }
  }

  method CountMissing(rows: seq<Buckets>) returns (missing: nat)
    ensures missing == MissingOver(rows)
  {
    missing := 0;
    for i := 0 to |rows|
      invariant missing == MissingOver(rows[..i])
    {
      var row, inRow := rows[i], 0;
      for k := 0 to |row|
        invariant inRow == MissingIn(row[..k])
      {
        assert row[..k + 1][..k] == row[..k];
        if row[k].None? { inRow := inRow + 1; }
      }
      assert row[..|row|] == row && rows[..i + 1][..i] == rows[..i];
      missing := missing + inRow;
    }
    assert rows[..|rows|] == rows;
  }
}
