/** One project's hot windows under a shared watermark and window size. */
module WindowServices {
  import opened Timeline
  import opened WindowQueries
  import opened SequenceWindows

  type SequenceId = string

  type Holdings = map<SequenceId, Series>

  type LatestTimes = map<SequenceId, Option<Timestamp>>

  datatype RawPoint = RawPoint(sequence: SequenceId, time: Timestamp, value: Value)

  const DEFAULT_WINDOW_SIZE := 3 * 24 * 60 * 60 * 1000
  const GENERATION_MAX := 0xffff_ffff_ffff_ffff

  /** The points of one sequence, in batch order. */
  function PointsOf(batch: seq<RawPoint>, id: SequenceId): (r: seq<Point>)
    ensures r != [] <==> exists i :: 0 <= i < |batch| && batch[i].sequence == id
  {
    if batch == [] then []
    else
      var p := batch[|batch| - 1];
      var front := PointsOf(batch[..|batch| - 1], id);
      if p.sequence == id then front + [Point(p.time, p.value)] else front
  }

  /** The watermark after a batch: whether one existed is fixed before the scan. */
  function NextWatermark(before: Option<Timestamp>, batch: seq<RawPoint>): (w: Timestamp)
    requires batch != []
    decreases |batch|
  {
    var last := batch[|batch| - 1].time;
    if before.None? then last
    else if |batch| == 1 then (if last > before.value then last else before.value)
    else
      var w := NextWatermark(before, batch[..|batch| - 1]);
      if last > w then last else w
  }

  /** `t` is the greatest of the old watermark and the batch's times. */
  ghost predicate IsMaximum(t: Timestamp, before: Option<Timestamp>, batch: seq<RawPoint>) {
    && (before.Some? ==> before.value <= t)
    && (forall i :: 0 <= i < |batch| ==> batch[i].time <= t)
    && (before == Some(t) || exists i :: 0 <= i < |batch| && batch[i].time == t)
  }

  /** The watermark is the running maximum except on a first batch that does
      not end at its own maximum. */
  lemma {:induction false} WatermarkIsMaximum(before: Option<Timestamp>, batch: seq<RawPoint>)
    requires batch != []
    ensures IsMaximum(NextWatermark(before, batch), before, batch) <==>
            before.Some? || forall i :: 0 <= i < |batch| ==> batch[i].time <= batch[|batch| - 1].time
    ensures before.None? ==> NextWatermark(before, batch) == batch[|batch| - 1].time
    decreases |batch|
  {
    if before.Some? && |batch| > 1 {
      var front := batch[..|batch| - 1];
      WatermarkIsMaximum(before, front);
      var w, w' := NextWatermark(before, front), NextWatermark(before, batch);
      assert IsMaximum(w, before, front);
      assert batch == front + [batch[|batch| - 1]];
      if w' == w && before != Some(w) {
        var i :| 0 <= i < |front| && front[i].time == w;
        assert batch[i].time == w;
      }
      if w' != w { assert batch[|batch| - 1].time == w'; }
    } else {
      assert batch[|batch| - 1].time == NextWatermark(before, batch) || before == Some(NextWatermark(before, batch));
    }
  }

  /** A first batch at times 10 and 4 leaves the watermark at 4. */
  lemma FirstBatchWatermarkFails(a: RawPoint, b: RawPoint)
    requires a.time == 10 && b.time == 4
    ensures NextWatermark(None, [a, b]) == 4
    ensures !IsMaximum(NextWatermark(None, [a, b]), None, [a, b])
  {
    assert [a, b][0].time == 10;
  }

  /** Oldest instant that eviction keeps: saturating watermark - size. */
  function WindowStart(watermark: Timestamp, size: int): (start: Timestamp)
    requires 0 < size <= TIMESTAMP_MAX
    ensures start as int == Max(TIMESTAMP_MIN, watermark - size)
  {
    if watermark < TIMESTAMP_MIN + size then TIMESTAMP_MIN else watermark - size
  }

  /** Oldest instant still in the window; before everything while there is no watermark. */
  ghost function WindowBound(watermark: Option<Timestamp>, size: int): int
    requires 0 < size <= TIMESTAMP_MAX
  {
    if watermark.None? then TIMESTAMP_MIN else WindowStart(watermark.value, size)
  }

  /** Default query bounds: one past the watermark, and a window length before it. */
  function LiveEnd(watermark: Timestamp): (end: Timestamp) {
    if watermark == TIMESTAMP_MAX then watermark else watermark + 1
  }

  function LiveStart(watermark: Timestamp, size: int): (start: Timestamp)
    requires 0 < size <= TIMESTAMP_MAX
  {
    if LiveEnd(watermark) < TIMESTAMP_MIN + size then TIMESTAMP_MIN else LiveEnd(watermark) - size
  }

  datatype UpdateReport =
    | InvalidArgument
    | Updated(windowStart: Timestamp, incrementalSafe: map<SequenceId, bool>, evicted: seq<SequenceId>)

  class WindowService {
    var windows: map<SequenceId, SequenceWindow>
    var watermark: Option<Timestamp>
    var windowSize: int
    var generation: nat
    /** Which sequence a window object belongs to. */
    ghost var owner: map<SequenceWindow, SequenceId>

    ghost predicate Valid()
      reads this, owner.Keys
      ensures Valid() ==> 0 < windowSize <= TIMESTAMP_MAX
    {
      && 0 < windowSize <= TIMESTAMP_MAX
      && generation <= GENERATION_MAX
      && (forall id :: id in windows ==> windows[id] in owner && owner[windows[id]] == id && windows[id].Valid())
    }

    constructor ()
      ensures Valid() && windows == map[] && watermark == None && windowSize == DEFAULT_WINDOW_SIZE && generation == 0
      ensures owner == map[]
    {
      windows, watermark, windowSize, generation := map[], None, DEFAULT_WINDOW_SIZE, 0;
      owner := map[];
    }

    /** Every window's content, by sequence. */
    ghost function Contents(): (m: Holdings)
      reads this, owner.Keys
      requires Valid()
      ensures m.Keys == windows.Keys
    {
      map id | id in windows :: windows[id].Live()
    }

    ghost function Latest(): (m: LatestTimes)
      reads this, owner.Keys
      requires Valid()
      ensures m.Keys == windows.Keys
    {
      map id | id in windows :: windows[id].latestTime
    }

    /** Enters a new empty window into the index. */
    method Install(id: SequenceId, window: SequenceWindow)
      requires Valid() && id !in windows && window !in owner
      requires window.Valid() && window.Live() == map[] && window.latestTime == None
      modifies `windows, `owner
      ensures Valid() && windows.Keys == old(windows.Keys) + {id} && owner.Keys == old(owner.Keys) + {window}
      ensures Contents() == old(Contents())[id := map[]] && Latest() == old(Latest())[id := None]
    {
      hide SequenceWindow.Valid, SequenceWindow.Live;
      ghost var contents, latest := Contents(), Latest();
      windows := windows[id := window];
      owner := owner[window := id];
      assert Valid();
      hide Valid;
      forall other | other in windows
        ensures Contents()[other] == contents[id := map[]][other] && Latest()[other] == latest[id := None][other]
      {
        assert other == id || windows[other] == old(windows)[other];
      }
      assert Contents() == contents[id := map[]];
      assert Latest() == latest[id := None];
    }

    /** The window of a sequence, created empty when it is missing. */
    method EnsureWindow(id: SequenceId)
      requires Valid()
      modifies `windows, `owner
      ensures Valid() && windows.Keys == old(windows.Keys) + {id}
      ensures fresh(owner.Keys - old(owner.Keys))
      ensures Contents() == if id in old(windows) then old(Contents()) else old(Contents())[id := map[]]
      ensures Latest() == if id in old(windows) then old(Latest()) else old(Latest())[id := None]
    {
      hide Valid, Contents, Latest, SequenceWindow.Valid, SequenceWindow.Live;
      if id !in windows {
        var window := new SequenceWindow();
        assert Valid() && Contents() == old(Contents()) && Latest() == old(Latest());
        Install(id, window);
      }
    }

    /** Creates the windows a batch needs; existing ones are untouched. */
    method EnsureWindows(ids: seq<SequenceId>)
      requires Valid()
      modifies `windows, `owner
      ensures Valid() && forall id :: id in windows <==> id in old(windows) || id in ids
      ensures fresh(owner.Keys - old(owner.Keys))
      ensures Contents() == WithEmpty(old(Contents()), ids)
      ensures Latest() == WithFresh(old(Latest()), ids)
    {
      hide Valid, SequenceWindow.Valid, Contents, Latest;
      for k := 0 to |ids|
        invariant Valid() && forall id :: id in windows <==> id in old(windows) || id in ids[..k]
        invariant fresh(owner.Keys - old(owner.Keys))
        invariant Contents() == WithEmpty(old(Contents()), ids[..k])
        invariant Latest() == WithFresh(old(Latest()), ids[..k])
      {
        assert ids[..k + 1][..k] == ids[..k];
        EnsureWindow(ids[k]);
      }
      assert ids[..|ids|] == ids;
    }

    /** One sequence's share of a batch; no other window changes. */
    method UpdateOne(batch: seq<RawPoint>, id: SequenceId) returns (safe: bool)
      requires Valid() && id in windows
      modifies owner.Keys
      ensures Valid()
      ensures Contents() == old(Contents())[id := old(Contents())[id] + AsMap(PointsOf(batch, id))]
      ensures Latest() - {id} == old(Latest()) - {id}
      ensures AllAttained(old(Contents()), old(Latest())) ==>
                AllAttained(Contents(), Latest())
                && Latest() == old(Latest())[id := Update(PointsOf(batch, id)).LatestOn(old(Contents())[id], old(Latest())[id])]
      ensures safe <==> AppendsOnly(old(Latest())[id], PointsOf(batch, id))
    {
      hide AsMap, PointsOf, AppendsOnly, SequenceWindow.Valid, SequenceWindow.Live, Attained, Operation.LatestOn;
      ghost var contents, latest := Contents(), Latest();
      safe := windows[id].TakeBatch(PointsOf(batch, id));
      assert Valid();
      hide Valid;
      forall other | other in windows && other != id
        ensures windows[other].Live() == contents[other] && windows[other].latestTime == latest[other]
      {
        assert owner[windows[other]] == other;
      }
      assert Contents() == contents[id := windows[id].Live()];
      assert Latest() == latest[id := windows[id].latestTime];
      hide Contents, Latest;
    }

    /** Folds each named sequence's share of the batch into its window. */
    method UpdateAll(batch: seq<RawPoint>, ids: seq<SequenceId>) returns (safe: map<SequenceId, bool>)
      requires Valid() && Distinct(ids) && forall id :: id in ids ==> id in windows
      modifies owner.Keys
      ensures Valid()
      ensures Contents() == OverlayAll(old(Contents()), batch, ids)
      ensures safe == SafeAll(old(Latest()), batch, ids)
      ensures AllAttained(old(Contents()), old(Latest())) ==>
                AllAttained(Contents(), Latest()) && Latest() == LatestAll(old(Latest()), old(Contents()), batch, ids)
    {
      hide AllAttained, LatestAll, Operation.LatestOn, Valid, SequenceWindow.Valid, Contents, Latest, OverlayAll, SafeAll, Distinct, PointsOf, AsMap, AppendsOnly;
      safe := map[];
      ghost var contents, latest := Contents(), Latest();
      OverlayNone(contents, latest, batch);
      assert ids[..0] == [];
      for k := 0 to |ids|
        invariant Valid()
        invariant Contents() == OverlayAll(contents, batch, ids[..k])
        invariant safe == SafeAll(latest, batch, ids[..k])
        invariant Untouched(Latest(), latest, ids[..k])
        invariant AllAttained(contents, latest) ==> AllAttained(Contents(), Latest()) && Latest() == LatestAll(latest, contents, batch, ids[..k])
      {
        LatestStep(contents, latest, batch, ids, k);
        OverlayStep(contents, latest, Latest(), batch, ids, k);
        var isSafe := UpdateOne(batch, ids[k]);
        safe := safe[ids[k] := isSafe];
        StillUntouched(Latest(), latest, ids, k);
      }
      assert ids[..|ids|] == ids;
    }

    method PruneOne(id: SequenceId, start: Timestamp) returns (evicted: bool)
      requires Valid() && id in windows
      modifies owner.Keys
      ensures Valid()
      ensures Contents() == old(Contents())[id := DropBelow(old(Contents())[id], start)]
      ensures Latest() == old(Latest())
      ensures evicted <==> Expires(old(Contents())[id], start)
    {
      hide DropBelow, Expires, SequenceWindow.Valid, SequenceWindow.Live;
      evicted := windows[id].Prune(start);
    }

    /** Eviction of a snapshot of windows, in whatever order the index yields them. */
    method PruneExpiredPoints(order: seq<SequenceId>, start: Timestamp) returns (evicted: seq<SequenceId>)
      requires Valid() && Distinct(order) && forall id :: id in order ==> id in windows
      modifies owner.Keys
      ensures Valid()
      ensures Contents() == PrunedAt(old(Contents()), order, start)
      ensures Latest() == old(Latest())
      ensures evicted == ExpiredIn(old(Contents()), order, start)
    {
      hide Valid, SequenceWindow.Valid, Contents, Latest, DropBelow, Expires, PrunedAt, Distinct;
      evicted := [];
      ghost var contents := Contents();
      PrunedNone(contents, start);
      assert order[..0] == [];
      for k := 0 to |order|
        invariant Valid()
        invariant Contents() == PrunedAt(contents, order[..k], start)
        invariant Latest() == old(Latest())
        invariant evicted == ExpiredIn(contents, order[..k], start)
      {
        PrunedStep(contents, order, k, start);
        assert order[..k + 1][..k] == order[..k];
        var gone := PruneOne(order[k], start);
        if gone {
          evicted := evicted + [order[k]];
        }
      }
      assert order[..|order|] == order;
    }

    /** Every window of the index, in an arbitrary order. */
    method AllSequences() returns (order: seq<SequenceId>)
      ensures Distinct(order) && forall id :: id in order <==> id in windows
    {
      order := [];
      var rest := windows.Keys;
      while rest != {}
        invariant Distinct(order) && forall id :: id in windows <==> (id in order || id in rest)
        invariant forall id :: id in order ==> id !in rest
        decreases |rest|
      {
        var id := PickOne(rest);
        order := order + [id];
        rest := rest - {id};
      }
    }

    method ApplySize(sizeOverride: Option<int>)
      requires Valid() && (sizeOverride.Some? ==> 0 < sizeOverride.value <= TIMESTAMP_MAX)
      modifies `windowSize
      ensures Valid() && Contents() == old(Contents()) && Latest() == old(Latest())
      ensures windowSize == if sizeOverride.Some? then sizeOverride.value else old(windowSize)
    {
      hide SequenceWindow.Valid, SequenceWindow.Live;
      if sizeOverride.Some? {
        windowSize := sizeOverride.value;
      }
    }

    method AdvanceGeneration()
      requires Valid()
      modifies `generation
      ensures Valid() && Contents() == old(Contents()) && Latest() == old(Latest())
      ensures generation == Min(old(generation) + 1, GENERATION_MAX)
    {
      hide SequenceWindow.Valid, SequenceWindow.Live;
      if generation != GENERATION_MAX {
        generation := generation + 1;
      }
    }

    /** Moves the watermark over a batch, point by point. */
    method AdvanceWatermark(batch: seq<RawPoint>)
      requires Valid() && batch != []
      modifies `watermark
      ensures Valid() && Contents() == old(Contents()) && Latest() == old(Latest())
      ensures watermark == Some(NextWatermark(old(watermark), batch))
    {
      hide SequenceWindow.Valid, SequenceWindow.Live;
      var hadWatermark := watermark.Some?;
      for k := 0 to |batch|
        invariant k == 0 ==> watermark == old(watermark)
        invariant k > 0 ==> watermark == Some(NextWatermark(old(watermark), batch[..k]))
      {
        assert batch[..k + 1][..k] == batch[..k];
        if !hadWatermark || batch[k].time > watermark.value {
          watermark := Some(batch[k].time);
        }
      }
      assert batch[..|batch|] == batch;
    }

    /** The sequence-local half of a batch: create, overlay, evict. */
    method ApplyBatch(batch: seq<RawPoint>, start: Timestamp) returns (safe: map<SequenceId, bool>, evicted: seq<SequenceId>)
      requires Valid()
      modifies `windows, `owner, owner.Keys
      ensures Valid() && fresh(owner.Keys - old(owner.Keys))
      ensures BatchMatches(Contents(), old(Contents()), batch, start)
      ensures SafetyMatches(safe, old(Latest()), batch)
      ensures EvictionMatches(evicted, old(Contents()), batch, start)
      ensures AllAttained(old(Contents()), old(Latest())) ==>
                AllAttained(Contents(), Latest()) && LatestMatches(Latest(), old(Latest()), old(Contents()), batch)
    {
      hide *;
      ghost var before, latest := Contents(), Latest();
      var ids := DistinctIds(batch);
      assert Contents() == before && Latest() == latest;
      EnsureWindows(ids);
      assert Contents() == WithEmpty(before, ids) && Latest() == WithFresh(latest, ids);
      var order := AllSequences();
      assert Contents() == WithEmpty(before, ids) && Latest() == WithFresh(latest, ids);
      assert forall id :: id in order <==> id in before || id in ids;
      BatchMeaning(before, latest, batch, ids, order, start);
      SafetyMeaning(latest, batch, ids);
      if AllAttained(before, latest) { LatestMeaning(before, latest, batch, ids); }
      ghost var written := OverlayAll(WithEmpty(before, ids), batch, ids);
      safe := UpdateAll(batch, ids);
      assert Contents() == written;
      ghost var moved := Latest();
      if AllAttained(written, moved) { PrunedAttained(written, moved, order, start); }
      evicted := PruneExpiredPoints(order, start);
      assert Contents() == PrunedAt(written, order, start);
    }

    /** One raw batch: overlay every sequence's share, move the watermark, evict. */
    method UpdateWindow(batch: seq<RawPoint>, sizeOverride: Option<int>) returns (report: UpdateReport)
      requires Valid() && (sizeOverride.Some? ==> sizeOverride.value <= TIMESTAMP_MAX)
      modifies this, owner.Keys
      ensures Valid() && fresh(owner.Keys - old(owner.Keys))
      ensures report.InvalidArgument? <==> !Acceptable(batch, sizeOverride)
      ensures report.InvalidArgument? ==>
                Contents() == old(Contents()) && watermark == old(watermark) && windowSize == old(windowSize)
                && generation == old(generation)
      ensures report.Updated? ==>
                && windowSize == (if sizeOverride.Some? then sizeOverride.value else old(windowSize))
                && watermark == Some(NextWatermark(old(watermark), batch))
                && report.windowStart == WindowStart(watermark.value, windowSize)
                && generation == Min(old(generation) + 1, GENERATION_MAX)
                && BatchMatches(Contents(), old(Contents()), batch, report.windowStart)
                && SafetyMatches(report.incrementalSafe, old(Latest()), batch)
                && EvictionMatches(report.evicted, old(Contents()), batch, report.windowStart)
      ensures report.InvalidArgument? ==> Latest() == old(Latest())
      ensures report.Updated? && AllAttained(old(Contents()), old(Latest())) ==>
                AllAttained(Contents(), Latest()) && LatestMatches(Latest(), old(Latest()), old(Contents()), batch)
    {
      hide AllAttained, LatestMatches, Valid, SequenceWindow.Valid, Contents, Latest, BatchMatches, SafetyMatches, EvictionMatches, NextWatermark;
      if batch == [] || (sizeOverride.Some? && sizeOverride.value <= 0) || HasBlank(batch) {
        return InvalidArgument;
      }
      ApplySize(sizeOverride);
      AdvanceWatermark(batch);
      AdvanceGeneration();
      var start := WindowStart(watermark.value, windowSize);
      var safe, evicted := ApplyBatch(batch, start);
      report := Updated(start, safe, evicted);
    }

    /** Evicts every window of the project at the current window start, once there is a watermark. */
    method EvictAtStart()
      requires Valid()
      modifies owner.Keys
      ensures Valid()
      ensures Contents() == Evicted(old(Contents()), watermark, windowSize)
      ensures Latest() == old(Latest())
      ensures AllAttained(old(Contents()), old(Latest())) ==> AllAttained(Contents(), Latest())
    {
      hide AllAttained, Valid, SequenceWindow.Valid, Contents, Latest, DropBelow, PrunedAt, ExpiredIn, Distinct, Expires;
      if watermark.Some? {
        var order := AllSequences();
        if AllAttained(Contents(), Latest()) { PrunedAttained(Contents(), Latest(), order, WindowStart(watermark.value, windowSize)); }
        PrunedEverywhere(Contents(), order, WindowStart(watermark.value, windowSize));
        var _ := PruneExpiredPoints(order, WindowStart(watermark.value, windowSize));
      }
    }

    method ConfigureWindowSize(size: int) returns (ok: bool)
      requires Valid() && size <= TIMESTAMP_MAX
      modifies `windowSize, owner.Keys
      ensures Valid() && (ok <==> size > 0)
      ensures !ok ==> Contents() == old(Contents()) && windowSize == old(windowSize)
      ensures ok ==> windowSize == size && Contents() == Evicted(old(Contents()), watermark, size)
      ensures Latest() == old(Latest())
      ensures AllAttained(old(Contents()), old(Latest())) ==> AllAttained(Contents(), Latest())
    {
      hide AllAttained, Valid, SequenceWindow.Valid, Contents, Latest, Evicted;
      if size <= 0 {
        return false;
      }
      ApplySize(Some(size));
      EvictAtStart();
      ok := true;
    }

    /** Rewrites one window in place; every other window is untouched. */
    method RewriteOne(id: SequenceId, op: Operation)
      requires Valid() && id in windows && op.Sound()
      modifies owner.Keys
      ensures Valid()
      ensures Contents() == old(Contents())[id := op.On(old(Contents())[id])]
      ensures AllAttained(old(Contents()), old(Latest())) ==>
                Latest() == old(Latest())[id := op.LatestOn(old(Contents())[id], old(Latest())[id])]
                && ((op.Patch? ==> op.data != []) ==> AllAttained(Contents(), Latest()))
    {
      hide Operation.On, Operation.LatestOn, Attained, SequenceWindow.Valid, SequenceWindow.Live;
      ghost var contents, latest := Contents(), Latest();
      windows[id].Perform(op);
      assert Valid();
      hide Valid;
      forall other | other in windows && other != id
        ensures windows[other].Live() == contents[other] && windows[other].latestTime == latest[other]
      {
        assert owner[windows[other]] == other;
      }
      assert Contents() == contents[id := windows[id].Live()];
      assert Latest() == latest[id := windows[id].latestTime];
      hide Contents, Latest;
    }

    /** Rewrites one window, created empty when it is missing. */
    method RewriteWindow(id: SequenceId, op: Operation)
      requires Valid() && op.Sound()
      modifies `windows, `owner, owner.Keys
      ensures Valid() && fresh(owner.Keys - old(owner.Keys))
      ensures Contents() == old(Contents())[id := op.On(ContentOf(old(Contents()), id))]
      ensures AllAttained(old(Contents()), old(Latest())) ==>
                Latest() == old(Latest())[id := op.LatestOn(ContentOf(old(Contents()), id), LatestOf(old(Latest()), id))]
                && ((op.Patch? ==> op.data != []) ==> AllAttained(Contents(), Latest()))
    {
      hide *;
      ghost var before, latest := Contents(), Latest();
      EnsureWindow(id);
      RewriteMeaning(before, Contents(), id, op);
      RewriteLatest(before, latest, Contents(), Latest(), id, op);
      RewriteOne(id, op);
    }

    /** Replaces a derived sequence, then evicts like any other change. */
    method ReplaceDerivedSequence(id: SequenceId, data: seq<RawPoint>) returns (ok: bool)
      requires Valid()
      modifies `windows, `owner, owner.Keys
      ensures Valid() && fresh(owner.Keys - old(owner.Keys))
      ensures ok <==> id != "" && AllNamed(data, id)
      ensures !ok ==> Contents() == old(Contents())
      ensures ok ==> Contents() == Evicted(old(Contents())[id := AsMap(PointsOf(data, id))], watermark, windowSize)
      ensures !ok ==> Latest() == old(Latest())
      ensures ok && AllAttained(old(Contents()), old(Latest())) ==>
                AllAttained(Contents(), Latest()) && Latest() == old(Latest())[id := LastTime(AsMap(PointsOf(data, id)))]
    {
      hide AllAttained, LastTime, Valid, SequenceWindow.Valid, Contents, Latest, Evicted, AsMap, PointsOf;
      if id == "" || !AllNamed(data, id) {
        return false;
      }
      RewriteWindow(id, Replace(PointsOf(data, id)));
      EvictAtStart();
      ok := true;
    }

    /** Patches one closed range of a derived sequence. */
    method PatchDerivedSequence(id: SequenceId, first: Timestamp, last: Timestamp, data: seq<RawPoint>) returns (ok: bool)
      requires Valid()
      modifies `windows, `owner, owner.Keys
      ensures Valid() && fresh(owner.Keys - old(owner.Keys))
      ensures ok <==> id != "" && first <= last && AllNamed(data, id) && AllWithin(data, first, last)
      ensures !ok ==> Contents() == old(Contents())
      ensures ok ==> Contents() == old(Contents())[id := EraseRange(ContentOf(old(Contents()), id), first, last) + AsMap(PointsOf(data, id))]
      ensures !ok ==> Latest() == old(Latest())
      ensures ok && AllAttained(old(Contents()), old(Latest())) ==>
                && (data != [] ==> AllAttained(Contents(), Latest()))
                && Latest() == old(Latest())[id := if data == [] then LatestOf(old(Latest()), id) else LastTime(Contents()[id])]
    {
      hide AllAttained, LastTime, Valid, SequenceWindow.Valid, Contents, Latest, AsMap, PointsOf, EraseRange;
      SomeNamed(data, id);
      if id == "" || first > last || !AllNamed(data, id) || !AllWithin(data, first, last) {
        return false;
      }
      RewriteWindow(id, Patch(first, last, PointsOf(data, id)));
      ok := true;
    }

    /** Range query over several sequences, defaulting to the live window. */
    method QueryWindow(ids: seq<SequenceId>, startTime: Option<Timestamp>, endTime: Option<Timestamp>,
                       preceding: nat, following: nat, preserveBounds: bool) returns (answer: QueryAnswer)
      requires Valid()
      ensures answer == QueryMeaning(Contents(), watermark, windowSize, ids, startTime, endTime, preceding, following, preserveBounds)
    {
      hide Valid, SequenceWindow.Valid, SequenceWindow.Live, Collected, Excerpt, InOrder;
      if ids == [] || (startTime.Some? && endTime.Some? && startTime.value > endTime.value) || "" in ids {
        return InvalidQuery;
      }
      if watermark.None? {
        return EmptyWindow;
      }
      var liveEnd, liveStart := LiveEnd(watermark.value), LiveStart(watermark.value, windowSize);
      var end := if endTime.Some? then endTime.value else liveEnd;
      var start := if startTime.Some? then startTime.value else liveStart;
      if start > end {
        return InvalidQuery;
      }
      var values, count := CollectRows(ids, start, end, preceding, following);
      answer := Rows(values, if preserveBounds then liveStart else start, if preserveBounds then liveEnd else end, count);
    }

    method CollectRows(ids: seq<SequenceId>, start: Timestamp, end: Timestamp, preceding: nat, following: nat)
      returns (values: map<SequenceId, seq<Point>>, count: nat)
      requires Valid() && start <= end
      ensures values == Collected(Contents(), ids, start, end, preceding, following)
      ensures count == RowCount(Contents(), ids, start, end, preceding, following)
    {
      hide SequenceWindow.Valid, SequenceWindow.Live, Excerpt, InOrder;
      values, count := map[], 0;
      for k := 0 to |ids|
        invariant values == Collected(Contents(), ids[..k], start, end, preceding, following)
        invariant count == RowCount(Contents(), ids[..k], start, end, preceding, following)
      {
        assert ids[..k + 1][..k] == ids[..k];
        if ids[k] in windows {
          var output, found := windows[ids[k]].QueryData(start, end, preceding, following);
          count := count + found;
          output := (if ids[k] in values then values[ids[k]] else []) + output;
          values := if output == [] then values - {ids[k]} else values[ids[k] := output];
        }
      }
      assert ids[..|ids|] == ids;
    }

    /** Carries out one call on the service. */
    method Call(op: ServiceOperation)
      requires Valid() && op.Sound()
      modifies this, owner.Keys
      ensures Valid() && fresh(owner.Keys - old(owner.Keys))
      ensures State() == op.On(old(State()))
      ensures AllAttained(old(Contents()), old(Latest())) ==>
                Latest() == op.LatestOn(old(State()), old(Latest()))
                && ((op.DerivedPatch? ==> op.data != []) ==> AllAttained(Contents(), Latest()))
    {
      hide Valid, SequenceWindow.Valid, Contents, Latest, Evicted, AsMap, PointsOf, EraseRange, AfterBatch, BatchMatches, NextWatermark,
           AllAttained, LatestMatches, LatestAfterBatch, LastTime;
      match op
      case RawBatch(batch, sizeOverride) =>
        var report := UpdateWindow(batch, sizeOverride);
        if report.Updated? {
          BatchIsUnique(Contents(), old(Contents()), batch, report.windowStart);
          if AllAttained(old(Contents()), old(Latest())) { LatestIsUnique(Latest(), old(Latest()), old(Contents()), batch); }
        }
      case Resize(size) => var _ := ConfigureWindowSize(size);
      case DerivedReplace(id, data) => var _ := ReplaceDerivedSequence(id, data);
      case DerivedPatch(id, first, last, data) => var _ := PatchDerivedSequence(id, first, last, data);
    }

    /** The reference state: one plain map a sequence, the watermark, the size. */
    ghost function State(): (s: ReferenceState)
      reads this, owner.Keys
      requires Valid()
      ensures 0 < s.size <= TIMESTAMP_MAX
    {
      ReferenceState(Contents(), watermark, windowSize)
    }

    /** Every sequential run of calls agrees with the reference model. */
    method RunCalls(ops: seq<ServiceOperation>)
      requires Valid() && forall i :: 0 <= i < |ops| ==> ops[i].Sound()
      modifies this, owner.Keys
      ensures Valid() && State() == StateAfter(ops, old(State()))
      ensures AllAttained(old(Contents()), old(Latest())) && (forall i :: 0 <= i < |ops| && ops[i].DerivedPatch? ==> ops[i].data != []) ==>
                AllAttained(Contents(), Latest()) && Latest() == LatestAfterCalls(ops, old(State()), old(Latest()))
    {
      hide Valid, State, Contents, Latest, AllAttained, ServiceOperation.On, ServiceOperation.LatestOn;
      for i := 0 to |ops|
        invariant Valid() && fresh(owner.Keys - old(owner.Keys))
        invariant State() == StateAfter(ops[..i], old(State()))
        invariant AllAttained(old(Contents()), old(Latest())) && (forall k :: 0 <= k < |ops| && ops[k].DerivedPatch? ==> ops[k].data != []) ==>
                    AllAttained(Contents(), Latest()) && Latest() == LatestAfterCalls(ops[..i], old(State()), old(Latest()))
      {
        assert ops[..i + 1][..i] == ops[..i];
        Call(ops[i]);
      }
      assert ops[..|ops|] == ops;
    }
  }

  lemma SomeNamed(data: seq<RawPoint>, id: SequenceId)
    ensures AllNamed(data, id) ==> (PointsOf(data, id) == [] <==> data == [])
  {
  }

  lemma RewriteMeaning(before: Holdings, mid: Holdings,
                       id: SequenceId, op: Operation)
    requires mid == if id in before then before else before[id := map[]]
    ensures id in mid && mid[id := op.On(mid[id])] == before[id := op.On(ContentOf(before, id))]
  {
    hide Operation.On;
  }

  lemma RewriteLatest(before: Holdings, latest: LatestTimes, mid: Holdings, midLatest: LatestTimes, id: SequenceId, op: Operation)
    requires before.Keys == latest.Keys
    requires mid == if id in before then before else before[id := map[]]
    requires midLatest == if id in before then latest else latest[id := None]
    ensures AllAttained(before, latest) ==> AllAttained(mid, midLatest)
    ensures id in midLatest && id in mid &&
            midLatest[id := op.LatestOn(mid[id], midLatest[id])] == latest[id := op.LatestOn(ContentOf(before, id), LatestOf(latest, id))]
  {
    hide Operation.LatestOn;
  }

  datatype QueryAnswer =
    | InvalidQuery
    | EmptyWindow
    | Rows(values: map<SequenceId, seq<Point>>, start: Timestamp, end: Timestamp, count: nat)

  /** Rows by sequence: each mention of a known sequence contributes its excerpt. */
  ghost function Collected(contents: Holdings, ids: seq<SequenceId>,
                           start: int, end: int, preceding: nat, following: nat): (r: map<SequenceId, seq<Point>>)
    requires start <= end
  {
    if ids == [] then map[]
    else
      var id := ids[|ids| - 1];
      var front := Collected(contents, ids[..|ids| - 1], start, end, preceding, following);
      if id !in contents then front
      else
        var output := (if id in front then front[id] else []) + Excerpt(InOrder(contents[id]), start, end, preceding, following);
        if output == [] then front - {id} else front[id := output]
  }

  ghost function RowCount(contents: Holdings, ids: seq<SequenceId>,
                          start: int, end: int, preceding: nat, following: nat): (n: nat)
    requires start <= end
  {
    if ids == [] then 0
    else
      var id := ids[|ids| - 1];
      RowCount(contents, ids[..|ids| - 1], start, end, preceding, following)
      + if id in contents then |Excerpt(InOrder(contents[id]), start, end, preceding, following)| else 0
  }

  ghost function QueryMeaning(contents: Holdings, watermark: Option<Timestamp>, size: int,
                              ids: seq<SequenceId>, startTime: Option<Timestamp>, endTime: Option<Timestamp>,
                              preceding: nat, following: nat, preserveBounds: bool): (r: QueryAnswer)
    requires 0 < size <= TIMESTAMP_MAX
  {
    if ids == [] || (startTime.Some? && endTime.Some? && startTime.value > endTime.value) || "" in ids then InvalidQuery
    else if watermark.None? then EmptyWindow
    else
      var liveStart, liveEnd := LiveStart(watermark.value, size), LiveEnd(watermark.value);
      var start := if startTime.Some? then startTime.value else liveStart;
      var end := if endTime.Some? then endTime.value else liveEnd;
      if start > end then InvalidQuery
      else
        Rows(Collected(contents, ids, start, end, preceding, following),
             if preserveBounds then liveStart else start, if preserveBounds then liveEnd else end,
             RowCount(contents, ids, start, end, preceding, following))
  }

  predicate AllNamed(data: seq<RawPoint>, id: SequenceId) {
    forall i :: 0 <= i < |data| ==> data[i].sequence == id
  }

  predicate AllWithin(data: seq<RawPoint>, first: Timestamp, last: Timestamp) {
    forall i :: 0 <= i < |data| ==> first <= data[i].time <= last
  }

  ghost function Evicted(contents: Holdings, watermark: Option<Timestamp>, size: int)
    : (r: Holdings)
    requires 0 < size <= TIMESTAMP_MAX
  {
    if watermark.None? then contents
    else map id | id in contents :: DropBelow(contents[id], WindowStart(watermark.value, size))
  }

  lemma PrunedAttained(contents: Holdings, latest: LatestTimes, order: seq<SequenceId>, start: int)
    requires AllAttained(contents, latest)
    ensures AllAttained(PrunedAt(contents, order, start), latest)
  {
    hide DropBelow, Attained;
    forall id | id in contents ensures Attained(latest[id], DropBelow(contents[id], start)) { StaysAttained(latest[id], contents[id], start); }
  }

  lemma StaysAttained(latest: Option<Timestamp>, m: Series, start: int)
    requires Attained(latest, m)
    ensures Attained(latest, DropBelow(m, start))
  {
    var now := DropBelow(m, start);
    LastTimeHeld(m);
    LastTimeHeld(now);
    if now != map[] {
      assert LastTime(now).value in m;
      assert LastTime(m).value in now;
    }
  }

  lemma PrunedEverywhere(contents: Holdings, order: seq<SequenceId>, start: int)
    requires forall id :: id in contents ==> id in order
    ensures PrunedAt(contents, order, start) == map id | id in contents :: DropBelow(contents[id], start)
  {
  }

  /** A call on the service. */
  datatype ServiceOperation =
    | RawBatch(batch: seq<RawPoint>, sizeOverride: Option<int>)
    | Resize(size: int)
    | DerivedReplace(id: SequenceId, data: seq<RawPoint>)
    | DerivedPatch(id: SequenceId, first: Timestamp, last: Timestamp, data: seq<RawPoint>)
  {
    predicate Sound() {
      && (RawBatch? && sizeOverride.Some? ==> sizeOverride.value <= TIMESTAMP_MAX)
      && (Resize? ==> size <= TIMESTAMP_MAX)
    }

    /** Its effect on the reference state; a rejected call changes nothing. */
    ghost function On(s: ReferenceState): (r: ReferenceState)
      requires Sound() && 0 < s.size <= TIMESTAMP_MAX
      ensures 0 < r.size <= TIMESTAMP_MAX
    {
      match this
      case RawBatch(batch, sizeOverride) =>
        if !Acceptable(batch, sizeOverride) then s
        else
          var size := if sizeOverride.Some? then sizeOverride.value else s.size;
          var w := NextWatermark(s.watermark, batch);
          ReferenceState(AfterBatch(s.contents, batch, WindowStart(w, size)), Some(w), size)
      case Resize(size) =>
        if size <= 0 then s else ReferenceState(Evicted(s.contents, s.watermark, size), s.watermark, size)
      case DerivedReplace(id, data) =>
        if id == "" || !AllNamed(data, id) then s
        else s.(contents := Evicted(s.contents[id := AsMap(PointsOf(data, id))], s.watermark, s.size))
      case DerivedPatch(id, first, last, data) =>
        if id == "" || first > last || !AllNamed(data, id) || !AllWithin(data, first, last) then s
        else s.(contents := s.contents[id := EraseRange(ContentOf(s.contents, id), first, last) + AsMap(PointsOf(data, id))])
    }

    /** Its effect on the latest times of the windows. */
    ghost function LatestOn(s: ReferenceState, latest: LatestTimes): LatestTimes
      requires Sound() && 0 < s.size <= TIMESTAMP_MAX
    {
      match this
      case RawBatch(batch, sizeOverride) => if !Acceptable(batch, sizeOverride) then latest else LatestAfterBatch(latest, s.contents, batch)
      case Resize(_) => latest
      case DerivedReplace(id, data) =>
        if id == "" || !AllNamed(data, id) then latest else latest[id := LastTime(AsMap(PointsOf(data, id)))]
      case DerivedPatch(id, first, last, data) =>
        if id == "" || first > last || !AllNamed(data, id) || !AllWithin(data, first, last) then latest
        else latest[id := if data == [] then LatestOf(latest, id) else LastTime(ContentOf(On(s).contents, id))]
    }
  }

  ghost function LatestAfterCalls(ops: seq<ServiceOperation>, s: ReferenceState, latest: LatestTimes): LatestTimes
    requires 0 < s.size <= TIMESTAMP_MAX && forall i :: 0 <= i < |ops| ==> ops[i].Sound()
  {
    if ops == [] then latest
    else ops[|ops| - 1].LatestOn(StateAfter(ops[..|ops| - 1], s), LatestAfterCalls(ops[..|ops| - 1], s, latest))
  }

  /** The latest times after a batch, as one comprehension. */
  ghost function LatestAfterBatch(latest: LatestTimes, before: Holdings, batch: seq<RawPoint>): LatestTimes {
    map id | id in latest.Keys + set i | 0 <= i < |batch| :: batch[i].sequence ::
      Update(PointsOf(batch, id)).LatestOn(ContentOf(before, id), LatestOf(latest, id))
  }

  lemma {:induction false} LatestIsUnique(after: LatestTimes, latest: LatestTimes, before: Holdings, batch: seq<RawPoint>)
    requires LatestMatches(after, latest, before, batch)
    ensures after == LatestAfterBatch(latest, before, batch)
  {
    hide PointsOf, Operation.LatestOn;
  }

  datatype ReferenceState = ReferenceState(contents: Holdings, watermark: Option<Timestamp>, size: int)

  ghost function StateAfter(ops: seq<ServiceOperation>, s: ReferenceState): (r: ReferenceState)
    requires 0 < s.size <= TIMESTAMP_MAX && forall i :: 0 <= i < |ops| ==> ops[i].Sound()
    ensures 0 < r.size <= TIMESTAMP_MAX
  {
    if ops == [] then s else ops[|ops| - 1].On(StateAfter(ops[..|ops| - 1], s))
  }

  /** The contents after a batch, as one comprehension. */
  ghost function AfterBatch(before: Holdings, batch: seq<RawPoint>, start: int)
    : (r: Holdings)
  {
    map id | id in before.Keys + set i | 0 <= i < |batch| :: batch[i].sequence :: ContentAfter(before, batch, id, start)
  }

  lemma {:induction false} BatchIsUnique(after: Holdings, before: Holdings,
                      batch: seq<RawPoint>, start: int)
    requires BatchMatches(after, before, batch, start)
    ensures after == AfterBatch(before, batch, start)
  {
    hide ContentAfter, PointsOf;
  }

  predicate HasBlank(batch: seq<RawPoint>) {
    exists k :: 0 <= k < |batch| && batch[k].sequence == ""
  }

  predicate Acceptable(batch: seq<RawPoint>, sizeOverride: Option<int>) {
    batch != [] && (sizeOverride.Some? ==> sizeOverride.value > 0) && !HasBlank(batch)
  }

  /** The batch's sequences in order of first appearance. */
  method DistinctIds(batch: seq<RawPoint>) returns (ids: seq<SequenceId>)
    ensures Distinct(ids)
    ensures forall id :: id in ids <==> PointsOf(batch, id) != []
  {
    hide PointsOf;
    ids := [];
    for k := 0 to |batch|
      invariant Distinct(ids)
      invariant forall id :: id in ids <==> exists i :: 0 <= i < k && batch[i].sequence == id
    {
      if batch[k].sequence !in ids {
        ids := ids + [batch[k].sequence];
      }
    }
  }

  ghost function ContentOf(contents: Holdings, id: SequenceId): Series {
    if id in contents then contents[id] else map[]
  }

  ghost function LatestOf(latest: LatestTimes, id: SequenceId): Option<Timestamp> {
    if id in latest then latest[id] else None
  }

  /** Every latest time is the greatest live instant, wherever something is live. */
  ghost predicate AllAttained(contents: Holdings, latest: LatestTimes) {
    contents.Keys == latest.Keys && forall id :: id in contents ==> Attained(latest[id], contents[id])
  }

  /** The latest times a batch leaves: of an empty window its last instant, else the later of that and the old one. */
  ghost predicate LatestMatches(after: LatestTimes, latest: LatestTimes, before: Holdings, batch: seq<RawPoint>) {
    && (forall id :: id in after <==> id in latest || PointsOf(batch, id) != [])
    && (forall id :: id in after ==> after[id] == Update(PointsOf(batch, id)).LatestOn(ContentOf(before, id), LatestOf(latest, id)))
  }

  /** What one sequence holds after a batch: its old content, its share of the
      batch laid over it, everything before the window start dropped. */
  ghost function ContentAfter(contents: Holdings, batch: seq<RawPoint>, id: SequenceId, start: int)
    : (r: Series)
  {
    DropBelow(ContentOf(contents, id) + AsMap(PointsOf(batch, id)), start)
  }

  /** `after` is exactly what the batch makes of `before`. */
  ghost predicate BatchMatches(after: Holdings, before: Holdings,
                               batch: seq<RawPoint>, start: int)
  {
    && (forall id :: id in after <==> id in before || PointsOf(batch, id) != [])
    && (forall id :: id in after ==> after[id] == ContentAfter(before, batch, id, start))
  }

  /** One flag a sequence of the batch, raised when its points only append. */
  ghost predicate SafetyMatches(safe: map<SequenceId, bool>, latest: LatestTimes, batch: seq<RawPoint>) {
    && (forall id :: id in safe <==> PointsOf(batch, id) != [])
    && (forall id :: id in safe ==> (safe[id] <==> AppendsOnly(LatestOf(latest, id), PointsOf(batch, id))))
  }

  /** Reported as evicted: the sequences that lost a live or just written point. */
  ghost predicate EvictionMatches(evicted: seq<SequenceId>, before: Holdings,
                                  batch: seq<RawPoint>, start: int)
  {
    forall id :: id in evicted <==> Expires(ContentOf(before, id) + AsMap(PointsOf(batch, id)), start)
  }

  /** The three phases together mean one overlay-and-drop per sequence. */
  lemma BatchMeaning(before: Holdings, latest: LatestTimes,
                     batch: seq<RawPoint>, ids: seq<SequenceId>, order: seq<SequenceId>, start: int)
    requires forall id :: id in ids <==> PointsOf(batch, id) != []
    requires before.Keys == latest.Keys
    requires forall id :: id in order <==> id in before || id in ids
    ensures var written := OverlayAll(WithEmpty(before, ids), batch, ids);
            && BatchMatches(PrunedAt(written, order, start), before, batch, start)
            && EvictionMatches(ExpiredIn(written, order, start), before, batch, start)
  {
    hide AsMap, PointsOf, DropBelow, Expires, AppendsOnly, WithEmpty, WithFresh, ExpiredIn, OverlayAll, ContentOf, LatestOf;
    var written := OverlayAll(WithEmpty(before, ids), batch, ids);
    forall id
      ensures id in written <==> id in before || id in ids
      ensures id in written ==> written[id] == ContentOf(before, id) + AsMap(PointsOf(batch, id))
      ensures id in ExpiredIn(written, order, start) <==> Expires(ContentOf(before, id) + AsMap(PointsOf(batch, id)), start)
    {
      WrittenAt(before, latest, batch, ids, id);
      ExpiredMember(written, order, start, id);
      NothingExpires(before, batch, id, start);
    }
  }

  lemma SafetyMeaning(latest: LatestTimes, batch: seq<RawPoint>, ids: seq<SequenceId>)
    requires forall id :: id in ids <==> PointsOf(batch, id) != []
    ensures SafetyMatches(SafeAll(WithFresh(latest, ids), batch, ids), latest, batch)
  {
    hide PointsOf, AppendsOnly, WithFresh;
    forall id
      ensures id in WithFresh(latest, ids) <==> id in latest || id in ids
      ensures id in WithFresh(latest, ids) ==> WithFresh(latest, ids)[id] == LatestOf(latest, id)
    {
      EmptyAt(map[], latest, ids, id);
    }
  }

  lemma LatestMeaning(before: Holdings, latest: LatestTimes, batch: seq<RawPoint>, ids: seq<SequenceId>)
    requires AllAttained(before, latest) && forall id :: id in ids <==> PointsOf(batch, id) != []
    ensures AllAttained(WithEmpty(before, ids), WithFresh(latest, ids))
    ensures LatestMatches(LatestAll(WithFresh(latest, ids), WithEmpty(before, ids), batch, ids), latest, before, batch)
  {
    hide PointsOf, WithFresh, WithEmpty, AsMap, LastTime, Later;
    var now, held := WithFresh(latest, ids), WithEmpty(before, ids);
    AsMapNil([]);
    NoLastTime();
    forall id
      ensures id in now <==> id in held
      ensures id in now <==> id in latest || id in ids
      ensures id in now ==> now[id] == LatestOf(latest, id) && held[id] == ContentOf(before, id) && Attained(now[id], held[id])
      ensures PointsOf(batch, id) == [] ==> Update(PointsOf(batch, id)).LatestOn(ContentOf(before, id), LatestOf(latest, id)) == LatestOf(latest, id)
    {
      EmptyAt(before, latest, ids, id);
    }
  }

  lemma NoLastTime()
    ensures LastTime(map[]).None? && forall t: Option<Timestamp> :: Later(t, None) == t
  {
  }

  lemma {:induction false} WrittenAt(before: Holdings, latest: LatestTimes,
                  batch: seq<RawPoint>, ids: seq<SequenceId>, id: SequenceId)
    requires id in ids <==> PointsOf(batch, id) != []
    ensures var written := OverlayAll(WithEmpty(before, ids), batch, ids);
            && (id in written <==> id in before || id in ids)
            && (id in written ==> written[id] == ContentOf(before, id) + AsMap(PointsOf(batch, id)))
  {
    hide AsMap, PointsOf, WithEmpty, WithFresh;
    EmptyAt(before, latest, ids, id);
    AsMapNil([]);
  }

  lemma NothingExpires(before: Holdings, batch: seq<RawPoint>, id: SequenceId, start: int)
    ensures id !in before && PointsOf(batch, id) == [] ==>
              !Expires(ContentOf(before, id) + AsMap(PointsOf(batch, id)), start)
  {
  }

  lemma {:induction false} EmptyAt(contents: Holdings, latest: LatestTimes,
                                   ids: seq<SequenceId>, id: SequenceId)
    ensures id in WithEmpty(contents, ids) <==> id in contents || id in ids
    ensures id in WithEmpty(contents, ids) ==> WithEmpty(contents, ids)[id] == ContentOf(contents, id)
    ensures id in WithFresh(latest, ids) <==> id in latest || id in ids
    ensures id in WithFresh(latest, ids) ==> WithFresh(latest, ids)[id] == LatestOf(latest, id)
    decreases |ids|
  {
    if ids != [] {
      EmptyAt(contents, latest, ids[..|ids| - 1], id);
      EmptyAt(contents, latest, ids[..|ids| - 1], ids[|ids| - 1]);
      assert ids == ids[..|ids| - 1] + [ids[|ids| - 1]];
    }
  }

  lemma {:induction false} ExpiredMember(contents: Holdings, order: seq<SequenceId>, start: int, id: SequenceId)
    ensures id in ExpiredIn(contents, order, start) <==> id in order && id in contents && Expires(contents[id], start)
    decreases |order|
  {
    hide Expires;
    if order != [] {
      ExpiredMember(contents, order[..|order| - 1], start, id);
      assert order == order[..|order| - 1] + [order[|order| - 1]];
    }
  }

  ghost function PrunedAt(contents: Holdings, done: seq<SequenceId>, start: int)
    : (r: Holdings)
  {
    map id | id in contents :: if id in done then DropBelow(contents[id], start) else contents[id]
  }

  /** The listed sequences that lose something to an eviction at `start`. */
  ghost function ExpiredIn(contents: Holdings, done: seq<SequenceId>, start: int)
    : (r: seq<SequenceId>)
  {
    if done == [] then []
    else
      var id := done[|done| - 1];
      ExpiredIn(contents, done[..|done| - 1], start) + if id in contents && Expires(contents[id], start) then [id] else []
  }

  lemma PrunedNone(contents: Holdings, start: int)
    ensures PrunedAt(contents, [], start) == contents
  {
  }

  lemma PrunedStep(contents: Holdings, order: seq<SequenceId>, k: nat, start: int)
    requires k < |order| && order[k] in contents && Distinct(order)
    ensures var c, id := PrunedAt(contents, order[..k], start), order[k];
            id in c && c[id] == contents[id] &&
            PrunedAt(contents, order[..k + 1], start) == c[id := DropBelow(c[id], start)]
  {
    hide DropBelow, Expires;
    assert order[..k + 1] == order[..k] + [order[k]];
    assert order[k] !in order[..k];
  }

  method PickOne<T>(s: set<T>) returns (x: T)
    requires s != {}
    ensures x in s
  {
    x :| x in s;
  }

  /** `contents` with an empty entry for every named sequence it lacks. */
  ghost function WithEmpty(contents: Holdings, ids: seq<SequenceId>)
    : (r: Holdings)
  {
    if ids == [] then contents
    else
      var c, id := WithEmpty(contents, ids[..|ids| - 1]), ids[|ids| - 1];
      if id in c then c else c[id := map[]]
  }

  ghost function WithFresh(latest: LatestTimes, ids: seq<SequenceId>)
    : (r: LatestTimes)
  {
    if ids == [] then latest
    else
      var l, id := WithFresh(latest, ids[..|ids| - 1]), ids[|ids| - 1];
      if id in l then l else l[id := None]
  }

  ghost predicate Untouched(now: LatestTimes, before: LatestTimes, done: seq<SequenceId>) {
    forall id :: id in before && id !in done ==> id in now && now[id] == before[id]
  }

  lemma OverlayNone(contents: Holdings, latest: LatestTimes, batch: seq<RawPoint>)
    ensures OverlayAll(contents, batch, []) == contents && SafeAll(latest, batch, []) == map[]
    ensures LatestAll(latest, contents, batch, []) == latest
    ensures Untouched(latest, latest, [])
  {
  }

  lemma {:induction false} OverlayStep(contents: Holdings, latest: LatestTimes,
                    now: LatestTimes, batch: seq<RawPoint>, ids: seq<SequenceId>, k: nat)
    requires Distinct(ids) && k < |ids| && ids[k] in contents && ids[k] in latest
    requires Untouched(now, latest, ids[..k])
    ensures var done := OverlayAll(contents, batch, ids[..k]);
            ids[k] in done && OverlayAll(contents, batch, ids[..k + 1]) ==
                              done[ids[k] := done[ids[k]] + AsMap(PointsOf(batch, ids[k]))]
    ensures ids[k] in now
    ensures SafeAll(latest, batch, ids[..k + 1]) ==
            SafeAll(latest, batch, ids[..k])[ids[k] := AppendsOnly(now[ids[k]], PointsOf(batch, ids[k]))]
  {
    hide AsMap, PointsOf, AppendsOnly;
    assert ids[..k + 1] == ids[..k] + [ids[k]];
    assert ids[k] !in ids[..k];
  }

  lemma LatestStep(contents: Holdings, latest: LatestTimes, batch: seq<RawPoint>, ids: seq<SequenceId>, k: nat)
    requires Distinct(ids) && k < |ids| && ids[k] in contents && ids[k] in latest
    ensures var done, was, id := LatestAll(latest, contents, batch, ids[..k]), OverlayAll(contents, batch, ids[..k]), ids[k];
            id in done && id in was &&
            LatestAll(latest, contents, batch, ids[..k + 1]) == done[id := Update(PointsOf(batch, id)).LatestOn(was[id], done[id])]
  {
    hide PointsOf, AsMap, Operation.LatestOn;
    assert ids[..k + 1] == ids[..k] + [ids[k]];
    assert ids[k] !in ids[..k];
  }

  lemma StillUntouched(now: LatestTimes, before: LatestTimes, ids: seq<SequenceId>, k: nat)
    requires k < |ids|
    requires exists mid :: Untouched(mid, before, ids[..k]) && now - {ids[k]} == mid - {ids[k]}
    ensures Untouched(now, before, ids[..k + 1])
  {
    assert ids[..k + 1] == ids[..k] + [ids[k]];
    var mid :| Untouched(mid, before, ids[..k]) && now - {ids[k]} == mid - {ids[k]};
    forall id | id in before && id !in ids[..k + 1] ensures id in now && now[id] == before[id] {
      assert id in mid - {ids[k]};
    }
  }

  /** Every named sequence's share of the batch laid over its content. */
  ghost function OverlayAll(contents: Holdings, batch: seq<RawPoint>, ids: seq<SequenceId>)
    : (r: Holdings)
  {
    map id | id in contents :: if id in ids then contents[id] + AsMap(PointsOf(batch, id)) else contents[id]
  }

  /** Every named sequence's latest time after its share of the batch. */
  ghost function LatestAll(latest: LatestTimes, contents: Holdings, batch: seq<RawPoint>, ids: seq<SequenceId>): LatestTimes {
    map id | id in latest ::
      if id in ids && id in contents then Update(PointsOf(batch, id)).LatestOn(contents[id], latest[id]) else latest[id]
  }

  ghost function SafeAll(latest: LatestTimes, batch: seq<RawPoint>, ids: seq<SequenceId>)
    : (r: map<SequenceId, bool>)
  {
    map id | id in ids && id in latest :: AppendsOnly(latest[id], PointsOf(batch, id))
  }

  ghost predicate Distinct<T>(s: seq<T>) {
    forall i, j :: 0 <= i < j < |s| ==> s[i] != s[j]
  }
}
