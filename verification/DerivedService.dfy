/** Refreshing one derived series through the window service. */
module DerivedServices {
  import opened Timeline
  import opened WindowQueries
  import opened SequenceWindows
  import opened WindowServices
  import opened WindowUpdates
  import WindowLaws
  import opened Formulas
  import opened DerivedPatches
  import opened DerivedExcerpts
  import opened DerivedRefreshes
  import opened DerivedComputations
  import opened DerivedSeriesLaws

  function Named(id: SequenceId, points: seq<Point>): (r: seq<RawPoint>)
    ensures |r| == |points| && forall i :: 0 <= i < |points| ==> r[i] == RawPoint(id, points[i].time, points[i].value)
  {
    seq(|points|, i requires 0 <= i < |points| => RawPoint(id, points[i].time, points[i].value))
  }

  lemma {:induction false} NamedPoints(id: SequenceId, points: seq<Point>)
    ensures PointsOf(Named(id, points), id) == points && AllNamed(Named(id, points), id)
    decreases |points|
  {
    if points != [] {
      NamedPoints(id, points[..|points| - 1]);
      assert Named(id, points)[..|points| - 1] == Named(id, points[..|points| - 1]);
      assert points == points[..|points| - 1] + [points[|points| - 1]];
    }
  }

  lemma NamedWithin(id: SequenceId, points: seq<Point>, first: Timestamp, last: Timestamp)
    requires forall i :: 0 <= i < |points| ==> first <= points[i].time <= last
    ensures AllWithin(Named(id, points), first, last)
  {
  }

  ghost predicate Publishable(formula: Formula, derived: SequenceId, watermark: Option<Timestamp>) {
    derived != "" && SourcesFor(formula) != [] && "" !in SourcesFor(formula) && watermark.Some?
  }

  /** The rows the shared query yields for a formula. */
  ghost function QueriedSnapshot(contents: Holdings, formula: Formula, numeric: set<SequenceId>, from: int, to: int, context: nat): Rows
    requires from <= to
  {
    SnapshotRows(Collected(contents, SourcesFor(formula), from, to, context, context), SourcesFor(formula), numeric)
  }

  /** Query with one point of context, evaluate from the earliest context point
      to the end of the range, patch exactly that stretch. */
  method RefreshIncremental(service: WindowService, formula: Formula, derived: SequenceId, numeric: set<SequenceId>,
                            range: RefreshRange, from: Timestamp, to: Timestamp) returns (ok: bool, p: Timestamp)
    requires service.Valid() && from <= range.start <= range.end <= to
    modifies service`windows, service`owner, service.owner.Keys
    ensures service.Valid() && fresh(service.owner.Keys - old(service.owner.Keys))
    ensures ok <==> Publishable(formula, derived, service.watermark)
    ensures !ok ==> service.Contents() == old(service.Contents())
    ensures ok ==>
              && IsEarliestContext(p, Collected(old(service.Contents()), SourcesFor(formula), from, to, 1, 1), SourcesFor(formula), range.start)
              && service.Contents() == old(service.Contents())[derived :=
                EraseRange(ContentOf(old(service.Contents()), derived), p, range.end)
                + Restricted(Derived(formula, QueriedSnapshot(old(service.Contents()), formula, numeric, from, to, 1)), p, range.end)]
  {
    hide WindowService.Valid, WindowService.Contents, Derived, Unreadable, Failures, Collected, IsEarliestContext, PointsOf, AllNamed, AllWithin, Named, SourcesFor, Restricted, NumbersIn, EraseRange, Evicted, RowCount, AsMap, StrictlyIncreasing, WindowLaws.RowsOf;
    var ids := SourcesFor(formula);
    var answer := service.QueryWindow(ids, Some(from), Some(to), 1, 1, false);
    if !answer.Rows? || derived == "" { return false, from; }
    var rows, _ := BuildSnapshot(answer.values, ids, numeric);
    p := FindPatchStart(answer.values, ids, range.start);
    EarliestContextBound(p, answer.values, ids, range.start);
    var points, _ := ComputePoints(formula, rows, ids, p, range.end);
    NamedPoints(derived, points);
    NamedWithin(derived, points, p, range.end);
    assert service.Valid() && service.Contents() == old(service.Contents());
    ok := service.PatchDerivedSequence(derived, p, range.end, Named(derived, points));
  }

  lemma EarliestContextBound(p: int, rows: map<SequenceId, seq<Point>>, ids: seq<SequenceId>, start: int)
    requires IsEarliestContext(p, rows, ids, start)
    ensures p <= start
  {
  }

  /** Query the default window, evaluate everywhere, replace the series. */
  method RefreshFully(service: WindowService, formula: Formula, derived: SequenceId, numeric: set<SequenceId>) returns (ok: bool)
    requires service.Valid()
    modifies service`windows, service`owner, service.owner.Keys
    ensures service.Valid() && fresh(service.owner.Keys - old(service.owner.Keys))
    ensures ok <==> Publishable(formula, derived, service.watermark)
    ensures !ok ==> service.Contents() == old(service.Contents())
    ensures ok ==>
              var w, size := service.watermark.value, service.windowSize;
              LiveStart(w, size) <= LiveEnd(w) &&
              service.Contents() == Evicted(old(service.Contents())[derived :=
                Derived(formula, QueriedSnapshot(old(service.Contents()), formula, numeric, LiveStart(w, size), LiveEnd(w), 0))],
                service.watermark, size)
  {
    hide WindowService.Valid, WindowService.Contents, Derived, Unreadable, Failures, Collected, IsEarliestContext, PointsOf, AllNamed, AllWithin, Named, SourcesFor, Restricted, NumbersIn, EraseRange, Evicted, RowCount, AsMap, StrictlyIncreasing, WindowLaws.RowsOf;
    var ids := SourcesFor(formula);
    var answer := service.QueryWindow(ids, None, None, 0, 0, false);
    if !answer.Rows? || derived == "" {
      if service.watermark.Some? { LiveOrder(service.watermark.value, service.windowSize); }
      return false;
    }
    LiveOrder(service.watermark.value, service.windowSize);
    var rows, _ := BuildSnapshot(answer.values, ids, numeric);
    var points, _ := ComputePoints(formula, rows, ids, TIMESTAMP_MIN, TIMESTAMP_MAX);
    WholeRange(Derived(formula, rows));
    NamedPoints(derived, points);
    assert service.Valid() && service.Contents() == old(service.Contents());
    ok := service.ReplaceDerivedSequence(derived, Named(derived, points));
  }

  lemma LiveOrder(watermark: Timestamp, size: int)
    requires 0 < size <= TIMESTAMP_MAX
    ensures LiveStart(watermark, size) <= LiveEnd(watermark)
  {
  }

  lemma WholeRange(m: Series)
    ensures Restricted(m, TIMESTAMP_MIN, TIMESTAMP_MAX) == m
  {
  }

  /** A full refresh sees all live points of its sources exactly when each is
      registered as numeric and lies within the default query. */
  lemma {:induction false} FullRefreshSeesEverything(contents: Holdings, formula: Formula, numeric: set<SequenceId>, w: Timestamp, size: int)
    requires 0 < size <= TIMESTAMP_MAX && AllReadable(contents, SourcesFor(formula))
    requires forall id, t :: id in SourcesFor(formula) && t in ContentOf(contents, id) ==> WindowStart(w, size) <= t
    ensures LiveStart(w, size) <= LiveEnd(w)
    ensures QueriedSnapshot(contents, formula, numeric, LiveStart(w, size), LiveEnd(w), 0) == LiveRows(contents, SourcesFor(formula)) <==>
            forall id :: id in SourcesFor(formula) ==> id in numeric && WindowLaws.WithinDefaultQuery(ContentOf(contents, id), w, size)
  {
    hide SourcesFor, InOrder, Excerpt, Readable, WindowLaws.WithinDefaultQuery, QueriedSnapshot;
    LiveOrder(w, size);
    SnapshotIsShown(contents, formula, numeric, w, size);
    var ids := SourcesFor(formula);
    var rows := LiveRows(contents, ids);
    var shown := ShownRows(rows, numeric, w, size);
    forall id | id in ids && id in numeric ensures shown[id] == rows[id] <==> WindowLaws.WithinDefaultQuery(ContentOf(contents, id), w, size) {
      WindowLaws.DefaultQueryOmits(ContentOf(contents, id), w, size);
    }
    if id :| id in ids && !(id in numeric && WindowLaws.WithinDefaultQuery(ContentOf(contents, id), w, size)) {
      assert id in rows && (id in shown ==> shown[id] != rows[id]);
    }
  }

  // ----- a batch and the refresh that follows it -----

  lemma LatestIsBound(service: WindowService)
    requires service.Valid()
    ensures LatestBounds(service.Contents(), service.Latest())
  {
    forall id, t | id in service.Contents() && t in service.Contents()[id]
      ensures id in service.Latest() && service.Latest()[id].Some? && t <= service.Latest()[id].value
    {
      WindowLatestIsBound(service.windows[id], t);
    }
  }

  lemma WindowLatestIsBound(window: SequenceWindow, t: Timestamp)
    requires window.Valid() && t in window.Live()
    ensures window.latestTime.Some? && t <= window.latestTime.value
  {
    hide AsMap;
    var v := window.points[window.activeBegin..];
    AsMapNil([]);
    AsMapAt(v, t);
    AsMapAt(window.latePoints, t);
  }

  datatype RefreshMode = Skipped | Incremental(range: RefreshRange, patchStart: Timestamp) | Full | Rejected

  function QueryEnd(end: Timestamp): (r: Timestamp)
    ensures end <= r
  {
    if end == TIMESTAMP_MAX then end else end + 1
  }

  /** The derived series is the recomputation of what the service holds now. */
  ghost predicate UpToDate(contents: Holdings, formula: Formula, derived: SequenceId)
    requires AllReadable(contents, SourcesFor(formula))
  {
    ContentOf(contents, derived) == Derived(formula, LiveRows(contents, SourcesFor(formula)))
  }

  lemma {:induction false} OtherContents(contents: Holdings, derived: SequenceId, series: Series, ids: seq<SequenceId>)
    requires derived !in ids && AllReadable(contents, ids)
    ensures AllReadable(contents[derived := series], ids) && LiveRows(contents[derived := series], ids) == LiveRows(contents, ids)
    ensures ContentOf(contents[derived := series], derived) == series
  {
    hide Readable, RowOf, InOrder, AsMap;
  }

  method AnyChanged(update: WindowUpdate, ids: seq<SequenceId>) returns (changed: bool)
    ensures changed <==> exists id :: ChangedIn(update, ids, id)
  {
    for i := 0 to |ids|
      invariant forall k :: 0 <= k < i ==> ids[k] !in update.changed
    {
      if ids[i] in update.changed {
        assert ChangedIn(update, ids, ids[i]);
        return true;
      }
    }
    changed := false;
  }

  lemma UntouchedSources(before: Holdings, after: Holdings, latest: LatestTimes, batch: seq<RawPoint>, w: Timestamp,
                         safe: map<SequenceId, bool>, evicted: seq<SequenceId>, update: WindowUpdate, formula: Formula, derived: SequenceId)
    requires Accounts(before, after, latest, batch, w, safe, evicted, update)
    requires AllReadable(before, SourcesFor(formula)) && UpToDate(before, formula, derived) && PointsOf(batch, derived) == []
    requires forall id :: !ChangedIn(update, SourcesFor(formula), id)
    ensures AllReadable(after, SourcesFor(formula)) && UpToDate(after, formula, derived)
  {
    hide PointsOf, Derived, SourcesFor, Describes, LatestBounds, SafetyMatches, BatchMatches, DropBelow, Expires, AsMap, InOrder;
    var ids := SourcesFor(formula);
    AsMapNil([]);
    forall id | id in ids ensures ContentOf(after, id) == ContentOf(before, id) && forall t :: t in ContentOf(before, id) ==> w <= t {
      UntouchedSource(before, after, batch, w, safe, evicted, update, ids, id);
    }
    DerivedKept(before, after, latest, batch, w, safe, evicted, update, derived);
    assert LiveRows(after, ids) == LiveRows(before, ids);
    DerivedInWindow(formula, LiveRows(before, ids), w);
  }

  lemma UntouchedSource(before: Holdings, after: Holdings, batch: seq<RawPoint>, w: int, safe: map<SequenceId, bool>, evicted: seq<SequenceId>,
                        update: WindowUpdate, ids: seq<SequenceId>, id: SequenceId)
    requires BatchMatches(after, before, batch, w) && EvictionMatches(evicted, before, batch, w) && Describes(update, batch, safe, evicted, id)
    requires id in ids && !ChangedIn(update, ids, id)
    ensures ContentOf(after, id) == ContentOf(before, id) && forall t :: t in ContentOf(before, id) ==> w <= t
  {
    hide PointsOf, BatchMatches;
    ContentIs(before, after, batch, w, id);
    AsMapNil([]);
    assert ContentOf(before, id) + map[] == ContentOf(before, id);
    assert !Expires(ContentOf(before, id), w);
  }

  /** Nothing is derived before the first instant of the sources. */
  lemma DerivedInWindow(formula: Formula, rows: Rows, w: int)
    requires forall id :: id in rows ==> StrictlyIncreasing(rows[id]) && forall t :: t in AsMap(rows[id]) ==> w <= t
    ensures DropBelow(Derived(formula, rows), w) == Derived(formula, rows)
  {
    hide AsMap, Evaluate;
    forall t: Timestamp | t in Derived(formula, rows) ensures w <= t {
      var id :| id in rows && HasTime(rows[id], t);
      var i :| 0 <= i < |rows[id]| && rows[id][i].time == t;
      AsMapOfPoint(rows[id], i);
    }
  }

  /** The snapshot of a full refresh is what the default query shows of the live rows. */
  lemma {:induction false} SnapshotIsShown(contents: Holdings, formula: Formula, numeric: set<SequenceId>, w: Timestamp, size: int)
    requires 0 < size <= TIMESTAMP_MAX && LiveStart(w, size) <= LiveEnd(w) && AllReadable(contents, SourcesFor(formula))
    ensures QueriedSnapshot(contents, formula, numeric, LiveStart(w, size), LiveEnd(w), 0)
            == ShownRows(LiveRows(contents, SourcesFor(formula)), numeric, w, size)
  {
    hide SourcesFor, Distinct, Collected, NumbersIn, Readable, NumericExcerpt, RowOf, ContentOf, WindowLaws.RowsOf, LiveStart, LiveEnd;
    var ids, from, to := SourcesFor(formula), LiveStart(w, size), LiveEnd(w);
    SourcesDistinct(formula);
    forall id | id in ids && id in numeric
      ensures NumbersIn(WindowLaws.RowsOf(Collected(contents, ids, from, to, 0, 0), id)) == NumericExcerpt(RowOf(ContentOf(contents, id)), from, to, 0)
    {
      NumbersShown(contents, ids, id, from, to, 0);
    }
  }

  /** A batch leaves nothing before its window start. */
  lemma {:induction false} BatchInWindow(before: Holdings, after: Holdings, batch: seq<RawPoint>, start: int, id: SequenceId)
    requires BatchMatches(after, before, batch, start)
    ensures forall t :: t in ContentOf(after, id) ==> start <= t
    ensures DropBelow(ContentOf(after, id), start) == ContentOf(after, id)
    ensures Readable(ContentOf(before, id)) && ReadableBatch(batch) ==> Readable(ContentOf(after, id))
  {
    hide AsMap, PointsOf;
    ContentIs(before, after, batch, start, id);
    if ReadableBatch(batch) { BatchReadable(batch, id); }
  }

  /** The sources and the derived series after a full refresh's replacement and eviction. */
  lemma EvictedContents(mid: Holdings, derived: SequenceId, series: Series, w: Timestamp, size: int, ids: seq<SequenceId>)
    requires 0 < size <= TIMESTAMP_MAX && derived !in ids
    requires forall id :: id in ids ==> DropBelow(ContentOf(mid, id), WindowStart(w, size)) == ContentOf(mid, id)
    ensures var now := Evicted(mid[derived := series], Some(w), size);
            ContentOf(now, derived) == DropBelow(series, WindowStart(w, size)) && forall id :: id in ids ==> ContentOf(now, id) == ContentOf(mid, id)
  {
  }

  lemma SameRows(a: Holdings, b: Holdings, ids: seq<SequenceId>)
    requires AllReadable(a, ids) && forall id :: id in ids ==> ContentOf(a, id) == ContentOf(b, id)
    ensures AllReadable(b, ids) && LiveRows(a, ids) == LiveRows(b, ids)
  {
    hide Readable, RowOf;
  }

  lemma {:induction false} ShownInWindow(rows: Rows, numeric: set<SequenceId>, w: Timestamp, size: int, start: int)
    requires 0 < size <= TIMESTAMP_MAX && LiveStart(w, size) <= LiveEnd(w)
    requires forall id :: id in rows ==> StrictlyIncreasing(rows[id]) && forall t :: t in AsMap(rows[id]) ==> start <= t
    ensures var shown := ShownRows(rows, numeric, w, size);
            forall id :: id in shown ==> StrictlyIncreasing(shown[id]) && forall t :: t in AsMap(shown[id]) ==> start <= t
  {
    hide AsMap, ShownRows, Excerpt, StrictlyIncreasing, SliceOf;
    ShownAreSlices(rows, numeric, w, size);
    var shown := ShownRows(rows, numeric, w, size);
    forall id | id in shown ensures StrictlyIncreasing(shown[id]) && forall t :: t in AsMap(shown[id]) ==> start <= t {
      SliceStays(shown[id], rows[id], start);
    }
  }

  lemma {:induction false} SliceStays(part: seq<Point>, whole: seq<Point>, start: int)
    requires StrictlyIncreasing(whole) && SliceOf(part, whole) && forall t :: t in AsMap(whole) ==> start <= t
    ensures StrictlyIncreasing(part) && forall t :: t in AsMap(part) ==> start <= t
  {
    hide AsMap, StrictlyIncreasing, LowerBound;
    var lo, hi :| 0 <= lo <= hi <= |whole| && part == whole[lo..hi];
    SliceIncreasing(part, whole);
    forall t | t in AsMap(part) ensures start <= t {
      AsMapAt(part, t);
      AsMapOfPoint(whole, lo + LowerBound(part, 0, t));
    }
  }

  /** After a full refresh the series is the recomputation of what the service
      holds exactly when the default query hid nothing a derived value needs. */
  lemma FullOutcome(before: Holdings, mid: Holdings, now: Holdings, batch: seq<RawPoint>, w: Timestamp, size: int,
                    formula: Formula, derived: SequenceId, numeric: set<SequenceId>)
    requires 0 < size <= TIMESTAMP_MAX && LiveStart(w, size) <= LiveEnd(w) && derived !in SourcesFor(formula)
    requires BatchMatches(mid, before, batch, WindowStart(w, size))
    requires AllReadable(before, SourcesFor(formula)) && ReadableBatch(batch)
    requires now == Evicted(mid[derived := Derived(formula, QueriedSnapshot(mid, formula, numeric, LiveStart(w, size), LiveEnd(w), 0))], Some(w), size)
    ensures AllReadable(now, SourcesFor(formula))
    ensures var rows := LiveRows(now, SourcesFor(formula));
            UpToDate(now, formula, derived) <==> NothingHidden(formula, rows, ShownRows(rows, numeric, w, size))
  {
    hide BatchMatches, ReadableBatch, Readable, Derived, SourcesFor, RowOf, DropBelow, Evicted, QueriedSnapshot, AsMap, NothingHidden, ShownRows, ShowsSlices,
         StrictlyIncreasing;
    var ids := SourcesFor(formula);
    forall id | id in ids
      ensures Readable(ContentOf(mid, id)) && DropBelow(ContentOf(mid, id), WindowStart(w, size)) == ContentOf(mid, id)
      ensures forall t :: t in ContentOf(mid, id) ==> WindowStart(w, size) <= t
    {
      BatchInWindow(before, mid, batch, WindowStart(w, size), id);
    }
    SnapshotIsShown(mid, formula, numeric, w, size);
    var rows := LiveRows(mid, ids);
    var shown := ShownRows(rows, numeric, w, size);
    EvictedContents(mid, derived, Derived(formula, shown), w, size, ids);
    SameRows(mid, now, ids);
    ShownInWindow(rows, numeric, w, size, WindowStart(w, size));
    DerivedInWindow(formula, shown, WindowStart(w, size));
    ShownAreSlices(rows, numeric, w, size);
    ShownEqualsRecomputeExactly(formula, rows, shown);
  }

  /** The batch brings points for the sequence or makes some of its points expire. */
  ghost predicate Touches(before: Holdings, batch: seq<RawPoint>, start: int, id: SequenceId) {
    PointsOf(batch, id) != [] || Expires(ContentOf(before, id) + AsMap(PointsOf(batch, id)), start)
  }

  ghost predicate TouchesAny(before: Holdings, batch: seq<RawPoint>, start: int, ids: seq<SequenceId>) {
    exists id :: id in ids && Touches(before, batch, start, id)
  }

  /** All sources are numeric, and those the batch touches only get points after all earlier ones. */
  ghost predicate Patchable(before: Holdings, latest: LatestTimes, batch: seq<RawPoint>, start: int, ids: seq<SequenceId>, numeric: set<SequenceId>) {
    forall id :: id in ids ==>
                   id in numeric && (Touches(before, batch, start, id) ==> AppendsOnly(LatestOf(latest, id), PointsOf(batch, id)))
  }

  lemma ModeIsChosen(before: Holdings, after: Holdings, latest: LatestTimes, batch: seq<RawPoint>, w: Timestamp,
                     safe: map<SequenceId, bool>, evicted: seq<SequenceId>, update: WindowUpdate, ids: seq<SequenceId>, numeric: set<SequenceId>)
    requires Accounts(before, after, latest, batch, w, safe, evicted, update)
    ensures TouchesAny(before, batch, w, ids) <==> exists id :: ChangedIn(update, ids, id)
    ensures Patchable(before, latest, batch, w, ids, numeric) <==>
            (forall id :: id in ids ==> id in numeric) && forall id :: ChangedIn(update, ids, id) ==> Ready(update, id)
  {
    hide PointsOf, AsMap, Expires, StrictlyIncreasing, BatchMatches, LatestBounds;
    forall id | id in ids
      ensures Touches(before, batch, w, id) <==> ChangedIn(update, ids, id)
      ensures ChangedIn(update, ids, id) ==> (Ready(update, id) <==> AppendsOnly(LatestOf(latest, id), PointsOf(batch, id)))
    {
      assert Describes(update, batch, safe, evicted, id);
    }
    hide Touches, ChangedIn, Ready, AppendsOnly;
  }

  /** A batch into the window, then the derived series refreshed for it. A
      skipped refresh leaves the series the recomputation of the new contents;
      an incremental one does so exactly when its query loses nothing, a full
      one exactly when the default query hides nothing. */
  method RefreshAfterBatch(service: WindowService, batch: seq<RawPoint>, formula: Formula, derived: SequenceId, numeric: set<SequenceId>)
    returns (mode: RefreshMode)
    requires service.Valid() && derived !in SourcesFor(formula) && PointsOf(batch, derived) == []
    requires AllReadable(service.Contents(), SourcesFor(formula)) && ReadableBatch(batch)
    requires UpToDate(service.Contents(), formula, derived)
    modifies service, service.owner.Keys
    ensures service.Valid()
    ensures mode.Rejected? <==>
              !Acceptable(batch, None)
              || (!Publishable(formula, derived, service.watermark)
                  && TouchesAny(old(service.Contents()), batch, WindowBound(service.watermark, service.windowSize), SourcesFor(formula)))
    ensures mode.Skipped? <==>
              Acceptable(batch, None)
              && !TouchesAny(old(service.Contents()), batch, WindowBound(service.watermark, service.windowSize), SourcesFor(formula))
    ensures mode.Incremental? ==> Patchable(old(service.Contents()), old(service.Latest()), batch,
                                            WindowBound(service.watermark, service.windowSize), SourcesFor(formula), numeric)
    ensures mode.Full? ==> !Patchable(old(service.Contents()), old(service.Latest()), batch,
                                      WindowBound(service.watermark, service.windowSize), SourcesFor(formula), numeric)
    ensures !Acceptable(batch, None) ==> service.Contents() == old(service.Contents())
    ensures Acceptable(batch, None) && (mode.Rejected? || mode.Skipped?) ==>
              BatchMatches(service.Contents(), old(service.Contents()), batch, WindowBound(service.watermark, service.windowSize))
    ensures mode.Skipped? ==> AllReadable(service.Contents(), SourcesFor(formula)) && UpToDate(service.Contents(), formula, derived)
    ensures mode.Full? ==>
              && AllReadable(service.Contents(), SourcesFor(formula))
              && service.watermark.Some? && LiveStart(service.watermark.value, service.windowSize) <= LiveEnd(service.watermark.value)
              && var rows := LiveRows(service.Contents(), SourcesFor(formula));
                 (UpToDate(service.Contents(), formula, derived)
                  <==> NothingHidden(formula, rows, ShownRows(rows, numeric, service.watermark.value, service.windowSize)))
    ensures mode.Incremental? ==>
              && AllReadable(service.Contents(), SourcesFor(formula))
              && var rows := LiveRows(service.Contents(), SourcesFor(formula));
                 && IsPatchStart(mode.patchStart, rows, mode.range.start)
                 && (UpToDate(service.Contents(), formula, derived)
                     <==> NothingLost(formula, rows, mode.patchStart, mode.range.end, mode.range.start))
  {
    hide *;
    ghost var before, latest := service.Contents(), service.Latest();
    LatestIsBound(service);
    var report := service.UpdateWindow(batch, None);
    if !report.Updated? { return Rejected; }
    ghost var after := service.Contents();
    assert service.Valid();
    SafeKeys(report.incrementalSafe, latest, batch);
    var update := DescribeUpdate(batch, report.windowStart, report.incrementalSafe, report.evicted);
    var ids := SourcesFor(formula);
    MakeAccounts(before, after, latest, batch, report.windowStart, report.incrementalSafe, report.evicted, update);
    BoundIs(report.windowStart, service.watermark.value, service.windowSize);
    ModeIsChosen(before, after, latest, batch, report.windowStart, report.incrementalSafe, report.evicted, update, ids, numeric);
    var changed := AnyChanged(update, ids);
    if !changed {
      assert service.Contents() == after;
      UntouchedSources(before, after, latest, batch, report.windowStart, report.incrementalSafe, report.evicted, update, formula, derived);
      return Skipped;
    }
    ChangedMeansSequences(update, batch, report.incrementalSafe, report.evicted, ids);
    var range := IncrementalRangeFor(Some(update), ids);
    assert service.Valid() && service.Contents() == after;
    if range.None? || !(forall id <- ids :: id in numeric) {
      var ok := RefreshFully(service, formula, derived, numeric);
      if !ok { return Rejected; }
      FullOutcome(before, after, service.Contents(), batch, service.watermark.value, service.windowSize, formula, derived, numeric);
      return Full;
    }
    RangeOrder(range.value, update, ids, batch, report.incrementalSafe, report.evicted, report.windowStart);
    var from, to := range.value.start, QueryEnd(range.value.end);
    var ok, p := RefreshIncremental(service, formula, derived, numeric, range.value, from, to);
    if !ok { return Rejected; }
    PatchedUpToDate(before, after, service.Contents(), latest, batch, report.windowStart, report.incrementalSafe, report.evicted, update,
                    formula, derived, numeric, range.value, p, from, to);
    mode := Incremental(range.value, p);
  }

  lemma BoundIs(start: Timestamp, watermark: Timestamp, size: int)
    requires 0 < size <= TIMESTAMP_MAX && start == WindowStart(watermark, size)
    ensures WindowBound(Some(watermark), size) == start
  {
  }

  lemma SafeKeys(safe: map<SequenceId, bool>, latest: LatestTimes, batch: seq<RawPoint>)
    requires SafetyMatches(safe, latest, batch)
    ensures forall id :: id in safe <==> PointsOf(batch, id) != []
  {
  }

  lemma MakeAccounts(before: Holdings, after: Holdings, latest: LatestTimes, batch: seq<RawPoint>, w: Timestamp,
                     safe: map<SequenceId, bool>, evicted: seq<SequenceId>, update: WindowUpdate)
    requires LatestBounds(before, latest)
    requires BatchMatches(after, before, batch, w) && SafetyMatches(safe, latest, batch) && EvictionMatches(evicted, before, batch, w)
    requires update.windowStart == Some(w) && forall id :: Describes(update, batch, safe, evicted, id)
    ensures Accounts(before, after, latest, batch, w, safe, evicted, update)
  {
    hide LatestBounds, BatchMatches, SafetyMatches, EvictionMatches, Describes;
  }

  lemma ChangedMeansSequences(update: WindowUpdate, batch: seq<RawPoint>, safe: map<SequenceId, bool>, evicted: seq<SequenceId>, ids: seq<SequenceId>)
    requires (forall id :: Describes(update, batch, safe, evicted, id)) && exists id :: ChangedIn(update, ids, id)
    ensures update.sequences != map[] && ids != []
  {
    var id :| ChangedIn(update, ids, id);
    assert Describes(update, batch, safe, evicted, id);
  }

  lemma RangeOrder(r: RefreshRange, update: WindowUpdate, ids: seq<SequenceId>, batch: seq<RawPoint>, safe: map<SequenceId, bool>, evicted: seq<SequenceId>, w: Timestamp)
    requires IsRange(r, update, ids) && (forall id :: Describes(update, batch, safe, evicted, id))
    requires forall id :: id in safe <==> PointsOf(batch, id) != []
    ensures r.start <= r.end
  {
    hide PointsOf;
    var id :| ChangedIn(update, ids, id);
    assert Ready(update, id) && Describes(update, batch, safe, evicted, id);
    var points := PointsOf(batch, id);
    assert points != [];
    assert update.sequences[id].start.value <= points[0].time <= update.sequences[id].end.value;
  }

  lemma PatchedUpToDate(before: Holdings, after: Holdings, now: Holdings, latest: LatestTimes, batch: seq<RawPoint>, w: Timestamp,
                        safe: map<SequenceId, bool>, evicted: seq<SequenceId>, update: WindowUpdate,
                        formula: Formula, derived: SequenceId, numeric: set<SequenceId>, range: RefreshRange, p: int, from: int, to: int)
    requires Accounts(before, after, latest, batch, w, safe, evicted, update)
    requires derived !in SourcesFor(formula) && PointsOf(batch, derived) == []
    requires AllReadable(before, SourcesFor(formula)) && ReadableBatch(batch) && UpToDate(before, formula, derived)
    requires IsRange(range, update, SourcesFor(formula)) && from <= range.start <= range.end <= to
    requires forall id :: id in SourcesFor(formula) ==> id in numeric
    requires IsEarliestContext(p, Collected(after, SourcesFor(formula), from, to, 1, 1), SourcesFor(formula), range.start)
    requires now == after[derived := EraseRange(ContentOf(after, derived), p, range.end)
                                     + Restricted(Derived(formula, QueriedSnapshot(after, formula, numeric, from, to, 1)), p, range.end)]
    ensures AllReadable(now, SourcesFor(formula))
    ensures var rows := LiveRows(now, SourcesFor(formula));
            IsPatchStart(p, rows, range.start) && (UpToDate(now, formula, derived) <==> NothingLost(formula, rows, p, range.end, from))
  {
    hide Accounts, PointsOf, AllReadable, ReadableBatch, IsRange, IsEarliestContext, Derived, EraseRange, Restricted, SourcesFor, LiveRows, Queried, SnapshotRows, NothingLost, IsPatchStart, Distinct, ContentOf, Collected;
    var ids := SourcesFor(formula);
    IncrementalRefreshIsRecompute(formula, before, after, latest, batch, w, safe, evicted, update, range, derived, p, from, to);
    SourcesDistinct(formula);
    SnapshotIsQueried(after, ids, numeric, from, to);
    FoundIsPatchStart(after, ids, range.start, from, to, p);
    OtherContents(after, derived, EraseRange(ContentOf(after, derived), p, range.end)
                                  + Restricted(Derived(formula, Queried(LiveRows(after, ids), from, to)), p, range.end), ids);
  }

  lemma SourcesDistinct(formula: Formula)
    ensures Distinct(SourcesFor(formula))
  {
    SourcesAreExactlyUsed(formula, "");
  }
}
