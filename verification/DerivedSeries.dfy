/** Derived series on the live window: what a refresh publishes after a batch,
    and when that is the recomputation of the new contents. */
module DerivedSeriesLaws {
  import opened Timeline
  import opened SortedUnique
  import opened WindowQueries
  import opened SequenceWindows
  import opened WindowServices
  import opened WindowUpdates
  import opened Formulas
  import opened DerivedPatches
  import opened DerivedRefreshes
  import opened DerivedComputations

  // ----- live contents as rows -----

  ghost predicate Readable(m: Series) {
    forall t :: t in m ==> m[t].Number?
  }

  ghost predicate AllReadable(contents: Holdings, ids: seq<SequenceId>) {
    forall id :: id in ids ==> Readable(ContentOf(contents, id))
  }

  /** A readable series as an ordered row. */
  ghost function RowOf(m: Series): (r: seq<NumericPoint>)
    requires Readable(m)
    ensures StrictlyIncreasing(r) && AsMap(r) == m && r == InOrder(m)
  {
    ReadableInOrder(m);
    InOrder(m)
  }

  lemma ReadableInOrder(m: Series)
    requires Readable(m)
    ensures forall i :: 0 <= i < |InOrder(m)| ==> InOrder(m)[i].value.Number?
  {
    hide AsMap, InOrder;
    var all := InOrder(m);
    forall i | 0 <= i < |all| ensures all[i].value.Number? { AsMapOfPoint(all, i); }
  }

  ghost function LiveRows(contents: Holdings, ids: seq<SequenceId>): Rows
    requires AllReadable(contents, ids)
  {
    map id | id in ids :: RowOf(ContentOf(contents, id))
  }

  // ----- an update, as its dependencies see it -----

  /** Every live key of a sequence is at or before its latest time. */
  ghost predicate LatestBounds(contents: Holdings, latest: LatestTimes) {
    forall id, t :: id in contents && t in contents[id] ==> id in latest && latest[id].Some? && t <= latest[id].value
  }

  ghost predicate ReadableBatch(batch: seq<RawPoint>) {
    forall i :: 0 <= i < |batch| ==> batch[i].value.Number?
  }

  ghost function Share(batch: seq<RawPoint>, id: SequenceId): (r: seq<NumericPoint>)
    requires ReadableBatch(batch)
    ensures r == PointsOf(batch, id)
    decreases |batch|
  {
    if batch == [] then []
    else
      var p := batch[|batch| - 1];
      var front := Share(batch[..|batch| - 1], id);
      if p.sequence == id then front + [Point(p.time, p.value)] else front
  }

  ghost function DependenciesOf(before: Holdings, batch: seq<RawPoint>, ids: seq<SequenceId>): Dependencies
    requires AllReadable(before, ids) && ReadableBatch(batch)
  {
    map id | id in ids :: Dependency(RowOf(ContentOf(before, id)), Share(batch, id))
  }

  /** An append lands behind everything held: the row after it is the two in a row. */
  lemma AppendedRow(held: Series, appended: seq<NumericPoint>, latest: Option<Timestamp>, w: int)
    requires Readable(held) && StrictlyIncreasing(appended)
    requires forall t :: t in held ==> latest.Some? && t <= latest.value
    requires appended != [] && latest.Some? ==> latest.value < appended[0].time
    ensures var dep := Dependency(RowOf(held), appended);
            && StrictlyIncreasing(dep.All()) && AsMap(dep.All()) == held + AsMap(appended)
            && AsMap(dep.Now(w)) == DropBelow(held + AsMap(appended), w) && StrictlyIncreasing(dep.Now(w))
            && (dep.Evicts(w) <==> Expires(held + AsMap(appended), w))
  {
    hide AsMap, LowerBound, InOrder, Expires;
    var dep := Dependency(RowOf(held), appended);
    var row := RowOf(held);
    forall i | 0 <= i < |row| ensures appended == [] || row[i].time < appended[0].time { AsMapOfPoint(row, i); }
    JoinedIncreasing(row, appended);
    AsMapConcat(row, appended);
    SuffixIsDropBelow(dep.All(), w);
    SuffixIncreasing(dep, w);
    EvictsIsExpires(dep, w);
  }

  lemma JoinedIncreasing(a: seq<Point>, b: seq<Point>)
    requires StrictlyIncreasing(a) && StrictlyIncreasing(b)
    requires forall i :: 0 <= i < |a| ==> b == [] || a[i].time < b[0].time
    ensures StrictlyIncreasing(a + b)
  {
  }

  lemma EvictsIsExpires(dep: Dependency, w: int)
    requires StrictlyIncreasing(dep.All())
    ensures dep.Evicts(w) <==> Expires(AsMap(dep.All()), w)
  {
    hide AsMap, StrictlyIncreasing;
    var all := dep.All();
    var k := LowerBound(all, 0, w);
    if k > 0 {
      AsMapOfPoint(all, 0);
      assert |dep.Now(w)| < |all|;
    } else {
      assert dep.Now(w) == all;
      forall t | t in AsMap(all) ensures w <= t { AsMapAt(all, t); FirstIsSmallest(all, t, w); }
    }
  }

  lemma FirstIsSmallest(s: seq<Point>, t: int, w: int)
    requires StrictlyIncreasing(s) && LowerBound(s, 0, w) == 0 && LowerBound(s, 0, t) < |s| && s[LowerBound(s, 0, t)].time == t
    ensures w <= t
  {
  }

  /** The window service's account of a batch that only appended to a formula's
      changed sources. */
  ghost predicate Accounts(before: Holdings, after: Holdings, latest: LatestTimes, batch: seq<RawPoint>, w: Timestamp,
                           safe: map<SequenceId, bool>, evicted: seq<SequenceId>, update: WindowUpdate)
  {
    && LatestBounds(before, latest)
    && BatchMatches(after, before, batch, w) && SafetyMatches(safe, latest, batch) && EvictionMatches(evicted, before, batch, w)
    && update.windowStart == Some(w)
    && forall id :: Describes(update, batch, safe, evicted, id)
  }

  lemma {:induction false} DependencyFacts(before: Holdings, after: Holdings, latest: LatestTimes, batch: seq<RawPoint>, w: Timestamp,
                        safe: map<SequenceId, bool>, evicted: seq<SequenceId>, update: WindowUpdate, ids: seq<SequenceId>,
                        range: RefreshRange, id: SequenceId)
    requires Accounts(before, after, latest, batch, w, safe, evicted, update)
    requires AllReadable(before, ids) && ReadableBatch(batch) && IsRange(range, update, ids) && id in ids
    ensures var dep := DependenciesOf(before, batch, ids)[id];
            && StrictlyIncreasing(dep.All())
            && AsMap(dep.Now(w)) == ContentAfter(before, batch, id, w) && StrictlyIncreasing(dep.Now(w))
            && (dep.Evicts(w) ==> range.start <= w)
            && (dep.appended != [] <==> id in update.changed)
            && forall i :: 0 <= i < |dep.appended| ==> range.start <= dep.appended[i].time <= range.end
  {
    hide AsMap, PointsOf, Expires, BatchMatches, StrictlyIncreasing, Dependency.Now, Dependency.All, Dependency.Evicts, DropBelow, InOrder;
    assert Describes(update, batch, safe, evicted, id);
    var held, points := ContentOf(before, id), PointsOf(batch, id);
    if points != [] {
      assert ChangedIn(update, ids, id) && Ready(update, id);
      assert AppendsOnly(LatestOf(latest, id), points);
    } else {
      NothingIncreasing();
      assert id in evicted ==> ChangedIn(update, ids, id);
    }
    AppendedRow(held, Share(batch, id), LatestOf(latest, id), w);
  }

  lemma NothingIncreasing()
    ensures StrictlyIncreasing([])
  {
  }

  /** Under an accepted range the batch is an append to the formula's sources,
      and the service's new contents are its outcome. */
  lemma {:induction false} UpdateIsAppend(before: Holdings, after: Holdings, latest: LatestTimes, batch: seq<RawPoint>, w: Timestamp,
                       safe: map<SequenceId, bool>, evicted: seq<SequenceId>, update: WindowUpdate, ids: seq<SequenceId>, range: RefreshRange)
    requires Accounts(before, after, latest, batch, w, safe, evicted, update)
    requires AllReadable(before, ids) && ReadableBatch(batch) && IsRange(range, update, ids)
    ensures AllReadable(after, ids)
    ensures var deps := DependenciesOf(before, batch, ids);
            && Covers(range, deps, w)
            && OldRows(deps) == LiveRows(before, ids) && NowRows(deps, w) == LiveRows(after, ids)
  {
    hide AsMap, PointsOf, StrictlyIncreasing, Dependency.Now, Dependency.All, Dependency.Evicts, DropBelow, InOrder, Readable, Accounts, IsRange, RowOf, Share, ReadableBatch;
    var deps := DependenciesOf(before, batch, ids);
    forall id | id in ids
      ensures Readable(ContentOf(after, id)) && deps[id].Now(w) == RowOf(ContentOf(after, id))
      ensures StrictlyIncreasing(deps[id].All()) && (deps[id].Evicts(w) ==> range.start <= w)
      ensures forall i :: 0 <= i < |deps[id].appended| ==> range.start <= deps[id].appended[i].time <= range.end
    {
      UpdatedRow(before, after, latest, batch, w, safe, evicted, update, ids, range, id);
    }
    SomethingAppended(before, after, latest, batch, w, safe, evicted, update, ids, range);
  }

  lemma UpdatedRow(before: Holdings, after: Holdings, latest: LatestTimes, batch: seq<RawPoint>, w: Timestamp,
                   safe: map<SequenceId, bool>, evicted: seq<SequenceId>, update: WindowUpdate, ids: seq<SequenceId>, range: RefreshRange, id: SequenceId)
    requires Accounts(before, after, latest, batch, w, safe, evicted, update)
    requires AllReadable(before, ids) && ReadableBatch(batch) && IsRange(range, update, ids) && id in ids
    ensures var dep := DependenciesOf(before, batch, ids)[id];
            && Readable(ContentOf(after, id)) && dep.Now(w) == RowOf(ContentOf(after, id))
            && StrictlyIncreasing(dep.All()) && (dep.Evicts(w) ==> range.start <= w)
            && forall i :: 0 <= i < |dep.appended| ==> range.start <= dep.appended[i].time <= range.end
  {
    hide AsMap, PointsOf, StrictlyIncreasing, Dependency.Now, Dependency.All, Dependency.Evicts, IsRange, Readable, ContentAfter, InOrder;
    DependencyFacts(before, after, latest, batch, w, safe, evicted, update, ids, range, id);
    ContentIs(before, after, batch, w, id);
    var dep := DependenciesOf(before, batch, ids)[id];
    InOrderOfAsMap(dep.Now(w));
    NumericRowReadable(dep.Now(w));
  }

  lemma {:induction false} SomethingAppended(before: Holdings, after: Holdings, latest: LatestTimes, batch: seq<RawPoint>, w: Timestamp,
                          safe: map<SequenceId, bool>, evicted: seq<SequenceId>, update: WindowUpdate, ids: seq<SequenceId>, range: RefreshRange)
    requires Accounts(before, after, latest, batch, w, safe, evicted, update)
    requires AllReadable(before, ids) && ReadableBatch(batch) && IsRange(range, update, ids)
    ensures exists id :: id in DependenciesOf(before, batch, ids) && DependenciesOf(before, batch, ids)[id].appended != []
  {
    hide Accounts, Readable;
    var id :| ChangedIn(update, ids, id);
    DependencyFacts(before, after, latest, batch, w, safe, evicted, update, ids, range, id);
    assert DependenciesOf(before, batch, ids)[id].appended != [];
  }

  lemma ContentIs(before: Holdings, after: Holdings, batch: seq<RawPoint>, w: int, id: SequenceId)
    requires BatchMatches(after, before, batch, w)
    ensures ContentOf(after, id) == ContentAfter(before, batch, id, w)
  {
    hide PointsOf;
    if id !in after { AsMapNil([]); }
  }

  lemma PointsSplit(batch: seq<RawPoint>, id: SequenceId)
    requires batch != []
    ensures var front, p := batch[..|batch| - 1], batch[|batch| - 1];
            PointsOf(batch, id) == if p.sequence == id then PointsOf(front, id) + [Point(p.time, p.value)] else PointsOf(front, id)
  {
  }

  lemma {:induction false} BatchReadable(batch: seq<RawPoint>, id: SequenceId)
    requires ReadableBatch(batch)
    ensures Readable(AsMap(PointsOf(batch, id)))
    decreases |batch|
  {
    hide AsMap;
    if batch == [] {
      AsMapNil(PointsOf(batch, id));
    } else {
      var p := batch[|batch| - 1];
      BatchReadable(batch[..|batch| - 1], id);
      PointsSplit(batch, id);
      WriteLast(PointsOf(batch[..|batch| - 1], id), Point(p.time, p.value));
    }
  }

  lemma NumericRowReadable(row: seq<NumericPoint>)
    requires StrictlyIncreasing(row)
    ensures Readable(AsMap(row))
  {
    hide AsMap;
    forall t | t in AsMap(row) ensures AsMap(row)[t].Number? { AsMapAt(row, t); }
  }

  /** A derived sequence that was the recomputation of the old contents, after a
      batch that was accepted as incremental: patching it is recomputing it on
      the new contents exactly when the query's context loses nothing. */
  lemma IncrementalRefreshIsRecompute(formula: Formula, before: Holdings, after: Holdings, latest: LatestTimes, batch: seq<RawPoint>, w: Timestamp,
                                      safe: map<SequenceId, bool>, evicted: seq<SequenceId>, update: WindowUpdate, range: RefreshRange,
                                      derived: SequenceId, p: int, from: int, to: int)
    requires Accounts(before, after, latest, batch, w, safe, evicted, update)
    requires AllReadable(before, SourcesFor(formula)) && ReadableBatch(batch) && IsRange(range, update, SourcesFor(formula))
    requires PointsOf(batch, derived) == [] && ContentOf(before, derived) == Derived(formula, LiveRows(before, SourcesFor(formula)))
    requires from <= range.start <= range.end <= to
    ensures AllReadable(after, SourcesFor(formula))
    ensures var rows := LiveRows(after, SourcesFor(formula));
            IsPatchStart(p, rows, range.start) ==>
              (EraseRange(ContentOf(after, derived), p, range.end) + Restricted(Derived(formula, Queried(rows, from, to)), p, range.end)
               == Derived(formula, rows)
               <==> NothingLost(formula, rows, p, range.end, from))
  {
    hide *;
    var ids := SourcesFor(formula);
    UpdateIsAppend(before, after, latest, batch, w, safe, evicted, update, ids, range);
    var deps := DependenciesOf(before, batch, ids);
    var rows := LiveRows(after, ids);
    DerivedKept(before, after, latest, batch, w, safe, evicted, update, derived);
    if IsPatchStart(p, rows, range.start) {
      MakeRefreshable(formula, deps, w, range, p, from, to, before, batch);
      PatchEqualsRecomputeExactly(formula, deps, w, range, p, from, to);
      PatchedIs(ContentOf(before, derived), formula, rows, w, p, range.end, from, to);
    }
  }

  lemma {:induction false} DerivedKept(before: Holdings, after: Holdings, latest: LatestTimes, batch: seq<RawPoint>, w: Timestamp,
                    safe: map<SequenceId, bool>, evicted: seq<SequenceId>, update: WindowUpdate, derived: SequenceId)
    requires Accounts(before, after, latest, batch, w, safe, evicted, update) && PointsOf(batch, derived) == []
    ensures ContentOf(after, derived) == DropBelow(ContentOf(before, derived), w)
  {
    hide PointsOf, DropBelow;
    ContentIs(before, after, batch, w, derived);
    AsMapNil([]);
    assert ContentOf(before, derived) + map[] == ContentOf(before, derived);
  }

  lemma {:induction false} MakeRefreshable(formula: Formula, deps: Dependencies, w: int, range: RefreshRange, p: int, from: int, to: int, before: Holdings, batch: seq<RawPoint>)
    requires AllReadable(before, SourcesFor(formula)) && ReadableBatch(batch) && deps == DependenciesOf(before, batch, SourcesFor(formula))
    requires Covers(range, deps, w) && IsPatchStart(p, NowRows(deps, w), range.start) && from <= range.start <= range.end <= to
    ensures Refreshable(formula, deps, w, range, p, from, to)
  {
    hide Covers, IsPatchStart, SourcesFor;
  }

  lemma PatchedIs(series: Series, formula: Formula, rows: Rows, w: int, first: int, last: int, from: int, to: int)
    requires from <= to
    ensures Patched(series, formula, rows, w, first, last, from, to) ==
            EraseRange(DropBelow(series, w), first, last) + Restricted(Derived(formula, Queried(rows, from, to)), first, last)
  {
    hide Derived, Queried;
  }

  // ----- what the shared query shows of the sources -----

  lemma {:induction false} MentionsOnce(ids: seq<SequenceId>, id: SequenceId)
    requires Distinct(ids)
    ensures WindowLaws.Mentions(ids, id) == if id in ids then 1 else 0
    decreases |ids|
  {
    if ids != [] {
      MentionsOnce(ids[..|ids| - 1], id);
      assert ids == ids[..|ids| - 1] + [ids[|ids| - 1]];
    }
  }

  lemma {:induction false} NotCollected(contents: Holdings, ids: seq<SequenceId>, id: SequenceId, from: int, to: int, context: nat)
    requires from <= to && id !in contents
    ensures id !in Collected(contents, ids, from, to, context, context)
    decreases |ids|
  {
    hide InOrder, Excerpt;
    if ids != [] { NotCollected(contents, ids[..|ids| - 1], id, from, to, context); }
  }

  /** Each source's rows in the answer are the excerpt of its live content. */
  lemma AnswerRow(contents: Holdings, ids: seq<SequenceId>, id: SequenceId, from: int, to: int, context: nat)
    requires from <= to && Distinct(ids) && id in ids
    ensures WindowLaws.RowsOf(Collected(contents, ids, from, to, context, context), id) == Excerpt(InOrder(ContentOf(contents, id)), from, to, context, context)
  {
    hide InOrder, Excerpt, Collected;
    if id in contents {
      WindowLaws.RowsRepeat(contents, ids, id, from, to, context, context);
      MentionsOnce(ids, id);
      var e := Excerpt(InOrder(contents[id]), from, to, context, context);
      assert WindowLaws.Copies(e, 1) == WindowLaws.Copies(e, 0) + e == e;
    } else {
      NotCollected(contents, ids, id, from, to, context);
      ExcerptOfNothing(from, to, context);
    }
  }

  lemma ExcerptOfNothing(from: int, to: int, context: nat)
    requires from <= to
    ensures Excerpt(InOrder(map[]), from, to, context, context) == []
  {
  }

  /** The numbers of an answer are the query's excerpt of the live row. */
  lemma {:induction false} NumbersShown(contents: Holdings, ids: seq<SequenceId>, id: SequenceId, from: int, to: int, context: nat)
    requires from <= to && Distinct(ids) && id in ids && Readable(ContentOf(contents, id))
    ensures NumbersIn(WindowLaws.RowsOf(Collected(contents, ids, from, to, context, context), id))
            == NumericExcerpt(RowOf(ContentOf(contents, id)), from, to, context)
  {
    hide InOrder, Excerpt, Collected, NumbersIn, Readable, ContentOf, WindowLaws.RowsOf, NumericExcerpt, Distinct;
    AnswerRow(contents, ids, id, from, to, context);
    NumbersOnly(NumericExcerpt(RowOf(ContentOf(contents, id)), from, to, context));
  }

  lemma {:induction false} SnapshotIsQueried(contents: Holdings, ids: seq<SequenceId>, numeric: set<SequenceId>, from: int, to: int)
    requires from <= to && Distinct(ids) && AllReadable(contents, ids) && forall id :: id in ids ==> id in numeric
    ensures SnapshotRows(Collected(contents, ids, from, to, 1, 1), ids, numeric) == Queried(LiveRows(contents, ids), from, to)
  {
    hide Distinct, Collected, NumbersIn, Readable, NumericExcerpt, RowOf, ContentOf, WindowLaws.RowsOf;
    forall id | id in ids
      ensures NumbersIn(WindowLaws.RowsOf(Collected(contents, ids, from, to, 1, 1), id)) == NumericExcerpt(RowOf(ContentOf(contents, id)), from, to, 1)
    {
      NumbersShown(contents, ids, id, from, to, 1);
    }
  }

  /** The last returned point before the range is the last live one. */
  lemma {:induction false} ContextKeepsLast(all: seq<Point>, from: int, to: int, start: int)
    requires StrictlyIncreasing(all) && from <= start <= to
    ensures LastBefore(Excerpt(all, from, to, 1, 1), start) == LastBefore(all, start)
  {
    hide LowerBound, StrictlyIncreasing;
    var a, b, k := LowerBound(all, 0, from), LowerBound(all, 0, to), LowerBound(all, 0, start);
    LowerBoundMonotone(all, from, start);
    LowerBoundMonotone(all, start, to);
    var lo: nat, hi: nat := if a == 0 then 0 else a - 1, Min(b + 1, |all|);
    assert Excerpt(all, from, to, 1, 1) == all[lo..hi];
    hide Excerpt;
    SliceBoundAt(all, lo, hi, start);
    assert k > lo ==> all[lo..hi][k - lo - 1] == all[k - 1];
  }

  lemma SliceBoundAt(s: seq<Point>, lo: nat, hi: nat, t: int)
    requires lo <= LowerBound(s, 0, t) <= hi <= |s|
    ensures LowerBound(s[lo..hi], 0, t) == LowerBound(s, 0, t) - lo
  {
    LowerBoundIs(s[lo..hi], 0, t, LowerBound(s, 0, t) - lo);
  }

  lemma {:induction false} FoundIsPatchStart(contents: Holdings, ids: seq<SequenceId>, start: int, from: int, to: int, p: int)
    requires from <= start <= to && Distinct(ids) && AllReadable(contents, ids)
    requires IsEarliestContext(p, Collected(contents, ids, from, to, 1, 1), ids, start)
    ensures IsPatchStart(p, LiveRows(contents, ids), start)
  {
    hide InOrder, Excerpt, Collected, LastBefore, Distinct, Readable;
    var values, rows := Collected(contents, ids, from, to, 1, 1), LiveRows(contents, ids);
    LastOfNothing(start);
    forall id | id in ids
      ensures id in values ==> LastBefore(values[id], start) == LastBefore(rows[id], start)
      ensures id !in values ==> LastBefore(rows[id], start).None?
    {
      AnswerRow(contents, ids, id, from, to, 1);
      ContextKeepsLast(rows[id], from, to, start);
    }
  }

  lemma LastOfNothing(start: int)
    ensures LastBefore([], start).None?
  {
  }
}
