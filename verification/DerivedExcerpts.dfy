/** What a query must show for the derived series to come out whole, read off
    the sources alone where a formula cannot fail. */
module DerivedExcerpts {
  import opened Timeline
  import opened WindowServices
  import opened Formulas
  import opened DerivedPatches

  // ----- the patch -----

  /** No instant of the patch that all sources span is cut off from one of them. */
  ghost predicate NothingSpannedLost(rows: Rows, first: int, last: int, from: int) {
    forall t: Timestamp :: first <= t <= last && SomeCutOff(rows, from, t) ==> !(Candidate(rows, t) && AllSpan(rows, t))
  }

  /** For such formulas, whether a patch equals the recomputation can be read off
      the new rows of the sources before anything is computed. */
  lemma {:induction false} DefinedPatchEqualsRecomputeExactly(formula: Formula, deps: Dependencies, windowStart: int, range: RefreshRange, p: int, from: int, to: int)
    requires AlwaysDefined(formula) && Refreshable(formula, deps, windowStart, range, p, from, to) && from <= to
    ensures var now := NowRows(deps, windowStart);
            Patched(Derived(formula, OldRows(deps)), formula, now, windowStart, p, range.end, from, to) == Derived(formula, now)
            <==> NothingSpannedLost(now, p, range.end, from)
  {
    hide Derived, Patched, OldRows, SomeCutOff, Evaluate, AlwaysDefined, AllSpan, Candidate, StrictlyIncreasing, LowerBound, Dependency.Now;
    var now := NowRows(deps, windowStart);
    PatchEqualsRecomputeExactly(formula, deps, windowStart, range, p, from, to);
    NowIncreasing(deps, windowStart);
    forall t: Timestamp ensures t in Derived(formula, now) <==> Candidate(now, t) && AllSpan(now, t) { DefinedWhereSpanned(formula, now, t); }
  }

  // ----- a full refresh -----

  ghost predicate SliceOf(part: seq<Point>, whole: seq<Point>) {
    exists lo, hi :: 0 <= lo <= hi <= |whole| && part == whole[lo..hi]
  }

  /** A query shows a stretch of some of the sources. */
  ghost predicate ShowsSlices(shown: Rows, rows: Rows) {
    forall id :: id in shown ==> id in rows && SliceOf(shown[id], rows[id])
  }

  ghost predicate AllShow(shown: Rows, rows: Rows, t: Timestamp) {
    forall id :: id in rows ==> id in shown && Spans(shown[id], t)
  }

  /** Wherever there is a derived value, the query shows all sources around it. */
  ghost predicate NothingHidden(formula: Formula, rows: Rows, shown: Rows) {
    forall t: Timestamp :: t in Derived(formula, rows) ==> AllShow(shown, rows, t)
  }

  /** A search that stops inside a slice stops at the same point of the whole. */
  lemma {:induction false} SlicePlace(whole: seq<Point>, lo: nat, hi: nat, t: Timestamp)
    requires StrictlyIncreasing(whole) && lo <= hi <= |whole| && Spans(whole[lo..hi], t)
    ensures LowerBound(whole, 0, t) == lo + LowerBound(whole[lo..hi], 0, t)
  {
    var part := whole[lo..hi];
    var k := LowerBound(part, 0, t);
    hide LowerBound, StrictlyIncreasing;
    assert part[0] == whole[lo] && part[k] == whole[lo + k];
    forall i | lo <= i < lo + k ensures whole[i].time < t { assert whole[i] == part[i - lo]; }
    StopsInside(whole, lo, lo + k, t);
  }

  lemma {:induction false} StopsInside(whole: seq<Point>, lo: nat, k: nat, t: Timestamp)
    requires StrictlyIncreasing(whole) && lo <= k < |whole| && t <= whole[k].time
    requires k > lo ==> forall i :: lo <= i < k ==> whole[i].time < t
    requires k == lo ==> whole[lo].time == t
    ensures LowerBound(whole, 0, t) == k
  {
    hide LowerBound;
    forall i | 0 <= i < k ensures whole[i].time < t {
      if i < lo { assert whole[i].time < whole[lo].time; }
    }
    LowerBoundIs(whole, 0, t, k);
  }

  lemma {:induction false} SliceValue(whole: seq<NumericPoint>, lo: nat, hi: nat, t: Timestamp)
    requires StrictlyIncreasing(whole) && lo <= hi <= |whole| && Spans(whole[lo..hi], t)
    ensures ValueIn(Continuously(whole[lo..hi]), t) == ValueIn(Continuously(whole), t)
    ensures HasTime(whole[lo..hi], t) <==> HasTime(whole, t)
  {
    hide LowerBound, ValueIn, HasTime, StrictlyIncreasing;
    var part := whole[lo..hi];
    var k := LowerBound(part, 0, t);
    assert k < |part| && (k > 0 || part[k].time == t);
    hide Spans;
    SlicePlace(whole, lo, hi, t);
    assert SliceOf(part, whole);
    SliceIncreasing(part, whole);
    assert part[k] == whole[lo + k] && (k > 0 ==> part[k - 1] == whole[lo + k - 1]);
    SamePlaceSameValue(part, whole, t);
    TimeAtLowerBound(part, t);
    TimeAtLowerBound(whole, t);
  }

  lemma {:induction false} ShownAgrees(formula: Formula, rows: Rows, shown: Rows, t: Timestamp)
    requires forall id :: id in rows <==> id in SourcesFor(formula)
    requires (forall id :: id in rows ==> StrictlyIncreasing(rows[id])) && ShowsSlices(shown, rows)
    ensures At(Derived(formula, shown), t) == if AllShow(shown, rows, t) then At(Derived(formula, rows), t) else None
  {
    hide Derived, Spans, ValueIn, HasTime, LowerBound, SourcesFor, StrictlyIncreasing, Evaluate, Candidate, SliceOf;
    if AllShow(shown, rows, t) {
      forall id | id in rows
        ensures HasTime(rows[id], t) <==> HasTime(shown[id], t)
        ensures ValueIn(Continuously(rows[id]), t) == ValueIn(Continuously(shown[id]), t)
      {
        SliceAt(shown[id], rows[id], t);
      }
      AgreeAt(formula, rows, shown, t);
      AgreeingAt(formula, rows, shown, t);
    } else {
      var id :| id in rows && !(id in shown && Spans(shown[id], t));
      if id in shown { SliceIncreasing(shown[id], rows[id]); SpansIsValue(shown[id], t); }
      EvaluationNeedsEverySource(formula, AsSources(shown), t, id);
      NoneDerivedAt(formula, shown, t);
    }
  }

  lemma SliceAt(part: seq<NumericPoint>, whole: seq<NumericPoint>, t: Timestamp)
    requires StrictlyIncreasing(whole) && SliceOf(part, whole) && Spans(part, t)
    ensures HasTime(whole, t) <==> HasTime(part, t)
    ensures ValueIn(Continuously(whole), t) == ValueIn(Continuously(part), t)
  {
    hide Spans, ValueIn, HasTime, StrictlyIncreasing;
    var lo, hi :| 0 <= lo <= hi <= |whole| && part == whole[lo..hi];
    SliceValue(whole, lo, hi, t);
  }

  lemma SliceIncreasing(part: seq<Point>, whole: seq<Point>)
    requires StrictlyIncreasing(whole) && SliceOf(part, whole)
    ensures StrictlyIncreasing(part)
  {
  }

  /** The series computed from what a query shows is the recomputation exactly
      when the query hides nothing a derived value depends on. */
  lemma {:induction false} ShownEqualsRecomputeExactly(formula: Formula, rows: Rows, shown: Rows)
    requires forall id :: id in rows <==> id in SourcesFor(formula)
    requires (forall id :: id in rows ==> StrictlyIncreasing(rows[id])) && ShowsSlices(shown, rows)
    ensures Derived(formula, shown) == Derived(formula, rows) <==> NothingHidden(formula, rows, shown)
  {
    hide Derived, AllShow, ShowsSlices, SourcesFor, StrictlyIncreasing;
    var full, part := Derived(formula, rows), Derived(formula, shown);
    forall t: Timestamp ensures At(part, t) == if AllShow(shown, rows, t) then At(full, t) else None { ShownAgrees(formula, rows, shown, t); }
    if NothingHidden(formula, rows, shown) {
      SameSeries(part, full);
    } else {
      var t: Timestamp :| t in full && !AllShow(shown, rows, t);
      assert At(part, t) != At(full, t);
    }
  }

  /** For formulas that cannot fail, that too can be read off the rows. */
  lemma {:induction false} DefinedShownEqualsExactly(formula: Formula, rows: Rows, shown: Rows)
    requires AlwaysDefined(formula) && forall id :: id in rows <==> id in SourcesFor(formula)
    requires (forall id :: id in rows ==> StrictlyIncreasing(rows[id])) && ShowsSlices(shown, rows)
    ensures Derived(formula, shown) == Derived(formula, rows) <==>
            forall t: Timestamp :: Candidate(rows, t) && AllSpan(rows, t) ==> AllShow(shown, rows, t)
  {
    hide Derived, AllShow, ShowsSlices, SourcesFor, StrictlyIncreasing, AllSpan, Candidate, AlwaysDefined;
    ShownEqualsRecomputeExactly(formula, rows, shown);
    forall t: Timestamp ensures t in Derived(formula, rows) <==> Candidate(rows, t) && AllSpan(rows, t) { DefinedWhereSpanned(formula, rows, t); }
  }

  /** What the default query shows of the numeric sources. */
  ghost function ShownRows(rows: Rows, numeric: set<SequenceId>, w: Timestamp, size: int): Rows
    requires 0 < size <= TIMESTAMP_MAX && LiveStart(w, size) <= LiveEnd(w)
  {
    map id | id in rows && id in numeric :: NumericExcerpt(rows[id], LiveStart(w, size), LiveEnd(w), 0)
  }

  lemma {:induction false} ShownAreSlices(rows: Rows, numeric: set<SequenceId>, w: Timestamp, size: int)
    requires 0 < size <= TIMESTAMP_MAX && LiveStart(w, size) <= LiveEnd(w)
    ensures ShowsSlices(ShownRows(rows, numeric, w, size), rows)
  {
    hide LowerBound;
    forall id | id in rows && id in numeric ensures SliceOf(ShownRows(rows, numeric, w, size)[id], rows[id]) {
      LowerBoundMonotone(rows[id], LiveStart(w, size), LiveEnd(w));
    }
  }

  /** A source with points at 90 and 100, watermark 100 and size 10: the point at
      the window start 90 is live, and the full refresh derives nothing there. */
  lemma FullRefreshLosesAValue()
    ensures var formula, rows := Linear(0.0, [Term("a", 1.0)]), map["a" := [Reading(90), Reading(100)]];
            && WindowStart(100, 10) == 90 && LiveStart(100, 10) <= LiveEnd(100)
            && 90 in Derived(formula, rows) && 90 !in Derived(formula, ShownRows(rows, {"a"}, 100, 10))
  {
    hide Derived, SourcesFor, LowerBound, Evaluate, ValueIn, StrictlyIncreasing;
    var formula, row := Linear(0.0, [Term("a", 1.0)]), [Reading(90), Reading(100)];
    var rows: Rows := map["a" := row];
    var shown := ShownRows(rows, {"a"}, 100, 10);
    Ascending2(Reading(90), Reading(100));
    LowerBoundIs(row, 0, 90, 0);
    LowerBoundIs(row, 0, 91, 1);
    LowerBoundIs(row, 0, 101, 2);
    forall id ensures id in rows <==> id in SourcesFor(formula) { OneSource(id); }
    assert HasTime(row, 90) by { assert row[0].time == 90; }
    DefinedWhereSpanned(formula, rows, 90);
    assert shown["a"] == [Reading(100)];
    LowerBoundIs([Reading(100)], 0, 90, 0);
    ShownAreSlices(rows, {"a"}, 100, 10);
    assert !AllShow(shown, rows, 90);
    ShownAgrees(formula, rows, shown, 90);
  }

  lemma OneSource(id: SequenceId)
    ensures id in SourcesFor(Linear(0.0, [Term("a", 1.0)])) <==> id == "a"
  {
    hide SourcesFor;
    SourcesAreExactlyUsed(Linear(0.0, [Term("a", 1.0)]), id);
    assert [Term("a", 1.0)][0].id == "a";
  }
}
