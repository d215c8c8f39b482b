/** Evaluating a formula over queried rows and publishing the result. */
module DerivedComputations {
  import opened Timeline
  import opened SortedUnique
  import opened BucketIntervals
  import opened WindowServices
  import WindowLaws
  import opened Formulas
  import opened FormulaCursors
  import opened DerivedPatches

  /** The readable part of a row; everything else is counted as invalid and skipped. */
  function NumbersIn(points: seq<Point>): seq<NumericPoint> {
    if points == [] then []
    else
      var p := points[|points| - 1];
      if p.value.Number? then NumbersIn(points[..|points| - 1]) + [p] else NumbersIn(points[..|points| - 1])
  }

  lemma {:induction false} NumbersOnly(points: seq<Point>)
    requires forall i :: 0 <= i < |points| ==> points[i].value.Number?
    ensures NumbersIn(points) == points
    decreases |points|
  {
    if points != [] { NumbersOnly(points[..|points| - 1]); }
  }

  /** Exactly the readable points are kept, in their order. */
  lemma {:induction false} NumbersAreKept(points: seq<Point>, p: Point)
    ensures p in NumbersIn(points) <==> p in points && p.value.Number?
    ensures |NumbersIn(points)| <= |points|
    ensures StrictlyIncreasing(points) ==> StrictlyIncreasing(NumbersIn(points)) && forall i :: 0 <= i < |NumbersIn(points)| ==> NumbersIn(points)[i] in points
    decreases |points|
  {
    if points != [] {
      var front, last := points[..|points| - 1], points[|points| - 1];
      assert points == front + [last];
      NumbersAreKept(front, p);
      if StrictlyIncreasing(points) {
        var kept := NumbersIn(front);
        forall i | 0 <= i < |kept| ensures kept[i].time < last.time {
          var k :| 0 <= k < |front| && front[k] == kept[i];
        }
      }
    }
  }

  /** How many points of the listed numeric sources could not be read. */
  ghost function Unreadable(values: map<SequenceId, seq<Point>>, ids: seq<SequenceId>, numeric: set<SequenceId>): nat {
    if ids == [] then 0
    else
      var row := WindowLaws.RowsOf(values, ids[|ids| - 1]);
      NumbersAtMost(row);
      Unreadable(values, ids[..|ids| - 1], numeric) + if ids[|ids| - 1] in numeric then |row| - |NumbersIn(row)| else 0
  }

  lemma {:induction false} NumbersAtMost(points: seq<Point>)
    ensures |NumbersIn(points)| <= |points|
    decreases |points|
  {
    if points != [] { NumbersAtMost(points[..|points| - 1]); }
  }

  /** The snapshot a formula is evaluated on: registered continuous numeric sources only. */
  ghost function SnapshotRows(values: map<SequenceId, seq<Point>>, ids: seq<SequenceId>, numeric: set<SequenceId>): Rows {
    map id | id in ids && id in numeric :: NumbersIn(WindowLaws.RowsOf(values, id))
  }

  method ReadNumbers(points: seq<Point>) returns (numbers: seq<NumericPoint>)
    ensures numbers == NumbersIn(points) && |numbers| <= |points|
  {
    numbers := [];
    for k := 0 to |points|
      invariant numbers == NumbersIn(points[..k]) && |numbers| <= k
    {
      assert points[..k + 1][..k] == points[..k];
      if points[k].value.Number? { numbers := numbers + [points[k]]; }
    }
    assert points[..|points|] == points;
  }

  method BuildSnapshot(values: map<SequenceId, seq<Point>>, ids: seq<SequenceId>, numeric: set<SequenceId>) returns (rows: Rows, invalid: nat)
    ensures rows == SnapshotRows(values, ids, numeric) && invalid == Unreadable(values, ids, numeric)
  {
    hide NumbersIn;
    rows, invalid := map[], 0;
    for i := 0 to |ids|
      invariant rows == SnapshotRows(values, ids[..i], numeric) && invalid == Unreadable(values, ids[..i], numeric)
    {
      assert ids[..i + 1] == ids[..i] + [ids[i]] && ids[..i + 1][..i] == ids[..i];
      if ids[i] in numeric {
        var points := if ids[i] in values then values[ids[i]] else [];
        var numbers := ReadNumbers(points);
        invalid := invalid + |points| - |numbers|;
        rows := rows[ids[i] := numbers];
      }
    }
    assert ids[..|ids|] == ids;
  }

  // ----- the sweep over candidate instants -----

  /** What a sweep over ascending instants keeps. */
  ghost function Swept(formula: Formula, sources: Sources, stamps: seq<Point>, first: int, last: int): seq<Point> {
    if stamps == [] then []
    else
      var t := stamps[|stamps| - 1].time;
      var outcome := Evaluate(formula, sources, t);
      Swept(formula, sources, stamps[..|stamps| - 1], first, last)
      + if first <= t <= last && outcome.Computed? then [Point(t, Number(outcome.amount))] else []
  }

  /** The instants of a sweep at which evaluation fails. */
  ghost function FailedIn(formula: Formula, sources: Sources, stamps: seq<Point>, first: int, last: int): set<Timestamp> {
    if stamps == [] then {}
    else
      var t := stamps[|stamps| - 1].time;
      FailedIn(formula, sources, stamps[..|stamps| - 1], first, last)
      + if first <= t <= last && Evaluate(formula, sources, t).Failed? then {t} else {}
  }

  lemma {:induction false} FailedMeaning(formula: Formula, sources: Sources, stamps: seq<Point>, first: int, last: int, t: Timestamp)
    ensures t in FailedIn(formula, sources, stamps, first, last) <==> HasTime(stamps, t) && first <= t <= last && Evaluate(formula, sources, t).Failed?
    decreases |stamps|
  {
    hide Evaluate, HasTime;
    if stamps == [] {
      SweptNothing(t);
    } else {
      var front, p := stamps[..|stamps| - 1], stamps[|stamps| - 1];
      assert stamps == front + [p];
      FailedMeaning(formula, sources, front, first, last, t);
      HasTimeGrows(front, p);
    }
  }

  lemma FailedStep(formula: Formula, sources: Sources, stamps: seq<Point>, i: nat, first: int, last: int)
    requires StrictlyIncreasing(stamps) && i < |stamps|
    ensures var t := stamps[i].time;
            |FailedIn(formula, sources, stamps[..i + 1], first, last)| == |FailedIn(formula, sources, stamps[..i], first, last)|
                                                                          + if first <= t <= last && Evaluate(formula, sources, t).Failed? then 1 else 0
  {
    hide Evaluate;
    assert stamps[..i + 1][..i] == stamps[..i];
    FailedMeaning(formula, sources, stamps[..i], first, last, stamps[i].time);
  }

  lemma {:induction false} SweptMeaning(formula: Formula, sources: Sources, stamps: seq<Point>, first: int, last: int, t: Timestamp)
    requires StrictlyIncreasing(stamps)
    ensures var r := Swept(formula, sources, stamps, first, last);
            && StrictlyIncreasing(r)
            && (forall i :: 0 <= i < |r| ==> HasTime(stamps, r[i].time))
            && At(AsMap(r), t) ==
               if HasTime(stamps, t) && first <= t <= last && Evaluate(formula, sources, t).Computed?
               then Some(Number(Evaluate(formula, sources, t).amount)) else None
    decreases |stamps|
  {
    hide Evaluate, AsMap, HasTime, StrictlyIncreasing;
    if stamps == [] {
      SweptNothing(t);
    } else {
      var front, p := stamps[..|stamps| - 1], stamps[|stamps| - 1];
      assert stamps == front + [p];
      FrontIncreasing(front, p);
      SweptMeaning(formula, sources, front, first, last, t);
      var before, outcome := Swept(formula, sources, front, first, last), Evaluate(formula, sources, p.time);
      HasTimeGrows(front, p);
      if first <= p.time <= last && outcome.Computed? {
        KeptOne(front, before, p.time, Number(outcome.amount), t);
      } else {
        assert before + [] == before;
      }
    }
  }

  lemma NothingFailed(formula: Formula, sources: Sources, first: int, last: int)
    ensures FailedIn(formula, sources, [], first, last) == {}
  {
  }

  lemma SweptNothing(t: Timestamp)
    ensures StrictlyIncreasing([]) && !HasTime([], t) && At(AsMap([]), t) == None
  {
  }

  lemma FrontIncreasing(front: seq<Point>, p: Point)
    requires StrictlyIncreasing(front + [p])
    ensures StrictlyIncreasing(front) && forall t :: HasTime(front, t) ==> t < p.time
  {
    var all := front + [p];
    assert all[|front|] == p && forall i :: 0 <= i < |front| ==> all[i] == front[i];
  }

  lemma {:induction false} KeptOne(front: seq<Point>, before: seq<Point>, u: Timestamp, value: Value, t: Timestamp)
    requires StrictlyIncreasing(before) && (forall i :: 0 <= i < |before| ==> HasTime(front, before[i].time))
    requires forall t :: HasTime(front, t) ==> t < u
    ensures StrictlyIncreasing(before + [Point(u, value)])
    ensures At(AsMap(before + [Point(u, value)]), t) == if t == u then Some(value) else At(AsMap(before), t)
  {
    hide AsMap, HasTime;
    WriteLast(before, Point(u, value));
  }

  lemma HasTimeGrows(front: seq<Point>, p: Point)
    ensures forall t :: HasTime(front + [p], t) <==> HasTime(front, t) || t == p.time
  {
    var all := front + [p];
    assert all[|front|] == p;
    forall t ensures HasTime(all, t) <==> HasTime(front, t) || t == p.time {
      if i :| 0 <= i < |front| && front[i].time == t { assert all[i].time == t; }
      if i :| 0 <= i < |all| && all[i].time == t && i < |front| { assert front[i].time == t; }
    }
  }

  /** Every row's points one after the other. */
  ghost function Gathered(rows: Rows, ids: seq<SequenceId>): seq<Point> {
    if ids == [] then []
    else Gathered(rows, ids[..|ids| - 1]) + if ids[|ids| - 1] in rows then rows[ids[|ids| - 1]] else []
  }

  lemma {:induction false} GatheredTimes(rows: Rows, ids: seq<SequenceId>, t: Timestamp)
    ensures HasTime(Gathered(rows, ids), t) <==> exists id :: id in ids && id in rows && HasTime(rows[id], t)
    decreases |ids|
  {
    hide HasTime;
    if ids != [] {
      var front, id := ids[..|ids| - 1], ids[|ids| - 1];
      GatheredTimes(rows, front, t);
      assert ids == front + [id];
      HasTimeConcat(Gathered(rows, front), if id in rows then rows[id] else [], t);
      HasTimeNil(t);
    } else {
      HasTimeNil(t);
    }
  }

  lemma HasTimeNil(t: Timestamp)
    ensures !HasTime([], t)
  {
  }

  lemma HasTimeConcat(a: seq<Point>, b: seq<Point>, t: Timestamp)
    ensures HasTime(a + b, t) <==> HasTime(a, t) || HasTime(b, t)
  {
    var all := a + b;
    if i :| 0 <= i < |a| && a[i].time == t { assert all[i].time == t; }
    if i :| 0 <= i < |b| && b[i].time == t { assert all[|a| + i].time == t; }
    if i :| 0 <= i < |all| && all[i].time == t {
      if i < |a| { assert a[i].time == t; } else { assert b[i - |a|].time == t; }
    }
  }

  lemma {:induction false} StampsAreCandidates(rows: Rows, ids: seq<SequenceId>, t: Timestamp)
    requires forall id :: id in rows ==> id in ids
    ensures HasTime(InOrder(AsMap(Gathered(rows, ids))), t) <==> Candidate(rows, t)
  {
    hide AsMap, InOrder, Gathered;
    var all := Gathered(rows, ids);
    GatheredTimes(rows, ids, t);
    KeysAreTimes(all, t);
    KeysAreTimes(InOrder(AsMap(all)), t);
  }

  lemma SweepIsDerived(formula: Formula, rows: Rows, ids: seq<SequenceId>, first: int, last: int)
    requires forall id :: id in rows ==> id in ids
    ensures var r := Swept(formula, AsSources(rows), InOrder(AsMap(Gathered(rows, ids))), first, last);
            StrictlyIncreasing(r) && AsMap(r) == Restricted(Derived(formula, rows), first, last)
  {
    hide Evaluate, AsMap, InOrder, Gathered, Swept, Candidate, HasTime, Derived;
    var stamps := InOrder(AsMap(Gathered(rows, ids)));
    var r := Swept(formula, AsSources(rows), stamps, first, last);
    SweptMeaning(formula, AsSources(rows), stamps, first, last, 0);
    forall t: Timestamp ensures At(AsMap(r), t) == At(Restricted(Derived(formula, rows), first, last), t) {
      SweptMeaning(formula, AsSources(rows), stamps, first, last, t);
      StampsAreCandidates(rows, ids, t);
    }
    SameSeries(AsMap(r), Restricted(Derived(formula, rows), first, last));
  }

  /** The candidate instants of a range at which evaluation fails. */
  ghost function Failures(formula: Formula, rows: Rows, first: int, last: int): set<Timestamp> {
    set t: Timestamp | t in TimesOf(rows) && first <= t <= last && Evaluate(formula, AsSources(rows), t).Failed?
  }

  lemma SweepFailures(formula: Formula, rows: Rows, ids: seq<SequenceId>, first: int, last: int)
    requires forall id :: id in rows ==> id in ids
    ensures FailedIn(formula, AsSources(rows), InOrder(AsMap(Gathered(rows, ids))), first, last) == Failures(formula, rows, first, last)
  {
    hide Evaluate, AsMap, InOrder, Gathered, FailedIn, HasTime, Candidate;
    forall t: Timestamp
      ensures t in FailedIn(formula, AsSources(rows), InOrder(AsMap(Gathered(rows, ids))), first, last) <==> t in Failures(formula, rows, first, last)
    {
      FailedMeaning(formula, AsSources(rows), InOrder(AsMap(Gathered(rows, ids))), first, last, t);
      StampsAreCandidates(rows, ids, t);
      TimesAreCandidates(rows, t);
    }
  }

  lemma TimesAreCandidates(rows: Rows, t: Timestamp)
    ensures t in TimesOf(rows) <==> Candidate(rows, t)
  {
  }

  /** Candidate instants collected, sorted and deduplicated, then evaluated with
      shared cursors inside the closed range: the derived series there. */
  method ComputePoints(formula: Formula, rows: Rows, ids: seq<SequenceId>, first: Timestamp, last: Timestamp) returns (points: seq<Point>, errors: nat)
    requires forall id :: id in rows ==> id in ids
    ensures StrictlyIncreasing(points) && AsMap(points) == Restricted(Derived(formula, rows), first, last)
    ensures errors == |Failures(formula, rows, first, last)|
    ensures forall i :: 0 <= i < |points| ==> first <= points[i].time <= last
  {
    hide Evaluate, AsMap, InOrder, Derived, Swept, FormulaEvaluator.Behind, FailedIn, Failures;
    var all: seq<Point> := [];
    GatheredNone(rows);
    for i := 0 to |ids|
      invariant all == Gathered(rows, ids[..i])
    {
      assert ids[..i + 1][..i] == ids[..i];
      if ids[i] in rows { all := all + rows[ids[i]]; }
    }
    assert ids[..|ids|] == ids;
    var stamps := SortUnique(all);
    points, errors := Sweep(formula, rows, stamps, first, last);
    SweepIsDerived(formula, rows, ids, first, last);
    SweepFailures(formula, rows, ids, first, last);
  }

  lemma GatheredNone(rows: Rows)
    ensures Gathered(rows, []) == []
  {
  }

  method Sweep(formula: Formula, rows: Rows, stamps: seq<Point>, first: Timestamp, last: Timestamp) returns (points: seq<Point>, errors: nat)
    requires StrictlyIncreasing(stamps)
    ensures points == Swept(formula, AsSources(rows), stamps, first, last)
    ensures errors == |FailedIn(formula, AsSources(rows), stamps, first, last)|
    ensures forall i :: 0 <= i < |points| ==> first <= points[i].time <= last
  {
    hide Evaluate, FormulaEvaluator.Behind, FailedIn;
    NothingFailed(formula, AsSources(rows), first, last);
    assert stamps[..0] == [];
    var evaluator := new FormulaEvaluator(AsSources(rows));
    points, errors := [], 0;
    for i := 0 to |stamps|
      invariant points == Swept(formula, AsSources(rows), stamps[..i], first, last)
      invariant errors == |FailedIn(formula, AsSources(rows), stamps[..i], first, last)|
      invariant forall k :: 0 <= k < |points| ==> first <= points[k].time <= last
      invariant i < |stamps| ==> evaluator.Behind(stamps[i].time)
      invariant fresh(evaluator) && evaluator.sources == AsSources(rows)
    {
      assert stamps[..i + 1][..i] == stamps[..i];
      FailedStep(formula, AsSources(rows), stamps, i, first, last);
      var t := stamps[i].time;
      if first <= t <= last {
        var outcome := evaluator.EvaluateAt(formula, t);
        match outcome {
          case Computed(x) => points := points + [Point(t, Number(x))];
          case Missing =>
          case Failed(_) => errors := errors + 1;
        }
      }
      if i + 1 < |stamps| { evaluator.BehindLater(t, stamps[i + 1].time); }
    }
    assert stamps[..|stamps|] == stamps;
  }

  // ----- where the patch starts -----

  /** The earliest last point before the range over all returned rows, or the range itself. */
  ghost predicate IsEarliestContext(p: int, rows: map<SequenceId, seq<Point>>, ids: seq<SequenceId>, start: int) {
    && p <= start
    && (forall id :: id in ids && id in rows && LastBefore(rows[id], start).Some? ==> p <= LastBefore(rows[id], start).value.time)
    && (p == start || exists id :: id in ids && id in rows && LastBefore(rows[id], start).Some? && LastBefore(rows[id], start).value.time == p)
  }

  method FindPatchStart(rows: map<SequenceId, seq<Point>>, ids: seq<SequenceId>, start: Timestamp) returns (p: Timestamp)
    ensures IsEarliestContext(p, rows, ids, start)
  {
    p := start;
    for i := 0 to |ids|
      invariant p <= start
      invariant forall k :: 0 <= k < i && ids[k] in rows && LastBefore(rows[ids[k]], start).Some? ==> p <= LastBefore(rows[ids[k]], start).value.time
      invariant p == start || exists id :: id in ids && id in rows && LastBefore(rows[id], start).Some? && LastBefore(rows[id], start).value.time == p
    {
      if ids[i] in rows {
        var first := LowerBound(rows[ids[i]], 0, start);
        if first != 0 && rows[ids[i]][first - 1].time < p { p := rows[ids[i]][first - 1].time; }
      }
    }
  }
}
