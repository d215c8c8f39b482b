/** When patching a stretch of a derived series is as good as recomputing it. */
module DerivedPatches {
  import opened Timeline
  import opened BucketAggregation
  import opened WindowServices
  import opened WindowQueries
  import opened Formulas

  type Rows = map<SequenceId, seq<NumericPoint>>

  ghost predicate HasTime(points: seq<Point>, t: int) {
    exists i :: 0 <= i < |points| && points[i].time == t
  }

  function AsSources(rows: Rows): Sources {
    map id | id in rows :: NumericSource(rows[id], Continuous)
  }

  /** Some source of the formula has a point at `t`. */
  ghost predicate Candidate(rows: Rows, t: int) {
    exists id :: id in rows && HasTime(rows[id], t)
  }

  ghost function TimesOf(rows: Rows): set<Timestamp> {
    set id, i | id in rows && 0 <= i < |rows[id]| :: rows[id][i].time
  }

  /** The derived series: the formula at every instant some source has, where it has a value. */
  ghost function Derived(formula: Formula, rows: Rows): (m: Series)
    ensures forall t: Timestamp :: t in m <==> Candidate(rows, t) && Evaluate(formula, AsSources(rows), t).Computed?
    ensures forall t: Timestamp :: t in m ==> m[t] == Number(Evaluate(formula, AsSources(rows), t).amount)
  {
    map t | t in TimesOf(rows) && Evaluate(formula, AsSources(rows), t).Computed? :: Number(Evaluate(formula, AsSources(rows), t).amount)
  }

  // ----- one update, seen by the dependencies of a formula -----

  /** What a source held, and what the update appended to it. */
  datatype Dependency = Dependency(held: seq<NumericPoint>, appended: seq<NumericPoint>) {
    function All(): seq<NumericPoint> { held + appended }

    /** What is left once everything before the window start is gone. */
    function Now(windowStart: int): (r: seq<NumericPoint>) { All()[LowerBound(All(), 0, windowStart)..] }

    ghost predicate Evicts(windowStart: int) { Now(windowStart) != All() }
  }

  type Dependencies = map<SequenceId, Dependency>

  function OldRows(deps: Dependencies): Rows { map id | id in deps :: deps[id].held }

  function NowRows(deps: Dependencies, windowStart: int): Rows { map id | id in deps :: deps[id].Now(windowStart) }

  datatype RefreshRange = RefreshRange(start: Timestamp, end: Timestamp, evicted: bool)

  /** An affected range under which incremental refresh is attempted: something
      changed, every change only appends inside the range, and eviction is
      flagged and pulls the range back to the window start. */
  ghost predicate Covers(range: RefreshRange, deps: Dependencies, windowStart: int) {
    && (exists id :: id in deps && deps[id].appended != [])
    && (forall id :: id in deps ==> StrictlyIncreasing(deps[id].All()))
    && (forall id, i :: id in deps && 0 <= i < |deps[id].appended| ==> range.start <= deps[id].appended[i].time <= range.end)
    && (forall id :: id in deps && deps[id].Evicts(windowStart) ==> range.start <= windowStart)
  }

  /** The last point before `start`. */
  function LastBefore(points: seq<Point>, start: int): Option<Point> {
    var k := LowerBound(points, 0, start);
    if k == 0 then None else Some(points[k - 1])
  }

  /** All dependencies that have a point before the range have their last such
      point at one instant. */
  ghost predicate CommonLast(rows: Rows, start: int) {
    forall a, b :: a in rows && b in rows && LastBefore(rows[a], start).Some? && LastBefore(rows[b], start).Some? ==>
                     LastBefore(rows[a], start).value.time == LastBefore(rows[b], start).value.time
  }

  /** Where the patch starts: the earliest such point, or the range itself. */
  ghost predicate IsPatchStart(p: int, rows: Rows, start: int) {
    && p <= start
    && (forall id :: id in rows && LastBefore(rows[id], start).Some? ==> p <= LastBefore(rows[id], start).value.time)
    && (p == start || exists id :: id in rows && LastBefore(rows[id], start).Some? && LastBefore(rows[id], start).value.time == p)
  }

  /** An excerpt of numeric points is numeric. */
  ghost function NumericExcerpt(row: seq<NumericPoint>, from: int, to: int, context: nat): (r: seq<NumericPoint>)
    requires from <= to
    ensures r == Excerpt(row, from, to, context, context)
  {
    LowerBoundMonotone(row, from, to);
    row[Max(LowerBound(row, 0, from) - context, 0)..Min(LowerBound(row, 0, to) + context, |row|)]
  }

  /** The rows one shared query returns: its range covers this formula's. */
  ghost function Queried(rows: Rows, from: int, to: int): Rows
    requires from <= to
  {
    map id | id in rows :: NumericExcerpt(rows[id], from, to, 1)
  }

  ghost function Restricted(m: Series, first: int, last: int): Series {
    map t | t in m && first <= t <= last :: m[t]
  }

  // ----- the rows a query returns know enough -----

  function Continuously(points: seq<NumericPoint>): NumericSource { NumericSource(points, Continuous) }

  /** Instants whose value in the whole series an excerpt with one point of
      context on each side still determines. */
  ghost predicate InReach(all: seq<Point>, from: int, to: int, t: int) {
    || from <= t <= to
    || (t < from && LastBefore(all, from).None?)
    || (LastBefore(all, from).Some? && LastBefore(all, from).value.time <= t <= to)
  }

  lemma LowerBoundAtPoint(s: seq<Point>, k: nat)
    requires StrictlyIncreasing(s) && k < |s|
    ensures LowerBound(s, 0, s[k].time) == k
  {
    LowerBoundIs(s, 0, s[k].time, k);
  }

  /** Two series agree on a value when the searches stop at the same point with
      the same neighbour, or at the same end. */
  lemma {:induction false} SamePlaceSameValue(a: seq<NumericPoint>, b: seq<NumericPoint>, t: Timestamp)
    requires var i, j := LowerBound(a, 0, t), LowerBound(b, 0, t);
             && (i < |a| <==> j < |b|) && (i < |a| ==> a[i] == b[j])
             && ((i > 0 && j > 0 && a[i - 1] == b[j - 1]) || (i == 0 && j == 0) || (i < |a| && a[i].time == t)
                 || ((i == 0 || i == |a|) && (j == 0 || j == |b|)))
    ensures ValueIn(Continuously(a), t) == ValueIn(Continuously(b), t)
    ensures (LowerBound(a, 0, t) < |a| && a[LowerBound(a, 0, t)].time == t) <==> (LowerBound(b, 0, t) < |b| && b[LowerBound(b, 0, t)].time == t)
  {
    hide LowerBound, Interpolated;
  }

  lemma ExcerptPlace(all: seq<NumericPoint>, from: int, to: int, t: Timestamp)
    requires StrictlyIncreasing(all) && from <= to && InReach(all, from, to, t)
    ensures var lo, hi := Max(LowerBound(all, 0, from) - 1, 0), Min(LowerBound(all, 0, to) + 1, |all|);
            var k := LowerBound(all, 0, t);
            && lo <= k <= hi <= |all| && Excerpt(all, from, to, 1, 1) == all[lo..hi]
            && LowerBound(all[lo..hi], 0, t) == k - lo
            && (k == hi ==> k == |all|) && (k == lo && k > 0 ==> k < |all| && all[k].time == t)
  {
    hide StrictlyIncreasing, LowerBound;
    var a, b, k := LowerBound(all, 0, from), LowerBound(all, 0, to), LowerBound(all, 0, t);
    LowerBoundMonotone(all, from, to);
    var lo, hi := if a == 0 then 0 else a - 1, Min(b + 1, |all|);
    if from <= t <= to {
      LowerBoundMonotone(all, from, t);
      LowerBoundMonotone(all, t, to);
    } else if a > 0 {
      LowerBoundAtPoint(all, a - 1);
      LowerBoundMonotone(all, all[a - 1].time, t);
      LowerBoundMonotone(all, t, from);
    }
    SliceBound(all, lo, hi, t);
  }

  lemma SliceBound(s: seq<Point>, lo: nat, hi: nat, t: Timestamp)
    requires lo <= LowerBound(s, 0, t) <= hi <= |s|
    ensures LowerBound(s[lo..hi], 0, t) == LowerBound(s, 0, t) - lo
  {
    LowerBoundIs(s[lo..hi], 0, t, LowerBound(s, 0, t) - lo);
  }

  lemma ExcerptValue(all: seq<NumericPoint>, from: int, to: int, t: Timestamp)
    requires StrictlyIncreasing(all) && from <= to && InReach(all, from, to, t)
    ensures ValueIn(Continuously(Excerpt(all, from, to, 1, 1)), t) == ValueIn(Continuously(all), t)
    ensures HasTime(Excerpt(all, from, to, 1, 1), t) <==> HasTime(all, t)
  {
    hide LowerBound, ValueIn, HasTime, InReach, Excerpt, StrictlyIncreasing, LastBefore;
    ExcerptPlace(all, from, to, t);
    var lo, hi := Max(LowerBound(all, 0, from) - 1, 0), Min(LowerBound(all, 0, to) + 1, |all|);
    ghost var k := LowerBound(all, 0, t);
    PieceIncreasing(all, lo, hi);
    ghost var part := all[lo..hi];
    assert Excerpt(all, from, to, 1, 1) == part && |part| == hi - lo && LowerBound(part, 0, t) == k - lo;
    assert (k < hi ==> part[k - lo] == all[k]) && (k > lo ==> part[k - lo - 1] == all[k - 1]);
    SamePlaceSameValue(part, all, t);
    TimeAtLowerBound(all, t);
    TimeAtLowerBound(part, t);
  }

  lemma PieceIncreasing(s: seq<Point>, lo: nat, hi: nat)
    requires StrictlyIncreasing(s) && lo <= hi <= |s|
    ensures StrictlyIncreasing(s[lo..hi])
  {
  }

  lemma TimeAtLowerBound(s: seq<Point>, t: int)
    requires StrictlyIncreasing(s)
    ensures HasTime(s, t) <==> LowerBound(s, 0, t) < |s| && s[LowerBound(s, 0, t)].time == t
  {
  }

  // ----- the three stretches -----

  lemma UnchangedPlace(dep: Dependency, windowStart: int, start: int, p: int, t: Timestamp)
    requires StrictlyIncreasing(dep.All())
    requires forall i :: 0 <= i < |dep.appended| ==> start <= dep.appended[i].time
    requires p <= start && (LastBefore(dep.All(), start).Some? ==> LastBefore(dep.All(), start).value.time >= p)
    requires t < p
    ensures var k := LowerBound(dep.All(), 0, t);
            && k <= |dep.held| && LowerBound(dep.held, 0, t) == k
            && (k == 0 || k < |dep.held|) && (k == 0 && |dep.held| == 0 && |dep.All()| > 0 ==> t < dep.All()[0].time)
            && (k == 0 ==> !HasTime(dep.All(), t) || |dep.held| > 0)
  {
    var all := dep.All();
    var k, c := LowerBound(all, 0, t), LowerBound(all, 0, start);
    LowerBoundMonotone(all, t, start);
    assert forall i :: 0 <= i < |dep.held| ==> all[i] == dep.held[i];
    assert forall i :: |dep.held| <= i < |all| ==> all[i] == dep.appended[i - |dep.held|];
    LowerBoundIs(dep.held, 0, t, k);
  }

  /** Nothing a value before the patch depends on has changed. */
  lemma UnchangedBefore(dep: Dependency, windowStart: int, start: int, p: int, t: Timestamp)
    requires StrictlyIncreasing(dep.All()) && !dep.Evicts(windowStart)
    requires forall i :: 0 <= i < |dep.appended| ==> start <= dep.appended[i].time
    requires p <= start && (LastBefore(dep.All(), start).Some? ==> LastBefore(dep.All(), start).value.time >= p)
    requires t < p
    ensures ValueIn(Continuously(dep.Now(windowStart)), t) == ValueIn(Continuously(dep.held), t)
    ensures HasTime(dep.Now(windowStart), t) <==> HasTime(dep.held, t)
  {
    hide LowerBound, ValueIn, HasTime, LastBefore, StrictlyIncreasing;
    UnchangedPlace(dep, windowStart, start, p, t);
    HeldIncreasing(dep);
    TimeAtLowerBound(dep.All(), t);
    TimeAtLowerBound(dep.held, t);
    EarlyPrefixSameValue(dep.held, dep.appended, t);
  }

  lemma EarlyPrefixSameValue(a: seq<NumericPoint>, b: seq<NumericPoint>, t: Timestamp)
    requires var k := LowerBound(a, 0, t);
             LowerBound(a + b, 0, t) == k && (k < |a| || (k == 0 && (b == [] || b[0].time != t)))
    ensures ValueIn(Continuously(a + b), t) == ValueIn(Continuously(a), t)
  {
    hide LowerBound, Interpolated;
    var k := LowerBound(a, 0, t);
    assert forall i :: 0 <= i < |a| ==> (a + b)[i] == a[i];
    if k == |a| && b != [] { assert (a + b)[0] == b[0]; }
  }

  lemma HeldIncreasing(dep: Dependency)
    requires StrictlyIncreasing(dep.All())
    ensures StrictlyIncreasing(dep.held)
  {
    assert forall i :: 0 <= i < |dep.held| ==> dep.All()[i] == dep.held[i];
  }

  lemma PastTheEnd(points: seq<NumericPoint>, t: Timestamp)
    requires forall i :: 0 <= i < |points| ==> points[i].time < t
    ensures ValueIn(Continuously(points), t).None?
  {
    LowerBoundIs(points, 0, t, |points|);
  }

  /** Past the range no changed source has a value any more, before or after. */
  lemma {:induction false} NothingAfter(dep: Dependency, windowStart: int, end: int, t: Timestamp)
    requires StrictlyIncreasing(dep.All()) && dep.appended != []
    requires forall i :: 0 <= i < |dep.appended| ==> dep.appended[i].time <= end
    requires end < t
    ensures ValueIn(Continuously(dep.Now(windowStart)), t).None? && ValueIn(Continuously(dep.held), t).None?
  {
    var all := dep.All();
    var last := |all| - 1;
    assert all[last] == dep.appended[|dep.appended| - 1];
    assert forall i :: 0 <= i < |all| ==> all[i].time < t;
    assert forall i :: 0 <= i < |dep.held| ==> dep.held[i] == all[i];
    PastTheEnd(dep.held, t);
    PastTheEnd(dep.Now(windowStart), t);
  }

  /** The query returns a source's rows only from an instant after `t` on,
      although the source has earlier points. */
  ghost predicate CutOff(points: seq<Point>, from: int, t: int) {
    LastBefore(points, from).Some? && t < LastBefore(points, from).value.time
  }

  lemma CutOffHasNoValue(all: seq<NumericPoint>, from: int, to: int, t: Timestamp)
    requires StrictlyIncreasing(all) && from <= to && CutOff(all, from, t)
    ensures ValueIn(Continuously(Excerpt(all, from, to, 1, 1)), t).None?
  {
    var a, b := LowerBound(all, 0, from), LowerBound(all, 0, to);
    LowerBoundMonotone(all, from, to);
    LowerBoundIs(all[a - 1..Min(b + 1, |all|)], 0, t, 0);
  }

  // ----- the theorem -----

  /** The derived series after an incremental refresh: what survives eviction,
      the patch range erased, the values computed from the queried rows put in. */
  ghost function Patched(before: Series, formula: Formula, rows: Rows, windowStart: int, first: int, last: int, from: int, to: int): Series
    requires from <= to
  {
    EraseRange(DropBelow(before, windowStart), first, last) + Restricted(Derived(formula, Queried(rows, from, to)), first, last)
  }

  ghost predicate Agrees(formula: Formula, a: Rows, b: Rows, t: Timestamp) {
    && (Candidate(a, t) <==> Candidate(b, t))
    && Evaluate(formula, AsSources(a), t) == Evaluate(formula, AsSources(b), t)
  }

  lemma AgreeAt(formula: Formula, a: Rows, b: Rows, t: Timestamp)
    requires a.Keys == b.Keys
    requires forall id :: id in a ==> (HasTime(a[id], t) <==> HasTime(b[id], t))
    requires forall id :: id in a ==> ValueIn(Continuously(a[id]), t) == ValueIn(Continuously(b[id]), t)
    ensures Agrees(formula, a, b, t)
  {
    hide Evaluate, ValueIn, HasTime;
    EvaluationDependsOnSources(formula, AsSources(a), AsSources(b), t);
    if Candidate(a, t) { var id :| id in a && HasTime(a[id], t); assert id in b; }
    if Candidate(b, t) { var id :| id in b && HasTime(b[id], t); assert id in a; }
  }

  ghost predicate Refreshable(formula: Formula, deps: Dependencies, windowStart: int, range: RefreshRange, p: int, from: int, to: int) {
    && (forall id :: id in deps <==> id in SourcesFor(formula))
    && Covers(range, deps, windowStart)
    && IsPatchStart(p, NowRows(deps, windowStart), range.start)
    && from <= range.start <= range.end <= to
  }

  lemma SuffixIncreasing(dep: Dependency, windowStart: int)
    requires StrictlyIncreasing(dep.All())
    ensures StrictlyIncreasing(dep.Now(windowStart))
    ensures forall i :: 0 <= i < |dep.Now(windowStart)| ==> windowStart <= dep.Now(windowStart)[i].time
    ensures dep.Now(windowStart) == dep.All() ==> forall i :: 0 <= i < |dep.All()| ==> windowStart <= dep.All()[i].time
  {
  }

  lemma BeforeThePatch(formula: Formula, deps: Dependencies, windowStart: int, range: RefreshRange, p: int, from: int, to: int, t: Timestamp)
    requires Refreshable(formula, deps, windowStart, range, p, from, to) && windowStart <= t < p
    ensures Agrees(formula, NowRows(deps, windowStart), OldRows(deps), t)
  {
    hide Evaluate, ValueIn, HasTime, LastBefore, Candidate, LowerBound, Agrees;
    var now, was := NowRows(deps, windowStart), OldRows(deps);
    forall id | id in deps
      ensures HasTime(now[id], t) <==> HasTime(was[id], t)
      ensures ValueIn(Continuously(now[id]), t) == ValueIn(Continuously(was[id]), t)
    {
      assert !deps[id].Evicts(windowStart);
      assert now[id] == deps[id].All();
      UnchangedBefore(deps[id], windowStart, range.start, p, t);
    }
    AgreeAt(formula, now, was, t);
  }

  lemma AfterThePatch(formula: Formula, deps: Dependencies, windowStart: int, range: RefreshRange, p: int, from: int, to: int, t: Timestamp)
    requires Refreshable(formula, deps, windowStart, range, p, from, to) && range.end < t
    ensures !Evaluate(formula, AsSources(NowRows(deps, windowStart)), t).Computed?
    ensures !Evaluate(formula, AsSources(OldRows(deps)), t).Computed?
  {
    hide Evaluate, ValueIn, LowerBound, SourcesFor;
    var id :| id in deps && deps[id].appended != [];
    NothingAfter(deps[id], windowStart, range.end, t);
    EvaluationNeedsEverySource(formula, AsSources(NowRows(deps, windowStart)), t, id);
    EvaluationNeedsEverySource(formula, AsSources(OldRows(deps)), t, id);
  }

  ghost predicate SomeCutOff(rows: Rows, from: int, t: int) {
    exists id :: id in rows && CutOff(rows[id], from, t)
  }

  lemma InsideThePatch(formula: Formula, deps: Dependencies, windowStart: int, range: RefreshRange, p: int, from: int, to: int, t: Timestamp)
    requires Refreshable(formula, deps, windowStart, range, p, from, to) && t <= range.end
    requires !SomeCutOff(NowRows(deps, windowStart), from, t)
    ensures Agrees(formula, NowRows(deps, windowStart), Queried(NowRows(deps, windowStart), from, to), t)
  {
    hide Evaluate, ValueIn, HasTime, LastBefore, LowerBound, Excerpt, SourcesFor, Agrees;
    var now := NowRows(deps, windowStart);
    forall id | id in now
      ensures HasTime(now[id], t) <==> HasTime(Queried(now, from, to)[id], t)
      ensures ValueIn(Continuously(now[id]), t) == ValueIn(Continuously(Queried(now, from, to)[id]), t)
    {
      SuffixIncreasing(deps[id], windowStart);
      assert !CutOff(now[id], from, t);
      ExcerptValue(now[id], from, to, t);
    }
    AgreeAt(formula, now, Queried(now, from, to), t);
  }

  lemma CutOffInThePatch(formula: Formula, deps: Dependencies, windowStart: int, range: RefreshRange, p: int, from: int, to: int, t: Timestamp)
    requires Refreshable(formula, deps, windowStart, range, p, from, to)
    requires SomeCutOff(NowRows(deps, windowStart), from, t)
    ensures !Evaluate(formula, AsSources(Queried(NowRows(deps, windowStart), from, to)), t).Computed?
  {
    hide Evaluate, ValueIn, HasTime, LastBefore, LowerBound, Excerpt, SourcesFor, CutOff;
    var now := NowRows(deps, windowStart);
    var id :| id in now && CutOff(now[id], from, t);
    SuffixIncreasing(deps[id], windowStart);
    CutOffHasNoValue(now[id], from, to, t);
    EvaluationNeedsEverySource(formula, AsSources(Queried(now, from, to)), t, id);
  }

  lemma NothingBelow(formula: Formula, deps: Dependencies, windowStart: int, range: RefreshRange, p: int, from: int, to: int, t: Timestamp)
    requires Refreshable(formula, deps, windowStart, range, p, from, to) && t < windowStart
    ensures !Candidate(NowRows(deps, windowStart), t)
  {
    hide LowerBound;
    forall id | id in deps ensures !HasTime(NowRows(deps, windowStart)[id], t) { SuffixIncreasing(deps[id], windowStart); }
  }

  /** A series at one instant. */
  ghost function At(m: Series, t: Timestamp): Option<Value> {
    if t in m then Some(m[t]) else None
  }

  lemma {:induction false} PatchedAt(before: Series, formula: Formula, rows: Rows, windowStart: int, first: int, last: int, from: int, to: int, t: Timestamp)
    requires from <= to
    ensures At(Patched(before, formula, rows, windowStart, first, last, from, to), t) ==
            if first <= t <= last then At(Derived(formula, Queried(rows, from, to)), t)
            else if windowStart <= t then At(before, t) else None
  {
    hide Derived, Queried;
  }

  lemma AgreeingAt(formula: Formula, a: Rows, b: Rows, t: Timestamp)
    requires Agrees(formula, a, b, t) || (!Candidate(a, t) && !Candidate(b, t))
    ensures At(Derived(formula, a), t) == At(Derived(formula, b), t)
  {
    hide Evaluate, Candidate;
  }

  lemma NoneDerivedAt(formula: Formula, rows: Rows, t: Timestamp)
    requires !Candidate(rows, t) || !Evaluate(formula, AsSources(rows), t).Computed?
    ensures At(Derived(formula, rows), t).None?
  {
    hide Evaluate, Candidate;
  }

  lemma PatchEqualsAt(formula: Formula, deps: Dependencies, windowStart: int, range: RefreshRange, p: int, from: int, to: int, t: Timestamp)
    requires Refreshable(formula, deps, windowStart, range, p, from, to) && from <= to
    ensures var now := NowRows(deps, windowStart);
            At(Patched(Derived(formula, OldRows(deps)), formula, now, windowStart, p, range.end, from, to), t)
            == if p <= t <= range.end && SomeCutOff(now, from, t) then None else At(Derived(formula, now), t)
  {
    hide *;
    var now := NowRows(deps, windowStart);
    PatchedAt(Derived(formula, OldRows(deps)), formula, now, windowStart, p, range.end, from, to, t);
    if range.end < t {
      AfterThePatch(formula, deps, windowStart, range, p, from, to, t);
      NoneDerivedAt(formula, now, t);
      NoneDerivedAt(formula, OldRows(deps), t);
    } else if p <= t && SomeCutOff(now, from, t) {
      CutOffInThePatch(formula, deps, windowStart, range, p, from, to, t);
      NoneDerivedAt(formula, Queried(now, from, to), t);
    } else if p <= t {
      InsideThePatch(formula, deps, windowStart, range, p, from, to, t);
      AgreeingAt(formula, now, Queried(now, from, to), t);
    } else if windowStart <= t {
      BeforeThePatch(formula, deps, windowStart, range, p, from, to, t);
      AgreeingAt(formula, now, OldRows(deps), t);
    } else {
      NothingBelow(formula, deps, windowStart, range, p, from, to, t);
      NoneDerivedAt(formula, now, t);
    }
  }

  lemma SameSeries(a: Series, b: Series)
    requires forall t: Timestamp :: At(a, t) == At(b, t)
    ensures a == b
  {
    forall t: Timestamp ensures t in a <==> t in b { assert At(a, t) == At(b, t); }
    forall t: Timestamp | t in a ensures a[t] == b[t] { assert At(a, t) == At(b, t); }
  }

  /** No instant of the patch that has a derived value is cut off from a source. */
  ghost predicate NothingLost(formula: Formula, rows: Rows, first: int, last: int, from: int) {
    forall t: Timestamp :: first <= t <= last && SomeCutOff(rows, from, t) ==> t !in Derived(formula, rows)
  }

  /** Given a derived series that was right before the update, the incremental
      patch leaves it equal to a full recomputation over the new contents
      exactly when nothing is lost to the query's single point of context. */
  lemma PatchEqualsRecomputeExactly(formula: Formula, deps: Dependencies, windowStart: int, range: RefreshRange, p: int, from: int, to: int)
    requires Refreshable(formula, deps, windowStart, range, p, from, to) && from <= to
    ensures var now := NowRows(deps, windowStart);
            Patched(Derived(formula, OldRows(deps)), formula, now, windowStart, p, range.end, from, to) == Derived(formula, now)
            <==> NothingLost(formula, now, p, range.end, from)
  {
    hide Derived, Patched, NowRows, OldRows, SomeCutOff, Refreshable, Evaluate;
    var now := NowRows(deps, windowStart);
    var patched := Patched(Derived(formula, OldRows(deps)), formula, now, windowStart, p, range.end, from, to);
    var full := Derived(formula, now);
    forall t: Timestamp
      ensures At(patched, t) == if p <= t <= range.end && SomeCutOff(now, from, t) then None else At(full, t)
    {
      PatchEqualsAt(formula, deps, windowStart, range, p, from, to, t);
    }
    if NothingLost(formula, now, p, range.end, from) {
      SameSeries(patched, full);
    } else {
      var t: Timestamp :| p <= t <= range.end && SomeCutOff(now, from, t) && t in full;
      assert At(patched, t) != At(full, t);
    }
  }

  // ----- formulas that have a value wherever their sources do -----

  /** A continuous source has a value wherever it has a point on both sides, or at the instant. */
  ghost predicate Spans(points: seq<Point>, t: int) {
    var k := LowerBound(points, 0, t);
    k < |points| && (k > 0 || points[k].time == t)
  }

  lemma {:induction false} SpannedTermsHaveValue(bias: real, terms: seq<Term>, sources: Sources, t: Timestamp)
    requires forall i :: 0 <= i < |terms| ==> ValueOf(sources, terms[i].id, t).Some?
    ensures EvaluateTerms(bias, terms, sources, t).Computed?
    decreases |terms|
  {
    hide ValueOf, AddTerm;
    if terms != [] {
      assert forall i :: 0 <= i < |terms| - 1 ==> terms[1..][i] == terms[i + 1];
      SpannedTermsHaveValue(AddTerm(bias, terms[0], ValueOf(sources, terms[0].id, t).value), terms[1..], sources, t);
    }
  }

  lemma SpansIsValue(points: seq<NumericPoint>, t: Timestamp)
    requires StrictlyIncreasing(points)
    ensures ValueIn(Continuously(points), t).Some? <==> Spans(points, t)
  {
    hide LowerBound;
  }

  ghost predicate TotalExpression(e: Expression) {
    match e
    case Sequence(_) => true
    case Constant(_) => true
    case Binary(operation, left, right) =>
      (operation == Add || operation == Subtract || operation == Multiply)
      && left.Some? && right.Some? && TotalExpression(left.value) && TotalExpression(right.value)
  }

  /** Linear combinations, and complete expressions without division. */
  ghost predicate AlwaysDefined(formula: Formula) {
    match formula
    case Linear(_, _) => true
    case Expressed(e) => TotalExpression(e)
    case Unset => false
  }

  lemma {:induction false} TotalHasValue(e: Expression, sources: Sources, t: Timestamp)
    requires TotalExpression(e) && forall id :: Mentions(e, id) ==> ValueOf(sources, id, t).Some?
    ensures EvaluateExpression(e, sources, t).Computed?
    decreases e
  {
    hide ValueOf;
    match e
    case Sequence(id) => assert Mentions(e, id);
    case Constant(_) =>
    case Binary(_, left, right) =>
      forall id | Mentions(left.value, id) || Mentions(right.value, id) ensures ValueOf(sources, id, t).Some? { assert Mentions(e, id); }
      TotalHasValue(left.value, sources, t);
      TotalHasValue(right.value, sources, t);
  }

  /** Every source has a point on both sides of `t`, or at it. */
  ghost predicate AllSpan(rows: Rows, t: Timestamp) {
    forall id :: id in rows ==> Spans(rows[id], t)
  }

  /** Such a formula has a derived value exactly where a source has a point and all sources span it. */
  lemma {:induction false} DefinedWhereSpanned(formula: Formula, rows: Rows, t: Timestamp)
    requires AlwaysDefined(formula) && forall id :: id in rows <==> id in SourcesFor(formula)
    requires forall id :: id in rows ==> StrictlyIncreasing(rows[id])
    ensures t in Derived(formula, rows) <==> Candidate(rows, t) && AllSpan(rows, t)
  {
    hide Spans, ValueIn, Candidate, LowerBound, SourcesFor, EvaluateTerms, EvaluateExpression, TotalExpression;
    var sources := AsSources(rows);
    forall id | id in rows ensures Spans(rows[id], t) <==> ValueOf(sources, id, t).Some? { SpansIsValue(rows[id], t); }
    if AllSpan(rows, t) {
      forall id | Uses(formula, id) ensures ValueOf(sources, id, t).Some? { SourcesAreExactlyUsed(formula, id); }
      match formula
      case Linear(bias, terms) => SpannedTermsHaveValue(bias, terms, sources, t);
      case Expressed(e) => TotalHasValue(e, sources, t);
    } else {
      var id :| id in rows && !Spans(rows[id], t);
      EvaluationNeedsEverySource(formula, sources, t, id);
    }
  }

  /** All sources with a point before the range have their last one at the same
      instant, the start of the patch: then nothing is lost. */
  lemma {:induction false} CommonLastLosesNothing(formula: Formula, rows: Rows, start: int, p: int, last: int, from: int)
    requires CommonLast(rows, start) && IsPatchStart(p, rows, start) && from <= start
    requires forall id :: id in rows ==> StrictlyIncreasing(rows[id])
    ensures NothingLost(formula, rows, p, last, from)
  {
    hide Derived, LowerBound;
    forall t: Timestamp | p <= t <= last ensures !SomeCutOff(rows, from, t) {
      forall id | id in rows ensures !CutOff(rows[id], from, t) { LastBeforeGrows(rows[id], from, start); }
    }
  }

  lemma {:induction false} LastBeforeGrows(points: seq<Point>, from: int, start: int)
    requires StrictlyIncreasing(points) && from <= start
    ensures LastBefore(points, from).Some? ==> LastBefore(points, start).Some? && LastBefore(points, from).value.time <= LastBefore(points, start).value.time
  {
    LowerBoundMonotone(points, from, start);
  }

  /** A formula over one source always meets the condition. */
  lemma OneSourceHasCommonLast(rows: Rows, start: int)
    requires forall a, b :: a in rows && b in rows ==> a == b
    ensures CommonLast(rows, start)
  {
  }

  // ----- the condition is needed -----

  function Reading(t: Timestamp): NumericPoint { Point(t, Number(1.0)) }

  const EXAMPLE_TERMS := [Term("a", 1.0), Term("b", 1.0)]

  const EXAMPLE_RANGE := RefreshRange(20, 20, false)

  ghost function ExampleUpdate(): Dependencies {
    map["a" := Dependency([Reading(0), Reading(10)], [Reading(20)]), "b" := Dependency([Reading(0), Reading(5)], [])]
  }

  lemma ExampleSources(id: SequenceId)
    ensures id in ExampleUpdate() <==> id in SourcesFor(Linear(0.0, EXAMPLE_TERMS))
  {
    hide SourcesFor;
    SourcesAreExactlyUsed(Linear(0.0, EXAMPLE_TERMS), id);
    assert EXAMPLE_TERMS[0].id == "a" && EXAMPLE_TERMS[1].id == "b";
  }

  lemma ExampleRows()
    ensures NowRows(ExampleUpdate(), -100) == map["a" := [Reading(0), Reading(10), Reading(20)], "b" := [Reading(0), Reading(5)]]
    ensures forall id :: id in ExampleUpdate() ==> StrictlyIncreasing(ExampleUpdate()[id].All()) && !ExampleUpdate()[id].Evicts(-100)
  {
    hide LowerBound, Dependency.Now, StrictlyIncreasing;
    var a, b := ExampleUpdate()["a"], ExampleUpdate()["b"];
    assert a.All() == [Reading(0), Reading(10), Reading(20)] && b.All() == [Reading(0), Reading(5)];
    Ascending3(Reading(0), Reading(10), Reading(20));
    Ascending2(Reading(0), Reading(5));
    NowIsAll(a);
    NowIsAll(b);
  }

  lemma Ascending3(x: Point, y: Point, z: Point)
    requires x.time < y.time < z.time
    ensures StrictlyIncreasing([x, y, z])
  {
  }

  lemma Ascending2(x: Point, y: Point)
    requires x.time < y.time
    ensures StrictlyIncreasing([x, y])
  {
  }

  lemma {:induction false} ExampleIsRefreshable()
    ensures Refreshable(Linear(0.0, EXAMPLE_TERMS), ExampleUpdate(), -100, EXAMPLE_RANGE, 5, 20, 21)
    ensures SomeCutOff(NowRows(ExampleUpdate(), -100), 20, 5)
  {
    hide LowerBound, SourcesFor, NowRows, StrictlyIncreasing, LastBefore, Dependency.Evicts;
    var deps := ExampleUpdate();
    ExampleRows();
    LastReadings();
    forall id ensures id in deps <==> id in SourcesFor(Linear(0.0, EXAMPLE_TERMS)) { ExampleSources(id); }
    assert deps["a"].appended != [];
    var now := NowRows(deps, -100);
    assert IsPatchStart(5, now, 20) by { assert LastBefore(now["b"], 20).value.time == 5; }
    assert CutOff(now["a"], 20, 5);
  }

  /** a at 0 and 10, b at 0 and 5, then a gets a point at 20: the patch starts at
      5, where the query shows a only from 10 on, so the value at 5 is erased. */
  lemma {:induction false} IncrementalPatchLosesAValue()
    ensures var formula, deps := Linear(0.0, EXAMPLE_TERMS), ExampleUpdate();
            && Refreshable(formula, deps, -100, EXAMPLE_RANGE, 5, 20, 21)
            && 5 in Derived(formula, OldRows(deps)) && 5 in Derived(formula, NowRows(deps, -100))
            && 5 !in Patched(Derived(formula, OldRows(deps)), formula, NowRows(deps, -100), -100, 5, 20, 20, 21)
  {
    hide Derived, Patched, OldRows, NowRows, ExampleUpdate, Refreshable, SomeCutOff, At, SourcesFor, StrictlyIncreasing;
    ExampleIsRefreshable();
    ExampleRows();
    ExampleShape();
    DerivedAtFive(NowRows(ExampleUpdate(), -100));
    DerivedAtFive(OldRows(ExampleUpdate()));
    PatchEqualsAt(Linear(0.0, EXAMPLE_TERMS), ExampleUpdate(), -100, EXAMPLE_RANGE, 5, 20, 21, 5);
    NothingThere();
  }

  lemma ExampleShape()
    ensures OldRows(ExampleUpdate()) == map["a" := [Reading(0), Reading(10)], "b" := [Reading(0), Reading(5)]]
  {
  }

  lemma {:induction false} DerivedAtFive(rows: Rows)
    requires rows == map["a" := [Reading(0), Reading(10)], "b" := [Reading(0), Reading(5)]]
             || rows == map["a" := [Reading(0), Reading(10), Reading(20)], "b" := [Reading(0), Reading(5)]]
    ensures At(Derived(Linear(0.0, EXAMPLE_TERMS), rows), 5).Some? && 5 in Derived(Linear(0.0, EXAMPLE_TERMS), rows)
  {
    hide Derived, SourcesFor, Spans, Candidate, StrictlyIncreasing;
    SpannedAtFive(rows);
    forall id ensures id in rows <==> id in SourcesFor(Linear(0.0, EXAMPLE_TERMS)) { ExampleSources(id); }
    DefinedWhereSpanned(Linear(0.0, EXAMPLE_TERMS), rows, 5);
  }

  /** What the patch leaves at 5. */
  lemma NothingThere()
    requires At(Patched(Derived(Linear(0.0, EXAMPLE_TERMS), OldRows(ExampleUpdate())), Linear(0.0, EXAMPLE_TERMS),
                        NowRows(ExampleUpdate(), -100), -100, 5, 20, 20, 21), 5).None?
    ensures 5 !in Patched(Derived(Linear(0.0, EXAMPLE_TERMS), OldRows(ExampleUpdate())), Linear(0.0, EXAMPLE_TERMS),
                          NowRows(ExampleUpdate(), -100), -100, 5, 20, 20, 21)
  {
    hide Patched, Derived, OldRows, NowRows, ExampleUpdate;
  }

  lemma NowIsAll(dep: Dependency)
    requires forall i :: 0 <= i < |dep.All()| ==> dep.All()[i].time >= -100
    ensures dep.Now(-100) == dep.All()
  {
    LowerBoundIs(dep.All(), 0, -100, 0);
  }

  lemma LastReadings()
    ensures LastBefore([Reading(0), Reading(10), Reading(20)], 20) == Some(Reading(10))
    ensures LastBefore([Reading(0), Reading(5)], 20) == Some(Reading(5))
  {
    LowerBoundIs([Reading(0), Reading(10), Reading(20)], 0, 20, 2);
    LowerBoundIs([Reading(0), Reading(5)], 0, 20, 2);
  }

  lemma {:induction false} SpannedAtFive(rows: Rows)
    requires rows.Keys == {"a", "b"} && rows["b"] == [Reading(0), Reading(5)]
    requires rows["a"] == [Reading(0), Reading(10)] || rows["a"] == [Reading(0), Reading(10), Reading(20)]
    ensures Candidate(rows, 5) && forall id :: id in rows ==> Spans(rows[id], 5) && StrictlyIncreasing(rows[id])
  {
    LowerBoundIs(rows["a"], 0, 5, 1);
    LowerBoundIs(rows["b"], 0, 5, 1);
    assert HasTime(rows["b"], 5) by { assert rows["b"][1].time == 5; }
  }

  // ----- runs -----

  /** One update and the incremental refresh that follows it. */
  datatype Refresh = Refresh(deps: Dependencies, windowStart: int, range: RefreshRange, first: int, from: int, to: int)

  ghost predicate Proper(formula: Formula, r: Refresh) {
    && Refreshable(formula, r.deps, r.windowStart, r.range, r.first, r.from, r.to)
    && CommonLast(NowRows(r.deps, r.windowStart), r.range.start)
  }

  /** Each update starts from the contents the one before it left. */
  ghost predicate Chained(formula: Formula, run: seq<Refresh>) {
    && (forall i :: 0 <= i < |run| ==> Proper(formula, run[i]))
    && (forall i, j :: 0 <= i < |run| && j == i + 1 < |run| ==> OldRows(run[j].deps) == NowRows(run[i].deps, run[i].windowStart))
  }

  ghost function SeriesAfter(formula: Formula, start: Series, run: seq<Refresh>): Series
    requires forall i :: 0 <= i < |run| ==> run[i].from <= run[i].to
  {
    if run == [] then start
    else
      var r := run[|run| - 1];
      Patched(SeriesAfter(formula, start, run[..|run| - 1]), formula, NowRows(r.deps, r.windowStart), r.windowStart,
              r.first, r.range.end, r.from, r.to)
  }

  /** Over any run of such updates the incrementally patched series is always
      the full recomputation of the current contents. */
  lemma {:induction false} RunsStayRecomputed(formula: Formula, run: seq<Refresh>)
    requires run != [] && Chained(formula, run)
    ensures forall i :: 0 <= i < |run| ==> run[i].from <= run[i].to
    ensures var last := run[|run| - 1];
            SeriesAfter(formula, Derived(formula, OldRows(run[0].deps)), run) == Derived(formula, NowRows(last.deps, last.windowStart))
    decreases |run|
  {
    hide Derived, Patched, NowRows, OldRows, CommonLast, NothingLost, IsPatchStart;
    forall i | 0 <= i < |run| ensures run[i].from <= run[i].to { assert Proper(formula, run[i]); }
    var n := |run| - 1;
    var last := run[n];
    var front := run[..n];
    if n > 0 {
      assert forall i :: 0 <= i < n ==> front[i] == run[i];
      RunsStayRecomputed(formula, front);
      assert OldRows(run[n].deps) == NowRows(run[n - 1].deps, run[n - 1].windowStart);
    } else {
      assert front == [];
    }
    assert Proper(formula, last);
    NowIncreasing(last.deps, last.windowStart);
    CommonLastLosesNothing(formula, NowRows(last.deps, last.windowStart), last.range.start, last.first, last.range.end, last.from);
    PatchEqualsRecomputeExactly(formula, last.deps, last.windowStart, last.range, last.first, last.from, last.to);
  }

  lemma NowIncreasing(deps: Dependencies, windowStart: int)
    requires forall id :: id in deps ==> StrictlyIncreasing(deps[id].All())
    ensures forall id :: id in NowRows(deps, windowStart) ==> StrictlyIncreasing(NowRows(deps, windowStart)[id])
  {
    hide LowerBound;
    forall id | id in deps ensures StrictlyIncreasing(deps[id].Now(windowStart)) { SuffixIncreasing(deps[id], windowStart); }
  }
}
