/** One ingest after another: window update, recheck of the affected rules, edit
    of the cache; and what the cache is worth after each. */
module ContinuousIngests {
  import opened Timeline
  import opened SortedUnique
  import opened WindowQueries
  import opened SequenceWindows
  import opened WindowServices
  import opened WindowUpdates
  import opened ConstraintEngines
  import opened ConstraintClauses
  import ConstraintMeanings
  import opened ConstraintChecks
  import opened ContinuousConstraints
  import opened ConstraintGroups
  import opened ConstraintCaches
  import opened ConstraintSelections
  import opened DerivedRefreshes
  import opened DerivedSeriesLaws
  import opened DerivedServices

  // ----- what a group query and check establish -----

  ghost function Shown(contents: Holdings, id: SequenceId, from: int, to: int, context: nat): (r: seq<Point>)
    requires from <= to
    ensures StrictlyIncreasing(r)
  {
    WindowLaws.ExcerptIncreasing(InOrder(ContentOf(contents, id)), from, to, context, context);
    Excerpt(InOrder(ContentOf(contents, id)), from, to, context, context)
  }

  /** For one rule of a group: the found violations are those of the excerpt
      shown, from far enough back. */
  ghost predicate RuleFound(b: BoundRule, found: seq<Violation>, contents: Holdings, from: int, to: int, context: nat, first: int, last: int)
    requires from <= to
  {
    var row := Shown(contents, b.sequence, from, to, context);
    b.Sound() && Row(row) ==> FoundIn(found, b.rule, row, first, last)
  }

  ghost predicate RangeChecked(rules: seq<BoundRule>, range: AnchorRange, found: seq<Violation>, contents: Holdings, context: nat, first: int)
    requires range.start <= range.end
  {
    forall i :: 0 <= i < |rules| ==>
                  && RuleFound(rules[i], found, contents, range.start, QueryEnd(range.end), context, first, range.end)
                  && (rules[i].rule.terms != [] ==>
                        && MaximumOffset(rules[i].rule.terms) < context
                        && ReachesBack(first, Shown(contents, rules[i].sequence, range.start, QueryEnd(range.end), context), range.start,
                                       MaximumOffset(rules[i].rule.terms)))
  }

  ghost predicate FullChecked(rules: seq<BoundRule>, found: seq<Violation>, contents: Holdings, watermark: Timestamp, size: int)
    requires 0 < size <= TIMESTAMP_MAX && LiveStart(watermark, size) <= LiveEnd(watermark)
  {
    forall i :: 0 <= i < |rules| ==>
                  RuleFound(rules[i], found, contents, LiveStart(watermark, size), LiveEnd(watermark), 0, TIMESTAMP_MIN, TIMESTAMP_MAX)
  }

  ghost predicate GroupChecked(group: Group, found: seq<Violation>, contents: Holdings, watermark: Timestamp, size: int)
    requires 0 < size <= TIMESTAMP_MAX
  {
    match group.range
    case Some(range) =>
      range.start <= range.end && exists context: nat, first: int :: RangeChecked(group.rules, range, found, contents, context, first)
    case None => LiveStart(watermark, size) <= LiveEnd(watermark) && FullChecked(group.rules, found, contents, watermark, size)
  }

  method SequencesOf(rules: seq<BoundRule>) returns (ids: seq<SequenceId>, context: nat)
    requires forall i :: 0 <= i < |rules| ==> rules[i].rule.terms != []
    ensures Distinct(ids) && forall i :: 0 <= i < |rules| ==> rules[i].sequence in ids
    ensures forall id :: id in ids ==> exists i :: 0 <= i < |rules| && rules[i].sequence == id
    ensures rules != [] ==> ids != []
    ensures forall i :: 0 <= i < |rules| ==> MaximumOffset(rules[i].rule.terms) < context
  {
    hide MaximumOffset;
    ids := [];
    var maximumOffset := 0;
    for i := 0 to |rules|
      invariant Distinct(ids) && forall k :: 0 <= k < i ==> rules[k].sequence in ids
      invariant forall id :: id in ids ==> exists k :: 0 <= k < i && rules[k].sequence == id
      invariant i > 0 ==> ids != []
      invariant forall k :: 0 <= k < i ==> MaximumOffset(rules[k].rule.terms) <= maximumOffset
    {
      if rules[i].sequence !in ids { ids := ids + [rules[i].sequence]; }
      var m := LargestOffset(rules[i].rule.terms);
      if m > maximumOffset { maximumOffset := m; }
    }
    context := maximumOffset + 1;
  }

  lemma {:induction false} RowsShown(contents: Holdings, ids: seq<SequenceId>, from: int, to: int, context: nat)
    requires from <= to && Distinct(ids)
    ensures forall id :: id in Collected(contents, ids, from, to, context, context) ==> StrictlyIncreasing(Collected(contents, ids, from, to, context, context)[id])
    ensures forall id :: id in ids ==> RowIn(Collected(contents, ids, from, to, context, context), id) == Shown(contents, id, from, to, context)
  {
    hide Collected, InOrder, Excerpt, StrictlyIncreasing, Distinct;
    var values := Collected(contents, ids, from, to, context, context);
    forall id | id in ids ensures RowIn(values, id) == Shown(contents, id, from, to, context) { AnswerRow(contents, ids, id, from, to, context); }
    forall id | id in values ensures StrictlyIncreasing(values[id]) {
      CollectedOnly(contents, ids, id, from, to, context);
      assert RowIn(values, id) == Shown(contents, id, from, to, context);
    }
  }

  lemma {:induction false} CollectedOnly(contents: Holdings, ids: seq<SequenceId>, id: SequenceId, from: int, to: int, context: nat)
    requires from <= to
    ensures id in Collected(contents, ids, from, to, context, context) ==> id in ids
    decreases |ids|
  {
    hide InOrder, Excerpt;
    if ids != [] { CollectedOnly(contents, ids[..|ids| - 1], id, from, to, context); }
  }

  lemma SoundTerms(rules: seq<BoundRule>)
    requires AllSound(rules)
    ensures forall i :: 0 <= i < |rules| ==> rules[i].rule.terms != []
  {
  }

  /** All live values the group's rules read are numbers. */
  ghost predicate ReadableRules(rules: seq<BoundRule>, contents: Holdings) {
    forall i :: 0 <= i < |rules| ==> Readable(ContentOf(contents, rules[i].sequence))
  }

  lemma NoneBlank(rules: seq<BoundRule>, ids: seq<SequenceId>)
    requires AllSound(rules) && forall id :: id in ids ==> exists i :: 0 <= i < |rules| && rules[i].sequence == id
    ensures "" !in ids
  {
    hide ValidSample;
  }

  /** A query over named sequences is answered once there is a watermark. */
  lemma {:induction false} QueryAnswers(contents: Holdings, watermark: Option<Timestamp>, size: int, ids: seq<SequenceId>,
                                        start: Option<Timestamp>, end: Option<Timestamp>, context: nat, answer: QueryAnswer)
    requires 0 < size <= TIMESTAMP_MAX && start.Some? == end.Some? && (start.Some? ==> start.value <= end.value)
    requires answer == QueryMeaning(contents, watermark, size, ids, start, end, context, context, false)
    requires ids != [] && "" !in ids
    ensures answer.Rows? <==> watermark.Some?
    ensures answer.Rows? ==> answer.start <= answer.end
  {
    hide Collected, RowCount;
    if watermark.Some? { LiveOrder(watermark.value, size); }
  }

  lemma {:induction false} ExcerptIsRow(contents: Holdings, id: SequenceId, from: int, to: int, context: nat)
    requires from <= to && Readable(ContentOf(contents, id))
    ensures Row(Shown(contents, id, from, to, context))
  {
    hide InOrder, Readable, StrictlyIncreasing, LowerBound;
    var all := InOrder(ContentOf(contents, id));
    ReadableInOrder(ContentOf(contents, id));
    LowerBoundMonotone(all, from, to);
  }

  lemma {:induction false} GroupCanBeChecked(rules: seq<BoundRule>, contents: Holdings, watermark: Option<Timestamp>, size: int, ids: seq<SequenceId>,
                                             start: Option<Timestamp>, end: Option<Timestamp>, context: nat, answer: QueryAnswer, range: Option<CheckRange>)
    requires 0 < size <= TIMESTAMP_MAX && Distinct(ids) && start.Some? == end.Some? && (start.Some? ==> start.value <= end.value)
    requires answer == QueryMeaning(contents, watermark, size, ids, start, end, context, context, false) && answer.Rows? && answer.start <= answer.end
    requires AllSound(rules) && ReadableRules(rules, contents) && forall i :: 0 <= i < |rules| ==> rules[i].sequence in ids
    ensures forall i :: 0 <= i < |rules| && rules[i].sequence in answer.values ==> HasOutcome(rules[i], answer.values, answer.start, answer.end, range)
  {
    hide Collected, RowCount, Shown, Readable, BoundRule.Sound, HasOutcome, Row, Distinct;
    QueryRows(contents, watermark, size, ids, start, end, context, answer);
    LiveOrder(watermark.value, size);
    var from := if start.Some? then start.value else LiveStart(watermark.value, size);
    var to := if end.Some? then end.value else LiveEnd(watermark.value);
    RowsShown(contents, ids, from, to, context);
    forall i | 0 <= i < |rules| && rules[i].sequence in answer.values
      ensures HasOutcome(rules[i], answer.values, answer.start, answer.end, range)
    {
      ExcerptIsRow(contents, rules[i].sequence, from, to, context);
      assert RowIn(answer.values, rules[i].sequence) == Shown(contents, rules[i].sequence, from, to, context);
      RowHasOutcome(rules[i], answer.values, answer.start, answer.end, range);
    }
  }

  /** Query around the range with enough context, or the default window; then
      check the group on what came back. With a watermark and readable values
      it always succeeds. */
  method RunGroup(service: WindowService, group: Group) returns (ok: bool, found: seq<Violation>)
    requires service.Valid() && AllSound(group.rules) && Unmixed(group.rules) && group.rules != []
    requires group.range.Some? ==> group.range.value.start <= group.range.value.end
    ensures ok ==> service.watermark.Some? && GroupChecked(group, found, service.Contents(), service.watermark.value, service.windowSize)
    ensures service.watermark.Some? && ReadableRules(group.rules, service.Contents()) ==> ok
  {
    hide *;
    SoundTerms(group.rules);
    var ids, context := SequencesOf(group.rules);
    NoneBlank(group.rules, ids);
    ValidService(service);
    ghost var contents := service.Contents();
    var answer, start, end, reach := InvalidQuery, None, None, 0;
    if group.range.Some? {
      var range := group.range.value;
      start, end, reach := Some(range.start), Some(QueryEnd(range.end)), context;
    }
    answer := service.QueryWindow(ids, start, end, reach, reach, false);
    QueryRows(contents, service.watermark, service.windowSize, ids, start, end, reach, answer);
    QueryAnswers(contents, service.watermark, service.windowSize, ids, start, end, reach, answer);
    if !answer.Rows? { return false, []; }
    var checked, violations, first := CheckGroup(group.rules, answer.values, answer.start, answer.end, group.range);
    if ReadableRules(group.rules, contents) {
      GroupCanBeChecked(group.rules, contents, service.watermark, service.windowSize, ids, start, end, reach, answer, CheckedRange(group.range, first));
    }
    if !checked { return false, []; }
    ok, found := true, violations;
    GroupIsChecked(group, found, service.Contents(), service.watermark.value, service.windowSize, ids, context, answer.values, first);
  }

  lemma {:induction false} QueryRows(contents: Holdings, watermark: Option<Timestamp>, size: int, ids: seq<SequenceId>,
                  start: Option<Timestamp>, end: Option<Timestamp>, context: nat, answer: QueryAnswer)
    requires 0 < size <= TIMESTAMP_MAX && Distinct(ids) && start.Some? == end.Some? && (start.Some? ==> start.value <= end.value)
    requires answer == QueryMeaning(contents, watermark, size, ids, start, end, context, context, false)
    ensures answer.Rows? ==>
              && watermark.Some?
              && (start.Some? ==> answer.values == Collected(contents, ids, start.value, end.value, context, context))
              && (start.None? ==> LiveStart(watermark.value, size) <= LiveEnd(watermark.value)
                                  && answer.values == Collected(contents, ids, LiveStart(watermark.value, size), LiveEnd(watermark.value), context, context))
              && forall id :: id in answer.values ==> StrictlyIncreasing(answer.values[id])
  {
    hide Collected, RowCount, StrictlyIncreasing, Distinct;
    if answer.Rows? {
      var from := if start.Some? then start.value else LiveStart(watermark.value, size);
      var to := if end.Some? then end.value else LiveEnd(watermark.value);
      LiveOrder(watermark.value, size);
      RowsShown(contents, ids, from, to, context);
    }
  }

  lemma {:induction false} GroupIsChecked(group: Group, found: seq<Violation>, contents: Holdings, watermark: Timestamp, size: int, ids: seq<SequenceId>,
                       context: nat, values: map<SequenceId, seq<Point>>, first: int)
    requires 0 < size <= TIMESTAMP_MAX && Distinct(ids) && (forall i :: 0 <= i < |group.rules| ==> group.rules[i].sequence in ids)
    requires forall i :: 0 <= i < |group.rules| ==> group.rules[i].rule.terms != [] && MaximumOffset(group.rules[i].rule.terms) < context
    requires match group.range
             case Some(range) =>
               && range.start <= range.end
               && values == Collected(contents, ids, range.start, QueryEnd(range.end), context, context)
               && GroupFinds(found, group.rules, values, first, range.end) && GroupReaches(group.rules, values, first, range.start)
             case None =>
               && LiveStart(watermark, size) <= LiveEnd(watermark)
               && values == Collected(contents, ids, LiveStart(watermark, size), LiveEnd(watermark), 0, 0)
               && GroupFinds(found, group.rules, values, TIMESTAMP_MIN, TIMESTAMP_MAX)
    ensures GroupChecked(group, found, contents, watermark, size)
  {
    hide Collected, FoundIn, Row, ReachesBack, MaximumOffset, BoundRule.Sound, Shown, StrictlyIncreasing, Distinct;
    match group.range
    case Some(range) =>
      RowsShown(contents, ids, range.start, QueryEnd(range.end), context);
      assert RangeChecked(group.rules, range, found, contents, context, first);
    case None =>
      RowsShown(contents, ids, LiveStart(watermark, size), LiveEnd(watermark), 0);
  }

  // ----- one rule through one ingest -----

  ghost predicate RuleRight(b: BoundRule, contents: Holdings, states: RuleStates, windowStart: int) {
    && b.Sound() && Readable(ContentOf(contents, b.sequence))
    && Row(RowOf(ContentOf(contents, b.sequence)))
    && CacheRight(b.rule, RowOf(ContentOf(contents, b.sequence)), StateOf(states, b.rule.id).violations, windowStart)
  }

  lemma RowOfIsRow(m: Series)
    requires Readable(m)
    ensures Row(RowOf(m))
  {
    hide InOrder, AsMap;
  }

  lemma {:induction false} SequenceAppended(before: Holdings, after: Holdings, latest: LatestTimes, batch: seq<RawPoint>, w: Timestamp,
                         safe: map<SequenceId, bool>, evicted: seq<SequenceId>, update: WindowUpdate, r: DerivedPatches.RefreshRange, id: SequenceId)
    requires Accounts(before, after, latest, batch, w, safe, evicted, update) && IsRange(r, update, [id])
    requires Readable(ContentOf(before, id)) && ReadableBatch(batch)
    ensures Readable(ContentOf(after, id))
    ensures var dep := DerivedPatches.Dependency(RowOf(ContentOf(before, id)), Share(batch, id));
            && dep.appended != [] && StrictlyIncreasing(dep.All()) && dep.Now(w) == RowOf(ContentOf(after, id))
            && forall i :: 0 <= i < |dep.appended| ==> r.start <= dep.appended[i].time <= r.end
  {
    hide Accounts, Readable, ReadableBatch, RowOf, Share, StrictlyIncreasing, DerivedPatches.Dependency.Now, DerivedPatches.Dependency.All;
    var ids := [id];
    assert AllReadable(before, ids);
    UpdatedRow(before, after, latest, batch, w, safe, evicted, update, ids, r, id);
    DependencyFacts(before, after, latest, batch, w, safe, evicted, update, ids, r, id);
    OnlyChanged(r, update, id);
  }

  lemma OnlyChanged(r: DerivedPatches.RefreshRange, update: WindowUpdate, id: SequenceId)
    requires IsRange(r, update, [id])
    ensures id in update.changed
  {
    hide Ready;
    var other :| ChangedIn(update, [id], other);
  }

  /** The batch appended to this rule's sequence, inside the group's range. */
  lemma BatchAppends(before: Holdings, after: Holdings, latest: LatestTimes, batch: seq<RawPoint>, w: Timestamp,
                     safe: map<SequenceId, bool>, evicted: seq<SequenceId>, update: WindowUpdate, range: AnchorRange, b: BoundRule)
    requires Accounts(before, after, latest, batch, w, safe, evicted, update) && CoversRule(range, update, b)
    requires Readable(ContentOf(before, b.sequence)) && ReadableBatch(batch)
    ensures Readable(ContentOf(after, b.sequence))
    ensures Appended(RowOf(ContentOf(before, b.sequence)), RowOf(ContentOf(after, b.sequence)), w, range)
  {
    hide Accounts, Readable, IsRange, ReadableBatch, RowOf, Share, StrictlyIncreasing, Appended, DerivedPatches.Dependency.Now, DerivedPatches.Dependency.All;
    var r: DerivedPatches.RefreshRange :| IsRange(r, update, [b.sequence]) && range.start <= r.start && r.end <= range.end;
    SequenceAppended(before, after, latest, batch, w, safe, evicted, update, r, b.sequence);
    var dep := DerivedPatches.Dependency(RowOf(ContentOf(before, b.sequence)), Share(batch, b.sequence));
    AppendedIs(dep, dep.appended, RowOf(ContentOf(after, b.sequence)), w, range);
  }

  lemma AppendedIs(dep: DerivedPatches.Dependency, more: seq<Point>, after: seq<Point>, w: int, range: AnchorRange)
    requires more == dep.appended != [] && StrictlyIncreasing(dep.All()) && after == dep.Now(w)
    requires forall i :: 0 <= i < |more| ==> range.start <= more[i].time <= range.end
    ensures Appended(dep.held, after, w, range)
  {
    hide LowerBound, StrictlyIncreasing;
    assert dep.held + more == dep.All();
  }

  lemma {:induction false} IncrementalRule(before: Holdings, after: Holdings, latest: LatestTimes, batch: seq<RawPoint>, w: Timestamp,
                        safe: map<SequenceId, bool>, evicted: seq<SequenceId>, update: WindowUpdate, range: AnchorRange, b: BoundRule,
                        rules: seq<BoundRule>, i: nat, found: seq<Violation>, context: nat, first: int,
                        states: RuleStates, next: RuleStates, windowBefore: int)
    requires Accounts(before, after, latest, batch, w, safe, evicted, update) && CoversRule(range, update, b) && ReadableBatch(batch)
    requires RuleRight(b, before, states, windowBefore) && windowBefore <= w
    requires range.start <= range.end && i < |rules| && rules[i] == b && RangeChecked(rules, range, found, after, context, first)
    requires StateOf(next, b.rule.id).violations == Edited(StateOf(states, b.rule.id).violations, Some(range), w, found, b.rule.id)
    ensures RuleRight(b, after, next, w)
  {
    hide *;
    BatchAppendsRight(before, after, latest, batch, w, safe, evicted, update, range, b, states, windowBefore);
    var row := RowOf(ContentOf(after, b.sequence));
    RowOfIsRow(ContentOf(after, b.sequence));
    CheckedRule(rules, range, found, after, context, first, i);
    RowIsOrder(ContentOf(after, b.sequence));
    ContextShowsEnough(row, range, QueryEnd(range.end), context, MaximumOffset(b.rule.terms));
    var lo, hi := Max(LowerBound(row, 0, range.start) - context, 0), Min(LowerBound(row, 0, QueryEnd(range.end)) + context, |row|);
    SliceIsRow(row, lo, hi);
    FoundInSlice(b, found, after, range, context, first, lo, hi);
    IncrementalEditKeeps(b.rule, RowOf(ContentOf(before, b.sequence)), row, StateOf(states, b.rule.id).violations, windowBefore, w, range, first, lo, hi, found);
    MakeRight(b, after, next, w);
  }

  lemma BatchAppendsRight(before: Holdings, after: Holdings, latest: LatestTimes, batch: seq<RawPoint>, w: Timestamp,
                          safe: map<SequenceId, bool>, evicted: seq<SequenceId>, update: WindowUpdate, range: AnchorRange, b: BoundRule,
                          states: RuleStates, windowBefore: int)
    requires Accounts(before, after, latest, batch, w, safe, evicted, update) && CoversRule(range, update, b) && ReadableBatch(batch)
    requires RuleRight(b, before, states, windowBefore)
    ensures b.Sound() && ValidSample(b.rule) && b.rule.terms != []
    ensures Readable(ContentOf(before, b.sequence)) && Row(RowOf(ContentOf(before, b.sequence)))
    ensures CacheRight(b.rule, RowOf(ContentOf(before, b.sequence)), StateOf(states, b.rule.id).violations, windowBefore)
    ensures Readable(ContentOf(after, b.sequence))
    ensures Appended(RowOf(ContentOf(before, b.sequence)), RowOf(ContentOf(after, b.sequence)), w, range)
  {
    hide Accounts, CoversRule, ReadableBatch, Appended, CacheRight, Readable, RowOf;
    BatchAppends(before, after, latest, batch, w, safe, evicted, update, range, b);
  }

  lemma CheckedRule(rules: seq<BoundRule>, range: AnchorRange, found: seq<Violation>, contents: Holdings, context: nat, first: int, i: nat)
    requires range.start <= range.end && i < |rules| && RangeChecked(rules, range, found, contents, context, first) && rules[i].rule.terms != []
    ensures RuleFound(rules[i], found, contents, range.start, QueryEnd(range.end), context, first, range.end)
    ensures MaximumOffset(rules[i].rule.terms) < context
    ensures ReachesBack(first, Shown(contents, rules[i].sequence, range.start, QueryEnd(range.end), context), range.start, MaximumOffset(rules[i].rule.terms))
  {
    hide RuleFound, ReachesBack, Shown, MaximumOffset;
  }

  lemma RowIsOrder(m: Series)
    requires Readable(m)
    ensures RowOf(m) == InOrder(m) && StrictlyIncreasing(RowOf(m))
  {
    hide InOrder, AsMap;
  }

  lemma FoundInSlice(b: BoundRule, found: seq<Violation>, contents: Holdings, range: AnchorRange, context: nat, first: int, lo: int, hi: int)
    requires range.start <= range.end && b.Sound() && ValidSample(b.rule) && Readable(ContentOf(contents, b.sequence))
    requires RuleFound(b, found, contents, range.start, QueryEnd(range.end), context, first, range.end)
    requires ReachesBack(first, Shown(contents, b.sequence, range.start, QueryEnd(range.end), context), range.start, MaximumOffset(b.rule.terms))
    requires 0 <= lo <= hi <= |RowOf(ContentOf(contents, b.sequence))|
    requires Excerpt(RowOf(ContentOf(contents, b.sequence)), range.start, QueryEnd(range.end), context, context) == RowOf(ContentOf(contents, b.sequence))[lo..hi]
    requires Row(RowOf(ContentOf(contents, b.sequence))[lo..hi])
    ensures FoundIn(found, b.rule, RowOf(ContentOf(contents, b.sequence))[lo..hi], first, range.end)
    ensures ReachesBack(first, RowOf(ContentOf(contents, b.sequence))[lo..hi], range.start, MaximumOffset(b.rule.terms))
  {
    hide FoundIn, ReachesBack, MaximumOffset, Row, BoundRule.Sound, ValidSample, Readable, InOrder, Excerpt;
  }

  lemma MakeRight(b: BoundRule, contents: Holdings, states: RuleStates, windowStart: int)
    requires b.Sound() && Readable(ContentOf(contents, b.sequence)) && ValidSample(b.rule) && Row(RowOf(ContentOf(contents, b.sequence)))
    requires CacheRight(b.rule, RowOf(ContentOf(contents, b.sequence)), StateOf(states, b.rule.id).violations, windowStart)
    ensures RuleRight(b, contents, states, windowStart)
  {
    hide CacheRight, Row, Readable, RowOf;
  }

  /** Every live point is at or before the watermark. */
  ghost predicate WatermarkCovers(contents: Holdings, watermark: Option<Timestamp>) {
    forall id, t :: id in contents && t in contents[id] ==> watermark.Some? && t <= watermark.value
  }

  /** A full recheck reads the default window, which holds everything after the
      window start. */
  lemma FullRule(contents: Holdings, watermark: Timestamp, size: int, b: BoundRule, rules: seq<BoundRule>, i: nat, found: seq<Violation>,
                 states: RuleStates, next: RuleStates)
    requires 0 < size <= TIMESTAMP_MAX && watermark < TIMESTAMP_MAX && WatermarkCovers(contents, Some(watermark))
    requires b.Sound() && Readable(ContentOf(contents, b.sequence))
    requires LiveStart(watermark, size) <= LiveEnd(watermark) && i < |rules| && rules[i] == b && FullChecked(rules, found, contents, watermark, size)
    requires StateOf(next, b.rule.id).violations == Edited(StateOf(states, b.rule.id).violations, None, WindowStart(watermark, size), found, b.rule.id)
    ensures RuleRight(b, contents, next, WindowStart(watermark, size))
  {
    hide FullChecked, RowOf, Readable, Edited, StateOf, CacheRight, WatermarkCovers, InOrder, LowerBound, FoundIn, ValidSample, MaximumOffset;
    var row := RowOf(ContentOf(contents, b.sequence));
    RowOfIsRow(ContentOf(contents, b.sequence));
    RowIsOrder(ContentOf(contents, b.sequence));
    RowBelow(contents, b.sequence, watermark);
    var lo := LowerBound(row, 0, LiveStart(watermark, size));
    DefaultSuffix(row, watermark, size);
    SliceIsRow(row, lo, |row|);
    assert row[lo..|row|] == row[lo..];
    FullyFound(rules, found, contents, watermark, size, i);
    FullEditKeeps(b.rule, row, StateOf(states, b.rule.id).violations, WindowStart(watermark, size), lo, found);
    MakeRight(b, contents, next, WindowStart(watermark, size));
  }

  lemma RowBelow(contents: Holdings, id: SequenceId, watermark: Timestamp)
    requires WatermarkCovers(contents, Some(watermark)) && Readable(ContentOf(contents, id))
    ensures forall i :: 0 <= i < |RowOf(ContentOf(contents, id))| ==> RowOf(ContentOf(contents, id))[i].time <= watermark
  {
    hide InOrder, AsMap, Readable;
    var row := RowOf(ContentOf(contents, id));
    forall i | 0 <= i < |row| ensures row[i].time <= watermark { AsMapOfPoint(row, i); }
  }

  lemma {:induction false} DefaultSuffix(row: seq<Point>, watermark: Timestamp, size: int)
    requires StrictlyIncreasing(row) && 0 < size <= TIMESTAMP_MAX && watermark < TIMESTAMP_MAX
    requires forall i :: 0 <= i < |row| ==> row[i].time <= watermark
    ensures LiveStart(watermark, size) <= LiveEnd(watermark)
    ensures var lo := LowerBound(row, 0, LiveStart(watermark, size));
            && Excerpt(row, LiveStart(watermark, size), LiveEnd(watermark), 0, 0) == row[lo..]
            && forall i :: 0 <= i < lo ==> row[i].time <= WindowStart(watermark, size)
  {
    hide LowerBound, StrictlyIncreasing;
    LowerBoundIs(row, 0, LiveEnd(watermark), |row|);
    LowerBoundMonotone(row, LiveStart(watermark, size), LiveEnd(watermark));
    assert row[LowerBound(row, 0, LiveStart(watermark, size))..|row|] == row[LowerBound(row, 0, LiveStart(watermark, size))..];
  }

  lemma FullyFound(rules: seq<BoundRule>, found: seq<Violation>, contents: Holdings, watermark: Timestamp, size: int, i: nat)
    requires 0 < size <= TIMESTAMP_MAX && LiveStart(watermark, size) <= LiveEnd(watermark)
    requires i < |rules| && FullChecked(rules, found, contents, watermark, size)
    ensures RuleFound(rules[i], found, contents, LiveStart(watermark, size), LiveEnd(watermark), 0, TIMESTAMP_MIN, TIMESTAMP_MAX)
  {
    hide RuleFound;
  }

  /** A rule whose sequence the batch left alone. */
  lemma UntouchedRule(before: Holdings, after: Holdings, latest: LatestTimes, batch: seq<RawPoint>, w: Timestamp,
                      safe: map<SequenceId, bool>, evicted: seq<SequenceId>, update: WindowUpdate, b: BoundRule,
                      states: RuleStates, next: RuleStates, windowBefore: int)
    requires Accounts(before, after, latest, batch, w, safe, evicted, update) && RuleRight(b, before, states, windowBefore) && windowBefore <= w
    requires b.sequence !in update.changed && StateOf(next, b.rule.id) == StateOf(states, b.rule.id)
    ensures RuleRight(b, after, next, w)
  {
    hide Describes, BatchMatches, EvictionMatches, SafetyMatches, LatestBounds, CacheRight, Readable, Row, RowOf, StateOf, BoundRule.Sound, ValidSample;
    assert Describes(update, batch, safe, evicted, b.sequence);
    assert !ChangedIn(update, [b.sequence], b.sequence);
    UntouchedSource(before, after, batch, w, safe, evicted, update, [b.sequence], b.sequence);
    SoundIs(b);
    UntouchedKeeps(b.rule, RowOf(ContentOf(before, b.sequence)), StateOf(states, b.rule.id).violations, windowBefore, w);
  }

  // ----- one ingest -----

  ghost predicate AllRight(rules: seq<BoundRule>, contents: Holdings, states: RuleStates, windowStart: int) {
    forall i :: 0 <= i < |rules| ==> RuleRight(rules[i], contents, states, windowStart)
  }

  ghost predicate NoLaterGeneration(states: RuleStates, generation: nat) {
    forall id :: id in states ==> states[id].generation <= generation
  }

  lemma WatermarkStaysOnTop(before: Holdings, after: Holdings, latest: LatestTimes, batch: seq<RawPoint>, w: Timestamp,
                            safe: map<SequenceId, bool>, evicted: seq<SequenceId>, update: WindowUpdate, was: Option<Timestamp>, watermark: Timestamp)
    requires Accounts(before, after, latest, batch, w, safe, evicted, update)
    requires WatermarkCovers(before, was) && IsMaximum(watermark, was, batch)
    ensures WatermarkCovers(after, Some(watermark))
  {
    hide AsMap, Describes, LatestBounds, SafetyMatches, EvictionMatches, BatchMatches, PointsOf;
    forall id, t | id in after && t in after[id] ensures t <= watermark {
      ContentIs(before, after, batch, w, id);
      assert t in ContentOf(before, id) || t in AsMap(PointsOf(batch, id));
      if t in AsMap(PointsOf(batch, id)) { PointTime(batch, id, t); }
    }
  }

  lemma {:induction false} PointTime(batch: seq<RawPoint>, id: SequenceId, t: Timestamp)
    requires t in AsMap(PointsOf(batch, id))
    ensures exists i :: 0 <= i < |batch| && batch[i].time == t
    decreases |batch|
  {
    if batch == [] {
      AsMapNil(PointsOf(batch, id));
    } else {
      var front, last := batch[..|batch| - 1], batch[|batch| - 1];
      PointsSplit(batch, id);
      if t in AsMap(PointsOf(front, id)) {
        PointTime(front, id, t);
        var i :| 0 <= i < |front| && front[i].time == t;
        assert batch[i].time == t;
      } else {
        WriteLast(PointsOf(front, id), Point(last.time, last.value));
        assert batch[|batch| - 1].time == t;
      }
    }
  }

  /** Whatever group a rule is in, or none, its cache is right afterwards. */
  lemma RuleStaysRight(before: Holdings, after: Holdings, latest: LatestTimes, batch: seq<RawPoint>, watermark: Timestamp, size: int,
                       safe: map<SequenceId, bool>, evicted: seq<SequenceId>, update: WindowUpdate, b: BoundRule,
                       selected: seq<BoundRule>, groups: seq<Group>, founds: seq<seq<Violation>>, states: RuleStates, generation: nat, windowBefore: int)
    requires 0 < size <= TIMESTAMP_MAX && watermark < TIMESTAMP_MAX
    requires Accounts(before, after, latest, batch, WindowStart(watermark, size), safe, evicted, update) && ReadableBatch(batch)
    requires RuleRight(b, before, states, windowBefore) && windowBefore <= WindowStart(watermark, size)
    requires WatermarkCovers(after, Some(watermark)) && NoLaterGeneration(states, generation)
    requires |groups| == |founds| && AllSound(Flat(groups)) && (forall x :: x in Flat(groups) <==> x in selected)
    requires b.sequence in update.changed ==> b in selected
    requires b !in selected ==> !HasId(selected, b.rule.id)
    requires forall g :: 0 <= g < |groups| ==> GroupFits(groups[g], update) && GroupChecked(groups[g], founds[g], after, watermark, size)
    ensures RuleRight(b, after, AfterGroups(states, groups, founds, WindowStart(watermark, size), generation), WindowStart(watermark, size))
  {
    hide *;
    var w := WindowStart(watermark, size);
    var next := AfterGroups(states, groups, founds, w, generation);
    AfterGroupsAt(states, groups, founds, w, generation, b.rule.id);
    FlatMember(groups, b);
    if b in Flat(groups) {
      var g :| 0 <= g < |groups| && b in groups[g].rules;
      MemberHasId(groups[g].rules, b);
      NotStale(states, b.rule.id, generation, groups[g].range, w, founds[g]);
      GroupedRule(before, after, latest, batch, watermark, size, safe, evicted, update, b, groups[g], founds[g], states, next, windowBefore);
    } else {
      SameIds(Flat(groups), selected, b.rule.id);
      UntouchedRule(before, after, latest, batch, w, safe, evicted, update, b, states, next, windowBefore);
    }
  }

  lemma MemberHasId(rules: seq<BoundRule>, b: BoundRule)
    requires b in rules
    ensures HasId(rules, b.rule.id)
  {
  }

  lemma SameIds(a: seq<BoundRule>, b: seq<BoundRule>, id: string)
    requires forall x :: x in a <==> x in b
    ensures HasId(a, id) <==> HasId(b, id)
  {
    if i :| 0 <= i < |a| && a[i].rule.id == id { assert a[i] in b; }
    if i :| 0 <= i < |b| && b[i].rule.id == id { assert b[i] in a; }
  }

  lemma NotStale(states: RuleStates, id: string, generation: nat, range: Option<AnchorRange>, w: int, found: seq<Violation>)
    requires NoLaterGeneration(states, generation)
    ensures NextState(StateOf(states, id), range, w, found, id, generation).violations == Edited(StateOf(states, id).violations, range, w, found, id)
  {
    hide Edited;
  }

  lemma GroupedRule(before: Holdings, after: Holdings, latest: LatestTimes, batch: seq<RawPoint>, watermark: Timestamp, size: int,
                    safe: map<SequenceId, bool>, evicted: seq<SequenceId>, update: WindowUpdate, b: BoundRule,
                    group: Group, found: seq<Violation>, states: RuleStates, next: RuleStates, windowBefore: int)
    requires 0 < size <= TIMESTAMP_MAX && watermark < TIMESTAMP_MAX
    requires Accounts(before, after, latest, batch, WindowStart(watermark, size), safe, evicted, update) && ReadableBatch(batch)
    requires RuleRight(b, before, states, windowBefore) && windowBefore <= WindowStart(watermark, size)
    requires WatermarkCovers(after, Some(watermark))
    requires b in group.rules && GroupFits(group, update) && GroupChecked(group, found, after, watermark, size)
    requires StateOf(next, b.rule.id).violations == Edited(StateOf(states, b.rule.id).violations, group.range, WindowStart(watermark, size), found, b.rule.id)
    ensures RuleRight(b, after, next, WindowStart(watermark, size))
  {
    hide Accounts, ReadableBatch, RuleRight, WatermarkCovers, RangeChecked, FullChecked, Edited, StateOf, CoversRule, WindowStart, LiveStart, LiveEnd;
    var i :| 0 <= i < |group.rules| && group.rules[i] == b;
    match group.range
    case Some(range) =>
      var context: nat, first: int :| RangeChecked(group.rules, range, found, after, context, first);
      IncrementalRule(before, after, latest, batch, WindowStart(watermark, size), safe, evicted, update, range, b, group.rules, i,
                      found, context, first, states, next, windowBefore);
    case None =>
      AfterReadable(before, after, latest, batch, WindowStart(watermark, size), safe, evicted, update, b, states, windowBefore);
      FullRule(after, watermark, size, b, group.rules, i, found, states, next);
  }

  lemma AfterReadable(before: Holdings, after: Holdings, latest: LatestTimes, batch: seq<RawPoint>, w: Timestamp,
                      safe: map<SequenceId, bool>, evicted: seq<SequenceId>, update: WindowUpdate, b: BoundRule, states: RuleStates, windowBefore: int)
    requires Accounts(before, after, latest, batch, w, safe, evicted, update) && ReadableBatch(batch) && RuleRight(b, before, states, windowBefore)
    ensures b.Sound() && Readable(ContentOf(after, b.sequence))
  {
    hide AsMap, Describes, LatestBounds, SafetyMatches, EvictionMatches, BatchMatches, PointsOf, CacheRight, Row, RowOf, BoundRule.Sound;
    ContentIs(before, after, batch, w, b.sequence);
    BatchReadable(batch, b.sequence);
  }

  datatype IngestOutcome = NotAccepted | GroupFailed | Rechecked

  /** What has to hold before an ingest, and holds again after it. */
  ghost predicate Prepared(rules: seq<BoundRule>, contents: Holdings, watermark: Option<Timestamp>, size: int, generation: nat, states: RuleStates)
    requires 0 < size <= TIMESTAMP_MAX
  {
    AllRight(rules, contents, states, WindowBound(watermark, size)) && WatermarkCovers(contents, watermark) && NoLaterGeneration(states, generation)
  }

  /** The watermark will be the maximum time seen, and not the last timestamp there is. */
  ghost predicate Ordinary(watermark: Option<Timestamp>, batch: seq<RawPoint>) {
    && ReadableBatch(batch)
    && (batch != [] ==>
          && (watermark.Some? || forall i :: 0 <= i < |batch| ==> batch[i].time <= batch[|batch| - 1].time)
          && NextWatermark(watermark, batch) < TIMESTAMP_MAX)
  }

  ghost predicate Runnable(group: Group) {
    && AllSound(group.rules) && Unmixed(group.rules) && group.rules != []
    && (group.range.Some? ==> group.range.value.start <= group.range.value.end)
  }

  ghost predicate GroupDone(group: Group, found: seq<Violation>, contents: Holdings, watermark: Option<Timestamp>, size: int)
    requires 0 < size <= TIMESTAMP_MAX
  {
    watermark.Some? && GroupChecked(group, found, contents, watermark.value, size)
  }

  lemma GroupsDone(groups: seq<Group>, founds: seq<seq<Violation>>, contents: Holdings, watermark: Timestamp, size: int)
    requires 0 < size <= TIMESTAMP_MAX && |groups| == |founds|
    requires forall g :: 0 <= g < |groups| ==> GroupDone(groups[g], founds[g], contents, Some(watermark), size)
    ensures forall g :: 0 <= g < |groups| ==> GroupChecked(groups[g], founds[g], contents, watermark, size)
  {
    hide GroupChecked;
    forall g | 0 <= g < |groups| ensures GroupChecked(groups[g], founds[g], contents, watermark, size) {
      assert GroupDone(groups[g], founds[g], contents, Some(watermark), size);
    }
  }

  method RunGroups(service: WindowService, groups: seq<Group>) returns (ok: bool, founds: seq<seq<Violation>>)
    requires service.Valid() && forall g :: 0 <= g < |groups| ==> Runnable(groups[g])
    ensures ok ==> |founds| == |groups|
    ensures ok ==> forall g :: 0 <= g < |groups| ==> GroupDone(groups[g], founds[g], service.Contents(), service.watermark, service.windowSize)
    ensures service.watermark.Some? && (forall g :: 0 <= g < |groups| ==> ReadableRules(groups[g].rules, service.Contents())) ==> ok
  {
    hide WindowService.Valid, WindowService.Contents, AllSound, GroupChecked, ReadableRules;
    founds := [];
    for g := 0 to |groups|
      invariant |founds| == g
      invariant forall k :: 0 <= k < g ==> GroupDone(groups[k], founds[k], service.Contents(), service.watermark, service.windowSize)
    {
      assert Runnable(groups[g]);
      var one, found := RunGroup(service, groups[g]);
      if !one { return false, []; }
      founds := founds + [found];
    }
    ok := true;
  }

  lemma GroupsRunnable(groups: seq<Group>, selected: seq<BoundRule>, rules: seq<BoundRule>, update: WindowUpdate,
                       batch: seq<RawPoint>, safe: map<SequenceId, bool>, evicted: seq<SequenceId>, w: Timestamp)
    requires AllSound(rules) && Part(selected, rules) && Part(Flat(groups), selected)
    requires forall g :: 0 <= g < |groups| ==> GroupFits(groups[g], update)
    requires (forall id :: Describes(update, batch, safe, evicted, id)) && forall id :: id in safe <==> PointsOf(batch, id) != []
    ensures AllSound(Flat(groups)) && forall g :: 0 <= g < |groups| ==> Runnable(groups[g])
  {
    hide Part, AllSound, Describes, PointsOf, CoversRule, Unmixed;
    PartSound(selected, rules);
    PartSound(Flat(groups), selected);
    forall g | 0 <= g < |groups| ensures Runnable(groups[g]) {
      PieceSound(groups, g);
      assert GroupFits(groups[g], update);
      if groups[g].range.Some? {
        assert groups[g].rules[0] in groups[g].rules;
        CoveredOrder(groups[g].range.value, update, groups[g].rules[0], batch, safe, evicted, w);
      }
    }
  }

  lemma {:induction false} PieceSound(groups: seq<Group>, g: nat)
    requires g < |groups| && AllSound(Flat(groups))
    ensures AllSound(groups[g].rules)
    decreases |groups|
  {
    hide AllSound;
    HasIdConcat(Flat(groups[..|groups| - 1]), groups[|groups| - 1].rules, "");
    if g < |groups| - 1 { PieceSound(groups[..|groups| - 1], g); }
  }

  lemma CoveredOrder(range: AnchorRange, update: WindowUpdate, b: BoundRule,
                     batch: seq<RawPoint>, safe: map<SequenceId, bool>, evicted: seq<SequenceId>, w: Timestamp)
    requires CoversRule(range, update, b)
    requires (forall id :: Describes(update, batch, safe, evicted, id)) && forall id :: id in safe <==> PointsOf(batch, id) != []
    ensures range.start <= range.end
  {
    hide IsRange, Describes, PointsOf;
    var r: DerivedPatches.RefreshRange :| IsRange(r, update, [b.sequence]) && range.start <= r.start && r.end <= range.end;
    RangeOrder(r, update, [b.sequence], batch, safe, evicted, w);
  }

  lemma SomethingReported(update: WindowUpdate, batch: seq<RawPoint>, safe: map<SequenceId, bool>, evicted: seq<SequenceId>)
    requires batch != [] && forall id :: Describes(update, batch, safe, evicted, id)
    ensures update.sequences != map[]
  {
    var id := batch[|batch| - 1].sequence;
    assert Describes(update, batch, safe, evicted, id);
    assert PointsOf(batch, id) != [];
  }

  lemma WindowMovesOn(was: Option<Timestamp>, batch: seq<RawPoint>, size: int)
    requires batch != [] && 0 < size <= TIMESTAMP_MAX && IsMaximum(NextWatermark(was, batch), was, batch)
    ensures WindowBound(was, size) <= WindowStart(NextWatermark(was, batch), size)
  {
  }

  /** Afterwards every rule's cache is right again. */
  lemma AllStayRight(before: Holdings, after: Holdings, latest: LatestTimes, batch: seq<RawPoint>, watermark: Timestamp, size: int,
                     safe: map<SequenceId, bool>, evicted: seq<SequenceId>, update: WindowUpdate, rules: seq<BoundRule>,
                     selected: seq<BoundRule>, groups: seq<Group>, founds: seq<seq<Violation>>, states: RuleStates, generation: nat, windowBefore: int)
    requires 0 < size <= TIMESTAMP_MAX && watermark < TIMESTAMP_MAX
    requires Accounts(before, after, latest, batch, WindowStart(watermark, size), safe, evicted, update) && ReadableBatch(batch)
    requires AllRight(rules, before, states, windowBefore) && windowBefore <= WindowStart(watermark, size)
    requires WatermarkCovers(after, Some(watermark)) && NoLaterGeneration(states, generation)
    requires AllSound(rules) && Part(selected, rules) && (forall b :: b in rules && b.sequence in update.changed ==> b in selected)
    requires |groups| == |founds| && AllSound(Flat(groups)) && (forall x :: x in Flat(groups) <==> x in selected)
    requires forall g :: 0 <= g < |groups| ==> GroupFits(groups[g], update) && GroupChecked(groups[g], founds[g], after, watermark, size)
    ensures AllRight(rules, after, AfterGroups(states, groups, founds, WindowStart(watermark, size), generation), WindowStart(watermark, size))
  {
    hide Accounts, ReadableBatch, RuleRight, WatermarkCovers, NoLaterGeneration, AllSound, Part, GroupFits, GroupChecked, AfterGroups, WindowStart;
    forall i | 0 <= i < |rules|
      ensures RuleRight(rules[i], after, AfterGroups(states, groups, founds, WindowStart(watermark, size), generation), WindowStart(watermark, size))
    {
      assert rules[i] in rules;
      OwnId(rules, selected, rules[i]);
      RuleStaysRight(before, after, latest, batch, watermark, size, safe, evicted, update, rules[i], selected, groups, founds, states, generation, windowBefore);
    }
  }

  lemma OwnId(rules: seq<BoundRule>, selected: seq<BoundRule>, b: BoundRule)
    requires AllSound(rules) && Part(selected, rules) && b in rules
    ensures b !in selected ==> !HasId(selected, b.rule.id)
  {
    hide BoundRule.Sound;
    if i :| 0 <= i < |selected| && selected[i].rule.id == b.rule.id {
      assert selected[i] in selected;
      var k :| 0 <= k < |rules| && rules[k] == selected[i];
      var l :| 0 <= l < |rules| && rules[l] == b;
      assert k == l;
    }
  }

  lemma {:induction false} GenerationsFollow(states: RuleStates, rules: seq<BoundRule>, range: Option<AnchorRange>, w: int, found: seq<Violation>, generation: nat)
    requires NoLaterGeneration(states, generation)
    ensures NoLaterGeneration(AfterGroup(states, rules, range, w, found, generation), generation)
    decreases |rules|
  {
    hide Edited;
    if rules != [] { GenerationsFollow(states, rules[..|rules| - 1], range, w, found, generation); }
  }

  lemma {:induction false} AllGenerationsFollow(states: RuleStates, groups: seq<Group>, founds: seq<seq<Violation>>, w: int, generation: nat)
    requires |groups| == |founds| && NoLaterGeneration(states, generation)
    ensures NoLaterGeneration(AfterGroups(states, groups, founds, w, generation), generation)
    decreases |groups|
  {
    hide AfterGroup;
    if groups != [] {
      var n := |groups| - 1;
      AllGenerationsFollow(states, groups[..n], founds[..n], w, generation);
      GenerationsFollow(AfterGroups(states, groups[..n], founds[..n], w, generation), groups[n].rules, groups[n].range, w, founds[n], generation);
    }
  }

  lemma LaterGeneration(states: RuleStates, a: nat, b: nat)
    requires NoLaterGeneration(states, a) && a <= b
    ensures NoLaterGeneration(states, b)
  {
  }

  lemma GenerationGrows(before: nat, after: nat)
    requires before <= GENERATION_MAX && after == Min(before + 1, GENERATION_MAX)
    ensures before <= after <= GENERATION_MAX
  {
  }

  lemma PreparedParts(rules: seq<BoundRule>, contents: Holdings, watermark: Option<Timestamp>, size: int, generation: nat, states: RuleStates)
    requires 0 < size <= TIMESTAMP_MAX
    ensures Prepared(rules, contents, watermark, size, generation, states) <==>
            AllRight(rules, contents, states, WindowBound(watermark, size)) && WatermarkCovers(contents, watermark) && NoLaterGeneration(states, generation)
    ensures watermark.Some? ==> WindowBound(watermark, size) == WindowStart(watermark.value, size)
  {
    hide AllRight, WatermarkCovers, NoLaterGeneration;
  }

  lemma {:induction false} OrdinaryParts(watermark: Option<Timestamp>, batch: seq<RawPoint>)
    requires Ordinary(watermark, batch)
    ensures ReadableBatch(batch)
    ensures batch != [] ==> NextWatermark(watermark, batch) < TIMESTAMP_MAX && IsMaximum(NextWatermark(watermark, batch), watermark, batch)
  {
    hide ReadableBatch, NextWatermark;
    if batch != [] { WatermarkIsMaximum(watermark, batch); }
  }

  lemma ValidService(service: WindowService)
    requires service.Valid()
    ensures service.generation <= GENERATION_MAX && 0 < service.windowSize <= TIMESTAMP_MAX
  {
    hide SequenceWindow.Valid, SequenceWindow.Live;
  }

  /** The cache is edited only when every group went through. */
  method RecordResults(cache: ConstraintCache, ok: bool, groups: seq<Group>, windowStart: Timestamp, founds: seq<seq<Violation>>, generation: nat)
    returns (outcome: IngestOutcome)
    requires ok ==> |groups| == |founds|
    modifies cache
    ensures ok ==> outcome == Rechecked && cache.states == AfterGroups(old(cache.states), groups, founds, windowStart, generation)
    ensures !ok ==> outcome == GroupFailed && cache.states == old(cache.states)
  {
    if !ok { return GroupFailed; }
    cache.ApplyGroups(groups, windowStart, founds, generation);
    outcome := Rechecked;
  }

  /** The values every rule reads stay numbers, so no group can fail on them. */
  lemma GroupsReadable(before: Holdings, after: Holdings, latest: LatestTimes, batch: seq<RawPoint>, w: Timestamp,
                       safe: map<SequenceId, bool>, evicted: seq<SequenceId>, update: WindowUpdate, rules: seq<BoundRule>, states: RuleStates, windowBefore: int,
                       selected: seq<BoundRule>, groups: seq<Group>)
    requires Accounts(before, after, latest, batch, w, safe, evicted, update) && ReadableBatch(batch) && AllRight(rules, before, states, windowBefore)
    requires Part(selected, rules) && Part(Flat(groups), selected)
    ensures forall g :: 0 <= g < |groups| ==> ReadableRules(groups[g].rules, after)
  {
    hide Accounts, ReadableBatch, RuleRight, Readable;
    forall g, i | 0 <= g < |groups| && 0 <= i < |groups[g].rules| ensures Readable(ContentOf(after, groups[g].rules[i].sequence)) {
      var b := groups[g].rules[i];
      assert b in groups[g].rules;
      FlatMember(groups, b);
      assert b in selected && b in rules;
      var k :| 0 <= k < |rules| && rules[k] == b;
      AfterReadable(before, after, latest, batch, w, safe, evicted, update, rules[k], states, windowBefore);
    }
  }

  /** One ingest: window, recheck, edit. An accepted batch is rechecked without
      fail, and every rule's cached violations after the window start are again
      those of a check from scratch; a rejected one changes nothing. */
  method ProcessIngest(service: WindowService, cache: ConstraintCache, rules: seq<BoundRule>, batch: seq<RawPoint>) returns (outcome: IngestOutcome)
    requires service.Valid() && AllSound(rules) && (Acceptable(batch, None) ==> Ordinary(service.watermark, batch))
    requires Prepared(rules, service.Contents(), service.watermark, service.windowSize, service.generation, cache.states)
    modifies service, service.owner.Keys, cache
    ensures service.Valid() && fresh(service.owner.Keys - old(service.owner.Keys))
    ensures Prepared(rules, service.Contents(), service.watermark, service.windowSize, service.generation, cache.states)
    ensures outcome == if Acceptable(batch, None) then Rechecked else NotAccepted
    ensures outcome.Rechecked? ==> batch != [] && service.watermark == Some(NextWatermark(old(service.watermark), batch))
    ensures outcome.NotAccepted? ==> service.Contents() == old(service.Contents()) && service.watermark == old(service.watermark) && cache.states == old(cache.states)
    ensures outcome.Rechecked? ==> AllRight(rules, service.Contents(), cache.states, WindowStart(service.watermark.value, service.windowSize))
    ensures outcome.Rechecked? ==>
              Stamped(rules, old(service.Contents()), batch, WindowStart(service.watermark.value, service.windowSize),
                      old(cache.states), cache.states, service.generation)
  {
    hide *;
    ghost var before, latest, states, was := service.Contents(), service.Latest(), cache.states, service.watermark;
    ghost var generation := service.generation;
    ValidService(service);
    PreparedParts(rules, before, was, service.windowSize, generation, states);
    LatestIsBound(service);
    var report := service.UpdateWindow(batch, None);
    ValidService(service);
    if !report.Updated? {
      PreparedParts(rules, service.Contents(), service.watermark, service.windowSize, service.generation, cache.states);
      return NotAccepted;
    }
    ghost var after := service.Contents();
    OrdinaryParts(was, batch);
    AcceptedIsNonEmpty(batch);
    SafeKeys(report.incrementalSafe, latest, batch);
    var update := DescribeUpdate(batch, report.windowStart, report.incrementalSafe, report.evicted);
    MakeAccounts(before, after, latest, batch, report.windowStart, report.incrementalSafe, report.evicted, update);
    SomethingReported(update, batch, report.incrementalSafe, report.evicted);
    var selected := SelectRules(rules, cache.states, update.changed);
    SelectedIsPart(selected, rules);
    var groups := BuildGroups(selected, update);
    GroupsRunnable(groups, selected, rules, update, batch, report.incrementalSafe, report.evicted, report.windowStart);
    var ok, founds := RunGroups(service, groups);
    assert service.Valid() && service.Contents() == after;
    GroupsReadable(before, after, latest, batch, report.windowStart, report.incrementalSafe, report.evicted, update, rules, states,
                   WindowBound(was, service.windowSize), selected, groups);
    assert ok;
    GroupsDone(groups, founds, after, service.watermark.value, service.windowSize);
    GenerationGrows(generation, service.generation);
    LaterGeneration(states, generation, service.generation);
    WindowMovesOn(was, batch, service.windowSize);
    WatermarkStaysOnTop(before, after, latest, batch, report.windowStart, report.incrementalSafe, report.evicted, update, was, service.watermark.value);
    AllStayRight(before, after, latest, batch, service.watermark.value, service.windowSize, report.incrementalSafe, report.evicted, update,
                 rules, selected, groups, founds, states, service.generation, WindowBound(was, service.windowSize));
    AllGenerationsFollow(states, groups, founds, report.windowStart, service.generation);
    RecheckedAreStamped(before, after, latest, batch, report.windowStart, report.incrementalSafe, report.evicted, update,
                        rules, selected, groups, founds, states, service.generation);
    outcome := RecordResults(cache, ok, groups, report.windowStart, founds, service.generation);
    assert service.Valid() && service.Contents() == after;
    PreparedParts(rules, service.Contents(), service.watermark, service.windowSize, service.generation, cache.states);
  }

  /** A rule of the clause is touched, or has violations on record. */
  ghost predicate ClauseAffected(rules: seq<BoundRule>, i: nat, before: Holdings, batch: seq<RawPoint>, start: int, was: RuleStates)
    requires i < |rules|
  {
    exists j :: 0 <= j < |rules| && ConstraintMeanings.SameClause(rules[i].rule, rules[j].rule)
                && (Touches(before, batch, start, rules[j].sequence) || StateOf(was, rules[j].rule.id).violations != map[])
  }

  /** Rules the batch touches carry the new generation; of the others those that were
      initialized are as they were, and the rest are checked for the first time
      exactly when their clause is affected. */
  ghost predicate Stamped(rules: seq<BoundRule>, before: Holdings, batch: seq<RawPoint>, start: int,
                          was: RuleStates, now: RuleStates, generation: nat)
  {
    forall i :: 0 <= i < |rules| ==>
                  var previous, current := StateOf(was, rules[i].rule.id), StateOf(now, rules[i].rule.id);
                  && (Touches(before, batch, start, rules[i].sequence) ==> current.initialized && current.generation == generation)
                  && (!Touches(before, batch, start, rules[i].sequence) && previous.initialized ==> current == previous)
                  && (!Touches(before, batch, start, rules[i].sequence) && !previous.initialized ==>
                        (current.initialized <==> ClauseAffected(rules, i, before, batch, start, was)))
  }

  lemma {:induction false} RecheckedAreStamped(before: Holdings, after: Holdings, latest: LatestTimes, batch: seq<RawPoint>, w: Timestamp,
                                               safe: map<SequenceId, bool>, evicted: seq<SequenceId>, update: WindowUpdate, rules: seq<BoundRule>,
                                               selected: seq<BoundRule>, groups: seq<Group>, founds: seq<seq<Violation>>, states: RuleStates, generation: nat)
    requires Accounts(before, after, latest, batch, w, safe, evicted, update) && NoLaterGeneration(states, generation)
    requires AllSound(rules) && Part(selected, rules) && (forall b :: b in rules && b.sequence in update.changed ==> b in selected)
    requires forall b :: b in selected <==>
                           && b in rules && Affected(rules, states, update.changed, ClauseKey(b.rule))
                           && (b.sequence in update.changed || !StateOf(states, b.rule.id).initialized)
    requires |groups| == |founds| && AllSound(Flat(groups)) && (forall x :: x in Flat(groups) <==> x in selected)
    ensures Stamped(rules, before, batch, w, states, AfterGroups(states, groups, founds, w, generation), generation)
  {
    hide AllSound, Part, AfterGroups, NoLaterGeneration, Accounts, Edited, Touches, Affected, ClauseAffected, ClauseKey;
    forall i | 0 <= i < |rules|
      ensures var previous, current := StateOf(states, rules[i].rule.id), StateOf(AfterGroups(states, groups, founds, w, generation), rules[i].rule.id);
              && (Touches(before, batch, w, rules[i].sequence) ==> current.initialized && current.generation == generation)
              && (!Touches(before, batch, w, rules[i].sequence) && previous.initialized ==> current == previous)
              && (!Touches(before, batch, w, rules[i].sequence) && !previous.initialized ==>
                    (current.initialized <==> ClauseAffected(rules, i, before, batch, w, states)))
    {
      var b := rules[i];
      ChangedIsTouched(before, after, latest, batch, w, safe, evicted, update, b.sequence);
      assert b in rules;
      AffectedMeans(before, after, latest, batch, w, safe, evicted, update, rules, states, i);
      OneStamped(b, rules, selected, groups, founds, states, w, generation, b.sequence in update.changed);
    }
  }

  lemma ChangedIsTouched(before: Holdings, after: Holdings, latest: LatestTimes, batch: seq<RawPoint>, w: Timestamp,
                         safe: map<SequenceId, bool>, evicted: seq<SequenceId>, update: WindowUpdate, id: SequenceId)
    requires Accounts(before, after, latest, batch, w, safe, evicted, update)
    ensures id in update.changed <==> Touches(before, batch, w, id)
  {
    hide PointsOf, AsMap, Expires, BatchMatches, LatestBounds, SafetyMatches;
    assert Describes(update, batch, safe, evicted, id);
  }

  lemma AffectedMeans(before: Holdings, after: Holdings, latest: LatestTimes, batch: seq<RawPoint>, w: Timestamp,
                      safe: map<SequenceId, bool>, evicted: seq<SequenceId>, update: WindowUpdate, rules: seq<BoundRule>, states: RuleStates, i: nat)
    requires Accounts(before, after, latest, batch, w, safe, evicted, update) && i < |rules|
    ensures Affected(rules, states, update.changed, ClauseKey(rules[i].rule)) <==> ClauseAffected(rules, i, before, batch, w, states)
  {
    hide Accounts, Touches, ClauseKey, ConstraintMeanings.SameClause;
    forall j | 0 <= j < |rules|
      ensures ClauseKey(rules[j].rule) == ClauseKey(rules[i].rule) <==> ConstraintMeanings.SameClause(rules[i].rule, rules[j].rule)
      ensures rules[j].sequence in update.changed <==> Touches(before, batch, w, rules[j].sequence)
    {
      ConstraintMeanings.SameClauseSameKey(rules[i].rule, rules[j].rule);
      ChangedIsTouched(before, after, latest, batch, w, safe, evicted, update, rules[j].sequence);
    }
  }

  lemma {:induction false} OneStamped(b: BoundRule, rules: seq<BoundRule>, selected: seq<BoundRule>, groups: seq<Group>, founds: seq<seq<Violation>>,
                                      states: RuleStates, w: int, generation: nat, changed: bool)
    requires AllSound(rules) && Part(selected, rules) && b in rules && NoLaterGeneration(states, generation)
    requires (changed ==> b in selected) && (b in selected ==> changed || !StateOf(states, b.rule.id).initialized)
    requires |groups| == |founds| && AllSound(Flat(groups)) && (forall x :: x in Flat(groups) <==> x in selected)
    ensures var previous, current := StateOf(states, b.rule.id), StateOf(AfterGroups(states, groups, founds, w, generation), b.rule.id);
            && (changed ==> current.initialized && current.generation == generation)
            && (!changed && previous.initialized ==> current == previous)
            && (!previous.initialized ==> (current.initialized <==> b in selected))
  {
    hide AllSound, Part, AfterGroups, Edited, Flat;
    OwnId(rules, selected, b);
    AfterGroupsAt(states, groups, founds, w, generation, b.rule.id);
    if b in selected {
      FlatMember(groups, b);
      var g :| 0 <= g < |groups| && b in groups[g].rules;
      var k :| 0 <= k < |groups[g].rules| && groups[g].rules[k] == b;
      assert HasId(groups[g].rules, b.rule.id);
    } else {
      SameIds(Flat(groups), selected, b.rule.id);
    }
  }

  lemma AcceptedIsNonEmpty(batch: seq<RawPoint>)
    requires Acceptable(batch, None)
    ensures batch != []
  {
  }

  lemma SelectedIsPart(selected: seq<BoundRule>, rules: seq<BoundRule>)
    requires Part(selected, rules)
    ensures Part(selected, selected)
  {
  }

  /** Every batch of the run can be ingested with the watermark the ones before it left. */
  ghost predicate OrdinaryRun(watermark: Option<Timestamp>, batches: seq<seq<RawPoint>>)
    decreases |batches|
  {
    batches == []
    || ((Acceptable(batches[0], None) ==> Ordinary(watermark, batches[0])) && OrdinaryRun(WatermarkAfter(watermark, batches[0]), batches[1..]))
  }

  /** A rejected batch leaves the watermark alone. */
  ghost function WatermarkAfter(watermark: Option<Timestamp>, batch: seq<RawPoint>): Option<Timestamp> {
    if Acceptable(batch, None) then Some(NextWatermark(watermark, batch)) else watermark
  }

  /** Rules registered before any data, and any run of ingests: after every one
      of them the cache is right. */
  method RunIngests(rules: seq<BoundRule>, batches: seq<seq<RawPoint>>) returns (service: WindowService, cache: ConstraintCache)
    requires AllSound(rules) && OrdinaryRun(None, batches)
    ensures fresh(service) && fresh(cache) && service.Valid()
    ensures Prepared(rules, service.Contents(), service.watermark, service.windowSize, service.generation, cache.states)
    ensures AllRight(rules, service.Contents(), cache.states, WindowBound(service.watermark, service.windowSize))
  {
    hide *;
    service := new WindowService();
    cache := new ConstraintCache();
    var completed := 0;
    FreshContents(service);
    StartsPrepared(rules, service.windowSize);
    assert batches[0..] == batches;
    while completed < |batches|
      invariant completed <= |batches| && service.Valid() && fresh(service) && fresh(cache) && fresh(service.owner.Keys)
      invariant Prepared(rules, service.Contents(), service.watermark, service.windowSize, service.generation, cache.states)
      invariant OrdinaryRun(service.watermark, batches[completed..])
      decreases |batches| - completed
    {
      RunStep(service.watermark, batches, completed);
      ghost var was := service.watermark;
      var _ := ProcessIngest(service, cache, rules, batches[completed]);
      completed := completed + 1;
    }
    ValidService(service);
    PreparedParts(rules, service.Contents(), service.watermark, service.windowSize, service.generation, cache.states);
  }

  lemma FreshContents(service: WindowService)
    requires service.Valid() && service.windows == map[]
    ensures service.Contents() == map[]
  {
  }

  lemma StartsPrepared(rules: seq<BoundRule>, size: int)
    requires AllSound(rules) && 0 < size <= TIMESTAMP_MAX
    ensures Prepared(rules, map[], None, size, 0, map[])
  {
    hide CacheRight, ValidSample;
    forall i | 0 <= i < |rules| ensures RuleRight(rules[i], map[], map[], TIMESTAMP_MIN) {
      assert rules[i].Sound();
      SoundIs(rules[i]);
      RowOfIsRow(map[]);
      EmptyIsRight(rules[i].rule, TIMESTAMP_MIN);
    }
  }

  lemma RunStep(watermark: Option<Timestamp>, batches: seq<seq<RawPoint>>, k: nat)
    requires k < |batches| && OrdinaryRun(watermark, batches[k..])
    ensures Acceptable(batches[k], None) ==> Ordinary(watermark, batches[k])
    ensures OrdinaryRun(if Acceptable(batches[k], None) then Some(NextWatermark(watermark, batches[k])) else watermark, batches[k + 1..])
  {
    assert batches[k..][1..] == batches[k + 1..];
  }
}
