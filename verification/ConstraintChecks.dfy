/** The engine over a whole window: every rule validated, checked on its own
    data, and the outcomes combined clause by clause. */
module ConstraintChecks {
  import opened Timeline
  import opened WindowServices
  import Buckets = BucketAggregation
  import opened ConstraintRules
  import opened ConstraintEngines
  import opened ConstraintClauses

  // ----- window aggregates -----

  datatype Statistics = Statistics(count: nat, average: real, maximum: real, minimum: real)

  function WindowPart(points: seq<Point>, start: int, end: int): (r: seq<Point>) {
    if points == [] then []
    else
      var p := points[|points| - 1];
      WindowPart(points[..|points| - 1], start, end) + if start <= p.time < end then [p] else []
  }

  /** Nothing when a value is not a number. */
  function StatisticsOf(part: seq<Point>): Option<Statistics> {
    var folded := Buckets.Folded(part, Buckets.Average);
    if folded.None? then None
    else
      var b := folded.value;
      Some(Statistics(b.count, if b.count == 0 then 0.0 else b.sum / b.count as real, b.maximum, b.minimum))
  }

  lemma {:induction false} StatisticsMeaning(part: seq<Point>)
    ensures StatisticsOf(part).Some? <==> Buckets.AllNumbers(part)
    ensures StatisticsOf(part).Some? && part != [] ==>
              var s := StatisticsOf(part).value;
              && s.count == |part| && s.average == Buckets.Total(part) / |part| as real
              && Buckets.Greatest(part, s.maximum) && Buckets.Least(part, s.minimum)
    ensures part == [] ==> StatisticsOf(part).value.count == 0
  {
    hide Buckets.Folded, Buckets.AllNumbers, Buckets.Greatest, Buckets.Least, Buckets.Total;
    Buckets.FoldedTracks(part, Buckets.Average);
  }

  ghost predicate Summarised(values: map<SequenceId, seq<Point>>, start: int, end: int, id: SequenceId) {
    id in values && StatisticsOf(WindowPart(values[id], start, end)).Some?
  }

  /** Statistics of the sequences a rule's terms read, where there are any points. */
  ghost predicate AreStatistics(statistics: map<SequenceId, Statistics>, terms: seq<Term>, mapping: map<string, SequenceId>,
                                values: map<SequenceId, seq<Point>>, start: int, end: int)
  {
    forall i :: 0 <= i < |terms| && terms[i].variable in mapping ==>
                  var id := mapping[terms[i].variable];
                  && Summarised(values, start, end, id)
                  && var s := StatisticsOf(WindowPart(values[id], start, end)).value;
                     (id in statistics <==> s.count != 0) && (id in statistics ==> statistics[id] == s)
  }

  method BuildWindowStatistics(rule: Rule, values: map<SequenceId, seq<Point>>, start: Timestamp, end: Timestamp)
    returns (statistics: Option<map<SequenceId, Statistics>>)
    requires TermsSound(rule)
    ensures statistics.Some? <==> forall i :: 0 <= i < |rule.terms| ==> Summarised(values, start, end, rule.mapping[rule.terms[i].variable])
    ensures statistics.Some? ==> AreStatistics(statistics.value, rule.terms, rule.mapping, values, start, end)
  {
    hide StatisticsOf, WindowPart;
    var built: map<SequenceId, Statistics> := map[];
    for i := 0 to |rule.terms|
      invariant forall k :: 0 <= k < i ==> Summarised(values, start, end, rule.mapping[rule.terms[k].variable])
      invariant forall id :: id in built ==> Summarised(values, start, end, id) && built[id] == StatisticsOf(WindowPart(values[id], start, end)).value
                                             && built[id].count != 0
      invariant forall k :: 0 <= k < i ==>
                              var id := rule.mapping[rule.terms[k].variable];
                              StatisticsOf(WindowPart(values[id], start, end)).value.count != 0 ==> id in built
    {
      var id := rule.mapping[rule.terms[i].variable];
      if id !in values { return None; }
      var one := Summarise(values[id], start, end);
      if one.None? { return None; }
      if one.value.count != 0 { built := built[id := one.value]; }
    }
    statistics := Some(built);
  }

  method Summarise(points: seq<Point>, start: Timestamp, end: Timestamp) returns (s: Option<Statistics>)
    ensures s == StatisticsOf(WindowPart(points, start, end))
  {
    hide Buckets.Folded, Buckets.BucketAccumulator.Add;
    var b := Buckets.EMPTY_BUCKET;
    Buckets.FoldedTracks([], Buckets.Average);
    for i := 0 to |points|
      invariant Buckets.Folded(WindowPart(points[..i], start, end), Buckets.Average) == Some(b)
    {
      var p := points[i];
      PartStep(points, i, start, end);
      if start <= p.time < end {
        var added := b.Add(p, Buckets.Average);
        if added.None? {
          PartRejected(points, i, start, end);
          return None;
        }
        b := added.value;
      }
    }
    assert points[..|points|] == points;
    s := Some(Statistics(b.count, if b.count == 0 then 0.0 else b.sum / b.count as real, b.maximum, b.minimum));
  }

  lemma PartStep(points: seq<Point>, i: nat, start: int, end: int)
    requires i < |points|
    ensures var before, after := WindowPart(points[..i], start, end), WindowPart(points[..i + 1], start, end);
            && after == before + (if start <= points[i].time < end then [points[i]] else [])
            && (start <= points[i].time < end && Buckets.Folded(before, Buckets.Average).Some? ==>
                  Buckets.Folded(after, Buckets.Average) == Buckets.Folded(before, Buckets.Average).value.Add(points[i], Buckets.Average))
            && (!(start <= points[i].time < end) ==> after == before)
  {
    hide Buckets.BucketAccumulator.Add;
    assert points[..i + 1][..i] == points[..i];
    var before := WindowPart(points[..i], start, end);
    assert (before + [points[i]])[..|before|] == before;
  }

  lemma {:induction false} PartGrows(points: seq<Point>, i: nat, start: int, end: int)
    requires i <= |points|
    ensures WindowPart(points[..i], start, end) <= WindowPart(points, start, end)
    decreases |points|
  {
    if i == |points| {
      assert points[..i] == points;
    } else {
      PartGrows(points[..|points| - 1], i, start, end);
      assert points[..|points| - 1][..i] == points[..i];
    }
  }

  lemma PartRejected(points: seq<Point>, i: nat, start: int, end: int)
    requires i < |points| && Buckets.Folded(WindowPart(points[..i + 1], start, end), Buckets.Average).None?
    ensures StatisticsOf(WindowPart(points, start, end)).None?
  {
    hide Buckets.Folded, WindowPart;
    var part, whole := WindowPart(points[..i + 1], start, end), WindowPart(points, start, end);
    PartGrows(points, i + 1, start, end);
    Buckets.FoldedTracks(part, Buckets.Average);
    Buckets.FoldedTracks(whole, Buckets.Average);
    assert forall j :: 0 <= j < |part| ==> part[j] == whole[j];
  }

  function Selected(s: Statistics, aggregation: TermAggregation): real {
    match aggregation
    case Average => s.average
    case Maximum => s.maximum
    case Minimum => s.minimum
    case Sample => 0.0
  }

  /** The weighted sum of statistics an aggregate rule bounds. */
  function AggregateSum(terms: seq<Term>, mapping: map<string, SequenceId>, statistics: map<SequenceId, Statistics>): real
    requires forall i :: 0 <= i < |terms| ==> terms[i].variable in mapping && mapping[terms[i].variable] in statistics
  {
    if terms == [] then 0.0
    else
      var term := terms[|terms| - 1];
      AggregateSum(terms[..|terms| - 1], mapping, statistics) + term.coefficient * Selected(statistics[mapping[term.variable]], term.aggregation)
  }

  ghost predicate Complete(rule: Rule, statistics: map<SequenceId, Statistics>)
    requires TermsSound(rule)
  {
    forall i :: 0 <= i < |rule.terms| ==> rule.mapping[rule.terms[i].variable] in statistics
  }

  /** The terms as a violation of an aggregate rule reports them. */
  ghost predicate AreResolved(resolved: seq<TermValue>, rule: Rule, statistics: map<SequenceId, Statistics>, end: Timestamp)
    requires TermsSound(rule) && Complete(rule, statistics)
  {
    && |resolved| == |rule.terms|
    && forall i :: 0 <= i < |resolved| ==>
                     var term := rule.terms[i];
                     var id := rule.mapping[term.variable];
                     resolved[i] == TermValue(term.variable, id, term.coefficient, term.sampleOffset, end,
                                              Selected(statistics[id], term.aggregation), term.aggregation)
  }

  /** One violation, at the window's end, with the sum and every term it is made of. */
  ghost predicate IsAggregateViolation(v: Violation, rule: Rule, statistics: map<SequenceId, Statistics>, end: Timestamp)
    requires TermsSound(rule) && Complete(rule, statistics)
  {
    && v == Violation(rule.id, end, rule.lower, rule.upper, AggregateSum(rule.terms, rule.mapping, statistics), v.terms, rule.orGroup)
    && AreResolved(v.terms, rule, statistics, end)
  }

  /** Pending while some sequence has no point in the window; otherwise one
      evaluation, violated exactly when the sum is out of bounds. */
  ghost predicate IsAggregateOutcome(outcome: RuleOutcome, rule: Rule, statistics: map<SequenceId, Statistics>, end: Timestamp)
    requires TermsSound(rule)
  {
    && outcome.rule == rule
    && (!Complete(rule, statistics) ==> outcome.evaluated == 0 && outcome.pending == 1 && outcome.violations == [])
    && (Complete(rule, statistics) ==>
          && outcome.evaluated == 1 && outcome.pending == 0 && |outcome.violations| <= 1
          && (outcome.violations == [] <==> WithinBounds(AggregateSum(rule.terms, rule.mapping, statistics), rule))
          && forall v :: v in outcome.violations ==> IsAggregateViolation(v, rule, statistics, end))
  }

  method EvaluateAggregateRule(rule: Rule, statistics: map<SequenceId, Statistics>, end: Timestamp) returns (outcome: RuleOutcome)
    requires TermsSound(rule) && AllAggregate(rule.terms)
    ensures IsAggregateOutcome(outcome, rule, statistics, end)
  {
    for i := 0 to |rule.terms|
      invariant forall k :: 0 <= k < i ==> rule.mapping[rule.terms[k].variable] in statistics
    {
      if rule.mapping[rule.terms[i].variable] !in statistics { return RuleOutcome(rule, 0, 1, []); }
    }
    var evaluated := 0.0;
    var resolved: seq<TermValue> := [];
    for i := 0 to |rule.terms|
      invariant evaluated == AggregateSum(rule.terms[..i], rule.mapping, statistics)
      invariant |resolved| == i
      invariant forall k :: 0 <= k < i ==>
                              var term := rule.terms[k];
                              var id := rule.mapping[term.variable];
                              resolved[k] == TermValue(term.variable, id, term.coefficient, term.sampleOffset, end,
                                                       Selected(statistics[id], term.aggregation), term.aggregation)
    {
      var term := rule.terms[i];
      assert rule.terms[..i + 1][..i] == rule.terms[..i];
      var id := rule.mapping[term.variable];
      var x := Selected(statistics[id], term.aggregation);
      evaluated := evaluated + term.coefficient * x;
      resolved := resolved + [TermValue(term.variable, id, term.coefficient, term.sampleOffset, end, x, term.aggregation)];
    }
    assert rule.terms[..|rule.terms|] == rule.terms;
    outcome := RuleOutcome(rule, 1, 0,
                           if WithinBounds(evaluated, rule) then []
                           else [Violation(rule.id, end, rule.lower, rule.upper, evaluated, resolved, rule.orGroup)]);
  }

  // ----- sample rules -----

  function MaximumOffset(terms: seq<Term>): (m: nat)
    requires terms != []
    ensures IsMaximumOffset(m, terms)
  {
    if |terms| == 1 then terms[0].sampleOffset
    else
      var before, last := MaximumOffset(terms[..|terms| - 1]), terms[|terms| - 1].sampleOffset;
      LargerOf(terms, before);
      if last > before then last else before
  }

  lemma LargerOf(terms: seq<Term>, before: nat)
    requires |terms| > 1 && IsMaximumOffset(before, terms[..|terms| - 1])
    ensures IsMaximumOffset(if terms[|terms| - 1].sampleOffset > before then terms[|terms| - 1].sampleOffset else before, terms)
  {
    var front := terms[..|terms| - 1];
    var i :| 0 <= i < |front| && front[i].sampleOffset == before;
    assert terms[i].sampleOffset == before && forall k :: 0 <= k < |front| ==> front[k] == terms[k];
  }

  lemma MaximumIsUnique(terms: seq<Term>, a: nat, b: nat)
    requires IsMaximumOffset(a, terms) && IsMaximumOffset(b, terms)
    ensures a == b
  {
  }

  ghost predicate ReadsOnly(rule: Rule, id: SequenceId) {
    rule.mapping.Values == {id}
  }

  /** What one sample rule yields on the window, or nothing when it cannot be checked. */
  ghost function SampleOutcome(rule: Rule, values: map<SequenceId, seq<Point>>, id: SequenceId, range: Option<CheckRange>): Option<RuleOutcome>
    requires ValidRule(rule)
  {
    if id !in values then None
    else
      var lo, hi := FirstAnchor(values[id], range), LastAnchor(values[id], MaximumOffset(rule.terms), range);
      if ResolvableOn(rule, values[id], lo, hi) then
        Some(RuleOutcome(rule, Max(0, hi - lo), 0, ViolationsOn(rule, values[id], lo, Max(0, hi))))
      else None
  }

  method SingleSequence(rule: Rule) returns (id: Option<SequenceId>)
    ensures id.Some? ==> ReadsOnly(rule, id.value)
    ensures id.None? ==> forall other :: !ReadsOnly(rule, other)
  {
    var ids := rule.mapping.Values;
    if ids == {} {
      return None;
    }
    var first := PickOne(ids);
    if ids - {first} == {} {
      assert ids == {first};
      return Some(first);
    }
    id := None;
    forall other ensures !ReadsOnly(rule, other) {
      assert first in ids && (ids == {other} ==> first == other);
    }
  }

  method CheckSampleRule(rule: Rule, values: map<SequenceId, seq<Point>>, m: nat, range: Option<CheckRange>) returns (outcome: Option<RuleOutcome>)
    requires ValidRule(rule) && IsMaximumOffset(m, rule.terms)
    ensures outcome.Some? ==> exists id :: ReadsOnly(rule, id) && outcome == SampleOutcome(rule, values, id, range)
    ensures outcome.None? ==> forall id :: ReadsOnly(rule, id) ==> SampleOutcome(rule, values, id, range).None?
  {
    hide ResolvableOn, ViolationsOn, FirstAnchor, LastAnchor;
    var id := SingleSequence(rule);
    if id.None? || id.value !in values { return None; }
    MaximumIsUnique(rule.terms, m, MaximumOffset(rule.terms));
    var ok, evaluated, violations := CheckSequence(rule, values[id.value], m, range);
    if !ok { return None; }
    outcome := Some(RuleOutcome(rule, evaluated, 0, violations));
    assert ReadsOnly(rule, id.value) && outcome == SampleOutcome(rule, values, id.value, range);
  }

  // ----- all rules -----

  /** `outcome` is the outcome of `rule` on the window. */
  ghost predicate IsOutcome(outcome: RuleOutcome, rule: Rule, values: map<SequenceId, seq<Point>>, start: int, end: Timestamp, range: Option<CheckRange>)
  {
    && ValidRule(rule) && outcome.rule == rule
    && (AllSample(rule.terms) ==> exists id :: ReadsOnly(rule, id) && SampleOutcome(rule, values, id, range) == Some(outcome))
    && (!AllSample(rule.terms) ==>
          && (forall i :: 0 <= i < |rule.terms| ==> Summarised(values, start, end, rule.mapping[rule.terms[i].variable]))
          && exists statistics :: AreStatistics(statistics, rule.terms, rule.mapping, values, start, end)
                                  && IsAggregateOutcome(outcome, rule, statistics, end))
  }

  /** The rule is valid and everything it reads on the window can be read. */
  ghost predicate Checkable(rule: Rule, values: map<SequenceId, seq<Point>>, start: int, end: Timestamp, range: Option<CheckRange>) {
    exists outcome :: IsOutcome(outcome, rule, values, start, end, range)
  }

  /** Checking rules over a window, the whole of it or the anchors of a range. */
  method CheckConstraints(rules: seq<Rule>, values: map<SequenceId, seq<Point>>, start: Timestamp, end: Timestamp, range: Option<CheckRange>)
    returns (result: CheckResult, ghost outcomes: seq<RuleOutcome>)
    ensures rules == [] || start > end || values == map[] ==> result.CheckFailed?
    ensures result.Checked? ==>
              && |outcomes| == |rules| && (forall i :: 0 <= i < |rules| ==> IsOutcome(outcomes[i], rules[i], values, start, end, range))
              && result == Checked(AllClausesHold(outcomes), Evaluated(outcomes), Pending(outcomes), Reported(outcomes, KeysOf(outcomes)))
    ensures result.CheckFailed? && rules != [] && start <= end && values != map[] ==>
              exists i :: 0 <= i < |rules| && !Checkable(rules[i], values, start, end, range)
  {
    hide IsOutcome, Checkable, ValidRule;
    outcomes := [];
    if rules == [] || start > end || values == map[] { return CheckFailed, []; }
    var collected: seq<RuleOutcome> := [];
    for i := 0 to |rules|
      invariant |collected| == i && forall k :: 0 <= k < i ==> IsOutcome(collected[k], rules[k], values, start, end, range)
    {
      var outcome := CheckRule(rules[i], values, start, end, range);
      if outcome.None? { return CheckFailed, []; }
      collected := collected + [outcome.value];
    }
    outcomes := collected;
    result := CombineRuleOutcomes(collected);
  }

  method CheckRule(rule: Rule, values: map<SequenceId, seq<Point>>, start: Timestamp, end: Timestamp, range: Option<CheckRange>)
    returns (outcome: Option<RuleOutcome>)
    ensures outcome.Some? ==> IsOutcome(outcome.value, rule, values, start, end, range)
    ensures outcome.None? ==> !Checkable(rule, values, start, end, range)
  {
    hide SampleOutcome, AreStatistics, Summarised, AggregateSum, MaximumOffset, AllSample, AllAggregate, IsAggregateOutcome;
    var properties := ValidateConstraintRule(rule);
    if properties.None? { return None; }
    if properties.value.kind == WindowAggregateRule {
      var statistics := BuildWindowStatistics(rule, values, start, end);
      if statistics.None? { return None; }
      var one := EvaluateAggregateRule(rule, statistics.value, end);
      assert AreStatistics(statistics.value, rule.terms, rule.mapping, values, start, end);
      return Some(one);
    }
    outcome := CheckSampleRule(rule, values, properties.value.maximumOffset, range);
    if outcome.Some? {
      ghost var id :| ReadsOnly(rule, id) && outcome == SampleOutcome(rule, values, id, range);
      SampleOutcomeRule(rule, values, id, range);
    }
  }

  lemma SampleOutcomeRule(rule: Rule, values: map<SequenceId, seq<Point>>, id: SequenceId, range: Option<CheckRange>)
    requires ValidRule(rule)
    ensures SampleOutcome(rule, values, id, range).Some? ==> SampleOutcome(rule, values, id, range).value.rule == rule
  {
  }
}
