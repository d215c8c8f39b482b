/** What a violation says: which sum is out of which bound, read off the rule and
    the points. */
module ConstraintMeanings {
  import opened Timeline
  import opened WindowServices
  import opened ConstraintRules
  import opened ConstraintEngines
  import opened ConstraintClauses
  import opened ConstraintChecks

  /** Below the lower bound, or above the upper one. */
  ghost predicate OutOfBounds(rule: Rule, x: real) {
    (exists low :: rule.lower == Some(low) && x < low) || (exists high :: rule.upper == Some(high) && high < x)
  }

  // ----- sample rules -----

  /** Coefficient times value over the terms from the `i`-th on. */
  ghost function SumFrom(terms: seq<Term>, points: seq<Point>, anchor: nat, i: nat): real
    requires Resolvable(terms, points, anchor) && i <= |terms|
    decreases |terms| - i
  {
    if i == |terms| then 0.0
    else terms[i].coefficient * points[anchor + terms[i].sampleOffset].value.amount + SumFrom(terms, points, anchor, i + 1)
  }

  lemma {:induction false} SumIsWeightedSum(terms: seq<Term>, points: seq<Point>, anchor: nat, i: nat)
    requires Resolvable(terms, points, anchor) && i <= |terms|
    ensures Resolvable(terms[..i], points, anchor)
    ensures WeightedSum(terms[..i], points, anchor) + SumFrom(terms, points, anchor, i) == WeightedSum(terms, points, anchor)
    decreases |terms| - i
  {
    hide WeightedSum;
    assert forall k :: 0 <= k < i ==> terms[..i][k] == terms[k];
    if i == |terms| {
      assert terms[..i] == terms;
    } else {
      SumIsWeightedSum(terms, points, anchor, i + 1);
      SumStep(terms, i, points, anchor);
    }
  }

  /** The reported term reads the right point under the right name. */
  ghost predicate Reads(value: TermValue, rule: Rule, points: seq<Point>, anchor: nat, i: nat)
    requires TermsSound(rule) && i < |rule.terms| && anchor + rule.terms[i].sampleOffset < |points|
  {
    var term, point := rule.terms[i], points[anchor + rule.terms[i].sampleOffset];
    && value.variable == term.variable && value.sequence == rule.mapping[term.variable] && value.coefficient == term.coefficient
    && value.sampleOffset == term.sampleOffset && value.aggregation == term.aggregation
    && value.sampleTime == point.time && point.value == Number(value.value)
  }

  /** `v` reports this anchor: its time, its sum, the rule's bounds and every term read. */
  ghost predicate Reports(v: Violation, rule: Rule, points: seq<Point>, anchor: nat)
    requires TermsSound(rule) && Resolvable(rule.terms, points, anchor) && anchor < |points|
  {
    && v.ruleId == rule.id && v.orGroup == rule.orGroup && v.lower == rule.lower && v.upper == rule.upper
    && v.anchor == points[anchor].time && v.value == SumFrom(rule.terms, points, anchor, 0)
    && |v.terms| == |rule.terms| && forall i :: 0 <= i < |rule.terms| ==> Reads(v.terms[i], rule, points, anchor, i)
  }

  /** A rule is violated at an anchor exactly when the sum is out of a bound the rule has. */
  lemma ViolationMeaning(rule: Rule, points: seq<Point>, anchor: nat)
    requires TermsSound(rule) && Resolvable(rule.terms, points, anchor) && anchor < |points|
    ensures ViolationAt(rule, points, anchor).Some? <==> OutOfBounds(rule, SumFrom(rule.terms, points, anchor, 0))
    ensures ViolationAt(rule, points, anchor).Some? ==> Reports(ViolationAt(rule, points, anchor).value, rule, points, anchor)
  {
    SumIsWeightedSum(rule.terms, points, anchor, 0);
    assert rule.terms[..0] == [];
  }

  /** The anchors a check looks at: in the range, with all offsets inside the window. */
  lemma {:induction false} AnchorsMeaning(points: seq<Point>, m: nat, range: Option<CheckRange>, a: nat)
    requires Nondecreasing(points)
    ensures FirstAnchor(points, range) <= a < LastAnchor(points, m, range) <==>
            a + m < |points| && (range.Some? ==> range.value.start <= points[a].time <= range.value.end)
  {
    hide LowerBound, UpperBound;
  }

  /** Anchors lo..hi are reported exactly where the sum is out of bounds. */
  ghost predicate ReportsExactly(violations: seq<Violation>, rule: Rule, points: seq<Point>, lo: nat, hi: int)
    requires TermsSound(rule) && ResolvableOn(rule, points, lo, hi)
  {
    && (forall a :: lo <= a < hi && OutOfBounds(rule, SumFrom(rule.terms, points, a, 0)) ==> exists v :: v in violations && Reports(v, rule, points, a))
    && (forall v :: v in violations ==> exists a :: lo <= a < hi && OutOfBounds(rule, SumFrom(rule.terms, points, a, 0)) && Reports(v, rule, points, a))
  }

  lemma {:induction false} ViolationsMeaning(rule: Rule, points: seq<Point>, lo: nat, hi: nat)
    requires TermsSound(rule) && ResolvableOn(rule, points, lo, hi)
    ensures ReportsExactly(ViolationsOn(rule, points, lo, hi), rule, points, lo, hi)
    decreases hi
  {
    hide OutOfBounds, SumFrom, Reports, ViolationAt, Resolvable;
    if lo < hi {
      ViolationsMeaning(rule, points, lo, hi - 1);
      ViolationMeaning(rule, points, hi - 1);
      var before, all, here := ViolationsOn(rule, points, lo, hi - 1), ViolationsOn(rule, points, lo, hi), ViolationAt(rule, points, hi - 1);
      assert all == before + if here.Some? then [here.value] else [];
      forall a | lo <= a < hi && OutOfBounds(rule, SumFrom(rule.terms, points, a, 0)) ensures exists v :: v in all && Reports(v, rule, points, a) {
        if a < hi - 1 {
          var v :| v in before && Reports(v, rule, points, a);
          assert v in all;
        } else {
          assert here.value in all;
        }
      }
    }
  }

  // ----- clauses -----

  ghost predicate SameClause(a: Rule, b: Rule) {
    if a.orGroup == "" then b.orGroup == "" && a.id == b.id else a.orGroup == b.orGroup
  }

  lemma SameClauseSameKey(a: Rule, b: Rule)
    ensures ClauseKey(b) == ClauseKey(a) <==> SameClause(a, b)
  {
    ClauseKeysAgree(a, b);
  }

  /** Some rule of the clause has no violation. */
  ghost predicate Relieved(outcomes: seq<RuleOutcome>, i: nat)
    requires i < |outcomes|
  {
    exists j :: 0 <= j < |outcomes| && SameClause(outcomes[i].rule, outcomes[j].rule) && outcomes[j].violations == []
  }

  ghost function EvaluatedFrom(outcomes: seq<RuleOutcome>, i: nat): nat
    requires i <= |outcomes|
    decreases |outcomes| - i
  {
    if i == |outcomes| then 0 else outcomes[i].evaluated + EvaluatedFrom(outcomes, i + 1)
  }

  ghost function PendingFrom(outcomes: seq<RuleOutcome>, i: nat): nat
    requires i <= |outcomes|
    decreases |outcomes| - i
  {
    if i == |outcomes| then 0 else outcomes[i].pending + PendingFrom(outcomes, i + 1)
  }

  lemma {:induction false} CountsFrom(outcomes: seq<RuleOutcome>, i: nat)
    requires i <= |outcomes|
    ensures Evaluated(outcomes[..i]) + EvaluatedFrom(outcomes, i) == Evaluated(outcomes)
    ensures Pending(outcomes[..i]) + PendingFrom(outcomes, i) == Pending(outcomes)
    decreases |outcomes| - i
  {
    if i == |outcomes| {
      assert outcomes[..i] == outcomes;
    } else {
      CountsFrom(outcomes, i + 1);
      assert outcomes[..i + 1][..i] == outcomes[..i];
    }
  }

  /** The result over all outcomes: satisfied when every rule with violations shares its
      clause with one that has none; only the others' violations are reported; the
      counts are sums. */
  lemma ResultMeaning(outcomes: seq<RuleOutcome>, v: Violation)
    ensures AllClausesHold(outcomes) <==> forall i :: 0 <= i < |outcomes| ==> Relieved(outcomes, i)
    ensures v in Reported(outcomes, KeysOf(outcomes)) <==> exists i :: 0 <= i < |outcomes| && v in outcomes[i].violations && !Relieved(outcomes, i)
    ensures Evaluated(outcomes) == EvaluatedFrom(outcomes, 0) && Pending(outcomes) == PendingFrom(outcomes, 0)
  {
    hide ClauseKey, Reported, KeysOf, EvaluatedFrom, PendingFrom;
    forall i | 0 <= i < |outcomes| ensures ClauseHolds(outcomes, ClauseKey(outcomes[i].rule)) <==> Relieved(outcomes, i) {
      forall j | 0 <= j < |outcomes| ensures ClauseKey(outcomes[j].rule) == ClauseKey(outcomes[i].rule) <==> SameClause(outcomes[i].rule, outcomes[j].rule) {
        SameClauseSameKey(outcomes[i].rule, outcomes[j].rule);
      }
    }
    ReportsExactlyFailingClauses(outcomes, v);
    hide ClauseHolds, Relieved;
    CountsFrom(outcomes, 0);
  }

  // ----- aggregate rules -----

  /** `x` is the average, the greatest or the least of the points' values, as the term asks. */
  ghost predicate Aggregates(x: real, aggregation: TermAggregation, part: seq<Point>) {
    part != [] && Buckets.AllNumbers(part) &&
    match aggregation
    case Average => x == Buckets.Total(part) / |part| as real
    case Maximum => Buckets.Greatest(part, x)
    case Minimum => Buckets.Least(part, x)
    case Sample => false
  }

  lemma SelectedMeaning(part: seq<Point>, aggregation: TermAggregation)
    requires part != [] && StatisticsOf(part).Some? && aggregation != Sample
    ensures Aggregates(Selected(StatisticsOf(part).value, aggregation), aggregation, part)
  {
    hide StatisticsOf, Buckets.AllNumbers, Buckets.Greatest, Buckets.Least, Buckets.Total;
    StatisticsMeaning(part);
  }

  /** The points of the sequence a term reads that lie in the window. */
  ghost function Read(rule: Rule, i: nat, values: map<SequenceId, seq<Point>>, start: int, end: int): seq<Point>
    requires TermsSound(rule) && i < |rule.terms|
  {
    var id := rule.mapping[rule.terms[i].variable];
    if id in values then WindowPart(values[id], start, end) else []
  }

  lemma {:induction false} WindowPartMeaning(points: seq<Point>, start: int, end: int, p: Point)
    ensures p in WindowPart(points, start, end) <==> p in points && start <= p.time < end
    decreases |points|
  {
    if points != [] {
      var front, last := points[..|points| - 1], points[|points| - 1];
      WindowPartMeaning(front, start, end, p);
      assert points == front + [last];
    }
  }

  /** Coefficient times aggregate over the terms from the `i`-th on. */
  ghost function TotalFrom(terms: seq<Term>, xs: seq<real>, i: nat): real
    requires |xs| == |terms| && i <= |terms|
    decreases |terms| - i
  {
    if i == |terms| then 0.0 else terms[i].coefficient * xs[i] + TotalFrom(terms, xs, i + 1)
  }

  lemma {:induction false} TotalIsAggregateSum(terms: seq<Term>, mapping: map<string, SequenceId>, statistics: map<SequenceId, Statistics>, xs: seq<real>, i: nat)
    requires forall k :: 0 <= k < |terms| ==> terms[k].variable in mapping && mapping[terms[k].variable] in statistics
    requires |xs| == |terms| && i <= |terms|
    requires forall k :: 0 <= k < |terms| ==> xs[k] == Selected(statistics[mapping[terms[k].variable]], terms[k].aggregation)
    ensures AggregateSum(terms[..i], mapping, statistics) + TotalFrom(terms, xs, i) == AggregateSum(terms, mapping, statistics)
    decreases |terms| - i
  {
    if i == |terms| {
      assert terms[..i] == terms;
    } else {
      TotalIsAggregateSum(terms, mapping, statistics, xs, i + 1);
      assert terms[..i + 1][..i] == terms[..i];
    }
  }

  /** The aggregates an outcome was computed from, one a term. */
  ghost predicate AreAggregates(xs: seq<real>, rule: Rule, values: map<SequenceId, seq<Point>>, start: int, end: int)
    requires TermsSound(rule)
  {
    |xs| == |rule.terms| && forall i :: 0 <= i < |xs| ==> Aggregates(xs[i], rule.terms[i].aggregation, Read(rule, i, values, start, end))
  }

  /** `v` reports the sum and every aggregate, at the window's end. */
  ghost predicate ReportsAggregates(v: Violation, rule: Rule, xs: seq<real>, end: Timestamp)
    requires TermsSound(rule) && |xs| == |rule.terms|
  {
    && v.ruleId == rule.id && v.orGroup == rule.orGroup && v.lower == rule.lower && v.upper == rule.upper
    && v.anchor == end && v.value == TotalFrom(rule.terms, xs, 0) && |v.terms| == |rule.terms|
    && forall i :: 0 <= i < |xs| ==>
                     && v.terms[i].variable == rule.terms[i].variable && v.terms[i].sequence == rule.mapping[rule.terms[i].variable]
                     && v.terms[i].coefficient == rule.terms[i].coefficient && v.terms[i].value == xs[i] && v.terms[i].sampleTime == end
  }

  /** Pending while some term has nothing to read; otherwise one violation exactly
      when the weighted aggregates are out of bounds, and it reports their sum. */
  lemma {:induction false} AggregateMeaning(outcome: RuleOutcome, rule: Rule, values: map<SequenceId, seq<Point>>, start: int, end: Timestamp,
                                            range: Option<CheckRange>)
    requires IsOutcome(outcome, rule, values, start, end, range) && !AllSample(rule.terms)
    ensures (exists i :: 0 <= i < |rule.terms| && Read(rule, i, values, start, end) == []) ==>
              outcome.pending == 1 && outcome.evaluated == 0 && outcome.violations == []
    ensures (forall i :: 0 <= i < |rule.terms| ==> Read(rule, i, values, start, end) != []) ==>
              exists xs :: AreAggregates(xs, rule, values, start, end)
                           && outcome.pending == 0 && outcome.evaluated == 1
                           && |outcome.violations| == (if OutOfBounds(rule, TotalFrom(rule.terms, xs, 0)) then 1 else 0)
                           && forall v :: v in outcome.violations ==> ReportsAggregates(v, rule, xs, end)
  {
    hide StatisticsOf, WindowPart, Selected, Aggregates, AggregateSum, TotalFrom, OutOfBounds, WithinBounds;
    var statistics :| AreStatistics(statistics, rule.terms, rule.mapping, values, start, end) && IsAggregateOutcome(outcome, rule, statistics, end);
    forall i | 0 <= i < |rule.terms|
      ensures rule.mapping[rule.terms[i].variable] in statistics <==> Read(rule, i, values, start, end) != []
    {
      StatisticsMeaning(Read(rule, i, values, start, end));
    }
    if forall i :: 0 <= i < |rule.terms| ==> Read(rule, i, values, start, end) != [] {
      var xs := seq(|rule.terms|, i requires 0 <= i < |rule.terms| => Selected(statistics[rule.mapping[rule.terms[i].variable]], rule.terms[i].aggregation));
      forall i | 0 <= i < |xs| ensures Aggregates(xs[i], rule.terms[i].aggregation, Read(rule, i, values, start, end)) {
        SelectedMeaning(Read(rule, i, values, start, end), rule.terms[i].aggregation);
      }
      TotalIsAggregateSum(rule.terms, rule.mapping, statistics, xs, 0);
      NoAggregates(rule, statistics);
      BoundsMeaning(rule, TotalFrom(rule.terms, xs, 0));
      assert AreAggregates(xs, rule, values, start, end);
    }
  }

  lemma NoAggregates(rule: Rule, statistics: map<SequenceId, Statistics>)
    ensures AggregateSum(rule.terms[..0], rule.mapping, statistics) == 0.0
  {
  }

  lemma BoundsMeaning(rule: Rule, x: real)
    ensures WithinBounds(x, rule) <==> !OutOfBounds(rule, x)
  {
  }

  /** What every rule of a checked window reports: a sample rule exactly the anchors
      out of bounds, within the range and with all offsets inside the window. */
  lemma {:induction false} SampleMeaning(outcome: RuleOutcome, rule: Rule, values: map<SequenceId, seq<Point>>, start: int, end: Timestamp, range: Option<CheckRange>)
    requires IsOutcome(outcome, rule, values, start, end, range) && AllSample(rule.terms)
    ensures exists id, m: nat ::
              && ReadsOnly(rule, id) && id in values && IsMaximumOffset(m, rule.terms)
              && var lo, hi := FirstAnchor(values[id], range), LastAnchor(values[id], m, range);
                 && ResolvableOn(rule, values[id], lo, hi) && ReportsExactly(outcome.violations, rule, values[id], lo, hi)
                 && outcome.evaluated == Max(0, hi - lo) && outcome.pending == 0
  {
    hide ResolvableOn, FirstAnchor, LastAnchor, ViolationsOn, ReportsExactly;
    var id :| ReadsOnly(rule, id) && SampleOutcome(rule, values, id, range) == Some(outcome);
    var m := MaximumOffset(rule.terms);
    var lo, hi := FirstAnchor(values[id], range), LastAnchor(values[id], m, range);
    ClampedAnchors(rule, values[id], lo, hi);
  }

  lemma ClampedAnchors(rule: Rule, points: seq<Point>, lo: nat, hi: int)
    requires TermsSound(rule) && ResolvableOn(rule, points, lo, hi)
    ensures ResolvableOn(rule, points, lo, Max(0, hi))
    ensures ReportsExactly(ViolationsOn(rule, points, lo, Max(0, hi)), rule, points, lo, hi)
  {
    hide OutOfBounds, SumFrom, Reports, Resolvable;
    ViolationsMeaning(rule, points, lo, Max(0, hi));
  }
}
