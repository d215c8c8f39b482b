/** A check over a range of anchors against the full check, for a list of rules. */
module ConstraintRanges {
  import opened Timeline
  import opened WindowServices
  import opened ConstraintRules
  import opened ConstraintEngines
  import opened ConstraintClauses
  import opened ConstraintChecks

  /** Sample rules without OR groups, each under its own identifier. */
  ghost predicate Ungrouped(rules: seq<Rule>) {
    && (forall i :: 0 <= i < |rules| ==> rules[i].orGroup == "" && AllSample(rules[i].terms))
    && (forall i, j :: 0 <= i < j < |rules| ==> rules[i].id != rules[j].id)
  }

  ghost predicate Separate(outcomes: seq<RuleOutcome>) {
    forall i, j :: 0 <= i < j < |outcomes| ==> ClauseKey(outcomes[i].rule) != ClauseKey(outcomes[j].rule)
  }

  /** All violations, rule after rule. */
  ghost function Listed(outcomes: seq<RuleOutcome>): seq<Violation> {
    if outcomes == [] then [] else Listed(outcomes[..|outcomes| - 1]) + outcomes[|outcomes| - 1].violations
  }

  lemma {:induction false} OwnIndex(outcomes: seq<RuleOutcome>, n: nat)
    requires Separate(outcomes) && n < |outcomes|
    ensures IndicesOf(outcomes, ClauseKey(outcomes[n].rule)) == [n]
    decreases |outcomes|
  {
    hide ClauseKey;
    var last := |outcomes| - 1;
    var front := outcomes[..last];
    var key := ClauseKey(outcomes[n].rule);
    assert forall i :: 0 <= i < last ==> front[i] == outcomes[i];
    if n < last {
      OwnIndex(front, n);
    } else {
      KeysExactly(front);
      NoIndices(front, key);
    }
  }

  lemma {:induction false} ListedSoFar(outcomes: seq<RuleOutcome>, n: nat)
    requires Separate(outcomes) && n <= |outcomes|
    ensures Reported(outcomes, KeysOf(outcomes[..n])) == Listed(outcomes[..n])
    decreases n
  {
    hide ClauseKey, Reported, KeysOf, Listed, Separate, Gathered, ClauseHolds, IndicesOf;
    if n > 0 {
      var key := ClauseKey(outcomes[n - 1].rule);
      ListedSoFar(outcomes, n - 1);
      NewKey(outcomes, n - 1);
      var keys := KeysOf(outcomes[..n]);
      var c := |keys| - 1;
      assert keys[..c] == KeysOf(outcomes[..n - 1]) && keys[..c + 1] == keys && keys[c] == key;
      ReportedStep(outcomes, keys, c);
      OwnClause(outcomes, n - 1);
      ListedStep(outcomes, n - 1);
    } else {
      assert outcomes[..0] == [];
      NothingListed(outcomes);
    }
  }

  lemma {:induction false} NewKey(outcomes: seq<RuleOutcome>, n: nat)
    requires Separate(outcomes) && n < |outcomes|
    ensures KeysOf(outcomes[..n + 1]) == KeysOf(outcomes[..n]) + [ClauseKey(outcomes[n].rule)]
  {
    hide ClauseKey, KeysOf;
    OneMoreOutcome(outcomes, n);
    KeysExactly(outcomes[..n]);
    assert forall i :: 0 <= i < n ==> outcomes[..n][i] == outcomes[i];
  }

  lemma {:induction false} OwnClause(outcomes: seq<RuleOutcome>, n: nat)
    requires Separate(outcomes) && n < |outcomes|
    ensures var key := ClauseKey(outcomes[n].rule);
            && (ClauseHolds(outcomes, key) <==> outcomes[n].violations == [])
            && Gathered(outcomes, Indices(outcomes, key)) == outcomes[n].violations
  {
    hide ClauseKey;
    OwnIndex(outcomes, n);
    assert [n][..0] == [];
  }

  lemma ListedStep(outcomes: seq<RuleOutcome>, n: nat)
    requires n < |outcomes|
    ensures Listed(outcomes[..n + 1]) == Listed(outcomes[..n]) + outcomes[n].violations
    ensures outcomes[n].violations == [] ==> Listed(outcomes[..n + 1]) == Listed(outcomes[..n])
  {
    var upto := outcomes[..n + 1];
    assert upto[..n] == outcomes[..n] && upto[n] == outcomes[n];
  }

  lemma NothingListed(outcomes: seq<RuleOutcome>)
    ensures Reported(outcomes, KeysOf([])) == Listed([])
  {
  }

  /** With every rule its own clause, the report is all violations, rule after rule. */
  lemma SeparateClausesListAll(outcomes: seq<RuleOutcome>)
    requires Separate(outcomes)
    ensures Reported(outcomes, KeysOf(outcomes)) == Listed(outcomes)
  {
    hide Reported, Listed, ClauseKey;
    ListedSoFar(outcomes, |outcomes|);
    assert outcomes[..|outcomes|] == outcomes;
  }

  lemma {:induction false} ListedInRange(full: seq<RuleOutcome>, part: seq<RuleOutcome>, range: CheckRange)
    requires |part| == |full| && forall i :: 0 <= i < |full| ==> part[i].violations == InRange(full[i].violations, range)
    ensures Listed(part) == InRange(Listed(full), range)
    decreases |full|
  {
    if full == [] {
      InRangeNone(range);
    } else {
      var n := |full| - 1;
      ListedInRange(full[..n], part[..n], range);
      InRangeConcat(Listed(full[..n]), full[n].violations, range);
    }
  }

  /** One rule: where the full check has an outcome, so has the ranged one, and
      its violations are the full ones with anchors in the range. */
  lemma {:induction false} RangedOutcome(rule: Rule, values: map<SequenceId, seq<Point>>, start: Timestamp, end: Timestamp, range: CheckRange, full: RuleOutcome)
    requires AllSample(rule.terms) && IsOutcome(full, rule, values, start, end, None)
    requires forall id :: id in values ==> Nondecreasing(values[id])
    ensures Checkable(rule, values, start, end, Some(range))
    ensures forall part :: IsOutcome(part, rule, values, start, end, Some(range)) ==> part.violations == InRange(full.violations, range)
  {
    hide ResolvableOn, ViolationsOn, FirstAnchor, LastAnchor, MaximumOffset, AllSample, InRange, Nondecreasing;
    var id :| ReadsOnly(rule, id) && SampleOutcome(rule, values, id, None) == Some(full);
    var points, m := values[id], MaximumOffset(rule.terms);
    NoRangeStartsAtZero(points);
    RangedIsFullFiltered(rule, points, m, range);
    assert SampleOutcome(rule, values, id, Some(range)).Some?;
    assert IsOutcome(SampleOutcome(rule, values, id, Some(range)).value, rule, values, start, end, Some(range));
    forall part | IsOutcome(part, rule, values, start, end, Some(range)) ensures part.violations == InRange(full.violations, range) {
      var other :| ReadsOnly(rule, other) && SampleOutcome(rule, values, other, Some(range)) == Some(part);
      assert other in {id};
    }
  }

  lemma NoRangeStartsAtZero(points: seq<Point>)
    ensures FirstAnchor(points, None) == 0
  {
  }

  lemma KeptApart(rules: seq<Rule>, outcomes: seq<RuleOutcome>, values: map<SequenceId, seq<Point>>, start: Timestamp, end: Timestamp, range: Option<CheckRange>)
    requires Ungrouped(rules) && |outcomes| == |rules| && forall i :: 0 <= i < |rules| ==> IsOutcome(outcomes[i], rules[i], values, start, end, range)
    ensures Separate(outcomes)
  {
    hide ClauseKey;
    forall i, j | 0 <= i < j < |outcomes| ensures ClauseKey(outcomes[i].rule) != ClauseKey(outcomes[j].rule) {
      assert outcomes[i].rule == rules[i] && outcomes[j].rule == rules[j];
      ClauseKeysAgree(rules[i], rules[j]);
    }
  }

  /** For ordered points and rules without OR groups, whenever the full check has
      a result the ranged check has one, and reports the full check's violations
      with anchors in the range, in the same order. */
  lemma {:induction false} RangedCheckIsFullFiltered(rules: seq<Rule>, values: map<SequenceId, seq<Point>>, start: Timestamp, end: Timestamp, range: CheckRange,
                                                     full: seq<RuleOutcome>, part: seq<RuleOutcome>)
    requires Ungrouped(rules) && forall id :: id in values ==> Nondecreasing(values[id])
    requires |full| == |rules| && forall i :: 0 <= i < |rules| ==> IsOutcome(full[i], rules[i], values, start, end, None)
    ensures forall i :: 0 <= i < |rules| ==> Checkable(rules[i], values, start, end, Some(range))
    ensures |part| == |rules| && (forall i :: 0 <= i < |rules| ==> IsOutcome(part[i], rules[i], values, start, end, Some(range))) ==>
              Reported(part, KeysOf(part)) == InRange(Reported(full, KeysOf(full)), range)
  {
    hide IsOutcome, Checkable, Reported, Listed, Separate, Nondecreasing, InRange;
    forall i | 0 <= i < |rules|
      ensures Checkable(rules[i], values, start, end, Some(range))
      ensures forall one :: IsOutcome(one, rules[i], values, start, end, Some(range)) ==> one.violations == InRange(full[i].violations, range)
    {
      RangedOutcome(rules[i], values, start, end, range, full[i]);
    }
    if |part| == |rules| && forall i :: 0 <= i < |rules| ==> IsOutcome(part[i], rules[i], values, start, end, Some(range)) {
      KeptApart(rules, full, values, start, end, None);
      KeptApart(rules, part, values, start, end, Some(range));
      SeparateClausesListAll(full);
      SeparateClausesListAll(part);
      ListedInRange(full, part, range);
    }
  }
}
