/** Running the rules an ingest touched, and editing the cached violations. */
module ConstraintGroups {
  import opened Timeline
  import opened WindowServices
  import opened ConstraintRules
  import opened ConstraintEngines
  import opened ConstraintClauses
  import opened ConstraintChecks
  import opened ContinuousConstraints

  /** A sample rule over one sequence; blank identifiers never make it into a query. */
  datatype BoundRule = BoundRule(rule: Rule, sequence: SequenceId) {
    ghost predicate Sound() {
      ValidSample(rule) && ReadsOnly(rule, sequence) && sequence != ""
    }
  }

  function RulesOf(rules: seq<BoundRule>): (r: seq<Rule>)
    ensures |r| == |rules| && forall i :: 0 <= i < |rules| ==> r[i] == rules[i].rule
  {
    seq(|rules|, i requires 0 <= i < |rules| => rules[i].rule)
  }

  ghost predicate AllSound(rules: seq<BoundRule>) {
    && (forall i :: 0 <= i < |rules| ==> rules[i].Sound())
    && (forall i, j :: 0 <= i < j < |rules| ==> rules[i].rule.id != rules[j].rule.id)
  }

  // ----- moving the range start back -----

  method LargestOffset(terms: seq<Term>) returns (m: nat)
    requires terms != []
    ensures m == MaximumOffset(terms)
  {
    m := 0;
    for i := 0 to |terms|
      invariant i > 0 ==> m == MaximumOffset(terms[..i])
      invariant i == 0 ==> m == 0
    {
      assert i > 0 ==> terms[..i + 1][..i] == terms[..i];
      if terms[i].sampleOffset > m { m := terms[i].sampleOffset; }
    }
    assert terms[..|terms|] == terms;
  }

  /** Every rule's sequence is entered far enough back for the anchors whose
      offsets reach into the range; later rules only move the start further. */
  method MoveRangeBack(rules: seq<BoundRule>, values: map<SequenceId, seq<Point>>, start: Timestamp) returns (first: Timestamp)
    requires forall i :: 0 <= i < |rules| ==> rules[i].rule.terms != []
    requires forall id :: id in values ==> Nondecreasing(values[id])
    ensures first <= start
    ensures forall i :: 0 <= i < |rules| && rules[i].sequence in values ==>
                          ReachesBack(first, values[rules[i].sequence], start, MaximumOffset(rules[i].rule.terms))
  {
    hide MaximumOffset, LowerBound;
    first := start;
    for i := 0 to |rules|
      invariant first <= start
      invariant forall k :: 0 <= k < i && rules[k].sequence in values ==>
                              ReachesBack(first, values[rules[k].sequence], start, MaximumOffset(rules[k].rule.terms))
    {
      if rules[i].sequence in values {
        var points := values[rules[i].sequence];
        var steps := LargestOffset(rules[i].rule.terms);
        ghost var m := steps;
        var anchor: nat := LowerBound(points, 0, first);
        ghost var from := anchor;
        while anchor != 0 && steps != 0
          invariant steps <= m && anchor + (m - steps) == from && anchor <= from
          decreases anchor
        {
          anchor := anchor - 1;
          steps := steps - 1;
        }
        LowerBoundMonotone(points, first, start);
        var earlier := if anchor != |points| && points[anchor].time < first then points[anchor].time else first;
        MovedBack(points, first, start, m, from, anchor, earlier);
        forall k | 0 <= k < i && rules[k].sequence in values
          ensures ReachesBack(earlier, values[rules[k].sequence], start, MaximumOffset(rules[k].rule.terms))
        {
        }
        first := earlier;
      }
    }
  }

  lemma MovedBack(points: seq<Point>, first: int, start: int, m: nat, from: nat, anchor: nat, earlier: int)
    requires Nondecreasing(points) && first <= start && from == LowerBound(points, 0, first) && anchor == (if from < m then 0 else from - m)
    requires earlier == if anchor != |points| && points[anchor].time < first then points[anchor].time else first
    ensures ReachesBack(earlier, points, start, m)
  {
    hide LowerBound;
    LowerBoundMonotone(points, first, start);
  }

  // ----- checking one group -----

  /** A group may only mix rules that are clauses of their own. */
  ghost predicate Unmixed(rules: seq<BoundRule>) {
    |rules| <= 1 || forall i :: 0 <= i < |rules| ==> rules[i].rule.orGroup == ""
  }

  function RowIn(values: map<SequenceId, seq<Point>>, id: SequenceId): seq<Point> {
    if id in values then values[id] else []
  }

  /** The rules whose sequence the window shows. */
  ghost function Applicable(rules: seq<BoundRule>, values: map<SequenceId, seq<Point>>): (r: seq<BoundRule>)
    ensures forall b :: b in r <==> b in rules && b.sequence in values
  {
    if rules == [] then []
    else
      var last := rules[|rules| - 1];
      assert rules == rules[..|rules| - 1] + [last];
      Applicable(rules[..|rules| - 1], values) + if last.sequence in values then [last] else []
  }

  lemma {:induction false} ApplicableSound(rules: seq<BoundRule>, values: map<SequenceId, seq<Point>>)
    requires AllSound(rules)
    ensures AllSound(Applicable(rules, values)) && |Applicable(rules, values)| <= |rules|
    ensures forall b :: b in Applicable(rules, values) ==> b in rules
    decreases |rules|
  {
    hide BoundRule.Sound, AllSound;
    if rules != [] {
      var front, last := rules[..|rules| - 1], rules[|rules| - 1];
      FrontSound(front, last, rules);
      ApplicableSound(front, values);
      OneMoreSound(rules, Applicable(front, values), last);
      assert Applicable(front, values) + [] == Applicable(front, values);
    } else {
      NoneSound();
    }
  }

  lemma NoneSound()
    ensures AllSound([])
  {
  }

  lemma FrontSound(front: seq<BoundRule>, last: BoundRule, rules: seq<BoundRule>)
    requires AllSound(rules) && rules == front + [last]
    ensures AllSound(front)
  {
    hide BoundRule.Sound;
    assert forall i :: 0 <= i < |front| ==> rules[i] == front[i];
  }

  lemma {:induction false} OneMoreSound(rules: seq<BoundRule>, r: seq<BoundRule>, last: BoundRule)
    requires AllSound(rules) && AllSound(r) && rules != [] && last == rules[|rules| - 1]
    requires forall b :: b in r ==> b in rules[..|rules| - 1]
    ensures AllSound(r + [last])
  {
    hide BoundRule.Sound;
    var front := rules[..|rules| - 1];
    forall i | 0 <= i < |r| ensures r[i].rule.id != last.rule.id {
      assert r[i] in r && r[i] in front;
      var k :| 0 <= k < |front| && front[k] == r[i];
      assert rules[k] == r[i];
    }
  }

  /** What a group's result says about each of its rules: exactly the expected
      violations of the shown row, from `first` on. */
  ghost predicate GroupFinds(found: seq<Violation>, rules: seq<BoundRule>, values: map<SequenceId, seq<Point>>, first: int, last: int) {
    forall i :: 0 <= i < |rules| && rules[i].Sound() && Row(RowIn(values, rules[i].sequence)) ==>
                  FoundIn(found, rules[i].rule, RowIn(values, rules[i].sequence), first, last)
  }

  ghost predicate GroupReaches(rules: seq<BoundRule>, values: map<SequenceId, seq<Point>>, first: int, start: int) {
    && first <= start
    && forall i :: 0 <= i < |rules| && rules[i].rule.terms != [] ==>
                     ReachesBack(first, RowIn(values, rules[i].sequence), start, MaximumOffset(rules[i].rule.terms))
  }

  ghost predicate HasOutcome(b: BoundRule, values: map<SequenceId, seq<Point>>, start: Timestamp, end: Timestamp, range: Option<CheckRange>) {
    start <= end && Checkable(b.rule, values, start, end, range)
  }

  /** A rule over a row of numbers can always be checked. */
  lemma {:induction false} RowHasOutcome(b: BoundRule, values: map<SequenceId, seq<Point>>, start: Timestamp, end: Timestamp, range: Option<CheckRange>)
    requires b.Sound() && start <= end && b.sequence in values && Row(values[b.sequence])
    ensures HasOutcome(b, values, start, end, range)
  {
    hide ResolvableOn, Row, MaximumOffset, FirstAnchor, LastAnchor, ViolationsOn;
    var points := values[b.sequence];
    var lo, hi := FirstAnchor(points, range), LastAnchor(points, MaximumOffset(b.rule.terms), range);
    CheckFinds(b.rule, points, range, Violation("", 0, None, None, 0.0, [], ""));
    ResolvableDown(b.rule, points, lo, hi);
    var outcome := SampleOutcome(b.rule, values, b.sequence, range).value;
    assert ReadsOnly(b.rule, b.sequence) && SampleOutcome(b.rule, values, b.sequence, range) == Some(outcome);
    assert IsOutcome(outcome, b.rule, values, start, end, range);
  }

  lemma ResolvableDown(rule: Rule, points: seq<Point>, lo: nat, hi: int)
    requires ResolvableOn(rule, points, lo, Max(0, hi))
    ensures ResolvableOn(rule, points, lo, hi)
  {
  }

  function CheckedRange(range: Option<AnchorRange>, first: Timestamp): Option<CheckRange> {
    if range.Some? then Some(CheckRange(first, range.value.end)) else None
  }

  /** Rules without data are skipped; the others are checked from the moved-back
      start to the end of the range, or over everything. The group fails exactly
      when one of them admits no outcome there. */
  method CheckGroup(rules: seq<BoundRule>, values: map<SequenceId, seq<Point>>, start: Timestamp, end: Timestamp, range: Option<AnchorRange>)
    returns (ok: bool, found: seq<Violation>, ghost first: Timestamp)
    requires AllSound(rules) && Unmixed(rules) && forall id :: id in values ==> StrictlyIncreasing(values[id])
    ensures ok <==> forall i :: 0 <= i < |rules| && rules[i].sequence in values ==> HasOutcome(rules[i], values, start, end, CheckedRange(range, first))
    ensures ok && range.None? ==> GroupFinds(found, rules, values, TIMESTAMP_MIN, TIMESTAMP_MAX)
    ensures ok && range.Some? ==>
              GroupFinds(found, rules, values, first, range.value.end) && GroupReaches(rules, values, first, range.value.start)
  {
    hide BoundRule.Sound, StrictlyIncreasing, Row, FoundIn, ReachesBack, MaximumOffset, HasOutcome, GroupFinds, GroupReaches, IsOutcome, Checkable, Reported, KeysOf, AllSound;
    first := if range.Some? then range.value.start else 0;
    var present: seq<BoundRule> := [];
    for i := 0 to |rules|
      invariant present == Applicable(rules[..i], values)
    {
      assert rules[..i + 1][..i] == rules[..i];
      if rules[i].sequence in values { present := present + [rules[i]]; }
    }
    assert rules[..|rules|] == rules;
    ApplicableSound(rules, values);
    PresentTerms(present);
    IncreasingIsOrdered(values);
    assert forall i :: 0 <= i < |rules| && rules[i].sequence in values ==> rules[i] in rules && rules[i] in present;
    if present == [] {
      ok, found := true, [];
      if range.Some? { SkippedReach(rules, values, range.value.start); }
      NothingFound(rules, values, first, if range.Some? then range.value.end else TIMESTAMP_MAX);
      NothingFound(rules, values, TIMESTAMP_MIN, TIMESTAMP_MAX);
      return;
    }
    var checkRange: Option<CheckRange> := None;
    if range.Some? {
      var moved := MoveRangeBack(present, values, range.value.start);
      first := moved;
      checkRange := Some(CheckRange(moved, range.value.end));
      PresentReach(rules, present, values, first, range.value.start);
    }
    var result, outcomes := CheckPresent(present, values, start, end, checkRange);
    OutcomesDecide(rules, present, values, start, end, checkRange, result, outcomes);
    if result.CheckFailed? { return false, [], first; }
    ok, found := true, result.violations;
    FoundByGroup(rules, present, values, start, end, checkRange, outcomes);
  }

  /** The engine on the rules that have data. */
  method CheckPresent(present: seq<BoundRule>, values: map<SequenceId, seq<Point>>, start: Timestamp, end: Timestamp, range: Option<CheckRange>)
    returns (result: CheckResult, ghost outcomes: seq<RuleOutcome>)
    requires present != [] && forall b :: b in present ==> b.sequence in values
    ensures start > end ==> result.CheckFailed?
    ensures result.Checked? ==>
              && |outcomes| == |present| && (forall i :: 0 <= i < |present| ==> IsOutcome(outcomes[i], present[i].rule, values, start, end, range))
              && result.violations == Reported(outcomes, KeysOf(outcomes))
    ensures result.CheckFailed? && start <= end ==> exists i :: 0 <= i < |present| && !Checkable(present[i].rule, values, start, end, range)
  {
    hide IsOutcome, Checkable, Reported, KeysOf;
    assert present[0] in present;
    var rules := RulesOf(present);
    result, outcomes := CheckConstraints(rules, values, start, end, range);
    if result.CheckFailed? && start <= end {
      ghost var i :| 0 <= i < |rules| && !Checkable(rules[i], values, start, end, range);
      assert !Checkable(present[i].rule, values, start, end, range);
    }
  }

  lemma CanCheck(outcome: RuleOutcome, rule: Rule, values: map<SequenceId, seq<Point>>, start: Timestamp, end: Timestamp, range: Option<CheckRange>)
    requires IsOutcome(outcome, rule, values, start, end, range)
    ensures Checkable(rule, values, start, end, range)
  {
    hide IsOutcome;
  }

  lemma {:induction false} OutcomesDecide(rules: seq<BoundRule>, present: seq<BoundRule>, values: map<SequenceId, seq<Point>>, start: Timestamp, end: Timestamp,
                                          range: Option<CheckRange>, result: CheckResult, outcomes: seq<RuleOutcome>)
    requires present == Applicable(rules, values) && present != []
    requires result.Checked? ==> |outcomes| == |present| && forall i :: 0 <= i < |present| ==> IsOutcome(outcomes[i], present[i].rule, values, start, end, range)
    requires start > end ==> result.CheckFailed?
    requires result.CheckFailed? && start <= end ==>
               exists i :: 0 <= i < |present| && !Checkable(present[i].rule, values, start, end, range)
    ensures result.Checked? <==> forall i :: 0 <= i < |rules| && rules[i].sequence in values ==> HasOutcome(rules[i], values, start, end, range)
  {
    hide IsOutcome, Checkable, Applicable;
    if result.Checked? {
      forall i | 0 <= i < |rules| && rules[i].sequence in values ensures HasOutcome(rules[i], values, start, end, range) {
        assert rules[i] in rules && rules[i] in present;
        var k :| 0 <= k < |present| && present[k] == rules[i];
        CanCheck(outcomes[k], rules[i].rule, values, start, end, range);
      }
    } else {
      if start > end { assert !HasOutcome(present[0], values, start, end, range); }
      var k :| 0 <= k < |present| && !HasOutcome(present[k], values, start, end, range);
      assert present[k] in present && present[k] in rules;
      var i :| 0 <= i < |rules| && rules[i] == present[k];
    }
  }

  lemma PresentTerms(rules: seq<BoundRule>)
    requires AllSound(rules)
    ensures forall i :: 0 <= i < |rules| ==> rules[i].rule.terms != []
  {
  }

  lemma IncreasingIsOrdered(values: map<SequenceId, seq<Point>>)
    requires forall id :: id in values ==> StrictlyIncreasing(values[id])
    ensures forall id :: id in values ==> Nondecreasing(values[id])
  {
  }

  lemma NothingReached(first: int, start: int, m: nat)
    requires first <= start
    ensures ReachesBack(first, [], start, m)
  {
  }

  lemma SkippedReach(rules: seq<BoundRule>, values: map<SequenceId, seq<Point>>, start: int)
    requires Applicable(rules, values) == []
    ensures GroupReaches(rules, values, start, start)
  {
    hide ReachesBack, MaximumOffset;
    forall i | 0 <= i < |rules| && rules[i].rule.terms != []
      ensures ReachesBack(start, RowIn(values, rules[i].sequence), start, MaximumOffset(rules[i].rule.terms))
    {
      assert rules[i] !in Applicable(rules, values) && rules[i] in rules;
      NothingReached(start, start, MaximumOffset(rules[i].rule.terms));
    }
  }

  lemma {:induction false} NothingFound(rules: seq<BoundRule>, values: map<SequenceId, seq<Point>>, first: int, last: int)
    requires Applicable(rules, values) == []
    ensures GroupFinds([], rules, values, first, last)
  {
    hide Expected, Row, ValidSample;
    forall i | 0 <= i < |rules| && rules[i].Sound() && Row(RowIn(values, rules[i].sequence))
      ensures FoundIn([], rules[i].rule, RowIn(values, rules[i].sequence), first, last)
    {
      assert rules[i] !in Applicable(rules, values) && rules[i] in rules;
      SoundIs(rules[i]);
      ExpectedOfNothing(rules[i].rule);
    }
  }

  lemma SoundIs(b: BoundRule)
    requires b.Sound()
    ensures ValidSample(b.rule) && ReadsOnly(b.rule, b.sequence) && b.rule.terms != []
  {
  }

  lemma ExpectedOfNothing(rule: Rule)
    requires ValidSample(rule)
    ensures Row([]) && forall t: Timestamp :: Expected(rule, [], t).None?
  {
    hide MaximumOffset;
  }

  lemma PresentReach(rules: seq<BoundRule>, present: seq<BoundRule>, values: map<SequenceId, seq<Point>>, first: int, start: int)
    requires present == Applicable(rules, values) && first <= start && forall i :: 0 <= i < |present| ==> present[i].rule.terms != []
    requires forall i :: 0 <= i < |present| && present[i].sequence in values ==>
                           ReachesBack(first, values[present[i].sequence], start, MaximumOffset(present[i].rule.terms))
    ensures GroupReaches(rules, values, first, start)
  {
    hide ReachesBack, MaximumOffset;
    forall i | 0 <= i < |rules| && rules[i].rule.terms != []
      ensures ReachesBack(first, RowIn(values, rules[i].sequence), start, MaximumOffset(rules[i].rule.terms))
    {
      if rules[i].sequence in values {
        assert rules[i] in present;
        var k :| 0 <= k < |present| && present[k] == rules[i];
      } else {
        NothingReached(first, start, MaximumOffset(rules[i].rule.terms));
      }
    }
  }

  /** Rules in a group are separate clauses, so the combined result holds every
      rule's own violations. */
  lemma {:induction false} SeparateRules(present: seq<BoundRule>, outcomes: seq<RuleOutcome>, v: Violation)
    requires AllSound(present) && Unmixed(present) && |outcomes| == |present|
    requires forall i :: 0 <= i < |present| ==> outcomes[i].rule == present[i].rule
    ensures v in Reported(outcomes, KeysOf(outcomes)) <==> exists i :: 0 <= i < |outcomes| && v in outcomes[i].violations
  {
    hide BoundRule.Sound, ClauseKey, Reported;
    forall i, j | 0 <= i < j < |outcomes| ensures ClauseKey(outcomes[i].rule) != ClauseKey(outcomes[j].rule) {
      ClauseKeysAgree(outcomes[i].rule, outcomes[j].rule);
    }
    SeparateClausesReportAll(outcomes, v);
  }

  lemma {:induction false} OutcomeViolations(b: BoundRule, outcome: RuleOutcome, values: map<SequenceId, seq<Point>>, start: int, end: Timestamp, range: Option<CheckRange>, v: Violation)
    requires b.Sound() && IsOutcome(outcome, b.rule, values, start, end, range)
    requires b.sequence in values && Row(values[b.sequence])
    ensures v in outcome.violations <==>
            Expected(b.rule, values[b.sequence], v.anchor) == Some(v) && (range.Some? ==> range.value.start <= v.anchor <= range.value.end)
    ensures v in outcome.violations ==> v.ruleId == b.rule.id
  {
    hide ResolvableOn, ViolationsOn, Expected, Row, MaximumOffset, FirstAnchor, LastAnchor;
    var id :| ReadsOnly(b.rule, id) && SampleOutcome(b.rule, values, id, range) == Some(outcome);
    assert id in {b.sequence};
    CheckFinds(b.rule, values[b.sequence], range, v);
    ExpectedAnchor(b.rule, values[b.sequence], v.anchor);
  }

  lemma {:induction false} OwnRuleId(rule: Rule, points: seq<Point>, lo: nat, hi: nat, v: Violation)
    requires TermsSound(rule) && ResolvableOn(rule, points, lo, hi)
    ensures v in ViolationsOn(rule, points, lo, hi) ==> v.ruleId == rule.id
    decreases hi
  {
    hide Resolvable, ViolationAt;
    if lo < hi { OwnRuleId(rule, points, lo, hi - 1, v); }
  }

  lemma OutcomeRuleId(b: BoundRule, outcome: RuleOutcome, values: map<SequenceId, seq<Point>>, start: int, end: Timestamp, range: Option<CheckRange>, v: Violation)
    requires b.Sound() && IsOutcome(outcome, b.rule, values, start, end, range) && v in outcome.violations
    ensures v.ruleId == b.rule.id
  {
    hide Resolvable, ViolationsOn, MaximumOffset, FirstAnchor, LastAnchor;
    var id :| ReadsOnly(b.rule, id) && SampleOutcome(b.rule, values, id, range) == Some(outcome);
    OwnRuleId(b.rule, values[id], FirstAnchor(values[id], range), Max(0, LastAnchor(values[id], MaximumOffset(b.rule.terms), range)), v);
  }

  lemma OutcomeRule(b: BoundRule, outcome: RuleOutcome, values: map<SequenceId, seq<Point>>, start: int, end: Timestamp, range: Option<CheckRange>)
    requires IsOutcome(outcome, b.rule, values, start, end, range)
    ensures outcome.rule == b.rule
  {
  }

  lemma {:induction false} FoundByGroup(rules: seq<BoundRule>, present: seq<BoundRule>, values: map<SequenceId, seq<Point>>, start: int, end: Timestamp,
                     range: Option<CheckRange>, outcomes: seq<RuleOutcome>)
    requires AllSound(rules) && Unmixed(rules) && present == Applicable(rules, values) && AllSound(present) && |present| <= |rules|
    requires |outcomes| == |present| && forall i :: 0 <= i < |present| ==> IsOutcome(outcomes[i], present[i].rule, values, start, end, range)
    ensures var first, last := if range.Some? then range.value.start else TIMESTAMP_MIN, if range.Some? then range.value.end else TIMESTAMP_MAX;
            GroupFinds(Reported(outcomes, KeysOf(outcomes)), rules, values, first, last)
  {
    hide Row, Expected, IsOutcome, Reported, AllSound, ClauseKey, ValidSample;
    var first, last := if range.Some? then range.value.start else TIMESTAMP_MIN, if range.Some? then range.value.end else TIMESTAMP_MAX;
    var found := Reported(outcomes, KeysOf(outcomes));
    forall i | 0 <= i < |rules| && rules[i].Sound() && Row(RowIn(values, rules[i].sequence))
      ensures FoundIn(found, rules[i].rule, RowIn(values, rules[i].sequence), first, last)
    {
      SoundIs(rules[i]);
      forall v ensures v in found && v.ruleId == rules[i].rule.id <==>
                       first <= v.anchor <= last && Expected(rules[i].rule, RowIn(values, rules[i].sequence), v.anchor) == Some(v)
      {
        FoundForRule(rules, present, values, start, end, range, outcomes, i, v);
      }
    }
  }

  lemma FoundForRule(rules: seq<BoundRule>, present: seq<BoundRule>, values: map<SequenceId, seq<Point>>, start: int, end: Timestamp,
                     range: Option<CheckRange>, outcomes: seq<RuleOutcome>, i: nat, v: Violation)
    requires AllSound(rules) && Unmixed(rules) && present == Applicable(rules, values) && AllSound(present) && |present| <= |rules|
    requires |outcomes| == |present| && forall i :: 0 <= i < |present| ==> IsOutcome(outcomes[i], present[i].rule, values, start, end, range)
    requires i < |rules| && ValidSample(rules[i].rule) && Row(RowIn(values, rules[i].sequence))
    ensures v in Reported(outcomes, KeysOf(outcomes)) && v.ruleId == rules[i].rule.id <==>
            && Expected(rules[i].rule, RowIn(values, rules[i].sequence), v.anchor) == Some(v)
            && (range.Some? ==> range.value.start <= v.anchor <= range.value.end)
  {
    hide Row, Expected, IsOutcome, Reported, ClauseKey, ValidSample, Applicable, KeysOf, Unmixed, BoundRule.Sound;
    assert rules[i].Sound();
    forall k | 0 <= k < |present| ensures outcomes[k].rule == present[k].rule && present[k] in rules {
      assert present[k] in present;
      OutcomeRule(present[k], outcomes[k], values, start, end, range);
    }
    PresentUnmixed(rules, present);
    SeparateRules(present, outcomes, v);
    if rules[i].sequence in values {
      assert rules[i] in rules && rules[i] in present;
      var k :| 0 <= k < |present| && present[k] == rules[i];
      OutcomeViolations(rules[i], outcomes[k], values, start, end, range, v);
      if j :| 0 <= j < |outcomes| && v in outcomes[j].violations { OutcomeRuleId(present[j], outcomes[j], values, start, end, range, v); }
    } else {
      ExpectedOfNothing(rules[i].rule);
      if j :| 0 <= j < |outcomes| && v in outcomes[j].violations {
        OutcomeRuleId(present[j], outcomes[j], values, start, end, range, v);
        assert present[j] in present;
        OtherRuleId(rules, i, present[j]);
      }
    }
  }

  lemma PresentUnmixed(rules: seq<BoundRule>, present: seq<BoundRule>)
    requires Unmixed(rules) && |present| <= |rules| && forall k :: 0 <= k < |present| ==> present[k] in rules
    ensures Unmixed(present)
  {
    hide BoundRule.Sound;
  }

  lemma OtherRuleId(rules: seq<BoundRule>, i: nat, b: BoundRule)
    requires AllSound(rules) && i < |rules| && b in rules && b.sequence != rules[i].sequence
    ensures b.rule.id != rules[i].rule.id
  {
    hide BoundRule.Sound;
    var k :| 0 <= k < |rules| && rules[k] == b;
  }
}
