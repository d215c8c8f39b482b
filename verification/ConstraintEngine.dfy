/** Checking sample rules over one sequence's points, anchor by anchor. */
module ConstraintEngines {
  import opened Timeline
  import opened WindowServices
  import opened ConstraintRules

  datatype TermValue = TermValue(
    variable: string,
    sequence: SequenceId,
    coefficient: real,
    sampleOffset: nat,
    sampleTime: Timestamp,
    value: real,
    aggregation: TermAggregation)

  datatype Violation = Violation(
    ruleId: string,
    anchor: Timestamp,
    lower: Option<real>,
    upper: Option<real>,
    value: real,
    terms: seq<TermValue>,
    orGroup: string)

  datatype CheckRange = CheckRange(start: Timestamp, end: Timestamp)

  predicate WithinBounds(x: real, rule: Rule) {
    && (rule.lower.Some? ==> rule.lower.value <= x)
    && (rule.upper.Some? ==> x <= rule.upper.value)
  }

  /** Every point a term reads from this anchor exists and is a number. */
  ghost predicate Resolvable(terms: seq<Term>, points: seq<Point>, anchor: nat) {
    forall i :: 0 <= i < |terms| ==> anchor + terms[i].sampleOffset < |points| && points[anchor + terms[i].sampleOffset].value.Number?
  }

  /** The weighted sum a rule bounds. */
  function WeightedSum(terms: seq<Term>, points: seq<Point>, anchor: nat): real
    requires Resolvable(terms, points, anchor)
  {
    if terms == [] then 0.0
    else
      var term := terms[|terms| - 1];
      WeightedSum(terms[..|terms| - 1], points, anchor) + term.coefficient * points[anchor + term.sampleOffset].value.amount
  }

  function TermAt(mapping: map<string, SequenceId>, term: Term, point: Point): TermValue
    requires term.variable in mapping && point.value.Number?
  {
    TermValue(term.variable, mapping[term.variable], term.coefficient, term.sampleOffset, point.time, point.value.amount, term.aggregation)
  }

  function ResolvedTerms(rule: Rule, points: seq<Point>, anchor: nat): (r: seq<TermValue>)
    requires Resolvable(rule.terms, points, anchor) && TermsSound(rule)
  {
    seq(|rule.terms|, i requires 0 <= i < |rule.terms| => TermAt(rule.mapping, rule.terms[i], points[anchor + rule.terms[i].sampleOffset]))
  }

  /** The violation of a rule at one anchor, if there is one. */
  function ViolationAt(rule: Rule, points: seq<Point>, anchor: nat): (r: Option<Violation>)
    requires Resolvable(rule.terms, points, anchor) && TermsSound(rule) && anchor < |points|
    ensures r.Some? ==> r.value.anchor == points[anchor].time && r.value.ruleId == rule.id
  {
    var x := WeightedSum(rule.terms, points, anchor);
    if WithinBounds(x, rule) then None
    else Some(Violation(rule.id, points[anchor].time, rule.lower, rule.upper, x, ResolvedTerms(rule, points, anchor), rule.orGroup))
  }

  ghost predicate ResolvableOn(rule: Rule, points: seq<Point>, lo: int, hi: int) {
    && 0 <= lo && (lo < hi ==> hi <= |points|)
    && forall a :: lo <= a < hi ==> Resolvable(rule.terms, points, a)
  }

  /** The violations at anchors lo..hi, in order. */
  ghost function ViolationsOn(rule: Rule, points: seq<Point>, lo: nat, hi: nat): (r: seq<Violation>)
    requires ResolvableOn(rule, points, lo, hi) && TermsSound(rule)
  {
    if hi <= lo then []
    else
      var here := ViolationAt(rule, points, hi - 1);
      ViolationsOn(rule, points, lo, hi - 1) + if here.Some? then [here.value] else []
  }

  /** The first anchor a check looks at, and the one it stops before. */
  function FirstAnchor(points: seq<Point>, range: Option<CheckRange>): (lo: nat)
    ensures lo <= |points|
  {
    if range.Some? then LowerBound(points, 0, range.value.start) else 0
  }

  function LastAnchor(points: seq<Point>, m: nat, range: Option<CheckRange>): int {
    var lo := FirstAnchor(points, range);
    if range.Some? then Min(UpperBound(points, lo, range.value.end), |points| - m) else |points| - m
  }

  method EvaluateRuleAt(rule: Rule, points: seq<Point>, anchor: nat) returns (ok: bool, violation: Option<Violation>)
    requires TermsSound(rule) && anchor < |points| && forall i :: 0 <= i < |rule.terms| ==> anchor + rule.terms[i].sampleOffset < |points|
    ensures ok <==> Resolvable(rule.terms, points, anchor)
    ensures ok ==> violation == ViolationAt(rule, points, anchor)
  {
    hide WeightedSum, TermAt;
    var evaluated := 0.0;
    var resolved: seq<TermValue> := [];
    NoTerms(rule.terms, points, anchor);
    for i := 0 to |rule.terms|
      invariant Resolvable(rule.terms[..i], points, anchor) && evaluated == WeightedSum(rule.terms[..i], points, anchor)
      invariant |resolved| == i && forall k :: 0 <= k < i ==> IsResolved(resolved[k], rule, points, anchor, k)
    {
      var term := rule.terms[i];
      var point := points[anchor + term.sampleOffset];
      if point.value.NonNumeric? { return false, None; }
      SumStep(rule.terms, i, points, anchor);
      evaluated := evaluated + term.coefficient * point.value.amount;
      resolved := resolved + [TermAt(rule.mapping, term, point)];
    }
    assert rule.terms[..|rule.terms|] == rule.terms;
    ok := true;
    assert resolved == ResolvedTerms(rule, points, anchor);
    violation := if WithinBounds(evaluated, rule) then None
                 else Some(Violation(rule.id, points[anchor].time, rule.lower, rule.upper, evaluated, resolved, rule.orGroup));
  }

  ghost predicate IsResolved(value: TermValue, rule: Rule, points: seq<Point>, anchor: nat, k: nat)
    requires TermsSound(rule) && k < |rule.terms| && anchor + rule.terms[k].sampleOffset < |points|
  {
    var point := points[anchor + rule.terms[k].sampleOffset];
    point.value.Number? && value == TermAt(rule.mapping, rule.terms[k], point)
  }

  lemma NoTerms(terms: seq<Term>, points: seq<Point>, anchor: nat)
    ensures Resolvable(terms[..0], points, anchor) && WeightedSum(terms[..0], points, anchor) == 0.0
  {
  }

  lemma SumStep(terms: seq<Term>, i: nat, points: seq<Point>, anchor: nat)
    requires i < |terms| && Resolvable(terms[..i], points, anchor)
    requires anchor + terms[i].sampleOffset < |points| && points[anchor + terms[i].sampleOffset].value.Number?
    ensures Resolvable(terms[..i + 1], points, anchor)
    ensures WeightedSum(terms[..i + 1], points, anchor)
            == WeightedSum(terms[..i], points, anchor) + terms[i].coefficient * points[anchor + terms[i].sampleOffset].value.amount
  {
    var upto := terms[..i + 1];
    assert upto[..i] == terms[..i] && upto[i] == terms[i] && forall k :: 0 <= k < i ==> upto[k] == terms[..i][k];
  }

  /** One rule over one sequence: stops at the end of the range and where the
      maximum offset would leave the window. */
  method CheckSequence(rule: Rule, points: seq<Point>, m: nat, range: Option<CheckRange>)
    returns (ok: bool, evaluated: nat, violations: seq<Violation>)
    requires TermsSound(rule) && IsMaximumOffset(m, rule.terms)
    ensures var lo, hi := FirstAnchor(points, range), LastAnchor(points, m, range);
            && (ok <==> ResolvableOn(rule, points, lo, hi))
            && (ok ==> evaluated == Max(0, hi - lo) && violations == ViolationsOn(rule, points, lo, Max(0, hi)))
  {
    hide Resolvable, TermsSound, IsMaximumOffset;
    evaluated, violations := 0, [];
    var lo := FirstAnchor(points, range);
    if m >= |points| { return true, 0, []; }
    var anchor := lo;
    ghost var hi := LastAnchor(points, m, range);
    while anchor + m < |points|
      invariant lo <= anchor && (anchor == lo || anchor <= hi)
      invariant ResolvableOn(rule, points, lo, anchor)
      invariant evaluated == anchor - lo && violations == ViolationsOn(rule, points, lo, anchor)
    {
      if range.Some? && points[anchor].time > range.value.end {
        UpperBoundStops(points, lo, range.value.end, anchor);
        break;
      }
      RoomForOffsets(rule, m, anchor, |points|);
      if range.Some? { UpperBoundPasses(points, lo, range.value.end, anchor); }
      var one, violation := EvaluateRuleAt(rule, points, anchor);
      if !one { return false, 0, []; }
      evaluated := evaluated + 1;
      if violation.Some? { violations := violations + [violation.value]; }
      anchor := anchor + 1;
    }
    NothingBelow(rule, points, lo, anchor, Max(0, hi));
    ok := true;
  }

  lemma RoomForOffsets(rule: Rule, m: nat, anchor: nat, length: nat)
    requires IsMaximumOffset(m, rule.terms) && anchor + m < length
    ensures forall i :: 0 <= i < |rule.terms| ==> anchor + rule.terms[i].sampleOffset < length
  {
  }

  lemma UpperBoundStops(points: seq<Point>, lo: nat, t: int, k: nat)
    requires lo <= k < |points| && t < points[k].time
    ensures UpperBound(points, lo, t) <= k
  {
  }

  lemma UpperBoundPasses(points: seq<Point>, lo: nat, t: int, k: nat)
    requires lo <= k < |points| && points[k].time <= t && (k == lo || k <= UpperBound(points, lo, t))
    ensures k < UpperBound(points, lo, t)
  {
  }

  lemma NothingBelow(rule: Rule, points: seq<Point>, lo: nat, a: nat, b: nat)
    requires TermsSound(rule) && ResolvableOn(rule, points, lo, a) && ResolvableOn(rule, points, lo, b)
    requires a == b || (a <= lo && b <= lo)
    ensures ViolationsOn(rule, points, lo, a) == ViolationsOn(rule, points, lo, b)
  {
  }

  // ----- a ranged check is the full check, filtered -----

  function InRange(violations: seq<Violation>, range: CheckRange): seq<Violation> {
    if violations == [] then []
    else
      var v := violations[|violations| - 1];
      InRange(violations[..|violations| - 1], range) + if range.start <= v.anchor <= range.end then [v] else []
  }

  lemma {:induction false} InRangeConcat(a: seq<Violation>, b: seq<Violation>, range: CheckRange)
    ensures InRange(a + b, range) == InRange(a, range) + InRange(b, range)
    decreases |b|
  {
    if b == [] {
      assert a + b == a;
    } else {
      InRangeConcat(a, b[..|b| - 1], range);
      assert (a + b)[..|a + b| - 1] == a + b[..|b| - 1];
    }
  }

  lemma {:induction false} ViolationsSplit(rule: Rule, points: seq<Point>, lo: nat, mid: nat, hi: nat)
    requires TermsSound(rule) && ResolvableOn(rule, points, lo, hi) && lo <= mid <= hi
    ensures ViolationsOn(rule, points, lo, hi) == ViolationsOn(rule, points, lo, mid) + ViolationsOn(rule, points, mid, hi)
    decreases hi
  {
    hide Resolvable, TermsSound;
    if mid < hi { ViolationsSplit(rule, points, lo, mid, hi - 1); }
  }

  /** Violations of a stretch that lies wholly inside, or wholly outside, the range. */
  lemma {:induction false} StretchInRange(rule: Rule, points: seq<Point>, lo: nat, hi: nat, range: CheckRange, inside: bool)
    requires TermsSound(rule) && ResolvableOn(rule, points, lo, hi)
    requires forall a :: lo <= a < hi ==> (inside <==> range.start <= points[a].time <= range.end)
    ensures InRange(ViolationsOn(rule, points, lo, hi), range) == if inside then ViolationsOn(rule, points, lo, hi) else []
    decreases hi
  {
    hide Resolvable, TermsSound, ViolationAt, InRange;
    if lo < hi {
      StretchInRange(rule, points, lo, hi - 1, range, inside);
      var front, here := ViolationsOn(rule, points, lo, hi - 1), ViolationAt(rule, points, hi - 1);
      if here.Some? {
        InRangeOneMore(front, here.value, range);
      } else {
        assert front + [] == front;
      }
    } else {
      InRangeNone(range);
    }
  }

  lemma {:induction false} InRangeOneMore(front: seq<Violation>, v: Violation, range: CheckRange)
    ensures InRange(front + [v], range) == InRange(front, range) + if range.start <= v.anchor <= range.end then [v] else []
  {
    assert (front + [v])[..|front|] == front;
  }

  lemma InRangeNone(range: CheckRange)
    ensures InRange([], range) == []
  {
  }

  lemma BoundsOrdered(points: seq<Point>, range: CheckRange)
    requires Nondecreasing(points)
    ensures var lo := LowerBound(points, 0, range.start);
            var end := UpperBound(points, lo, range.end);
            && (forall a :: 0 <= a < lo ==> points[a].time < range.start)
            && (forall a :: lo <= a < end ==> range.start <= points[a].time <= range.end)
            && (forall a :: end <= a < |points| ==> !(range.start <= points[a].time <= range.end))
  {
  }

  /** For ordered points, checking a range gives the full check's violations
      with anchors in the range, whenever the full check succeeds. */
  lemma {:induction false} RangedIsFullFiltered(rule: Rule, points: seq<Point>, m: nat, range: CheckRange)
    requires TermsSound(rule) && Nondecreasing(points)
    requires ResolvableOn(rule, points, 0, LastAnchor(points, m, None))
    ensures var lo, hi := FirstAnchor(points, Some(range)), LastAnchor(points, m, Some(range));
            && ResolvableOn(rule, points, lo, hi)
            && ViolationsOn(rule, points, lo, Max(0, hi)) == InRange(ViolationsOn(rule, points, 0, Max(0, LastAnchor(points, m, None))), range)
  {
    hide Resolvable, TermsSound, ViolationsOn, Nondecreasing, LowerBound, UpperBound;
    var lo, hi, all := FirstAnchor(points, Some(range)), LastAnchor(points, m, Some(range)), LastAnchor(points, m, None);
    BoundsOrdered(points, range);
    if all <= lo {
      if 0 < all { StretchInRange(rule, points, 0, all, range, false); }
      Nothing(rule, points, lo, Max(0, hi));
      Nothing(rule, points, 0, 0);
    } else {
      ViolationsSplit(rule, points, 0, lo, all);
      ViolationsSplit(rule, points, lo, hi, all);
      StretchInRange(rule, points, 0, lo, range, false);
      StretchInRange(rule, points, lo, hi, range, true);
      StretchInRange(rule, points, hi, all, range, false);
      InRangeConcat(ViolationsOn(rule, points, 0, lo), ViolationsOn(rule, points, lo, hi) + ViolationsOn(rule, points, hi, all), range);
      InRangeConcat(ViolationsOn(rule, points, lo, hi), ViolationsOn(rule, points, hi, all), range);
    }
  }

  lemma Nothing(rule: Rule, points: seq<Point>, lo: nat, hi: nat)
    requires TermsSound(rule) && ResolvableOn(rule, points, lo, hi) && hi <= lo
    ensures ViolationsOn(rule, points, lo, hi) == []
  {
  }
}
