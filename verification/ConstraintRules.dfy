/** Constraint rules and what makes one valid. */
module ConstraintRules {
  import opened Timeline
  import opened WindowServices

  datatype TermAggregation = Sample | Average | Maximum | Minimum

  datatype Term = Term(variable: string, coefficient: real, sampleOffset: nat, aggregation: TermAggregation)

  datatype Rule = Rule(
    id: string,
    mapping: map<string, SequenceId>,
    lower: Option<real>,
    upper: Option<real>,
    terms: seq<Term>,
    orGroup: string)

  datatype RuleKind = SampleRule | WindowAggregateRule

  datatype Properties = Properties(kind: RuleKind, maximumOffset: nat)

  ghost predicate TermsSound(rule: Rule) {
    forall i :: 0 <= i < |rule.terms| ==>
                  && rule.terms[i].variable != "" && rule.terms[i].variable in rule.mapping
                  && (rule.terms[i].aggregation != Sample ==> rule.terms[i].sampleOffset == 0)
  }

  ghost predicate AllSample(terms: seq<Term>) {
    forall i :: 0 <= i < |terms| ==> terms[i].aggregation == Sample
  }

  ghost predicate AllAggregate(terms: seq<Term>) {
    forall i :: 0 <= i < |terms| ==> terms[i].aggregation != Sample
  }

  /** Sample offsets start at zero and never go back. */
  ghost predicate OffsetsOrdered(terms: seq<Term>) {
    && (terms != [] ==> terms[0].sampleOffset == 0)
    && forall i, j :: 0 <= i < j < |terms| ==> terms[i].sampleOffset <= terms[j].sampleOffset
  }

  predicate BoundsSound(rule: Rule) {
    && (rule.lower.Some? || rule.upper.Some?)
    && (rule.lower.Some? && rule.upper.Some? ==> rule.lower.value <= rule.upper.value)
  }

  ghost predicate ValidRule(rule: Rule) {
    && rule.id != "" && BoundsSound(rule) && rule.mapping != map[] && rule.terms != []
    && TermsSound(rule)
    && ((AllSample(rule.terms) && OffsetsOrdered(rule.terms)) || AllAggregate(rule.terms))
  }

  /** `m` is the largest offset any term of the rule reaches. */
  ghost predicate IsMaximumOffset(m: nat, terms: seq<Term>) {
    && (forall i :: 0 <= i < |terms| ==> terms[i].sampleOffset <= m)
    && (exists i :: 0 <= i < |terms| && terms[i].sampleOffset == m)
  }

  /** The sample terms seen so far, in order. */
  ghost function SampleTerms(terms: seq<Term>): seq<Term> {
    if terms == [] then []
    else SampleTerms(terms[..|terms| - 1]) + if terms[|terms| - 1].aggregation == Sample then [terms[|terms| - 1]] else []
  }

  lemma {:induction false} SampleTermsLength(terms: seq<Term>)
    ensures |SampleTerms(terms)| <= |terms|
    ensures |SampleTerms(terms)| == |terms| <==> AllSample(terms)
    ensures SampleTerms(terms) == [] <==> AllAggregate(terms)
    decreases |terms|
  {
    hide AllSample, AllAggregate;
    if terms == [] {
      NoTerms();
    } else {
      var front, last := terms[..|terms| - 1], terms[|terms| - 1];
      SampleTermsLength(front);
      KindsGrow(front, last);
      assert terms == front + [last];
    }
  }

  lemma NoTerms()
    ensures AllSample([]) && AllAggregate([])
  {
  }

  lemma KindsGrow(front: seq<Term>, last: Term)
    ensures AllSample(front + [last]) <==> AllSample(front) && last.aggregation == Sample
    ensures AllAggregate(front + [last]) <==> AllAggregate(front) && last.aggregation != Sample
  {
    var all := front + [last];
    assert all[|front|] == last && forall i :: 0 <= i < |front| ==> all[i] == front[i];
  }

  lemma {:induction false} SampleTermsWhole(terms: seq<Term>)
    requires AllSample(terms)
    ensures SampleTerms(terms) == terms
    decreases |terms|
  {
    if terms != [] { SampleTermsWhole(terms[..|terms| - 1]); }
  }

  lemma OffsetsExtend(terms: seq<Term>, t: Term)
    requires OffsetsOrdered(terms)
    ensures OffsetsOrdered(terms + [t]) <==>
            if terms == [] then t.sampleOffset == 0 else terms[|terms| - 1].sampleOffset <= t.sampleOffset
  {
    var all := terms + [t];
    assert all[|terms|] == t && forall i :: 0 <= i < |terms| ==> all[i] == terms[i];
  }

  lemma OffsetsBroken(terms: seq<Term>, more: seq<Term>)
    requires !OffsetsOrdered(terms) && terms <= more
    ensures !OffsetsOrdered(more)
  {
  }

  lemma {:induction false} SampleTermsGrow(terms: seq<Term>, i: nat)
    requires i <= |terms|
    ensures SampleTerms(terms[..i]) <= SampleTerms(terms)
    decreases |terms|
  {
    if i == |terms| {
      assert terms[..i] == terms;
    } else {
      SampleTermsGrow(terms[..|terms| - 1], i);
      assert terms[..|terms| - 1][..i] == terms[..i];
    }
  }

  /** What the scan over the terms knows after some of them. */
  ghost predicate Scanned(rule: Rule, i: nat, hasSampleTerm: bool, hasAggregateTerm: bool, previousOffset: nat)
    requires i <= |rule.terms|
  {
    var terms := rule.terms[..i];
    var samples := SampleTerms(terms);
    && (hasSampleTerm <==> samples != []) && (hasAggregateTerm <==> !AllSample(terms))
    && OffsetsOrdered(samples) && (samples != [] ==> previousOffset == samples[|samples| - 1].sampleOffset)
    && TermsSound(rule.(terms := terms))
  }

  lemma {:induction false} ScanStep(rule: Rule, i: nat, hasSampleTerm: bool, hasAggregateTerm: bool, previousOffset: nat)
    requires i < |rule.terms| && Scanned(rule, i, hasSampleTerm, hasAggregateTerm, previousOffset)
    requires var term := rule.terms[i]; term.variable != "" && term.variable in rule.mapping
    ensures var term := rule.terms[i];
            && (term.aggregation != Sample && term.sampleOffset == 0 ==> Scanned(rule, i + 1, hasSampleTerm, true, previousOffset))
            && (term.aggregation == Sample && (if hasSampleTerm then previousOffset <= term.sampleOffset else term.sampleOffset == 0) ==>
                  Scanned(rule, i + 1, true, hasAggregateTerm, term.sampleOffset))
            && (term.aggregation == Sample && !(if hasSampleTerm then previousOffset <= term.sampleOffset else term.sampleOffset == 0) ==>
                  !ValidRule(rule))
  {
    hide OffsetsOrdered, AllSample, SampleTerms, ValidRule;
    var term := rule.terms[i];
    var terms := rule.terms[..i];
    SampleStep(rule.terms, i);
    KindsGrow(terms, term);
    assert rule.terms[..i + 1] == terms + [term];
    OffsetsExtend(SampleTerms(terms), term);
    assert SampleTerms(terms) + [] == SampleTerms(terms);
    if term.aggregation == Sample && !OffsetsOrdered(SampleTerms(rule.terms[..i + 1])) { BrokenOffsets(rule, i); }
  }

  lemma NothingScanned(rule: Rule)
    ensures Scanned(rule, 0, false, false, 0)
  {
  }

  lemma AllScanned(rule: Rule, hasSampleTerm: bool, hasAggregateTerm: bool, previousOffset: nat)
    requires Scanned(rule, |rule.terms|, hasSampleTerm, hasAggregateTerm, previousOffset)
    requires rule.id != "" && BoundsSound(rule) && rule.mapping != map[] && rule.terms != []
    ensures ValidRule(rule) <==> !(hasSampleTerm && hasAggregateTerm)
    ensures ValidRule(rule) ==> (hasAggregateTerm <==> !AllSample(rule.terms))
                                && IsMaximumOffset(if hasSampleTerm then previousOffset else 0, rule.terms)
  {
    hide SampleTerms;
    assert rule.terms[..|rule.terms|] == rule.terms;
    SampleTermsLength(rule.terms);
    if AllSample(rule.terms) { SampleTermsWhole(rule.terms); }
    assert rule.(terms := rule.terms) == rule;
    if ValidRule(rule) { LargestIsLast(rule); }
  }

  /** Accepts exactly the valid rules, and reports the kind and the largest
      offset, so that an anchor with that many points after it can be read. */
  method ValidateConstraintRule(rule: Rule) returns (properties: Option<Properties>)
    ensures properties.Some? <==> ValidRule(rule)
    ensures properties.Some? ==>
              && (properties.value.kind == SampleRule <==> AllSample(rule.terms))
              && IsMaximumOffset(properties.value.maximumOffset, rule.terms)
  {
    hide Scanned, OffsetsOrdered, AllSample, AllAggregate, IsMaximumOffset;
    if rule.id == "" || !BoundsSound(rule) || rule.mapping == map[] || rule.terms == [] { return None; }
    var hasSampleTerm, hasAggregateTerm, firstSampleTerm := false, false, true;
    var previousOffset := 0;
    NothingScanned(rule);
    for i := 0 to |rule.terms|
      invariant Scanned(rule, i, hasSampleTerm, hasAggregateTerm, previousOffset)
      invariant firstSampleTerm <==> !hasSampleTerm
    {
      var term := rule.terms[i];
      if term.variable == "" || term.variable !in rule.mapping { return None; }
      ScanStep(rule, i, hasSampleTerm, hasAggregateTerm, previousOffset);
      if term.aggregation != Sample {
        hasAggregateTerm := true;
        if term.sampleOffset != 0 { return None; }
        continue;
      }
      hasSampleTerm := true;
      if (firstSampleTerm && term.sampleOffset != 0) || (!firstSampleTerm && term.sampleOffset < previousOffset) {
        return None;
      }
      firstSampleTerm := false;
      previousOffset := term.sampleOffset;
    }
    AllScanned(rule, hasSampleTerm, hasAggregateTerm, previousOffset);
    if hasSampleTerm && hasAggregateTerm { return None; }
    properties := Some(Properties(if hasAggregateTerm then WindowAggregateRule else SampleRule, if hasSampleTerm then previousOffset else 0));
  }

  lemma SampleStep(terms: seq<Term>, i: nat)
    requires i < |terms|
    ensures SampleTerms(terms[..i + 1]) == SampleTerms(terms[..i]) + if terms[i].aggregation == Sample then [terms[i]] else []
  {
    assert terms[..i + 1][..i] == terms[..i];
  }

  lemma BrokenOffsets(rule: Rule, i: nat)
    requires i < |rule.terms| && !OffsetsOrdered(SampleTerms(rule.terms[..i + 1]))
    ensures !ValidRule(rule)
  {
    SampleTermsGrow(rule.terms, i + 1);
    OffsetsBroken(SampleTerms(rule.terms[..i + 1]), SampleTerms(rule.terms));
    SampleTermsLength(rule.terms);
    if AllSample(rule.terms) { SampleTermsWhole(rule.terms); }
    SampleTermsLength(rule.terms[..i + 1]);
    if SampleTerms(rule.terms) == [] { NoneOrdered(); }
  }

  lemma NoneOrdered()
    ensures OffsetsOrdered([])
  {
  }

  lemma {:induction false} LargestIsLast(rule: Rule)
    requires ValidRule(rule)
    ensures AllSample(rule.terms) ==> IsMaximumOffset(rule.terms[|rule.terms| - 1].sampleOffset, rule.terms)
    ensures AllAggregate(rule.terms) ==> IsMaximumOffset(0, rule.terms)
  {
    assert rule.terms[0].sampleOffset == 0 || AllAggregate(rule.terms);
  }

  /** No term of a valid rule reads past the window when the anchor leaves room
      for the maximum offset. */
  lemma OffsetsStayInside(rule: Rule, m: nat, anchor: nat, length: nat, i: nat)
    requires IsMaximumOffset(m, rule.terms) && anchor + m < length && i < |rule.terms|
    ensures anchor + rule.terms[i].sampleOffset < length
  {
  }

  /** Everything a rule can be refused for. */
  lemma RefusedExactly(rule: Rule)
    ensures !ValidRule(rule) <==>
            || rule.id == "" || rule.mapping == map[] || rule.terms == []
            || (rule.lower.None? && rule.upper.None?)
            || (exists low, high :: rule.lower == Some(low) && rule.upper == Some(high) && high < low)
            || (exists i :: 0 <= i < |rule.terms| && (rule.terms[i].variable == "" || rule.terms[i].variable !in rule.mapping))
            || (exists i :: 0 <= i < |rule.terms| && rule.terms[i].aggregation != Sample && rule.terms[i].sampleOffset > 0)
            || (exists i, j :: 0 <= i < |rule.terms| && 0 <= j < |rule.terms| && rule.terms[i].aggregation == Sample && rule.terms[j].aggregation != Sample)
            || (rule.terms[0].aggregation == Sample && rule.terms[0].sampleOffset > 0)
            || (exists i :: 0 < i < |rule.terms| && rule.terms[i].aggregation == Sample && rule.terms[i].sampleOffset < rule.terms[i - 1].sampleOffset)
  {
    if AllSample(rule.terms) && rule.terms != [] && rule.terms[0].sampleOffset == 0 { StepwiseOrdered(rule.terms); }
  }

  lemma {:induction false} StepwiseOrdered(terms: seq<Term>)
    requires terms != [] && terms[0].sampleOffset == 0
    ensures OffsetsOrdered(terms) <==> forall i :: 0 < i < |terms| ==> terms[i - 1].sampleOffset <= terms[i].sampleOffset
  {
    if forall i :: 0 < i < |terms| ==> terms[i - 1].sampleOffset <= terms[i].sampleOffset {
      forall i, j | 0 <= i < j < |terms| ensures terms[i].sampleOffset <= terms[j].sampleOffset { OffsetsGrow(terms, i, j); }
    }
  }

  lemma {:induction false} OffsetsGrow(terms: seq<Term>, i: nat, j: nat)
    requires i <= j < |terms| && forall k :: 0 < k < |terms| ==> terms[k - 1].sampleOffset <= terms[k].sampleOffset
    ensures terms[i].sampleOffset <= terms[j].sampleOffset
    decreases j
  {
    if i < j { OffsetsGrow(terms, i, j - 1); }
  }
}
