/** What the value of a formula is: the chord between two readings, the last
    reading, the arithmetic of a node, the weighted sum of a combination. */
module FormulaMeanings {
  import opened Timeline
  import opened BucketAggregation
  import opened GapFill
  import opened Formulas
  import DerivedPatches

  // ----- one source at one instant -----

  /** Point `i` is the last one at or before `t`. */
  ghost predicate LastReading(points: seq<Point>, i: nat, t: Timestamp) {
    i < |points| && points[i].time <= t && (i + 1 < |points| ==> t < points[i + 1].time)
  }

  /** A continuous source has its readings' values and between two of them the chord's;
      outside its readings it has none. */
  lemma {:induction false} ContinuousValue(source: NumericSource, t: Timestamp, i: nat)
    requires StrictlyIncreasing(source.points) && source.kind == SeriesKind.Continuous
    ensures LastReading(source.points, i, t) && source.points[i].time == t ==> ValueIn(source, t) == Some(source.points[i].value.amount)
    ensures LastReading(source.points, i, t) && source.points[i].time < t && i + 1 < |source.points| ==>
              var left, right := source.points[i], source.points[i + 1];
              && ValueIn(source, t).Some?
              && (ValueIn(source, t).value - left.value.amount) * (right.time - left.time) as real
                 == (right.value.amount - left.value.amount) * (t - left.time) as real
    ensures LastReading(source.points, i, t) && source.points[i].time < t && i + 1 == |source.points| ==> ValueIn(source, t).None?
    ensures source.points == [] || t < source.points[0].time ==> ValueIn(source, t).None?
  {
    hide LowerBound;
    var points := source.points;
    if LastReading(points, i, t) {
      if points[i].time == t {
        LowerBoundIs(points, 0, t, i);
      } else {
        LowerBoundIs(points, 0, t, i + 1);
        if i + 1 < |points| {
          var left, right := points[i], points[i + 1];
          ChordArithmetic(left.value.amount, right.value.amount, (t - left.time) as real, (right.time - left.time) as real);
        }
      }
    } else if points == [] || t < points[0].time {
      LowerBoundIs(points, 0, t, 0);
    }
  }

  /** Any other source has the value of its last reading at or before the instant. */
  lemma {:induction false} HeldValue(source: NumericSource, t: Timestamp, i: nat)
    requires StrictlyIncreasing(source.points) && source.kind != SeriesKind.Continuous
    ensures LastReading(source.points, i, t) ==> ValueIn(source, t) == Some(source.points[i].value.amount)
    ensures source.points == [] || t < source.points[0].time ==> ValueIn(source, t).None?
  {
    hide LowerBound;
    var points := source.points;
    if LastReading(points, i, t) {
      LowerBoundIs(points, 0, t, if points[i].time == t then i else i + 1);
    } else if points == [] || t < points[0].time {
      LowerBoundIs(points, 0, t, 0);
    }
  }

  // ----- one node -----

  /** `x` is what the operator makes of `l` and `r`, told by undoing it. */
  ghost predicate Undoes(operation: Operator, l: real, r: real, x: real) {
    match operation
    case Add => x - r == l
    case Subtract => x + r == l
    case Multiply => (r != 0.0 ==> x / r == l) && (r == 0.0 ==> x == 0.0)
    case Divide => r != 0.0 && x * r == l
    case Unspecified => false
  }

  /** The value of a node, and which problem it reports: the left side's before the
      right side's, and both before a missing value. */
  lemma NodeValue(operation: Operator, left: Expression, right: Expression, sources: Sources, t: Timestamp)
    ensures var l, r := EvaluateExpression(left, sources, t), EvaluateExpression(right, sources, t);
            var x := EvaluateExpression(Binary(operation, Some(left), Some(right)), sources, t);
            && (l.Failed? ==> x == l)
            && (!l.Failed? && r.Failed? ==> x == r)
            && (!l.Failed? && !r.Failed? && (l.Missing? || r.Missing?) ==> x == Missing)
            && (l.Computed? && r.Computed? ==>
                  && (x.Computed? <==> operation != Operator.Unspecified && (operation == Divide ==> r.amount != 0.0))
                  && (x.Computed? ==> Undoes(operation, l.amount, r.amount, x.amount))
                  && (operation == Divide && r.amount == 0.0 ==> x == Failed(DivisionByZero))
                  && (operation == Operator.Unspecified ==> x == Failed(UnspecifiedOperator)))
    ensures forall l: Option<Expression>, r: Option<Expression> :: l.None? || r.None? ==> EvaluateExpression(Binary(operation, l, r), sources, t) == Failed(IncompleteExpression)
  {
    var l, r := EvaluateExpression(left, sources, t), EvaluateExpression(right, sources, t);
    if l.Computed? && r.Computed? { NodeArithmetic(operation, l.amount, r.amount); }
    hide Undoes;
  }

  lemma NodeArithmetic(operation: Operator, l: real, r: real)
    ensures var x := Combine(operation, Computed(l), Computed(r));
            && (x.Computed? <==> operation != Operator.Unspecified && (operation == Divide ==> r != 0.0))
            && (x.Computed? ==> Undoes(operation, l, r, x.amount))
  {
    if r != 0.0 { Quotient(l, r); }
  }

  lemma Quotient(l: real, r: real)
    requires r != 0.0
    ensures l / r * r == l && l * r / r == l
  {
  }

  /** A whole expression has value `x`, read node by node. */
  ghost predicate Denotes(e: Expression, sources: Sources, t: Timestamp, x: real) {
    match e
    case Sequence(id) => ValueOf(sources, id, t) == Some(x)
    case Constant(c) => x == c
    case Binary(operation, left, right) =>
      left.Some? && right.Some?
      && exists l, r :: Denotes(left.value, sources, t, l) && Denotes(right.value, sources, t, r) && Undoes(operation, l, r, x)
  }

  /** Evaluation computes exactly the value an expression denotes. */
  lemma {:induction false} ComputesWhatItDenotes(e: Expression, sources: Sources, t: Timestamp, x: real)
    ensures EvaluateExpression(e, sources, t) == Computed(x) <==> Denotes(e, sources, t, x)
    decreases e
  {
    hide ValueOf;
    if e.Binary? && e.left.Some? && e.right.Some? {
      forall y ensures EvaluateExpression(e.left.value, sources, t) == Computed(y) <==> Denotes(e.left.value, sources, t, y) {
        ComputesWhatItDenotes(e.left.value, sources, t, y);
      }
      forall y ensures EvaluateExpression(e.right.value, sources, t) == Computed(y) <==> Denotes(e.right.value, sources, t, y) {
        ComputesWhatItDenotes(e.right.value, sources, t, y);
      }
      NodeDenotes(e.operation, e.left.value, e.right.value, sources, t, x);
    }
  }

  lemma {:induction false} NodeDenotes(operation: Operator, left: Expression, right: Expression, sources: Sources, t: Timestamp, x: real)
    requires forall y :: EvaluateExpression(left, sources, t) == Computed(y) <==> Denotes(left, sources, t, y)
    requires forall y :: EvaluateExpression(right, sources, t) == Computed(y) <==> Denotes(right, sources, t, y)
    ensures var e := Binary(operation, Some(left), Some(right));
            EvaluateExpression(e, sources, t) == Computed(x) <==> Denotes(e, sources, t, x)
  {
    var e := Binary(operation, Some(left), Some(right));
    NodeValue(operation, left, right, sources, t);
    var l, r, value := EvaluateExpression(left, sources, t), EvaluateExpression(right, sources, t), EvaluateExpression(e, sources, t);
    hide EvaluateExpression, Undoes;
    if l.Computed? && r.Computed? { assert Denotes(left, sources, t, l.amount) && Denotes(right, sources, t, r.amount); }
    if Denotes(e, sources, t, x) {
      var a, b :| Denotes(left, sources, t, a) && Denotes(right, sources, t, b) && Undoes(operation, a, b, x);
      assert l == Computed(a) && r == Computed(b);
      UndoneOnce(operation, l.amount, r.amount, x);
    }
  }

  /** Undoing determines the result. */
  lemma UndoneOnce(operation: Operator, l: real, r: real, x: real)
    requires Undoes(operation, l, r, x)
    ensures operation != Operator.Unspecified && (operation == Divide ==> r != 0.0)
    ensures forall y :: Undoes(operation, l, r, y) ==> y == x
  {
    forall y | Undoes(operation, l, r, y) ensures y == x {
      if r != 0.0 {
        assert (operation == Multiply ==> x / r == y / r) && (operation == Divide ==> x * r == y * r);
        SameQuotient(x, y, r);
      }
    }
  }

  lemma SameQuotient(x: real, y: real, r: real)
    requires r != 0.0
    ensures x / r == y / r ==> x == y
    ensures x * r == y * r ==> x == y
  {
    Quotient(x, r);
    Quotient(y, r);
  }

  // ----- a linear combination -----

  /** The sum of coefficient times source value. */
  ghost function WeightedTotal(terms: seq<Term>, sources: Sources, t: Timestamp): real
    requires forall i :: 0 <= i < |terms| ==> ValueOf(sources, terms[i].id, t).Some?
  {
    if terms == [] then 0.0
    else
      var last := terms[|terms| - 1];
      WeightedTotal(terms[..|terms| - 1], sources, t) + last.coefficient * ValueOf(sources, last.id, t).value
  }

  /** A combination's value is the bias plus that sum, and there is one exactly when
      every source has a value. */
  lemma {:induction false} CombinationValue(bias: real, terms: seq<Term>, sources: Sources, t: Timestamp)
    ensures if forall i :: 0 <= i < |terms| ==> ValueOf(sources, terms[i].id, t).Some?
            then EvaluateTerms(bias, terms, sources, t) == Computed(bias + WeightedTotal(terms, sources, t))
            else EvaluateTerms(bias, terms, sources, t) == Missing
  {
    hide ValueOf;
    if forall i :: 0 <= i < |terms| ==> ValueOf(sources, terms[i].id, t).Some? {
      AllTermsAdd(bias, terms, sources, t);
    } else {
      var i :| 0 <= i < |terms| && ValueOf(sources, terms[i].id, t).None?;
      TermsNeedTheirSources(bias, terms, sources, t, i);
    }
  }

  lemma {:induction false} AllTermsAdd(bias: real, terms: seq<Term>, sources: Sources, t: Timestamp)
    requires forall i :: 0 <= i < |terms| ==> ValueOf(sources, terms[i].id, t).Some?
    ensures EvaluateTerms(bias, terms, sources, t) == Computed(bias + WeightedTotal(terms, sources, t))
    decreases |terms|
  {
    hide ValueOf;
    if terms != [] {
      var front, last := terms[..|terms| - 1], terms[|terms| - 1];
      AllTermsAdd(bias, front, sources, t);
      TermsInTwo(bias, front, last, sources, t);
      assert terms == front + [last];
    }
  }

  lemma {:induction false} TermsInTwo(bias: real, front: seq<Term>, last: Term, sources: Sources, t: Timestamp)
    requires EvaluateTerms(bias, front, sources, t).Computed? && ValueOf(sources, last.id, t).Some?
    ensures EvaluateTerms(bias, front + [last], sources, t)
            == Computed(EvaluateTerms(bias, front, sources, t).amount + last.coefficient * ValueOf(sources, last.id, t).value)
    decreases |front|
  {
    hide ValueOf;
    if front == [] {
      assert (front + [last])[1..] == [];
    } else {
      assert (front + [last])[1..] == front[1..] + [last];
      TermsInTwo(AddTerm(bias, front[0], ValueOf(sources, front[0].id, t).value), front[1..], last, sources, t);
    }
  }

  // ----- the derived series -----

  /** The value of a formula at an instant, read off its sources. */
  ghost predicate FormulaDenotes(formula: Formula, sources: Sources, t: Timestamp, x: real) {
    match formula
    case Linear(bias, terms) =>
      (forall i :: 0 <= i < |terms| ==> ValueOf(sources, terms[i].id, t).Some?) && x == bias + WeightedTotal(terms, sources, t)
    case Expressed(e) => Denotes(e, sources, t, x)
    case Unset => false
  }

  /** A derived series has a point at an instant exactly when some source has one there
      and the formula denotes a value, and that value is the point's. */
  lemma {:induction false} DerivedSeriesMeaning(formula: Formula, rows: DerivedPatches.Rows, t: Timestamp, x: real)
    ensures t in DerivedPatches.Derived(formula, rows) && DerivedPatches.Derived(formula, rows)[t] == Number(x) <==>
            (exists id, i :: id in rows && 0 <= i < |rows[id]| && rows[id][i].time == t)
            && FormulaDenotes(formula, DerivedPatches.AsSources(rows), t, x)
    ensures t in DerivedPatches.Derived(formula, rows) ==> DerivedPatches.Derived(formula, rows)[t].Number?
    ensures forall id :: id in rows ==> id in DerivedPatches.AsSources(rows) && DerivedPatches.AsSources(rows)[id] == NumericSource(rows[id], SeriesKind.Continuous)
  {
    hide ValueOf, WeightedTotal, EvaluateTerms, EvaluateExpression, Denotes;
    var sources := DerivedPatches.AsSources(rows);
    match formula {
      case Linear(bias, terms) => CombinationValue(bias, terms, sources, t);
      case Expressed(e) => ComputesWhatItDenotes(e, sources, t, x);
      case Unset =>
    }
  }
}
