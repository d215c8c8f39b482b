/** Derived-series formulas: their sources and their value at an instant. */
module Formulas {
  import opened Timeline
  import opened BucketAggregation
  import opened WindowServices

  type NumericPoint = p: Point | p.value.Number? witness Point(0, Number(0.0))

  datatype NumericSource = NumericSource(points: seq<NumericPoint>, kind: SeriesKind)

  type Sources = map<SequenceId, NumericSource>

  datatype Operator = Unspecified | Add | Subtract | Multiply | Divide

  /** An operand of a binary node may be absent in a hand-made expression. */
  datatype Expression =
    | Sequence(id: SequenceId)
    | Constant(amount: real)
    | Binary(operation: Operator, left: Option<Expression>, right: Option<Expression>)

  datatype Term = Term(id: SequenceId, coefficient: real)

  datatype Formula =
    | Linear(bias: real, terms: seq<Term>)
    | Expressed(expression: Expression)
    | Unset

  datatype Problem = IncompleteExpression | DivisionByZero | UnspecifiedOperator | FormulaNotSet

  datatype Outcome = Computed(amount: real) | Missing | Failed(problem: Problem)

  // ----- sources -----

  /** The sequences of an expression, appended in order of first appearance. */
  function Collect(e: Expression, ids: seq<SequenceId>): seq<SequenceId> {
    match e
    case Sequence(id) => if id in ids then ids else ids + [id]
    case Constant(_) => ids
    case Binary(_, left, right) =>
      var afterLeft := if left.Some? then Collect(left.value, ids) else ids;
      if right.Some? then Collect(right.value, afterLeft) else afterLeft
  }

  function CollectTerms(terms: seq<Term>): seq<SequenceId> {
    if terms == [] then []
    else
      var ids, id := CollectTerms(terms[..|terms| - 1]), terms[|terms| - 1].id;
      if id in ids then ids else ids + [id]
  }

  function SourcesFor(formula: Formula): seq<SequenceId> {
    match formula
    case Linear(_, terms) => CollectTerms(terms)
    case Expressed(e) => Collect(e, [])
    case Unset => []
  }

  ghost predicate Mentions(e: Expression, id: SequenceId) {
    match e
    case Sequence(own) => own == id
    case Constant(_) => false
    case Binary(_, left, right) => (left.Some? && Mentions(left.value, id)) || (right.Some? && Mentions(right.value, id))
  }

  ghost predicate Uses(formula: Formula, id: SequenceId) {
    match formula
    case Linear(_, terms) => exists i :: 0 <= i < |terms| && terms[i].id == id
    case Expressed(e) => Mentions(e, id)
    case Unset => false
  }

  lemma {:induction false} CollectExactly(e: Expression, ids: seq<SequenceId>, id: SequenceId)
    requires Distinct(ids)
    ensures Distinct(Collect(e, ids))
    ensures id in Collect(e, ids) <==> id in ids || Mentions(e, id)
    decreases e
  {
    match e
    case Sequence(_) =>
    case Constant(_) =>
    case Binary(_, left, right) =>
      if left.Some? { CollectExactly(left.value, ids, id); }
      if right.Some? { CollectExactly(right.value, if left.Some? then Collect(left.value, ids) else ids, id); }
  }

  lemma {:induction false} CollectTermsExactly(terms: seq<Term>, id: SequenceId)
    ensures Distinct(CollectTerms(terms))
    ensures id in CollectTerms(terms) <==> exists i :: 0 <= i < |terms| && terms[i].id == id
    decreases |terms|
  {
    if terms != [] {
      var front := terms[..|terms| - 1];
      CollectTermsExactly(front, id);
      if i :| 0 <= i < |front| && front[i].id == id { assert terms[i].id == id; }
      if i :| 0 <= i < |terms| && terms[i].id == id && i < |front| { assert front[i].id == id; }
    }
  }

  /** The collected sources are the sequences the formula uses, each once. */
  lemma SourcesAreExactlyUsed(formula: Formula, id: SequenceId)
    ensures Distinct(SourcesFor(formula))
    ensures id in SourcesFor(formula) <==> Uses(formula, id)
  {
    match formula
    case Linear(_, terms) => CollectTermsExactly(terms, id);
    case Expressed(e) => CollectExactly(e, [], id);
    case Unset =>
  }

  // ----- evaluation with a fresh search -----

  function Interpolated(left: NumericPoint, right: NumericPoint, t: int): real
    requires left.time < right.time
  {
    left.value.amount + (right.value.amount - left.value.amount) * ((t - left.time) as real / (right.time - left.time) as real)
  }

  /** The value given the index of the first point not before `t`. */
  function ValueFrom(source: NumericSource, k: nat, t: Timestamp): Option<real>
    requires k <= |source.points|
  {
    var n := |source.points|;
    if k < n && source.points[k].time == t then Some(source.points[k].value.amount)
    else if source.kind == Continuous then
      if k == 0 || k == n || source.points[k].time <= source.points[k - 1].time then None
      else Some(Interpolated(source.points[k - 1], source.points[k], t))
    else if k == 0 then None
    else Some(source.points[k - 1].value.amount)
  }

  function ValueIn(source: NumericSource, t: Timestamp): Option<real> {
    ValueFrom(source, LowerBound(source.points, 0, t), t)
  }

  function ValueOf(sources: Sources, id: SequenceId, t: Timestamp): Option<real> {
    if id in sources then ValueIn(sources[id], t) else None
  }

  function Combine(operation: Operator, left: Outcome, right: Outcome): Outcome {
    if left.Failed? then left
    else if right.Failed? then right
    else if left.Missing? || right.Missing? then Missing
    else
      match operation
      case Add => Computed(left.amount + right.amount)
      case Subtract => Computed(left.amount - right.amount)
      case Multiply => Computed(left.amount * right.amount)
      case Divide => if right.amount == 0.0 then Failed(DivisionByZero) else Computed(left.amount / right.amount)
      case Unspecified => Failed(UnspecifiedOperator)
  }

  function EvaluateExpression(e: Expression, sources: Sources, t: Timestamp): Outcome {
    match e
    case Sequence(id) => (match ValueOf(sources, id, t) case Some(x) => Computed(x) case None => Missing)
    case Constant(x) => Computed(x)
    case Binary(operation, left, right) =>
      if left.None? || right.None? then Failed(IncompleteExpression)
      else Combine(operation, EvaluateExpression(left.value, sources, t), EvaluateExpression(right.value, sources, t))
  }

  function AddTerm(amount: real, term: Term, x: real): real { amount + term.coefficient * x }

  function EvaluateTerms(bias: real, terms: seq<Term>, sources: Sources, t: Timestamp): Outcome
    decreases |terms|
  {
    if terms == [] then Computed(bias)
    else
      var x := ValueOf(sources, terms[0].id, t);
      if x.None? then Missing else EvaluateTerms(AddTerm(bias, terms[0], x.value), terms[1..], sources, t)
  }

  function Evaluate(formula: Formula, sources: Sources, t: Timestamp): Outcome {
    match formula
    case Linear(bias, terms) => EvaluateTerms(bias, terms, sources, t)
    case Expressed(e) => EvaluateExpression(e, sources, t)
    case Unset => Failed(FormulaNotSet)
  }

  // ----- what evaluation depends on -----

  lemma {:induction false} ExpressionDependsOnMentioned(e: Expression, a: Sources, b: Sources, t: Timestamp)
    requires forall id :: Mentions(e, id) ==> ValueOf(a, id, t) == ValueOf(b, id, t)
    ensures EvaluateExpression(e, a, t) == EvaluateExpression(e, b, t)
    decreases e
  {
    hide ValueOf;
    match e
    case Sequence(id) => assert Mentions(e, id);
    case Constant(_) =>
    case Binary(_, left, right) =>
      if left.Some? && right.Some? {
        forall id | Mentions(left.value, id) ensures ValueOf(a, id, t) == ValueOf(b, id, t) { assert Mentions(e, id); }
        forall id | Mentions(right.value, id) ensures ValueOf(a, id, t) == ValueOf(b, id, t) { assert Mentions(e, id); }
        ExpressionDependsOnMentioned(left.value, a, b, t);
        ExpressionDependsOnMentioned(right.value, a, b, t);
      }
  }

  lemma {:induction false} TermsDependOnTheirSources(bias: real, terms: seq<Term>, a: Sources, b: Sources, t: Timestamp)
    requires forall i :: 0 <= i < |terms| ==> ValueOf(a, terms[i].id, t) == ValueOf(b, terms[i].id, t)
    ensures EvaluateTerms(bias, terms, a, t) == EvaluateTerms(bias, terms, b, t)
    decreases |terms|
  {
    hide AddTerm, ValueOf;
    if terms != [] {
      var x := ValueOf(a, terms[0].id, t);
      if x.Some? {
        assert forall i :: 0 <= i < |terms| - 1 ==> terms[1..][i] == terms[i + 1];
        TermsDependOnTheirSources(AddTerm(bias, terms[0], x.value), terms[1..], a, b, t);
      }
    }
  }

  /** The outcome depends on the sources the formula uses and on nothing else. */
  lemma {:induction false} EvaluationDependsOnSources(formula: Formula, a: Sources, b: Sources, t: Timestamp)
    requires forall id :: id in SourcesFor(formula) ==> ValueOf(a, id, t) == ValueOf(b, id, t)
    ensures Evaluate(formula, a, t) == Evaluate(formula, b, t)
  {
    hide ValueOf, EvaluateExpression, EvaluateTerms, SourcesFor;
    forall id | Uses(formula, id) ensures ValueOf(a, id, t) == ValueOf(b, id, t) { SourcesAreExactlyUsed(formula, id); }
    match formula
    case Linear(bias, terms) => TermsDependOnTheirSources(bias, terms, a, b, t);
    case Expressed(e) => ExpressionDependsOnMentioned(e, a, b, t);
    case Unset =>
  }

  lemma {:induction false} ExpressionNeedsMentioned(e: Expression, sources: Sources, t: Timestamp, id: SequenceId)
    requires Mentions(e, id) && ValueOf(sources, id, t).None?
    ensures !EvaluateExpression(e, sources, t).Computed?
    decreases e
  {
    hide ValueOf;
    if e.Binary? && e.left.Some? && e.right.Some? {
      if Mentions(e.left.value, id) { ExpressionNeedsMentioned(e.left.value, sources, t, id); }
      if Mentions(e.right.value, id) { ExpressionNeedsMentioned(e.right.value, sources, t, id); }
    }
  }

  lemma {:induction false} TermsNeedTheirSources(bias: real, terms: seq<Term>, sources: Sources, t: Timestamp, i: nat)
    requires i < |terms| && ValueOf(sources, terms[i].id, t).None?
    ensures EvaluateTerms(bias, terms, sources, t) == Missing
    decreases |terms|
  {
    hide AddTerm, ValueOf;
    var x := ValueOf(sources, terms[0].id, t);
    if x.Some? {
      assert terms[1..][i - 1] == terms[i];
      TermsNeedTheirSources(AddTerm(bias, terms[0], x.value), terms[1..], sources, t, i - 1);
    }
  }

  /** No value without a value of every source. */
  lemma EvaluationNeedsEverySource(formula: Formula, sources: Sources, t: Timestamp, id: SequenceId)
    requires id in SourcesFor(formula) && ValueOf(sources, id, t).None?
    ensures !Evaluate(formula, sources, t).Computed?
  {
    hide ValueOf, EvaluateExpression, EvaluateTerms, SourcesFor;
    SourcesAreExactlyUsed(formula, id);
    match formula
    case Linear(bias, terms) =>
      var i :| 0 <= i < |terms| && terms[i].id == id;
      TermsNeedTheirSources(bias, terms, sources, t, i);
    case Expressed(e) => ExpressionNeedsMentioned(e, sources, t, id);
  }
}

/** Evaluation at ascending instants with one cursor per source that only moves forward. */
module FormulaCursors {
  import opened Timeline
  import opened WindowServices
  import opened Formulas

  class FormulaEvaluator {
    const sources: Sources
    var rightIndex: map<SequenceId, nat>

    /** No cursor has passed a point at or after `t`. */
    ghost predicate Behind(t: Timestamp)
      reads this
    {
      rightIndex.Keys == sources.Keys
      && forall id :: id in sources ==>
                        && rightIndex[id] <= |sources[id].points|
                        && forall i :: 0 <= i < rightIndex[id] ==> sources[id].points[i].time < t
    }

    constructor (sources: Sources)
      ensures this.sources == sources && forall t :: Behind(t)
    {
      this.sources := sources;
      rightIndex := map id | id in sources :: 0;
    }

    lemma BehindLater(t: Timestamp, u: Timestamp)
      requires Behind(t) && t <= u
      ensures Behind(u)
    {
    }

    method ValueAt(id: SequenceId, t: Timestamp) returns (value: Option<real>)
      requires Behind(t)
      modifies this
      ensures Behind(t) && value == ValueOf(sources, id, t)
    {
      if id !in sources { return None; }
      var source, k := sources[id], rightIndex[id];
      while k < |source.points| && source.points[k].time < t
        invariant k <= |source.points| && forall i :: 0 <= i < k ==> source.points[i].time < t
      {
        k := k + 1;
      }
      rightIndex := rightIndex[id := k];
      LowerBoundIs(source.points, 0, t, k);
      value := ValueFrom(source, k, t);
    }

    method EvaluateNode(e: Expression, t: Timestamp) returns (outcome: Outcome)
      requires Behind(t)
      modifies this
      ensures Behind(t) && outcome == EvaluateExpression(e, sources, t)
      decreases e
    {
      hide Behind, ValueOf;
      match e {
        case Sequence(id) =>
          var value := ValueAt(id, t);
          outcome := if value.Some? then Computed(value.value) else Missing;
        case Constant(x) =>
          outcome := Computed(x);
        case Binary(operation, left, right) =>
          if left.None? || right.None? { return Failed(IncompleteExpression); }
          var leftOutcome := EvaluateNode(left.value, t);
          var rightOutcome := EvaluateNode(right.value, t);
          outcome := Combine(operation, leftOutcome, rightOutcome);
      }
    }

    /** A missing source ends a linear combination early, leaving the cursors of
        the later terms where they were. */
    method EvaluateCombination(bias: real, terms: seq<Term>, t: Timestamp) returns (outcome: Outcome)
      requires Behind(t)
      modifies this
      ensures Behind(t) && outcome == EvaluateTerms(bias, terms, sources, t)
    {
      hide AddTerm, Behind, ValueOf;
      var amount := bias;
      for i := 0 to |terms|
        invariant Behind(t) && EvaluateTerms(bias, terms, sources, t) == EvaluateTerms(amount, terms[i..], sources, t)
      {
        assert terms[i..][1..] == terms[i + 1..];
        var value := ValueAt(terms[i].id, t);
        if value.None? { return Missing; }
        amount := AddTerm(amount, terms[i], value.value);
      }
      outcome := Computed(amount);
    }

    /** One instant: the cursors' answer is the fresh search's answer. */
    method EvaluateAt(formula: Formula, t: Timestamp) returns (outcome: Outcome)
      requires Behind(t)
      modifies this
      ensures Behind(t) && outcome == Evaluate(formula, sources, t)
    {
      hide Behind;
      match formula
      case Linear(bias, terms) => outcome := EvaluateCombination(bias, terms, t);
      case Expressed(e) => outcome := EvaluateNode(e, t);
      case Unset => outcome := Failed(FormulaNotSet);
    }

    /** A whole ascending sweep with shared cursors agrees with a fresh search at
        every instant. */
    method Sweep(formula: Formula, times: seq<Timestamp>) returns (outcomes: seq<Outcome>)
      requires times != [] ==> Behind(times[0])
      requires forall i, j :: 0 <= i < j < |times| ==> times[i] <= times[j]
      modifies this
      ensures |outcomes| == |times| && forall i :: 0 <= i < |times| ==> outcomes[i] == Evaluate(formula, sources, times[i])
    {
      hide Behind, Evaluate;
      outcomes := [];
      for i := 0 to |times|
        invariant |outcomes| == i && forall j :: 0 <= j < i ==> outcomes[j] == Evaluate(formula, sources, times[j])
        invariant i < |times| ==> Behind(times[i])
      {
        var outcome := EvaluateAt(formula, times[i]);
        outcomes := outcomes + [outcome];
        if i + 1 < |times| { BehindLater(times[i], times[i + 1]); }
      }
    }
  }
}
