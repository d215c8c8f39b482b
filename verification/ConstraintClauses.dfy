/** Rules combined into clauses: a rule on its own, or an OR group that is
    satisfied by any one of its rules. */
module ConstraintClauses {
  import opened WindowServices
  import opened ConstraintRules
  import opened ConstraintEngines

  const OWN_MARK := '\U{1f}'
  const GROUP_MARK := '\U{1e}'

  function ClauseKey(rule: Rule): string {
    if rule.orGroup == "" then [OWN_MARK] + rule.id else [GROUP_MARK] + rule.orGroup
  }

  /** Two rules share a clause when they name the same group, or are the same ungrouped rule. */
  lemma ClauseKeysAgree(a: Rule, b: Rule)
    ensures ClauseKey(a) == ClauseKey(b) <==>
            (a.orGroup == "" && b.orGroup == "" && a.id == b.id) || (a.orGroup != "" && a.orGroup == b.orGroup)
  {
    var x, y := ClauseKey(a), ClauseKey(b);
    assert x[1..] == (if a.orGroup == "" then a.id else a.orGroup) && y[1..] == (if b.orGroup == "" then b.id else b.orGroup);
    assert x[0] == (if a.orGroup == "" then OWN_MARK else GROUP_MARK) && y[0] == (if b.orGroup == "" then OWN_MARK else GROUP_MARK);
  }

  datatype RuleOutcome = RuleOutcome(rule: Rule, evaluated: nat, pending: nat, violations: seq<Violation>)

  datatype CheckResult = CheckFailed | Checked(satisfied: bool, evaluated: nat, pending: nat, violations: seq<Violation>)

  /** The outcomes of one clause, in order. */
  ghost function IndicesOf(outcomes: seq<RuleOutcome>, key: string): (r: seq<nat>) {
    if outcomes == [] then []
    else IndicesOf(outcomes[..|outcomes| - 1], key) + if ClauseKey(outcomes[|outcomes| - 1].rule) == key then [|outcomes| - 1] else []
  }

  /** Clause keys in order of first appearance. */
  ghost function KeysOf(outcomes: seq<RuleOutcome>): (r: seq<string>) {
    if outcomes == [] then []
    else
      var keys, key := KeysOf(outcomes[..|outcomes| - 1]), ClauseKey(outcomes[|outcomes| - 1].rule);
      if key in keys then keys else keys + [key]
  }

  /** Some rule of the clause has no violation. */
  ghost predicate ClauseHolds(outcomes: seq<RuleOutcome>, key: string) {
    exists i :: 0 <= i < |outcomes| && ClauseKey(outcomes[i].rule) == key && outcomes[i].violations == []
  }

  function Gathered(outcomes: seq<RuleOutcome>, indices: seq<nat>): (r: seq<Violation>)
    requires forall k :: 0 <= k < |indices| ==> indices[k] < |outcomes|
  {
    if indices == [] then []
    else Gathered(outcomes, indices[..|indices| - 1]) + outcomes[indices[|indices| - 1]].violations
  }

  lemma {:induction false} IndicesExactly(outcomes: seq<RuleOutcome>, key: string)
    ensures forall i: nat :: i in IndicesOf(outcomes, key) <==> i < |outcomes| && ClauseKey(outcomes[i].rule) == key
    decreases |outcomes|
  {
    hide ClauseKey;
    if outcomes != [] {
      var front := outcomes[..|outcomes| - 1];
      IndicesExactly(front, key);
      forall i: nat ensures i in IndicesOf(outcomes, key) <==> i < |outcomes| && ClauseKey(outcomes[i].rule) == key {
        if i < |front| { assert front[i] == outcomes[i]; }
      }
    }
  }

  lemma {:induction false} KeysExactly(outcomes: seq<RuleOutcome>)
    ensures Distinct(KeysOf(outcomes))
    ensures forall key :: key in KeysOf(outcomes) <==> exists i :: 0 <= i < |outcomes| && ClauseKey(outcomes[i].rule) == key
    decreases |outcomes|
  {
    hide ClauseKey;
    if outcomes != [] {
      var front, last := outcomes[..|outcomes| - 1], outcomes[|outcomes| - 1];
      KeysExactly(front);
      forall key ensures key in KeysOf(outcomes) <==> exists i :: 0 <= i < |outcomes| && ClauseKey(outcomes[i].rule) == key {
        if i :| 0 <= i < |front| && ClauseKey(front[i].rule) == key { assert ClauseKey(outcomes[i].rule) == key; }
        if i :| 0 <= i < |outcomes| && ClauseKey(outcomes[i].rule) == key && i < |front| { assert ClauseKey(front[i].rule) == key; }
      }
    }
  }

  ghost function Indices(outcomes: seq<RuleOutcome>, key: string): (r: seq<nat>)
    ensures r == IndicesOf(outcomes, key) && forall k :: 0 <= k < |r| ==> r[k] < |outcomes| && ClauseKey(outcomes[r[k]].rule) == key
  {
    IndicesExactly(outcomes, key);
    var r := IndicesOf(outcomes, key);
    assert forall k :: 0 <= k < |r| ==> r[k] in r;
    r
  }

  /** Every failing clause's violations, clause by clause. */
  ghost function Reported(outcomes: seq<RuleOutcome>, keys: seq<string>): (r: seq<Violation>) {
    if keys == [] then []
    else
      var key := keys[|keys| - 1];
      Reported(outcomes, keys[..|keys| - 1]) + if ClauseHolds(outcomes, key) then [] else Gathered(outcomes, Indices(outcomes, key))
  }

  ghost function Evaluated(outcomes: seq<RuleOutcome>): nat {
    if outcomes == [] then 0 else Evaluated(outcomes[..|outcomes| - 1]) + outcomes[|outcomes| - 1].evaluated
  }

  ghost function Pending(outcomes: seq<RuleOutcome>): nat {
    if outcomes == [] then 0 else Pending(outcomes[..|outcomes| - 1]) + outcomes[|outcomes| - 1].pending
  }

  /** Satisfied exactly when every clause has a violation-free rule. */
  ghost predicate AllClausesHold(outcomes: seq<RuleOutcome>) {
    forall i :: 0 <= i < |outcomes| ==> ClauseHolds(outcomes, ClauseKey(outcomes[i].rule))
  }

  ghost predicate Indexed(clauses: seq<seq<nat>>, index: map<string, nat>, keys: seq<string>, outcomes: seq<RuleOutcome>) {
    && |clauses| == |keys| && keys == KeysOf(outcomes)
    && (forall key :: key in index <==> key in keys)
    && (forall key :: key in index ==> index[key] < |keys| && keys[index[key]] == key)
    && (forall c :: 0 <= c < |keys| ==> clauses[c] == Indices(outcomes, keys[c]))
  }

  lemma {:induction false} IndexedStep(clauses: seq<seq<nat>>, index: map<string, nat>, keys: seq<string>, outcomes: seq<RuleOutcome>, i: nat)
    requires i < |outcomes| && Indexed(clauses, index, keys, outcomes[..i])
    ensures var key := ClauseKey(outcomes[i].rule);
            && (key in index ==> index[key] < |clauses| &&
                                 Indexed(clauses[index[key] := clauses[index[key]] + [i]], index, keys, outcomes[..i + 1]))
            && (key !in index ==> Indexed(clauses + [[i]], index[key := |clauses|], keys + [key], outcomes[..i + 1]))
  {
    hide ClauseKey, Indexed;
    var key := ClauseKey(outcomes[i].rule);
    IndexStays(clauses, index, keys, outcomes[..i], key);
    if key in index { KnownClause(clauses, index, keys, outcomes, i); } else { NewClause(clauses, index, keys, outcomes, i); }
  }

  lemma IndexStays(clauses: seq<seq<nat>>, index: map<string, nat>, keys: seq<string>, outcomes: seq<RuleOutcome>, key: string)
    requires Indexed(clauses, index, keys, outcomes)
    ensures key in index ==> index[key] < |clauses| == |keys|
  {
  }

  lemma {:induction false} OneMoreOutcome(outcomes: seq<RuleOutcome>, i: nat)
    requires i < |outcomes|
    ensures KeysOf(outcomes[..i + 1]) ==
            var keys, key := KeysOf(outcomes[..i]), ClauseKey(outcomes[i].rule);
            if key in keys then keys else keys + [key]
    ensures forall key :: IndicesOf(outcomes[..i + 1], key) == IndicesOf(outcomes[..i], key) + if ClauseKey(outcomes[i].rule) == key then [i] else []
  {
    hide ClauseKey;
    var after := outcomes[..i + 1];
    assert after[..i] == outcomes[..i] && after[i] == outcomes[i];
  }

  lemma {:induction false} KnownClause(clauses: seq<seq<nat>>, index: map<string, nat>, keys: seq<string>, outcomes: seq<RuleOutcome>, i: nat)
    requires i < |outcomes| && Indexed(clauses, index, keys, outcomes[..i])
    requires ClauseKey(outcomes[i].rule) in index && index[ClauseKey(outcomes[i].rule)] < |clauses|
    ensures var key := ClauseKey(outcomes[i].rule);
            Indexed(clauses[index[key] := clauses[index[key]] + [i]], index, keys, outcomes[..i + 1])
  {
    hide ClauseKey, KeysOf, IndicesOf;
    OneMoreOutcome(outcomes, i);
    KeysExactly(outcomes[..i]);
  }

  lemma {:induction false} NewClause(clauses: seq<seq<nat>>, index: map<string, nat>, keys: seq<string>, outcomes: seq<RuleOutcome>, i: nat)
    requires i < |outcomes| && Indexed(clauses, index, keys, outcomes[..i]) && ClauseKey(outcomes[i].rule) !in index
    ensures var key := ClauseKey(outcomes[i].rule);
            Indexed(clauses + [[i]], index[key := |clauses|], keys + [key], outcomes[..i + 1])
  {
    hide ClauseKey, KeysOf, IndicesOf;
    var key := ClauseKey(outcomes[i].rule);
    OneMoreOutcome(outcomes, i);
    NoIndices(outcomes[..i], key);
    assert forall c :: 0 <= c < |keys| ==> keys[c] in keys;
  }

  lemma NoIndices(outcomes: seq<RuleOutcome>, key: string)
    requires key !in KeysOf(outcomes)
    ensures IndicesOf(outcomes, key) == []
  {
    hide ClauseKey;
    KeysExactly(outcomes);
    IndicesExactly(outcomes, key);
    assert IndicesOf(outcomes, key) == [] || IndicesOf(outcomes, key)[0] in IndicesOf(outcomes, key);
  }

  method GroupClauses(outcomes: seq<RuleOutcome>) returns (clauses: seq<seq<nat>>, ghost keys: seq<string>, evaluated: nat, pending: nat)
    ensures |clauses| == |keys| && keys == KeysOf(outcomes)
    ensures forall c :: 0 <= c < |keys| ==> clauses[c] == Indices(outcomes, keys[c])
    ensures evaluated == Evaluated(outcomes) && pending == Pending(outcomes)
  {
    hide ClauseKey, Indexed;
    clauses, keys, evaluated, pending := [], [], 0, 0;
    var index: map<string, nat> := map[];
    NothingIndexed();
    assert outcomes[..0] == [];
    for i := 0 to |outcomes|
      invariant Indexed(clauses, index, keys, outcomes[..i])
      invariant evaluated == Evaluated(outcomes[..i]) && pending == Pending(outcomes[..i])
    {
      assert outcomes[..i + 1][..i] == outcomes[..i];
      evaluated, pending := evaluated + outcomes[i].evaluated, pending + outcomes[i].pending;
      var key := ClauseKey(outcomes[i].rule);
      IndexedStep(clauses, index, keys, outcomes, i);
      if key in index {
        clauses := clauses[index[key] := clauses[index[key]] + [i]];
      } else {
        index := index[key := |clauses|];
        clauses, keys := clauses + [[i]], keys + [key];
      }
    }
    assert outcomes[..|outcomes|] == outcomes;
    IndexedMeans(clauses, index, keys, outcomes);
  }

  lemma NothingIndexed()
    ensures Indexed([], map[], [], [])
  {
  }

  lemma IndexedMeans(clauses: seq<seq<nat>>, index: map<string, nat>, keys: seq<string>, outcomes: seq<RuleOutcome>)
    requires Indexed(clauses, index, keys, outcomes)
    ensures |clauses| == |keys| && keys == KeysOf(outcomes) && forall c :: 0 <= c < |keys| ==> clauses[c] == Indices(outcomes, keys[c])
  {
  }

  method ClauseSatisfied(outcomes: seq<RuleOutcome>, clause: seq<nat>, ghost key: string) returns (holds: bool)
    requires clause == Indices(outcomes, key)
    ensures holds <==> ClauseHolds(outcomes, key)
  {
    hide ClauseKey;
    IndicesExactly(outcomes, key);
    for k := 0 to |clause|
      invariant forall j :: 0 <= j < k ==> outcomes[clause[j]].violations != []
    {
      if outcomes[clause[k]].violations == [] { return true; }
    }
    holds := false;
  }

  /** Satisfied iff each clause has a violation-free rule; otherwise exactly the
      failing clauses' violations are reported. */
  method CombineRuleOutcomes(outcomes: seq<RuleOutcome>) returns (result: CheckResult)
    ensures result == Checked(AllClausesHold(outcomes), Evaluated(outcomes), Pending(outcomes), Reported(outcomes, KeysOf(outcomes)))
  {
    hide ClauseKey, ClauseHolds, Reported, KeysOf, Gathered;
    var clauses, keys, evaluated, pending := GroupClauses(outcomes);
    var satisfied, violations := true, [];
    NothingReported(outcomes);
    assert keys[..0] == [];
    for c := 0 to |clauses|
      invariant satisfied <==> forall d :: 0 <= d < c ==> ClauseHolds(outcomes, keys[d])
      invariant violations == Reported(outcomes, keys[..c])
    {
      ReportedStep(outcomes, keys, c);
      var holds := ClauseSatisfied(outcomes, clauses[c], keys[c]);
      if holds { continue; }
      satisfied := false;
      var gathered := GatherClause(outcomes, clauses[c]);
      violations := violations + gathered;
    }
    assert keys[..|keys|] == keys;
    EveryClauseListed(outcomes);
    result := Checked(satisfied, evaluated, pending, violations);
  }

  method GatherClause(outcomes: seq<RuleOutcome>, clause: seq<nat>) returns (gathered: seq<Violation>)
    requires forall k :: 0 <= k < |clause| ==> clause[k] < |outcomes|
    ensures gathered == Gathered(outcomes, clause)
  {
    gathered := [];
    for k := 0 to |clause|
      invariant gathered == Gathered(outcomes, clause[..k])
    {
      assert clause[..k + 1][..k] == clause[..k];
      gathered := gathered + outcomes[clause[k]].violations;
    }
    assert clause[..|clause|] == clause;
  }

  lemma NothingReported(outcomes: seq<RuleOutcome>)
    ensures Reported(outcomes, []) == []
  {
  }

  lemma ReportedStep(outcomes: seq<RuleOutcome>, keys: seq<string>, c: nat)
    requires c < |keys|
    ensures Reported(outcomes, keys[..c + 1]) ==
            if ClauseHolds(outcomes, keys[c]) then Reported(outcomes, keys[..c])
            else Reported(outcomes, keys[..c]) + Gathered(outcomes, Indices(outcomes, keys[c]))
  {
    hide ClauseHolds, Gathered;
    var upto := keys[..c + 1];
    assert upto[..c] == keys[..c] && upto[c] == keys[c];
    assert Reported(outcomes, keys[..c]) + [] == Reported(outcomes, keys[..c]);
  }

  lemma EveryClauseListed(outcomes: seq<RuleOutcome>)
    ensures AllClausesHold(outcomes) <==> forall d :: 0 <= d < |KeysOf(outcomes)| ==> ClauseHolds(outcomes, KeysOf(outcomes)[d])
  {
    hide ClauseKey, ClauseHolds;
    var keys := KeysOf(outcomes);
    KeysExactly(outcomes);
    if AllClausesHold(outcomes) {
      forall d | 0 <= d < |keys| ensures ClauseHolds(outcomes, keys[d]) { assert keys[d] in keys; }
    }
    if forall d :: 0 <= d < |keys| ==> ClauseHolds(outcomes, keys[d]) {
      forall i | 0 <= i < |outcomes| ensures ClauseHolds(outcomes, ClauseKey(outcomes[i].rule)) {
        assert ClauseKey(outcomes[i].rule) in keys;
      }
    }
  }

  // ----- what is reported -----

  lemma {:induction false} GatheredMember(outcomes: seq<RuleOutcome>, indices: seq<nat>, v: Violation)
    requires forall k :: 0 <= k < |indices| ==> indices[k] < |outcomes|
    ensures v in Gathered(outcomes, indices) <==> exists k :: 0 <= k < |indices| && v in outcomes[indices[k]].violations
    decreases |indices|
  {
    if indices != [] {
      var front := indices[..|indices| - 1];
      GatheredMember(outcomes, front, v);
      if k :| 0 <= k < |front| && v in outcomes[front[k]].violations { assert v in outcomes[indices[k]].violations; }
      if k :| 0 <= k < |indices| && v in outcomes[indices[k]].violations && k < |front| { assert v in outcomes[front[k]].violations; }
    }
  }

  lemma {:induction false} ReportedMember(outcomes: seq<RuleOutcome>, keys: seq<string>, v: Violation)
    ensures v in Reported(outcomes, keys) <==>
            exists key :: key in keys && !ClauseHolds(outcomes, key) && v in Gathered(outcomes, Indices(outcomes, key))
    decreases |keys|
  {
    hide ClauseHolds, Gathered, ClauseKey;
    if keys != [] {
      var front, last := keys[..|keys| - 1], keys[|keys| - 1];
      ReportedMember(outcomes, front, v);
      assert keys == front + [last];
    }
  }

  /** A violation is reported exactly when its rule's whole clause fails. */
  lemma {:induction false} ReportsExactlyFailingClauses(outcomes: seq<RuleOutcome>, v: Violation)
    ensures v in Reported(outcomes, KeysOf(outcomes)) <==>
            exists i :: 0 <= i < |outcomes| && v in outcomes[i].violations && !ClauseHolds(outcomes, ClauseKey(outcomes[i].rule))
  {
    hide ClauseHolds, Gathered, ClauseKey;
    var keys := KeysOf(outcomes);
    ReportedMember(outcomes, keys, v);
    KeysExactly(outcomes);
    if key :| key in keys && !ClauseHolds(outcomes, key) && v in Gathered(outcomes, Indices(outcomes, key)) {
      GatheredMember(outcomes, Indices(outcomes, key), v);
      var k :| 0 <= k < |Indices(outcomes, key)| && v in outcomes[Indices(outcomes, key)[k]].violations;
      assert ClauseKey(outcomes[Indices(outcomes, key)[k]].rule) == key;
    }
    if i :| 0 <= i < |outcomes| && v in outcomes[i].violations && !ClauseHolds(outcomes, ClauseKey(outcomes[i].rule)) {
      var key := ClauseKey(outcomes[i].rule);
      IndicesExactly(outcomes, key);
      GatheredMember(outcomes, Indices(outcomes, key), v);
      var k :| 0 <= k < |Indices(outcomes, key)| && Indices(outcomes, key)[k] == i;
      assert key in keys;
    }
  }

  /** With every rule its own clause, each rule's violations are all reported. */
  lemma {:induction false} SeparateClausesReportAll(outcomes: seq<RuleOutcome>, v: Violation)
    requires forall i, j :: 0 <= i < j < |outcomes| ==> ClauseKey(outcomes[i].rule) != ClauseKey(outcomes[j].rule)
    ensures v in Reported(outcomes, KeysOf(outcomes)) <==> exists i :: 0 <= i < |outcomes| && v in outcomes[i].violations
  {
    hide ClauseKey, Reported;
    ReportsExactlyFailingClauses(outcomes, v);
    if i :| 0 <= i < |outcomes| && v in outcomes[i].violations {
      assert !ClauseHolds(outcomes, ClauseKey(outcomes[i].rule));
    }
  }
}
