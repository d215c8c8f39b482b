/** The cached violations of every rule, and which rules an ingest rechecks. */
module ConstraintCaches {
  import opened Timeline
  import opened ConstraintEngines
  import opened ContinuousConstraints
  import opened ConstraintGroups

  datatype RuleState = RuleState(initialized: bool, generation: nat, violations: Recorded)

  type RuleStates = map<string, RuleState>

  function StateOf(states: RuleStates, id: string): RuleState {
    if id in states then states[id] else RuleState(false, 0, map[])
  }

  /** A rule's state after one execution; an older generation changes nothing. */
  function NextState(state: RuleState, range: Option<AnchorRange>, windowStart: int, found: seq<Violation>, id: string, generation: nat): RuleState {
    if state.initialized && generation < state.generation then state
    else RuleState(true, generation, Edited(state.violations, range, windowStart, found, id))
  }

  datatype Group = Group(rules: seq<BoundRule>, range: Option<AnchorRange>)

  ghost function AfterGroup(states: RuleStates, rules: seq<BoundRule>, range: Option<AnchorRange>, windowStart: int,
                            found: seq<Violation>, generation: nat): RuleStates
  {
    if rules == [] then states
    else
      var before, id := AfterGroup(states, rules[..|rules| - 1], range, windowStart, found, generation), rules[|rules| - 1].rule.id;
      before[id := NextState(StateOf(before, id), range, windowStart, found, id, generation)]
  }

  ghost function AfterGroups(states: RuleStates, groups: seq<Group>, founds: seq<seq<Violation>>, windowStart: int, generation: nat): RuleStates
    requires |groups| == |founds|
  {
    if groups == [] then states
    else
      var n := |groups| - 1;
      AfterGroup(AfterGroups(states, groups[..n], founds[..n], windowStart, generation), groups[n].rules, groups[n].range, windowStart, founds[n], generation)
  }

  class ConstraintCache {
    var states: RuleStates

    constructor ()
      ensures states == map[]
    {
      states := map[];
    }

    /** Erase, then insert the found violations of this rule one by one. */
    method ApplyRule(id: string, range: Option<AnchorRange>, windowStart: Timestamp, found: seq<Violation>, generation: nat)
      modifies this
      ensures states == old(states)[id := NextState(StateOf(old(states), id), range, windowStart, found, id, generation)]
    {
      var state := StateOf(states, id);
      if state.initialized && generation < state.generation {
        states := states[id := state];
        return;
      }
      var violations := Cleared(state.violations, range, windowStart);
      for i := 0 to |found|
        invariant violations == Record(Cleared(state.violations, range, windowStart), found[..i], id)
      {
        assert found[..i + 1][..i] == found[..i];
        if found[i].ruleId == id { violations := violations[found[i].anchor := found[i]]; }
      }
      assert found[..|found|] == found;
      states := states[id := RuleState(true, generation, violations)];
    }

    method ApplyGroups(groups: seq<Group>, windowStart: Timestamp, founds: seq<seq<Violation>>, generation: nat)
      requires |groups| == |founds|
      modifies this
      ensures states == AfterGroups(old(states), groups, founds, windowStart, generation)
    {
      hide NextState;
      for g := 0 to |groups|
        invariant states == AfterGroups(old(states), groups[..g], founds[..g], windowStart, generation)
      {
        ghost var before := states;
        assert groups[..g + 1][..g] == groups[..g] && founds[..g + 1][..g] == founds[..g];
        for r := 0 to |groups[g].rules|
          invariant states == AfterGroup(before, groups[g].rules[..r], groups[g].range, windowStart, founds[g], generation)
        {
          assert groups[g].rules[..r + 1][..r] == groups[g].rules[..r];
          ApplyRule(groups[g].rules[r].rule.id, groups[g].range, windowStart, founds[g], generation);
        }
        assert groups[g].rules[..|groups[g].rules|] == groups[g].rules;
      }
      assert groups[..|groups|] == groups && founds[..|founds|] == founds;
    }
  }

  // ----- one rule in at most one group -----

  ghost function Flat(groups: seq<Group>): (r: seq<BoundRule>) {
    if groups == [] then [] else Flat(groups[..|groups| - 1]) + groups[|groups| - 1].rules
  }

  lemma {:induction false} FlatMember(groups: seq<Group>, b: BoundRule)
    ensures b in Flat(groups) <==> exists g :: 0 <= g < |groups| && b in groups[g].rules
    decreases |groups|
  {
    if groups != [] {
      var front := groups[..|groups| - 1];
      FlatMember(front, b);
      if g :| 0 <= g < |front| && b in front[g].rules { assert b in groups[g].rules; }
      if g :| 0 <= g < |groups| && b in groups[g].rules && g < |front| { assert b in front[g].rules; }
    }
  }

  ghost predicate HasId(rules: seq<BoundRule>, id: string) {
    exists i :: 0 <= i < |rules| && rules[i].rule.id == id
  }

  lemma {:induction false} AfterGroupAt(states: RuleStates, rules: seq<BoundRule>, range: Option<AnchorRange>, windowStart: int,
                                        found: seq<Violation>, generation: nat, id: string)
    requires AllSound(rules)
    ensures StateOf(AfterGroup(states, rules, range, windowStart, found, generation), id) ==
            if HasId(rules, id) then NextState(StateOf(states, id), range, windowStart, found, id, generation) else StateOf(states, id)
    decreases |rules|
  {
    hide NextState, BoundRule.Sound;
    if rules != [] {
      var front, last := rules[..|rules| - 1], rules[|rules| - 1];
      assert forall i :: 0 <= i < |front| ==> rules[i] == front[i];
      AfterGroupAt(states, front, range, windowStart, found, generation, id);
      HasIdGrows(front, last, id);
      assert rules == front + [last];
    }
  }

  lemma HasIdGrows(front: seq<BoundRule>, last: BoundRule, id: string)
    ensures HasId(front + [last], id) <==> HasId(front, id) || last.rule.id == id
  {
    var all := front + [last];
    assert all[|front|] == last;
    if i :| 0 <= i < |front| && front[i].rule.id == id { assert all[i].rule.id == id; }
    if i :| 0 <= i < |all| && all[i].rule.id == id && i < |front| { assert front[i].rule.id == id; }
  }

  lemma {:induction false} HasIdConcat(a: seq<BoundRule>, b: seq<BoundRule>, id: string)
    requires AllSound(a + b)
    ensures AllSound(a) && AllSound(b) && (HasId(a, id) ==> !HasId(b, id)) && (HasId(a + b, id) <==> HasId(a, id) || HasId(b, id))
  {
    hide BoundRule.Sound;
    var all := a + b;
    assert forall i :: 0 <= i < |a| ==> all[i] == a[i];
    assert forall i :: 0 <= i < |b| ==> all[|a| + i] == b[i];
    if i :| 0 <= i < |all| && all[i].rule.id == id {
      if i < |a| { assert a[i].rule.id == id; } else { assert b[i - |a|].rule.id == id; }
    }
  }

  /** A rule in one group gets that group's result; a rule in none keeps its state. */
  lemma {:induction false} AfterGroupsAt(states: RuleStates, groups: seq<Group>, founds: seq<seq<Violation>>, windowStart: int, generation: nat, id: string)
    requires |groups| == |founds| && AllSound(Flat(groups))
    ensures !HasId(Flat(groups), id) ==> StateOf(AfterGroups(states, groups, founds, windowStart, generation), id) == StateOf(states, id)
    ensures forall g :: 0 <= g < |groups| && HasId(groups[g].rules, id) ==>
                          StateOf(AfterGroups(states, groups, founds, windowStart, generation), id)
                          == NextState(StateOf(states, id), groups[g].range, windowStart, founds[g], id, generation)
    decreases |groups|
  {
    hide NextState, AllSound;
    if groups != [] {
      var n := |groups| - 1;
      var front, last := groups[..n], groups[n];
      HasIdConcat(Flat(front), last.rules, id);
      AfterGroupsAt(states, front, founds[..n], windowStart, generation, id);
      AfterGroupAt(AfterGroups(states, front, founds[..n], windowStart, generation), last.rules, last.range, windowStart, founds[n], generation, id);
      forall g | 0 <= g < |groups| && HasId(groups[g].rules, id)
        ensures StateOf(AfterGroups(states, groups, founds, windowStart, generation), id)
                == NextState(StateOf(states, id), groups[g].range, windowStart, founds[g], id, generation)
      {
        if g < n {
          assert front[g] == groups[g];
          InFlat(front, g, id);
        }
      }
    }
  }

  lemma {:induction false} InFlat(groups: seq<Group>, g: nat, id: string)
    requires g < |groups| && HasId(groups[g].rules, id)
    ensures HasId(Flat(groups), id)
  {
    var i :| 0 <= i < |groups[g].rules| && groups[g].rules[i].rule.id == id;
    var b := groups[g].rules[i];
    FlatMember(groups, b);
    assert b in groups[g].rules;
    var k :| 0 <= k < |Flat(groups)| && Flat(groups)[k] == b;
  }
}
