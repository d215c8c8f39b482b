/** Which rules an ingest rechecks, and in which groups. */
module ConstraintSelections {
  import opened Timeline
  import opened WindowServices
  import opened WindowUpdates
  import opened ConstraintClauses
  import opened ContinuousConstraints
  import opened ConstraintGroups
  import opened ConstraintCaches
  import opened DerivedPatches
  import opened DerivedRefreshes

  /** All rules come from `rules` and none is listed twice. */
  ghost predicate Part(some: seq<BoundRule>, rules: seq<BoundRule>) {
    (forall b :: b in some ==> b in rules) && forall i, j :: 0 <= i < j < |some| ==> some[i] != some[j]
  }

  lemma PartSound(some: seq<BoundRule>, rules: seq<BoundRule>)
    requires AllSound(rules) && Part(some, rules)
    ensures AllSound(some)
  {
    hide BoundRule.Sound;
    forall i | 0 <= i < |some| ensures some[i].Sound() {
      assert some[i] in some;
      var k :| 0 <= k < |rules| && rules[k] == some[i];
    }
    forall i, j | 0 <= i < j < |some| ensures some[i].rule.id != some[j].rule.id {
      assert some[i] in some && some[j] in some;
      var k :| 0 <= k < |rules| && rules[k] == some[i];
      var l :| 0 <= l < |rules| && rules[l] == some[j];
    }
  }

  lemma PartGrows(some: seq<BoundRule>, rules: seq<BoundRule>, b: BoundRule)
    requires Part(some, rules) && b in rules && b !in some
    ensures Part(some + [b], rules)
  {
  }

  lemma SoundIsDistinct(rules: seq<BoundRule>, i: nat)
    requires AllSound(rules) && i < |rules|
    ensures rules[i] !in rules[..i]
  {
    hide BoundRule.Sound;
    assert forall k :: 0 <= k < i ==> rules[k] != rules[i];
  }

  /** A clause is affected when one of its rules has a changed sequence or a cached violation. */
  ghost predicate Affected(rules: seq<BoundRule>, states: RuleStates, changed: seq<SequenceId>, key: string) {
    exists i :: 0 <= i < |rules| && ClauseKey(rules[i].rule) == key
                && (rules[i].sequence in changed || StateOf(states, rules[i].rule.id).violations != map[])
  }

  lemma AffectedGrows(rules: seq<BoundRule>, i: nat, states: RuleStates, changed: seq<SequenceId>, key: string)
    requires i < |rules|
    ensures Affected(rules[..i + 1], states, changed, key) <==>
            Affected(rules[..i], states, changed, key)
            || (ClauseKey(rules[i].rule) == key && (rules[i].sequence in changed || StateOf(states, rules[i].rule.id).violations != map[]))
  {
    hide ClauseKey, StateOf;
    var before, after := rules[..i], rules[..i + 1];
    assert after[i] == rules[i] && forall k :: 0 <= k < i ==> after[k] == before[k];
    if k :| 0 <= k < i && ClauseKey(before[k].rule) == key && (before[k].sequence in changed || StateOf(states, before[k].rule.id).violations != map[]) {
      assert ClauseKey(after[k].rule) == key;
    }
  }

  /** Exactly the rules of affected clauses that have a changed sequence or were never checked are rechecked. */
  method SelectRules(rules: seq<BoundRule>, states: RuleStates, changed: seq<SequenceId>) returns (selected: seq<BoundRule>)
    requires AllSound(rules)
    ensures Part(selected, rules)
    ensures forall b :: b in selected <==>
                        && b in rules && Affected(rules, states, changed, ClauseKey(b.rule))
                        && (b.sequence in changed || !StateOf(states, b.rule.id).initialized)
    ensures forall b :: b in rules && b.sequence in changed ==> b in selected
  {
    hide AllSound, BoundRule.Sound, ClauseKey, Part, Affected, StateOf;
    var affected: set<string> := {};
    forall key ensures !Affected(rules[..0], states, changed, key) {
      assert rules[..0] == [];
      NothingAffected(states, changed, key);
    }
    for i := 0 to |rules|
      invariant forall key :: key in affected <==> Affected(rules[..i], states, changed, key)
    {
      forall key
        ensures Affected(rules[..i + 1], states, changed, key) <==>
                Affected(rules[..i], states, changed, key)
                || (ClauseKey(rules[i].rule) == key && (rules[i].sequence in changed || StateOf(states, rules[i].rule.id).violations != map[]))
      {
        AffectedGrows(rules, i, states, changed, key);
      }
      if rules[i].sequence in changed || StateOf(states, rules[i].rule.id).violations != map[] {
        affected := affected + {ClauseKey(rules[i].rule)};
      }
    }
    selected := [];
    NothingIsPart(rules);
    assert rules[..|rules|] == rules;
    for i := 0 to |rules|
      invariant Part(selected, rules)
      invariant forall b :: b in selected <==>
                            b in rules[..i] && ClauseKey(b.rule) in affected && (b.sequence in changed || !StateOf(states, b.rule.id).initialized)
    {
      var b := rules[i];
      SoundIsDistinct(rules, i);
      assert rules[..i + 1] == rules[..i] + [b];
      if ClauseKey(b.rule) !in affected { continue; }
      if b.sequence !in changed && StateOf(states, b.rule.id).initialized { continue; }
      PartGrows(selected, rules, b);
      selected := selected + [b];
    }
    forall b | b in rules && b.sequence in changed ensures Affected(rules, states, changed, ClauseKey(b.rule)) {
      IsAffected(rules, states, changed, b);
    }
  }

  lemma IsAffected(rules: seq<BoundRule>, states: RuleStates, changed: seq<SequenceId>, b: BoundRule)
    requires b in rules && b.sequence in changed
    ensures Affected(rules, states, changed, ClauseKey(b.rule))
  {
    hide ClauseKey, StateOf;
    var i :| 0 <= i < |rules| && rules[i] == b;
  }

  lemma NothingAffected(states: RuleStates, changed: seq<SequenceId>, key: string)
    ensures !Affected([], states, changed, key)
  {
  }

  lemma NothingIsPart(rules: seq<BoundRule>)
    ensures Part([], rules)
  {
  }

  /** The group's range covers the affected range of every rule in it. */
  ghost predicate CoversRule(range: AnchorRange, update: WindowUpdate, b: BoundRule) {
    exists r: RefreshRange :: IsRange(r, update, [b.sequence]) && range.start <= r.start && r.end <= range.end
  }

  ghost predicate GroupFits(group: Group, update: WindowUpdate) {
    && group.rules != [] && Unmixed(group.rules)
    && (group.range.Some? ==> forall b :: b in group.rules ==> CoversRule(group.range.value, update, b))
  }

  lemma WiderCovers(range: AnchorRange, wider: AnchorRange, update: WindowUpdate, b: BoundRule)
    requires CoversRule(range, update, b) && wider.start <= range.start && range.end <= wider.end
    ensures CoversRule(wider, update, b)
  {
    hide IsRange;
    var r: RefreshRange :| IsRange(r, update, [b.sequence]) && range.start <= r.start && r.end <= range.end;
  }

  /** Rules whose update only appended, with one merged range, and the others. */
  method SplitBySafety(rules: seq<BoundRule>, update: WindowUpdate) returns (safe: seq<BoundRule>, range: Option<AnchorRange>, full: seq<BoundRule>)
    requires update.sequences != map[] && Part(rules, rules)
    ensures Part(safe + full, rules) && forall b :: b in rules ==> b in safe + full
    ensures safe != [] ==> range.Some? && forall b :: b in safe ==> CoversRule(range.value, update, b)
  {
    hide Part, CoversRule, IsRange, Ready;
    safe, full, range := [], [], None;
    NothingIsPart(rules);
    assert safe + full == [];
    for i := 0 to |rules|
      invariant Part(safe + full, rules) && forall b :: b in rules[..i] <==> b in safe + full
      invariant safe != [] ==> range.Some? && forall b :: b in safe ==> CoversRule(range.value, update, b)
      invariant safe == [] ==> range.None?
    {
      var b := rules[i];
      assert rules[..i + 1] == rules[..i] + [b];
      NotYet(rules, i);
      var own := IncrementalRangeFor(Some(update), [b.sequence]);
      if own.None? {
        PartGrows(safe + full, rules, b);
        assert safe + (full + [b]) == safe + full + [b];
        full := full + [b];
      } else {
        var first := AnchorRange(own.value.start, own.value.end);
        OwnCovers(own.value, update, b);
        var merged := if range.None? then first
                      else AnchorRange(if first.start < range.value.start then first.start else range.value.start,
                                       if range.value.end < first.end then first.end else range.value.end);
        forall c | c in safe ensures CoversRule(merged, update, c) { WiderCovers(range.value, merged, update, c); }
        WiderCovers(first, merged, update, b);
        InsertedPart(safe, full, rules, b);
        safe, range := safe + [b], Some(merged);
      }
    }
    assert rules[..|rules|] == rules;
  }

  lemma NotYet(rules: seq<BoundRule>, i: nat)
    requires Part(rules, rules) && i < |rules|
    ensures rules[i] !in rules[..i] && rules[i] in rules
  {
    assert forall k :: 0 <= k < i ==> rules[k] != rules[i];
  }

  lemma OwnCovers(r: RefreshRange, update: WindowUpdate, b: BoundRule)
    requires IsRange(r, update, [b.sequence])
    ensures CoversRule(AnchorRange(r.start, r.end), update, b)
  {
    hide IsRange;
  }

  lemma InsertedPart(a: seq<BoundRule>, c: seq<BoundRule>, rules: seq<BoundRule>, b: BoundRule)
    requires Part(a + c, rules) && b in rules && b !in a + c
    ensures Part(a + [b] + c, rules) && forall x :: x in a + [b] + c <==> x in a + c || x == b
  {
    var before, after := a + c, a + [b] + c;
    assert forall i :: 0 <= i < |after| ==> after[i] == if i < |a| then before[i] else if i == |a| then b else before[i - 1];
    assert forall i :: 0 <= i < |before| ==> before[i] == if i < |a| then after[i] else after[i + 1];
    assert forall i :: 0 <= i < |before| ==> before[i] in before;
    forall i, j | 0 <= i < j < |after| ensures after[i] != after[j] {
      assert i != |a| && j != |a| ==> before[if i < |a| then i else i - 1] != before[if j < |a| then j else j - 1];
    }
  }

  /** One more group, unless its rule list is empty. */
  method AddGroup(groups: seq<Group>, group: Group, ghost update: WindowUpdate) returns (r: seq<Group>)
    requires forall g :: 0 <= g < |groups| ==> GroupFits(groups[g], update)
    requires group.rules != [] ==> GroupFits(group, update)
    ensures Flat(r) == Flat(groups) + group.rules
    ensures forall g :: 0 <= g < |r| ==> GroupFits(r[g], update)
  {
    hide Flat, GroupFits;
    r := groups;
    if group.rules != [] {
      FlatGrows(groups, group);
      r := groups + [group];
    }
  }

  /** At most two groups for rules that may share one. */
  method AddRuleGroups(groups: seq<Group>, rules: seq<BoundRule>, update: WindowUpdate, ghost all: seq<BoundRule>) returns (r: seq<Group>)
    requires update.sequences != map[] && Unmixed(rules)
    requires Part(Flat(groups) + rules, all) && forall g :: 0 <= g < |groups| ==> GroupFits(groups[g], update)
    ensures Part(Flat(r), all) && (forall b :: b in Flat(r) <==> b in Flat(groups) + rules)
    ensures forall g :: 0 <= g < |r| ==> GroupFits(r[g], update)
  {
    hide Part, CoversRule, Unmixed, Flat;
    if rules == [] {
      assert Flat(groups) + rules == Flat(groups);
      return groups;
    }
    TailPart(Flat(groups), rules, all);
    var safe, range, full := SplitBySafety(rules, update);
    SplitPart(Flat(groups), rules, safe, full, all);
    PiecesUnmixed(rules, safe, full);
    assert (safe != [] ==> GroupFits(Group(safe, range), update)) && (full != [] ==> GroupFits(Group(full, None), update));
    hide GroupFits;
    r := AddGroup(groups, Group(safe, range), update);
    r := AddGroup(r, Group(full, None), update);
    assert Flat(groups) + safe + full == Flat(groups) + (safe + full);
  }

  lemma FlatGrows(groups: seq<Group>, g: Group)
    ensures Flat(groups + [g]) == Flat(groups) + g.rules
  {
    assert (groups + [g])[..|groups|] == groups;
  }

  lemma TailPart(a: seq<BoundRule>, rules: seq<BoundRule>, all: seq<BoundRule>)
    requires Part(a + rules, all)
    ensures Part(rules, rules)
  {
    assert forall i :: 0 <= i < |rules| ==> (a + rules)[|a| + i] == rules[i];
  }

  lemma SplitPart(a: seq<BoundRule>, rules: seq<BoundRule>, safe: seq<BoundRule>, full: seq<BoundRule>, all: seq<BoundRule>)
    requires Part(a + rules, all) && Part(safe + full, rules) && forall b :: b in rules ==> b in safe + full
    ensures Part(a + (safe + full), all) && forall b :: b in a + (safe + full) <==> b in a + rules
  {
    var before, after, split := a + rules, a + (safe + full), safe + full;
    forall b | b in after ensures b in before { if b in a {} else { assert b in split; } }
    forall b | b in before ensures b in after { if b in a {} else { assert b in rules; } }
    forall i, j | 0 <= i < j < |after| ensures after[i] != after[j] {
      if j < |a| {
        assert before[i] != before[j];
      } else if i < |a| {
        assert split[j - |a|] in split;
        var k :| 0 <= k < |rules| && rules[k] == split[j - |a|];
        assert before[i] != before[|a| + k];
      } else {
        assert split[i - |a|] != split[j - |a|];
      }
    }
  }

  lemma PiecesUnmixed(rules: seq<BoundRule>, safe: seq<BoundRule>, full: seq<BoundRule>)
    requires Unmixed(rules) && Part(safe + full, rules) && Part(rules, rules)
    ensures Unmixed(safe) && Unmixed(full)
  {
    var split := safe + full;
    assert forall i :: 0 <= i < |safe| ==> split[i] == safe[i] && split[i] in split;
    assert forall i :: 0 <= i < |full| ==> split[|safe| + i] == full[i] && split[|safe| + i] in split;
    PartIsNoLonger(split, rules);
  }

  lemma {:induction false} PartIsNoLonger(some: seq<BoundRule>, rules: seq<BoundRule>)
    requires Part(some, rules)
    ensures |some| <= |rules|
    decreases |some|
  {
    if some != [] {
      var front, last := some[..|some| - 1], some[|some| - 1];
      assert last in some && last in rules;
      var i :| 0 <= i < |rules| && rules[i] == last;
      var others := rules[..i] + rules[i + 1..];
      forall b | b in front ensures b in others {
        var k :| 0 <= k < |front| && front[k] == b;
        assert some[k] in some && some[k] != last;
        var j :| 0 <= j < |rules| && rules[j] == b;
        assert others[if j < i then j else j - 1] == b;
      }
      PartIsNoLonger(front, others);
    }
  }

  /** Rules of an OR group are run one by one, the others together. */
  method BuildGroups(selected: seq<BoundRule>, update: WindowUpdate) returns (groups: seq<Group>)
    requires update.sequences != map[] && Part(selected, selected)
    ensures Part(Flat(groups), selected) && forall b :: b in Flat(groups) <==> b in selected
    ensures forall g :: 0 <= g < |groups| ==> GroupFits(groups[g], update)
  {
    hide Part, GroupFits;
    var ordinary: seq<BoundRule> := [];
    groups := [];
    NothingIsPart(selected);
    assert Flat([]) + ordinary == [];
    for i := 0 to |selected|
      invariant Part(Flat(groups) + ordinary, selected) && forall b :: b in selected[..i] <==> b in Flat(groups) + ordinary
      invariant forall k :: 0 <= k < |ordinary| ==> ordinary[k].rule.orGroup == ""
      invariant forall g :: 0 <= g < |groups| ==> GroupFits(groups[g], update)
    {
      var b := selected[i];
      assert selected[..i + 1] == selected[..i] + [b];
      NotYet(selected, i);
      if b.rule.orGroup == "" {
        PartGrows(Flat(groups) + ordinary, selected, b);
        assert Flat(groups) + (ordinary + [b]) == Flat(groups) + ordinary + [b];
        ordinary := ordinary + [b];
      } else {
        InsertedPart(Flat(groups), ordinary, selected, b);
        FrontPart(Flat(groups) + [b], ordinary, selected);
        ghost var before := Flat(groups);
        groups := AddRuleGroups(groups, [b], update, selected);
        SamePart(before + [b], Flat(groups), ordinary, selected);
      }
    }
    assert selected[..|selected|] == selected;
    ghost var before := Flat(groups);
    groups := AddRuleGroups(groups, ordinary, update, selected);
  }

  lemma FrontPart(a: seq<BoundRule>, b: seq<BoundRule>, all: seq<BoundRule>)
    requires Part(a + b, all)
    ensures Part(a, all)
  {
    assert forall i :: 0 <= i < |a| ==> (a + b)[i] == a[i];
    assert forall x :: x in a ==> x in a + b;
  }

  /** A reordering of the front keeps the whole a part. */
  lemma SamePart(a: seq<BoundRule>, a': seq<BoundRule>, b: seq<BoundRule>, all: seq<BoundRule>)
    requires Part(a + b, all) && Part(a', all) && forall x :: x in a' <==> x in a
    ensures Part(a' + b, all) && forall x :: x in a' + b <==> x in a + b
  {
    var before, after := a + b, a' + b;
    assert forall i :: 0 <= i < |b| ==> before[|a| + i] == b[i];
    forall i, j | 0 <= i < j < |after| ensures after[i] != after[j] {
      if j < |a'| {
        assert a'[i] != a'[j];
      } else if i < |a'| {
        assert a'[i] in a';
        var k :| 0 <= k < |a| && a[k] == a'[i];
        assert before[k] != before[|a| + (j - |a'|)];
      } else {
        assert before[|a| + (i - |a'|)] != before[|a| + (j - |a'|)];
      }
    }
  }
}
