/** Coalescing independent sequence updates into executor tasks. */
module TaskGrouping {
  import opened Timeline

  const OVERSUBSCRIPTION := 2
  const MINIMUM_GROUP_COST := 8

  function Total<T>(items: seq<T>, cost: T -> nat): nat {
    if items == [] then 0 else Total(items[..|items| - 1], cost) + cost(items[|items| - 1])
  }

  function Sum(costs: seq<nat>): nat {
    if costs == [] then 0 else Sum(costs[..|costs| - 1]) + costs[|costs| - 1]
  }

  ghost function Flatten<T>(groups: seq<seq<T>>): seq<T> {
    if groups == [] then [] else Flatten(groups[..|groups| - 1]) + groups[|groups| - 1]
  }

  function TargetCost(total: nat, workers: nat): (target: nat)
    requires workers >= 1
    ensures target >= 1 && target * (workers * OVERSUBSCRIPTION) >= total
    ensures target >= MINIMUM_GROUP_COST && (target > MINIMUM_GROUP_COST ==> (target - 1) * (workers * OVERSUBSCRIPTION) < total)
  {
    var denominator := workers * OVERSUBSCRIPTION;
    var calculated := (total + denominator - 1) / denominator;
    RoundUpCovers(total, denominator);
    RoundUpIsLeast(total, denominator);
    var target := Max(MINIMUM_GROUP_COST, Max(1, calculated));
    MultiplyMonotone(calculated, target, denominator);
    target
  }

  lemma RoundUpCovers(total: nat, d: nat)
    requires d >= 1
    ensures (total + d - 1) / d * d >= total
  {
    var q, r := (total + d - 1) / d, (total + d - 1) % d;
    assert total + d - 1 == q * d + r;
  }

  lemma RoundUpIsLeast(total: nat, d: nat)
    requires d >= 1
    ensures (total + d - 1) / d > 0 ==> ((total + d - 1) / d - 1) * d < total
  {
    var q, r := (total + d - 1) / d, (total + d - 1) % d;
    assert total + d - 1 == q * d + r && (q - 1) * d == q * d - d;
  }

  lemma MultiplyMonotone(a: nat, b: nat, d: nat)
    requires a <= b
    ensures a * d <= b * d
  {
  }

  /** std::stable_sort with the costliest first. */
  function SortByCost<T(!new)>(items: seq<T>, cost: T -> nat): (r: seq<T>)
    ensures multiset(r) == multiset(items)
    ensures CostliestFirst(r, cost)
  {
    if items == [] then []
    else
      assert items == items[..|items| - 1] + [items[|items| - 1]];
      InsertByCost(SortByCost(items[..|items| - 1], cost), items[|items| - 1], cost)
  }

  ghost predicate CostliestFirst<T>(s: seq<T>, cost: T -> nat) {
    forall i, j :: 0 <= i < j < |s| ==> cost(s[i]) >= cost(s[j])
  }

  function InsertByCost<T(!new)>(sorted: seq<T>, item: T, cost: T -> nat): (r: seq<T>)
    requires CostliestFirst(sorted, cost)
    ensures |r| == |sorted| + 1 && multiset(r) == multiset(sorted) + multiset{item}
    ensures CostliestFirst(r, cost)
  {
    var k := FirstCheaper(sorted, cost, cost(item), 0);
    assert sorted == sorted[..k] + sorted[k..];
    InsertKeepsOrder(sorted, k, item, cost);
    sorted[..k] + [item] + sorted[k..]
  }

  lemma InsertKeepsOrder<T>(sorted: seq<T>, k: nat, item: T, cost: T -> nat)
    requires CostliestFirst(sorted, cost) && k <= |sorted|
    requires forall i :: 0 <= i < k ==> cost(sorted[i]) >= cost(item)
    requires k < |sorted| ==> cost(sorted[k]) < cost(item)
    ensures CostliestFirst(sorted[..k] + [item] + sorted[k..], cost)
  {
    var r := sorted[..k] + [item] + sorted[k..];
    forall i, j | 0 <= i < j < |r| ensures cost(r[i]) >= cost(r[j]) {
      assert r[i] == if i < k then sorted[i] else if i == k then item else sorted[i - 1];
      assert r[j] == if j < k then sorted[j] else if j == k then item else sorted[j - 1];
    }
  }

  function FirstCheaper<T>(s: seq<T>, cost: T -> nat, c: nat, from: nat): (k: nat)
    requires from <= |s|
    ensures from <= k <= |s|
    ensures forall i :: from <= i < k ==> cost(s[i]) >= c
    ensures k < |s| ==> cost(s[k]) < c
    decreases |s| - from
  {
    if from == |s| || cost(s[from]) < c then from else FirstCheaper(s, cost, c, from + 1)
  }

  /** The least loaded group the item still fits into; the first one on a tie. */
  method BestGroup(costs: seq<nat>, itemCost: nat, target: nat) returns (best: Option<nat>)
    ensures best.None? <==> forall i :: 0 <= i < |costs| ==> costs[i] + itemCost > target
    ensures best.Some? ==>
              && best.value < |costs| && costs[best.value] + itemCost <= target
              && (forall i :: 0 <= i < |costs| && costs[i] + itemCost <= target ==> costs[best.value] <= costs[i])
              && (forall i :: 0 <= i < best.value && costs[i] + itemCost <= target ==> costs[best.value] < costs[i])
  {
    best := None;
    for index := 0 to |costs|
      invariant best.None? <==> forall i :: 0 <= i < index ==> costs[i] + itemCost > target
      invariant best.Some? ==>
                  && best.value < index && costs[best.value] + itemCost <= target
                  && (forall i :: 0 <= i < index && costs[i] + itemCost <= target ==> costs[best.value] <= costs[i])
                  && (forall i :: 0 <= i < best.value && costs[i] + itemCost <= target ==> costs[best.value] < costs[i])
    {
      if costs[index] + itemCost > target {
        continue;
      }
      if best.None? || costs[index] < costs[best.value] {
        best := Some(index);
      }
    }
  }

  /** No group is over the target unless it is one item, no two groups would fit
      together, and the costs are the groups' true totals. */
  ghost predicate Packed<T(!new)>(groups: seq<seq<T>>, costs: seq<nat>, cost: T -> nat, target: nat) {
    && |groups| == |costs|
    && (forall i :: 0 <= i < |groups| ==> groups[i] != [] && costs[i] == Total(groups[i], cost))
    && (forall i :: 0 <= i < |groups| ==> costs[i] <= target || |groups[i]| == 1)
    && (forall i, j :: 0 <= i < j < |costs| ==> costs[i] + costs[j] > target)
  }

  /** Groups `items` for `workers` threads; the groups partition the items. */
  method GroupSequenceTasks<T(!new)>(items: seq<T>, workers: nat, cost: T -> nat) returns (groups: seq<seq<T>>)
    ensures multiset(Flatten(groups)) == multiset(items)
    ensures forall i :: 0 <= i < |groups| ==> groups[i] != []
    ensures workers == 0 && items != [] ==> groups == [items]
    ensures workers >= 1 ==>
              forall i :: 0 <= i < |groups| ==>
                            Total(groups[i], cost) <= TargetCost(Total(items, cost), workers) || |groups[i]| == 1
    ensures workers >= 1 ==> |groups| <= 4 * workers - 1
  {
    if items == [] {
      return [];
    }
    if workers == 0 {
      assert Flatten([items]) == Flatten([]) + items;
      return [items];
    }
    var target := TargetCost(Total(items, cost), workers);
    var sorted := SortByCost(items, cost);
    ghost var costs;
    groups, costs := PackSorted(sorted, cost, target);
    TotalOfPermutation(items, sorted, cost);
    SumOfGroups(groups, costs, cost);
    TotalOfPermutation(sorted, Flatten(groups), cost);
    GroupCountBound(costs, target, workers);
  }

  /** The placement loop over the sorted items. */
  method PackSorted<T(!new)>(sorted: seq<T>, cost: T -> nat, target: nat) returns (groups: seq<seq<T>>, costs: seq<nat>)
    ensures Packed(groups, costs, cost, target)
    ensures multiset(Flatten(groups)) == multiset(sorted)
  {
    groups, costs := [], [];
    for k := 0 to |sorted|
      invariant Packed(groups, costs, cost, target)
      invariant multiset(Flatten(groups)) == multiset(sorted[..k])
    {
      var item := sorted[k];
      assert sorted[..k + 1] == sorted[..k] + [item];
      var best := BestGroup(costs, cost(item), target);
      if best.None? {
        OpenGroup(groups, costs, cost, target, item);
        groups, costs := groups + [[item]], costs + [cost(item)];
      } else {
        var b := best.value;
        JoinGroup(groups, costs, cost, target, item, b);
        groups, costs := groups[b := groups[b] + [item]], costs[b := costs[b] + cost(item)];
      }
    }
    assert sorted[..|sorted|] == sorted;
  }

  lemma {:induction false} OpenGroup<T(!new)>(groups: seq<seq<T>>, costs: seq<nat>, cost: T -> nat, target: nat, item: T)
    requires Packed(groups, costs, cost, target)
    requires forall i :: 0 <= i < |costs| ==> costs[i] + cost(item) > target
    ensures Packed(groups + [[item]], costs + [cost(item)], cost, target)
    ensures multiset(Flatten(groups + [[item]])) == multiset(Flatten(groups)) + multiset{item}
  {
    var wider := groups + [[item]];
    assert wider[..|wider| - 1] == groups;
    assert [item][..0] == [];
    assert Total([item], cost) == Total([], cost) + cost(item);
  }

  lemma {:induction false} JoinGroup<T(!new)>(groups: seq<seq<T>>, costs: seq<nat>, cost: T -> nat, target: nat, item: T, b: nat)
    requires Packed(groups, costs, cost, target)
    requires b < |costs| && costs[b] + cost(item) <= target
    ensures Packed(groups[b := groups[b] + [item]], costs[b := costs[b] + cost(item)], cost, target)
    ensures multiset(Flatten(groups[b := groups[b] + [item]])) == multiset(Flatten(groups)) + multiset{item}
  {
    var grown := groups[b] + [item];
    assert grown[..|groups[b]|] == groups[b];
    assert Total(grown, cost) == costs[b] + cost(item);
    FlattenUpdate(groups, b, item);
  }

  lemma {:induction false} FlattenUpdate<T>(groups: seq<seq<T>>, b: nat, item: T)
    requires b < |groups|
    ensures multiset(Flatten(groups[b := groups[b] + [item]])) == multiset(Flatten(groups)) + multiset{item}
    decreases |groups|
  {
    var n := |groups| - 1;
    var after := groups[b := groups[b] + [item]];
    FlattenLast(groups);
    FlattenLast(after);
    hide Flatten;
    if b == n {
      assert after[..n] == groups[..n];
    } else {
      FlattenUpdate(groups[..n], b, item);
      assert after[..n] == groups[..n][b := groups[..n][b] + [item]];
    }
  }

  lemma FlattenLast<T>(groups: seq<seq<T>>)
    requires groups != []
    ensures Flatten(groups) == Flatten(groups[..|groups| - 1]) + groups[|groups| - 1]
  {
  }

  lemma {:induction false} TotalOfConcat<T>(a: seq<T>, b: seq<T>, cost: T -> nat)
    ensures Total(a + b, cost) == Total(a, cost) + Total(b, cost)
    decreases |b|
  {
    if b == [] {
      assert a + b == a;
    } else {
      TotalOfConcat(a, b[..|b| - 1], cost);
      assert (a + b)[..|a + b| - 1] == a + b[..|b| - 1];
    }
  }

  lemma {:induction false} TotalOfPermutation<T>(a: seq<T>, b: seq<T>, cost: T -> nat)
    requires multiset(a) == multiset(b)
    ensures Total(a, cost) == Total(b, cost)
    decreases |a|
  {
    if a == [] {
      assert |multiset(b)| == 0;
    } else {
      var x := a[|a| - 1];
      assert x in multiset(b);
      var i :| 0 <= i < |b| && b[i] == x;
      var rest := b[..i] + b[i + 1..];
      assert b == b[..i] + [x] + b[i + 1..];
      assert a == a[..|a| - 1] + [x];
      assert multiset(rest) == multiset(b) - multiset{x};
      TotalOfPermutation(a[..|a| - 1], rest, cost);
      TotalOfConcat(b[..i], b[i + 1..], cost);
      TotalOfConcat(b[..i] + [x], b[i + 1..], cost);
      TotalOfConcat(b[..i], [x], cost);
      assert Total([x], cost) == cost(x) by { assert [x][..0] == []; }
    }
  }

  lemma {:induction false} SumOfGroups<T>(groups: seq<seq<T>>, costs: seq<nat>, cost: T -> nat)
    requires |groups| == |costs| && forall i :: 0 <= i < |groups| ==> costs[i] == Total(groups[i], cost)
    ensures Sum(costs) == Total(Flatten(groups), cost)
    decreases |groups|
  {
    if groups != [] {
      var n := |groups| - 1;
      SumOfGroups(groups[..n], costs[..n], cost);
      TotalOfConcat(Flatten(groups[..n]), groups[n], cost);
    }
  }

  /** Every disjoint pair of groups costs more than the target. */
  lemma {:induction false} PairsExceed(costs: seq<nat>, target: nat, n: nat)
    requires forall i, j :: 0 <= i < j < |costs| ==> costs[i] + costs[j] > target
    requires 2 * n <= |costs|
    ensures Sum(costs) >= n * (target + 1)
    decreases |costs|
  {
    if n > 0 {
      var m := |costs|;
      PairsExceed(costs[..m - 2], target, n - 1);
      assert costs[..m - 1][..m - 2] == costs[..m - 2];
      assert Sum(costs) == Sum(costs[..m - 2]) + costs[m - 2] + costs[m - 1];
    }
  }

  lemma GroupCountBound(costs: seq<nat>, target: nat, workers: nat)
    requires workers >= 1 && target * (workers * OVERSUBSCRIPTION) >= Sum(costs)
    requires forall i, j :: 0 <= i < j < |costs| ==> costs[i] + costs[j] > target
    ensures |costs| <= 4 * workers - 1
  {
    if |costs| >= 4 * workers {
      PairsExceed(costs, target, 2 * workers);
    }
  }
}
