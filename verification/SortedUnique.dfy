/** Ordering an arbitrary batch: stable sort by time, last duplicate wins. */
module SortedUnique {
  import opened Timeline
  import opened OrderedMerge

  /** std::stable_sort by time: a point goes after every earlier-written one it ties with. */
  function StableSort(s: seq<Point>): (r: seq<Point>)
    ensures |r| == |s|
  {
    if s == [] then []
    else
      var sorted := StableSort(s[..|s| - 1]);
      var k := UpperBound(sorted, 0, s[|s| - 1].time);
      sorted[..k] + [s[|s| - 1]] + sorted[k..]
  }

  lemma {:induction false} StableSortMeaning(s: seq<Point>)
    ensures Nondecreasing(StableSort(s))
    ensures AsMap(StableSort(s)) == AsMap(s)
    decreases |s|
  {
    if s != [] {
      StableSortMeaning(s[..|s| - 1]);
      InsertMeaning(StableSort(s[..|s| - 1]), s[|s| - 1]);
    }
  }

  lemma {:induction false} InsertMeaning(s: seq<Point>, p: Point)
    requires Nondecreasing(s)
    ensures var k := UpperBound(s, 0, p.time); var r := s[..k] + [p] + s[k..];
            Nondecreasing(r) && AsMap(r) == AsMap(s)[p.time := p.value]
  {
    hide AsMap;
    var k := UpperBound(s, 0, p.time);
    InsertOrdered(s, k, p);
    UpperBoundSplits(s, p.time);
    InsertMap(s[..k], p, s[k..]);
    assert s == s[..k] + s[k..];
  }

  lemma UpperBoundSplits(s: seq<Point>, t: int)
    requires Nondecreasing(s)
    ensures AllFrom(s[UpperBound(s, 0, t)..], t + 1)
  {
  }

  lemma InsertMap(a: seq<Point>, p: Point, b: seq<Point>)
    requires AllFrom(b, p.time + 1)
    ensures AsMap(a + [p] + b) == AsMap(a + b)[p.time := p.value]
  {
    hide AsMap;
    AsMapConcat(a, b);
    AsMapConcat(a + [p], b);
    WriteLast(a, p);
    NotInSuffix(b, p.time);
    OverlayTop(AsMap(a), AsMap(b), p.time, p.value, p.value);
  }

  lemma InsertOrdered(s: seq<Point>, k: nat, p: Point)
    requires Nondecreasing(s) && k <= |s|
    requires forall i :: 0 <= i < k ==> s[i].time <= p.time
    requires k < |s| ==> p.time <= s[k].time
    ensures Nondecreasing(s[..k] + [p] + s[k..])
  {
    var r := s[..k] + [p] + s[k..];
    assert forall i :: 0 <= i < |r| ==> r[i] == if i < k then s[i] else if i == k then p else s[i - 1];
  }

  lemma WriteLast(s: seq<Point>, p: Point)
    ensures AsMap(s + [p]) == AsMap(s)[p.time := p.value]
  {
    assert (s + [p])[..|s|] == s;
  }

  lemma {:induction false} NotInSuffix(s: seq<Point>, t: int)
    requires AllFrom(s, t + 1)
    ensures t !in AsMap(s)
    decreases |s|
  {
    if s != [] { NotInSuffix(s[..|s| - 1], t); }
  }

  /** Overwriting the last point of a vector at its own instant. */
  lemma {:induction false} OverwriteLast(s: seq<Point>, p: Point)
    requires StrictlyIncreasing(s) && s != [] && s[|s| - 1].time == p.time
    ensures StrictlyIncreasing(s[..|s| - 1] + [p])
    ensures AsMap(s[..|s| - 1] + [p]) == AsMap(s)[p.time := p.value]
  {
    hide AsMap;
    var front := s[..|s| - 1];
    Newest(s);
    AppendAbove(front, p);
  }

  /** The sort-then-deduplicate loop yields the listing of the batch's map. */
  method SortUnique(s: seq<Point>) returns (unique: seq<Point>)
    ensures unique == InOrder(AsMap(s))
  {
    hide AsMap, InOrder, StableSort;
    StableSortMeaning(s);
    var sorted := StableSort(s);
    unique := [];
    AsMapNil([]);
    assert sorted[..0] == [];
    for i := 0 to |sorted|
      invariant StrictlyIncreasing(unique)
      invariant AsMap(unique) == AsMap(sorted[..i])
      invariant unique == [] <==> i == 0
      invariant i > 0 ==> unique[|unique| - 1].time == sorted[i - 1].time
    {
      var p := sorted[i];
      AsMapLast(sorted[..i + 1]);
      assert sorted[..i + 1][..i] == sorted[..i];
      if unique != [] && unique[|unique| - 1].time == p.time {
        OverwriteLast(unique, p);
        unique := unique[..|unique| - 1] + [p];
      } else {
        NewestBelow(unique, p.time);
        AppendAbove(unique, p);
        unique := unique + [p];
      }
    }
    assert sorted[..|sorted|] == sorted;
    AsMapInjective(unique, InOrder(AsMap(s)));
  }
}
