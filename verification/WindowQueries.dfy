/** Reading a window: ordered merge of vector and late buffer, and statistics. */
module WindowQueries {
  import opened Timeline
  import opened MonotoneDeque
  import opened OrderedMerge

  /** The last `preceding` points before `start`, the points of [start, end),
      and the first `following` points from `end` on. */
  ghost function Excerpt(all: seq<Point>, start: int, end: int, preceding: nat, following: nat): (r: seq<Point>)
    requires start <= end
  {
    var a, b := LowerBound(all, 0, start), LowerBound(all, 0, end);
    LowerBoundMonotone(all, start, end);
    all[Max(a - preceding, 0)..Min(b + following, |all|)]
  }

  // ----- one step of a walk over both inputs -----

  /** The late buffer gives the newest point of the prefixes; a twin in the vector is skipped with it. */
  lemma BackLate(v: seq<Point>, l: seq<Point>, i: nat, j: nat)
    requires StrictlyIncreasing(v) && StrictlyIncreasing(l) && i <= |v| && 0 < j <= |l|
    requires i == 0 || v[i - 1].time <= l[j - 1].time
    ensures var twin := i != 0 && v[i - 1].time == l[j - 1].time;
            Merged(v[..i], l[..j]) == Merged(v[..if twin then i - 1 else i], l[..j - 1]) + [l[j - 1]]
  {
    hide Merged;
    var a, b := v[..i], l[..j];
    MergedLastLate(a, b);
    assert b[..j - 1] == l[..j - 1] && (i > 0 ==> a[..i - 1] == v[..i - 1]);
  }

  lemma BackVector(v: seq<Point>, l: seq<Point>, i: nat, j: nat)
    requires StrictlyIncreasing(v) && StrictlyIncreasing(l) && 0 < i <= |v| && j <= |l|
    requires j == 0 || l[j - 1].time < v[i - 1].time
    ensures Merged(v[..i], l[..j]) == Merged(v[..i - 1], l[..j]) + [v[i - 1]]
  {
    hide Merged;
    var a, b := v[..i], l[..j];
    MergedLastVector(a, b);
    assert a[..i - 1] == v[..i - 1];
  }

  /** The late buffer gives the oldest point of the suffixes; a twin in the vector is skipped with it. */
  lemma AheadLate(v: seq<Point>, l: seq<Point>, i: nat, j: nat)
    requires StrictlyIncreasing(v) && StrictlyIncreasing(l) && i <= |v| && j < |l|
    requires i == |v| || l[j].time <= v[i].time
    ensures var twin := i != |v| && v[i].time == l[j].time;
            Merged(v[i..], l[j..]) == [l[j]] + Merged(v[if twin then i + 1 else i..], l[j + 1..])
  {
    hide Merged;
    var a, b := v[i..], l[j..];
    MergedFirstLate(a, b);
    assert b[1..] == l[j + 1..] && (i < |v| ==> a[1..] == v[i + 1..]);
  }

  lemma AheadVector(v: seq<Point>, l: seq<Point>, i: nat, j: nat)
    requires StrictlyIncreasing(v) && StrictlyIncreasing(l) && i < |v| && j <= |l|
    requires j == |l| || v[i].time < l[j].time
    ensures Merged(v[i..], l[j..]) == [v[i]] + Merged(v[i + 1..], l[j..])
  {
    hide Merged;
    var a, b := v[i..], l[j..];
    MergedFirstVector(a, b);
    assert a[1..] == v[i + 1..];
  }

  lemma MergedNothing(v: seq<Point>, l: seq<Point>)
    requires v == [] && l == []
    ensures Merged(v, l) == []
  {
  }

  /** Walks both inputs backwards from their ends, newest first. */
  method PrecedingContext(v: seq<Point>, l: seq<Point>, limit: nat) returns (context: seq<Point>)
    requires StrictlyIncreasing(v) && StrictlyIncreasing(l)
    ensures var m := Merged(v, l); context == m[Max(|m| - limit, 0)..]
  {
    hide Merged, StrictlyIncreasing;
    context := [];
    var vectorContext: nat, lateContext: nat := |v|, |l|;
    assert v[..|v|] == v && l[..|l|] == l;
    while |context| < limit && !(vectorContext == 0 && lateContext == 0)
      invariant vectorContext <= |v| && lateContext <= |l| && |context| <= limit
      invariant Merged(v[..vectorContext], l[..lateContext]) + context == Merged(v, l)
      decreases vectorContext + lateContext
    {
      if lateContext != 0 && (vectorContext == 0 || l[lateContext - 1].time >= v[vectorContext - 1].time) {
        BackLate(v, l, vectorContext, lateContext);
        var twin := vectorContext != 0 && v[vectorContext - 1].time == l[lateContext - 1].time;
        context := [l[lateContext - 1]] + context;
        lateContext := lateContext - 1;
        if twin {
          vectorContext := vectorContext - 1;
        }
      } else {
        BackVector(v, l, vectorContext, lateContext);
        context := [v[vectorContext - 1]] + context;
        vectorContext := vectorContext - 1;
      }
    }
    if vectorContext == 0 && lateContext == 0 {
      MergedNothing(v[..0], l[..0]);
    }
  }

  /** Walks both inputs forwards until `limit` points are out or both are exhausted. */
  method FollowingContext(v: seq<Point>, l: seq<Point>, limit: nat) returns (context: seq<Point>)
    requires StrictlyIncreasing(v) && StrictlyIncreasing(l)
    ensures var m := Merged(v, l); context == m[..Min(limit, |m|)]
  {
    hide Merged, StrictlyIncreasing;
    context := [];
    var vectorContext, lateContext := 0, 0;
    assert v[0..] == v && l[0..] == l;
    while |context| < limit && !(vectorContext == |v| && lateContext == |l|)
      invariant vectorContext <= |v| && lateContext <= |l| && |context| <= limit
      invariant context + Merged(v[vectorContext..], l[lateContext..]) == Merged(v, l)
      decreases |v| - vectorContext + |l| - lateContext
    {
      if lateContext != |l| && (vectorContext == |v| || l[lateContext].time <= v[vectorContext].time) {
        AheadLate(v, l, vectorContext, lateContext);
        var twin := vectorContext != |v| && v[vectorContext].time == l[lateContext].time;
        context := context + [l[lateContext]];
        lateContext := lateContext + 1;
        if twin {
          vectorContext := vectorContext + 1;
        }
      } else {
        AheadVector(v, l, vectorContext, lateContext);
        context := context + [v[vectorContext]];
        vectorContext := vectorContext + 1;
      }
    }
    if vectorContext == |v| && lateContext == |l| {
      MergedNothing(v[|v|..], l[|l|..]);
    }
  }

  /** The three-way merge of the requested range itself. */
  method MergeRange(v: seq<Point>, l: seq<Point>) returns (output: seq<Point>)
    requires StrictlyIncreasing(v) && StrictlyIncreasing(l)
    ensures output == Merged(v, l)
  {
    hide Merged, StrictlyIncreasing;
    output := [];
    var i, j := 0, 0;
    assert v[0..] == v && l[0..] == l;
    while i != |v| || j != |l|
      invariant i <= |v| && j <= |l|
      invariant output + Merged(v[i..], l[j..]) == Merged(v, l)
      decreases |v| - i + |l| - j
    {
      if i == |v| {
        AheadLate(v, l, i, j);
        output := output + [l[j]];
        j := j + 1;
      } else if j == |l| {
        AheadVector(v, l, i, j);
        output := output + [v[i]];
        i := i + 1;
      } else if v[i].time < l[j].time {
        AheadVector(v, l, i, j);
        output := output + [v[i]];
        i := i + 1;
      } else if l[j].time < v[i].time {
        AheadLate(v, l, i, j);
        output := output + [l[j]];
        j := j + 1;
      } else {
        AheadLate(v, l, i, j);
        output := output + [l[j]];
        i := i + 1;
        j := j + 1;
      }
    }
    MergedNothing(v[|v|..], l[|l|..]);
  }

  /** The query over an active vector and its late buffer. */
  method QueryMerged(v: seq<Point>, l: seq<Point>, start: int, end: int, preceding: nat, following: nat)
    returns (output: seq<Point>, count: nat)
    requires StrictlyIncreasing(v) && StrictlyIncreasing(l) && start <= end
    ensures output == Excerpt(Merged(v, l), start, end, preceding, following)
    ensures count == |output|
  {
    hide Merged, StrictlyIncreasing, LowerBound;
    var vectorBegin := LowerBound(v, 0, start);
    var vectorFinish := LowerBound(v, vectorBegin, end);
    var lateBegin := LowerBound(l, 0, start);
    var lateFinish := LowerBound(l, 0, end);
    ThreeParts(v, l, start, end);
    output, count := [], 0;
    if preceding != 0 {
      output := PrecedingContext(v[..vectorBegin], l[..lateBegin], preceding);
      count := |output|;
    }
    var middle := MergeRange(v[vectorBegin..vectorFinish], l[lateBegin..lateFinish]);
    output := output + middle;
    count := count + |middle|;
    if following != 0 {
      var tail := FollowingContext(v[vectorFinish..], l[lateFinish..], following);
      output := output + tail;
      count := count + |tail|;
    }
    SliceOfThree(Merged(v[..vectorBegin], l[..lateBegin]), middle, Merged(v[vectorFinish..], l[lateFinish..]),
                 preceding, following);
  }

  lemma SliceOfThree<T>(a: seq<T>, b: seq<T>, c: seq<T>, k: nat, m: nat)
    ensures (a + b + c)[Max(|a| - k, 0)..Min(|a| + |b| + m, |a + b + c|)] ==
            a[Max(|a| - k, 0)..] + b + c[..Min(m, |c|)]
  {
  }

  /** The two bounds cut the merge into three independent merges. */
  lemma ThreeParts(v: seq<Point>, l: seq<Point>, start: int, end: int)
    requires StrictlyIncreasing(v) && StrictlyIncreasing(l) && start <= end
    ensures var vb, lb, lf := LowerBound(v, 0, start), LowerBound(l, 0, start), LowerBound(l, 0, end);
            var vf := LowerBound(v, vb, end);
            && lb <= lf
            && StrictlyIncreasing(v[..vb]) && StrictlyIncreasing(v[vb..vf]) && StrictlyIncreasing(v[vf..])
            && StrictlyIncreasing(l[..lb]) && StrictlyIncreasing(l[lb..lf]) && StrictlyIncreasing(l[lf..])
            && var a, b, c := Merged(v[..vb], l[..lb]), Merged(v[vb..vf], l[lb..lf]), Merged(v[vf..], l[lf..]);
               && Merged(v, l) == a + b + c
               && LowerBound(Merged(v, l), 0, start) == |a|
               && LowerBound(Merged(v, l), 0, end) == |a| + |b|
  {
    hide Merged, StrictlyIncreasing, LowerBound;
    var vb, lb, lf := LowerBound(v, 0, start), LowerBound(l, 0, start), LowerBound(l, 0, end);
    var vf := LowerBound(v, vb, end);
    LowerBoundMonotone(l, start, end);
    LowerBoundIs(v, 0, end, vf);
    Cut(v, l, start);
    Cut(v, l, end);
    var v', l' := v[..vf], l[..lf];
    LowerBoundIs(v', 0, start, vb);
    LowerBoundIs(l', 0, start, lb);
    Cut(v', l', start);
    assert v'[..vb] == v[..vb] && v'[vb..] == v[vb..vf] && l'[..lb] == l[..lb] && l'[lb..] == l[lb..lf];
    var a := Merged(v[..vb], l[..lb]);
    assert a <= Merged(v', l') <= Merged(v, l);
    var all := Merged(v, l);
    assert all[|a|..] == Merged(v[vb..], l[lb..]);
  }

  lemma Cut(v: seq<Point>, l: seq<Point>, t: int)
    requires StrictlyIncreasing(v) && StrictlyIncreasing(l)
    ensures var i, j := LowerBound(v, 0, t), LowerBound(l, 0, t);
            && StrictlyIncreasing(v[..i]) && StrictlyIncreasing(v[i..])
            && StrictlyIncreasing(l[..j]) && StrictlyIncreasing(l[j..])
            && Merged(v, l) == Merged(v[..i], l[..j]) + Merged(v[i..], l[j..])
            && LowerBound(Merged(v, l), 0, t) == |Merged(v[..i], l[..j])|
  {
    hide Merged, LowerBound;
    LowerBoundSplits(v, t);
    LowerBoundSplits(l, t);
    MergedSplit(v, LowerBound(v, 0, t), l, LowerBound(l, 0, t), t);
  }

  /** What a statistics query can answer. */
  datatype StatisticsAnswer =
    | NonNumericContent
    | NoSamples
    | Statistics(count: nat, average: real, maximum: real, minimum: real)

  /** The same answer computed from scratch over an ordered listing. */
  ghost function ScratchStatistics(s: seq<Point>): (r: StatisticsAnswer) {
    if NumericCount(s) != |s| then NonNumericContent
    else if s == [] then NoSamples
    else
      ScratchDefined(s);
      Statistics(|s|, NumericSum(s) / (|s| as real), Best(Highest, s).value, Best(Lowest, s).value)
  }

  lemma ScratchDefined(s: seq<Point>)
    requires s != [] && NumericCount(s) == |s|
    ensures Best(Highest, s).Some? && Best(Lowest, s).Some?
  {
    if |s| > 1 {
      DropFirstTotals(s[..|s| - 1]);
      ScratchDefined(s[..|s| - 1]);
    }
  }
}
