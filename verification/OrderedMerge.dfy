/** Merging an append vector with its ordered buffer of late corrections. */
module OrderedMerge {
  import opened Timeline

  ghost predicate AllBelow(s: seq<Point>, t: int) {
    forall i :: 0 <= i < |s| ==> s[i].time < t
  }

  ghost predicate AllFrom(s: seq<Point>, t: int) {
    forall i :: 0 <= i < |s| ==> t <= s[i].time
  }

  ghost predicate KeysBelow(m: Series, t: int) {
    forall u :: u in m ==> u < t
  }

  ghost predicate KeysFrom(m: Series, t: int) {
    forall u :: u in m ==> t <= u
  }

  lemma {:induction false} AsMapKeysBelow(s: seq<Point>, t: int)
    requires StrictlyIncreasing(s)
    ensures AllBelow(s, t) <==> KeysBelow(AsMap(s), t)
    ensures AllFrom(s, t) <==> KeysFrom(AsMap(s), t)
  {
    hide AsMap;
    forall u | u in AsMap(s)
      ensures LowerBound(s, 0, u) < |s| && s[LowerBound(s, 0, u)].time == u
    {
      AsMapAt(s, u);
    }
    forall i | 0 <= i < |s| ensures s[i].time in AsMap(s) { AsMapOfPoint(s, i); }
  }

  /** The live listing: late corrections laid over the vector. */
  ghost function Merged(v: seq<Point>, l: seq<Point>): (s: seq<Point>) {
    InOrder(AsMap(v) + AsMap(l))
  }

  lemma MergedIs(v: seq<Point>, l: seq<Point>, c: seq<Point>)
    requires StrictlyIncreasing(c) && AsMap(c) == AsMap(v) + AsMap(l)
    ensures Merged(v, l) == c
  {
    hide AsMap;
    AsMapInjective(c, Merged(v, l));
  }

  lemma AppendAbove(s: seq<Point>, p: Point)
    requires StrictlyIncreasing(s) && KeysBelow(AsMap(s), p.time)
    ensures StrictlyIncreasing(s + [p]) && AsMap(s + [p]) == AsMap(s)[p.time := p.value]
  {
    AsMapKeysBelow(s, p.time);
    assert (s + [p])[..|s|] == s;
  }

  lemma Newest(s: seq<Point>)
    requires StrictlyIncreasing(s) && s != []
    ensures StrictlyIncreasing(s[..|s| - 1]) && KeysBelow(AsMap(s[..|s| - 1]), s[|s| - 1].time)
    ensures AsMap(s) == AsMap(s[..|s| - 1])[s[|s| - 1].time := s[|s| - 1].value]
  {
    AsMapKeysBelow(s[..|s| - 1], s[|s| - 1].time);
  }

  lemma {:induction false} NewestBelow(s: seq<Point>, t: int)
    requires StrictlyIncreasing(s) && (s == [] || s[|s| - 1].time < t)
    ensures KeysBelow(AsMap(s), t)
  {
    hide AsMap;
    AsMapKeysBelow(s, t);
  }

  lemma OverlayTop(a: Series, l: Series, t: Timestamp, x: Value, y: Value)
    ensures a + l[t := y] == (a + l)[t := y]
    ensures a[t := x] + l[t := y] == (a + l)[t := y]
    ensures t !in l ==> a[t := x] + l == (a + l)[t := x]
  {
  }

  /** The newest merged point is the newest late point unless the vector's is newer. */
  lemma {:induction false} MergedLastLate(v: seq<Point>, l: seq<Point>)
    requires StrictlyIncreasing(v) && StrictlyIncreasing(l) && l != []
    requires v == [] || v[|v| - 1].time <= l[|l| - 1].time
    ensures Merged(v, l) == Merged(WithoutNewestAt(v, l[|l| - 1].time), l[..|l| - 1]) + [l[|l| - 1]]
  {
    hide AsMap;
    var y := l[|l| - 1];
    var v' := WithoutNewestAt(v, y.time);
    Newest(l);
    if v' != v { Newest(v); OverlayTop(AsMap(v'), AsMap(l[..|l| - 1]), y.time, v[|v| - 1].value, y.value); }
    else { NewestBelow(v, y.time); OverlayTop(AsMap(v), AsMap(l[..|l| - 1]), y.time, y.value, y.value); }
    AppendAbove(Merged(v', l[..|l| - 1]), y);
    MergedIs(v, l, Merged(v', l[..|l| - 1]) + [y]);
  }

  function WithoutNewestAt(v: seq<Point>, t: int): (r: seq<Point>)
  {
    if v != [] && v[|v| - 1].time == t then v[..|v| - 1] else v
  }

  lemma MergedLastVector(v: seq<Point>, l: seq<Point>)
    requires StrictlyIncreasing(v) && StrictlyIncreasing(l) && v != []
    requires l == [] || l[|l| - 1].time < v[|v| - 1].time
    ensures Merged(v, l) == Merged(v[..|v| - 1], l) + [v[|v| - 1]]
  {
    hide AsMap;
    var x := v[|v| - 1];
    Newest(v);
    NewestBelow(l, x.time);
    OverlayTop(AsMap(v[..|v| - 1]), AsMap(l), x.time, x.value, x.value);
    AppendAbove(Merged(v[..|v| - 1], l), x);
    MergedIs(v, l, Merged(v[..|v| - 1], l) + [x]);
  }

  lemma {:induction false} PrependBelow(p: Point, s: seq<Point>)
    requires StrictlyIncreasing(s) && KeysFrom(AsMap(s), p.time + 1)
    ensures StrictlyIncreasing([p] + s) && AsMap([p] + s) == map[p.time := p.value] + AsMap(s)
  {
    AsMapKeysBelow(s, p.time + 1);
    AsMapConcat([p], s);
    assert [p][..0] == [];
  }

  lemma {:induction false} Oldest(s: seq<Point>)
    requires StrictlyIncreasing(s) && s != []
    ensures StrictlyIncreasing(s[1..]) && KeysFrom(AsMap(s[1..]), s[0].time + 1)
    ensures AsMap(s) == map[s[0].time := s[0].value] + AsMap(s[1..])
  {
    AsMapConcat([s[0]], s[1..]);
    assert [s[0]] + s[1..] == s;
    assert [s[0]][..0] == [];
    AsMapKeysBelow(s[1..], s[0].time + 1);
  }

  lemma OldestFrom(s: seq<Point>, t: int)
    requires StrictlyIncreasing(s) && (s == [] || t < s[0].time)
    ensures KeysFrom(AsMap(s), t + 1)
  {
    hide AsMap;
    AsMapKeysBelow(s, t + 1);
  }

  lemma {:induction false} OverlayBottom(a: Series, l: Series, t: Timestamp, x: Value, y: Value)
    requires t !in a && t !in l
    ensures a + (map[t := y] + l) == map[t := y] + (a + l)
    ensures (map[t := x] + a) + (map[t := y] + l) == map[t := y] + (a + l)
    ensures (map[t := x] + a) + l == map[t := x] + (a + l)
  {
  }

  function WithoutOldestAt(v: seq<Point>, t: int): (r: seq<Point>)
  {
    if v != [] && v[0].time == t then v[1..] else v
  }

  /** The oldest merged point is the oldest late point unless the vector's is older. */
  lemma {:induction false} MergedFirstLate(v: seq<Point>, l: seq<Point>)
    requires StrictlyIncreasing(v) && StrictlyIncreasing(l) && l != []
    requires v == [] || l[0].time <= v[0].time
    ensures Merged(v, l) == [l[0]] + Merged(WithoutOldestAt(v, l[0].time), l[1..])
  {
    hide AsMap;
    var y := l[0];
    var v' := WithoutOldestAt(v, y.time);
    Oldest(l);
    if v' != v { Oldest(v); OverlayBottom(AsMap(v'), AsMap(l[1..]), y.time, v[0].value, y.value); }
    else { OldestFrom(v, y.time); OverlayBottom(AsMap(v), AsMap(l[1..]), y.time, y.value, y.value); }
    PrependBelow(y, Merged(v', l[1..]));
    MergedIs(v, l, [y] + Merged(v', l[1..]));
  }

  lemma MergedFirstVector(v: seq<Point>, l: seq<Point>)
    requires StrictlyIncreasing(v) && StrictlyIncreasing(l) && v != []
    requires l == [] || v[0].time < l[0].time
    ensures Merged(v, l) == [v[0]] + Merged(v[1..], l)
  {
    hide AsMap;
    var x := v[0];
    Oldest(v);
    OldestFrom(l, x.time);
    OverlayBottom(AsMap(v[1..]), AsMap(l), x.time, x.value, x.value);
    PrependBelow(x, Merged(v[1..], l));
    MergedIs(v, l, [x] + Merged(v[1..], l));
  }

  lemma {:induction false} ConcatOrdered(a: seq<Point>, b: seq<Point>, t: int)
    requires StrictlyIncreasing(a) && StrictlyIncreasing(b)
    requires AllBelow(a, t) && AllFrom(b, t)
    ensures StrictlyIncreasing(a + b) && LowerBound(a + b, 0, t) == |a|
  {
    LowerBoundIs(a + b, 0, t, |a|);
  }

  /** Cutting both inputs at one instant cuts the merge at that instant. */
  lemma {:induction false} MergedSplit(v: seq<Point>, i: nat, l: seq<Point>, j: nat, t: int)
    requires StrictlyIncreasing(v) && StrictlyIncreasing(l) && i <= |v| && j <= |l|
    requires AllBelow(v[..i], t) && AllFrom(v[i..], t) && AllBelow(l[..j], t) && AllFrom(l[j..], t)
    ensures Merged(v, l) == Merged(v[..i], l[..j]) + Merged(v[i..], l[j..])
    ensures LowerBound(Merged(v, l), 0, t) == |Merged(v[..i], l[..j])|
  {
    hide AsMap;
    var a, b := Merged(v[..i], l[..j]), Merged(v[i..], l[j..]);
    AsMapKeysBelow(v[..i], t);
    AsMapKeysBelow(l[..j], t);
    AsMapKeysBelow(v[i..], t);
    AsMapKeysBelow(l[j..], t);
    AsMapKeysBelow(a, t);
    AsMapKeysBelow(b, t);
    ConcatOrdered(a, b, t);
    AsMapConcat(a, b);
    SplitMap(v, i);
    SplitMap(l, j);
    Exchange(AsMap(v[..i]), AsMap(v[i..]), AsMap(l[..j]), AsMap(l[j..]), t);
    MergedIs(v, l, a + b);
  }

  lemma {:induction false} SplitMap(s: seq<Point>, i: nat)
    requires i <= |s|
    ensures AsMap(s) == AsMap(s[..i]) + AsMap(s[i..])
  {
    hide AsMap;
    AsMapConcat(s[..i], s[i..]);
    assert s[..i] + s[i..] == s;
  }

  lemma {:induction false} Exchange(v1: Series, v2: Series,
                 l1: Series, l2: Series, t: int)
    requires KeysBelow(v1, t) && KeysBelow(l1, t) && KeysFrom(v2, t) && KeysFrom(l2, t)
    ensures (v1 + v2) + (l1 + l2) == (v1 + l1) + (v2 + l2)
  {
  }

  lemma {:induction false} LowerBoundSplits(s: seq<Point>, t: int)
    requires StrictlyIncreasing(s)
    ensures AllBelow(s[..LowerBound(s, 0, t)], t) && AllFrom(s[LowerBound(s, 0, t)..], t)
  {
  }
}
