/** Points in time, the ordered vectors that hold them, and the plain
    timestamp-to-value maps those vectors stand for. */
module Timeline {

  datatype Option<+T> = None | Some(value: T)

  /** A reading. Every value that is not a finite number is one tag. */
  datatype Value = Number(amount: real) | NonNumeric

  const TIMESTAMP_MIN: int := -0x8000_0000_0000_0000
  const TIMESTAMP_MAX: int := 0x7fff_ffff_ffff_ffff

  /** A signed 64-bit instant. */
  type Timestamp = t: int | TIMESTAMP_MIN <= t <= TIMESTAMP_MAX witness 0

  /** The plain meaning of one sequence: a value for each instant it holds. */
  type Series = map<Timestamp, Value>

  datatype Point = Point(time: Timestamp, value: Value)

  function Min(a: int, b: int): int { if a <= b then a else b }

  function Max(a: int, b: int): int { if a >= b then a else b }

  ghost predicate StrictlyIncreasing(s: seq<Point>) {
    forall i, j :: 0 <= i < j < |s| ==> s[i].time < s[j].time
  }

  ghost predicate Nondecreasing(s: seq<Point>) {
    forall i, j :: 0 <= i < j < |s| ==> s[i].time <= s[j].time
  }

  /** The map a vector stands for when points are written left to right. */
  ghost function AsMap(s: seq<Point>): Series {
    if s == [] then map[]
    else AsMap(s[..|s| - 1])[s[|s| - 1].time := s[|s| - 1].value]
  }

  lemma AsMapNil(s: seq<Point>)
    requires s == []
    ensures AsMap(s) == map[]
  {
  }

  ghost function DropBelow(m: Series, start: int): Series {
    map t | t in m && start <= t :: m[t]
  }

  ghost function EraseRange(m: Series, first: int, last: int): Series {
    map t | t in m && !(first <= t <= last) :: m[t]
  }

  /** First index at or after `from` whose time is not below `t`. */
  function LowerBound(s: seq<Point>, from: nat, t: int): (k: nat)
    requires from <= |s|
    ensures from <= k <= |s|
    ensures forall i :: from <= i < k ==> s[i].time < t
    ensures k < |s| ==> t <= s[k].time
    decreases |s| - from
  {
    if from == |s| || t <= s[from].time then from else LowerBound(s, from + 1, t)
  }

  /** First index at or after `from` whose time is above `t`. */
  function UpperBound(s: seq<Point>, from: nat, t: int): (k: nat)
    requires from <= |s|
    ensures from <= k <= |s|
    ensures forall i :: from <= i < k ==> s[i].time <= t
    ensures k < |s| ==> t < s[k].time
    decreases |s| - from
  {
    if from == |s| || t < s[from].time then from else UpperBound(s, from + 1, t)
  }

  lemma LowerBoundIs(s: seq<Point>, from: nat, t: int, k: nat)
    requires from <= k <= |s|
    requires forall i :: from <= i < k ==> s[i].time < t
    requires k < |s| ==> t <= s[k].time
    ensures LowerBound(s, from, t) == k
  {
  }

  /** Where an increasing vector keeps a timestamp, if it does. */
  ghost predicate Holds(s: seq<Point>, t: int, k: nat) {
    k < |s| && s[k].time == t
  }

  lemma AsMapLast(s: seq<Point>)
    requires s != []
    ensures AsMap(s) == AsMap(s[..|s| - 1])[s[|s| - 1].time := s[|s| - 1].value]
  {
  }

  lemma FrontIncreasing(s: seq<Point>)
    requires StrictlyIncreasing(s) && s != []
    ensures StrictlyIncreasing(s[..|s| - 1]) && forall i :: 0 <= i < |s| - 1 ==> s[i].time < s[|s| - 1].time
  {
  }

  /** On an increasing vector the map holds exactly the vector's points. */
  lemma {:induction false} AsMapAt(s: seq<Point>, t: int)
    requires StrictlyIncreasing(s)
    ensures t in AsMap(s) <==> Holds(s, t, LowerBound(s, 0, t))
    ensures t in AsMap(s) ==> AsMap(s)[t] == s[LowerBound(s, 0, t)].value
    decreases |s|
  {
    if s != [] {
      var front, last := s[..|s| - 1], s[|s| - 1];
      FrontIncreasing(s);
      AsMapAt(front, t);
      AsMapLast(s);
      var k := LowerBound(front, 0, t);
      hide AsMap, LowerBound, StrictlyIncreasing;
      if k < |front| {
        assert front[k] == s[k];
        LowerBoundIs(s, 0, t, k);
      } else if t <= last.time {
        LowerBoundIs(s, 0, t, |front|);
      } else {
        LowerBoundIs(s, 0, t, |s|);
      }
    }
  }

  lemma AsMapOfPoint(s: seq<Point>, k: nat)
    requires StrictlyIncreasing(s) && k < |s|
    ensures s[k].time in AsMap(s) && AsMap(s)[s[k].time] == s[k].value
  {
    hide AsMap;
    LowerBoundIs(s, 0, s[k].time, k);
    AsMapAt(s, s[k].time);
  }

  lemma {:induction false} AsMapConcat(a: seq<Point>, b: seq<Point>)
    ensures AsMap(a + b) == AsMap(a) + AsMap(b)
  {
    if b == [] {
      assert a + b == a;
    } else {
      var front := b[..|b| - 1];
      AsMapConcat(a, front);
      assert (a + b)[..|a + b| - 1] == a + front;
      assert (a + b)[|a + b| - 1] == b[|b| - 1];
    }
  }

  /** Two strictly increasing vectors with one map are the same vector. */
  lemma {:induction false} AsMapInjective(a: seq<Point>, b: seq<Point>)
    requires StrictlyIncreasing(a) && StrictlyIncreasing(b)
    requires AsMap(a) == AsMap(b)
    ensures a == b
  {
    hide AsMap;
    AsMapNil([]);
    if a == [] {
      if b != [] { AsMapOfPoint(b, 0); }
    } else if b == [] {
      AsMapOfPoint(a, 0);
    } else {
      var x, y := a[|a| - 1], b[|b| - 1];
      AsMapOfPoint(a, |a| - 1);
      AsMapOfPoint(b, |b| - 1);
      AsMapAt(a, y.time);
      AsMapAt(b, x.time);
      AsMapWithoutLast(a);
      AsMapWithoutLast(b);
      AsMapInjective(a[..|a| - 1], b[..|b| - 1]);
      assert a == a[..|a| - 1] + [x] && b == b[..|b| - 1] + [y];
    }
  }

  lemma {:induction false} AsMapWithoutLast(s: seq<Point>)
    requires StrictlyIncreasing(s) && s != []
    ensures AsMap(s[..|s| - 1]) == AsMap(s) - {s[|s| - 1].time}
  {
    AsMapAt(s[..|s| - 1], s[|s| - 1].time);
  }

  /** The unique strictly increasing listing of a map. */
  ghost function InOrder(m: Series): (s: seq<Point>)
    ensures StrictlyIncreasing(s) && AsMap(s) == m
    decreases |m|
  {
    if m == map[] then []
    else
      var t := LargestKey(m);
      var rest := m - {t};
      assert |rest| < |m| by { assert rest.Keys == m.Keys - {t}; }
      var front := InOrder(rest);
      InOrderStep(m, t, front);
      front + [Point(t, m[t])]
  }

  lemma {:induction false} InOrderStep(m: Series, t: Timestamp, front: seq<Point>)
    requires t in m && forall u :: u in m ==> u <= t
    requires StrictlyIncreasing(front) && AsMap(front) == m - {t}
    ensures var s := front + [Point(t, m[t])]; StrictlyIncreasing(s) && AsMap(s) == m
  {
    var s := front + [Point(t, m[t])];
    forall i | 0 <= i < |front| ensures front[i].time < t { AsMapOfPoint(front, i); }
    assert s[..|s| - 1] == front;
    assert m == (m - {t})[t := m[t]];
  }

  ghost function Pick<T>(s: set<T>): (x: T)
    requires s != {}
    ensures x in s
  {
    var x :| x in s;
    x
  }

  ghost function LargestKey(m: Series): (t: Timestamp)
    requires m != map[]
    ensures t in m && forall u :: u in m ==> u <= t
  {
    LargestExists(m.Keys);
    var t :| t in m.Keys && forall u :: u in m.Keys ==> u <= t;
    t
  }

  /** The greatest instant a map holds, if it holds any. */
  ghost function LastTime(m: Series): Option<Timestamp> {
    if m == map[] then None else Some(LargestKey(m))
  }

  lemma LastTimeIs(m: Series, t: Timestamp)
    requires t in m && forall u :: u in m ==> u <= t
    ensures LastTime(m) == Some(t)
  {
  }

  /** An increasing vector ends at the greatest instant of its map. */
  lemma LastTimeOf(s: seq<Point>)
    requires StrictlyIncreasing(s)
    ensures LastTime(AsMap(s)) == if s == [] then None else Some(s[|s| - 1].time)
  {
    hide AsMap, LowerBound;
    AsMapNil([]);
    if s != [] {
      AsMapOfPoint(s, |s| - 1);
      forall u | u in AsMap(s) ensures u <= s[|s| - 1].time { AsMapAt(s, u); }
      LastTimeIs(AsMap(s), s[|s| - 1].time);
    }
  }

  /** An increasing vector has one point for each instant of its map. */
  lemma {:induction false} SizeOfMap(s: seq<Point>)
    requires StrictlyIncreasing(s)
    ensures |AsMap(s)| == |s|
    decreases |s|
  {
    if s != [] {
      FrontIncreasing(s);
      SizeOfMap(s[..|s| - 1]);
      AsMapWithoutLast(s);
      AsMapOfPoint(s, |s| - 1);
      hide AsMap;
      var m, t := AsMap(s), s[|s| - 1].time;
      assert (m - {t}).Keys == m.Keys - {t};
      assert |m - {t}| == |(m - {t}).Keys| && |m| == |m.Keys|;
    }
  }

  /** The later of two instants, either of which may be missing. */
  function Later(a: Option<Timestamp>, b: Option<Timestamp>): Option<Timestamp> {
    if a.None? then b else if b.None? || b.value <= a.value then a else b
  }

  lemma {:induction false} LargestExists(keys: set<Timestamp>)
    requires keys != {}
    ensures exists t :: t in keys && forall u :: u in keys ==> u <= t
    decreases |keys|
  {
    var x := Pick(keys);
    var rest := keys - {x};
    if rest == {} {
      assert keys == {x};
    } else {
      LargestExists(rest);
      var y :| y in rest && forall u :: u in rest ==> u <= y;
      forall u | u in keys ensures u <= Max(x, y) { assert u == x || u in rest; }
      assert Max(x, y) in keys;
    }
  }

  lemma {:induction false} InOrderOfAsMap(s: seq<Point>)
    requires StrictlyIncreasing(s)
    ensures InOrder(AsMap(s)) == s
  {
    hide AsMap;
    AsMapInjective(s, InOrder(AsMap(s)));
  }

  /** Cutting an increasing vector at a lower bound drops the keys below it. */
  lemma SuffixIsDropBelow(s: seq<Point>, start: int)
    requires StrictlyIncreasing(s)
    ensures AsMap(s[LowerBound(s, 0, start)..]) == DropBelow(AsMap(s), start)
  {
    hide AsMap;
    var k := LowerBound(s, 0, start);
    var rest := s[k..];
    var kept := DropBelow(AsMap(s), start);
    forall t
      ensures t in AsMap(rest) <==> t in kept
      ensures t in AsMap(rest) ==> AsMap(rest)[t] == kept[t]
    {
      SuffixAt(s, start, t);
    }
    assert AsMap(rest) == kept;
  }

  lemma DropIncreasing(s: seq<Point>, k: nat)
    requires StrictlyIncreasing(s) && k <= |s|
    ensures StrictlyIncreasing(s[k..])
  {
  }

  lemma {:induction false} SuffixAt(s: seq<Point>, start: int, t: int)
    requires StrictlyIncreasing(s)
    ensures var rest := AsMap(s[LowerBound(s, 0, start)..]);
            (t in rest <==> t in AsMap(s) && start <= t) && (t in rest ==> rest[t] == AsMap(s)[t])
  {
    var k := LowerBound(s, 0, start);
    DropIncreasing(s, k);
    AsMapAt(s, t);
    AsMapAt(s[k..], t);
    SuffixPlace(s, k, t);
    AtOrAfterBound(s, start, t);
    hide AsMap, LowerBound, StrictlyIncreasing;
  }

  /** A point at `t` is at or after the lower bound of `start` exactly when `t` is. */
  lemma AtOrAfterBound(s: seq<Point>, start: int, t: int)
    requires StrictlyIncreasing(s)
    ensures var i := LowerBound(s, 0, t);
            i < |s| && s[i].time == t ==> (LowerBound(s, 0, start) <= i <==> start <= t)
  {
  }

  lemma LowerBoundMonotone(s: seq<Point>, t: int, u: int)
    requires t <= u
    ensures LowerBound(s, 0, t) <= LowerBound(s, 0, u)
  {
  }

  lemma SuffixPlace(s: seq<Point>, k: nat, t: int)
    requires StrictlyIncreasing(s) && k <= |s|
    ensures LowerBound(s[k..], 0, t) == Max(LowerBound(s, 0, t) - k, 0)
  {
    var j := LowerBound(s, 0, t);
    LowerBoundIs(s[k..], 0, t, Max(j - k, 0));
  }

  /** Insert or assign in an ordered map kept as an increasing vector. */
  function Put(s: seq<Point>, p: Point): (r: seq<Point>) {
    Splice(s, LowerBound(s, 0, p.time), p)
  }

  /** Write one point at index `k`, over its twin if the twin is there. */
  function Splice(s: seq<Point>, k: nat, p: Point): (r: seq<Point>)
    requires k <= |s|
  {
    if k < |s| && s[k].time == p.time then s[k := p] else s[..k] + [p] + s[k..]
  }

  lemma {:induction false} SpliceMeaning(s: seq<Point>, k: nat, p: Point)
    requires StrictlyIncreasing(s) && k <= |s|
    requires forall i :: 0 <= i < k ==> s[i].time < p.time
    requires k < |s| ==> p.time <= s[k].time
    ensures StrictlyIncreasing(Splice(s, k, p))
    ensures AsMap(Splice(s, k, p)) == AsMap(s)[p.time := p.value]
  {
    hide AsMap;
    var r := Splice(s, k, p);
    SpliceIncreasing(s, k, p);
    forall t
      ensures t in AsMap(r) <==> t in AsMap(s)[p.time := p.value]
      ensures t in AsMap(r) ==> AsMap(r)[t] == AsMap(s)[p.time := p.value][t]
    {
      SplicePlace(s, k, p, t);
      AsMapAt(s, t);
      AsMapAt(r, t);
    }
    assert AsMap(r) == AsMap(s)[p.time := p.value];
  }

  lemma SpliceIncreasing(s: seq<Point>, k: nat, p: Point)
    requires StrictlyIncreasing(s) && k <= |s|
    requires forall i :: 0 <= i < k ==> s[i].time < p.time
    requires k < |s| ==> p.time <= s[k].time
    ensures StrictlyIncreasing(Splice(s, k, p))
  {
    var r := Splice(s, k, p);
    forall i, j | 0 <= i < j < |r| ensures r[i].time < r[j].time {
      if |r| > |s| {
        assert r[i] == if i < k then s[i] else if i == k then p else s[i - 1];
        assert r[j] == if j < k then s[j] else if j == k then p else s[j - 1];
      }
    }
  }

  lemma SplicePlace(s: seq<Point>, k: nat, p: Point, t: int)
    requires StrictlyIncreasing(s) && k <= |s|
    requires forall i :: 0 <= i < k ==> s[i].time < p.time
    requires k < |s| ==> p.time <= s[k].time
    ensures var r, j := Splice(s, k, p), LowerBound(s, 0, t);
            LowerBound(r, 0, t) == if |r| == |s| || t <= p.time then j else j + 1
  {
    var r, j := Splice(s, k, p), LowerBound(s, 0, t);
    if |r| == |s| {
      LowerBoundIs(r, 0, t, j);
    } else if t <= p.time {
      assert j <= k;
      assert forall i :: 0 <= i < k ==> r[i] == s[i];
      LowerBoundIs(r, 0, t, j);
    } else {
      assert k <= j;
      assert forall i :: k < i < |r| ==> r[i] == s[i - 1];
      LowerBoundIs(r, 0, t, j + 1);
    }
  }
}
