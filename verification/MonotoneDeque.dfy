/** Sliding-window statistics: the monotone deques of running extremes and the
    from-scratch fold they have to agree with. */
module MonotoneDeque {
  import opened Timeline

  datatype Sample = Sample(time: Timestamp, amount: real)

  datatype Extreme = Lowest | Highest

  predicate Beats(kind: Extreme, a: real, b: real) {
    if kind.Lowest? then a < b else a > b
  }

  /** The points that strictly beat every later numeric point, oldest first. */
  ghost function SuffixExtremes(kind: Extreme, s: seq<Point>): (d: seq<Sample>) {
    if s == [] then []
    else
      var rest := SuffixExtremes(kind, s[1..]);
      if s[0].value.Number? && (rest == [] || Beats(kind, s[0].value.amount, rest[0].amount))
      then [Sample(s[0].time, s[0].value.amount)] + rest
      else rest
  }

  /** What is left after the back of a deque gives way to a new amount. */
  function PopBack(kind: Extreme, d: seq<Sample>, v: real): (r: seq<Sample>)
    ensures r <= d
    ensures r != [] ==> Beats(kind, r[|r| - 1].amount, v)
    ensures r == [] && d != [] ==> !Beats(kind, d[0].amount, v)
  {
    if d != [] && !Beats(kind, d[|d| - 1].amount, v) then
      PopBack(kind, d[..|d| - 1], v)
    else d
  }

  lemma {:induction false} PopBackUnderFront(kind: Extreme, x: Sample, d: seq<Sample>, v: real)
    ensures PopBack(kind, [x] + d, v) ==
            if PopBack(kind, d, v) == [] && !Beats(kind, x.amount, v) then [] else [x] + PopBack(kind, d, v)
    decreases |d|
  {
    var w := [x] + d;
    if d != [] {
      assert w[..|w| - 1] == [x] + d[..|d| - 1];
      assert w[|w| - 1] == d[|d| - 1];
      if !Beats(kind, d[|d| - 1].amount, v) {
        PopBackUnderFront(kind, x, d[..|d| - 1], v);
      }
    } else {
      assert w[..0] == [];
    }
  }

  /** Appending a point is popping the beaten back and pushing the new amount. */
  lemma {:induction false} SuffixExtremesAppend(kind: Extreme, s: seq<Point>, p: Point)
    ensures SuffixExtremes(kind, s + [p]) ==
            if p.value.Number?
            then PopBack(kind, SuffixExtremes(kind, s), p.value.amount) + [Sample(p.time, p.value.amount)]
            else SuffixExtremes(kind, s)
    decreases |s|
  {
    hide SuffixExtremes, PopBack, Beats;
    if s == [] {
      SuffixExtremesCons(kind, p, []);
      NoExtremes(kind, p.value);
      assert [] + [p] == [p] + [];
    } else {
      var x, rest := s[0], s[1..];
      SuffixExtremesAppend(kind, rest, p);
      assert s == [x] + rest && s + [p] == [x] + (rest + [p]);
      SuffixExtremesCons(kind, x, rest);
      SuffixExtremesCons(kind, x, rest + [p]);
      if p.value.Number? && x.value.Number? { PushUnderFront(kind, Sample(x.time, x.value.amount), SuffixExtremes(kind, rest), Sample(p.time, p.value.amount)); }
    }
  }

  lemma SuffixExtremesCons(kind: Extreme, x: Point, rest: seq<Point>)
    ensures SuffixExtremes(kind, [x] + rest) == Fronted(kind, x, SuffixExtremes(kind, rest))
  {
    assert ([x] + rest)[1..] == rest;
  }

  /** A deque with an older point put before it. */
  ghost function Fronted(kind: Extreme, x: Point, d: seq<Sample>): seq<Sample> {
    if x.value.Number? && (d == [] || Beats(kind, x.value.amount, d[0].amount)) then [Sample(x.time, x.value.amount)] + d else d
  }

  lemma NoExtremes(kind: Extreme, v: Value)
    ensures SuffixExtremes(kind, []) == []
    ensures v.Number? ==> PopBack(kind, [], v.amount) == []
  {
  }

  /** Pushing at the back and putting an older point before the front commute. */
  lemma {:induction false} PushUnderFront(kind: Extreme, x: Sample, d: seq<Sample>, y: Sample)
    ensures var pushed := PopBack(kind, d, y.amount) + [y];
            var held := if d == [] || Beats(kind, x.amount, d[0].amount) then [x] + d else d;
            PopBack(kind, held, y.amount) + [y] == if Beats(kind, x.amount, pushed[0].amount) then [x] + pushed else pushed
  {
    hide PopBack;
    PopBackUnderFront(kind, x, d, y.amount);
    var popped := PopBack(kind, d, y.amount);
    assert popped != [] ==> popped[0] == d[0];
    assert [x] + popped + [y] == [x] + (popped + [y]);
    if d == [] { NoExtremes(kind, Number(y.amount)); }
  }

  lemma {:induction false} SuffixExtremesTimes(kind: Extreme, s: seq<Point>)
    requires StrictlyIncreasing(s)
    ensures SuffixExtremes(kind, s) != [] ==> s != [] && s[0].time <= SuffixExtremes(kind, s)[0].time
    decreases |s|
  {
    if s != [] { SuffixExtremesTimes(kind, s[1..]); }
  }

  /** Dropping the oldest point pops the front exactly when it is that point. */
  lemma {:induction false} SuffixExtremesDropFirst(kind: Extreme, s: seq<Point>)
    requires StrictlyIncreasing(s) && s != []
    ensures var d := SuffixExtremes(kind, s);
            SuffixExtremes(kind, s[1..]) ==
            if s[0].value.Number? && d != [] && d[0].time == s[0].time then d[1..] else d
  {
    SuffixExtremesTimes(kind, s[1..]);
  }

  /** Point `i` is numeric and strictly beats every later numeric point. */
  ghost predicate IsSuffixExtreme(kind: Extreme, s: seq<Point>, i: nat) {
    && i < |s|
    && s[i].value.Number?
    && forall j :: i < j < |s| && s[j].value.Number? ==> Beats(kind, s[i].value.amount, s[j].value.amount)
  }

  /** The front of the deque is the extreme of the whole window, attained in it. */
  lemma {:induction false} FrontIsBest(kind: Extreme, s: seq<Point>)
    ensures var d := SuffixExtremes(kind, s);
            && (d == [] <==> forall i :: 0 <= i < |s| ==> s[i].value.NonNumeric?)
            && (d != [] ==> forall i :: 0 <= i < |s| && s[i].value.Number? ==> !Beats(kind, s[i].value.amount, d[0].amount))
    decreases |s|
  {
    if s != [] {
      FrontIsBest(kind, s[1..]);
      forall i | 0 <= i < |s| && s[i].value.Number?
        ensures SuffixExtremes(kind, s) != []
        ensures !Beats(kind, s[i].value.amount, SuffixExtremes(kind, s)[0].amount)
      {
        if i > 0 { assert s[i] == s[1..][i - 1]; }
      }
      if SuffixExtremes(kind, s) == [] {
        forall i | 0 <= i < |s| ensures s[i].value.NonNumeric? {
          if i > 0 { assert s[i] == s[1..][i - 1]; }
        }
      }
    }
  }

  /** The deque holds exactly the strict suffix extremes. */
  lemma {:induction false} SuffixExtremesAre(kind: Extreme, s: seq<Point>, x: Sample)
    ensures x in SuffixExtremes(kind, s) <==>
            exists i: nat :: IsSuffixExtreme(kind, s, i) && x == Sample(s[i].time, s[i].value.amount)
    decreases |s|
  {
    if s != [] {
      var t := s[1..];
      SuffixExtremesAre(kind, t, x);
      FrontIsBest(kind, t);
      var rest := SuffixExtremes(kind, t);
      ShiftExtreme(kind, s);
      if x in rest {
        var i: nat :| IsSuffixExtreme(kind, t, i) && x == Sample(t[i].time, t[i].value.amount);
        assert IsSuffixExtreme(kind, s, i + 1) && x == Sample(s[i + 1].time, s[i + 1].value.amount);
      }
      HeadExtreme(kind, s);
      if i: nat :| IsSuffixExtreme(kind, s, i) && x == Sample(s[i].time, s[i].value.amount) && i > 0 {
        assert IsSuffixExtreme(kind, t, i - 1) && x == Sample(t[i - 1].time, t[i - 1].value.amount);
      }
    }
  }

  lemma ShiftExtreme(kind: Extreme, s: seq<Point>)
    requires s != []
    ensures forall i: nat :: i < |s| - 1 ==> (IsSuffixExtreme(kind, s[1..], i) <==> IsSuffixExtreme(kind, s, i + 1))
  {
    forall i: nat | i < |s| - 1 ensures IsSuffixExtreme(kind, s[1..], i) <==> IsSuffixExtreme(kind, s, i + 1) {
      assert forall j :: 0 <= j < |s| - 1 ==> s[1..][j] == s[j + 1];
      if IsSuffixExtreme(kind, s[1..], i) {
        forall j | i + 1 < j < |s| && s[j].value.Number?
          ensures Beats(kind, s[i + 1].value.amount, s[j].value.amount)
        {
          assert s[1..][j - 1] == s[j];
        }
      }
    }
  }

  lemma HeadExtreme(kind: Extreme, s: seq<Point>)
    requires s != []
    ensures IsSuffixExtreme(kind, s, 0) <==>
            s[0].value.Number? && (SuffixExtremes(kind, s[1..]) == []
                                   || Beats(kind, s[0].value.amount, SuffixExtremes(kind, s[1..])[0].amount))
  {
    var t := s[1..];
    var d := SuffixExtremes(kind, t);
    FrontIsBest(kind, t);
    assert forall j :: 1 <= j < |s| ==> s[j] == t[j - 1];
    if d != [] { FrontIsAttained(kind, t); }
  }

  lemma {:induction false} FrontIsAttained(kind: Extreme, s: seq<Point>)
    requires SuffixExtremes(kind, s) != []
    ensures exists i :: 0 <= i < |s| && s[i].value == Number(SuffixExtremes(kind, s)[0].amount)
    decreases |s|
  {
    var d := SuffixExtremes(kind, s[1..]);
    if SuffixExtremes(kind, s) == d {
      FrontIsAttained(kind, s[1..]);
      var i :| 0 <= i < |s| - 1 && s[1..][i].value == Number(d[0].amount);
      assert s[i + 1].value == Number(d[0].amount);
    } else {
      assert s[0].value == Number(SuffixExtremes(kind, s)[0].amount);
    }
  }

  ghost function NumericCount(s: seq<Point>): nat {
    if s == [] then 0 else NumericCount(s[..|s| - 1]) + if s[|s| - 1].value.Number? then 1 else 0
  }

  ghost function NumericSum(s: seq<Point>): real {
    if s == [] then 0.0
    else NumericSum(s[..|s| - 1]) + if s[|s| - 1].value.Number? then s[|s| - 1].value.amount else 0.0
  }

  lemma {:induction false} DropFirstTotals(s: seq<Point>)
    requires s != []
    ensures NumericCount(s) == NumericCount(s[1..]) + if s[0].value.Number? then 1 else 0
    ensures NumericSum(s) == NumericSum(s[1..]) + if s[0].value.Number? then s[0].value.amount else 0.0
    ensures NumericCount(s) <= |s|
    decreases |s|
  {
    var front := s[..|s| - 1];
    if front == [] {
      assert s[1..] == [];
    } else {
      DropFirstTotals(front);
      assert front[1..] == s[1..][..|s[1..]| - 1];
      assert s[1..][|s[1..]| - 1] == s[|s| - 1];
    }
  }

  /** Best amount seen by a left-to-right scan, if any point is numeric. */
  ghost function Best(kind: Extreme, s: seq<Point>): Option<real> {
    if s == [] then None
    else
      var b := Best(kind, s[..|s| - 1]);
      var p := s[|s| - 1].value;
      if p.NonNumeric? then b
      else if b.None? || Beats(kind, p.amount, b.value) then Some(p.amount) else b
  }

  lemma {:induction false} FrontIsScanBest(kind: Extreme, s: seq<Point>)
    ensures var d := SuffixExtremes(kind, s);
            Best(kind, s) == if d == [] then None else Some(d[0].amount)
    decreases |s|
  {
    if s != [] {
      var front, p := s[..|s| - 1], s[|s| - 1];
      assert s == front + [p];
      FrontIsScanBest(kind, front);
      SuffixExtremesAppend(kind, front, p);
      FrontIsBest(kind, front);
      if p.value.Number? && PopBack(kind, SuffixExtremes(kind, front), p.value.amount) != [] {
        FrontBeatsPopped(kind, front, p.value.amount);
      }
    }
  }

  ghost predicate Ordered(kind: Extreme, d: seq<Sample>) {
    forall i, j :: 0 <= i < j < |d| ==> Beats(kind, d[i].amount, d[j].amount)
  }

  lemma OrderedCons(kind: Extreme, x: Sample, d: seq<Sample>)
    requires Ordered(kind, d)
    requires d == [] || Beats(kind, x.amount, d[0].amount)
    ensures Ordered(kind, [x] + d)
  {
  }

  /** From front to back each amount strictly beats the next. */
  lemma {:induction false} SuffixExtremesOrdered(kind: Extreme, s: seq<Point>)
    ensures Ordered(kind, SuffixExtremes(kind, s))
    decreases |s|
  {
    if s != [] {
      SuffixExtremesOrdered(kind, s[1..]);
      var rest := SuffixExtremes(kind, s[1..]);
      if s[0].value.Number? && (rest == [] || Beats(kind, s[0].value.amount, rest[0].amount)) {
        OrderedCons(kind, Sample(s[0].time, s[0].value.amount), rest);
      }
    }
  }

  lemma {:induction false} FrontBeatsPopped(kind: Extreme, s: seq<Point>, v: real)
    requires PopBack(kind, SuffixExtremes(kind, s), v) != []
    ensures Beats(kind, SuffixExtremes(kind, s)[0].amount, v)
  {
    SuffixExtremesOrdered(kind, s);
  }
}
