/** Filling empty buckets from the known ones around them. */
module GapFill {
  import opened Timeline
  import opened BucketAggregation

  datatype FillMethod = Near | Previous | Next | Linear

  type Buckets = seq<Option<Value>>

  function DefaultFillMethod(kind: SeriesKind): FillMethod {
    match kind
    case Continuous => Linear
    case Discrete | Categorical => Previous
    case Unspecified => Near
  }

  /** The last known bucket before `i`. */
  function PreviousKnown(values: Buckets, i: nat): (r: Option<nat>)
    requires i <= |values|
    ensures r.None? ==> forall j :: 0 <= j < i ==> values[j].None?
    ensures r.Some? ==> r.value < i && values[r.value].Some? && forall j :: r.value < j < i ==> values[j].None?
  {
    if i == 0 then None else if values[i - 1].Some? then Some(i - 1) else PreviousKnown(values, i - 1)
  }

  /** The first known bucket at or after `i`. */
  function NextKnown(values: Buckets, i: nat): (r: Option<nat>)
    requires i <= |values|
    ensures r.None? ==> forall j :: i <= j < |values| ==> values[j].None?
    ensures r.Some? ==> i <= r.value < |values| && values[r.value].Some? && forall j :: i <= j < r.value ==> values[j].None?
    decreases |values| - i
  {
    if i == |values| then None else if values[i].Some? then Some(i) else NextKnown(values, i + 1)
  }

  function Nearest(values: Buckets, i: nat): Option<Value>
    requires i < |values|
  {
    var p, n := PreviousKnown(values, i), NextKnown(values, i + 1);
    if p.None? && n.None? then None
    else if p.None? then values[n.value]
    else if n.None? then values[p.value]
    else if i - p.value <= n.value - i then values[p.value] else values[n.value]
  }

  function OnSegment(a: nat, left: real, b: nat, right: real, i: nat): real
    requires a < b && a <= i
  {
    left + (right - left) * ((i - a) as real / (b - a) as real)
  }

  function FilledAt(values: Buckets, i: nat, how: FillMethod): Option<Value>
    requires i < |values|
  {
    if values[i].Some? then values[i]
    else
      var p, n := PreviousKnown(values, i), NextKnown(values, i + 1);
      match how
      case Near => Nearest(values, i)
      case Previous => if p.Some? then values[p.value] else None
      case Next => if n.Some? then values[n.value] else None
      case Linear =>
        if p.None? || n.None? then Nearest(values, i)
        else if values[p.value].value.Number? && values[n.value].value.Number? then
          Some(Number(OnSegment(p.value, values[p.value].value.amount, n.value, values[n.value].value.amount, i)))
        else None
  }

  /** Only a linear gap between two buckets that are not both numbers cannot be filled. */
  ghost predicate Fillable(values: Buckets, how: FillMethod) {
    how == Linear ==> forall i :: 0 <= i < |values| && values[i].None? ==> Bridgeable(values, i)
  }

  predicate Bridgeable(values: Buckets, i: nat)
    requires i < |values|
  {
    var p, n := PreviousKnown(values, i), NextKnown(values, i + 1);
    p.None? || n.None? || (values[p.value].value.Number? && values[n.value].value.Number?)
  }

  function Fill(values: Buckets, how: FillMethod): (r: Buckets)
    ensures |r| == |values| && forall i :: 0 <= i < |values| ==> r[i] == FilledAt(values, i, how)
  {
    seq(|values|, i requires 0 <= i < |values| => FilledAt(values, i, how))
  }

  // ----- the loops -----

  method NearestValueIndices(values: Buckets) returns (previous: seq<Option<nat>>, next: seq<Option<nat>>)
    ensures |previous| == |next| == |values|
    ensures forall i :: 0 <= i < |values| ==> previous[i] == PreviousKnown(values, i) && next[i] == NextKnown(values, i + 1)
  {
    hide PreviousKnown, NextKnown;
    previous, next := seq(|values|, i => None), seq(|values|, i => None);
    var last: Option<nat> := None;
    NothingAround(values);
    for index := 0 to |values|
      invariant |previous| == |values| && last == PreviousKnown(values, index)
      invariant forall i :: 0 <= i < index ==> previous[i] == PreviousKnown(values, i)
    {
      PreviousStep(values, index);
      previous := previous[index := last];
      if values[index].Some? { last := Some(index); }
    }
    last := None;
    for index := |values| downto 0
      invariant |next| == |values| && last == NextKnown(values, index)
      invariant forall i :: index <= i < |values| ==> next[i] == NextKnown(values, i + 1)
    {
      NextStep(values, index);
      next := next[index := last];
      if values[index].Some? { last := Some(index); }
    }
  }

  lemma NothingAround(values: Buckets)
    ensures PreviousKnown(values, 0) == None && NextKnown(values, |values|) == None
  {
  }

  lemma PreviousStep(values: Buckets, i: nat)
    requires i < |values|
    ensures PreviousKnown(values, i + 1) == if values[i].Some? then Some(i) else PreviousKnown(values, i)
  {
  }

  lemma NextStep(values: Buckets, i: nat)
    requires i < |values|
    ensures NextKnown(values, i) == if values[i].Some? then Some(i) else NextKnown(values, i + 1)
  {
  }

  method FillNearAt(source: Buckets, values: array<Option<Value>>, index: nat,
                    previous: seq<Option<nat>>, next: seq<Option<nat>>)
    requires index < |source| == values.Length == |previous| == |next| && values[index] == source[index] == None
    requires previous[index] == PreviousKnown(source, index) && next[index] == NextKnown(source, index + 1)
    modifies values
    ensures values[..] == old(values[..])[index := Nearest(source, index)]
  {
    var p, n := previous[index], next[index];
    if p.None? && n.None? { return; }
    if p.None? { values[index] := source[n.value]; return; }
    if n.None? { values[index] := source[p.value]; return; }
    values[index] := if index - p.value <= n.value - index then source[p.value] else source[n.value];
  }

  ghost predicate FilledOn(values: seq<Option<Value>>, source: Buckets, how: FillMethod, from: int, to: int)
    requires |values| == |source|
  {
    forall i :: 0 <= i < |source| && from <= i < to ==> values[i] == FilledAt(source, i, how)
  }

  ghost predicate SameOn(values: seq<Option<Value>>, source: Buckets, from: int, to: int)
    requires |values| == |source|
  {
    forall i :: 0 <= i < |source| && from <= i < to ==> values[i] == source[i]
  }

  /** Before the first and after the last known bucket a linear fill is a near fill. */
  lemma EdgeFill(values: Buckets, first: nat, last: nat, i: nat)
    requires first <= last < |values| && i < |values|
    requires NextKnown(values, 0) == Some(first) && PreviousKnown(values, |values|) == Some(last)
    requires i < first || last < i
    ensures values[i].None? && Bridgeable(values, i)
    ensures FilledAt(values, i, Linear) == Nearest(values, i) && Nearest(values, i).Some?
  {
  }

  lemma NothingKnown(values: Buckets)
    requires NextKnown(values, 0).None?
    ensures Fillable(values, Linear) && Fill(values, Linear) == values
  {
    forall i | 0 <= i < |values| ensures FilledAt(values, i, Linear).None? && Bridgeable(values, i) {}
  }

  method FillEdges(values: array<Option<Value>>, first: nat, last: nat)
    requires first <= last < values.Length
    requires NextKnown(values[..], 0) == Some(first) && PreviousKnown(values[..], values.Length) == Some(last)
    modifies values
    ensures FilledOn(values[..], old(values[..]), Linear, 0, first) && SameOn(values[..], old(values[..]), first, last + 1)
    ensures FilledOn(values[..], old(values[..]), Linear, last + 1, values.Length)
  {
    hide Nearest, OnSegment, FilledAt, PreviousKnown, NextKnown, Bridgeable;
    var original := values[..];
    var n := values.Length;
    var previous, next := NearestValueIndices(original);
    for index := 0 to first
      invariant FilledOn(values[..], original, Linear, 0, index) && SameOn(values[..], original, index, n)
    {
      EdgeFill(original, first, last, index);
      FillNearAt(original, values, index, previous, next);
    }
    for index := last + 1 to n
      invariant FilledOn(values[..], original, Linear, 0, first) && SameOn(values[..], original, first, last + 1)
      invariant FilledOn(values[..], original, Linear, last + 1, index) && SameOn(values[..], original, index, n)
    {
      EdgeFill(original, first, last, index);
      FillNearAt(original, values, index, previous, next);
    }
  }

  /** Linear fill: nearest values outside the outermost known buckets, segments between. */
  method FillLinear(values: array<Option<Value>>) returns (ok: bool)
    modifies values
    ensures ok <==> Fillable(old(values[..]), Linear)
    ensures ok ==> values[..] == Fill(old(values[..]), Linear)
  {
    hide Nearest, OnSegment, FilledAt, PreviousKnown, NextKnown, Bridgeable;
    var original := values[..];
    var n := values.Length;
    if NextKnown(original, 0).None? {
      NothingKnown(original);
      return true;
    }
    var first, last := NextKnown(original, 0).value, PreviousKnown(original, n).value;
    FillEdges(values, first, last);
    var index := first;
    EdgesBridgeable(original, first, last);
    KnownIsFilled(original);
    while index < n
      invariant first <= index <= n
      invariant index <= last && original[index].None? ==> first < index && original[index - 1].Some?
      invariant forall i :: 0 <= i < index && original[i].None? ==> Bridgeable(original, i)
      invariant FilledOn(values[..], original, Linear, 0, index)
      invariant SameOn(values[..], original, index, last + 1) && FilledOn(values[..], original, Linear, last + 1, n)
    {
      if values[index].Some? {
        index := index + 1;
        continue;
      }
      assert values[..][index] == original[index];
      var left := index - 1;
      var right := NextKnown(original, index).value;
      assert values[..][left] == original[left] && values[..][right] == original[right];
      GapEnds(original, left, right, index);
      if !values[left].value.Number? || !values[right].value.Number? {
        NotBridgeable(original, left, right, index);
        return false;
      }
      assert forall i :: left < i < right ==> values[..][i] == original[i];
      FillSegment(values, original, left, right);
      index := right;
    }
    ok := true;
  }

  lemma EdgesBridgeable(values: Buckets, first: nat, last: nat)
    requires first <= last < |values|
    requires NextKnown(values, 0) == Some(first) && PreviousKnown(values, |values|) == Some(last)
    ensures forall i :: 0 <= i < |values| && (i < first || last < i) ==> Bridgeable(values, i) && FilledAt(values, i, Linear).Some?
  {
    hide Nearest, OnSegment, FilledAt, PreviousKnown, NextKnown, Bridgeable;
    forall i | 0 <= i < |values| && (i < first || last < i) ensures Bridgeable(values, i) && FilledAt(values, i, Linear).Some? {
      EdgeFill(values, first, last, i);
    }
  }

  lemma KnownIsFilled(values: Buckets)
    ensures forall i :: 0 <= i < |values| && values[i].Some? ==> FilledAt(values, i, Linear) == values[i]
  {
  }

  lemma NotBridgeable(values: Buckets, left: nat, right: nat, i: nat)
    requires left < i < right < |values| && values[left].Some? && values[right].Some?
    requires PreviousKnown(values, i) == Some(left) && NextKnown(values, i + 1) == Some(right)
    requires !values[left].value.Number? || !values[right].value.Number?
    ensures !Bridgeable(values, i)
  {
  }

  /** One gap between two known numbers. */
  method FillSegment(values: array<Option<Value>>, ghost original: Buckets, left: nat, right: nat)
    requires left < right < values.Length == |original|
    requires values[left] == original[left] && values[right] == original[right]
    requires values[left].Some? && values[left].value.Number? && values[right].Some? && values[right].value.Number?
    requires forall i :: left < i < right ==> original[i].None? && values[i].None?
    modifies values
    ensures FilledOn(values[..], original, Linear, left + 1, right)
    ensures forall i :: left < i < right ==> Bridgeable(original, i)
    ensures forall i :: 0 <= i < values.Length && !(left < i < right) ==> values[i] == old(values[i])
  {
    hide OnSegment;
    forall i | left < i < right
      ensures PreviousKnown(original, i) == Some(left) && NextKnown(original, i + 1) == Some(right)
    {
      GapEnds(original, left, right, i);
    }
    var leftValue, rightValue := values[left].value.amount, values[right].value.amount;
    for current := left + 1 to right
      invariant FilledOn(values[..], original, Linear, left + 1, current)
      invariant forall i :: 0 <= i < values.Length && !(left < i < current) ==> values[i] == old(values[i])
    {
      values[current] := Some(Number(OnSegment(left, leftValue, right, rightValue, current)));
    }
  }

  lemma GapEnds(values: Buckets, left: nat, right: nat, i: nat)
    requires left < i < right < |values| && values[left].Some? && values[right].Some?
    requires forall j :: left < j < right ==> values[j].None?
    ensures PreviousKnown(values, i) == Some(left) && NextKnown(values, i + 1) == Some(right)
  {
  }

  lemma {:induction false} WholeFill(values: seq<Option<Value>>, original: Buckets, how: FillMethod)
    requires |values| == |original| && FilledOn(values, original, how, 0, |original|)
    ensures values == Fill(original, how)
  {
    hide FilledAt;
  }

  method FillNear(values: array<Option<Value>>)
    modifies values
    ensures values[..] == Fill(old(values[..]), Near)
  {
    hide Nearest, Fill, PreviousKnown, NextKnown;
    var original := values[..];
    var previous, next := NearestValueIndices(original);
    for index := 0 to values.Length
      invariant FilledOn(values[..], original, Near, 0, index) && SameOn(values[..], original, index, values.Length)
    {
      if values[index].None? { FillNearAt(original, values, index, previous, next); }
    }
    WholeFill(values[..], original, Near);
  }

  /** The value of the last known bucket before `i`. */
  function CarriedTo(values: Buckets, i: nat): Option<Value>
    requires i <= |values|
  {
    if PreviousKnown(values, i).Some? then values[PreviousKnown(values, i).value] else None
  }

  lemma NothingCarried(values: Buckets)
    ensures CarriedTo(values, 0) == None && CarriedBack(values, |values|) == None
  {
  }

  lemma CarriedStep(values: Buckets, i: nat)
    requires i < |values|
    ensures CarriedTo(values, i + 1) == if values[i].Some? then values[i] else CarriedTo(values, i)
    ensures FilledAt(values, i, Previous) == if values[i].Some? then values[i] else CarriedTo(values, i)
  {
  }

  method FillPrevious(values: array<Option<Value>>)
    modifies values
    ensures values[..] == Fill(old(values[..]), Previous)
  {
    hide FilledAt, Fill, CarriedTo;
    var original := values[..];
    var previous: Option<Value> := None;
    NothingCarried(original);
    for index := 0 to values.Length
      invariant previous == CarriedTo(original, index)
      invariant FilledOn(values[..], original, Previous, 0, index) && SameOn(values[..], original, index, values.Length)
    {
      CarriedStep(original, index);
      if values[index].Some? { previous := values[index]; } else if previous.Some? { values[index] := previous; }
    }
    WholeFill(values[..], original, Previous);
  }

  /** The value of the next known bucket from `i` on. */
  function CarriedBack(values: Buckets, i: nat): Option<Value>
    requires i <= |values|
  {
    if NextKnown(values, i).Some? then values[NextKnown(values, i).value] else None
  }

  lemma CarriedBackStep(values: Buckets, i: nat)
    requires i < |values|
    ensures CarriedBack(values, i) == if values[i].Some? then values[i] else CarriedBack(values, i + 1)
    ensures FilledAt(values, i, Next) == if values[i].Some? then values[i] else CarriedBack(values, i + 1)
  {
  }

  method FillNext(values: array<Option<Value>>)
    modifies values
    ensures values[..] == Fill(old(values[..]), Next)
  {
    hide FilledAt, Fill, CarriedBack;
    var original := values[..];
    var next: Option<Value> := None;
    NothingCarried(original);
    for index := values.Length downto 0
      invariant next == CarriedBack(original, index)
      invariant SameOn(values[..], original, 0, index) && FilledOn(values[..], original, Next, index, values.Length)
    {
      CarriedBackStep(original, index);
      if values[index].Some? { next := values[index]; } else if next.Some? { values[index] := next; }
    }
    WholeFill(values[..], original, Next);
  }

  method FillValues(values: array<Option<Value>>, how: FillMethod) returns (ok: bool)
    modifies values
    ensures ok <==> Fillable(old(values[..]), how)
    ensures ok ==> values[..] == Fill(old(values[..]), how)
  {
    hide Fill;
    ok := true;
    match how {
      case Near => FillNear(values);
      case Previous => FillPrevious(values);
      case Next => FillNext(values);
      case Linear => ok := FillLinear(values);
    }
  }

  // ----- what a fill means -----

  ghost predicate NoneKnown(values: Buckets, from: int, to: int) {
    forall i :: 0 <= i < |values| && from <= i < to ==> values[i].None?
  }

  /** Exactly what stays missing after a fill. */
  lemma WhatStaysMissing(values: Buckets, how: FillMethod, i: nat)
    requires Fillable(values, how) && i < |values|
    ensures Fill(values, how)[i].None? <==>
            match how
            case Near | Linear => NoneKnown(values, 0, |values|)
            case Previous => NoneKnown(values, 0, i + 1)
            case Next => NoneKnown(values, i, |values|)
  {
    assert Fill(values, how)[i] == FilledAt(values, i, how);
    if values[i].None? {
      MissingSides(values, i);
      hide NoneKnown, PreviousKnown, NextKnown, OnSegment;
      if how == Linear { assert Bridgeable(values, i); }
    }
  }

  /** Nothing is known on a side exactly when the search on that side finds nothing. */
  lemma MissingSides(values: Buckets, i: nat)
    requires i < |values| && values[i].None?
    ensures PreviousKnown(values, i).None? <==> NoneKnown(values, 0, i + 1)
    ensures NextKnown(values, i + 1).None? <==> NoneKnown(values, i, |values|)
    ensures PreviousKnown(values, i).None? && NextKnown(values, i + 1).None? <==> NoneKnown(values, 0, |values|)
    ensures PreviousKnown(values, i).Some? ==> values[PreviousKnown(values, i).value].Some?
    ensures NextKnown(values, i + 1).Some? ==> values[NextKnown(values, i + 1).value].Some?
  {
  }

  function Gap(a: nat, b: nat): nat { if a <= b then b - a else a - b }

  /** A near fill takes the closest known bucket, the left one of two equally close. */
  lemma NearIsClosest(values: Buckets, i: nat) returns (k: nat)
    requires i < |values| && !NoneKnown(values, 0, |values|)
    ensures k < |values| && values[k].Some? && Fill(values, Near)[i] == values[k]
    ensures forall j: nat :: j < |values| && values[j].Some? ==>
                               Gap(i, k) <= Gap(i, j) && (Gap(i, k) == Gap(i, j) ==> k <= j)
  {
    var p, n := PreviousKnown(values, i), NextKnown(values, i + 1);
    if values[i].Some? {
      k := i;
    } else if n.None? {
      k := p.value;
    } else if p.None? {
      k := n.value;
    } else {
      k := if i - p.value <= n.value - i then p.value else n.value;
    }
  }

  /** A previous fill repeats the last known bucket, a next fill the first one ahead. */
  lemma {:induction false} CarriedIsNeighbour(values: Buckets, i: nat, k: nat)
    requires i < |values| && k < |values| && values[k].Some?
    ensures k <= i && (forall j :: k < j <= i ==> values[j].None?) ==> Fill(values, Previous)[i] == values[k]
    ensures i <= k && (forall j :: i <= j < k ==> values[j].None?) ==> Fill(values, Next)[i] == values[k]
  {
    hide PreviousKnown, NextKnown;
    assert Fill(values, Previous)[i] == FilledAt(values, i, Previous) && Fill(values, Next)[i] == FilledAt(values, i, Next);
  }

  /** A linear fill stays on the chord of the two enclosing known buckets. */
  lemma LinearIsOnTheChord(values: Buckets, i: nat)
    requires i < |values| && Fillable(values, Linear) && values[i].None?
    requires PreviousKnown(values, i).Some? && NextKnown(values, i + 1).Some?
    ensures var a, b, r := PreviousKnown(values, i).value, NextKnown(values, i + 1).value, Fill(values, Linear)[i];
            && a < i < b
            && r.Some? && r.value.Number? && values[a].value.Number? && values[b].value.Number?
            && (r.value.amount - values[a].value.amount) * (b - a) as real
               == (values[b].value.amount - values[a].value.amount) * (i - a) as real
  {
    hide Nearest, PreviousKnown, NextKnown;
    assert Bridgeable(values, i);
    var a, b := PreviousKnown(values, i).value, NextKnown(values, i + 1).value;
    hide Fillable;
    ChordArithmetic(values[a].value.amount, values[b].value.amount, (i - a) as real, (b - a) as real);
  }

  lemma ChordArithmetic(left: real, right: real, x: real, d: real)
    requires d > 0.0
    ensures (left + (right - left) * (x / d) - left) * d == (right - left) * x
  {
    assert x / d * d == x;
    assert (right - left) * (x / d) * d == (right - left) * (x / d * d);
  }

  /** Filling again changes nothing, and a fill never touches a known bucket. */
  lemma {:induction false} FillingIsIdempotent(values: Buckets, how: FillMethod)
    requires Fillable(values, how)
    ensures var once := Fill(values, how);
            Fillable(once, how) && Fill(once, how) == once
            && forall i :: 0 <= i < |values| && values[i].Some? ==> once[i] == values[i]
  {
    hide Nearest, Fillable;
    var once := Fill(values, how);
    forall i | 0 <= i < |values| && once[i].None?
      ensures FilledAt(once, i, how).None? && Bridgeable(once, i)
    {
      WhatStaysMissing(values, how, i);
      MissingAround(values, how, i);
      if how == Near || how == Linear { NothingNear(once, i); }
    }
    AllBridgeable(once, how);
  }

  lemma AllBridgeable(values: Buckets, how: FillMethod)
    requires forall i :: 0 <= i < |values| && values[i].None? ==> Bridgeable(values, i)
    ensures Fillable(values, how)
  {
    hide Bridgeable;
  }

  lemma NothingNear(values: Buckets, i: nat)
    requires i < |values| && NoneKnown(values, 0, |values|)
    ensures Nearest(values, i).None? && PreviousKnown(values, i).None? && NextKnown(values, i + 1).None?
  {
  }

  /** A bucket left missing has only missing ones on the side it fills from. */
  lemma MissingAround(values: Buckets, how: FillMethod, i: nat)
    requires Fillable(values, how) && i < |values| && Fill(values, how)[i].None?
    ensures var once := Fill(values, how);
            match how
            case Near | Linear => NoneKnown(once, 0, |values|)
            case Previous => NoneKnown(once, 0, i + 1)
            case Next => NoneKnown(once, i, |values|)
  {
    hide Fillable, FilledAt;
    WhatStaysMissing(values, how, i);
    var once := Fill(values, how);
    forall j | 0 <= j < |values| ensures once[j].None? || (how == Previous && i < j) || (how == Next && j < i) {
      WhatStaysMissing(values, how, j);
    }
  }

  // ----- filling a slice -----

  /** The known buckets a fill of bucket `i` looks at lie inside the slice. */
  ghost predicate LocallyKnown(values: Buckets, lo: nat, hi: nat, i: nat)
    requires lo <= i < hi <= |values|
  {
    values[i].Some?
    || ((PreviousKnown(values, i).Some? ==> lo <= PreviousKnown(values, i).value)
        && (NextKnown(values, i + 1).Some? ==> NextKnown(values, i + 1).value < hi))
  }

  lemma {:induction false} PreviousInSlice(values: Buckets, lo: nat, hi: nat, i: nat)
    requires lo <= i <= hi <= |values|
    ensures var whole := PreviousKnown(values, i);
            PreviousKnown(values[lo..hi], i - lo) == if whole.Some? && lo <= whole.value then Some(whole.value - lo) else None
    decreases i
  {
    if i > lo { PreviousInSlice(values, lo, hi, i - 1); }
  }

  lemma {:induction false} NextInSlice(values: Buckets, lo: nat, hi: nat, i: nat)
    requires lo <= i <= hi <= |values|
    ensures var whole := NextKnown(values, i);
            NextKnown(values[lo..hi], i - lo) == if whole.Some? && whole.value < hi then Some(whole.value - lo) else None
    decreases hi - i
  {
    if i < hi { NextInSlice(values, lo, hi, i + 1); }
  }

  /** Filling a slice gives a bucket the value of the full fill whenever the
      known buckets it depends on are inside the slice. */
  lemma {:induction false} SliceFill(values: Buckets, lo: nat, hi: nat, i: nat, how: FillMethod)
    requires lo <= i < hi <= |values| && LocallyKnown(values, lo, hi, i)
    ensures FilledAt(values[lo..hi], i - lo, how) == FilledAt(values, i, how)
  {
    hide PreviousKnown, NextKnown, OnSegment;
    PreviousInSlice(values, lo, hi, i);
    NextInSlice(values, lo, hi, i + 1);
    ghost var part := values[lo..hi];
    assert part[i - lo] == values[i];
    if values[i].None? {
      var p, n := PreviousKnown(values, i), NextKnown(values, i + 1);
      if p.Some? { assert part[p.value - lo] == values[p.value]; }
      if n.Some? { assert part[n.value - lo] == values[n.value]; }
      SameNeighbours(part, i - lo, values, i, how);
    }
  }

  /** A fill looks at the known buckets on either side and how far away they are, and at nothing else. */
  lemma SameNeighbours(a: Buckets, i: nat, b: Buckets, j: nat, how: FillMethod)
    requires i < |a| && j < |b| && a[i] == b[j] == None
    requires var p, q := PreviousKnown(a, i), PreviousKnown(b, j);
             (p.Some? <==> q.Some?) && (p.Some? ==> a[p.value] == b[q.value] && i - p.value == j - q.value)
    requires var n, m := NextKnown(a, i + 1), NextKnown(b, j + 1);
             (n.Some? <==> m.Some?) && (n.Some? ==> a[n.value] == b[m.value] && n.value - i == m.value - j)
    ensures FilledAt(a, i, how) == FilledAt(b, j, how)
  {
    hide PreviousKnown, NextKnown, OnSegment;
    var p, q, n, m := PreviousKnown(a, i), PreviousKnown(b, j), NextKnown(a, i + 1), NextKnown(b, j + 1);
    if how == Linear && p.Some? && n.Some? { ShiftedSegment(p.value, n.value, i, q.value, m.value, j); }
  }

  lemma ShiftedSegment(a: nat, b: nat, i: nat, c: nat, d: nat, j: nat)
    requires a < i < b && c < j < d && i - a == j - c && b - i == d - j
    ensures forall left: real, right: real :: OnSegment(a, left, b, right, i) == OnSegment(c, left, d, right, j)
  {
    assert b - a == d - c;
  }

  /** A slice of a fillable row is fillable. */
  lemma {:induction false} SliceFillable(values: Buckets, lo: nat, hi: nat, how: FillMethod)
    requires lo <= hi <= |values| && Fillable(values, how)
    ensures Fillable(values[lo..hi], how)
  {
    hide PreviousKnown, NextKnown;
    if how == Linear {
      forall i | 0 <= i < hi - lo && values[lo..hi][i].None? ensures Bridgeable(values[lo..hi], i) {
        PreviousInSlice(values, lo, hi, lo + i);
        NextInSlice(values, lo, hi, lo + i + 1);
        assert Bridgeable(values, lo + i);
      }
    }
  }
}
