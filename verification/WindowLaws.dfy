/** What the answers of the window service mean to a caller. */
module WindowLaws {
  import opened Timeline
  import opened OrderedMerge
  import opened MonotoneDeque
  import opened SortedUnique
  import opened WindowQueries
  import opened WindowServices

  ghost function Between(m: Series, start: int, end: int): Series {
    map t | t in m && start <= t < end :: m[t]
  }

  /** Without context the rows are exactly the map's entries in [start, end). */
  lemma {:induction false} ExcerptIsRestriction(m: Series, start: int, end: int)
    requires start <= end
    ensures AsMap(Excerpt(InOrder(m), start, end, 0, 0)) == Between(m, start, end)
  {
    hide AsMap, InOrder, Between, LowerBound, StrictlyIncreasing, AllFrom, AllBelow;
    var all := InOrder(m);
    LowerBoundMonotone(all, start, end);
    LowerBoundSplits(all, start);
    LowerBoundSplits(all, end);
    SliceIsBetween(all, LowerBound(all, 0, start), LowerBound(all, 0, end), start, end);
  }

  lemma {:induction false} SliceIsBetween(all: seq<Point>, a: nat, b: nat, start: int, end: int)
    requires StrictlyIncreasing(all) && a <= b <= |all| && start <= end
    requires AllBelow(all[..a], start) && AllFrom(all[a..], start)
    requires AllBelow(all[..b], end) && AllFrom(all[b..], end)
    ensures AsMap(all[a..b]) == Between(AsMap(all), start, end)
  {
    hide AsMap, Between, StrictlyIncreasing, AllFrom, AllBelow, KeysBelow, KeysFrom;
    RowSides(all, a, b, start, end);
    AsMapKeysBelow(all[..a], start);
    AsMapKeysBelow(all[a..b], start);
    AsMapKeysBelow(all[a..b], end);
    AsMapKeysBelow(all[b..], end);
    AsMapConcat(all[..a], all[a..b]);
    AsMapConcat(all[..a] + all[a..b], all[b..]);
    assert all[..a] + all[a..b] + all[b..] == all;
    MiddleIsBetween(AsMap(all[..a]), AsMap(all[a..b]), AsMap(all[b..]), start, end);
  }

  lemma RowSides(all: seq<Point>, a: nat, b: nat, start: int, end: int)
    requires StrictlyIncreasing(all) && a <= b <= |all|
    requires AllFrom(all[a..], start) && AllBelow(all[..b], end)
    ensures StrictlyIncreasing(all[..a]) && StrictlyIncreasing(all[a..b]) && StrictlyIncreasing(all[b..])
    ensures AllFrom(all[a..b], start) && AllBelow(all[a..b], end)
  {
  }

  lemma {:induction false} MiddleIsBetween(a: Series, r: Series, b: Series, start: int, end: int)
    requires KeysBelow(a, start) && KeysFrom(r, start) && KeysBelow(r, end) && KeysFrom(b, end) && start <= end
    ensures r == Between(a + r + b, start, end)
  {
  }

  /** The one instant up to the watermark that the default query leaves out:
      watermark - size, or at the very top of the 64-bit range the watermark itself. */
  function Omitted(watermark: Timestamp, size: int): int {
    if watermark == TIMESTAMP_MAX then watermark else watermark - size
  }

  /** Nothing sits at the omitted instant, and nothing above the watermark. */
  ghost predicate WithinDefaultQuery(m: Series, watermark: Timestamp, size: int) {
    Omitted(watermark, size) !in m && forall t :: t in m ==> t <= watermark
  }

  /** The default query shows all that eviction keeps exactly when no point sits
      at the omitted instant or above the watermark. */
  lemma DefaultQueryOmits(m: Series, watermark: Timestamp, size: int)
    requires 0 < size <= TIMESTAMP_MAX
    requires forall t :: t in m ==> WindowStart(watermark, size) <= t
    ensures LiveStart(watermark, size) <= LiveEnd(watermark)
    ensures Excerpt(InOrder(m), LiveStart(watermark, size), LiveEnd(watermark), 0, 0) == InOrder(m)
            <==> WithinDefaultQuery(m, watermark, size)
  {
    hide AsMap, InOrder, Excerpt;
    var start, end := LiveStart(watermark, size), LiveEnd(watermark);
    ExcerptIsRestriction(m, start, end);
    ExcerptIncreasing(InOrder(m), start, end, 0, 0);
    if WithinDefaultQuery(m, watermark, size) {
      assert Between(m, start, end) == m;
      AsMapInjective(InOrder(m), Excerpt(InOrder(m), start, end, 0, 0));
    } else if Omitted(watermark, size) in m {
      assert Omitted(watermark, size) !in Between(m, start, end);
    } else {
      var t :| t in m && t > watermark;
      assert t !in Between(m, start, end);
    }
  }

  /** Watermark 100 and size 10: the point at 90 is kept and not shown. */
  lemma DefaultQueryMissesAPoint()
    ensures var m: Series := map[90 := Number(1.0), 100 := Number(2.0)];
            && WindowStart(100, 10) == 90 && LiveStart(100, 10) <= LiveEnd(100)
            && Excerpt(InOrder(m), LiveStart(100, 10), LiveEnd(100), 0, 0) != InOrder(m)
  {
    hide InOrder, Excerpt;
    DefaultQueryOmits(map[90 := Number(1.0), 100 := Number(2.0)], 100, 10);
  }

  /** A first batch at 10 then 4 leaves the watermark at 4: nothing sits at the
      omitted instant -6, and the live point at 10 is not shown. */
  lemma DefaultQueryMissesTheFuture(a: RawPoint, b: RawPoint)
    requires a.time == 10 && b.time == 4
    ensures var w := NextWatermark(None, [a, b]);
            var m: Series := map[4 := Number(1.0), 10 := Number(2.0)];
            && w == 4 && Omitted(w, 10) !in m && (forall t :: t in m ==> WindowStart(w, 10) <= t)
            && LiveStart(w, 10) <= LiveEnd(w)
            && Excerpt(InOrder(m), LiveStart(w, 10), LiveEnd(w), 0, 0) != InOrder(m)
  {
    hide InOrder, Excerpt, NextWatermark;
    FirstBatchWatermarkFails(a, b);
    var m: Series := map[4 := Number(1.0), 10 := Number(2.0)];
    assert 10 in m;
    DefaultQueryOmits(m, 4, 10);
  }

  lemma {:induction false} ExcerptIncreasing(all: seq<Point>, start: int, end: int, preceding: nat, following: nat)
    requires start <= end && StrictlyIncreasing(all)
    ensures StrictlyIncreasing(Excerpt(all, start, end, preceding, following))
  {
  }

  function Mentions(ids: seq<SequenceId>, id: SequenceId): nat {
    if ids == [] then 0 else Mentions(ids[..|ids| - 1], id) + if ids[|ids| - 1] == id then 1 else 0
  }

  /** `n` copies of the rows, one after the other. */
  ghost function Copies(e: seq<Point>, n: nat): seq<Point> {
    if n == 0 then [] else Copies(e, n - 1) + e
  }

  ghost function RowsOf(rows: map<SequenceId, seq<Point>>, id: SequenceId): seq<Point> {
    if id in rows then rows[id] else []
  }

  /** Each mention of a sequence in a request contributes its rows once more. */
  lemma {:induction false} RowsRepeat(contents: Holdings, ids: seq<SequenceId>, id: SequenceId,
                                      start: int, end: int, preceding: nat, following: nat)
    requires start <= end && id in contents
    ensures RowsOf(Collected(contents, ids, start, end, preceding, following), id) ==
            Copies(Excerpt(InOrder(contents[id]), start, end, preceding, following), Mentions(ids, id))
    decreases |ids|
  {
    hide InOrder, Excerpt, Collected;
    if ids == [] {
      CollectedNone(contents, ids, start, end, preceding, following);
    } else {
      RowsRepeat(contents, ids[..|ids| - 1], id, start, end, preceding, following);
      CollectedLast(contents, ids, id, start, end, preceding, following);
      if ids[|ids| - 1] != id { assert RowsOf(Collected(contents, ids[..|ids| - 1], start, end, preceding, following), id) + [] ==
                                       RowsOf(Collected(contents, ids[..|ids| - 1], start, end, preceding, following), id); }
    }
  }

  lemma CollectedNone(contents: Holdings, ids: seq<SequenceId>, start: int, end: int, preceding: nat, following: nat)
    requires start <= end && ids == []
    ensures Collected(contents, ids, start, end, preceding, following) == map[]
  {
  }

  lemma {:induction false} CollectedLast(contents: Holdings, ids: seq<SequenceId>, id: SequenceId,
                      start: int, end: int, preceding: nat, following: nat)
    requires start <= end && id in contents && ids != []
    ensures RowsOf(Collected(contents, ids, start, end, preceding, following), id) ==
            RowsOf(Collected(contents, ids[..|ids| - 1], start, end, preceding, following), id)
            + if ids[|ids| - 1] == id then Excerpt(InOrder(contents[id]), start, end, preceding, following) else []
  {
    hide InOrder, Excerpt;
  }

  /** A sequence's rows are in strictly increasing time order exactly when the
      request does not name it twice (or it has no rows at all). */
  lemma CopiesIncreasing(e: seq<Point>, n: nat)
    requires StrictlyIncreasing(e) && e != []
    ensures StrictlyIncreasing(Copies(e, n)) <==> n <= 1
  {
    if n == 1 {
      assert Copies(e, 1) == Copies(e, 0) + e == e;
    } else if n > 1 {
      var front := Copies(e, n - 2);
      var s := front + e + e;
      assert Copies(e, n) == s;
      assert s[|front|] == e[0] == s[|front| + |e|];
    }
  }

  // ----- the bounds of a query -----

  /** The answer lists of every named sequence exactly its live points in [from, to), and nothing else. */
  ghost predicate Lists(answer: QueryAnswer, contents: Holdings, ids: seq<SequenceId>, from: int, to: int) {
    && answer.Rows?
    && (forall id :: id in ids ==> AsMap(RowsOf(answer.values, id)) == Between(ContentOf(contents, id), from, to))
    && (forall id :: id in answer.values ==> id in ids)
  }

  ghost predicate Bounded(answer: QueryAnswer, start: int, end: int) {
    answer.Rows? && answer.start == start && answer.end == end
  }

  /** Each bound of a query is the given one, or that of the live window when it is
      not given; the answer carries these bounds, or on request the live window's. */
  lemma {:induction false} QueryShowsRange(contents: Holdings, w: Timestamp, size: int, ids: seq<SequenceId>,
                                           startTime: Option<Timestamp>, endTime: Option<Timestamp>, preserveBounds: bool)
    requires 0 < size <= TIMESTAMP_MAX && ids != [] && "" !in ids
    ensures var answer, liveStart, liveEnd := QueryMeaning(contents, Some(w), size, ids, startTime, endTime, 0, 0, preserveBounds), LiveStart(w, size), LiveEnd(w);
            && (startTime.None? && endTime.None? ==>
                  Lists(answer, contents, ids, liveStart, liveEnd) && Bounded(answer, liveStart, liveEnd))
            && (startTime.Some? && endTime.None? ==>
                  if startTime.value > liveEnd then answer.InvalidQuery?
                  else Lists(answer, contents, ids, startTime.value, liveEnd)
                       && Bounded(answer, if preserveBounds then liveStart else startTime.value, liveEnd))
            && (startTime.None? && endTime.Some? ==>
                  if liveStart > endTime.value then answer.InvalidQuery?
                  else Lists(answer, contents, ids, liveStart, endTime.value)
                       && Bounded(answer, liveStart, if preserveBounds then liveEnd else endTime.value))
            && (startTime.Some? && endTime.Some? ==>
                  if startTime.value > endTime.value then answer.InvalidQuery?
                  else Lists(answer, contents, ids, startTime.value, endTime.value)
                       && Bounded(answer, if preserveBounds then liveStart else startTime.value, if preserveBounds then liveEnd else endTime.value))
  {
    hide AsMap, Collected, RowCount, Between;
    var from := if startTime.Some? then startTime.value else LiveStart(w, size);
    var to := if endTime.Some? then endTime.value else LiveEnd(w);
    if from <= to {
      forall id | id in ids ensures AsMap(RowsOf(Collected(contents, ids, from, to, 0, 0), id)) == Between(ContentOf(contents, id), from, to) {
        NamedRows(contents, ids, id, from, to);
      }
      forall id | id in Collected(contents, ids, from, to, 0, 0) ensures id in ids { OnlyNamed(contents, ids, id, from, to, 0, 0); }
    }
  }

  /** What is refused, and when there is nothing to show yet, whatever the context. */
  lemma QueryRefused(contents: Holdings, watermark: Option<Timestamp>, size: int, ids: seq<SequenceId>, startTime: Option<Timestamp>,
                     endTime: Option<Timestamp>, preceding: nat, following: nat, preserveBounds: bool)
    requires 0 < size <= TIMESTAMP_MAX
    ensures var answer := QueryMeaning(contents, watermark, size, ids, startTime, endTime, preceding, following, preserveBounds);
            && (ids == [] || "" in ids || (startTime.Some? && endTime.Some? && startTime.value > endTime.value) ==> answer.InvalidQuery?)
            && (watermark.None? ==> !answer.Rows?) && (watermark.Some? ==> !answer.EmptyWindow?)
  {
    hide Collected, RowCount;
  }

  lemma {:induction false} NamedRows(contents: Holdings, ids: seq<SequenceId>, id: SequenceId, from: int, to: int)
    requires from <= to && id in ids
    ensures AsMap(RowsOf(Collected(contents, ids, from, to, 0, 0), id)) == Between(ContentOf(contents, id), from, to)
  {
    hide AsMap, Collected, Excerpt, InOrder, Copies, Mentions;
    if id in contents {
      RowsRepeat(contents, ids, id, from, to, 0, 0);
      ExcerptIsRestriction(contents[id], from, to);
      IsMentioned(ids, id);
      CopiesSameMap(Excerpt(InOrder(contents[id]), from, to, 0, 0), Mentions(ids, id));
    } else {
      OnlyNamed(contents, ids, id, from, to, 0, 0);
      AsMapNil([]);
    }
  }

  lemma {:induction false} OnlyNamed(contents: Holdings, ids: seq<SequenceId>, id: SequenceId, from: int, to: int, preceding: nat, following: nat)
    requires from <= to
    ensures id in Collected(contents, ids, from, to, preceding, following) ==> id in ids && id in contents
    decreases |ids|
  {
    hide InOrder, Excerpt;
    if ids != [] { OnlyNamed(contents, ids[..|ids| - 1], id, from, to, preceding, following); }
  }

  lemma {:induction false} IsMentioned(ids: seq<SequenceId>, id: SequenceId)
    requires id in ids
    ensures Mentions(ids, id) > 0
    decreases |ids|
  {
    if ids[|ids| - 1] != id {
      assert ids == ids[..|ids| - 1] + [ids[|ids| - 1]];
      IsMentioned(ids[..|ids| - 1], id);
    }
  }

  lemma {:induction false} CopiesSameMap(e: seq<Point>, n: nat)
    requires n > 0
    ensures AsMap(Copies(e, n)) == AsMap(e)
    decreases n
  {
    hide AsMap;
    if n == 1 {
      assert Copies(e, 1) == Copies(e, 0) + e == e;
    } else {
      CopiesSameMap(e, n - 1);
      AsMapConcat(Copies(e, n - 1), e);
    }
  }

  // ----- context -----

  /** The last `n` points before `t`, or all of them when there are fewer. */
  ghost predicate NearestBefore(some: seq<Point>, all: seq<Point>, t: int, n: nat) {
    exists k: nat :: Splits(all, k, t) && some == all[Max(k - n, 0)..k]
  }

  /** The first `n` points from `t` on, or all of them when there are fewer. */
  ghost predicate NearestFrom(some: seq<Point>, all: seq<Point>, t: int, n: nat) {
    exists k: nat :: Splits(all, k, t) && some == all[k..Min(k + n, |all|)]
  }

  /** The first `k` points lie before `t` and the others do not. */
  ghost predicate Splits(all: seq<Point>, k: nat, t: int) {
    k <= |all| && (forall j :: 0 <= j < k ==> all[j].time < t) && (forall j :: k <= j < |all| ==> t <= all[j].time)
  }

  ghost predicate InContext(rows: seq<Point>, before: seq<Point>, inside: seq<Point>, after: seq<Point>, m: Series,
                            start: int, end: int, preceding: nat, following: nat)
  {
    && rows == before + inside + after && AsMap(inside) == Between(m, start, end)
    && NearestBefore(before, InOrder(m), start, preceding) && NearestFrom(after, InOrder(m), end, following)
  }

  /** With context come, around the points of the range, the `preceding` latest
      points before it and the `following` earliest points from its end on. */
  lemma {:induction false} ContextIsNearest(m: Series, start: int, end: int, preceding: nat, following: nat)
    requires start <= end
    ensures exists before, inside, after ::
              InContext(Excerpt(InOrder(m), start, end, preceding, following), before, inside, after, m, start, end, preceding, following)
  {
    hide AsMap, InOrder, Between, LowerBound, StrictlyIncreasing, Splits, Excerpt;
    var all := InOrder(m);
    var x, y := LowerBound(all, 0, start), LowerBound(all, 0, end);
    BoundSplits(all, start);
    BoundSplits(all, end);
    ExcerptIsRestriction(m, start, end);
    ExcerptParts(all, start, end, preceding, following);
    var before, after := all[Max(x - preceding, 0)..x], all[y..Min(y + following, |all|)];
    assert InContext(Excerpt(all, start, end, preceding, following), before, all[x..y], after, m, start, end, preceding, following);
  }

  lemma ExcerptParts(all: seq<Point>, start: int, end: int, preceding: nat, following: nat)
    requires start <= end
    ensures LowerBound(all, 0, start) <= LowerBound(all, 0, end)
    ensures var x, y := LowerBound(all, 0, start), LowerBound(all, 0, end);
            && Excerpt(all, start, end, 0, 0) == all[x..y]
            && Excerpt(all, start, end, preceding, following) == all[Max(x - preceding, 0)..x] + all[x..y] + all[y..Min(y + following, |all|)]
  {
    hide LowerBound;
    LowerBoundMonotone(all, start, end);
    var x, y := LowerBound(all, 0, start), LowerBound(all, 0, end);
    ThreeSlices(all, Max(x - preceding, 0), x, y, Min(y + following, |all|));
  }

  lemma ThreeSlices<T>(s: seq<T>, lo: nat, x: nat, y: nat, hi: nat)
    requires lo <= x <= y <= hi <= |s|
    ensures s[lo..hi] == s[lo..x] + s[x..y] + s[y..hi]
  {
  }

  lemma BoundSplits(all: seq<Point>, t: int)
    requires StrictlyIncreasing(all)
    ensures Splits(all, LowerBound(all, 0, t), t)
  {
  }

  // ----- counts and statistics -----

  /** How many rows an answer lists over all sequences. */
  ghost function RowTotal(rows: map<SequenceId, seq<Point>>): nat
    decreases |rows|
  {
    if rows == map[] then 0
    else
      var id := Pick(rows.Keys);
      assert |rows - {id}| < |rows| by { assert (rows - {id}).Keys == rows.Keys - {id}; }
      |rows[id]| + RowTotal(rows - {id})
  }

  lemma {:induction false} RowTotalWithout(rows: map<SequenceId, seq<Point>>, id: SequenceId)
    requires id in rows
    ensures RowTotal(rows) == |rows[id]| + RowTotal(rows - {id})
    decreases |rows|
  {
    var first := Pick(rows.Keys);
    if first != id {
      assert |rows - {first}| < |rows| by { assert (rows - {first}).Keys == rows.Keys - {first}; }
      RowTotalWithout(rows - {first}, id);
      var less := rows - {id};
      assert |less| < |rows| by { assert less.Keys == rows.Keys - {id}; }
      assert less - {first} == rows - {first} - {id};
      RowTotalWithout(less, first);
    }
  }

  /** The reported count is the number of rows listed, a repeated sequence's rows counted each time. */
  lemma {:induction false} CountIsRowTotal(contents: Holdings, ids: seq<SequenceId>, start: int, end: int, preceding: nat, following: nat)
    requires start <= end
    ensures RowCount(contents, ids, start, end, preceding, following) == RowTotal(Collected(contents, ids, start, end, preceding, following))
    decreases |ids|
  {
    hide Excerpt, InOrder, RowTotal;
    NoRows();
    if ids != [] {
      var id := ids[|ids| - 1];
      var front := Collected(contents, ids[..|ids| - 1], start, end, preceding, following);
      CountIsRowTotal(contents, ids[..|ids| - 1], start, end, preceding, following);
      if id in contents {
        var output := RowsOf(front, id) + Excerpt(InOrder(contents[id]), start, end, preceding, following);
        if id in front { RowTotalWithout(front, id); }
        assert front[id := output] - {id} == front - {id};
        assert id !in front ==> front - {id} == front;
        RowTotalWithout(front[id := output], id);
      }
    }
  }

  lemma NoRows()
    ensures RowTotal(map[]) == 0
  {
  }

  // ----- statistics -----

  /** The values' sum, taken from the front. */
  ghost function Sum(s: seq<Point>): real
    requires forall i :: 0 <= i < |s| ==> s[i].value.Number?
  {
    if s == [] then 0.0 else s[0].value.amount + Sum(s[1..])
  }

  ghost predicate Held(m: Series, v: Value) { exists t :: t in m && m[t] == v }

  ghost predicate Listed(s: seq<Point>, v: Value) { exists i :: 0 <= i < |s| && s[i].value == v }

  /** What a statistics answer says about a window's content. */
  lemma {:induction false} StatisticsAre(m: Series)
    ensures var answer := ScratchStatistics(InOrder(m));
            && (answer.NonNumericContent? <==> Held(m, NonNumeric))
            && (answer.NoSamples? <==> m == map[])
            && (answer.Statistics? ==>
                  && answer.count == |m|
                  && (forall i :: 0 <= i < |InOrder(m)| ==> InOrder(m)[i].value.Number?)
                  && answer.average * answer.count as real == Sum(InOrder(m))
                  && Held(m, Number(answer.maximum)) && Held(m, Number(answer.minimum))
                  && forall x :: Held(m, Number(x)) ==> answer.minimum <= x <= answer.maximum)
  {
    var s := InOrder(m);
    StatisticsOfListing(s);
    ListedIsHeld(m);
    hide InOrder, ScratchStatistics, Sum, Held, Listed, StrictlyIncreasing;
    AsMapNil([]);
    SizeOfMap(s);
    hide AsMap;
  }

  lemma ListedIsHeld(m: Series)
    ensures forall v :: Listed(InOrder(m), v) <==> Held(m, v)
  {
    var s := InOrder(m);
    hide AsMap, InOrder, LowerBound, StrictlyIncreasing;
    forall v ensures Listed(s, v) <==> Held(m, v) {
      if Listed(s, v) {
        var i :| 0 <= i < |s| && s[i].value == v;
        AsMapOfPoint(s, i);
      }
      if Held(m, v) {
        var t :| t in m && m[t] == v;
        AsMapAt(s, t);
      }
    }
  }

  /** The same over any listing. */
  lemma {:induction false} StatisticsOfListing(s: seq<Point>)
    ensures var answer := ScratchStatistics(s);
            && (answer.NonNumericContent? <==> Listed(s, NonNumeric))
            && (answer.NoSamples? <==> s == [])
            && (answer.Statistics? ==>
                  && answer.count == |s| && (forall i :: 0 <= i < |s| ==> s[i].value.Number?)
                  && answer.average * answer.count as real == Sum(s)
                  && Listed(s, Number(answer.maximum)) && Listed(s, Number(answer.minimum))
                  && forall x :: Listed(s, Number(x)) ==> answer.minimum <= x <= answer.maximum)
  {
    hide NumericCount, NumericSum, Best;
    CountsNumbers(s);
    if s != [] && NumericCount(s) == |s| {
      ScratchDefined(s);
      SumIsNumericSum(s);
      BestIsBest(Highest, s);
      BestIsBest(Lowest, s);
      assert NumericSum(s) / |s| as real * |s| as real == NumericSum(s);
    }
  }

  lemma {:induction false} CountsNumbers(s: seq<Point>)
    ensures NumericCount(s) <= |s|
    ensures NumericCount(s) == |s| <==> forall i :: 0 <= i < |s| ==> s[i].value.Number?
    decreases |s|
  {
    if s != [] {
      var front := s[..|s| - 1];
      CountsNumbers(front);
      assert forall i :: 0 <= i < |front| ==> front[i] == s[i];
    }
  }

  lemma {:induction false} SumIsNumericSum(s: seq<Point>)
    requires forall i :: 0 <= i < |s| ==> s[i].value.Number?
    ensures Sum(s) == NumericSum(s)
    decreases |s|
  {
    if s != [] {
      SumIsNumericSum(s[1..]);
      DropFirstTotals(s);
    }
  }

  lemma {:induction false} BestIsBest(kind: Extreme, s: seq<Point>)
    ensures Best(kind, s).Some? ==>
              && (exists i :: 0 <= i < |s| && s[i].value == Number(Best(kind, s).value))
              && forall i :: 0 <= i < |s| && s[i].value.Number? ==>
                               if kind.Highest? then s[i].value.amount <= Best(kind, s).value else Best(kind, s).value <= s[i].value.amount
    ensures Best(kind, s).None? ==> forall i :: 0 <= i < |s| ==> s[i].value.NonNumeric?
    decreases |s|
  {
    if s != [] {
      var front, n := s[..|s| - 1], |s| - 1;
      BestIsBest(kind, front);
      assert forall i :: 0 <= i < n ==> front[i] == s[i];
      if Best(kind, front).Some? {
        var i :| 0 <= i < n && front[i].value == Number(Best(kind, front).value);
        assert s[i].value == Number(Best(kind, front).value);
      }
      if s[n].value.Number? { assert s[n].value == Number(s[n].value.amount); }
    }
  }

  // ----- what a batch does to one instant -----

  /** The last point of the batch for the sequence at the instant. */
  ghost predicate LastWritten(batch: seq<RawPoint>, id: SequenceId, t: Timestamp, i: nat) {
    && i < |batch| && batch[i].sequence == id && batch[i].time == t
    && forall j :: i < j < |batch| ==> !(batch[j].sequence == id && batch[j].time == t)
  }

  /** After a batch a sequence holds, from the window start on, what the batch wrote
      last at an instant, or else what was there before. */
  lemma {:induction false} BatchAtInstant(before: Holdings, batch: seq<RawPoint>, id: SequenceId, start: int, t: Timestamp)
    ensures var after := ContentAfter(before, batch, id, start);
            && (forall i: nat :: LastWritten(batch, id, t, i) ==> (t in after <==> start <= t) && (t in after ==> after[t] == batch[i].value))
            && ((forall i :: 0 <= i < |batch| ==> !(batch[i].sequence == id && batch[i].time == t)) ==>
                  (t in after <==> id in before && t in before[id] && start <= t) && (t in after ==> after[t] == before[id][t]))
  {
    hide AsMap, PointsOf;
    forall i: nat | LastWritten(batch, id, t, i) ensures t in AsMap(PointsOf(batch, id)) && AsMap(PointsOf(batch, id))[t] == batch[i].value {
      WrittenLast(batch, id, t, i);
    }
    if forall i :: 0 <= i < |batch| ==> !(batch[i].sequence == id && batch[i].time == t) { NotWritten(batch, id, t); }
  }

  lemma {:induction false} WrittenLast(batch: seq<RawPoint>, id: SequenceId, t: Timestamp, i: nat)
    requires LastWritten(batch, id, t, i)
    ensures t in AsMap(PointsOf(batch, id)) && AsMap(PointsOf(batch, id))[t] == batch[i].value
    decreases |batch|
  {
    hide AsMap;
    var front, p := batch[..|batch| - 1], batch[|batch| - 1];
    if i < |batch| - 1 { WrittenLast(front, id, t, i); }
    if p.sequence == id { WriteLast(PointsOf(front, id), Point(p.time, p.value)); }
  }

  lemma {:induction false} NotWritten(batch: seq<RawPoint>, id: SequenceId, t: Timestamp)
    requires forall i :: 0 <= i < |batch| ==> !(batch[i].sequence == id && batch[i].time == t)
    ensures t !in AsMap(PointsOf(batch, id))
    decreases |batch|
  {
    hide AsMap;
    AsMapNil([]);
    if batch != [] {
      var front, p := batch[..|batch| - 1], batch[|batch| - 1];
      NotWritten(front, id, t);
      if p.sequence == id { WriteLast(PointsOf(front, id), Point(p.time, p.value)); }
    }
  }
}
