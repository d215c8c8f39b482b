/** Cached violations edited by range, against a check from scratch. */
module ContinuousConstraints {
  import opened Timeline
  import opened WindowQueries
  import opened ConstraintRules
  import opened ConstraintEngines
  import opened ConstraintChecks

  type Recorded = map<Timestamp, Violation>

  ghost function At(m: Recorded, t: Timestamp): Option<Violation> {
    if t in m then Some(m[t]) else None
  }

  ghost predicate Numeric(points: seq<Point>) {
    forall i :: 0 <= i < |points| ==> points[i].value.Number?
  }

  ghost predicate ValidSample(rule: Rule) {
    ValidRule(rule) && AllSample(rule.terms)
  }

  /** A live row: strictly increasing numbers. */
  ghost predicate Row(points: seq<Point>) {
    StrictlyIncreasing(points) && Numeric(points)
  }

  lemma NumbersResolve(rule: Rule, points: seq<Point>, k: nat)
    requires ValidSample(rule) && Numeric(points) && k + MaximumOffset(rule.terms) < |points|
    ensures Resolvable(rule.terms, points, k)
  {
  }

  /** What a check from scratch of a row says about one anchor. */
  ghost function Expected(rule: Rule, points: seq<Point>, t: Timestamp): Option<Violation>
    requires ValidSample(rule) && Row(points)
  {
    var k := LowerBound(points, 0, t);
    if k + MaximumOffset(rule.terms) < |points| && points[k].time == t then
      NumbersResolve(rule, points, k);
      ViolationAt(rule, points, k)
    else None
  }

  /** After the window start, the cache says exactly what a check from scratch would. */
  ghost predicate CacheRight(rule: Rule, points: seq<Point>, cached: Recorded, windowStart: int)
    requires ValidSample(rule) && Row(points)
  {
    forall t: Timestamp :: windowStart < t ==> At(cached, t) == Expected(rule, points, t)
  }

  // ----- a slice of a row gives the same verdicts -----

  lemma {:induction false} SliceSum(terms: seq<Term>, points: seq<Point>, lo: nat, hi: nat, k: nat)
    requires lo <= k < hi <= |points| && Resolvable(terms, points, k)
    requires forall i :: 0 <= i < |terms| ==> k + terms[i].sampleOffset < hi
    ensures Resolvable(terms, points[lo..hi], k - lo)
    ensures WeightedSum(terms, points[lo..hi], k - lo) == WeightedSum(terms, points, k)
    decreases |terms|
  {
    if terms != [] {
      var front := terms[..|terms| - 1];
      assert forall i :: 0 <= i < |front| ==> front[i] == terms[i];
      SliceSum(front, points, lo, hi, k);
    }
  }

  lemma {:induction false} SliceViolation(rule: Rule, points: seq<Point>, lo: nat, hi: nat, k: nat)
    requires ValidSample(rule) && lo <= k && k + MaximumOffset(rule.terms) < hi <= |points| && Numeric(points)
    ensures Resolvable(rule.terms, points, k) && Resolvable(rule.terms, points[lo..hi], k - lo)
    ensures ViolationAt(rule, points[lo..hi], k - lo) == ViolationAt(rule, points, k)
  {
    hide MaximumOffset;
    NumbersResolve(rule, points, k);
    SliceSum(rule.terms, points, lo, hi, k);
    assert ResolvedTerms(rule, points[lo..hi], k - lo) == ResolvedTerms(rule, points, k);
  }

  lemma SliceIsRow(points: seq<Point>, lo: nat, hi: nat)
    requires Row(points) && lo <= hi <= |points|
    ensures Row(points[lo..hi])
  {
  }

  lemma {:induction false} PlaceInSlice(points: seq<Point>, lo: nat, hi: nat, k: nat)
    requires StrictlyIncreasing(points) && lo <= k < hi <= |points|
    ensures LowerBound(points[lo..hi], 0, points[k].time) == k - lo
    ensures LowerBound(points, 0, points[k].time) == k
  {
    LowerBoundIs(points[lo..hi], 0, points[k].time, k - lo);
    LowerBoundIs(points, 0, points[k].time, k);
  }

  lemma SlicePoint(points: seq<Point>, lo: nat, hi: nat, t: int)
    requires StrictlyIncreasing(points) && lo <= hi <= |points|
    ensures var j := LowerBound(points[lo..hi], 0, t);
            j < hi - lo && points[lo..hi][j].time == t ==> LowerBound(points, 0, t) == lo + j
  {
    var j := LowerBound(points[lo..hi], 0, t);
    if j < hi - lo && points[lo..hi][j].time == t { PlaceInSlice(points, lo, hi, lo + j); }
  }

  /** A slice that starts at or before an anchor and leaves room for its offsets
      decides the anchor as the whole row does. */
  lemma ExpectedInSlice(rule: Rule, points: seq<Point>, lo: nat, hi: nat, t: Timestamp)
    requires ValidSample(rule) && Row(points) && lo <= hi <= |points| && Row(points[lo..hi])
    requires var k := LowerBound(points, 0, t);
             k < |points| && points[k].time == t ==> lo <= k && (k + MaximumOffset(rule.terms) < |points| ==> k + MaximumOffset(rule.terms) < hi)
    ensures Expected(rule, points[lo..hi], t) == Expected(rule, points, t)
  {
    hide MaximumOffset, LowerBound, ViolationAt, StrictlyIncreasing, Numeric, ValidSample;
    var k := LowerBound(points, 0, t);
    SlicePoint(points, lo, hi, t);
    if k < |points| && points[k].time == t && k < hi {
      PlaceInSlice(points, lo, hi, k);
      if k + MaximumOffset(rule.terms) < hi { SliceViolation(rule, points, lo, hi, k); }
    }
  }

  /** The slice starts after the anchor: it says nothing. */
  lemma NothingBeforeSlice(rule: Rule, points: seq<Point>, lo: nat, hi: nat, t: Timestamp)
    requires ValidSample(rule) && Row(points) && lo <= hi <= |points| && Row(points[lo..hi])
    requires lo < |points| ==> t < points[lo].time
    ensures Expected(rule, points[lo..hi], t).None?
  {
    hide MaximumOffset, ViolationAt, ValidSample;
    LowerBoundIs(points[lo..hi], 0, t, 0);
  }

  // ----- recording found violations -----

  function Record(cached: Recorded, found: seq<Violation>, id: string): Recorded {
    if found == [] then cached
    else
      var before, v := Record(cached, found[..|found| - 1], id), found[|found| - 1];
      if v.ruleId == id then before[v.anchor := v] else before
  }

  /** The found violations of a rule are exactly those the checked rows show in
      a closed range of anchors. */
  ghost predicate FoundIn(found: seq<Violation>, rule: Rule, points: seq<Point>, first: int, last: int)
    requires ValidSample(rule) && Row(points)
  {
    forall v :: v in found && v.ruleId == rule.id <==> first <= v.anchor <= last && Expected(rule, points, v.anchor) == Some(v)
  }

  lemma {:induction false} RecordLast(cached: Recorded, found: seq<Violation>, id: string, t: Timestamp)
    ensures At(Record(cached, found, id), t) == At(cached, t) || exists v :: v in found && v.ruleId == id && v.anchor == t && At(Record(cached, found, id), t) == Some(v)
    ensures (exists v :: v in found && v.ruleId == id && v.anchor == t) ==>
              exists v :: v in found && v.ruleId == id && v.anchor == t && At(Record(cached, found, id), t) == Some(v)
    decreases |found|
  {
    if found != [] {
      var front, last := found[..|found| - 1], found[|found| - 1];
      RecordLast(cached, front, id, t);
      assert found == front + [last];
      assert forall v :: v in front ==> v in found;
      assert last in found;
    }
  }

  lemma {:induction false} RecordMeaning(cached: Recorded, found: seq<Violation>, rule: Rule, points: seq<Point>, first: int, last: int, t: Timestamp)
    requires ValidSample(rule) && Row(points) && FoundIn(found, rule, points, first, last)
    ensures At(Record(cached, found, rule.id), t) ==
            if first <= t <= last && Expected(rule, points, t).Some? then Expected(rule, points, t) else At(cached, t)
  {
    hide Record, Row, ValidSample;
    RecordLast(cached, found, rule.id, t);
    if first <= t <= last && Expected(rule, points, t).Some? {
      ExpectedAnchor(rule, points, t);
      var v := Expected(rule, points, t).value;
      assert v in found && v.ruleId == rule.id && v.anchor == t;
    }
  }

  lemma ExpectedAnchor(rule: Rule, points: seq<Point>, t: Timestamp)
    requires ValidSample(rule) && Row(points)
    ensures Expected(rule, points, t).Some? ==> Expected(rule, points, t).value.anchor == t && Expected(rule, points, t).value.ruleId == rule.id
  {
    hide LowerBound, MaximumOffset;
  }

  // ----- the three ways a batch treats a rule -----

  datatype AnchorRange = AnchorRange(start: Timestamp, end: Timestamp)

  /** Erase the affected range, drop what left the window, or start over. */
  function Cleared(cached: Recorded, range: Option<AnchorRange>, windowStart: int): Recorded {
    if range.None? then map[]
    else map t | t in cached && !(range.value.start <= t <= range.value.end) && windowStart <= t :: cached[t]
  }

  function Edited(cached: Recorded, range: Option<AnchorRange>, windowStart: int, found: seq<Violation>, id: string): Recorded {
    Record(Cleared(cached, range, windowStart), found, id)
  }

  /** The range start moved back far enough for a rule with maximum offset `m`
      to see again every anchor that reaches into the range. */
  ghost predicate ReachesBack(first: int, points: seq<Point>, start: int, m: nat) {
    var f := LowerBound(points, 0, start);
    var j := if f < m then 0 else f - m;
    first <= start && (j < |points| ==> first <= points[j].time)
  }

  /** An update that only appended inside the range and dropped an expired prefix. */
  ghost predicate Appended(before: seq<Point>, after: seq<Point>, windowStart: int, range: AnchorRange) {
    exists more: seq<Point> ::
      && StrictlyIncreasing(before + more)
      && after == (before + more)[LowerBound(before + more, 0, windowStart)..]
      && more != [] && forall i :: 0 <= i < |more| ==> range.start <= more[i].time <= range.end
  }

  /** Old anchors keep their verdict once all their points are old, and a
      violation once found stays found. */
  lemma {:induction false} OldAnchor(rule: Rule, before: seq<Point>, more: seq<Point>, after: seq<Point>, windowStart: int, start: int, t: Timestamp)
    requires ValidSample(rule) && Row(before) && Row(after) && StrictlyIncreasing(before + more)
    requires after == (before + more)[LowerBound(before + more, 0, windowStart)..]
    requires forall i :: 0 <= i < |more| ==> start <= more[i].time
    requires windowStart < t < start
    ensures Expected(rule, before, t).Some? ==> Expected(rule, after, t) == Expected(rule, before, t)
    ensures Expected(rule, before, t).None? && LowerBound(after, 0, t) + MaximumOffset(rule.terms) < LowerBound(after, 0, start) ==>
              Expected(rule, after, t).None?
  {
    var all := before + more;
    var cut := LowerBound(all, 0, windowStart);
    OldPlaces(before, more, after, cut, windowStart, start, t);
    hide LowerBound, MaximumOffset, StrictlyIncreasing, ViolationAt, ValidSample, Resolvable, Expected;
    var k, m := LowerBound(before, 0, t), MaximumOffset(rule.terms);
    if k + m < |before| && before[k].time == t { SharedAnchor(rule, before, more, after, cut, k); }
    hide *;
    ghost var reached, j := LowerBound(after, 0, start), LowerBound(after, 0, t);
    assert j == k - cut;
    SamePlaceSameAnchor(rule, before, after, t, reached);
  }

  /** What is expected at an anchor, once its place and violation are known to be kept. */
  lemma SamePlaceSameAnchor(rule: Rule, before: seq<Point>, after: seq<Point>, t: Timestamp, reached: nat)
    requires ValidSample(rule) && Row(before) && Row(after)
    requires var k, j, m := LowerBound(before, 0, t), LowerBound(after, 0, t), MaximumOffset(rule.terms);
             && j <= k <= |before| && reached <= |before| - (k - j) <= |after|
             && (k < |before| ==> j < |after| && after[j] == before[k]) && (j < reached ==> k < |before|)
             && (k + m < |before| && before[k].time == t ==>
                   && Resolvable(rule.terms, before, k) && Resolvable(rule.terms, after, j)
                   && ViolationAt(rule, after, j) == ViolationAt(rule, before, k))
    ensures Expected(rule, before, t).Some? ==> Expected(rule, after, t) == Expected(rule, before, t)
    ensures Expected(rule, before, t).None? && LowerBound(after, 0, t) + MaximumOffset(rule.terms) < reached ==> Expected(rule, after, t).None?
  {
    hide *;
    ExpectedIs(rule, before, t);
    ExpectedIs(rule, after, t);
  }

  lemma ExpectedIs(rule: Rule, points: seq<Point>, t: Timestamp)
    requires ValidSample(rule) && Row(points)
    ensures var k := LowerBound(points, 0, t);
            if k + MaximumOffset(rule.terms) < |points| && points[k].time == t
            then Resolvable(rule.terms, points, k) && Expected(rule, points, t) == ViolationAt(rule, points, k)
            else Expected(rule, points, t).None?
  {
    hide LowerBound, MaximumOffset, ViolationAt, Resolvable;
    var k := LowerBound(points, 0, t);
    if k + MaximumOffset(rule.terms) < |points| && points[k].time == t { NumbersResolve(rule, points, k); }
  }

  lemma OldPlaces(before: seq<Point>, more: seq<Point>, after: seq<Point>, cut: nat, windowStart: int, start: int, t: int)
    requires StrictlyIncreasing(before + more) && cut == LowerBound(before + more, 0, windowStart)
    requires forall i :: 0 <= i < |more| ==> start <= more[i].time
    requires windowStart < t < start && after == (before + more)[cut..]
    ensures var k := LowerBound(before, 0, t);
            && cut <= k <= |before| && |before| - cut <= |after| && LowerBound(after, 0, t) == k - cut
            && LowerBound(after, 0, start) <= |before| - cut
            && (k < |before| ==> k - cut < |after| && after[k - cut] == before[k])
            && (LowerBound(after, 0, t) < LowerBound(after, 0, start) ==> k < |before|)
  {
    hide LowerBound, StrictlyIncreasing;
    var all := before + more;
    var k, s := LowerBound(all, 0, t), LowerBound(all, 0, start);
    LowerBoundMonotone(all, windowStart, t);
    LowerBoundMonotone(all, t, start);
    BoundInOld(before, more, start);
    BoundOfOld(before, more, t);
    SuffixBound(all, cut, t);
    SuffixBound(all, cut, start);
  }

  lemma BoundInOld(before: seq<Point>, more: seq<Point>, start: int)
    requires forall i :: 0 <= i < |more| ==> start <= more[i].time
    ensures LowerBound(before + more, 0, start) <= |before|
  {
    if more != [] { assert (before + more)[|before|] == more[0]; }
  }

  lemma BoundOfOld(before: seq<Point>, more: seq<Point>, t: int)
    requires LowerBound(before + more, 0, t) <= |before|
    ensures LowerBound(before, 0, t) == LowerBound(before + more, 0, t)
  {
    assert forall i :: 0 <= i < |before| ==> (before + more)[i] == before[i];
    LowerBoundIs(before, 0, t, LowerBound(before + more, 0, t));
  }

  lemma SuffixBound(points: seq<Point>, cut: nat, t: int)
    requires cut <= LowerBound(points, 0, t)
    ensures LowerBound(points[cut..], 0, t) == LowerBound(points, 0, t) - cut
  {
    LowerBoundIs(points[cut..], 0, t, LowerBound(points, 0, t) - cut);
  }

  lemma {:induction false} SharedAnchor(rule: Rule, before: seq<Point>, more: seq<Point>, after: seq<Point>, cut: nat, k: nat)
    requires ValidSample(rule) && Numeric(before) && cut <= k && k + MaximumOffset(rule.terms) < |before|
    requires after == (before + more)[cut..] && Numeric(after)
    ensures Resolvable(rule.terms, before, k) && Resolvable(rule.terms, after, k - cut)
    ensures ViolationAt(rule, after, k - cut) == ViolationAt(rule, before, k)
  {
    hide MaximumOffset, ViolationAt, Numeric, ValidSample, Resolvable;
    assert before[cut..|before|] == after[..|before| - cut];
    SliceViolation(rule, before, cut, |before|, k);
    SliceViolation(rule, after, 0, |before| - cut, k - cut);
  }

  // ----- an incremental edit -----

  /** The excerpt a group query returns for a sequence, with `c` points of
      context on each side of the affected range. */
  ghost predicate ShowsEnough(row: seq<Point>, lo: nat, hi: nat, range: AnchorRange, m: nat) {
    && lo <= hi <= |row|
    && (lo == 0 || lo + m < LowerBound(row, 0, range.start))
    && forall k :: 0 <= k < |row| && row[k].time <= range.end ==> k < hi && (k + m < |row| ==> k + m < hi)
  }

  /** Inside the range and in the stretch moved back, the excerpt decides as the row does. */
  lemma {:induction false} ShownAnchor(rule: Rule, row: seq<Point>, lo: nat, hi: nat, range: AnchorRange, t: Timestamp)
    requires ValidSample(rule) && Row(row) && ShowsEnough(row, lo, hi, range, MaximumOffset(rule.terms)) && Row(row[lo..hi])
    requires t <= range.end && LowerBound(row, 0, t) + MaximumOffset(rule.terms) >= LowerBound(row, 0, range.start)
    ensures Expected(rule, row[lo..hi], t) == Expected(rule, row, t)
  {
    hide MaximumOffset, ValidSample, Expected, StrictlyIncreasing, Numeric, LowerBound;
    ExpectedInSlice(rule, row, lo, hi, t);
  }

  /** Elsewhere it decides the same way or says nothing. */
  lemma {:induction false} EarlierAnchor(rule: Rule, row: seq<Point>, lo: nat, hi: nat, range: AnchorRange, t: Timestamp)
    requires ValidSample(rule) && Row(row) && ShowsEnough(row, lo, hi, range, MaximumOffset(rule.terms)) && Row(row[lo..hi])
    requires t <= range.end
    ensures Expected(rule, row[lo..hi], t) == Expected(rule, row, t) || Expected(rule, row[lo..hi], t).None?
  {
    hide MaximumOffset, ValidSample, Expected, StrictlyIncreasing, Numeric, LowerBound;
    if lo == |row| || t < row[lo].time {
      NothingBeforeSlice(rule, row, lo, hi, t);
    } else {
      AtOrAfter(row, lo, t);
      ExpectedInSlice(rule, row, lo, hi, t);
    }
  }

  lemma AtOrAfter(row: seq<Point>, lo: nat, t: int)
    requires StrictlyIncreasing(row) && lo < |row| && row[lo].time <= t
    ensures var k := LowerBound(row, 0, t); k < |row| && row[k].time == t ==> lo <= k
  {
    hide LowerBound;
    assert forall i :: 0 <= i < lo ==> row[i].time < row[lo].time;
  }

  /** An anchor close enough to the range is at or after the moved-back start. */
  lemma {:induction false} ReachedBack(row: seq<Point>, lo: nat, hi: nat, range: AnchorRange, m: nat, first: int, t: Timestamp)
    requires StrictlyIncreasing(row) && ShowsEnough(row, lo, hi, range, m) && ReachesBack(first, row[lo..hi], range.start, m)
    requires var k := LowerBound(row, 0, t);
             k < |row| && row[k].time == t && k + m >= LowerBound(row, 0, range.start)
    requires t < range.start <= range.end
    ensures first <= t
  {
    hide LowerBound;
    var k, f := LowerBound(row, 0, t), LowerBound(row, 0, range.start);
    LowerBoundMonotone(row, t, range.start);
    assert lo <= k < hi;
    assert k < f && f <= hi by { FollowingInside(row, lo, hi, range, m, k, f); }
    SuffixBound2(row, lo, hi, range.start);
    var j := if f - lo < m then 0 else f - lo - m;
    assert row[lo..hi][j] == row[lo + j];
    assert first <= row[lo + j].time <= row[k].time;
  }

  lemma {:induction false} FollowingInside(row: seq<Point>, lo: nat, hi: nat, range: AnchorRange, m: nat, k: nat, f: nat)
    requires StrictlyIncreasing(row) && ShowsEnough(row, lo, hi, range, m) && k < |row| && row[k].time < range.start <= range.end
    requires f == LowerBound(row, 0, range.start)
    ensures k < f <= hi
  {
    if f > 0 { assert row[f - 1].time <= range.end; }
    assert f == 0 || f - 1 < hi;
    if f < |row| && f > k {} else { LowerBoundMonotone(row, row[k].time + 1, range.start); LowerBoundIs(row, 0, row[k].time + 1, k + 1); }
  }

  lemma SuffixBound2(points: seq<Point>, lo: nat, hi: nat, t: int)
    requires lo <= LowerBound(points, 0, t) <= hi <= |points|
    ensures LowerBound(points[lo..hi], 0, t) == LowerBound(points, 0, t) - lo
  {
    LowerBoundIs(points[lo..hi], 0, t, LowerBound(points, 0, t) - lo);
  }

  /** The heart of it: an edit by range keeps the cache right. */
  lemma IncrementalEditKeeps(rule: Rule, before: seq<Point>, after: seq<Point>, cached: Recorded, windowBefore: int, windowStart: int,
                             range: AnchorRange, first: int, lo: nat, hi: nat, found: seq<Violation>)
    requires ValidSample(rule) && Row(before) && Row(after) && CacheRight(rule, before, cached, windowBefore) && windowBefore <= windowStart
    requires Appended(before, after, windowStart, range)
    requires ShowsEnough(after, lo, hi, range, MaximumOffset(rule.terms)) && Row(after[lo..hi])
    requires ReachesBack(first, after[lo..hi], range.start, MaximumOffset(rule.terms))
    requires FoundIn(found, rule, after[lo..hi], first, range.end)
    ensures CacheRight(rule, after, Edited(cached, Some(range), windowStart, found, rule.id), windowStart)
  {
    hide MaximumOffset, ValidSample, Expected, Row, ShowsEnough, ReachesBack, FoundIn, Appended, LowerBound, Record;
    forall t: Timestamp | windowStart < t
      ensures At(Edited(cached, Some(range), windowStart, found, rule.id), t) == Expected(rule, after, t)
    {
      EditedAnchor(rule, before, after, cached, windowBefore, windowStart, range, first, lo, hi, found, t);
    }
  }

  lemma EditedAnchor(rule: Rule, before: seq<Point>, after: seq<Point>, cached: Recorded, windowBefore: int, windowStart: int,
                     range: AnchorRange, first: int, lo: nat, hi: nat, found: seq<Violation>, t: Timestamp)
    requires ValidSample(rule) && Row(before) && Row(after) && CacheRight(rule, before, cached, windowBefore) && windowBefore <= windowStart < t
    requires Appended(before, after, windowStart, range)
    requires ShowsEnough(after, lo, hi, range, MaximumOffset(rule.terms)) && Row(after[lo..hi])
    requires ReachesBack(first, after[lo..hi], range.start, MaximumOffset(rule.terms))
    requires FoundIn(found, rule, after[lo..hi], first, range.end)
    ensures At(Edited(cached, Some(range), windowStart, found, rule.id), t) == Expected(rule, after, t)
  {
    assert lo <= hi <= |after| && rule.terms != [];
    hide *;
    ClearedAt(cached, range, windowStart, t);
    RecordMeaning(Cleared(cached, Some(range), windowStart), found, rule, after[lo..hi], first, range.end, t);
    EditedIs(cached, Some(range), windowStart, found, rule.id);
    RangeOrdered(before, after, windowStart, range);
    FirstNotAfter(first, after[lo..hi], range.start, MaximumOffset(rule.terms));
    CachedAt(rule, before, cached, windowBefore, t);
    if range.end < t {
      NothingPast(rule, before, after, windowStart, range, t);
    } else if range.start <= t {
      LowerBoundMonotone(after, range.start, t);
      ShownAnchor(rule, after, lo, hi, range, t);
    } else {
      OldEdit(rule, before, after, windowStart, range, first, lo, hi, t);
    }
  }

  lemma ClearedAt(cached: Recorded, range: AnchorRange, windowStart: int, t: Timestamp)
    requires windowStart < t
    ensures At(Cleared(cached, Some(range), windowStart), t) == if range.start <= t <= range.end then None else At(cached, t)
  {
  }

  lemma EditedIs(cached: Recorded, range: Option<AnchorRange>, windowStart: int, found: seq<Violation>, id: string)
    ensures Edited(cached, range, windowStart, found, id) == Record(Cleared(cached, range, windowStart), found, id)
  {
    hide Record;
  }

  lemma CachedAt(rule: Rule, points: seq<Point>, cached: Recorded, windowStart: int, t: Timestamp)
    requires ValidSample(rule) && Row(points) && CacheRight(rule, points, cached, windowStart) && windowStart < t
    ensures At(cached, t) == Expected(rule, points, t)
  {
    hide Expected, Row, ValidSample, At;
  }

  lemma RangeOrdered(before: seq<Point>, after: seq<Point>, windowStart: int, range: AnchorRange)
    requires Appended(before, after, windowStart, range)
    ensures range.start <= range.end
  {
    hide LowerBound;
    var more: seq<Point> :| StrictlyIncreasing(before + more) && after == (before + more)[LowerBound(before + more, 0, windowStart)..]
                            && more != [] && forall i :: 0 <= i < |more| ==> range.start <= more[i].time <= range.end;
    assert range.start <= more[0].time;
  }

  lemma FirstNotAfter(first: int, points: seq<Point>, start: int, m: nat)
    requires ReachesBack(first, points, start, m)
    ensures first <= start
  {
  }

  lemma NothingPast(rule: Rule, before: seq<Point>, after: seq<Point>, windowStart: int, range: AnchorRange, t: Timestamp)
    requires ValidSample(rule) && Row(before) && Row(after) && Appended(before, after, windowStart, range) && range.end < t
    ensures Expected(rule, before, t).None? && Expected(rule, after, t).None?
  {
    hide LowerBound, ValidSample, Row, Expected;
    var more: seq<Point> :| StrictlyIncreasing(before + more) && after == (before + more)[LowerBound(before + more, 0, windowStart)..]
                            && more != [] && forall i :: 0 <= i < |more| ==> range.start <= more[i].time <= range.end;
    AllEarlier(before, more, range.end, t, LowerBound(before + more, 0, windowStart));
    NoneExpectedPast(rule, before, t);
    NoneExpectedPast(rule, after, t);
  }

  lemma AllEarlier(before: seq<Point>, more: seq<Point>, end: int, t: int, cut: nat)
    requires StrictlyIncreasing(before + more) && more != [] && more[|more| - 1].time <= end < t && cut <= |before + more|
    ensures forall i :: 0 <= i < |before| ==> before[i].time < t
    ensures forall i :: 0 <= i < |(before + more)[cut..]| ==> (before + more)[cut..][i].time < t
  {
    var all := before + more;
    var last := |all| - 1;
    assert all[last] == more[|more| - 1];
    assert forall i :: 0 <= i < |all| ==> all[i].time < t;
    assert forall i :: 0 <= i < |before| ==> before[i] == all[i];
  }

  lemma NoneExpectedPast(rule: Rule, points: seq<Point>, t: Timestamp)
    requires ValidSample(rule) && Row(points) && forall i :: 0 <= i < |points| ==> points[i].time < t
    ensures Expected(rule, points, t).None?
  {
    hide LowerBound, MaximumOffset, ViolationAt;
  }

  /** Before the range: what the cache keeps or the check overwrites is right. */
  lemma OldEdit(rule: Rule, before: seq<Point>, after: seq<Point>, windowStart: int, range: AnchorRange, first: int, lo: nat, hi: nat, t: Timestamp)
    requires ValidSample(rule) && Row(before) && Row(after) && Appended(before, after, windowStart, range)
    requires ShowsEnough(after, lo, hi, range, MaximumOffset(rule.terms)) && Row(after[lo..hi])
    requires ReachesBack(first, after[lo..hi], range.start, MaximumOffset(rule.terms))
    requires windowStart < t < range.start <= range.end
    ensures Expected(rule, after, t) ==
            if first <= t && Expected(rule, after[lo..hi], t).Some? then Expected(rule, after[lo..hi], t) else Expected(rule, before, t)
  {
    hide LowerBound, MaximumOffset, ValidSample, Row, ShowsEnough, ReachesBack, Expected;
    var more: seq<Point> :| StrictlyIncreasing(before + more) && after == (before + more)[LowerBound(before + more, 0, windowStart)..]
                            && more != [] && forall i :: 0 <= i < |more| ==> range.start <= more[i].time <= range.end;
    OldAnchor(rule, before, more, after, windowStart, range.start, t);
    EarlierAnchor(rule, after, lo, hi, range, t);
    if LowerBound(after, 0, t) + MaximumOffset(rule.terms) >= LowerBound(after, 0, range.start) {
      ShownAnchor(rule, after, lo, hi, range, t);
      if Expected(rule, after, t).Some? { CloseAnchor(rule, after, lo, hi, range, first, t); }
    }
  }

  lemma {:induction false} CloseAnchor(rule: Rule, row: seq<Point>, lo: nat, hi: nat, range: AnchorRange, first: int, t: Timestamp)
    requires ValidSample(rule) && Row(row) && ShowsEnough(row, lo, hi, range, MaximumOffset(rule.terms))
    requires ReachesBack(first, row[lo..hi], range.start, MaximumOffset(rule.terms))
    requires Expected(rule, row, t).Some? && LowerBound(row, 0, t) + MaximumOffset(rule.terms) >= LowerBound(row, 0, range.start)
    requires t < range.start <= range.end
    ensures first <= t
  {
    hide LowerBound, MaximumOffset, ValidSample, ShowsEnough, ReachesBack, ViolationAt;
    ReachedBack(row, lo, hi, range, MaximumOffset(rule.terms), first, t);
  }

  // ----- a full recheck, and a sequence the batch did not touch -----

  /** Starting over from a part of the row that holds everything after the window start. */
  lemma FullEditKeeps(rule: Rule, after: seq<Point>, cached: Recorded, windowStart: int, lo: nat, found: seq<Violation>)
    requires ValidSample(rule) && Row(after) && lo <= |after| && Row(after[lo..])
    requires forall i :: 0 <= i < lo ==> after[i].time <= windowStart
    requires FoundIn(found, rule, after[lo..], TIMESTAMP_MIN, TIMESTAMP_MAX)
    ensures CacheRight(rule, after, Edited(cached, None, windowStart, found, rule.id), windowStart)
  {
    hide MaximumOffset, ValidSample, Expected, FoundIn, LowerBound, Record, Numeric, StrictlyIncreasing;
    forall t: Timestamp | windowStart < t
      ensures At(Edited(cached, None, windowStart, found, rule.id), t) == Expected(rule, after, t)
    {
      RecordMeaning(map[], found, rule, after[lo..], TIMESTAMP_MIN, TIMESTAMP_MAX, t);
      LaterPlace(after, lo, windowStart, t);
      assert after[lo..] == after[lo..|after|];
      ExpectedInSlice(rule, after, lo, |after|, t);
    }
  }

  lemma LaterPlace(points: seq<Point>, lo: nat, windowStart: int, t: int)
    requires lo <= |points| && windowStart < t && forall i :: 0 <= i < lo ==> points[i].time <= windowStart
    ensures var k := LowerBound(points, 0, t); k < |points| && points[k].time == t ==> lo <= k
  {
    hide LowerBound;
  }

  /** Nothing in, nothing out: the cache stays right as the window moves on. */
  lemma UntouchedKeeps(rule: Rule, points: seq<Point>, cached: Recorded, windowBefore: int, windowStart: int)
    requires ValidSample(rule) && Row(points) && CacheRight(rule, points, cached, windowBefore) && windowBefore <= windowStart
    ensures CacheRight(rule, points, cached, windowStart)
  {
    hide Expected, Row, ValidSample;
  }

  /** A rule registered before its sequence has any data starts right. */
  lemma EmptyIsRight(rule: Rule, windowStart: int)
    requires ValidSample(rule) && Row([])
    ensures CacheRight(rule, [], map[], windowStart)
  {
    hide MaximumOffset;
  }

  // ----- what the group query shows -----

  /** With more points of context than the maximum offset, the excerpt of a
      live row shows enough. */
  lemma {:induction false} ContextShowsEnough(row: seq<Point>, range: AnchorRange, to: int, c: nat, m: nat)
    requires StrictlyIncreasing(row) && m < c && range.start <= range.end <= to
    ensures var a, b := LowerBound(row, 0, range.start), LowerBound(row, 0, to);
            var lo, hi := Max(a - c, 0), Min(b + c, |row|);
            0 <= lo <= hi <= |row| && Excerpt(row, range.start, to, c, c) == row[lo..hi] && ShowsEnough(row, lo, hi, range, m)
  {
    hide LowerBound;
    var a, b := LowerBound(row, 0, range.start), LowerBound(row, 0, to);
    LowerBoundMonotone(row, range.start, to);
    var hi := Min(b + c, |row|);
    forall k | 0 <= k < |row| && row[k].time <= range.end ensures k < hi && (k + m < |row| ==> k + m < hi) {
      PointAtOrBefore(row, k, to);
    }
  }

  lemma PointAtOrBefore(row: seq<Point>, k: nat, to: int)
    requires StrictlyIncreasing(row) && k < |row| && row[k].time <= to
    ensures k <= LowerBound(row, 0, to)
  {
    hide LowerBound;
    assert forall i :: 0 <= i < k ==> row[i].time < row[k].time;
  }

  // ----- what a ranged check of the rows finds -----

  /** The violations of a closed anchor range, as a set of cache entries. */
  lemma {:induction false} ViolationsAre(rule: Rule, points: seq<Point>, lo: nat, hi: nat, v: Violation)
    requires ValidSample(rule) && Row(points) && ResolvableOn(rule, points, lo, hi)
    requires hi + MaximumOffset(rule.terms) <= |points| || hi <= lo
    ensures v in ViolationsOn(rule, points, lo, hi) <==>
            var k := LowerBound(points, 0, v.anchor);
            lo <= k < hi && Expected(rule, points, v.anchor) == Some(v)
    decreases hi
  {
    hide MaximumOffset, LowerBound, ValidSample, ViolationAt, Row, Resolvable;
    if lo < hi {
      ViolationsAre(rule, points, lo, hi - 1, v);
      AnchorVerdict(rule, points, hi - 1);
      if LowerBound(points, 0, v.anchor) == hi - 1 { VerdictAnchor(rule, points, v); }
    }
  }

  lemma {:induction false} AnchorVerdict(rule: Rule, points: seq<Point>, k: nat)
    requires ValidSample(rule) && Row(points) && k + MaximumOffset(rule.terms) < |points|
    ensures Resolvable(rule.terms, points, k)
    ensures LowerBound(points, 0, points[k].time) == k && Expected(rule, points, points[k].time) == ViolationAt(rule, points, k)
  {
    hide MaximumOffset, ViolationAt;
    NumbersResolve(rule, points, k);
    LowerBoundIs(points, 0, points[k].time, k);
  }

  lemma VerdictAnchor(rule: Rule, points: seq<Point>, v: Violation)
    requires ValidSample(rule) && Row(points)
    ensures Expected(rule, points, v.anchor) == Some(v) ==>
              var k := LowerBound(points, 0, v.anchor); k < |points| && points[k].time == v.anchor
  {
    hide MaximumOffset, ViolationAt, LowerBound;
  }

  /** A check over the whole row, or over a range of it, finds exactly the
      expected violations. */
  lemma {:induction false} CheckFinds(rule: Rule, points: seq<Point>, range: Option<CheckRange>, v: Violation)
    requires ValidSample(rule) && Row(points)
    ensures var lo, hi := FirstAnchor(points, range), LastAnchor(points, MaximumOffset(rule.terms), range);
            && ResolvableOn(rule, points, lo, Max(0, hi))
            && (v in ViolationsOn(rule, points, lo, Max(0, hi)) <==>
                Expected(rule, points, v.anchor) == Some(v) && (range.Some? ==> range.value.start <= v.anchor <= range.value.end))
  {
    assert rule.terms != [] && rule.mapping != map[] && TermsSound(rule);
    hide MaximumOffset, ValidSample, ViolationAt, LowerBound, UpperBound;
    var lo, hi := FirstAnchor(points, range), LastAnchor(points, MaximumOffset(rule.terms), range);
    forall a | lo <= a < hi ensures Resolvable(rule.terms, points, a) { NumbersResolve(rule, points, a); }
    ViolationsAre(rule, points, lo, Max(0, hi), v);
    VerdictAnchor(rule, points, v);
    ExpectedPlace(rule, points, v);
    if range.Some? && LowerBound(points, 0, v.anchor) < |points| {
      RangePlaces(points, range.value, LowerBound(points, 0, v.anchor));
    }
  }

  lemma ExpectedPlace(rule: Rule, points: seq<Point>, v: Violation)
    requires ValidSample(rule) && Row(points)
    ensures Expected(rule, points, v.anchor) == Some(v) ==> LowerBound(points, 0, v.anchor) + MaximumOffset(rule.terms) < |points|
  {
    hide MaximumOffset, ViolationAt, LowerBound;
  }

  lemma RangePlaces(points: seq<Point>, range: CheckRange, k: nat)
    requires StrictlyIncreasing(points) && k < |points|
    ensures var lo := LowerBound(points, 0, range.start);
            lo <= k < UpperBound(points, lo, range.end) <==> range.start <= points[k].time <= range.end
  {
    hide LowerBound, UpperBound;
    var lo := LowerBound(points, 0, range.start);
    var up := UpperBound(points, lo, range.end);
    assert forall i :: lo <= i < |points| ==> lo < |points| && points[lo].time <= points[i].time;
    assert forall i :: up <= i < |points| ==> up < |points| && points[up].time <= points[i].time;
  }
}
