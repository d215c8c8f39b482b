/** When a window reports that a batch only appended, told by the batches alone. */
module AppendReports {
  import opened Timeline
  import opened SequenceWindows

  /** After any run of operations from a new window: a batch in increasing order
      and beyond every instant written since the last replacement is reported as
      appending, and one that is reported so lies beyond all that is live. Unless
      a patch erased without writing, the report follows from the run exactly. */
  method ReportAfterRun(window: SequenceWindow, ops: seq<Operation>, batch: seq<Point>) returns (safe: bool)
    requires window.Valid() && window.Live() == map[] && window.latestTime == None
    requires forall i :: 0 <= i < |ops| ==> ops[i].Sound()
    modifies window
    ensures window.Valid() && window.Live() == MapAfter(ops, map[]) + AsMap(batch)
    ensures batch != [] && StrictlyIncreasing(batch) && (forall t :: t in Written(ops, {}) ==> t < batch[0].time) ==> safe
    ensures safe ==> batch != [] && StrictlyIncreasing(batch) && forall t :: t in MapAfter(ops, map[]) ==> t < batch[0].time
    ensures NoEmptyPatch(ops) ==> (safe <==> AppendsOnly(LatestAfter(ops, map[], None), batch))
  {
    hide SequenceWindow.Live, MapAfter, LatestAfter, Written, AsMap, SequenceWindow.Tracks, LastTime;
    assert AllWritten(None, map[], {});
    window.Run(ops);
    LatestBounds(window);
    safe := window.TakeBatch(batch);
  }

  lemma LatestBounds(window: SequenceWindow)
    requires window.Valid()
    ensures forall t :: t in window.Live() ==> window.latestTime.Some? && t <= window.latestTime.value
  {
    hide LiveMap;
    LatestBoundsLive(window.points, window.latePoints, window.activeBegin, window.latestTime);
  }

  ghost predicate OnlyUpdates(ops: seq<Operation>) {
    forall i :: 0 <= i < |ops| ==> ops[i].Update? || ops[i].Evict? || ops[i].Measure?
  }

  /** Every instant written since the window was last found empty. */
  ghost function SinceRefill(ops: seq<Operation>): set<Timestamp> {
    if ops == [] then {}
    else
      var front, op := ops[..|ops| - 1], ops[|ops| - 1];
      if !op.Update? || op.batch == [] then SinceRefill(front)
      else if MapAfter(front, map[]) == map[] then AsMap(op.batch).Keys
      else SinceRefill(front) + AsMap(op.batch).Keys
  }

  ghost predicate IsLatestOf(latest: Option<Timestamp>, written: set<Timestamp>) {
    && (latest.None? <==> written == {})
    && (latest.Some? ==> latest.value in written && forall t :: t in written ==> t <= latest.value)
  }

  /** Of raw data the latest time is the greatest instant written since the window was last empty. */
  lemma {:induction false} LatestSinceRefill(ops: seq<Operation>)
    requires OnlyUpdates(ops)
    ensures IsLatestOf(LatestAfter(ops, map[], None), SinceRefill(ops))
    ensures MapAfter(ops, map[]).Keys <= SinceRefill(ops) <= Written(ops, {})
    decreases |ops|
  {
    if ops != [] {
      var front, op := ops[..|ops| - 1], ops[|ops| - 1];
      LatestSinceRefill(front);
      if op.Update? { LastWrite(op.batch, MapAfter(front, map[]), LatestAfter(front, map[], None), SinceRefill(front)); }
    }
  }

  lemma LastWrite(batch: seq<Point>, m: Series, latest: Option<Timestamp>, written: set<Timestamp>)
    requires IsLatestOf(latest, written)
    ensures IsLatestOf(Update(batch).LatestOn(m, latest),
                       if batch == [] then written else if m == map[] then AsMap(batch).Keys else written + AsMap(batch).Keys)
  {
    hide AsMap;
    AsMapNil([]);
    if batch != [] { ListedTime(batch); }
    LastTimeHeld(AsMap(batch));
  }

  ghost predicate Beyond(batch: seq<Point>, written: set<Timestamp>) {
    batch != [] && StrictlyIncreasing(batch) && forall t :: t in written ==> t < batch[0].time
  }

  /** Some instant of `recent` is as late as any of `all`. */
  ghost predicate AsLateAsAll(recent: set<Timestamp>, all: set<Timestamp>) {
    forall t :: t in all ==> exists u :: u in recent && t <= u
  }

  /** The report means "beyond everything ever written" exactly when something
      written since the window was last empty is as late as anything before. */
  lemma {:induction false} ReportsBeyondAllExactly(ops: seq<Operation>)
    requires OnlyUpdates(ops)
    ensures (forall batch :: AppendsOnly(LatestAfter(ops, map[], None), batch) <==> Beyond(batch, Written(ops, {})))
            <==> AsLateAsAll(SinceRefill(ops), Written(ops, {}))
  {
    hide *;
    LatestSinceRefill(ops);
    var latest, all, recent := LatestAfter(ops, map[], None), Written(ops, {}), SinceRefill(ops);
    if AsLateAsAll(recent, all) {
      forall batch ensures AppendsOnly(latest, batch) <==> Beyond(batch, all) { SameReport(latest, all, recent, batch); }
    } else {
      Misreported(latest, all, recent);
    }
  }

  lemma SameReport(latest: Option<Timestamp>, all: set<Timestamp>, recent: set<Timestamp>, batch: seq<Point>)
    requires IsLatestOf(latest, recent) && recent <= all && AsLateAsAll(recent, all)
    ensures AppendsOnly(latest, batch) <==> Beyond(batch, all)
  {
    hide StrictlyIncreasing;
    if latest.Some? { assert latest.value in all; }
    forall t | t in all ensures latest.Some? && t <= latest.value { var u :| u in recent && t <= u; }
    hide AsLateAsAll;
  }

  lemma Misreported(latest: Option<Timestamp>, all: set<Timestamp>, recent: set<Timestamp>)
    requires IsLatestOf(latest, recent) && !AsLateAsAll(recent, all)
    ensures exists batch :: AppendsOnly(latest, batch) && !Beyond(batch, all)
  {
    var t :| t in all && forall u :: u in recent ==> u < t;
    var batch := [Point(t, NonNumeric)];
    assert batch[0].time == t;
    assert AppendsOnly(latest, batch) && !Beyond(batch, all);
  }

  /** Once everything was evicted the window forgets what it had seen: after 10 was
      written and evicted, and 5 written, a batch at 7 is reported as appending. */
  lemma EvictionIsForgotten()
    ensures var ops := [Update([Point(10, Number(1.0))]), Evict(20), Update([Point(5, Number(1.0))])];
            && 10 in Written(ops, {}) && SinceRefill(ops) == {5}
            && LatestAfter(ops, map[], None) == Some(5) && AppendsOnly(LatestAfter(ops, map[], None), [Point(7, Number(1.0))])
  {
    var a, b := [Point(10, Number(1.0))], [Point(5, Number(1.0))];
    var ops := [Update(a), Evict(20), Update(b)];
    assert AsMap(a) == map[10 := Number(1.0)] && AsMap(b) == map[5 := Number(1.0)] by {
      assert a[..0] == [] && b[..0] == [];
    }
    hide AsMap;
    LastTimeIs(AsMap(a), 10);
    LastTimeIs(AsMap(b), 5);
    assert ops[..2] == [Update(a), Evict(20)] && ops[..2][..1] == [Update(a)] && ops[..2][..1][..0] == [];
    assert ops[..1] == [Update(a)];
    assert MapAfter(ops[..1], map[]) == AsMap(a) && Written(ops[..1], {}) == {10};
    assert MapAfter(ops[..2], map[]) == map[] && Written(ops[..2], {}) == {10};
  }
}
