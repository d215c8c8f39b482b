/** Refreshing a derived series on the window service after an update. */
module DerivedRefreshes {
  import opened Timeline
  import opened WindowServices
  import opened WindowUpdates
  import opened DerivedPatches

  // ----- which range an update allows to be refreshed incrementally -----

  predicate Ready(update: WindowUpdate, id: SequenceId) {
    id in update.sequences && update.sequences[id].safe && update.sequences[id].start.Some? && update.sequences[id].end.Some?
  }

  ghost predicate ChangedIn(update: WindowUpdate, ids: seq<SequenceId>, id: SequenceId) {
    id in ids && id in update.changed
  }

  /** The affected range of the changed dependencies, pulled back to the window
      start when one of them lost points. */
  ghost predicate IsRange(r: RefreshRange, update: WindowUpdate, ids: seq<SequenceId>) {
    && (exists id :: ChangedIn(update, ids, id))
    && (forall id :: ChangedIn(update, ids, id) ==>
                       Ready(update, id) && r.start <= update.sequences[id].start.value && update.sequences[id].end.value <= r.end)
    && (exists id :: ChangedIn(update, ids, id) && update.sequences[id].end.value == r.end)
    && ((exists id :: ChangedIn(update, ids, id) && update.sequences[id].start.value == r.start)
        || (r.evicted && update.windowStart == Some(r.start)))
    && (r.evicted <==> exists id :: ChangedIn(update, ids, id) && update.sequences[id].evicted)
    && (r.evicted && update.windowStart.Some? ==> r.start <= update.windowStart.value)
  }

  /** The same before the window start is looked at. */
  ghost predicate IsPlainRange(r: RefreshRange, update: WindowUpdate, ids: seq<SequenceId>) {
    && (forall id :: ChangedIn(update, ids, id) ==>
                       Ready(update, id) && r.start <= update.sequences[id].start.value && update.sequences[id].end.value <= r.end)
    && (exists id :: ChangedIn(update, ids, id) && update.sequences[id].end.value == r.end)
    && (exists id :: ChangedIn(update, ids, id) && update.sequences[id].start.value == r.start)
    && (r.evicted <==> exists id :: ChangedIn(update, ids, id) && update.sequences[id].evicted)
  }

  ghost predicate RangeSoFar(r: Option<RefreshRange>, update: WindowUpdate, ids: seq<SequenceId>) {
    match r
    case None => forall id :: !ChangedIn(update, ids, id)
    case Some(range) => IsPlainRange(range, update, ids)
  }

  function Merge(range: Option<RefreshRange>, start: Timestamp, end: Timestamp, evicted: bool): RefreshRange {
    if range.None? then RefreshRange(start, end, evicted)
    else
      var r := range.value;
      RefreshRange(if start < r.start then start else r.start, if r.end < end then end else r.end, r.evicted || evicted)
  }

  lemma RangeStep(r: Option<RefreshRange>, update: WindowUpdate, ids: seq<SequenceId>, id: SequenceId)
    requires RangeSoFar(r, update, ids)
    ensures id !in update.changed ==> RangeSoFar(r, update, ids + [id])
    ensures id in update.changed && Ready(update, id) ==>
              var own := update.sequences[id];
              RangeSoFar(Some(Merge(r, own.start.value, own.end.value, own.evicted)), update, ids + [id])
  {
    var all := ids + [id];
    assert forall other :: ChangedIn(update, all, other) <==> ChangedIn(update, ids, other) || (other == id && id in update.changed);
    if id in update.changed && Ready(update, id) {
      assert ChangedIn(update, all, id);
      if r.Some? {
        var first :| ChangedIn(update, ids, first) && update.sequences[first].start.value == r.value.start;
        var last :| ChangedIn(update, ids, last) && update.sequences[last].end.value == r.value.end;
        assert ChangedIn(update, all, first) && ChangedIn(update, all, last);
      }
    }
  }

  lemma PulledBack(r: RefreshRange, update: WindowUpdate, ids: seq<SequenceId>)
    requires IsPlainRange(r, update, ids)
    ensures IsRange(if r.evicted && update.windowStart.Some? && update.windowStart.value < r.start then r.(start := update.windowStart.value) else r, update, ids)
  {
    var id :| ChangedIn(update, ids, id) && update.sequences[id].end.value == r.end;
  }

  /** Incremental refresh is refused exactly when a changed dependency is not
      safe, or nothing the formula uses has changed. */
  method IncrementalRangeFor(update: Option<WindowUpdate>, ids: seq<SequenceId>) returns (range: Option<RefreshRange>)
    ensures update.None? || ids == [] ==> range.None?
    ensures update.Some? && ids != [] && update.value.sequences == map[] ==>
              var u := update.value;
              && (range.Some? <==> u.safe && u.start.Some? && u.end.Some?)
              && (range.Some? ==> range.value.end == u.end.value && range.value.evicted == u.evicted
                                  && range.value.start == if u.evicted && u.windowStart.Some? && u.windowStart.value < u.start.value
                                                          then u.windowStart.value else u.start.value)
    ensures update.Some? && ids != [] && update.value.sequences != map[] ==>
              && (range.Some? <==> (exists id :: ChangedIn(update.value, ids, id))
                                   && forall id :: ChangedIn(update.value, ids, id) ==> Ready(update.value, id))
              && (range.Some? ==> IsRange(range.value, update.value, ids))
  {
    if update.None? || ids == [] { return None; }
    var u := update.value;
    if u.sequences == map[] {
      if !u.safe || u.start.None? || u.end.None? { return None; }
      var start := if u.evicted && u.windowStart.Some? && u.windowStart.value < u.start.value then u.windowStart.value else u.start.value;
      return Some(RefreshRange(start, u.end.value, u.evicted));
    }
    hide Ready;
    range := None;
    for i := 0 to |ids|
      invariant RangeSoFar(range, u, ids[..i])
    {
      hide RangeSoFar;
      assert ids[..i + 1] == ids[..i] + [ids[i]];
      RangeStep(range, u, ids[..i], ids[i]);
      if ids[i] in u.changed {
        if !Ready(u, ids[i]) {
          assert ChangedIn(u, ids, ids[i]);
          return None;
        }
        ReadyHasRange(u, ids[i]);
        var own := u.sequences[ids[i]];
        range := Some(Merge(range, own.start.value, own.end.value, own.evicted));
      }
    }
    assert ids[..|ids|] == ids;
    if range.Some? {
      PulledBack(range.value, u, ids);
      if range.value.evicted && u.windowStart.Some? && u.windowStart.value < range.value.start {
        range := Some(range.value.(start := u.windowStart.value));
      }
    }
  }

  lemma ReadyHasRange(update: WindowUpdate, id: SequenceId)
    requires Ready(update, id)
    ensures id in update.sequences && update.sequences[id].start.Some? && update.sequences[id].end.Some?
  {
  }
}
