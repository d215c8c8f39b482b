/** Where a sequence's points go: one cold writer, in admission order, and hot
    updates that only append when the points arrive in time order. */
module IngestStreams {
  import opened Timeline
  import opened WindowServices
  import opened SequenceWindows
  import opened IngestProtocol
  import opened IngestInvariant
  import opened IngestTheorems

  /** The share of a batch that belongs to one routing key. */
  ghost function PointsAt(project: string, points: seq<RawPoint>, k: Key): (r: seq<Point>) {
    if points == [] then []
    else
      var p := points[|points| - 1];
      PointsAt(project, points[..|points| - 1], k)
      + if RoutingKey(project, p.sequence) == k then [Point(p.time, p.value)] else []
  }

  lemma RoutingKeyInjective(project: string, a: SequenceId, b: SequenceId)
    requires RoutingKey(project, a) == RoutingKey(project, b)
    ensures a == b
  {
    var n := |project| + 1;
    assert RoutingKey(project, a)[n..] == a && RoutingKey(project, b)[n..] == b;
  }

  lemma PointsAtAppend(project: string, points: seq<RawPoint>, p: RawPoint, k: Key)
    ensures PointsAt(project, points + [p], k) ==
            PointsAt(project, points, k) + if RoutingKey(project, p.sequence) == k then [Point(p.time, p.value)] else []
  {
    hide RoutingKey;
    assert (points + [p])[..|points|] == points;
  }

  /** A routing key's share is the sequence's share. */
  lemma {:induction false} PointsAtIsPointsOf(project: string, points: seq<RawPoint>, id: SequenceId)
    ensures PointsAt(project, points, RoutingKey(project, id)) == PointsOf(points, id)
    decreases |points|
  {
    if points != [] {
      var p := points[|points| - 1];
      PointsAtIsPointsOf(project, points[..|points| - 1], id);
      if RoutingKey(project, p.sequence) == RoutingKey(project, id) { RoutingKeyInjective(project, p.sequence, id); }
    }
  }

  // ----- shards -----

  ghost predicate AllRouted(project: string, points: seq<RawPoint>, writers: map<Key, nat>) {
    forall i :: 0 <= i < |points| ==> RoutingKey(project, points[i].sequence) in writers
  }

  /** A sequence's points all land in its writer's shard, in batch order, and nowhere else. */
  lemma {:induction false} ShardKeepsSequence(project: string, points: seq<RawPoint>, writers: map<Key, nat>, w: nat, k: Key)
    requires k in writers
    ensures PointsAt(project, Shard(project, points, writers, w), k) ==
            if writers[k] == w then PointsAt(project, points, k) else []
    decreases |points|
  {
    if points != [] {
      var front, p := points[..|points| - 1], points[|points| - 1];
      ShardKeepsSequence(project, front, writers, w, k);
      var r := Shard(project, front, writers, w);
      if RoutingKey(project, p.sequence) in writers && writers[RoutingKey(project, p.sequence)] == w {
        PointsAtAppend(project, r, p, k);
      } else {
        assert r + [] == r;
        assert PointsAt(project, front, k) + [] == PointsAt(project, front, k);
      }
    }
  }

  /** The shards of writers below `n` taken together. */
  ghost function ShardsBelow(project: string, points: seq<RawPoint>, writers: map<Key, nat>, n: nat): multiset<RawPoint> {
    if n == 0 then multiset{}
    else ShardsBelow(project, points, writers, n - 1) + multiset(Shard(project, points, writers, n - 1))
  }

  lemma {:induction false} ShardsOfOneMore(project: string, points: seq<RawPoint>, writers: map<Key, nat>, n: nat)
    requires points != []
    ensures var front, p := points[..|points| - 1], points[|points| - 1];
            var k := RoutingKey(project, p.sequence);
            ShardsBelow(project, points, writers, n) ==
            ShardsBelow(project, front, writers, n) + if k in writers && writers[k] < n then multiset{p} else multiset{}
  {
    hide RoutingKey, Shard;
    if n > 0 {
      ShardsOfOneMore(project, points, writers, n - 1);
      ShardOfOneMore(project, points, writers, n - 1);
    }
  }

  lemma ShardOfOneMore(project: string, points: seq<RawPoint>, writers: map<Key, nat>, w: nat)
    requires points != []
    ensures var front, p := points[..|points| - 1], points[|points| - 1];
            var k := RoutingKey(project, p.sequence);
            multiset(Shard(project, points, writers, w)) ==
            multiset(Shard(project, front, writers, w)) + if k in writers && writers[k] == w then multiset{p} else multiset{}
  {
    hide RoutingKey;
  }

  /** The cold shards of a batch partition its points. */
  lemma {:induction false} ShardsPartition(project: string, points: seq<RawPoint>, writers: map<Key, nat>, n: nat)
    requires AllRouted(project, points, writers)
    requires forall k :: k in writers ==> writers[k] < n
    ensures ShardsBelow(project, points, writers, n) == multiset(points)
    decreases |points|
  {
    hide ShardsBelow, RoutingKey;
    if points == [] {
      EmptyShards(project, points, writers, n);
    } else {
      var front, p := points[..|points| - 1], points[|points| - 1];
      assert AllRouted(project, front, writers);
      ShardsPartition(project, front, writers, n);
      ShardsOfOneMore(project, points, writers, n);
      assert points == front + [p];
    }
  }

  lemma {:induction false} EmptyShards(project: string, points: seq<RawPoint>, writers: map<Key, nat>, n: nat)
    requires points == []
    ensures ShardsBelow(project, points, writers, n) == multiset{}
  {
    if n > 0 { EmptyShards(project, points, writers, n - 1); }
  }

  lemma {:induction false} ShardStable(project: string, points: seq<RawPoint>, writers: map<Key, nat>, k: Key, n: nat, w: nat)
    requires k !in writers && AllRouted(project, points, writers)
    ensures Shard(project, points, writers[k := n], w) == Shard(project, points, writers, w)
    decreases |points|
  {
    if points != [] {
      assert RoutingKey(project, points[|points| - 1].sequence) in writers;
      ShardStable(project, points[..|points| - 1], writers, k, n, w);
    }
  }

  /** Every admitted task carries the shards its routed keys dictate. */
  ghost predicate ShardInv(s: State) {
    forall t :: 0 <= t < |s.tasks| ==> TaskSharded(s, s.tasks[t])
  }

  ghost predicate TaskSharded(s: State, k: Task) {
    && AllRouted(k.project, k.points, s.writers)
    && |k.shards| == s.coldCount && |k.lanes| == s.coldCount + 1
    && (forall w :: 0 <= w < s.coldCount ==>
                      k.shards[w] == Shard(k.project, k.points, s.writers, w) && (k.lanes[w] == Unneeded <==> k.shards[w] == []))
    && (forall q :: q in k.keys <==> PointsAt(k.project, k.points, q) != [])
  }

  lemma {:induction false} PointsAtKeys(project: string, points: seq<RawPoint>, k: Key)
    ensures PointsAt(project, points, k) != [] <==> exists i :: 0 <= i < |points| && k == RoutingKey(project, points[i].sequence)
    decreases |points|
  {
    if points != [] {
      var front := points[..|points| - 1];
      PointsAtKeys(project, front, k);
      if i :| 0 <= i < |front| && k == RoutingKey(project, front[i].sequence) { assert points[i] == front[i]; }
      if i :| 0 <= i < |points| && k == RoutingKey(project, points[i].sequence) && i < |front| { assert points[i] == front[i]; }
    }
  }

  ghost predicate SameBatches(a: seq<Task>, b: seq<Task>) {
    && |a| == |b|
    && forall t :: 0 <= t < |a| ==>
                     && a[t].project == b[t].project && a[t].points == b[t].points && a[t].keys == b[t].keys
                     && a[t].shards == b[t].shards && |a[t].lanes| == |b[t].lanes|
                     && forall l :: 0 <= l < |a[t].lanes| ==> (a[t].lanes[l] == Unneeded <==> b[t].lanes[l] == Unneeded)
  }

  lemma SameAfterUpdate(tasks: seq<Task>, t: nat, k: Task)
    requires t < |tasks|
    requires k.project == tasks[t].project && k.points == tasks[t].points && k.keys == tasks[t].keys && k.shards == tasks[t].shards
    requires |k.lanes| == |tasks[t].lanes| && forall l :: 0 <= l < |k.lanes| ==> (k.lanes[l] == Unneeded <==> tasks[t].lanes[l] == Unneeded)
    ensures SameBatches(tasks, tasks[t := k])
  {
  }

  lemma {:induction false} UpdateKeepsBatches(s: State, w: nat)
    ensures CanBegin(s, w) ==> SameBatches(s.tasks, Begin(s, w).tasks)
    ensures CanEndWork(s, w) ==> SameBatches(s.tasks, EndWork(s, w).tasks)
    ensures CanComplete(s, w) ==> SameBatches(s.tasks, Complete(s, w).tasks)
    ensures CanRelease(s, w) ==> SameBatches(s.tasks, Release(s, w).tasks)
    ensures SameBatches(s.tasks, s.tasks)
  {
    if CanBegin(s, w) {
      SameAfterUpdate(s.tasks, s.workers[w].task, s.tasks[s.workers[w].task].(begun := true));
    } else if CanEndWork(s, w) {
      SameAfterUpdate(s.tasks, s.workers[w].task, s.tasks[s.workers[w].task].(ordered := true));
    } else if CanComplete(s, w) {
      var k := s.tasks[s.workers[w].task];
      SameAfterUpdate(s.tasks, s.workers[w].task, k.(completions := k.completions + 1, stage := ReleasingBy(w)));
    } else if CanRelease(s, w) {
      SameAfterUpdate(s.tasks, s.workers[w].task, s.tasks[s.workers[w].task].(stage := Released));
    }
  }

  lemma WorkerKeepsRouting(s: State, s': State, w: nat)
    requires WorkerStep(s, s', w)
    ensures s'.writers == s.writers && s'.coldCount == s.coldCount
  {
  }

  lemma WorkerKeepsBatches(s: State, s': State, w: nat)
    requires s.Shape() && LaneInv(s) && QueueInv(s) && WorkerStep(s, s', w)
    ensures SameBatches(s.tasks, s'.tasks) && s'.writers == s.writers && s'.coldCount == s.coldCount
  {
    hide Needing, QueueInv, LaneInv, SameBatches, State.Shape, Take, Begin, EndWork, Close, Complete, Release, CanBegin, CanEndWork, CanClose, CanComplete, CanRelease, CanAwait, CanExit;
    WorkerKeepsRouting(s, s', w);
    UpdateKeepsBatches(s, w);
    if CanTake(s, w) && s.LaneOf(w) < |s.taken| { TakeKeepsBatches(s, w); }
    if CanClose(s, w) { CloseKeepsBatches(s, w); }
  }

  lemma {:induction false} TakeKeepsBatches(s: State, w: nat)
    requires s.Shape() && LaneInv(s) && QueueInv(s) && CanTake(s, w) && s.LaneOf(w) < |s.taken|
    ensures SameBatches(s.tasks, Take(s, w).tasks)
  {
    hide Needing;
    var l := s.LaneOf(w);
    assert s.queues[l][0] in s.queues[l];
    QueuedExists(s, l, s.queues[l][0]);
  }

  lemma {:induction false} CloseKeepsBatches(s: State, w: nat)
    requires s.Shape() && LaneInv(s) && CanClose(s, w)
    ensures SameBatches(s.tasks, Close(s, w).tasks)
  {
    assert WorkerOwns(s, w);
  }

  lemma StepKeepsShards(s: State, e: Event, s': State)
    requires Inv(s) && ShardInv(s) && Step(s, e, s')
    ensures ShardInv(s')
  {
    hide Inv, WorkerStep, Predecessors, TailsAfter, CountQueued, Shard, PointsAt;
    match e
    case Routed(k) =>
      if k !in s.writers {
        forall t | 0 <= t < |s'.tasks| ensures TaskSharded(s', s'.tasks[t]) {
          var task := s.tasks[t];
          assert TaskSharded(s, task);
          forall w | 0 <= w < s.coldCount ensures Shard(task.project, task.points, s'.writers, w) == task.shards[w] {
            ShardStable(task.project, task.points, s.writers, k, s.nextWriter, w);
          }
        }
      }
    case Submitted(project, points, keys) =>
      if Admissible(s) {
        forall t | 0 <= t < |s'.tasks| ensures TaskSharded(s', s'.tasks[t]) {
          if t < |s.tasks| {
            assert TaskSharded(s, s.tasks[t]);
          } else {
            forall q ensures q in keys <==> PointsAt(project, points, q) != [] { PointsAtKeys(project, points, q); }
          }
        }
      }
    case Stopped =>
      forall t | 0 <= t < |s'.tasks| ensures TaskSharded(s', s'.tasks[t]) { assert TaskSharded(s, s.tasks[t]); }
    case Worked(w) =>
      WorkerKeepsBatches(s, s', w) by { assert Inv(s); InvParts(s); }
      forall t | 0 <= t < |s'.tasks| ensures TaskSharded(s', s'.tasks[t]) { assert TaskSharded(s, s.tasks[t]); }
  }

  lemma InvParts(s: State)
    requires Inv(s)
    ensures s.Shape() && LaneInv(s) && QueueInv(s)
  {
  }

  lemma {:induction false} RunKeepsShards(states: seq<State>, events: seq<Event>, i: nat)
    requires IsRun(states, events) && i < |states|
    ensures ShardInv(states[i])
  {
    hide Inv, Step, TaskSharded;
    if i > 0 {
      RunKeepsShards(states, events, i - 1);
      RunKeeps(states, events, i - 1);
      StepKeepsShards(states[i - 1], events[i - 1], states[i]);
    }
  }

  // ----- the cold stream of one sequence -----

  /** A sequence's points in the shards that tasks of a list hand to writer `w`. */
  ghost function ColdStream(tasks: seq<Task>, list: seq<nat>, w: nat, k: Key): (r: seq<Point>) {
    if list == [] then []
    else
      var t := list[|list| - 1];
      ColdStream(tasks, list[..|list| - 1], w, k) + ColdShare(tasks, t, w, k)
  }

  ghost function ColdShare(tasks: seq<Task>, t: nat, w: nat, k: Key): seq<Point> {
    if t < |tasks| && w < |tasks[t].shards| then PointsAt(tasks[t].project, tasks[t].shards[w], k) else []
  }

  /** A sequence's points over all admitted batches, in admission order. */
  ghost function AdmittedStream(tasks: seq<Task>, k: Key): (r: seq<Point>) {
    if tasks == [] then []
    else
      var task := tasks[|tasks| - 1];
      AdmittedStream(tasks[..|tasks| - 1], k) + PointsAt(task.project, task.points, k)
  }

  lemma {:induction false} ColdStreamConcat(tasks: seq<Task>, a: seq<nat>, b: seq<nat>, w: nat, k: Key)
    ensures ColdStream(tasks, a + b, w, k) == ColdStream(tasks, a, w, k) + ColdStream(tasks, b, w, k)
    decreases |b|
  {
    hide ColdStream, ColdShare;
    if b == [] {
      assert a + b == a;
      ColdStreamNil(tasks, w, k);
    } else {
      var front, last := b[..|b| - 1], b[|b| - 1];
      ColdStreamConcat(tasks, a, front, w, k);
      OneMoreShare(tasks, front, last, w, k);
      OneMoreShare(tasks, a + front, last, w, k);
      assert b == front + [last] && a + b == (a + front) + [last];
    }
  }

  lemma OneMoreShare(tasks: seq<Task>, list: seq<nat>, t: nat, w: nat, k: Key)
    ensures ColdStream(tasks, list + [t], w, k) == ColdStream(tasks, list, w, k) + ColdShare(tasks, t, w, k)
  {
    hide ColdShare;
    assert (list + [t])[..|list|] == list;
  }

  lemma ColdStreamNil(tasks: seq<Task>, w: nat, k: Key)
    ensures ColdStream(tasks, [], w, k) == []
  {
  }

  lemma ColdStreamStep(tasks: seq<Task>, list: seq<nat>, t: nat, w: nat, k: Key)
    requires t < |tasks| && w < |tasks[t].shards|
    ensures ColdStream(tasks, list + [t], w, k) == ColdStream(tasks, list, w, k) + PointsAt(tasks[t].project, tasks[t].shards[w], k)
  {
    assert (list + [t])[..|list|] == list;
  }

  lemma {:induction false} OneShare(s: State, t: nat, w: nat, k: Key)
    requires ShardInv(s) && t < |s.tasks| && w < s.coldCount && k in s.writers && s.writers[k] == w
    ensures w < |s.tasks[t].shards| && w < |s.tasks[t].lanes|
    ensures PointsAt(s.tasks[t].project, s.tasks[t].shards[w], k) == PointsAt(s.tasks[t].project, s.tasks[t].points, k)
    ensures s.tasks[t].lanes[w] == Unneeded ==> PointsAt(s.tasks[t].project, s.tasks[t].points, k) == []
  {
    hide Shard;
    assert TaskSharded(s, s.tasks[t]);
    ShardKeepsSequence(s.tasks[t].project, s.tasks[t].points, s.writers, w, k);
  }

  lemma {:induction false} ColdStreamOfNeeding(s: State, n: nat, w: nat, k: Key)
    requires ShardInv(s) && n <= |s.tasks| && w < s.coldCount && k in s.writers && s.writers[k] == w
    ensures ColdStream(s.tasks, Needing(s.tasks[..n], w), w, k) == AdmittedStream(s.tasks[..n], k)
    decreases n
  {
    hide TaskSharded, PointsAt, Shard, ColdStream;
    forall t | 0 <= t < |s.tasks| ensures w < |s.tasks[t].lanes| { OneShare(s, t, w, k); }
    if n == 0 {
      ColdStreamNil(s.tasks, w, k);
    } else {
      var front, t := s.tasks[..n - 1], s.tasks[n - 1];
      assert s.tasks[..n][..n - 1] == front && s.tasks[..n][n - 1] == t;
      ColdStreamOfNeeding(s, n - 1, w, k);
      OneShare(s, n - 1, w, k);
      ColdStreamStep(s.tasks, Needing(front, w), n - 1, w, k);
      assert Needing(front, w) + [] == Needing(front, w);
      assert AdmittedStream(front, k) + [] == AdmittedStream(front, k);
    }
  }

  /** What a sequence's one writer has been handed so far is a prefix of the
      sequence's points in admission order, and its queue holds the rest. */
  lemma ColdWritesFollowAdmission(s: State, k: Key)
    requires Inv(s) && ShardInv(s) && k in s.writers
    ensures var w := s.writers[k];
            w < s.coldCount && ColdStream(s.tasks, s.taken[w], w, k) + ColdStream(s.tasks, s.queues[w], w, k)
                               == AdmittedStream(s.tasks, k)
  {
    hide ShardInv, LaneInv, CountInv, PendingInv, DependencyInv, OrderInv, LogInv, Needing;
    var w := s.writers[k];
    assert s.tasks[..|s.tasks|] == s.tasks;
    ColdStreamOfNeeding(s, |s.tasks|, w, k);
    ColdStreamConcat(s.tasks, s.taken[w], s.queues[w], w, k);
  }

  // ----- hot updates that only append -----

  /** Batches that each start after everything before them. */
  ghost predicate AppendChain(latest: Option<Timestamp>, batches: seq<seq<Point>>)
    decreases |batches|
  {
    batches == []
    || (AppendsOnly(latest, batches[0]) && AppendChain(Some(batches[0][|batches[0]| - 1].time), batches[1..]))
  }

  ghost function Joined(batches: seq<seq<Point>>): seq<Point> {
    if batches == [] then [] else batches[0] + Joined(batches[1..])
  }

  lemma {:induction false} IncreasingChain(latest: Option<Timestamp>, batches: seq<seq<Point>>)
    requires StrictlyIncreasing(Joined(batches)) && forall i :: 0 <= i < |batches| ==> batches[i] != []
    requires latest.None? || Joined(batches) == [] || latest.value < Joined(batches)[0].time
    ensures AppendChain(latest, batches)
    decreases |batches|
  {
    if batches != [] {
      var head, rest := batches[0], Joined(batches[1..]);
      var all := head + rest;
      assert forall i :: 0 <= i < |head| ==> all[i] == head[i];
      assert forall i :: 0 <= i < |rest| ==> all[|head| + i] == rest[i];
      assert StrictlyIncreasing(head) && StrictlyIncreasing(rest);
      IncreasingChain(Some(head[|head| - 1].time), batches[1..]);
    }
  }

  /** The shares of one key that a list of tasks brings, in list order. */
  ghost function Shares(tasks: seq<Task>, list: seq<nat>, k: Key): (r: seq<seq<Point>>)
    requires forall i :: 0 <= i < |list| ==> list[i] < |tasks|
  {
    if list == [] then []
    else Shares(tasks, list[..|list| - 1], k) + [PointsAt(tasks[list[|list| - 1]].project, tasks[list[|list| - 1]].points, k)]
  }

  lemma {:induction false} JoinedAppend(batches: seq<seq<Point>>, last: seq<Point>)
    ensures Joined(batches + [last]) == Joined(batches) + last
    decreases |batches|
  {
    if batches == [] {
      assert (batches + [last])[1..] == [];
    } else {
      JoinedAppend(batches[1..], last);
      assert (batches + [last])[1..] == batches[1..] + [last];
      assert batches[0] + (Joined(batches[1..]) + last) == batches[0] + Joined(batches[1..]) + last;
    }
  }

  lemma SharesStep(tasks: seq<Task>, list: seq<nat>, t: nat, k: Key)
    requires t < |tasks| && forall i :: 0 <= i < |list| ==> list[i] < |tasks|
    ensures Shares(tasks, list + [t], k) == Shares(tasks, list, k) + [PointsAt(tasks[t].project, tasks[t].points, k)]
  {
    assert (list + [t])[..|list|] == list;
  }

  lemma {:induction false} SharesOfAdmitted(s: State, n: nat, k: Key)
    requires ShardInv(s) && n <= |s.tasks|
    ensures forall i :: 0 <= i < |Admitted(s.tasks[..n], k)| ==> Admitted(s.tasks[..n], k)[i] < |s.tasks|
    ensures Joined(Shares(s.tasks, Admitted(s.tasks[..n], k), k)) == AdmittedStream(s.tasks[..n], k)
    decreases n
  {
    hide TaskSharded, PointsAt, Joined, Shares;
    if n == 0 {
      assert Admitted([], k) == [];
      assert Joined(Shares(s.tasks, [], k)) == [] by { NothingJoined(s.tasks, k); }
    } else {
      var t := s.tasks[n - 1];
      assert s.tasks[..n][..n - 1] == s.tasks[..n - 1];
      SharesOfAdmitted(s, n - 1, k);
      var list := Admitted(s.tasks[..n - 1], k);
      KeyHasPoints(s, n - 1, k);
      assert AdmittedStream(s.tasks[..n - 1], k) + [] == AdmittedStream(s.tasks[..n - 1], k) && list + [] == list;
      if k in t.keys {
        SharesStep(s.tasks, list, n - 1, k);
        JoinedAppend(Shares(s.tasks, list, k), PointsAt(t.project, t.points, k));
      }
    }
  }

  lemma NothingJoined(tasks: seq<Task>, k: Key)
    ensures Joined(Shares(tasks, [], k)) == []
  {
  }

  lemma KeyHasPoints(s: State, t: nat, k: Key)
    requires ShardInv(s) && t < |s.tasks|
    ensures k in s.tasks[t].keys <==> PointsAt(s.tasks[t].project, s.tasks[t].points, k) != []
  {
    assert TaskSharded(s, s.tasks[t]);
  }

  lemma {:induction false} JoinedPrefix(tasks: seq<Task>, part: seq<nat>, whole: seq<nat>, k: Key)
    requires forall i :: 0 <= i < |whole| ==> whole[i] < |tasks|
    requires part <= whole
    ensures Joined(Shares(tasks, part, k)) <= Joined(Shares(tasks, whole, k))
    decreases |whole|
  {
    if part != whole {
      var front, t := whole[..|whole| - 1], tasks[whole[|whole| - 1]];
      JoinedPrefix(tasks, part, front, k);
      JoinedAppend(Shares(tasks, front, k), PointsAt(t.project, t.points, k));
    }
  }

  lemma {:induction false} SharesNonEmpty(s: State, list: seq<nat>, k: Key)
    requires ShardInv(s) && forall i :: 0 <= i < |list| ==> list[i] < |s.tasks| && k in s.tasks[list[i]].keys
    ensures forall i :: 0 <= i < |Shares(s.tasks, list, k)| ==> Shares(s.tasks, list, k)[i] != []
    decreases |list|
  {
    if list != [] {
      SharesNonEmpty(s, list[..|list| - 1], k);
      assert TaskSharded(s, s.tasks[list[|list| - 1]]);
    }
  }

  /** If a sequence's points have strictly increasing times in admission order,
      then under any schedule of any number of hot workers each of its hot
      updates starts after everything the earlier ones brought. */
  lemma OrderedSequencesOnlyAppend(s: State, k: Key)
    requires Inv(s) && ShardInv(s) && StrictlyIncreasing(AdmittedStream(s.tasks, k))
    ensures forall i :: 0 <= i < |OnKey(s.tasks, s.begunLog, k)| ==> OnKey(s.tasks, s.begunLog, k)[i] < |s.tasks|
    ensures AppendChain(None, Shares(s.tasks, OnKey(s.tasks, s.begunLog, k), k))
  {
    hide Inv, ShardInv, AppendsOnly;
    var part, whole := OnKey(s.tasks, s.begunLog, k), Admitted(s.tasks, k);
    HotUpdatesFollowAdmission(s, k);
    assert s.tasks[..|s.tasks|] == s.tasks;
    SharesOfAdmitted(s, |s.tasks|, k);
    forall i | 0 <= i < |part| ensures part[i] < |s.tasks| && k in s.tasks[part[i]].keys {
      AdmittedMember(s.tasks, k, part[i]);
      assert part[i] == whole[i];
    }
    JoinedPrefix(s.tasks, part, whole, k);
    SharesNonEmpty(s, part, k);
    IncreasingChain(None, Shares(s.tasks, part, k));
  }

  /** On the window itself: such a chain of updates, with evictions in between,
      takes the append branch and reports incremental safety every time. */
  method ReplayUpdates(window: SequenceWindow, batches: seq<seq<Point>>, starts: seq<Timestamp>) returns (safe: seq<bool>)
    requires window.Valid() && AppendChain(window.latestTime, batches) && |starts| == |batches|
    modifies window
    ensures window.Valid() && |safe| == |batches| && forall i :: 0 <= i < |safe| ==> safe[i]
  {
    hide *;
    safe := [];
    assert batches[0..] == batches;
    for k := 0 to |batches|
      invariant window.Valid() && |safe| == k && forall i :: 0 <= i < k ==> safe[i]
      invariant AppendChain(window.latestTime, batches[k..])
    {
      ChainHead(window.latestTime, batches, k);
      var increasing := ArrivedIncreasing(batches[k]);
      var isSafe := window.UpdateSequence(batches[k], increasing);
      var _ := window.Prune(starts[k]);
      safe := safe + [isSafe];
    }
  }

  lemma ChainHead(latest: Option<Timestamp>, batches: seq<seq<Point>>, k: nat)
    requires k < |batches| && AppendChain(latest, batches[k..])
    ensures batches[k] != [] && StrictlyIncreasing(batches[k]) && (latest.None? || batches[k][0].time > latest.value)
    ensures AppendChain(Some(batches[k][|batches[k]| - 1].time), batches[k + 1..])
  {
    hide StrictlyIncreasing;
    assert batches[k..][0] == batches[k] && batches[k..][1..] == batches[k + 1..];
  }

  /** A sequence's shares in the hot updates begun so far, in the order they began. */
  ghost function BegunShares(states: seq<State>, events: seq<Event>, i: nat, k: Key): seq<seq<Point>>
    requires IsRun(states, events) && i < |states| && StrictlyIncreasing(AdmittedStream(states[i].tasks, k))
  {
    RunKeeps(states, events, i);
    RunKeepsShards(states, events, i);
    OrderedSequencesOnlyAppend(states[i], k);
    Shares(states[i].tasks, OnKey(states[i].tasks, states[i].begunLog, k), k)
  }

  /** Executor and window together: in every state of every run, a sequence whose
      points increase in admission order has its hot updates applied to its
      window as appends, each reporting incremental safety. */
  method EveryScheduleOnlyAppends(ghost states: seq<State>, ghost events: seq<Event>, ghost i: nat, ghost k: Key,
                                  batches: seq<seq<Point>>, starts: seq<Timestamp>)
    returns (window: SequenceWindow, safe: seq<bool>)
    requires IsRun(states, events) && i < |states| && StrictlyIncreasing(AdmittedStream(states[i].tasks, k))
    requires batches == BegunShares(states, events, i, k) && |starts| == |batches|
    ensures fresh(window) && window.Valid() && |safe| == |batches| && forall j :: 0 <= j < |safe| ==> safe[j]
  {
    hide IsRun, AppendChain, SequenceWindow.Valid, SequenceWindow.Live, StrictlyIncreasing;
    RunKeeps(states, events, i);
    RunKeepsShards(states, events, i);
    OrderedSequencesOnlyAppend(states[i], k);
    window := new SequenceWindow();
    safe := ReplayUpdates(window, batches, starts);
  }

  // ----- projects -----

  /** Projects without the separator never share a routing key. */
  lemma RoutingKeysAgreeExactly(p: string, a: SequenceId, q: string, b: SequenceId)
    requires KEY_SEPARATOR !in p && KEY_SEPARATOR !in q
    ensures RoutingKey(p, a) == RoutingKey(q, b) <==> p == q && a == b
  {
    var x, y := RoutingKey(p, a), RoutingKey(q, b);
    if x == y {
      assert x[|p|] == KEY_SEPARATOR && y[|q|] == KEY_SEPARATOR;
      assert forall i :: 0 <= i < |p| ==> x[i] == p[i] && p[i] in p;
      assert forall i :: 0 <= i < |q| ==> y[i] == q[i] && q[i] in q;
      assert p == x[..|p|] && q == y[..|q|];
      RoutingKeyInjective(p, a, b);
    }
  }

  /** In every reachable state two tasks wait on each other's order, or go to one
      writer for it, only through a sequence of one project that both write. */
  lemma {:induction false} TasksShareExactly(states: seq<State>, events: seq<Event>, i: nat, t: nat, u: nat)
    requires IsRun(states, events) && i < |states| && t < |states[i].tasks| && u < |states[i].tasks|
    requires KEY_SEPARATOR !in states[i].tasks[t].project && KEY_SEPARATOR !in states[i].tasks[u].project
    ensures var a, b := states[i].tasks[t], states[i].tasks[u];
            Share(a, b) <==> a.project == b.project && exists x, y :: x in a.points && y in b.points && x.sequence == y.sequence
  {
    hide IsRun, RoutingKey;
    RunKeepsShards(states, events, i);
    var a, b := states[i].tasks[t], states[i].tasks[u];
    assert TaskSharded(states[i], a) && TaskSharded(states[i], b);
    if Share(a, b) {
      var k :| k in a.keys && k in b.keys;
      PointsAtKeys(a.project, a.points, k);
      PointsAtKeys(b.project, b.points, k);
      var x :| 0 <= x < |a.points| && k == RoutingKey(a.project, a.points[x].sequence);
      var y :| 0 <= y < |b.points| && k == RoutingKey(b.project, b.points[y].sequence);
      RoutingKeysAgreeExactly(a.project, a.points[x].sequence, b.project, b.points[y].sequence);
      assert a.points[x] in a.points && b.points[y] in b.points;
    }
    if a.project == b.project {
      forall x, y | x in a.points && y in b.points && x.sequence == y.sequence ensures Share(a, b) {
        var k := RoutingKey(a.project, x.sequence);
        PointsAtKeys(a.project, a.points, k);
        PointsAtKeys(b.project, b.points, k);
      }
    }
  }
}
