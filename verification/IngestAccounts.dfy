/** What a submission occupies, and when it is answered. */
module IngestAccounts {
  import opened WindowServices
  import opened IngestProtocol
  import opened IngestInvariant
  import opened IngestTheorems

  ghost predicate Through(lane: Lane) {
    lane == Unneeded || lane == Closed
  }

  lemma {:induction false} OpenLanesZero(lanes: seq<Lane>)
    ensures OpenLanes(lanes) == 0 <==> forall l :: 0 <= l < |lanes| ==> Through(lanes[l])
    decreases |lanes|
  {
    if lanes != [] {
      var front := lanes[..|lanes| - 1];
      OpenLanesZero(front);
      assert forall l :: 0 <= l < |front| ==> front[l] == lanes[l];
    }
  }

  /** A submission is answered at most once, only after its hot update and every
      one of its cold shards is through, and it keeps its slot until then. */
  lemma AnsweredOnceAfterEveryLane(s: State, t: nat)
    requires Inv(s) && t < |s.tasks|
    ensures s.tasks[t].completions <= 1
    ensures s.tasks[t].completions == 1 ==>
              s.tasks[t].ordered && forall l :: 0 <= l < |s.tasks[t].lanes| ==> Through(s.tasks[t].lanes[l])
    ensures s.tasks[t].stage == Released ==> s.tasks[t].completions == 1
    ensures s.tasks[t].remaining > 0 <==> exists l :: 0 <= l < |s.tasks[t].lanes| && !Through(s.tasks[t].lanes[l])
  {
    hide QueueInv, LaneInv, PendingInv, DependencyInv, LogInv, RoutingInv, HotPosition, Share, OpenLanes;
    OpenLanesZero(s.tasks[t].lanes);
  }

  ghost function ReleasedTasks(tasks: seq<Task>): set<nat> {
    set t: nat | t < |tasks| && tasks[t].stage == Released
  }

  lemma {:induction false} UnreleasedCounts(tasks: seq<Task>)
    ensures Unreleased(tasks) + |ReleasedTasks(tasks)| == |tasks|
    decreases |tasks|
  {
    if tasks != [] {
      var n := |tasks| - 1;
      UnreleasedCounts(tasks[..n]);
      assert tasks == tasks[..n] + [tasks[n]];
      OneMoreReleased(tasks[..n], tasks[n]);
    } else {
      assert ReleasedTasks(tasks) == {};
    }
  }

  lemma OneMoreReleased(tasks: seq<Task>, k: Task)
    ensures |ReleasedTasks(tasks + [k])| == |ReleasedTasks(tasks)| + if k.stage == Released then 1 else 0
  {
    var all := tasks + [k];
    assert all[|tasks|] == k;
    assert ReleasedTasks(all) == ReleasedTasks(tasks) + if k.stage == Released then {|tasks|} else {};
  }

  /** The pending counter is accepted minus released, within capacity. */
  lemma PendingIsAcceptedMinusReleased(s: State)
    requires Inv(s)
    ensures s.pending == |s.tasks| - |ReleasedTasks(s.tasks)| && s.pending <= s.capacity
  {
    hide QueueInv, LaneInv, CountInv, DependencyInv, OrderInv, LogInv, RoutingInv;
    UnreleasedCounts(s.tasks);
  }

  /** Every lane has handed out or still queues exactly the tasks that need it. */
  lemma LanesServeExactlyTheirTasks(s: State, l: nat, t: nat)
    requires Inv(s) && l <= s.coldCount
    ensures t in s.taken[l] + s.queues[l] <==> t < |s.tasks| && s.tasks[t].lanes[l] != Unneeded
    ensures Increasing(s.taken[l] + s.queues[l])
  {
    hide LaneInv, CountInv, PendingInv, DependencyInv, OrderInv, LogInv, RoutingInv, Needing;
    NeedingIncreasing(s.tasks, l);
  }

  // ----- admission -----

  lemma {:induction false} ShardIsEmpty(project: string, points: seq<RawPoint>, writers: map<Key, nat>, w: nat)
    ensures Shard(project, points, writers, w) == [] <==>
            forall i :: 0 <= i < |points| ==>
                          var k := RoutingKey(project, points[i].sequence);
                          k !in writers || writers[k] != w
    decreases |points|
  {
    hide RoutingKey;
    if points != [] {
      var front := points[..|points| - 1];
      ShardIsEmpty(project, front, writers, w);
      assert forall i :: 0 <= i < |front| ==> front[i] == points[i];
    }
  }

  ghost predicate HasPointFor(s: State, project: string, points: seq<RawPoint>, l: nat) {
    exists i :: 0 <= i < |points| && RoutesTo(s, RoutingKey(project, points[i].sequence), l)
  }

  ghost predicate RoutesTo(s: State, k: Key, l: nat) {
    k in s.writers && s.writers[k] == l
  }

  /** A submission enters the hot queue and exactly the cold queues its points
      route to, or nothing changes at all. */
  lemma {:induction false} AdmissionIsAllOrNothing(s: State, project: string, points: seq<RawPoint>, keys: seq<Key>, l: nat, t: nat)
    requires Inv(s) && l <= s.coldCount
    ensures s.stopping || s.pending == s.capacity ==> Admit(s, project, points, keys) == s
    ensures !s.stopping && s.pending < s.capacity ==>
              var s' := Admit(s, project, points, keys);
              && |s'.tasks| == |s.tasks| + 1 && s'.pending == s.pending + 1
              && |s'.queues| == |s.queues|
              && (t in s'.queues[l] <==>
                  t in s.queues[l] || (t == |s.tasks| && (l == s.coldCount || HasPointFor(s, project, points, l))))
  {
    hide LaneInv, CountInv, DependencyInv, OrderInv, LogInv, RoutingInv, Needing, QueueInv, Shard, CountQueued, Predecessors, TailsAfter;
    if Admissible(s) && l < s.coldCount {
      ShardIsEmpty(project, points, s.writers, l);
      if HasPointFor(s, project, points, l) {
        var i :| 0 <= i < |points| && RoutesTo(s, RoutingKey(project, points[i].sequence), l);
      }
      if Shard(project, points, s.writers, l) != [] {
        var i :| 0 <= i < |points| && RoutingKey(project, points[i].sequence) in s.writers
                 && s.writers[RoutingKey(project, points[i].sequence)] == l;
        assert RoutesTo(s, RoutingKey(project, points[i].sequence), l);
      }
    }
  }
}
