/** Every step of the ingest executor keeps its invariant. */
module IngestInvariant {
  import opened IngestProtocol

  // ----- what a step leaves alone -----

  ghost predicate SameStatic(a: seq<Task>, b: seq<Task>) {
    && |a| == |b|
    && forall t :: 0 <= t < |a| ==> a[t].keys == b[t].keys && a[t].predecessors == b[t].predecessors && |a[t].lanes| == |b[t].lanes|
  }

  ghost predicate SameNeeds(a: seq<Task>, b: seq<Task>, l: nat) {
    && |a| == |b|
    && forall t :: 0 <= t < |a| ==> l < |a[t].lanes| && l < |b[t].lanes| && (a[t].lanes[l] == Unneeded <==> b[t].lanes[l] == Unneeded)
  }

  lemma {:induction false} NeedingFrame(a: seq<Task>, b: seq<Task>, l: nat)
    requires SameNeeds(a, b, l)
    ensures Needing(a, l) == Needing(b, l)
    decreases |a|
  {
    if a != [] { NeedingFrame(a[..|a| - 1], b[..|b| - 1], l); }
  }

  lemma {:induction false} UnreleasedFrame(a: seq<Task>, b: seq<Task>)
    requires |a| == |b| && forall t :: 0 <= t < |a| ==> (a[t].stage == Released <==> b[t].stage == Released)
    ensures Unreleased(a) == Unreleased(b)
    decreases |a|
  {
    if a != [] { UnreleasedFrame(a[..|a| - 1], b[..|b| - 1]); }
  }

  lemma DependencyFrame(s: State, s': State)
    requires DependencyInv(s) && SameStatic(s.tasks, s'.tasks) && s'.tails == s.tails
    ensures DependencyInv(s')
  {
    forall t, u, k | 0 <= u < t < |s'.tasks| && k in s'.tasks[t].keys && k in s'.tasks[u].keys
      ensures CoveredBy(s'.tasks, t, u, k)
    {
      assert CoveredBy(s.tasks, t, u, k);
      var p :| p in s.tasks[t].predecessors && u <= p < |s.tasks| && k in s.tasks[p].keys;
      assert p in s'.tasks[t].predecessors && u <= p < |s'.tasks| && k in s'.tasks[p].keys;
    }
  }

  lemma {:induction false} LogFrame(s: State, s': State)
    requires LogInv(s) && SameStatic(s.tasks, s'.tasks) && s'.begunLog == s.begunLog
    requires forall t :: 0 <= t < |s.tasks| ==> s.tasks[t].begun == s'.tasks[t].begun
    ensures LogInv(s')
  {
  }

  lemma {:induction false} QueueFrame(s: State, s': State)
    requires s.Shape() && s'.Shape() && QueueInv(s) && s'.coldCount == s.coldCount
    requires s'.queues == s.queues && s'.taken == s.taken
    requires forall l :: 0 <= l <= s.coldCount ==> SameNeeds(s.tasks, s'.tasks, l)
    ensures QueueInv(s')
  {
    forall l | 0 <= l <= s.coldCount ensures s'.taken[l] + s'.queues[l] == Needing(s'.tasks, l) {
      NeedingFrame(s.tasks, s'.tasks, l);
    }
  }

  /** Beside workers, logs and pending count, only flags and stages of tasks differ. */
  ghost predicate SameLanes(s: State, s': State) {
    && s'.coldCount == s.coldCount && s'.writers == s.writers && s'.nextWriter == s.nextWriter && s'.tails == s.tails
    && s'.queues == s.queues && s'.taken == s.taken && |s'.workers| == |s.workers|
    && SameStatic(s.tasks, s'.tasks) && forall t :: 0 <= t < |s.tasks| ==> s'.tasks[t].lanes == s.tasks[t].lanes
  }

  lemma SameLanesFrame(s: State, s': State)
    requires s.Shape() && QueueInv(s) && DependencyInv(s) && RoutingInv(s) && SameLanes(s, s')
    ensures s'.Shape() && QueueInv(s') && DependencyInv(s') && RoutingInv(s')
  {
    hide QueueInv, DependencyInv, Load;
    QueueFrame(s, s');
    DependencyFrame(s, s');
  }

  lemma {:induction false} NeedingIncreasing(tasks: seq<Task>, l: nat)
    requires forall t :: 0 <= t < |tasks| ==> l < |tasks[t].lanes|
    ensures forall i, j :: 0 <= i < j < |Needing(tasks, l)| ==> Needing(tasks, l)[i] < Needing(tasks, l)[j]
    ensures forall t: nat :: t in Needing(tasks, l) <==> t < |tasks| && tasks[t].lanes[l] != Unneeded
    decreases |tasks|
  {
    if tasks != [] {
      var last := |tasks| - 1;
      var front := tasks[..last];
      NeedingIncreasing(front, l);
      var n, all := Needing(front, l), Needing(tasks, l);
      assert all == if tasks[last].lanes[l] == Unneeded then n else n + [last];
      forall i | 0 <= i < |n| ensures n[i] < last {
        var t := n[i];
        assert t in n;
      }
      forall t: nat ensures t in all <==> t < |tasks| && tasks[t].lanes[l] != Unneeded {
        assert t in all <==> t in n || (t == last && tasks[last].lanes[l] != Unneeded);
        if t < last { assert front[t] == tasks[t]; }
      }
    }
  }

  lemma {:induction false} OpenLanesUpdate(lanes: seq<Lane>, l: nat, lane: Lane)
    requires l < |lanes|
    ensures OpenLanes(lanes[l := lane]) + (if lanes[l].Queued? || lanes[l].Held? then 1 else 0)
            == OpenLanes(lanes) + if lane.Queued? || lane.Held? then 1 else 0
    decreases |lanes|
  {
    var n := |lanes| - 1;
    if l == n {
      assert lanes[l := lane][..n] == lanes[..n];
    } else {
      OpenLanesUpdate(lanes[..n], l, lane);
      assert lanes[l := lane][..n] == lanes[..n][l := lane];
    }
  }

  lemma {:induction false} NoOpenLanes(lanes: seq<Lane>, l: nat)
    requires l < |lanes| && (lanes[l].Queued? || lanes[l].Held?)
    ensures OpenLanes(lanes) > 0
    decreases |lanes|
  {
    if l < |lanes| - 1 { NoOpenLanes(lanes[..|lanes| - 1], l); }
  }

  lemma {:induction false} UnreleasedUpdate(tasks: seq<Task>, t: nat, task: Task)
    requires t < |tasks|
    ensures Unreleased(tasks[t := task]) + (if tasks[t].stage == Released then 0 else 1)
            == Unreleased(tasks) + if task.stage == Released then 0 else 1
    decreases |tasks|
  {
    var n := |tasks| - 1;
    if t == n {
      assert tasks[t := task][..n] == tasks[..n];
    } else {
      UnreleasedUpdate(tasks[..n], t, task);
      assert tasks[t := task][..n] == tasks[..n][t := task];
    }
  }

  // ----- taking a task off a queue -----

  lemma TakeKeepsQueues(s: State, w: nat)
    requires s.Shape() && QueueInv(s) && LaneInv(s) && CanTake(s, w)
    ensures Take(s, w).Shape() && QueueInv(Take(s, w))
  {
    hide Needing;
    var l := s.LaneOf(w);
    var t := s.queues[l][0];
    var s' := Take(s, w);
    assert t in s.queues[l];
    QueuedExists(s, l, t);
    forall j | 0 <= j <= s.coldCount ensures s'.taken[j] + s'.queues[j] == Needing(s'.tasks, j) {
      NeedingFrame(s.tasks, s'.tasks, j);
      assert s.taken[j] + s.queues[j] == Needing(s.tasks, j);
    }
  }

  lemma QueuedExists(s: State, l: nat, t: nat)
    requires s.Shape() && QueueInv(s) && l <= s.coldCount && t in s.queues[l]
    ensures t < |s.tasks| && s.tasks[t].lanes[l] != Unneeded
  {
    NeedingIncreasing(s.tasks, l);
    assert t in s.taken[l] + s.queues[l];
  }

  lemma HeadNotInRest(s: State, l: nat)
    requires s.Shape() && QueueInv(s) && l <= s.coldCount && s.queues[l] != []
    ensures s.queues[l][0] !in s.queues[l][1..]
    ensures forall u :: u in s.queues[l][1..] <==> u in s.queues[l] && u != s.queues[l][0]
  {
    NeedingIncreasing(s.tasks, l);
    var q, n := s.queues[l], |s.taken[l]|;
    var all := Needing(s.tasks, l);
    assert s.taken[l] + q == all;
    assert forall i :: 0 <= i < |q| ==> q[i] == all[n + i];
  }

  lemma {:induction false} TakeKeepsOwner(s: State, w: nat, v: nat)
    requires s.Shape() && QueueInv(s) && LaneInv(s) && CanTake(s, w) && Take(s, w).Shape() && v < |s.workers|
    ensures WorkerOwns(Take(s, w), v)
  {
    hide Needing;
    var l := s.LaneOf(w);
    var t := s.queues[l][0];
    QueuedExists(s, l, t);
    assert WorkerOwns(s, v);
    assert s.tasks[t].lanes[l].Queued?;
    hide LaneInv, QueueInv;
  }

  lemma TakeKeepsLanes(s: State, w: nat)
    requires s.Shape() && QueueInv(s) && LaneInv(s) && CanTake(s, w) && Take(s, w).Shape()
    ensures LaneInv(Take(s, w))
  {
    hide QueueInv, WorkerOwns, Needing;
    HeadNotInRest(s, s.LaneOf(w));
    QueuedExists(s, s.LaneOf(w), s.queues[s.LaneOf(w)][0]);
    forall v | 0 <= v < |s.workers| ensures WorkerOwns(Take(s, w), v) { TakeKeepsOwner(s, w, v); }
    forall t, l | 0 <= t < |s.tasks| && 0 <= l <= s.coldCount ensures LaneKept(Take(s, w), t, l) { TakeKeepsLane(s, w, t, l); }
  }

  /** One task's entry in one lane agrees with the queue and the holder. */
  ghost predicate LaneKept(s: State, t: nat, l: nat)
    requires s.Shape() && t < |s.tasks| && l <= s.coldCount
  {
    && (s.tasks[t].lanes[l].Queued? <==> t in s.queues[l])
    && (s.tasks[t].lanes[l].Held? ==> var w := s.tasks[t].lanes[l].holder;
                                      w < |s.workers| && s.LaneOf(w) == l && s.workers[w].Holds(t))
  }

  lemma TakeKeepsLane(s: State, w: nat, t: nat, l: nat)
    requires s.Shape() && QueueInv(s) && LaneInv(s) && CanTake(s, w) && Take(s, w).Shape()
    requires t < |s.tasks| && l <= s.coldCount
    ensures LaneKept(Take(s, w), t, l)
  {
    hide Needing, WorkerOwns;
    HeadNotInRest(s, s.LaneOf(w));
    QueuedExists(s, s.LaneOf(w), s.queues[s.LaneOf(w)][0]);
    assert LaneKept(s, t, l);
    hide LaneInv, QueueInv;
  }

  lemma {:induction false} TakeKeepsCount(s: State, w: nat)
    requires s.Shape() && QueueInv(s) && LaneInv(s) && CountInv(s) && CanTake(s, w)
    ensures CountInv(Take(s, w))
  {
    hide Needing, OpenLanes;
    var l := s.LaneOf(w);
    var t := s.queues[l][0];
    QueuedExists(s, l, t);
    assert s.tasks[t].lanes[l].Queued?;
    OpenLanesUpdate(s.tasks[t].lanes, l, Held(w));
  }

  lemma {:induction false} TakeKeepsOrder(s: State, w: nat)
    requires s.Shape() && QueueInv(s) && LaneInv(s) && OrderInv(s) && CanTake(s, w) && Take(s, w).Shape()
    ensures OrderInv(Take(s, w))
  {
    hide Needing, OpenLanes, Share;
    var l := s.LaneOf(w);
    var t := s.queues[l][0];
    var s' := Take(s, w);
    QueuedExists(s, l, t);
    assert s.tasks[t].lanes[l].Queued?;
    KeysKeepSharing(s, s');
    forall v | s'.coldCount <= v < |s'.workers| ensures HotPosition(s', v) {
      assert HotPosition(s, v);
    }
  }

  lemma KeysKeepSharing(s: State, s': State)
    requires SameStatic(s.tasks, s'.tasks)
    ensures forall t, u :: 0 <= t < |s.tasks| && 0 <= u < |s.tasks| ==>
                             (Share(s'.tasks[t], s'.tasks[u]) <==> Share(s.tasks[t], s.tasks[u]))
  {
  }

  lemma TakeKeeps(s: State, w: nat)
    requires Inv(s) && CanTake(s, w)
    ensures Inv(Take(s, w))
  {
    hide QueueInv, LaneInv, CountInv, PendingInv, DependencyInv, OrderInv, LogInv, RoutingInv;
    TakeKeepsQueues(s, w);
    TakeKeepsLanes(s, w);
    TakeKeepsCount(s, w);
    TakeKeepsOrder(s, w);
    LaneChangeFrame(s, Take(s, w));
  }

  /** Steps that leave keys, stages, begun flags and the global counters alone. */
  lemma LaneChangeFrame(s: State, s': State)
    requires PendingInv(s) && DependencyInv(s) && LogInv(s) && RoutingInv(s)
    requires SameStatic(s.tasks, s'.tasks)
    requires forall t :: 0 <= t < |s.tasks| ==>
                           s.tasks[t].begun == s'.tasks[t].begun && (s.tasks[t].stage == Released <==> s'.tasks[t].stage == Released)
    requires s'.begunLog == s.begunLog && s'.tails == s.tails && s'.pending == s.pending && s'.capacity == s.capacity
    requires s'.writers == s.writers && s'.nextWriter == s.nextWriter && s'.coldCount == s.coldCount
    ensures PendingInv(s') && DependencyInv(s') && LogInv(s') && RoutingInv(s')
  {
    hide DependencyInv, LogInv, Unreleased;
    UnreleasedFrame(s.tasks, s'.tasks);
    DependencyFrame(s, s');
    LogFrame(s, s');
  }

  // ----- moves that change only a worker's position -----

  lemma MoveKeeps(s: State, w: nat, phase: Phase)
    requires Inv(s) && w < |s.workers|
    requires WorkerOwns(Move(s, w, phase), w)
    requires w >= s.coldCount ==> HotPosition(Move(s, w, phase), w)
    requires forall t :: s.workers[w].Holds(t) ==> phase.Holds(t)
    requires !s.workers[w].Completing? && !s.workers[w].Releasing?
    ensures Inv(Move(s, w, phase))
  {
    hide PendingInv, DependencyInv, LogInv, RoutingInv, Needing;
    var s' := Move(s, w, phase);
    LaneChangeFrame(s, s');
    MoveKeepsLanes(s, w, phase);
    MoveKeepsOrder(s, w, phase);
  }

  lemma {:induction false} MoveKeepsLanes(s: State, w: nat, phase: Phase)
    requires s.Shape() && LaneInv(s) && w < |s.workers|
    requires WorkerOwns(Move(s, w, phase), w)
    requires forall t :: s.workers[w].Holds(t) ==> phase.Holds(t)
    ensures LaneInv(Move(s, w, phase))
  {
    var s' := Move(s, w, phase);
    forall v | 0 <= v < |s'.workers| ensures WorkerOwns(s', v) { assert WorkerOwns(s, v); }
  }

  lemma {:induction false} MoveKeepsOrder(s: State, w: nat, phase: Phase)
    requires s.Shape() && OrderInv(s) && w < |s.workers|
    requires w >= s.coldCount ==> HotPosition(Move(s, w, phase), w)
    ensures OrderInv(Move(s, w, phase))
  {
    hide Share;
    var s' := Move(s, w, phase);
    forall v | s'.coldCount <= v < |s'.workers| ensures HotPosition(s', v) { assert HotPosition(s, v); }
  }

  lemma ExitKeeps(s: State, w: nat)
    requires Inv(s) && CanExit(s, w)
    ensures Inv(Move(s, w, Exited))
  {
    MoveKeeps(s, w, Exited);
  }

  lemma AwaitKeeps(s: State, w: nat)
    requires Inv(s) && CanAwait(s, w)
    ensures Inv(Await(s, w))
  {
    hide QueueInv, CountInv, PendingInv, DependencyInv, LogInv, RoutingInv, Share;
    assert WorkerOwns(s, w);
    assert HotPosition(s, w);
    MoveKeeps(s, w, s.workers[w].(next := s.workers[w].next + 1));
  }

  lemma ReportKeeps(s: State, w: nat)
    requires Inv(s) && CanReport(s, w)
    ensures Inv(Move(s, w, Finishing(s.workers[w].task)))
  {
    hide QueueInv, CountInv, PendingInv, DependencyInv, LogInv, RoutingInv, Share;
    assert WorkerOwns(s, w);
    assert HotPosition(s, w);
    MoveKeeps(s, w, Finishing(s.workers[w].task));
  }

  // ----- a hot update begins -----

  /** A worker whose futures are all ready waited on ordered tasks only. */
  lemma WaitedOnOrdered(s: State, w: nat, p: nat)
    requires s.Shape() && OrderInv(s) && s.coldCount <= w && CanBegin(s, w)
    requires p in s.tasks[s.workers[w].task].predecessors
    ensures p < |s.tasks| && s.tasks[p].ordered
  {
    hide Share;
    assert HotPosition(s, w);
    hide OrderInv;
    var waited := s.tasks[s.workers[w].task].predecessors;
    var i :| 0 <= i < |waited| && waited[i] == p;
  }

  lemma OlderSharerOrdered(s: State, t: nat, u: nat)
    requires s.Shape() && OrderInv(s) && u < t < |s.tasks| && s.tasks[t].ordered && Share(s.tasks[t], s.tasks[u])
    ensures s.tasks[u].ordered
  {
    hide HotPosition, Share;
  }

  /** Everything a waiting task depends on is through once its futures are. */
  lemma AllOlderOrdered(s: State, w: nat, u: nat)
    requires s.Shape() && DependencyInv(s) && OrderInv(s) && s.coldCount <= w && CanBegin(s, w)
    requires u < s.workers[w].task && Share(s.tasks[s.workers[w].task], s.tasks[u])
    ensures s.tasks[u].ordered
  {
    var t := s.workers[w].task;
    hide OrderInv;
    var k :| k in s.tasks[t].keys && k in s.tasks[u].keys;
    assert CoveredBy(s.tasks, t, u, k);
    hide DependencyInv;
    var p :| p in s.tasks[t].predecessors && u <= p < |s.tasks| && k in s.tasks[p].keys;
    WaitedOnOrdered(s, w, p);
    if u < p { assert Share(s.tasks[p], s.tasks[u]); OlderSharerOrdered(s, p, u); }
  }

  lemma {:induction false} BeginKeepsPositions(s: State, w: nat, v: nat)
    requires s.Shape() && LaneInv(s) && OrderInv(s) && CanBegin(s, w) && s.coldCount <= v < |s.workers|
    ensures w >= s.coldCount && Begin(s, w).Shape() && HotPosition(Begin(s, w), v)
  {
    hide Share;
    assert WorkerOwns(s, w) && WorkerOwns(s, v);
    assert HotPosition(s, w) && HotPosition(s, v);
    hide LaneInv, OrderInv;
  }

  lemma BeginKeepsOrder(s: State, w: nat)
    requires s.Shape() && LaneInv(s) && DependencyInv(s) && OrderInv(s) && CanBegin(s, w)
    ensures w >= s.coldCount && Begin(s, w).Shape() && OrderInv(Begin(s, w))
  {
    hide DependencyInv, HotPosition;
    var s' := Begin(s, w);
    var t := s.workers[w].task;
    assert WorkerOwns(s, w);
    KeysKeepSharing(s, s');
    hide Share;
    forall u | 0 <= u < t && Share(s.tasks[t], s.tasks[u]) ensures s.tasks[u].ordered { AllOlderOrdered(s, w, u); }
    forall v | s'.coldCount <= v < |s'.workers| ensures HotPosition(s', v) { BeginKeepsPositions(s, w, v); }
    hide LaneInv;
  }

  lemma {:induction false} BeginKeepsLog(s: State, w: nat)
    requires s.Shape() && LogInv(s) && OrderInv(s) && CanBegin(s, w) && w >= s.coldCount
    ensures LogInv(Begin(s, w))
  {
    var s' := Begin(s, w);
    var t := s.workers[w].task;
    assert HotPosition(s, w);
    KeysKeepSharing(s, s');
    SharingIsSymmetric(s.tasks);
    hide Share;
    var log, n := s'.begunLog, |s.begunLog|;
    assert forall i :: 0 <= i < n ==> log[i] in s.begunLog;
    forall i | 0 <= i < n
      ensures log[i] != t && (Share(s'.tasks[log[i]], s'.tasks[t]) ==> log[i] < t)
    {
      assert s.tasks[log[i]].begun;
    }
  }

  lemma SharingIsSymmetric(tasks: seq<Task>)
    ensures forall t, u :: 0 <= t < |tasks| && 0 <= u < |tasks| ==> (Share(tasks[t], tasks[u]) <==> Share(tasks[u], tasks[t]))
  {
  }

  lemma BeginKeeps(s: State, w: nat)
    requires Inv(s) && CanBegin(s, w)
    ensures Inv(Begin(s, w))
  {
    hide Needing, OpenLanes, OrderInv, LogInv, DependencyInv, Unreleased;
    var s' := Begin(s, w);
    BeginKeepsOrder(s, w);
    BeginKeepsLog(s, w);
    QueueFrame(s, s');
    DependencyFrame(s, s');
    UnreleasedFrame(s.tasks, s'.tasks);
    LanesFrame(s, s', w);
  }

  /** Task flags other than the lanes changed, and `w` still owes the same task. */
  lemma LanesFrame(s: State, s': State, w: nat)
    requires s.Shape() && s'.Shape() && LaneInv(s) && w < |s.workers|
    requires s'.coldCount == s.coldCount && s'.queues == s.queues && s'.stopping == s.stopping && |s'.tasks| == |s.tasks|
    requires forall t :: 0 <= t < |s.tasks| ==> s'.tasks[t].lanes == s.tasks[t].lanes && s'.tasks[t].stage == s.tasks[t].stage
    requires exists phase :: s'.workers == s.workers[w := phase]
                             && (forall t :: s.workers[w].Holds(t) <==> phase.Holds(t))
                             && (phase.Working? || phase.Reporting? || phase.Finishing?)
                             && (phase.Reporting? ==> w >= s.coldCount) && s.workers[w].Holds(phase.task)
    ensures LaneInv(s')
  {
    forall v | 0 <= v < |s'.workers| ensures WorkerOwns(s', v) { assert WorkerOwns(s, v); }
  }

  // ----- a lane's work returns -----

  lemma {:induction false} OrderingKeepsOrder(s: State, w: nat)
    requires s.Shape() && LaneInv(s) && OrderInv(s) && CanEndWork(s, w) && w >= s.coldCount
    ensures EndWork(s, w).Shape() && OrderInv(EndWork(s, w))
  {
    var s' := EndWork(s, w);
    var t := s.workers[w].task;
    assert WorkerOwns(s, w);
    assert HotPosition(s, w);
    KeysKeepSharing(s, s');
    hide Share;
    forall v | s'.coldCount <= v < |s'.workers| ensures HotPosition(s', v) {
      hide LaneInv;
      assert HotPosition(s, v);
      if v != w { NotTheSameTask(s, v, w); }
    }
  }

  /** Two workers of one lane never hold one task. */
  lemma NotTheSameTask(s: State, v: nat, w: nat)
    requires s.Shape() && LaneInv(s) && v < |s.workers| && w < |s.workers| && v != w && s.LaneOf(v) == s.LaneOf(w)
    ensures forall t :: s.workers[w].Holds(t) ==> !s.workers[v].Holds(t)
  {
    assert WorkerOwns(s, v) && WorkerOwns(s, w);
  }

  lemma EndWorkKeeps(s: State, w: nat)
    requires Inv(s) && CanEndWork(s, w)
    ensures Inv(EndWork(s, w))
  {
    hide QueueInv, OrderInv, LogInv, DependencyInv, RoutingInv, CountInv, PendingInv;
    assert WorkerOwns(s, w);
    if w < s.coldCount {
      MoveKeeps(s, w, Finishing(s.workers[w].task));
    } else {
      OrderingKeepsOrder(s, w);
      OrderingKeepsRest(s, w);
      OrderingKeepsCounts(s, w);
    }
  }

  lemma OrderingKeepsRest(s: State, w: nat)
    requires Inv(s) && CanEndWork(s, w) && w >= s.coldCount && EndWork(s, w).Shape()
    ensures QueueInv(EndWork(s, w)) && LaneInv(EndWork(s, w)) && DependencyInv(EndWork(s, w)) && LogInv(EndWork(s, w)) && RoutingInv(EndWork(s, w))
  {
    var s' := EndWork(s, w);
    assert WorkerOwns(s, w);
    hide QueueInv, OrderInv, LogInv, DependencyInv, RoutingInv, CountInv, PendingInv, LaneInv;
    assert s'.workers == s.workers[w := Reporting(s.workers[w].task)];
    SameLanesFrame(s, s');
    LogFrame(s, s');
    LanesFrame(s, s', w);
  }

  lemma OrderingKeepsCounts(s: State, w: nat)
    requires s.Shape() && LaneInv(s) && CountInv(s) && PendingInv(s) && CanEndWork(s, w) && w >= s.coldCount
    ensures CountInv(EndWork(s, w)) && PendingInv(EndWork(s, w))
  {
    hide Unreleased, OpenLanes;
    assert WorkerOwns(s, w);
    hide LaneInv;
    UnreleasedFrame(s.tasks, EndWork(s, w).tasks);
  }

  // ----- closing, completing, releasing -----

  lemma OwnersKnown(s: State, v: nat)
    requires s.Shape() && LaneInv(s) && v < |s.workers|
    ensures WorkerOwns(s, v)
  {
    hide WorkerOwns;
  }

  lemma OpenWhileCounting(s: State, t: nat)
    requires CountInv(s) && t < |s.tasks| && s.tasks[t].remaining > 0
    ensures s.tasks[t].stage == Open
  {
    hide OpenLanes;
  }

  lemma OtherOwnerKept(s: State, w: nat, v: nat)
    requires s.Shape() && w < |s.workers| && v < |s.workers| && WorkerOwns(s, w) && WorkerOwns(s, v)
    requires CanClose(s, w) && Close(s, w).Shape()
    requires s.tasks[s.workers[w].task].stage == Open
    ensures WorkerOwns(Close(s, w), v)
  {
    if v != w {
      assert Close(s, w).workers[v] == s.workers[v];
    }
  }

  lemma {:induction false} CloseKeepsOwner(s: State, w: nat, v: nat)
    requires s.Shape() && LaneInv(s) && CountInv(s) && CanClose(s, w) && Close(s, w).Shape() && v < |s.workers|
    ensures WorkerOwns(Close(s, w), v)
  {
    hide LaneInv, CountInv, WorkerOwns, State.Shape, Close;
    OwnersKnown(s, w);
    OwnersKnown(s, v);
    OpenWhileCounting(s, s.workers[w].task);
    OtherOwnerKept(s, w, v);
  }

  /** Only the closed lane changes, and nobody is said to hold it any more. */
  lemma CloseKeepsHolders(s: State, w: nat)
    requires s.Shape() && LaneInv(s) && CanClose(s, w) && WorkerOwns(s, w)
    ensures Close(s, w).Shape()
    ensures var s' := Close(s, w);
            && (forall t, l :: 0 <= t < |s'.tasks| && 0 <= l <= s'.coldCount ==> (s'.tasks[t].lanes[l].Queued? <==> t in s'.queues[l]))
            && (forall t, l :: 0 <= t < |s'.tasks| && 0 <= l <= s'.coldCount && s'.tasks[t].lanes[l].Held? ==>
                                 var v := s'.tasks[t].lanes[l].holder;
                                 v < |s'.workers| && s'.LaneOf(v) == l && s'.workers[v].Holds(t))
  {
    hide WorkerOwns;
    assert s.tasks[s.workers[w].task].lanes[s.LaneOf(w)] == Held(w) by { OwnsItsLane(s, w); }
    var s' := Close(s, w);
    forall t, l | 0 <= t < |s'.tasks| && 0 <= l <= s'.coldCount && s'.tasks[t].lanes[l].Held?
      ensures s.tasks[t].lanes[l] == s'.tasks[t].lanes[l] && s.tasks[t].lanes[l] != Held(w)
    {
      assert s.tasks[t].lanes[l] == s'.tasks[t].lanes[l];
    }
  }

  lemma OwnsItsLane(s: State, w: nat)
    requires s.Shape() && CanClose(s, w) && WorkerOwns(s, w)
    ensures s.workers[w].task < |s.tasks| && s.tasks[s.workers[w].task].lanes[s.LaneOf(w)] == Held(w)
  {
  }

  lemma {:induction false} CloseKeepsLanes(s: State, w: nat)
    requires s.Shape() && LaneInv(s) && CountInv(s) && CanClose(s, w)
    ensures Close(s, w).Shape() && LaneInv(Close(s, w))
  {
    hide CountInv, WorkerOwns, Close, State.Shape;
    OwnersKnown(s, w);
    CloseKeepsHolders(s, w);
    CloseWorkers(s, w);
    forall v | 0 <= v < |s.workers| ensures WorkerOwns(Close(s, w), v) { CloseKeepsOwner(s, w, v); }
  }

  lemma CloseWorkers(s: State, w: nat)
    requires CanClose(s, w)
    ensures |Close(s, w).workers| == |s.workers|
  {
  }

  lemma {:induction false} CloseKeepsCount(s: State, w: nat)
    requires s.Shape() && LaneInv(s) && CountInv(s) && CanClose(s, w)
    ensures CountInv(Close(s, w))
  {
    hide OpenLanes;
    assert WorkerOwns(s, w);
    OpenLanesUpdate(s.tasks[s.workers[w].task].lanes, s.LaneOf(w), Closed);
  }

  lemma {:induction false} CloseKeepsOrder(s: State, w: nat)
    requires s.Shape() && LaneInv(s) && OrderInv(s) && CanClose(s, w) && Close(s, w).Shape()
    ensures OrderInv(Close(s, w))
  {
    var s' := Close(s, w);
    assert WorkerOwns(s, w);
    KeysKeepSharing(s, s');
    hide Share, LaneInv, HotPosition;
    forall v | s'.coldCount <= v < |s'.workers| ensures HotPosition(s', v) { CloseKeepsPosition(s, w, v); }
    if w >= s.coldCount { ClosingIsOrdered(s, w); }
  }

  lemma CloseKeepsPosition(s: State, w: nat, v: nat)
    requires s.Shape() && OrderInv(s) && CanClose(s, w) && Close(s, w).Shape() && s.coldCount <= v < |s.workers|
    ensures HotPosition(Close(s, w), v)
  {
    assert HotPosition(s, v);
    hide OrderInv;
  }

  lemma ClosingIsOrdered(s: State, w: nat)
    requires s.Shape() && OrderInv(s) && CanClose(s, w) && s.coldCount <= w && s.workers[w].task < |s.tasks|
    ensures s.tasks[s.workers[w].task].ordered
  {
    assert HotPosition(s, w);
  }

  lemma CloseKeeps(s: State, w: nat)
    requires Inv(s) && CanClose(s, w)
    ensures Inv(Close(s, w))
  {
    hide Needing, OpenLanes, OrderInv, LogInv, DependencyInv, Unreleased, PendingInv, RoutingInv;
    var s' := Close(s, w);
    assert WorkerOwns(s, w);
    CloseKeepsLanes(s, w);
    CloseKeepsCount(s, w);
    CloseKeepsOrder(s, w);
    QueueFrame(s, s');
    LaneChangeFrame(s, s');
  }

  /** Only the stage of a task whose lanes are all closed moves on, and its owner with it. */
  ghost predicate StageStep(s: State, s': State, w: nat, t: nat, phase: Phase)
    requires w < |s.workers| && t < |s.tasks|
  {
    && ((s.workers[w] == Completing(t) && phase == Releasing(t) && s.tasks[t].stage == CompletingBy(w))
        || (s.workers[w] == Releasing(t) && phase == Idle && s.tasks[t].stage == ReleasingBy(w)))
    && s' == Move(s, w, phase).(pending := s'.pending, tasks := s.tasks[t := s.tasks[t].(
               stage := if phase.Idle? then Released else ReleasingBy(w),
               completions := if phase.Idle? then s.tasks[t].completions else s.tasks[t].completions + 1)])
  }

  lemma StageKeeps(s: State, s': State, w: nat, t: nat, phase: Phase)
    requires Inv(s) && w < |s.workers| && t < |s.tasks|
    requires StageStep(s, s', w, t, phase)
    ensures s'.Shape() && QueueInv(s') && LaneInv(s') && CountInv(s') && DependencyInv(s') && OrderInv(s') && LogInv(s') && RoutingInv(s')
  {
    hide QueueInv, OrderInv, LogInv, DependencyInv, RoutingInv, CountInv, PendingInv, LaneInv;
    SameLanesFrame(s, s');
    LogFrame(s, s');
    StageKeepsLanes(s, s', w, t, phase);
    StageKeepsOrder(s, s', w, t, phase);
    StageKeepsCount(s, s', w, t, phase);
  }

  lemma {:induction false} StageKeepsCount(s: State, s': State, w: nat, t: nat, phase: Phase)
    requires s.Shape() && CountInv(s) && w < |s.workers| && t < |s.tasks|
    requires StageStep(s, s', w, t, phase)
    ensures CountInv(s')
  {
    hide OpenLanes;
  }

  lemma {:induction false} StageKeepsLanes(s: State, s': State, w: nat, t: nat, phase: Phase)
    requires s.Shape() && s'.Shape() && LaneInv(s) && w < |s.workers| && t < |s.tasks|
    requires StageStep(s, s', w, t, phase)
    ensures LaneInv(s')
  {
    hide WorkerOwns;
    forall v | 0 <= v < |s'.workers| ensures WorkerOwns(s', v) { StageKeepsOwner(s, s', w, t, phase, v); }
    assert forall u :: 0 <= u < |s.tasks| ==> s'.tasks[u].lanes == s.tasks[u].lanes && !s.workers[w].Holds(u);
  }

  lemma StageKeepsOwner(s: State, s': State, w: nat, t: nat, phase: Phase, v: nat)
    requires s.Shape() && s'.Shape() && LaneInv(s) && w < |s.workers| && t < |s.tasks| && v < |s.workers|
    requires StageStep(s, s', w, t, phase)
    ensures WorkerOwns(s', v)
  {
    assert WorkerOwns(s, v);
    hide LaneInv;
  }

  lemma {:induction false} StageKeepsOrder(s: State, s': State, w: nat, t: nat, phase: Phase)
    requires s.Shape() && s'.Shape() && OrderInv(s) && w < |s.workers| && t < |s.tasks|
    requires phase.Releasing? || phase.Idle?
    requires s'.coldCount == s.coldCount && s'.workers == s.workers[w := phase] && SameStatic(s.tasks, s'.tasks)
    requires forall u :: 0 <= u < |s.tasks| ==>
                           s'.tasks[u].lanes == s.tasks[u].lanes && s'.tasks[u].begun == s.tasks[u].begun
                           && s'.tasks[u].ordered == s.tasks[u].ordered
    ensures OrderInv(s')
  {
    KeysKeepSharing(s, s');
    hide Share;
    forall v | s'.coldCount <= v < |s'.workers| ensures HotPosition(s', v) { assert HotPosition(s, v); }
  }

  lemma CompleteKeeps(s: State, w: nat)
    requires Inv(s) && CanComplete(s, w)
    ensures Inv(Complete(s, w))
  {
    hide QueueInv, DependencyInv, OrderInv, LogInv, RoutingInv, Unreleased, OpenLanes;
    var s', t := Complete(s, w), s.workers[w].task;
    assert WorkerOwns(s, w);
    StageKeeps(s, s', w, t, Releasing(t));
    UnreleasedFrame(s.tasks, s'.tasks);
  }

  lemma ReleaseKeeps(s: State, w: nat)
    requires Inv(s) && CanRelease(s, w)
    ensures Inv(Release(s, w)) && Release(s, w).pending == s.pending - 1
  {
    hide QueueInv, DependencyInv, OrderInv, LogInv, RoutingInv, Unreleased, OpenLanes;
    var s', t := Release(s, w), s.workers[w].task;
    assert WorkerOwns(s, w);
    UnreleasedUpdate(s.tasks, t, s'.tasks[t]);
    StageKeeps(s, s', w, t, Idle);
  }

  lemma WorkerStepKeeps(s: State, s': State, w: nat)
    requires Inv(s) && WorkerStep(s, s', w)
    ensures Inv(s')
  {
    hide Inv, CanTake, CanAwait, CanBegin, CanEndWork, CanClose, CanComplete, CanRelease;
    if CanTake(s, w) && s.LaneOf(w) < |s.taken| && s' == Take(s, w) { TakeKeeps(s, w); }
    else if CanExit(s, w) && s' == Move(s, w, Exited) { ExitKeeps(s, w); }
    else if CanAwait(s, w) && s' == Await(s, w) { AwaitKeeps(s, w); }
    else if CanBegin(s, w) && s' == Begin(s, w) { BeginKeeps(s, w); }
    else if CanEndWork(s, w) && s' == EndWork(s, w) { EndWorkKeeps(s, w); }
    else if CanReport(s, w) && s' == Move(s, w, Finishing(s.workers[w].task)) { ReportKeeps(s, w); }
    else if CanClose(s, w) && s' == Close(s, w) { CloseKeeps(s, w); }
    else if CanComplete(s, w) && s' == Complete(s, w) { CompleteKeeps(s, w); }
    else { ReleaseKeeps(s, w); }
  }
}
