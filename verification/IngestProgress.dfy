/** The executor never deadlocks, and left alone it drains completely. */
module IngestProgress {
  import opened IngestProtocol
  import opened IngestInvariant

  ghost predicate CanStep(s: State, w: nat) {
    || (CanTake(s, w) && s.LaneOf(w) < |s.taken|)
    || CanExit(s, w) || CanAwait(s, w) || CanBegin(s, w) || CanEndWork(s, w)
    || CanReport(s, w) || CanClose(s, w) || CanComplete(s, w) || CanRelease(s, w)
  }

  lemma CanStepMoves(s: State, w: nat)
    requires CanStep(s, w)
    ensures exists s' :: WorkerStep(s, s', w)
  {
    var s' :=
      if CanTake(s, w) && s.LaneOf(w) < |s.taken| then Take(s, w)
      else if CanExit(s, w) then Move(s, w, Exited)
      else if CanAwait(s, w) then Await(s, w)
      else if CanBegin(s, w) then Begin(s, w)
      else if CanEndWork(s, w) then EndWork(s, w)
      else if CanReport(s, w) then Move(s, w, Finishing(s.workers[w].task))
      else if CanClose(s, w) then Close(s, w)
      else if CanComplete(s, w) then Complete(s, w)
      else Release(s, w);
    assert WorkerStep(s, s', w);
  }

  /** Nothing is owed: every task is released and every worker is parked, or
      gone when the executor is stopping. */
  ghost predicate Quiescent(s: State) {
    && (forall t :: 0 <= t < |s.tasks| ==> s.tasks[t].stage == Released)
    && (forall w :: 0 <= w < |s.workers| ==> s.workers[w] == if s.stopping then Exited else Idle)
  }

  /** FIFO order: what waits in a queue is younger than what has left it. */
  lemma LeftBeforeQueued(s: State, l: nat, t: nat, p: nat)
    requires s.Shape() && QueueInv(s) && l <= s.coldCount
    requires t < |s.tasks| && s.tasks[t].lanes[l] != Unneeded && t !in s.queues[l] && p in s.queues[l]
    ensures t < p
  {
    NeedingIncreasing(s.tasks, l);
    var all, n := Needing(s.tasks, l), |s.taken[l]|;
    assert s.taken[l] + s.queues[l] == all;
    assert t in all;
    var i :| 0 <= i < |all| && all[i] == t;
    var j :| 0 <= j < |s.queues[l]| && s.queues[l][j] == p;
    assert all[n + j] == p;
    forall k | n <= k < |all| ensures all[k] in s.queues[l] { assert all[k] == s.queues[l][k - n]; }
  }

  lemma {:induction false} HeldWorkerSteps(s: State, w: nat)
    requires Inv(s) && w < |s.workers|
    requires s.workers[w].Working? || s.workers[w].Reporting? || s.workers[w].Finishing?
             || s.workers[w].Completing? || s.workers[w].Releasing?
    ensures CanStep(s, w)
  {
    hide QueueInv, OrderInv, PendingInv, DependencyInv, LogInv, RoutingInv, OpenLanes, Needing;
    assert WorkerOwns(s, w);
    if s.workers[w].Finishing? {
      NoOpenLanes(s.tasks[s.workers[w].task].lanes, s.LaneOf(w));
    }
  }

  /** A waiting hot worker is ready itself, or some worker it waits for, on an
      older task, is: follow the unfinished predecessors down. */
  lemma FindReady(s: State, w: nat) returns (v: nat)
    requires Inv(s) && s.coldCount <= w < |s.workers| && s.workers[w].Waiting?
    ensures CanStep(s, v)
    decreases s.workers[w].task
  {
    hide CountInv, PendingInv, LogInv, RoutingInv, OpenLanes, Needing, Share;
    var t, next := s.workers[w].task, s.workers[w].next;
    assert WorkerOwns(s, w) && HotPosition(s, w);
    if next == |s.tasks[t].predecessors| {
      v := w;
    } else {
      var p := s.tasks[t].predecessors[next];
      assert p in s.tasks[t].predecessors;
      if s.tasks[p].ordered {
        v := w;
      } else {
        HeldPredecessor(s, w, p);
        var h := s.tasks[p].lanes[s.coldCount].holder;
        if s.workers[h].Waiting? {
          v := FindReady(s, h);
        } else {
          HeldWorkerSteps(s, h);
          v := h;
        }
      }
    }
  }

  /** An unfinished predecessor of a dequeued task is in some hot worker's hands. */
  lemma {:induction false} HeldPredecessor(s: State, w: nat, p: nat)
    requires s.Shape() && QueueInv(s) && LaneInv(s) && OrderInv(s) && s.coldCount <= w < |s.workers|
    requires s.workers[w].Waiting? && p < s.workers[w].task && p < |s.tasks| && !s.tasks[p].ordered
    ensures s.tasks[p].lanes[s.coldCount].Held?
    ensures var h := s.tasks[p].lanes[s.coldCount].holder; s.coldCount <= h < |s.workers| && s.workers[h].Holds(p)
  {
    hide Needing, Share;
    var t := s.workers[w].task;
    assert WorkerOwns(s, w);
    if p in s.queues[s.coldCount] {
      LeftBeforeQueued(s, s.coldCount, t, p);
    }
    assert !s.tasks[p].lanes[s.coldCount].Queued?;
  }

  lemma {:induction false} SomeOpenLane(lanes: seq<Lane>) returns (l: nat)
    requires OpenLanes(lanes) > 0
    ensures l < |lanes| && (lanes[l].Queued? || lanes[l].Held?)
    decreases |lanes|
  {
    var n := |lanes| - 1;
    if lanes[n].Queued? || lanes[n].Held? { l := n; } else { l := SomeOpenLane(lanes[..n]); }
  }

  /** No reachable state is stuck: unless nothing is owed, some worker can move. */
  lemma Progress(s: State) returns (v: nat)
    requires Inv(s) && !Quiescent(s)
    ensures CanStep(s, v) && exists s' :: WorkerStep(s, s', v)
  {
    v := SomeoneCanStep(s);
    CanStepMoves(s, v);
  }

  lemma SomeoneCanStep(s: State) returns (v: nat)
    requires Inv(s) && !Quiescent(s)
    ensures CanStep(s, v)
  {
    hide PendingInv, DependencyInv, LogInv, RoutingInv, OrderInv, QueueInv, Needing, OpenLanes;
    if w :| 0 <= w < |s.workers| && s.workers[w] != Idle && s.workers[w] != Exited {
      assert WorkerOwns(s, w);
      if s.workers[w].Waiting? {
        v := FindReady(s, w);
      } else {
        HeldWorkerSteps(s, w);
        v := w;
      }
    } else if w :| 0 <= w < |s.workers| && s.workers[w] != if s.stopping then Exited else Idle {
      v := w;
      assert WorkerOwns(s, w);
    } else {
      var t :| 0 <= t < |s.tasks| && s.tasks[t].stage != Released;
      var l := SomeOpenLane(s.tasks[t].lanes);
      v := l;
      assert WorkerOwns(s, l);
      assert t in s.queues[l];
    }
  }

  // ----- every worker step uses up some of a finite budget -----

  ghost function Weight(tasks: seq<Task>, t: nat): nat {
    10 + if t < |tasks| then |tasks[t].predecessors| else 0
  }

  ghost function QueueWeight(tasks: seq<Task>, queue: seq<nat>): nat {
    if queue == [] then 0 else Weight(tasks, queue[0]) + QueueWeight(tasks, queue[1..])
  }

  ghost function QueuesWeight(tasks: seq<Task>, queues: seq<seq<nat>>): nat {
    if queues == [] then 0
    else QueuesWeight(tasks, queues[..|queues| - 1]) + QueueWeight(tasks, queues[|queues| - 1])
  }

  ghost function Rank(tasks: seq<Task>, phase: Phase): nat {
    match phase
    case Exited => 0
    case Idle => 1
    case Releasing(_) => 3
    case Completing(_) => 4
    case Finishing(_) => 5
    case Reporting(_) => 6
    case Working(_) => 7
    case Waiting(t, next) => 8 + if t < |tasks| && next <= |tasks[t].predecessors| then |tasks[t].predecessors| - next else 0
  }

  ghost function Ranks(tasks: seq<Task>, workers: seq<Phase>): nat {
    if workers == [] then 0
    else Ranks(tasks, workers[..|workers| - 1]) + Rank(tasks, workers[|workers| - 1])
  }

  /** A bound on how many worker steps are left without new submissions. */
  ghost function Budget(s: State): nat {
    QueuesWeight(s.tasks, s.queues) + Ranks(s.tasks, s.workers)
  }

  ghost predicate SamePredecessors(a: seq<Task>, b: seq<Task>) {
    |a| == |b| && forall t :: 0 <= t < |a| ==> a[t].predecessors == b[t].predecessors
  }

  lemma {:induction false} QueueWeightFrame(a: seq<Task>, b: seq<Task>, queue: seq<nat>)
    requires SamePredecessors(a, b)
    ensures QueueWeight(a, queue) == QueueWeight(b, queue)
    decreases |queue|
  {
    if queue != [] { QueueWeightFrame(a, b, queue[1..]); }
  }

  lemma {:induction false} QueuesWeightFrame(a: seq<Task>, b: seq<Task>, queues: seq<seq<nat>>)
    requires SamePredecessors(a, b)
    ensures QueuesWeight(a, queues) == QueuesWeight(b, queues)
    decreases |queues|
  {
    if queues != [] {
      QueuesWeightFrame(a, b, queues[..|queues| - 1]);
      QueueWeightFrame(a, b, queues[|queues| - 1]);
    }
  }

  lemma {:induction false} RanksFrame(a: seq<Task>, b: seq<Task>, workers: seq<Phase>)
    requires SamePredecessors(a, b)
    ensures Ranks(a, workers) == Ranks(b, workers)
    decreases |workers|
  {
    if workers != [] { RanksFrame(a, b, workers[..|workers| - 1]); }
  }

  lemma {:induction false} RanksUpdate(tasks: seq<Task>, workers: seq<Phase>, w: nat, phase: Phase)
    requires w < |workers|
    ensures Ranks(tasks, workers[w := phase]) + Rank(tasks, workers[w]) == Ranks(tasks, workers) + Rank(tasks, phase)
    decreases |workers|
  {
    var n := |workers| - 1;
    if w == n {
      assert workers[w := phase][..n] == workers[..n];
    } else {
      RanksUpdate(tasks, workers[..n], w, phase);
      assert workers[w := phase][..n] == workers[..n][w := phase];
    }
  }

  lemma {:induction false} QueuesUpdate(tasks: seq<Task>, queues: seq<seq<nat>>, l: nat, queue: seq<nat>)
    requires l < |queues|
    ensures QueuesWeight(tasks, queues[l := queue]) + QueueWeight(tasks, queues[l])
            == QueuesWeight(tasks, queues) + QueueWeight(tasks, queue)
    decreases |queues|
  {
    var n := |queues| - 1;
    if l == n {
      assert queues[l := queue][..n] == queues[..n];
    } else {
      QueuesUpdate(tasks, queues[..n], l, queue);
      assert queues[l := queue][..n] == queues[..n][l := queue];
    }
  }

  lemma MoveSpends(s: State, s': State, w: nat, phase: Phase)
    requires w < |s.workers| && SamePredecessors(s.tasks, s'.tasks) && s'.queues == s.queues
    requires s'.workers == s.workers[w := phase] && Rank(s.tasks, phase) < Rank(s.tasks, s.workers[w])
    ensures Budget(s') < Budget(s)
  {
    QueuesWeightFrame(s.tasks, s'.tasks, s.queues);
    RanksFrame(s.tasks, s'.tasks, s'.workers);
    RanksUpdate(s.tasks, s.workers, w, phase);
  }

  lemma TakeSpends(s: State, w: nat)
    requires CanTake(s, w) && s.LaneOf(w) < |s.taken|
    ensures Budget(Take(s, w)) < Budget(s)
  {
    var s', l := Take(s, w), s.LaneOf(w);
    QueuesWeightFrame(s.tasks, s'.tasks, s'.queues);
    RanksFrame(s.tasks, s'.tasks, s'.workers);
    RanksUpdate(s.tasks, s.workers, w, s'.workers[w]);
    QueuesUpdate(s.tasks, s.queues, l, s.queues[l][1..]);
  }

  lemma StepSpends(s: State, s': State, w: nat)
    requires WorkerStep(s, s', w)
    ensures Budget(s') < Budget(s)
  {
    hide Budget, Take, CanTake, Drops, CanExit, CanAwait, CanBegin, CanEndWork, CanReport, CanClose, CanComplete, CanRelease;
    hide Await, Begin, EndWork, Close, Complete, Release, Move;
    if CanTake(s, w) && s.LaneOf(w) < |s.taken| && s' == Take(s, w) {
      TakeSpends(s, w);
    } else {
      if CanExit(s, w) { ExitDrops(s, w); }
      if CanAwait(s, w) { AwaitDrops(s, w); }
      if CanBegin(s, w) { BeginDrops(s, w); }
      if CanEndWork(s, w) { EndWorkDrops(s, w); }
      if CanReport(s, w) { ReportDrops(s, w); }
      if CanClose(s, w) { CloseDrops(s, w); }
      if CanComplete(s, w) { CompleteDrops(s, w); }
      if CanRelease(s, w) { ReleaseDrops(s, w); }
      DropSpends(s, s', w);
    }
  }

  lemma DropSpends(s: State, s': State, w: nat)
    requires Drops(s, s', w)
    ensures Budget(s') < Budget(s)
  {
    hide Budget, Rank;
    MoveSpends(s, s', w, s'.workers[w]);
  }

  /** One worker moved to a lower position; the queues and predecessor lists stand. */
  ghost predicate Drops(s: State, s': State, w: nat) {
    && w < |s.workers| && |s'.workers| == |s.workers| && SamePredecessors(s.tasks, s'.tasks) && s'.queues == s.queues
    && s'.workers == s.workers[w := s'.workers[w]]
    && Rank(s.tasks, s'.workers[w]) < Rank(s.tasks, s.workers[w])
  }

  lemma ExitDrops(s: State, w: nat)
    requires CanExit(s, w)
    ensures Drops(s, Move(s, w, Exited), w)
  {
  }

  lemma AwaitDrops(s: State, w: nat)
    requires CanAwait(s, w)
    ensures Drops(s, Await(s, w), w)
  {
  }

  lemma BeginDrops(s: State, w: nat)
    requires CanBegin(s, w)
    ensures Drops(s, Begin(s, w), w)
  {
  }

  lemma {:induction false} EndWorkDrops(s: State, w: nat)
    requires CanEndWork(s, w)
    ensures Drops(s, EndWork(s, w), w)
  {
  }

  lemma ReportDrops(s: State, w: nat)
    requires CanReport(s, w)
    ensures Drops(s, Move(s, w, Finishing(s.workers[w].task)), w)
  {
  }

  lemma {:induction false} CloseDrops(s: State, w: nat)
    requires CanClose(s, w)
    ensures Drops(s, Close(s, w), w)
  {
  }

  lemma {:induction false} CompleteDrops(s: State, w: nat)
    requires CanComplete(s, w)
    ensures Drops(s, Complete(s, w), w)
  {
  }

  lemma ReleaseDrops(s: State, w: nat)
    requires CanRelease(s, w)
    ensures Drops(s, Release(s, w), w)
  {
  }

  ghost predicate SomeoneSteps(s: State, s': State) {
    exists w :: WorkerStep(s, s', w)
  }

  ghost predicate Stuck(s: State) {
    forall w :: !CanStep(s, w)
  }

  /** Consecutive worker steps, nobody submitting. */
  ghost predicate IsDrain(states: seq<State>) {
    && states != []
    && forall i, j :: 0 <= i < |states| && j == i + 1 < |states| ==> SomeoneSteps(states[i], states[j])
  }

  /** Left alone, the executor stops moving within its budget, and where it
      stops nothing is owed: all tasks released, all workers parked or joined. */
  lemma {:induction false} DrainsCompletely(states: seq<State>)
    requires IsDrain(states) && Inv(states[0])
    ensures |states| - 1 <= Budget(states[0])
    ensures Inv(states[|states| - 1])
    ensures Stuck(states[|states| - 1]) ==> Quiescent(states[|states| - 1])
    decreases |states|
  {
    hide Inv, WorkerStep, Budget, CanStep, Quiescent;
    if |states| == 1 {
      if !Quiescent(states[0]) {
        var v := Progress(states[0]);
      }
    } else {
      assert SomeoneSteps(states[0], states[1]);
      var w :| WorkerStep(states[0], states[1], w);
      WorkerStepKeeps(states[0], states[1], w);
      StepSpends(states[0], states[1], w);
      var rest := states[1..];
      forall i, j | 0 <= i < |rest| && j == i + 1 < |rest| ensures SomeoneSteps(rest[i], rest[j]) {
        assert rest[i] == states[i + 1] && rest[j] == states[j + 1];
      }
      DrainsCompletely(rest);
    }
  }
}
