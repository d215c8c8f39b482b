/** Routing and admission keep the executor's invariant. */
module IngestAdmission {
  import opened WindowServices
  import opened IngestProtocol
  import opened IngestInvariant

  // ----- routing -----

  lemma CountUp(n: nat, c: nat)
    requires c > 0
    ensures if n % c + 1 == c then (n + 1) / c == n / c + 1 && (n + 1) % c == 0
            else (n + 1) / c == n / c && (n + 1) % c == n % c + 1
  {
    var q, r := n / c, n % c;
    assert n + 1 == q * c + (r + 1);
    if r + 1 == c {
      assert n + 1 == (q + 1) * c;
      DivisionIs(n + 1, c, q + 1, 0);
    } else {
      DivisionIs(n + 1, c, q, r + 1);
    }
  }

  lemma DivisionIs(n: nat, c: nat, q: nat, r: nat)
    requires c > 0 && r < c && n == q * c + r
    ensures n / c == q && n % c == r
  {
    var q', r' := n / c, n % c;
    assert (q - q') * c == r' - r;
    if q > q' { Scale(1, q - q', c); } else if q < q' { Scale(1, q' - q, c); }
  }

  lemma Scale(a: int, b: int, c: nat)
    requires a <= b
    ensures a * c <= b * c
  {
  }

  lemma AssignNext(writers: map<Key, nat>, k: Key, n: nat, w: nat)
    requires k !in writers
    ensures |AssignedTo(writers[k := n], w)| == |AssignedTo(writers, w)| + if w == n then 1 else 0
  {
    var a := AssignedTo(writers, w);
    assert AssignedTo(writers[k := n], w) == if w == n then a + {k} else a;
  }

  lemma LoadUp(n: nat, c: nat, w: nat)
    requires w < c
    ensures Load(n + 1, c, w) == Load(n, c, w) + if w == n % c then 1 else 0
  {
    CountUp(n, c);
  }

  lemma TurnUp(n: nat, c: nat)
    requires c > 0
    ensures (n % c + 1) % c == (n + 1) % c
  {
    CountUp(n, c);
  }

  lemma OneMore(writers: map<Key, nat>, k: Key, n: nat)
    requires k !in writers
    ensures |writers[k := n]| == |writers| + 1
  {
    assert writers[k := n].Keys == writers.Keys + {k};
  }

  /** Round-robin keeps any two writers' loads within one of each other. */
  lemma RouteKeepsRouting(s: State, k: Key)
    requires RoutingInv(s)
    ensures RoutingInv(RouteKey(s, k))
  {
    hide AssignedTo, Load;
    if k !in s.writers {
      TurnUp(|s.writers|, s.coldCount);
      OneMore(s.writers, k, s.nextWriter);
      var writers := s.writers[k := s.nextWriter];
      forall w | 0 <= w < s.coldCount ensures |AssignedTo(writers, w)| == Load(|s.writers| + 1, s.coldCount, w) {
        LoadUp(|s.writers|, s.coldCount, w);
        AssignNext(s.writers, k, s.nextWriter, w);
      }
    }
  }

  /** The loads of any two writers differ by at most one. */
  lemma LoadsBalanced(s: State, v: nat, w: nat)
    requires RoutingInv(s) && v < s.coldCount && w < s.coldCount
    ensures |AssignedTo(s.writers, v)| <= |AssignedTo(s.writers, w)| + 1
  {
  }

  lemma RouteKeeps(s: State, k: Key)
    requires Inv(s)
    ensures Inv(RouteKey(s, k))
    ensures forall j :: j in s.writers ==> j in RouteKey(s, k).writers && RouteKey(s, k).writers[j] == s.writers[j]
  {
    hide RoutingInv, OrderInv, QueueInv, CountInv, PendingInv, DependencyInv, LogInv;
    var s' := RouteKey(s, k);
    RouteKeepsRouting(s, k) by { assert s.coldCount > 0; }
    GlobalsFrame(s, s');
  }

  /** Nothing the workers, tasks and queues depend on changed. */
  lemma GlobalsFrame(s: State, s': State)
    requires Inv(s)
    requires s' == s.(writers := s'.writers, nextWriter := s'.nextWriter, stopping := s'.stopping)
    requires s.stopping ==> s'.stopping
    ensures s'.Shape() && QueueInv(s') && LaneInv(s') && CountInv(s') && PendingInv(s')
    ensures DependencyInv(s') && OrderInv(s') && LogInv(s')
  {
    hide RoutingInv, Needing;
    GlobalsFrameLanes(s, s');
    GlobalsFrameOrder(s, s');
    DependencyFrame(s, s');
    LogFrame(s, s');
  }

  lemma GlobalsFrameLanes(s: State, s': State)
    requires s.Shape() && LaneInv(s)
    requires s' == s.(writers := s'.writers, nextWriter := s'.nextWriter, stopping := s'.stopping)
    requires s.stopping ==> s'.stopping
    ensures LaneInv(s')
  {
    forall v | 0 <= v < |s'.workers| ensures WorkerOwns(s', v) { assert WorkerOwns(s, v); }
  }

  lemma {:induction false} GlobalsFrameOrder(s: State, s': State)
    requires s.Shape() && OrderInv(s)
    requires s' == s.(writers := s'.writers, nextWriter := s'.nextWriter, stopping := s'.stopping)
    ensures OrderInv(s')
  {
    hide Share;
    forall v | s'.coldCount <= v < |s'.workers| ensures HotPosition(s', v) { assert HotPosition(s, v); }
  }

  lemma {:induction false} StopKeeps(s: State)
    requires Inv(s)
    ensures Inv(Stop(s))
  {
    hide OrderInv, QueueInv, CountInv, PendingInv, DependencyInv, LogInv, LaneInv;
    GlobalsFrame(s, Stop(s));
  }

  // ----- admission -----

  lemma {:induction false} PredecessorsAre(tails: map<Key, nat>, keys: seq<Key>, p: nat)
    ensures p in Predecessors(tails, keys) <==> exists k :: k in keys && k in tails && tails[k] == p
    decreases |keys|
  {
    if keys != [] {
      var front := keys[..|keys| - 1];
      PredecessorsAre(tails, front, p);
      assert keys == front + [keys[|keys| - 1]];
    }
  }

  lemma {:induction false} TailsAre(tails: map<Key, nat>, keys: seq<Key>, t: nat, k: Key)
    ensures k in TailsAfter(tails, keys, t) <==> k in tails || k in keys
    ensures k in keys ==> TailsAfter(tails, keys, t)[k] == t
    ensures k !in keys && k in tails ==> TailsAfter(tails, keys, t)[k] == tails[k]
    decreases |keys|
  {
    if keys != [] {
      TailsAre(tails, keys[..|keys| - 1], t, k);
      assert keys == keys[..|keys| - 1] + [keys[|keys| - 1]];
    }
  }

  lemma {:induction false} FreshLanesOpen(lanes: seq<Lane>)
    requires forall l :: 0 <= l < |lanes| ==> lanes[l] == Unneeded || lanes[l] == Queued
    ensures OpenLanes(lanes) == CountQueued(lanes)
    decreases |lanes|
  {
    if lanes != [] { FreshLanesOpen(lanes[..|lanes| - 1]); }
  }

  lemma CoverStays(before: seq<Task>, after: seq<Task>, v: nat, u: nat, k: Key)
    requires v < |before| && CoveredBy(before, v, u, k)
    requires |before| <= |after| && forall i :: 0 <= i < |before| ==> after[i] == before[i]
    ensures CoveredBy(after, v, u, k)
  {
    var p :| p in before[v].predecessors && u <= p < |before| && k in before[p].keys;
    assert p in after[v].predecessors && k in after[p].keys;
  }

  lemma {:induction false} AdmitKeepsDependencies(s: State, project: string, points: seq<RawPoint>, keys: seq<Key>)
    requires s.Shape() && DependencyInv(s) && Admissible(s)
    ensures DependencyInv(Admit(s, project, points, keys))
  {
    var s' := Admit(s, project, points, keys);
    AdmitAddsOne(s, project, points, keys);
    AdmitKeepsCovers(s, s'.tasks, keys);
    hide Admit, CoveredBy;
    AdmitKeepsTails(s, s'.tasks, keys);
  }

  lemma AdmitAddsOne(s: State, project: string, points: seq<RawPoint>, keys: seq<Key>)
    requires |s.queues| == s.coldCount + 1 && Admissible(s)
    ensures var s', t := Admit(s, project, points, keys), |s.tasks|;
            && |s'.tasks| == t + 1 && s'.tasks[..t] == s.tasks && s'.tails == TailsAfter(s.tails, keys, t)
            && s'.tasks[t].keys == keys && s'.tasks[t].predecessors == Predecessors(s.tails, keys)
  {
    hide Predecessors, TailsAfter, CountQueued, Shard;
  }

  /** The new task waits, key by key, on the last one that had the key. */
  lemma AdmitKeepsCovers(s: State, after: seq<Task>, keys: seq<Key>)
    requires DependencyInv(s) && |after| == |s.tasks| + 1 && after[..|s.tasks|] == s.tasks
    requires after[|s.tasks|].keys == keys && after[|s.tasks|].predecessors == Predecessors(s.tails, keys)
    ensures forall t, p :: 0 <= t < |after| && p in after[t].predecessors ==> p < t
    ensures forall t, u, k :: 0 <= u < t < |after| && k in after[t].keys && k in after[u].keys ==> CoveredBy(after, t, u, k)
  {
    hide Predecessors, CoveredBy;
    var t := |s.tasks|;
    assert forall u :: 0 <= u < t ==> after[u] == s.tasks[u];
    forall p | p in after[t].predecessors ensures p < t {
      PredecessorsAre(s.tails, keys, p);
    }
    forall u, k | 0 <= u < t && k in keys && k in s.tasks[u].keys ensures CoveredBy(after, t, u, k) {
      PredecessorsAre(s.tails, keys, s.tails[k]);
      CoveredByTail(after, t, u, k, s.tails[k]);
    }
    forall v, u, k | 0 <= u < v < t && k in s.tasks[v].keys && k in s.tasks[u].keys ensures CoveredBy(after, v, u, k) {
      assert CoveredBy(s.tasks, v, u, k);
      CoverStays(s.tasks, after, v, u, k);
    }
  }

  lemma CoveredByTail(tasks: seq<Task>, t: nat, u: nat, k: Key, p: nat)
    requires t < |tasks| && p in tasks[t].predecessors && u <= p < |tasks| && k in tasks[p].keys
    ensures CoveredBy(tasks, t, u, k)
  {
  }

  lemma AdmitKeepsTails(s: State, after: seq<Task>, keys: seq<Key>)
    requires DependencyInv(s) && |after| == |s.tasks| + 1 && after[..|s.tasks|] == s.tasks && after[|s.tasks|].keys == keys
    ensures var tails := TailsAfter(s.tails, keys, |s.tasks|);
            && (forall k :: k in tails ==> tails[k] < |after| && k in after[tails[k]].keys)
            && (forall u, k :: 0 <= u < |after| && k in after[u].keys ==> k in tails && u <= tails[k])
  {
    hide TailsAfter, CoveredBy;
    var t, tails := |s.tasks|, TailsAfter(s.tails, keys, |s.tasks|);
    assert forall u :: 0 <= u < t ==> after[u] == s.tasks[u];
    forall k ensures k in tails ==> tails[k] <= t && k in after[tails[k]].keys { TailsAre(s.tails, keys, t, k); }
    forall u, k | 0 <= u <= t && k in after[u].keys ensures k in tails && u <= tails[k] { TailsAre(s.tails, keys, t, k); }
  }

  lemma {:induction false} AdmitKeepsQueues(s: State, project: string, points: seq<RawPoint>, keys: seq<Key>)
    requires s.Shape() && QueueInv(s) && Admissible(s)
    ensures Admit(s, project, points, keys).Shape() && QueueInv(Admit(s, project, points, keys))
  {
    var s' := Admit(s, project, points, keys);
    var t := |s.tasks|;
    assert s'.tasks[..t] == s.tasks;
    forall l | 0 <= l <= s.coldCount ensures s'.taken[l] + s'.queues[l] == Needing(s'.tasks, l) {
      assert s.taken[l] + s.queues[l] == Needing(s.tasks, l);
    }
  }

  lemma AdmitKeepsLanes(s: State, project: string, points: seq<RawPoint>, keys: seq<Key>)
    requires s.Shape() && QueueInv(s) && LaneInv(s) && Admissible(s) && Admit(s, project, points, keys).Shape()
    ensures LaneInv(Admit(s, project, points, keys))
  {
    hide Needing, Predecessors, TailsAfter, Shard, CountQueued;
    var s' := Admit(s, project, points, keys);
    var t := |s.tasks|;
    var lanes := s'.tasks[t].lanes;
    assert forall u :: 0 <= u < t ==> s'.tasks[u] == s.tasks[u];
    forall l | 0 <= l <= s.coldCount
      ensures s'.queues[l] == s.queues[l] + if lanes[l].Queued? then [t] else []
      ensures t !in s.queues[l] && (lanes[l] == Unneeded || lanes[l] == Queued)
    {
      if t in s.queues[l] { QueuedExists(s, l, t); }
    }
    forall v | 0 <= v < |s'.workers| ensures WorkerOwns(s', v) { assert WorkerOwns(s, v); }
  }

  lemma {:induction false} AdmitKeepsCounts(s: State, project: string, points: seq<RawPoint>, keys: seq<Key>)
    requires s.Shape() && CountInv(s) && PendingInv(s) && Admissible(s)
    ensures CountInv(Admit(s, project, points, keys)) && PendingInv(Admit(s, project, points, keys))
  {
    hide Predecessors, TailsAfter, Shard, OpenLanes, CountQueued;
    var s' := Admit(s, project, points, keys);
    var t := |s.tasks|;
    FreshLanesOpen(s'.tasks[t].lanes);
    NoOpenLanes(s'.tasks[t].lanes, s.coldCount);
    assert s'.tasks[..t] == s.tasks;
    assert forall u :: 0 <= u < t ==> s'.tasks[u] == s.tasks[u];
  }

  lemma {:induction false} AdmitKeepsOrder(s: State, project: string, points: seq<RawPoint>, keys: seq<Key>)
    requires s.Shape() && OrderInv(s) && LogInv(s) && Admissible(s) && Admit(s, project, points, keys).Shape()
    ensures OrderInv(Admit(s, project, points, keys)) && LogInv(Admit(s, project, points, keys))
  {
    hide Predecessors, TailsAfter, Shard, OpenLanes, CountQueued, Share;
    var s' := Admit(s, project, points, keys);
    var t := |s.tasks|;
    assert forall u :: 0 <= u < t ==> s'.tasks[u] == s.tasks[u];
    forall v | s'.coldCount <= v < |s'.workers| ensures HotPosition(s', v) { assert HotPosition(s, v); }
    assert forall i :: 0 <= i < |s.begunLog| ==> s.begunLog[i] < t;
    assert t !in s.begunLog;
  }

  lemma AdmitKeeps(s: State, project: string, points: seq<RawPoint>, keys: seq<Key>)
    requires Inv(s)
    ensures Inv(Admit(s, project, points, keys))
  {
    hide OrderInv, QueueInv, CountInv, PendingInv, DependencyInv, LogInv, LaneInv, Predecessors, TailsAfter, NewTask;
    if Admissible(s) {
      AdmitKeepsQueues(s, project, points, keys);
      AdmitKeepsLanes(s, project, points, keys);
      AdmitKeepsCounts(s, project, points, keys);
      AdmitKeepsDependencies(s, project, points, keys);
      AdmitKeepsOrder(s, project, points, keys);
    }
  }
}
