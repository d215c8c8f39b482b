/** The executor object: every critical section is one step of the protocol. */
module IngestExecutor {
  import opened WindowServices
  import opened IngestProtocol
  import opened IngestAdmission
  import opened IngestTheorems

  // ----- the order sequences of a batch are routed in -----

  predicate Before(a: string, b: string) {
    b != [] && (a == [] || a[0] < b[0] || (a[0] == b[0] && Before(a[1..], b[1..])))
  }

  lemma {:induction false} BeforeIsTotal(a: string, b: string)
    ensures a == b || Before(a, b) || Before(b, a)
    ensures !(Before(a, b) && Before(b, a))
  {
    if a != [] && b != [] {
      BeforeIsTotal(a[1..], b[1..]);
      assert a == [a[0]] + a[1..] && b == [b[0]] + b[1..];
    }
  }

  lemma {:induction false} BeforeIsTransitive(a: string, b: string, c: string)
    requires Before(a, b) && Before(b, c)
    ensures Before(a, c)
  {
    if a != [] && a[0] == b[0] == c[0] { BeforeIsTransitive(a[1..], b[1..], c[1..]); }
  }

  /** The order is that of the first differing character, a proper prefix coming first. */
  lemma {:induction false} BeforeIsLexicographic(a: string, b: string, n: nat)
    requires n <= |a| && n <= |b| && a[..n] == b[..n]
    ensures n == |a| < |b| ==> Before(a, b)
    ensures n == |b| ==> !Before(a, b)
    ensures n < |a| && n < |b| && a[n] != b[n] ==> (Before(a, b) <==> a[n] < b[n])
    decreases n
  {
    if n > 0 {
      assert a[0] == a[..n][0] == b[..n][0] == b[0];
      assert a[1..][..n - 1] == a[..n][1..] && b[1..][..n - 1] == b[..n][1..];
      BeforeIsLexicographic(a[1..], b[1..], n - 1);
    }
  }

  ghost predicate Ascending(ids: seq<SequenceId>) {
    forall i, j :: 0 <= i < j < |ids| ==> Before(ids[i], ids[j])
  }

  /** A set of identifiers has one ascending listing. */
  lemma {:induction false} AscendingIsUnique(a: seq<SequenceId>, b: seq<SequenceId>)
    requires Ascending(a) && Ascending(b)
    requires forall id :: id in a <==> id in b
    ensures a == b
  {
    hide Before;
    assert b == [] || b[0] in b;
    if a != [] {
      assert a[0] in b && b[0] in a;
      BeforeIsTotal(a[0], b[0]);
      assert a[0] == b[0];
      WithoutHead(a);
      WithoutHead(b);
      AscendingIsUnique(a[1..], b[1..]);
      assert a == [a[0]] + a[1..] && b == [b[0]] + b[1..];
    }
  }

  lemma WithoutHead(ids: seq<SequenceId>)
    requires ids != [] && Ascending(ids)
    ensures Ascending(ids[1..]) && forall id :: id in ids[1..] <==> id in ids && id != ids[0]
  {
    hide Before;
    BeforeIsTotal(ids[0], ids[0]);
    forall id ensures id in ids[1..] <==> id in ids && id != ids[0] {
      if id in ids[1..] {
        var i :| 0 <= i < |ids| - 1 && ids[1..][i] == id;
        assert ids[i + 1] == id;
      }
      if id in ids && id != ids[0] {
        var i :| 0 <= i < |ids| && ids[i] == id;
        assert ids[1..][i - 1] == id;
      }
    }
  }

  method SortIds(ids: seq<SequenceId>) returns (sorted: seq<SequenceId>)
    requires Distinct(ids)
    ensures Ascending(sorted) && forall id :: id in sorted <==> id in ids
  {
    hide Before;
    sorted := [];
    for i := 0 to |ids|
      invariant Ascending(sorted) && forall id :: id in sorted <==> id in ids[..i]
    {
      assert ids[i] !in ids[..i];
      assert ids[..i + 1] == ids[..i] + [ids[i]];
      sorted := InsertId(sorted, ids[i]);
    }
    assert ids[..|ids|] == ids;
  }

  method InsertId(ids: seq<SequenceId>, x: SequenceId) returns (r: seq<SequenceId>)
    requires Ascending(ids) && x !in ids
    ensures Ascending(r) && forall id :: id in r <==> id in ids || id == x
  {
    hide Before;
    var k := 0;
    while k < |ids| && Before(ids[k], x)
      invariant k <= |ids| && forall i :: 0 <= i < k ==> Before(ids[i], x)
    {
      k := k + 1;
    }
    if k < |ids| {
      BeforeIsTotal(ids[k], x);
      forall i | k < i < |ids| ensures Before(x, ids[i]) { BeforeIsTransitive(x, ids[k], ids[i]); }
    }
    r := ids[..k] + [x] + ids[k..];
    assert ids == ids[..k] + ids[k..];
  }

  // ----- routing a whole batch -----

  function KeysOf(project: string, ids: seq<SequenceId>): (r: seq<Key>)
    ensures |r| == |ids| && forall i :: 0 <= i < |ids| ==> r[i] == RoutingKey(project, ids[i])
  {
    seq(|ids|, i requires 0 <= i < |ids| => RoutingKey(project, ids[i]))
  }

  function RouteAll(s: State, keys: seq<Key>): (r: State)
    requires s.coldCount > 0
    ensures r == s.(writers := r.writers, nextWriter := r.nextWriter)
  {
    if keys == [] then s else RouteKey(RouteAll(s, keys[..|keys| - 1]), keys[|keys| - 1])
  }

  lemma RouteAllStep(s: State, keys: seq<Key>, k: Key)
    requires s.coldCount > 0
    ensures RouteAll(s, keys + [k]) == RouteKey(RouteAll(s, keys), k)
  {
    assert (keys + [k])[..|keys|] == keys;
  }

  /** Whose turn it is `n` turns on. */
  function Turn(start: nat, n: nat, c: nat): (w: nat)
    requires c > 0
    ensures w < c
  {
    (start + n) % c
  }

  /** The sequences a batch brings for the first time are dealt out in turn. */
  lemma {:induction false} NewSequencesDealtInTurn(s: State, keys: seq<Key>, i: nat)
    requires s.coldCount > 0 && s.nextWriter < s.coldCount && Distinct(keys)
    requires forall k :: k in keys ==> k !in s.writers
    requires i <= |keys|
    ensures RouteAll(s, keys).nextWriter == Turn(s.nextWriter, |keys|, s.coldCount)
    ensures forall k :: k in RouteAll(s, keys).writers <==> k in s.writers || k in keys
    ensures i < |keys| ==> RouteAll(s, keys).writers[keys[i]] == Turn(s.nextWriter, i, s.coldCount)
    decreases |keys|
  {
    hide RouteAll, Turn;
    var n := |keys| - 1;
    if keys == [] {
      NoTurn(s.nextWriter, s.coldCount);
      assert RouteAll(s, []) == s by { NothingRouted(s); }
    } else {
      var front, last := keys[..n], keys[n];
      assert keys == front + [last];
      LastIsNew(front, last);
      NewSequencesDealtInTurn(s, front, if i < n then i else n);
      RouteAllStep(s, front, last);
      NextTurn(s.nextWriter, n, s.coldCount);
    }
  }

  lemma LastIsNew(front: seq<Key>, last: Key)
    requires Distinct(front + [last])
    ensures Distinct(front) && last !in front
  {
    var all := front + [last];
    assert all[|front|] == last && forall i :: 0 <= i < |front| ==> all[i] == front[i];
  }

  lemma NoTurn(start: nat, c: nat)
    requires start < c
    ensures Turn(start, 0, c) == start
  {
  }

  lemma NextTurn(start: nat, n: nat, c: nat)
    requires c > 0
    ensures (Turn(start, n, c) + 1) % c == Turn(start, n + 1, c)
  {
    DealNext(start + n, c);
  }

  lemma DealNext(a: nat, c: nat)
    requires c > 0
    ensures (a % c + 1) % c == (a + 1) % c
  {
    var q, r := a / c, a % c;
    assert a == q * c + r;
    if r + 1 < c { DivisionIs(a + 1, c, q, r + 1); } else { DivisionIs(a + 1, c, q + 1, 0); }
    if r + 1 < c { DivisionIs(r + 1, c, 0, r + 1); } else { DivisionIs(r + 1, c, 1, 0); }
  }

  ghost predicate IdsOf(points: seq<RawPoint>, ids: seq<SequenceId>) {
    forall id :: id in ids <==> Brings(points, id)
  }

  ghost predicate Brings(points: seq<RawPoint>, id: SequenceId) {
    exists i :: 0 <= i < |points| && points[i].sequence == id
  }

  class IngestTaskExecutor {
    const coldWorkerCount: nat
    const queueCapacity: nat
    var sequenceWriters: map<Key, nat>
    var nextWriterIndex: nat
    var sequenceHotTails: map<Key, nat>
    var tasks: seq<Task>
    var coldQueues: seq<seq<nat>>
    var hotQueue: seq<nat>
    ghost var taken: seq<seq<nat>>
    ghost var begunLog: seq<nat>
    var pendingTasks: nat
    var stopping: bool
    var workers: seq<Phase>

    ghost function Snapshot(): State
      reads this
    {
      State.State(coldWorkerCount, queueCapacity, sequenceWriters, nextWriterIndex, sequenceHotTails, tasks,
                  coldQueues + [hotQueue], taken, begunLog, pendingTasks, stopping, workers)
    }

    ghost predicate Shaped()
      reads this
    {
      coldWorkerCount > 0 && |coldQueues| == coldWorkerCount && |taken| == coldWorkerCount + 1
    }

    constructor (coldWorkerCount: nat, hotWorkerCount: nat, queueCapacity: nat)
      requires coldWorkerCount > 0 && hotWorkerCount > 0 && queueCapacity > 0
      ensures Shaped() && Snapshot() == Initial(coldWorkerCount, hotWorkerCount, queueCapacity)
    {
      this.coldWorkerCount, this.queueCapacity := coldWorkerCount, queueCapacity;
      sequenceWriters, nextWriterIndex, sequenceHotTails := map[], 0, map[];
      tasks, coldQueues, hotQueue := [], seq(coldWorkerCount, w => []), [];
      taken, begunLog := seq(coldWorkerCount + 1, l => []), [];
      pendingTasks, stopping := 0, false;
      workers := seq(coldWorkerCount + hotWorkerCount, w => Idle);
    }

    method WriterForSequence(project: string, sequence: SequenceId) returns (writer: nat)
      requires Shaped()
      modifies `sequenceWriters, `nextWriterIndex
      ensures Snapshot() == RouteKey(old(Snapshot()), RoutingKey(project, sequence))
      ensures RoutingKey(project, sequence) in sequenceWriters && writer == sequenceWriters[RoutingKey(project, sequence)]
    {
      hide RoutingKey;
      var key := RoutingKey(project, sequence);
      if key in sequenceWriters { return sequenceWriters[key]; }
      writer := nextWriterIndex;
      nextWriterIndex := (nextWriterIndex + 1) % coldWorkerCount;
      sequenceWriters := sequenceWriters[key := writer];
    }

    /** The identifiers of a batch, each once, in order. */
    method CollectIds(points: seq<RawPoint>) returns (ids: seq<SequenceId>)
      ensures Ascending(ids) && IdsOf(points, ids)
    {
      var seen: set<SequenceId> := {};
      ids := [];
      for i := 0 to |points|
        invariant Distinct(ids) && forall id :: id in seen <==> id in ids
        invariant IdsOf(points[..i], ids)
      {
        OneMoreId(points, i, ids);
        if points[i].sequence !in seen {
          seen := seen + {points[i].sequence};
          ids := ids + [points[i].sequence];
        }
      }
      assert points[..|points|] == points;
      ids := SortIds(ids);
    }

    /** The part of a submission before the lock: every sequence routed, the
        points split by writer. */
    method PlanBatch(project: string, points: seq<RawPoint>)
      returns (ids: seq<SequenceId>, shards: seq<seq<RawPoint>>)
      requires Shaped() && forall k :: k in sequenceWriters ==> sequenceWriters[k] < coldWorkerCount
      requires nextWriterIndex < coldWorkerCount
      modifies `sequenceWriters, `nextWriterIndex
      ensures Ascending(ids) && IdsOf(points, ids)
      ensures Snapshot() == RouteAll(old(Snapshot()), KeysOf(project, ids))
      ensures forall k :: k in sequenceWriters ==> sequenceWriters[k] < coldWorkerCount
      ensures |shards| == coldWorkerCount && forall w :: 0 <= w < coldWorkerCount ==> shards[w] == Shard(project, points, sequenceWriters, w)
    {
      hide RouteAll, Shard, RoutingKey, RouteKey, Before, Ascending;
      ids := CollectIds(points);
      ghost var keys := KeysOf(project, ids);
      var batchWriters: map<SequenceId, nat> := map[];
      NothingRouted(Snapshot());
      for i := 0 to |ids|
        invariant Snapshot() == RouteAll(old(Snapshot()), keys[..i])
        invariant nextWriterIndex < coldWorkerCount
        invariant forall k :: k in sequenceWriters ==> sequenceWriters[k] < coldWorkerCount
        invariant forall j :: 0 <= j < i ==> Planned(sequenceWriters, batchWriters, project, ids[j])
      {
        RouteAllStep(old(Snapshot()), keys[..i], keys[i]);
        assert keys[..i + 1] == keys[..i] + [keys[i]];
        RoutingExtends(Snapshot(), keys[i]);
        var writer := WriterForSequence(project, ids[i]);
        batchWriters := batchWriters[ids[i] := writer];
      }
      assert keys[..|ids|] == keys;
      shards := seq(coldWorkerCount, w => []);
      forall w | 0 <= w < coldWorkerCount ensures shards[w] == Shard(project, points[..0], sequenceWriters, w) {
        EmptyShard(project, sequenceWriters, w);
      }
      for i := 0 to |points|
        invariant |shards| == coldWorkerCount
        invariant forall w :: 0 <= w < coldWorkerCount ==> shards[w] == Shard(project, points[..i], sequenceWriters, w)
      {
        var p := points[i];
        assert p.sequence in ids;
        assert Planned(sequenceWriters, batchWriters, project, p.sequence);
        forall w | 0 <= w < coldWorkerCount
          ensures Shard(project, points[..i + 1], sequenceWriters, w) ==
                  Shard(project, points[..i], sequenceWriters, w) + if w == batchWriters[p.sequence] then [p] else []
        {
          ShardStep(project, points, i, sequenceWriters, w);
        }
        var shard := batchWriters[p.sequence];
        shards := shards[shard := shards[shard] + [p]];
      }
      assert points[..|points|] == points;
    }

    /** The part under the queue lock. */
    method AdmitTask(project: string, points: seq<RawPoint>, ids: seq<SequenceId>, shards: seq<seq<RawPoint>>)
      returns (accepted: bool)
      requires Shaped() && Distinct(KeysOf(project, ids))
      requires |shards| == coldWorkerCount && forall w :: 0 <= w < coldWorkerCount ==> shards[w] == Shard(project, points, sequenceWriters, w)
      modifies `sequenceHotTails, `tasks, `coldQueues, `hotQueue, `pendingTasks
      ensures Shaped() && Snapshot() == Admit(old(Snapshot()), project, points, KeysOf(project, ids))
      ensures accepted <==> !stopping && old(pendingTasks) < queueCapacity
    {
      hide Shard, RoutingKey, Predecessors, TailsAfter, CountQueued, Distinct;
      if stopping || pendingTasks >= queueCapacity { return false; }
      var keys := KeysOf(project, ids);
      var t := |tasks|;
      var lanes, remaining := PlanLanes(shards);
      var predecessors := LinkPredecessors(keys, t);
      pendingTasks := pendingTasks + 1;
      QueueColdShares(shards, t);
      hotQueue := hotQueue + [t];
      tasks := tasks + [Task(project, points, keys, shards, predecessors, false, false, lanes, remaining, Open, 0)];
      accepted := true;
      ghost var before := old(Snapshot());
      ghost var task := NewTask(before, project, points, keys);
      assert shards == task.shards && lanes == task.lanes;
      assert tasks == before.tasks + [task];
      ghost var queues := Admit(before, project, points, keys).queues;
      forall w | 0 <= w < coldWorkerCount ensures coldQueues[w] == queues[w] {
        assert before.queues[w] == old(coldQueues)[w] && task.lanes[w] == if shards[w] == [] then Unneeded else Queued;
      }
      assert coldQueues + [hotQueue] == queues;
    }

    /** The task joins the queue of every cold worker it has points for. */
    method QueueColdShares(shards: seq<seq<RawPoint>>, t: nat)
      requires |shards| == |coldQueues| == coldWorkerCount
      modifies `coldQueues
      ensures |coldQueues| == coldWorkerCount
      ensures forall w :: 0 <= w < coldWorkerCount ==> coldQueues[w] == old(coldQueues)[w] + if shards[w] != [] then [t] else []
    {
      for w := 0 to coldWorkerCount
        invariant |coldQueues| == coldWorkerCount
        invariant forall v :: 0 <= v < coldWorkerCount ==>
                                coldQueues[v] == old(coldQueues)[v] + if v < w && shards[v] != [] then [t] else []
      {
        if shards[w] != [] { coldQueues := coldQueues[w := coldQueues[w] + [t]]; }
      }
    }

    method PlanLanes(shards: seq<seq<RawPoint>>) returns (lanes: seq<Lane>, remaining: nat)
      ensures lanes == seq(|shards|, w requires 0 <= w < |shards| => if shards[w] == [] then Unneeded else Queued) + [Queued]
      ensures remaining == CountQueued(lanes)
    {
      lanes, remaining := [], 1;
      for w := 0 to |shards|
        invariant |lanes| == w && remaining == CountQueued(lanes) + 1
        invariant forall v :: 0 <= v < w ==> lanes[v] == if shards[v] == [] then Unneeded else Queued
      {
        var lane := if shards[w] == [] then Unneeded else Queued;
        assert (lanes + [lane])[..w] == lanes;
        lanes := lanes + [lane];
        if shards[w] != [] { remaining := remaining + 1; }
      }
      assert (lanes + [Queued])[..|lanes|] == lanes;
      lanes := lanes + [Queued];
    }

    method LinkPredecessors(keys: seq<Key>, t: nat) returns (predecessors: seq<nat>)
      requires Distinct(keys)
      modifies `sequenceHotTails
      ensures predecessors == Predecessors(old(sequenceHotTails), keys)
      ensures sequenceHotTails == TailsAfter(old(sequenceHotTails), keys, t)
    {
      predecessors := [];
      for i := 0 to |keys|
        invariant predecessors == Predecessors(old(sequenceHotTails), keys[..i])
        invariant sequenceHotTails == TailsAfter(old(sequenceHotTails), keys[..i], t)
      {
        var key := keys[i];
        assert key !in keys[..i];
        TailsAre(old(sequenceHotTails), keys[..i], t, key);
        assert keys[..i + 1][..i] == keys[..i];
        if key in sequenceHotTails { predecessors := predecessors + [sequenceHotTails[key]]; }
        sequenceHotTails := sequenceHotTails[key := t];
      }
      assert keys[..|keys|] == keys;
    }

    method TrySubmit(project: string, points: seq<RawPoint>) returns (accepted: bool, ghost ids: seq<SequenceId>)
      requires Shaped() && forall k :: k in sequenceWriters ==> sequenceWriters[k] < coldWorkerCount
      requires nextWriterIndex < coldWorkerCount
      modifies this
      ensures Ascending(ids) && IdsOf(points, ids)
      ensures Snapshot() == Admit(RouteAll(old(Snapshot()), KeysOf(project, ids)), project, points, KeysOf(project, ids))
      ensures ReadyToSubmit(RouteAll(old(Snapshot()), KeysOf(project, ids)), project, points, KeysOf(project, ids))
      ensures accepted <==> old(!stopping && pendingTasks < queueCapacity)
    {
      hide Shard, RouteAll, RoutingKey, Admit, Before, Ascending, ReadyToSubmit;
      var plannedIds, shards := PlanBatch(project, points);
      ids := plannedIds;
      KeysAreDistinct(project, ids);
      ReadyAfterRouting(old(Snapshot()), project, points, ids);
      accepted := AdmitTask(project, points, plannedIds, shards);
    }

    // ----- worker loops -----

    /** The dequeue section of both loops: take the head, or leave when stopping. */
    method TakeNext(w: nat) returns (took: bool)
      requires Shaped() && w < |workers| && workers[w] == Idle
      modifies `workers, `coldQueues, `hotQueue, `tasks, `taken
      ensures Shaped()
      ensures took <==> CanTake(old(Snapshot()), w)
      ensures took ==> Snapshot() == Take(old(Snapshot()), w)
      ensures !took ==> Snapshot() == if stopping then Move(old(Snapshot()), w, Exited) else old(Snapshot())
    {
      if (if w < coldWorkerCount then coldQueues[w] else hotQueue) == [] {
        if stopping { workers := workers[w := Exited]; }
        return false;
      }
      TakeHead(w);
      took := true;
    }

    method TakeHead(w: nat)
      requires Shaped() && CanTake(Snapshot(), w)
      modifies `workers, `coldQueues, `hotQueue, `tasks, `taken
      ensures Shaped() && Snapshot() == Take(old(Snapshot()), w)
    {
      ghost var before := Snapshot();
      var cold := w < coldWorkerCount;
      var queue := if cold then coldQueues[w] else hotQueue;
      var t := queue[0];
      var l := if cold then w else coldWorkerCount;
      TakenState(before, w);
      hide Take, CanTake;
      if cold { coldQueues := coldQueues[w := queue[1..]]; } else { hotQueue := queue[1..]; }
      assert coldQueues + [hotQueue] == before.queues[l := queue[1..]];
      taken := taken[l := taken[l] + [t]];
      workers := workers[w := if cold then Working(t) else Waiting(t, 0)];
      if t < |tasks| && l < |tasks[t].lanes| { tasks := tasks[t := tasks[t].(lanes := tasks[t].lanes[l := Held(w)])]; }
    }

    /** Counting a lane down; the last one answers the task and frees its slot. */
    method CompleteTask(w: nat)
      requires Shaped() && CanClose(Snapshot(), w)
      modifies `workers, `tasks, `pendingTasks
      ensures var closed := Close(old(Snapshot()), w);
              Snapshot() == if old(tasks[workers[w].task].remaining) == 1 then Release(Complete(closed, w), w) else closed
    {
      ghost var before := Snapshot();
      var t := workers[w].task;
      var remaining := CountDown(w);
      if remaining != 0 {
        workers := workers[w := Idle];
        return;
      }
      AnswerAndRelease(before, w);
      hide Release, Complete, Close, CanClose;
      tasks := tasks[t := tasks[t].(completions := tasks[t].completions + 1, stage := Released)];
      if pendingTasks != 0 { pendingTasks := pendingTasks - 1; }
      workers := workers[w := Idle];
      assert tasks == before.tasks[t := before.tasks[t].(lanes := before.tasks[t].lanes[before.LaneOf(w) := Closed], remaining := 0,
                                                         completions := before.tasks[t].completions + 1, stage := Released)];
    }

    /** One lane of the worker's task is closed. */
    method CountDown(w: nat) returns (remaining: nat)
      requires Shaped() && CanClose(Snapshot(), w)
      modifies `tasks
      ensures var s, t := old(Snapshot()), workers[w].task;
              && remaining == s.tasks[t].remaining - 1
              && tasks == s.tasks[t := s.tasks[t].(lanes := s.tasks[t].lanes[s.LaneOf(w) := Closed], remaining := remaining)]
    {
      var t := workers[w].task;
      var l := if w < coldWorkerCount then w else coldWorkerCount;
      remaining := tasks[t].remaining - 1;
      tasks := tasks[t := tasks[t].(lanes := tasks[t].lanes[l := Closed], remaining := remaining)];
    }
  }

  /** Taking the head of a queue, field by field. */
  lemma TakenState(s: State, w: nat)
    requires s.LaneOf(w) < |s.taken| && CanTake(s, w)
    ensures var l, t := s.LaneOf(w), s.queues[s.LaneOf(w)][0];
            Take(s, w) == s.(queues := s.queues[l := s.queues[l][1..]],
                             taken := s.taken[l := s.taken[l] + [t]],
                             workers := s.workers[w := if w < s.coldCount then Working(t) else Waiting(t, 0)],
                             tasks := if t < |s.tasks| && l < |s.tasks[t].lanes|
                                      then s.tasks[t := s.tasks[t].(lanes := s.tasks[t].lanes[l := Held(w)])] else s.tasks)
  {
  }

  ghost predicate Planned(writers: map<Key, nat>, batchWriters: map<SequenceId, nat>, project: string, id: SequenceId) {
    id in batchWriters && RoutingKey(project, id) in writers && batchWriters[id] == writers[RoutingKey(project, id)]
  }

  lemma OneMoreId(points: seq<RawPoint>, i: nat, ids: seq<SequenceId>)
    requires i < |points| && IdsOf(points[..i], ids)
    ensures IdsOf(points[..i + 1], if points[i].sequence in ids then ids else ids + [points[i].sequence])
  {
    forall id ensures Brings(points[..i + 1], id) <==> Brings(points[..i], id) || id == points[i].sequence {
      var before, upto := points[..i], points[..i + 1];
      assert upto[i] == points[i];
      if j :| 0 <= j < |before| && before[j].sequence == id { assert upto[j].sequence == id; }
      if j :| 0 <= j < |upto| && upto[j].sequence == id && j < i { assert before[j].sequence == id; }
    }
  }

  /** The last lane's three steps, with nothing in between, in one go. */
  lemma {:induction false} AnswerAndRelease(s: State, w: nat)
    requires CanClose(s, w) && s.tasks[s.workers[w].task].remaining == 1
    ensures var t := s.workers[w].task;
            var k := s.tasks[t];
            Release(Complete(Close(s, w), w), w) ==
            s.(tasks := s.tasks[t := k.(lanes := k.lanes[s.LaneOf(w) := Closed], remaining := 0,
                                        completions := k.completions + 1, stage := Released)],
               workers := s.workers[w := Idle],
               pending := if s.pending != 0 then s.pending - 1 else 0)
  {
  }

  lemma NothingRouted(s: State)
    requires s.coldCount > 0
    ensures RouteAll(s, []) == s
  {
  }

  lemma {:induction false} RoutingExtends(s: State, k: Key)
    requires s.coldCount > 0 && s.nextWriter < s.coldCount
    ensures RouteKey(s, k).nextWriter < s.coldCount
    ensures forall q :: q in s.writers ==> q in RouteKey(s, k).writers && RouteKey(s, k).writers[q] == s.writers[q]
    ensures (forall q :: q in s.writers ==> s.writers[q] < s.coldCount) ==>
              forall q :: q in RouteKey(s, k).writers ==> RouteKey(s, k).writers[q] < s.coldCount
  {
  }

  lemma {:induction false} RoutedKeys(s: State, keys: seq<Key>)
    requires s.coldCount > 0
    ensures forall k :: k in RouteAll(s, keys).writers <==> k in s.writers || k in keys
    decreases |keys|
  {
    if keys != [] {
      RoutedKeys(s, keys[..|keys| - 1]);
      assert keys == keys[..|keys| - 1] + [keys[|keys| - 1]];
    }
  }

  /** What the routing part leaves behind is what the admission step expects. */
  lemma {:induction false} ReadyAfterRouting(s: State, project: string, points: seq<RawPoint>, ids: seq<SequenceId>)
    requires s.coldCount > 0 && Ascending(ids) && IdsOf(points, ids)
    ensures ReadyToSubmit(RouteAll(s, KeysOf(project, ids)), project, points, KeysOf(project, ids))
  {
    hide RouteAll, RoutingKey, Before, Ascending;
    var keys := KeysOf(project, ids);
    KeysAreDistinct(project, ids);
    RoutedKeys(s, keys);
    forall i | 0 <= i < |points| ensures RoutingKey(project, points[i].sequence) in keys {
      assert Brings(points, points[i].sequence);
      var j :| 0 <= j < |ids| && ids[j] == points[i].sequence;
      assert keys[j] == RoutingKey(project, points[i].sequence);
    }
    forall k | k in keys ensures exists i :: 0 <= i < |points| && k == RoutingKey(project, points[i].sequence) {
      var j :| 0 <= j < |keys| && keys[j] == k;
      assert ids[j] in ids && Brings(points, ids[j]);
    }
  }

  lemma EmptyShard(project: string, writers: map<Key, nat>, w: nat)
    ensures Shard(project, [], writers, w) == []
  {
  }

  lemma ShardStep(project: string, points: seq<RawPoint>, i: nat, writers: map<Key, nat>, w: nat)
    requires i < |points|
    ensures var k := RoutingKey(project, points[i].sequence);
            Shard(project, points[..i + 1], writers, w) ==
            Shard(project, points[..i], writers, w) + if k in writers && writers[k] == w then [points[i]] else []
  {
    hide RoutingKey;
    assert points[..i + 1][..i] == points[..i];
  }

  lemma KeysAreDistinct(project: string, ids: seq<SequenceId>)
    requires Ascending(ids)
    ensures Distinct(KeysOf(project, ids))
  {
    hide Before;
    var keys, n := KeysOf(project, ids), |project| + 1;
    forall i, j | 0 <= i < j < |keys| ensures keys[i] != keys[j] {
      BeforeIsTotal(ids[i], ids[j]);
      BeforeIsTotal(ids[i], ids[i]);
      assert keys[i][n..] == ids[i] && keys[j][n..] == ids[j];
    }
  }
}
