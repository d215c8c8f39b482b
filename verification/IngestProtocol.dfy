/** The ingest executor as an interleaved step system: bounded admission, one
    FIFO queue per cold writer, one shared hot queue, and worker positions. */
module IngestProtocol {
  import opened WindowServices

  type Key = string

  const KEY_SEPARATOR := '\U{1e}'

  function RoutingKey(project: string, sequence: SequenceId): Key {
    project + [KEY_SEPARATOR] + sequence
  }

  /** Where one lane of an admitted task stands. */
  datatype Lane = Unneeded | Queued | Held(holder: nat) | Closed

  /** What is left to do once a task's lanes are all closed. */
  datatype Stage = Open | CompletingBy(worker: nat) | ReleasingBy(worker: nat) | Released

  /** A worker's position in its loop. */
  datatype Phase =
    | Idle
    | Waiting(task: nat, next: nat)
    | Working(task: nat)
    | Reporting(task: nat)
    | Finishing(task: nat)
    | Completing(task: nat)
    | Releasing(task: nat)
    | Exited
  {
    /** The worker still owes its lane of task `t`. */
    predicate Holds(t: nat) {
      (Waiting? || Working? || Reporting? || Finishing?) && task == t
    }
  }

  datatype Task = Task(
    project: string,
    points: seq<RawPoint>,
    keys: seq<Key>,
    shards: seq<seq<RawPoint>>,
    predecessors: seq<nat>,
    begun: bool,
    ordered: bool,
    lanes: seq<Lane>,
    remaining: nat,
    stage: Stage,
    completions: nat)

  datatype State = State(
    coldCount: nat,
    capacity: nat,
    writers: map<Key, nat>,
    nextWriter: nat,
    tails: map<Key, nat>,
    tasks: seq<Task>,
    queues: seq<seq<nat>>,
    taken: seq<seq<nat>>,
    begunLog: seq<nat>,
    pending: nat,
    stopping: bool,
    workers: seq<Phase>)
  {
    /** Workers below coldCount serve one cold queue each, the rest share the hot queue. */
    function LaneOf(w: nat): nat { if w < coldCount then w else coldCount }

    ghost predicate Shape() {
      && coldCount > 0
      && |queues| == |taken| == coldCount + 1
      && |workers| > coldCount
      && (forall t :: 0 <= t < |tasks| ==> |tasks[t].lanes| == coldCount + 1 && tasks[t].lanes[coldCount] != Unneeded)
    }
  }

  /** The admission numbers of the tasks that need a lane, oldest first. */
  ghost function Needing(tasks: seq<Task>, l: nat): (r: seq<nat>)
    requires forall t :: 0 <= t < |tasks| ==> l < |tasks[t].lanes|
  {
    if tasks == [] then []
    else Needing(tasks[..|tasks| - 1], l) + if tasks[|tasks| - 1].lanes[l] == Unneeded then [] else [|tasks| - 1]
  }

  ghost function OpenLanes(lanes: seq<Lane>): nat {
    if lanes == [] then 0
    else OpenLanes(lanes[..|lanes| - 1]) + if lanes[|lanes| - 1].Queued? || lanes[|lanes| - 1].Held? then 1 else 0
  }

  ghost function Unreleased(tasks: seq<Task>): nat {
    if tasks == [] then 0 else Unreleased(tasks[..|tasks| - 1]) + if tasks[|tasks| - 1].stage == Released then 0 else 1
  }

  /** Each queue holds exactly the tail of what needs it; the head has been taken in order. */
  ghost predicate QueueInv(s: State)
    requires s.Shape()
  {
    forall l :: 0 <= l <= s.coldCount ==> s.taken[l] + s.queues[l] == Needing(s.tasks, l)
  }

  ghost predicate LaneInv(s: State)
    requires s.Shape()
  {
    && (forall t, l :: 0 <= t < |s.tasks| && 0 <= l <= s.coldCount ==>
                         (s.tasks[t].lanes[l].Queued? <==> t in s.queues[l]))
    && (forall t, l :: 0 <= t < |s.tasks| && 0 <= l <= s.coldCount && s.tasks[t].lanes[l].Held? ==>
                         var w := s.tasks[t].lanes[l].holder;
                         w < |s.workers| && s.LaneOf(w) == l && s.workers[w].Holds(t))
    && (forall w :: 0 <= w < |s.workers| ==> WorkerOwns(s, w))
  }

  ghost predicate WorkerOwns(s: State, w: nat)
    requires s.Shape() && w < |s.workers|
  {
    match s.workers[w]
    case Idle => true
    case Exited => s.stopping && s.queues[s.LaneOf(w)] == []
    case Waiting(t, next) => w >= s.coldCount && t < |s.tasks| && s.tasks[t].lanes[s.LaneOf(w)] == Held(w)
    case Working(t) => t < |s.tasks| && s.tasks[t].lanes[s.LaneOf(w)] == Held(w)
    case Reporting(t) => w >= s.coldCount && t < |s.tasks| && s.tasks[t].lanes[s.LaneOf(w)] == Held(w)
    case Finishing(t) => t < |s.tasks| && s.tasks[t].lanes[s.LaneOf(w)] == Held(w)
    case Completing(t) => t < |s.tasks| && s.tasks[t].stage == CompletingBy(w)
    case Releasing(t) => t < |s.tasks| && s.tasks[t].stage == ReleasingBy(w)
  }

  /** A task's counter is its open lanes; its completion is fulfilled once, after the last. */
  ghost predicate CountInv(s: State) {
    forall t :: 0 <= t < |s.tasks| ==>
                  var k := s.tasks[t];
                  && k.remaining == OpenLanes(k.lanes)
                  && (k.stage == Open <==> k.remaining > 0)
                  && k.completions == (if k.stage.ReleasingBy? || k.stage.Released? then 1 else 0)
                  && (k.stage.CompletingBy? ==> k.stage.worker < |s.workers| && s.workers[k.stage.worker] == Completing(t))
                  && (k.stage.ReleasingBy? ==> k.stage.worker < |s.workers| && s.workers[k.stage.worker] == Releasing(t))
  }

  ghost predicate PendingInv(s: State) {
    s.pending == Unreleased(s.tasks) && s.pending <= s.capacity
  }

  /** Predecessors are older, and cover every older task on a shared key. */
  ghost predicate DependencyInv(s: State) {
    && (forall t, p :: 0 <= t < |s.tasks| && p in s.tasks[t].predecessors ==> p < t)
    && (forall t, u, k :: 0 <= u < t < |s.tasks| && k in s.tasks[t].keys && k in s.tasks[u].keys ==>
                            CoveredBy(s.tasks, t, u, k))
    && (forall k :: k in s.tails ==> s.tails[k] < |s.tasks| && k in s.tasks[s.tails[k]].keys)
    && (forall u, k :: 0 <= u < |s.tasks| && k in s.tasks[u].keys ==> k in s.tails && u <= s.tails[k])
  }

  ghost predicate CoveredBy(tasks: seq<Task>, t: nat, u: nat, k: Key)
    requires t < |tasks|
  {
    exists p :: p in tasks[t].predecessors && u <= p < |tasks| && k in tasks[p].keys
  }

  ghost predicate Share(a: Task, b: Task) {
    exists k :: k in a.keys && k in b.keys
  }

  /** A hot update has begun only when every older task sharing a key is through. */
  ghost predicate OrderInv(s: State)
    requires s.Shape()
  {
    && (forall t, u :: 0 <= u < t < |s.tasks| && s.tasks[t].begun && Share(s.tasks[t], s.tasks[u]) ==> s.tasks[u].ordered)
    && (forall t :: 0 <= t < |s.tasks| ==>
                      && (s.tasks[t].ordered ==> s.tasks[t].begun)
                      && (s.tasks[t].lanes[s.coldCount] == Closed ==> s.tasks[t].ordered)
                      && (s.tasks[t].lanes[s.coldCount] == Queued ==> !s.tasks[t].begun))
    && (forall w :: s.coldCount <= w < |s.workers| ==> HotPosition(s, w))
  }

  ghost predicate HotPosition(s: State, w: nat)
    requires s.Shape() && s.coldCount <= w < |s.workers|
  {
    match s.workers[w]
    case Waiting(t, next) =>
      t < |s.tasks| && next <= |s.tasks[t].predecessors| && !s.tasks[t].begun
      && forall i :: 0 <= i < next ==> s.tasks[t].predecessors[i] < |s.tasks| && s.tasks[s.tasks[t].predecessors[i]].ordered
    case Working(t) => t < |s.tasks| && s.tasks[t].begun && !s.tasks[t].ordered
    case Reporting(t) => t < |s.tasks| && s.tasks[t].ordered
    case Finishing(t) => t < |s.tasks| && s.tasks[t].ordered
    case _ => true
  }

  /** The log lists each begun update once, and updates sharing a key in admission order. */
  ghost predicate LogInv(s: State) {
    && (forall t :: 0 <= t < |s.tasks| ==> (s.tasks[t].begun <==> t in s.begunLog))
    && (forall i :: 0 <= i < |s.begunLog| ==> s.begunLog[i] < |s.tasks|)
    && (forall i, j :: 0 <= i < j < |s.begunLog| ==>
                         s.begunLog[i] != s.begunLog[j]
                         && (Share(s.tasks[s.begunLog[i]], s.tasks[s.begunLog[j]]) ==> s.begunLog[i] < s.begunLog[j]))
  }

  ghost predicate RoutingInv(s: State) {
    && s.coldCount > 0
    && s.nextWriter == |s.writers| % s.coldCount
    && (forall k :: k in s.writers ==> s.writers[k] < s.coldCount)
    && (forall w :: 0 <= w < s.coldCount ==>
                      |AssignedTo(s.writers, w)| == Load(|s.writers|, s.coldCount, w))
  }

  /** How many of `n` sequences dealt out in turn to `c` writers writer `w` has. */
  function Load(n: nat, c: nat, w: nat): nat
    requires c > 0
  {
    n / c + if w < n % c then 1 else 0
  }

  ghost function AssignedTo(writers: map<Key, nat>, w: nat): set<Key> {
    set k | k in writers && writers[k] == w
  }

  ghost predicate Inv(s: State) {
    && s.Shape() && QueueInv(s) && LaneInv(s) && CountInv(s) && PendingInv(s)
    && DependencyInv(s) && OrderInv(s) && LogInv(s) && RoutingInv(s)
  }

  // ----- steps -----

  /** A sequence gets the next writer in turn the first time it is seen, for good. */
  function RouteKey(s: State, k: Key): State
    requires s.coldCount > 0
  {
    if k in s.writers then s
    else s.(writers := s.writers[k := s.nextWriter], nextWriter := (s.nextWriter + 1) % s.coldCount)
  }

  /** The points of a batch that go to one writer, in batch order. */
  function Shard(project: string, points: seq<RawPoint>, writers: map<Key, nat>, w: nat): (r: seq<RawPoint>)
  {
    if points == [] then []
    else
      var p := points[|points| - 1];
      var k := RoutingKey(project, p.sequence);
      Shard(project, points[..|points| - 1], writers, w) + if k in writers && writers[k] == w then [p] else []
  }

  function Predecessors(tails: map<Key, nat>, keys: seq<Key>): (r: seq<nat>) {
    if keys == [] then []
    else
      var k := keys[|keys| - 1];
      Predecessors(tails, keys[..|keys| - 1]) + if k in tails then [tails[k]] else []
  }

  function TailsAfter(tails: map<Key, nat>, keys: seq<Key>, t: nat): (r: map<Key, nat>) {
    if keys == [] then tails else TailsAfter(tails, keys[..|keys| - 1], t)[keys[|keys| - 1] := t]
  }

  function NewTask(s: State, project: string, points: seq<RawPoint>, keys: seq<Key>): Task {
    var shards := seq(s.coldCount, w requires 0 <= w < s.coldCount => Shard(project, points, s.writers, w));
    var lanes := seq(s.coldCount, w requires 0 <= w < s.coldCount => if shards[w] == [] then Unneeded else Queued) + [Queued];
    Task(project, points, keys, shards, Predecessors(s.tails, keys), false, false, lanes, CountQueued(lanes), Open, 0)
  }

  function CountQueued(lanes: seq<Lane>): nat {
    if lanes == [] then 0 else CountQueued(lanes[..|lanes| - 1]) + if lanes[|lanes| - 1] == Queued then 1 else 0
  }

  /** The admission critical section: rejected while stopping or full, otherwise
      the task enters the hot queue and exactly the cold queues it needs. */
  predicate Admissible(s: State) {
    !s.stopping && s.pending < s.capacity
  }

  function Admit(s: State, project: string, points: seq<RawPoint>, keys: seq<Key>): State
    requires |s.queues| == s.coldCount + 1
  {
    if !Admissible(s) then s
    else
      var task := NewTask(s, project, points, keys);
      var t := |s.tasks|;
      s.(tasks := s.tasks + [task],
         tails := TailsAfter(s.tails, keys, t),
         pending := s.pending + 1,
         queues := seq(|s.queues|, l requires 0 <= l < |s.queues| =>
           if task.lanes[l] == Queued then s.queues[l] + [t] else s.queues[l]))
  }

  function Stop(s: State): State {
    s.(stopping := true)
  }

  predicate CanTake(s: State, w: nat) {
    w < |s.workers| && s.workers[w] == Idle && s.LaneOf(w) < |s.queues| && s.queues[s.LaneOf(w)] != []
  }

  function Take(s: State, w: nat): State
    requires s.LaneOf(w) < |s.taken| && CanTake(s, w)
  {
    var l := s.LaneOf(w);
    var t := s.queues[l][0];
    SetLane(s.(queues := s.queues[l := s.queues[l][1..]],
               taken := s.taken[l := s.taken[l] + [t]],
               workers := s.workers[w := if w < s.coldCount then Working(t) else Waiting(t, 0)]), t, l, Held(w))
  }

  function SetLane(s: State, t: nat, l: nat, lane: Lane): State {
    if t < |s.tasks| && l < |s.tasks[t].lanes| then
      s.(tasks := s.tasks[t := s.tasks[t].(lanes := s.tasks[t].lanes[l := lane])])
    else s
  }

  function Move(s: State, w: nat, phase: Phase): State
    requires w < |s.workers|
  {
    s.(workers := s.workers[w := phase])
  }

  predicate CanExit(s: State, w: nat) {
    w < |s.workers| && s.workers[w] == Idle && s.LaneOf(w) < |s.queues| && s.queues[s.LaneOf(w)] == [] && s.stopping
  }

  /** A hot worker gets past one predecessor's future. */
  predicate CanAwait(s: State, w: nat) {
    && w < |s.workers| && s.workers[w].Waiting? && s.workers[w].task < |s.tasks|
    && var k := s.tasks[s.workers[w].task];
       s.workers[w].next < |k.predecessors| && k.predecessors[s.workers[w].next] < |s.tasks|
       && s.tasks[k.predecessors[s.workers[w].next]].ordered
  }

  function Await(s: State, w: nat): State
    requires CanAwait(s, w)
  {
    Move(s, w, s.workers[w].(next := s.workers[w].next + 1))
  }

  /** All futures passed: the hot update begins. */
  predicate CanBegin(s: State, w: nat) {
    && w < |s.workers| && s.workers[w].Waiting? && s.workers[w].task < |s.tasks|
    && s.workers[w].next == |s.tasks[s.workers[w].task].predecessors|
  }

  function Begin(s: State, w: nat): State
    requires CanBegin(s, w)
  {
    var t := s.workers[w].task;
    Move(s, w, Working(t)).(tasks := s.tasks[t := s.tasks[t].(begun := true)], begunLog := s.begunLog + [t])
  }

  /** A cold write returned and its result is merged; a hot update returned and
      its order future is fulfilled. */
  predicate CanEndWork(s: State, w: nat) {
    w < |s.workers| && s.workers[w].Working? && s.workers[w].task < |s.tasks|
  }

  function EndWork(s: State, w: nat): State
    requires CanEndWork(s, w)
  {
    var t := s.workers[w].task;
    if w < s.coldCount then Move(s, w, Finishing(t))
    else Move(s, w, Reporting(t)).(tasks := s.tasks[t := s.tasks[t].(ordered := true)])
  }

  predicate CanReport(s: State, w: nat) {
    w < |s.workers| && s.workers[w].Reporting?
  }

  /** The lane counter goes down; whoever brings it to zero completes the task. */
  predicate CanClose(s: State, w: nat) {
    w < |s.workers| && s.workers[w].Finishing? && s.workers[w].task < |s.tasks|
    && s.tasks[s.workers[w].task].remaining > 0 && s.LaneOf(w) < |s.tasks[s.workers[w].task].lanes|
  }

  function Close(s: State, w: nat): State
    requires CanClose(s, w)
  {
    var t := s.workers[w].task;
    var k := s.tasks[t];
    var last := k.remaining == 1;
    Move(s, w, if last then Completing(t) else Idle).(
      tasks := s.tasks[t := k.(lanes := k.lanes[s.LaneOf(w) := Closed], remaining := k.remaining - 1,
                               stage := if last then CompletingBy(w) else k.stage)])
  }

  predicate CanComplete(s: State, w: nat) {
    w < |s.workers| && s.workers[w].Completing? && s.workers[w].task < |s.tasks|
  }

  function Complete(s: State, w: nat): State
    requires CanComplete(s, w)
  {
    var t := s.workers[w].task;
    var k := s.tasks[t];
    Move(s, w, Releasing(t)).(tasks := s.tasks[t := k.(completions := k.completions + 1, stage := ReleasingBy(w))])
  }

  predicate CanRelease(s: State, w: nat) {
    w < |s.workers| && s.workers[w].Releasing? && s.workers[w].task < |s.tasks|
  }

  function Release(s: State, w: nat): State
    requires CanRelease(s, w)
  {
    var t := s.workers[w].task;
    Move(s, w, Idle).(tasks := s.tasks[t := s.tasks[t].(stage := Released)],
                      pending := if s.pending != 0 then s.pending - 1 else 0)
  }

  /** One move of worker `w`. */
  ghost predicate WorkerStep(s: State, s': State, w: nat) {
    || (CanTake(s, w) && s.LaneOf(w) < |s.taken| && s' == Take(s, w))
    || (CanExit(s, w) && s' == Move(s, w, Exited))
    || (CanAwait(s, w) && s' == Await(s, w))
    || (CanBegin(s, w) && s' == Begin(s, w))
    || (CanEndWork(s, w) && s' == EndWork(s, w))
    || (CanReport(s, w) && s' == Move(s, w, Finishing(s.workers[w].task)))
    || (CanClose(s, w) && s' == Close(s, w))
    || (CanComplete(s, w) && s' == Complete(s, w))
    || (CanRelease(s, w) && s' == Release(s, w))
  }
}
