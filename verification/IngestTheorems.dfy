/** What holds in every interleaving of submitters, cold writers and hot workers. */
module IngestTheorems {
  import opened WindowServices
  import opened IngestProtocol
  import opened IngestInvariant
  import opened IngestAdmission

  /** Something some thread does atomically. */
  datatype Event =
    | Routed(key: Key)
    | Submitted(project: string, points: seq<RawPoint>, keys: seq<Key>)
    | Stopped
    | Worked(worker: nat)

  /** A submitter reaches admission with the keys of its batch, all routed. */
  ghost predicate ReadyToSubmit(s: State, project: string, points: seq<RawPoint>, keys: seq<Key>) {
    && Distinct(keys)
    && (forall k :: k in keys ==> k in s.writers)
    && (forall i :: 0 <= i < |points| ==> RoutingKey(project, points[i].sequence) in keys)
    && (forall k :: k in keys ==> exists i :: 0 <= i < |points| && k == RoutingKey(project, points[i].sequence))
  }

  ghost predicate Step(s: State, e: Event, s': State) {
    match e
    case Routed(k) => s.coldCount > 0 && s' == RouteKey(s, k)
    case Submitted(project, points, keys) =>
      |s.queues| == s.coldCount + 1 && ReadyToSubmit(s, project, points, keys) && s' == Admit(s, project, points, keys)
    case Stopped => s' == Stop(s)
    case Worked(w) => WorkerStep(s, s', w)
  }

  function Initial(coldCount: nat, hotCount: nat, capacity: nat): State {
    State(coldCount, capacity, map[], 0, map[], [], seq(coldCount + 1, l => []), seq(coldCount + 1, l => []), [], 0, false,
          seq(coldCount + hotCount, w => Idle))
  }

  /** A finite run from the freshly constructed executor. */
  ghost predicate IsRun(states: seq<State>, events: seq<Event>) {
    && |states| == |events| + 1
    && (exists cold: nat, hot: nat, capacity: nat :: cold > 0 && hot > 0 && states[0] == Initial(cold, hot, capacity))
    && forall i :: 0 <= i < |events| ==> Step(states[i], events[i], states[i + 1])
  }

  lemma {:induction false} InitialInv(cold: nat, hot: nat, capacity: nat)
    requires cold > 0 && hot > 0
    ensures Inv(Initial(cold, hot, capacity))
  {
    var s := Initial(cold, hot, capacity);
    forall w | 0 <= w < cold ensures |AssignedTo(s.writers, w)| == Load(|s.writers|, cold, w) {
      assert AssignedTo(s.writers, w) == {};
      DivisionIs(0, cold, 0, 0);
    }
    DivisionIs(0, cold, 0, 0);
  }

  lemma StepKeeps(s: State, e: Event, s': State)
    requires Inv(s) && Step(s, e, s')
    ensures Inv(s')
  {
    hide Inv, WorkerStep;
    match e
    case Routed(k) => RouteKeeps(s, k);
    case Submitted(project, points, keys) => AdmitKeeps(s, project, points, keys);
    case Stopped => StopKeeps(s);
    case Worked(w) => WorkerStepKeeps(s, s', w);
  }

  /** The invariant holds in every state of every run. */
  lemma {:induction false} RunKeeps(states: seq<State>, events: seq<Event>, i: nat)
    requires IsRun(states, events) && i < |states|
    ensures Inv(states[i])
  {
    hide Inv, Step;
    if i == 0 {
      var cold: nat, hot: nat, capacity: nat :| cold > 0 && hot > 0 && states[0] == Initial(cold, hot, capacity);
      InitialInv(cold, hot, capacity);
    } else {
      RunKeeps(states, events, i - 1);
      StepKeeps(states[i - 1], events[i - 1], states[i]);
    }
  }

  // ----- serial hot updates -----

  /** While a hot update runs, every older task sharing a sequence with it has
      finished its own, and no other running update shares a sequence. */
  lemma HotUpdatesAreSerial(s: State, v: nat, w: nat)
    requires Inv(s) && s.coldCount <= v < |s.workers| && s.coldCount <= w < |s.workers| && v != w
    requires s.workers[v].Working? && s.workers[w].Working?
    ensures s.workers[v].task < |s.tasks| && s.workers[w].task < |s.tasks|
    ensures forall u :: 0 <= u < s.workers[w].task && Share(s.tasks[s.workers[w].task], s.tasks[u]) ==> s.tasks[u].ordered
    ensures !Share(s.tasks[s.workers[v].task], s.tasks[s.workers[w].task])
  {
    hide QueueInv, CountInv, PendingInv, DependencyInv, LogInv, RoutingInv;
    assert HotPosition(s, v) && HotPosition(s, w);
    NotTheSameTask(s, v, w);
    assert s.workers[v].Holds(s.workers[v].task) && s.workers[w].Holds(s.workers[w].task);
    SharingIsSymmetric(s.tasks);
  }

  /** The tasks of a log that carry a key, in log order. */
  ghost function OnKey(tasks: seq<Task>, log: seq<nat>, k: Key): (r: seq<nat>) {
    if log == [] then []
    else
      var t := log[|log| - 1];
      OnKey(tasks, log[..|log| - 1], k) + if t < |tasks| && k in tasks[t].keys then [t] else []
  }

  /** All admitted tasks that carry a key, in admission order. */
  ghost function Admitted(tasks: seq<Task>, k: Key): (r: seq<nat>) {
    if tasks == [] then []
    else Admitted(tasks[..|tasks| - 1], k) + if k in tasks[|tasks| - 1].keys then [|tasks| - 1] else []
  }

  ghost predicate Increasing(s: seq<nat>) {
    forall i, j :: 0 <= i < j < |s| ==> s[i] < s[j]
  }

  lemma {:induction false} AdmittedMember(tasks: seq<Task>, k: Key, t: nat)
    ensures t in Admitted(tasks, k) <==> t < |tasks| && k in tasks[t].keys
    decreases |tasks|
  {
    if tasks != [] { AdmittedMember(tasks[..|tasks| - 1], k, t); }
  }

  lemma {:induction false} AdmittedIncreasing(tasks: seq<Task>, k: Key)
    ensures Increasing(Admitted(tasks, k))
    decreases |tasks|
  {
    if tasks != [] {
      AdmittedIncreasing(tasks[..|tasks| - 1], k);
      var n := Admitted(tasks[..|tasks| - 1], k);
      forall i | 0 <= i < |n| ensures n[i] < |tasks| - 1 { AdmittedMember(tasks[..|tasks| - 1], k, n[i]); }
    }
  }

  lemma {:induction false} OnKeyMembers(tasks: seq<Task>, log: seq<nat>, k: Key)
    ensures forall t: nat :: t in OnKey(tasks, log, k) <==> t in log && t < |tasks| && k in tasks[t].keys
    decreases |log|
  {
    if log != [] {
      OnKeyMembers(tasks, log[..|log| - 1], k);
      assert log == log[..|log| - 1] + [log[|log| - 1]];
    }
  }

  lemma {:induction false} OnKeyIncreasing(tasks: seq<Task>, log: seq<nat>, k: Key)
    requires forall i :: 0 <= i < |log| ==> log[i] < |tasks|
    requires forall i, j :: 0 <= i < j < |log| && Share(tasks[log[i]], tasks[log[j]]) ==> log[i] < log[j]
    ensures Increasing(OnKey(tasks, log, k))
    decreases |log|
  {
    if log != [] {
      var front, t := log[..|log| - 1], log[|log| - 1];
      OnKeyIncreasing(tasks, front, k);
      OnKeyMembers(tasks, front, k);
      var r := OnKey(tasks, front, k);
      if k in tasks[t].keys {
        forall i | 0 <= i < |r| ensures r[i] < t {
          assert r[i] in r;
          var j :| 0 <= j < |front| && front[j] == r[i];
          assert Share(tasks[log[j]], tasks[t]);
        }
      }
    }
  }

  lemma Smallest(s: seq<nat>)
    requires Increasing(s) && s != []
    ensures Increasing(s[1..]) && forall t: nat :: t in s[1..] <==> t in s && t != s[0]
    ensures forall t: nat :: t in s ==> s[0] <= t
  {
    assert s == [s[0]] + s[1..];
    forall t: nat | t in s[1..] ensures t != s[0] { var i :| 0 <= i < |s| - 1 && s[1..][i] == t; }
  }

  /** A downward closed increasing part of an increasing list is a prefix of it. */
  lemma {:induction false} ClosedPartIsPrefix(part: seq<nat>, whole: seq<nat>)
    requires Increasing(part) && Increasing(whole)
    requires forall t: nat :: t in part ==> t in whole
    requires forall t: nat, u: nat :: t in part && u in whole && u < t ==> u in part
    ensures part <= whole
    decreases |part|
  {
    if part != [] {
      assert part[0] in part;
      Smallest(part);
      Smallest(whole);
      assert whole[0] in whole;
      assert part[0] == whole[0];
      ClosedPartIsPrefix(part[1..], whole[1..]);
    }
  }

  /** In every reachable state the hot updates begun on a sequence are exactly
      the first few submissions admitted for it, in admission order. */
  lemma HotUpdatesFollowAdmission(s: State, k: Key)
    requires Inv(s)
    ensures OnKey(s.tasks, s.begunLog, k) <= Admitted(s.tasks, k)
  {
    hide QueueInv, LaneInv, CountInv, PendingInv, DependencyInv, RoutingInv;
    AdmittedIncreasing(s.tasks, k);
    forall t: nat ensures t in Admitted(s.tasks, k) <==> t < |s.tasks| && k in s.tasks[t].keys { AdmittedMember(s.tasks, k, t); }
    OnKeyMembers(s.tasks, s.begunLog, k);
    OnKeyIncreasing(s.tasks, s.begunLog, k);
    var part, whole := OnKey(s.tasks, s.begunLog, k), Admitted(s.tasks, k);
    forall t: nat, u: nat | t in part && u in whole && u < t ensures u in part {
      assert Share(s.tasks[t], s.tasks[u]);
      assert s.tasks[u].ordered;
    }
    ClosedPartIsPrefix(part, whole);
  }
}
