/** Tasks commute: any two ways of running the same queued tasks to their ends, one after
    the other in either order or interleaved step by step, come to the same net and leave
    the same tasks behind. Nothing is asked of the rules. */
module Commutation {
  import opened Values
  import opened Wires
  import opened Machine
  import opened Interaction
  import opened NetEnds
  import opened NetInvariant
  import opened NetCounts
  import opened NetSteps
  import opened Confluence
  import opened Completion

  function KeyOf(t: Task): set<Name> { {t.left, t.right} }

  ghost predicate IsKeyOf(tasks: set<Task>, key: set<Name>) {
    exists t :: t in tasks && key == KeyOf(t)
  }

  ghost predicate IsOf(tasks: set<Task>, a: Action) {
    match a
    case Begins(t) => t in tasks
    case Computes(key) => IsKeyOf(tasks, key)
    case Moves(key) => IsKeyOf(tasks, key)
  }

  ghost predicate CanActOf(w: World, tasks: set<Task>, net: Net, net': Net) {
    exists a :: IsOf(tasks, a) && Act(w, net, a) == Some(net')
  }

  /** A run of these tasks and of nothing else. */
  ghost predicate RunsTasks(w: World, tasks: set<Task>, net: Net, run: seq<Net>) {
    && |run| > 0 && run[0] == net
    && forall i :: 0 < i < |run| ==> CanActOf(w, tasks, run[i - 1], run[i])
  }

  ghost predicate AllDone(tasks: set<Task>, net: Net) {
    forall t :: t in tasks ==> KeyOf(t) in net.jobs && IsDone(net.jobs[KeyOf(t)])
  }

  // What a run of tasks keeps

  function StartOf(w: World, net: Net, t: Task): State
    requires t.left in net.created && t.right in net.created && t.rule < |w.rules|
  {
    Start(w.rules[t.rule].code, Auxiliary(net.created[t.left].ports) + Auxiliary(net.created[t.right].ports))
  }

  ghost predicate IsReady(w: World, net: Net, t: Task) {
    t in net.tasks && t.left in net.created && t.right in net.created && t.rule < |w.rules| && KeyOf(t) !in net.jobs
  }

  /** Where a job comes from: it was there, or was begun with what was at the nodes' ports. */
  ghost predicate OriginOf(w: World, tasks: set<Task>, net: Net, key: set<Name>, job: Job) {
    if key in net.jobs then job == net.jobs[key]
    else exists t :: t in tasks && IsReady(w, net, t) && key == KeyOf(t) && job.start == StartOf(w, net, t)
  }

  /** A task that no job was begun for is still queued. */
  predicate StillQueued(tasks: set<Task>, now: Net) {
    forall t :: t in tasks ==> KeyOf(t) in now.jobs || t in now.tasks
  }

  ghost predicate Origin(w: World, tasks: set<Task>, net: Net, now: Net) {
    && StillQueued(tasks, now)
    && net.jobs.Keys <= now.jobs.Keys
    && (forall key :: key in now.jobs ==> OriginOf(w, tasks, net, key, now.jobs[key]))
    && Includes(net.created, now.created) && Coarser(net.wiring, now.wiring)
  }

  lemma {:induction false} TasksReady(w: World, code: seq<Opcode>, net: Net, tasks: set<Task>)
    requires WellFormed(w) && Inv(w, code, net) && tasks <= net.tasks
    ensures forall t :: t in tasks ==> IsReady(w, net, t)
  {
    hide WellFormed, InvHeap, InvCount, InvJobs, InvNames, InvFired, InvReplay, ComesFrom, Queued, IsNode, IsPort;
    forall t | t in tasks ensures IsReady(w, net, t) {
      assert InvTask(w, net, t);
      var u, v := TaskPorts(w, net, t);
      TaskIsFresh(w, net, t);
    }
  }

  /** A step lets everything grow, and changes one job only. */
  ghost predicate ActFacts(net: Net, a: Action, net': Net) {
    && Includes(net.created, net'.created) && Coarser(net.wiring, net'.wiring)
    && match a
       case Begins(t) => net'.jobs.Keys == net.jobs.Keys + {KeyOf(t)} && Others(net, net', KeyOf(t))
       case Computes(key) => net'.jobs.Keys == net.jobs.Keys && Others(net, net', key) && SameStart(net, net', key)
       case Moves(key) => net'.jobs.Keys == net.jobs.Keys && Others(net, net', key) && SameStart(net, net', key)
  }

  ghost predicate Others(net: Net, net': Net, key: set<Name>) {
    forall k :: k in net.jobs && k != key ==> k in net'.jobs && net'.jobs[k] == net.jobs[k]
  }

  predicate SameStart(net: Net, net': Net, key: set<Name>) {
    key in net.jobs && key in net'.jobs && net'.jobs[key].start == net.jobs[key].start
  }

  lemma ActGrows(w: World, code: seq<Opcode>, net: Net, a: Action)
    requires WellFormed(w) && Inv(w, code, net) && Act(w, net, a).Some?
    ensures ActFacts(net, a, Act(w, net, a).value)
  {
    hide WellFormed, InvHeap, InvCount, InvNames, InvNodes, InvTasks, InvFired, InvReplay, Begin, Compute, Move,
        Includes, Coarser;
    match a
    case Begins(t) =>
      BeginGrows(w, net, t);
      BeginAlone(w, net, t);
    case Computes(key) =>
      ComputeAlone(w, net, key);
    case Moves(key) =>
      MoveIs(w, net, key);
      MoveGrows(w, net, key, Move(w, net, key).value);
  }

  lemma BeginAlone(w: World, net: Net, t: Task)
    requires Begin(w, net, t).Some?
    ensures var net' := Begin(w, net, t).value;
            net'.jobs.Keys == net.jobs.Keys + {KeyOf(t)} && Others(net, net', KeyOf(t))
  {
  }

  lemma ComputeAlone(w: World, net: Net, key: set<Name>)
    requires WellFormed(w) && InvJobs(net) && InvNames(net) && Compute(w, net, key).Some?
    ensures var net' := Compute(w, net, key).value;
            && Includes(net.created, net'.created) && Coarser(net.wiring, net'.wiring)
            && net'.jobs.Keys == net.jobs.Keys && Others(net, net', key) && SameStart(net, net', key)
  {
    hide InvNames, Fresh, NewNodes, NewValues, NewJoins, Step, PureFrames, WireIds, NewEnds, Extend;
    ComputeIs(w, net, key);
    var job := net.jobs[key];
    assert InvJob(net.wiring, job);
    var s := Computed(w, key, job).value;
    StepFresh(w, key, job.state, s);
    FreshIsNew(w, net, key, s);
    ExtendCoarser(net.wiring, NewValues(s));
  }

  lemma BeginStart(w: World, net: Net, now: Net, t: Task)
    requires Includes(net.created, now.created) && Includes(now.nodes, now.created)
    requires IsReady(w, net, t) && Begin(w, now, t).Some?
    ensures KeyOf(t) in Begin(w, now, t).value.jobs && Begin(w, now, t).value.jobs[KeyOf(t)].start == StartOf(w, net, t)
  {
  }

  lemma CoarserTwice(a: Wiring, b: Wiring, c: Wiring)
    requires Coarser(a, b) && Coarser(b, c)
    ensures Coarser(a, c)
  {
  }

  lemma OriginKeeps(w: World, code: seq<Opcode>, tasks: set<Task>, net: Net, now: Net, a: Action)
    requires WellFormed(w) && Inv(w, code, now) && Origin(w, tasks, net, now)
    requires (forall t :: t in tasks ==> IsReady(w, net, t)) && IsOf(tasks, a) && Act(w, now, a).Some?
    ensures Origin(w, tasks, net, Act(w, now, a).value)
  {
    hide WellFormed, InvHeap, InvCount, InvJobs, InvNames, InvNodes, InvTasks, InvFired, InvReplay, Begin, Compute,
        Move, Coarser, IsReady, StartOf;
    var now' := Act(w, now, a).value;
    ActGrows(w, code, now, a);
    QueuedKeeps(w, code, tasks, now, a);
    CoarserTwice(net.wiring, now.wiring, now'.wiring);
    forall key | key in now'.jobs ensures OriginOf(w, tasks, net, key, now'.jobs[key]) {
      if a.Begins? && key == KeyOf(a.task) {
        NodesIncluded(w, now);
        BeginStart(w, net, now, a.task);
        ReadyKey(w, net, a.task);
      } else {
        assert OriginOf(w, tasks, net, key, now.jobs[key]);
        if !a.Begins? && key == a.key { var t :| t in tasks && key == KeyOf(t); ReadyKey(w, net, t); }
      }
    }
  }

  lemma QueuedKeeps(w: World, code: seq<Opcode>, tasks: set<Task>, now: Net, a: Action)
    requires WellFormed(w) && Inv(w, code, now) && StillQueued(tasks, now) && Act(w, now, a).Some?
    ensures StillQueued(tasks, Act(w, now, a).value)
  {
    hide WellFormed, InvHeap, InvCount, InvJobs, InvNames, InvNodes, InvTasks, InvFired, InvReplay, Auxiliary,
        FindTask, Advance, Merge, Step, InHand;
    match a
    case Begins(t) => BeginAlone(w, now, t);
    case Computes(key) => ComputeIs(w, now, key);
    case Moves(key) => MoveIs(w, now, key);
  }

  lemma ReadyKey(w: World, net: Net, t: Task)
    requires IsReady(w, net, t)
    ensures KeyOf(t) !in net.jobs
  {
  }

  lemma {:induction false} RunOrigin(w: World, code: seq<Opcode>, tasks: set<Task>, net: Net, run: seq<Net>, i: nat)
    requires WellFormed(w) && Inv(w, code, net) && tasks <= net.tasks && RunsTasks(w, tasks, net, run) && i < |run|
    ensures Inv(w, code, run[i]) && Origin(w, tasks, net, run[i])
  {
    hide WellFormed, Inv, Act, IsOf, IsReady;
    TasksReady(w, code, net, tasks);
    if i > 0 {
      RunOrigin(w, code, tasks, net, run, i - 1);
      assert CanActOf(w, tasks, run[i - 1], run[i]);
      var a :| IsOf(tasks, a) && Act(w, run[i - 1], a) == Some(run[i]);
      ActKeeps(w, code, run[i - 1], a);
      OriginKeeps(w, code, tasks, net, run[i - 1], a);
    }
  }

  // Two runs of the same tasks

  lemma OriginWithin(w: World, tasks: set<Task>, net: Net, full: Net)
    requires Origin(w, tasks, net, full)
    ensures Within(w, net, full)
  {
    hide Coarser, Includes, Mirrors, StartOf, IsReady;
    forall key | key in net.jobs
      ensures key in full.jobs && Matched(w, key, net.jobs[key].start, full.jobs[key].start)
    {
      assert OriginOf(w, tasks, net, key, full.jobs[key]);
    }
  }

  /** The job of a task was begun with what was at the nodes of that task. */
  lemma StartsSame(w: World, tasks: set<Task>, net: Net, now: Net, t: Task)
    requires Origin(w, tasks, net, now) && t in tasks && IsReady(w, net, t) && KeyOf(t) in now.jobs
    requires forall s1, s2 :: s1 in tasks && s2 in tasks && KeyOf(s1) == KeyOf(s2) ==> s1 == s2
    ensures now.jobs[KeyOf(t)].start == StartOf(w, net, t)
  {
  }

  lemma TasksApart(w: World, net: Net, s1: Task, s2: Task)
    requires InvTasks(w, net) && s1 in net.tasks && s2 in net.tasks && KeyOf(s1) == KeyOf(s2)
    ensures s1 == s2
  {
  }

  lemma StepWithin(w: World, code: seq<Opcode>, tasks: set<Task>, net: Net, now: Net, a: Action, full: Net)
    requires WellFormed(w) && Inv(w, code, net) && tasks <= net.tasks && Inv(w, code, now) && Inv(w, code, full)
    requires Origin(w, tasks, net, now) && Origin(w, tasks, net, full) && AllDone(tasks, full)
    requires Within(w, now, full) && IsOf(tasks, a) && Act(w, now, a).Some?
    ensures Within(w, Act(w, now, a).value, full)
  {
    hide WellFormed, InvHeap, InvCount, InvJobs, InvNames, InvNodes, InvTasks, InvFired, InvReplay, Begin, Compute,
        Move, IsDone, Origin, Within, StartOf, IsReady;
    match a
    case Begins(t) =>
      TasksReady(w, code, net, tasks);
      forall s1, s2 | s1 in tasks && s2 in tasks && KeyOf(s1) == KeyOf(s2)
        ensures s1 == s2
      {
        TasksApart(w, net, s1, s2);
      }
      StartsSame(w, tasks, net, full, t);
      NodesIncluded(w, now);
      OriginIncludes(w, tasks, net, now);
      BeginStart(w, net, now, t);
      BegunWithin(w, now, full, t);
    case Computes(key) => ComputeWithin(w, now, full, key);
    case Moves(key) => MoveWithin(w, now, full, key);
  }

  lemma OriginIncludes(w: World, tasks: set<Task>, net: Net, now: Net)
    requires Origin(w, tasks, net, now)
    ensures Includes(net.created, now.created)
  {
  }

  lemma BegunWithin(w: World, now: Net, full: Net, t: Task)
    requires Within(w, now, full) && Begin(w, now, t).Some? && KeyOf(t) in full.jobs
    requires KeyOf(t) in Begin(w, now, t).value.jobs
    requires Begin(w, now, t).value.jobs[KeyOf(t)].start == full.jobs[KeyOf(t)].start
    ensures Within(w, Begin(w, now, t).value, full)
  {
    hide Auxiliary, Mirrors, Coarser, Includes;
    BeginAlone(w, now, t);
  }

  lemma {:induction false} TasksWithin(w: World, code: seq<Opcode>, tasks: set<Task>, net: Net, run: seq<Net>, i: nat,
          full: Net)
    requires WellFormed(w) && Inv(w, code, net) && tasks <= net.tasks && RunsTasks(w, tasks, net, run) && i < |run|
    requires Inv(w, code, full) && Origin(w, tasks, net, full) && AllDone(tasks, full)
    ensures Within(w, run[i], full)
  {
    hide WellFormed, Inv, Act, IsOf, Within, Origin, AllDone;
    if i == 0 {
      OriginWithin(w, tasks, net, full);
    } else {
      TasksWithin(w, code, tasks, net, run, i - 1, full);
      RunOrigin(w, code, tasks, net, run, i - 1);
      assert CanActOf(w, tasks, run[i - 1], run[i]);
      var a :| IsOf(tasks, a) && Act(w, run[i - 1], a) == Some(run[i]);
      StepWithin(w, code, tasks, net, run[i - 1], a, full);
    }
  }

  // Every order comes to its end

  ghost predicate CanStepOf(w: World, tasks: set<Task>, net: Net) {
    exists a :: IsOf(tasks, a) && Act(w, net, a).Some?
  }

  /** The job that an action of the tasks works on is done when they are. */
  lemma ActsOnDone(tasks: set<Task>, full: Net, a: Action)
    requires AllDone(tasks, full) && IsOf(tasks, a)
    ensures ActsOn(full, a)
  {
  }

  lemma StepLeaves(w: World, code: seq<Opcode>, tasks: set<Task>, net: Net, now: Net, a: Action, full: Net)
    requires WellFormed(w) && Inv(w, code, net) && tasks <= net.tasks && Inv(w, code, now) && Inv(w, code, full)
    requires Origin(w, tasks, net, now) && Origin(w, tasks, net, full) && AllDone(tasks, full)
    requires Within(w, now, full) && IsOf(tasks, a) && Act(w, now, a).Some?
    ensures Left(Act(w, now, a).value, full) < Left(now, full)
  {
    hide WellFormed, Inv, Origin, Within, IsOf, AllDone, Act, ActsOn, Left;
    StepWithin(w, code, tasks, net, now, a, full);
    ActsOnDone(tasks, full, a);
    ActLeaves(w, code, now, full, a);
  }

  lemma {:induction false} TasksLeave(w: World, code: seq<Opcode>, tasks: set<Task>, net: Net, run: seq<Net>, i: nat,
          full: Net)
    requires WellFormed(w) && Inv(w, code, net) && tasks <= net.tasks && RunsTasks(w, tasks, net, run) && i < |run|
    requires Inv(w, code, full) && Origin(w, tasks, net, full) && AllDone(tasks, full)
    ensures Left(run[i], full) <= Left(net, full) - i
  {
    hide WellFormed, Inv, Act, IsOf, Within, Origin, AllDone, Left;
    if i > 0 {
      TasksLeave(w, code, tasks, net, run, i - 1, full);
      TasksWithin(w, code, tasks, net, run, i - 1, full);
      RunOrigin(w, code, tasks, net, run, i - 1);
      assert CanActOf(w, tasks, run[i - 1], run[i]);
      var a :| IsOf(tasks, a) && Act(w, run[i - 1], a) == Some(run[i]);
      StepLeaves(w, code, tasks, net, run[i - 1], a, full);
    }
  }

  /** While some of the tasks are not done, one of them can be begun or gone on with. */
  lemma TasksGoOn(w: World, code: seq<Opcode>, tasks: set<Task>, net: Net, now: Net, full: Net)
    requires Inv(w, code, now) && Inv(w, code, full) && Within(w, now, full)
    requires Origin(w, tasks, net, now) && AllDone(tasks, full) && !AllDone(tasks, now)
    ensures CanStepOf(w, tasks, now)
  {
    hide Inv, Within, IsDone, Begin, Compute, Move, OriginOf, Coarser, Includes;
    var t :| t in tasks && !(KeyOf(t) in now.jobs && IsDone(now.jobs[KeyOf(t)]));
    var key := KeyOf(t);
    if key in now.jobs {
      JobCanGoOn(w, code, now, full, key);
      var a := if now.jobs[key].joins != [] then Moves(key) else Computes(key);
      assert IsOf(tasks, a) && Act(w, now, a).Some?;
    } else {
      BeginCan(w, code, now, t);
      assert IsOf(tasks, Begins(t)) && Act(w, now, Begins(t)).Some?;
    }
  }

  /** If the tasks can be run to their ends in one way, then however they are run, it takes a
      bounded number of steps, and there is a next one until all are done. */
  lemma EveryOrderEnds(w: World, code: seq<Opcode>, tasks: set<Task>, net: Net, run: seq<Net>, full: seq<Net>)
    requires WellFormed(w) && Inv(w, code, net) && tasks <= net.tasks
    requires RunsTasks(w, tasks, net, full) && AllDone(tasks, full[|full| - 1])
    requires RunsTasks(w, tasks, net, run)
    ensures |run| <= 1 + Left(net, full[|full| - 1])
    ensures AllDone(tasks, run[|run| - 1]) || CanStepOf(w, tasks, run[|run| - 1])
  {
    hide WellFormed, Inv, RunsTasks, AllDone, Origin, Within, Left, CanStepOf;
    HasStart(w, tasks, net, run);
    HasStart(w, tasks, net, full);
    var now, last := run[|run| - 1], full[|full| - 1];
    RunOrigin(w, code, tasks, net, full, |full| - 1);
    RunOrigin(w, code, tasks, net, run, |run| - 1);
    TasksWithin(w, code, tasks, net, run, |run| - 1, last);
    TasksLeave(w, code, tasks, net, run, |run| - 1, last);
    WithinLeft(w, now, last);
    if !AllDone(tasks, now) { TasksGoOn(w, code, tasks, net, now, last); }
  }

  // The jobs are the same

  /** Two jobs with one start that are done are the same. */
  lemma DoneEqual(w: World, key: set<Name>, net: Net, net': Net)
    requires key in net.jobs && key in net'.jobs && IsDone(net.jobs[key]) && IsDone(net'.jobs[key])
    requires net.jobs[key].start == net'.jobs[key].start && net.jobs[key].steps <= net'.jobs[key].steps
    requires InvJobs(net) && InvJobs(net') && InvReplay(w, net) && InvReplay(w, net')
    ensures net.jobs[key] == net'.jobs[key]
  {
    hide Performed, Next, PureFrames;
    var job, job' := net.jobs[key], net'.jobs[key];
    assert InvJob(net.wiring, job) && InvJob(net'.wiring, job');
    assert Replays(w, net, key, job) && Replays(w, net', key, job');
    DoneStops(w, key, job);
    FollowStops(w, key, Course(job.start, []), job.steps, job'.steps);
  }

  lemma JobsEqual(w: World, code: seq<Opcode>, tasks: set<Task>, net: Net, a: Net, b: Net, key: set<Name>)
    requires WellFormed(w) && Inv(w, code, net) && tasks <= net.tasks && Inv(w, code, a) && Inv(w, code, b)
    requires Origin(w, tasks, net, a) && AllDone(tasks, a) && Origin(w, tasks, net, b) && AllDone(tasks, b)
    requires key in a.jobs && key in b.jobs
    ensures a.jobs[key] == b.jobs[key]
  {
    hide WellFormed, InvHeap, InvCount, InvJobs, InvNames, InvNodes, InvTasks, InvFired, InvReplay, StillQueued,
        Coarser, Includes, StartOf, IsDone;
    assert OriginOf(w, tasks, net, key, a.jobs[key]) && OriginOf(w, tasks, net, key, b.jobs[key]);
    if key !in net.jobs {
      var t :| t in tasks && IsReady(w, net, t) && key == KeyOf(t) && a.jobs[key].start == StartOf(w, net, t);
      forall s1, s2 | s1 in tasks && s2 in tasks && KeyOf(s1) == KeyOf(s2)
        ensures s1 == s2
      {
        TasksApart(w, net, s1, s2);
      }
      StartsSame(w, tasks, net, b, t);
      if a.jobs[key].steps <= b.jobs[key].steps { DoneEqual(w, key, a, b); } else { DoneEqual(w, key, b, a); }
    }
  }

  // What is left queued

  /** The same nodes, and the same rule; which node comes first may differ only for a rule
      between two nodes of one constructor. */
  predicate SameTaskUpTo(w: World, t: Task, t': Task) {
    t' == t || (t.rule < |w.rules| && w.rules[t.rule].left == w.rules[t.rule].right
        && t' == Task(t.right, t.left, t.rule))
  }

  lemma FoundSame(w: World, created: map<Name, Node>, u: Value, v: Value, t: Task, t': Task)
    requires t in FindTask(w, created, u, v) && (t' in FindTask(w, created, u, v) || t' in FindTask(w, created, v, u))
    ensures SameTaskUpTo(w, t, t')
  {
    FindRuleSwap(w.rules, created[u.node].ctor, created[v.node].ctor);
  }

  lemma SameQueued(w: World, code: seq<Opcode>, net: Net, net': Net, t: Task) returns (t': Task)
    requires WellFormed(w) && Inv(w, code, net) && Inv(w, code, net')
    requires net.created == net'.created && net.wiring == net'.wiring && net.nodes == net'.nodes && t in net.tasks
    ensures t' in net'.tasks && SameTaskUpTo(w, t, t')
  {
    hide WellFormed, InvHeap, InvCount, InvJobs, InvNames, InvNodes, InvFired, InvReplay, FindTask, IsPort;
    assert InvTask(w, net, t);
    var u, v := TaskPorts(w, net, t);
    MetPorts(w, net, v);
    TaskNames(w, net.created, u, v, t);
    FullMet(w, net', u, v);
    assert Queued(w, net', u, v);
    t' :| t' in net'.tasks && {t'.left, t'.right} == {u.node, v.node};
    assert InvTask(w, net', t');
    var x, y :| ComesFrom(w, net', t', x, y);
    TaskNames(w, net'.created, x, y, t');
    SharedNode(w, net', u, v, x, y);
    FoundSame(w, net'.created, u, v, t, t');
  }

  /** The main theorem. */
  lemma TasksCommute(w: World, code: seq<Opcode>, tasks: set<Task>, net: Net, run: seq<Net>, run': seq<Net>)
    requires WellFormed(w) && Inv(w, code, net) && tasks <= net.tasks
    requires RunsTasks(w, tasks, net, run) && AllDone(tasks, run[|run| - 1])
    requires RunsTasks(w, tasks, net, run') && AllDone(tasks, run'[|run'| - 1])
    ensures var a, b := run[|run| - 1], run'[|run'| - 1];
            && a.nodes == b.nodes && a.created == b.created && a.wiring == b.wiring && a.jobs == b.jobs
            && (forall x, y :: Visible(a, x) && Visible(a, y) ==>
                  (IsConnected(a.heap, x, y) <==> IsConnected(b.heap, x, y)))
            && (forall t :: t in a.tasks ==> exists t' :: t' in b.tasks && SameTaskUpTo(w, t, t'))
            && (forall t :: t in b.tasks ==> exists t' :: t' in a.tasks && SameTaskUpTo(w, t, t'))
  {
    hide WellFormed, InvHeap, InvCount, InvJobs, InvNames, InvNodes, InvTasks, InvFired, InvReplay, RunsTasks, AllDone,
        Origin, IsPartition, Coarser, Includes, Matched, SameTaskUpTo;
    var n, m := |run| - 1, |run'| - 1;
    assert n >= 0 && m >= 0 by { HasStart(w, tasks, net, run); HasStart(w, tasks, net, run'); }
    var a, b := run[n], run'[m];
    RunOrigin(w, code, tasks, net, run, n);
    RunOrigin(w, code, tasks, net, run', m);
    TasksWithin(w, code, tasks, net, run, n, b);
    TasksWithin(w, code, tasks, net, run', m, a);
    SameMap(a.created, b.created);
    SameNodes(w, a, b);
    HeapPartition(a);
    HeapPartition(b);
    SameWiring(a.wiring, b.wiring);
    forall key | key in a.jobs ensures a.jobs[key] == b.jobs[key] { JobsEqual(w, code, tasks, net, a, b, key); }
    assert a.jobs == b.jobs;
    forall x, y | Visible(a, x) && Visible(a, y) ensures IsConnected(a.heap, x, y) <==> IsConnected(b.heap, x, y) {
      SameReading(w, a, b, x, y);
    }
    forall t | t in a.tasks
      ensures exists t' :: t' in b.tasks && SameTaskUpTo(w, t, t')
    {
      var t' := SameQueued(w, code, a, b, t);
    }
    forall t | t in b.tasks
      ensures exists t' :: t' in a.tasks && SameTaskUpTo(w, t, t')
    {
      var t' := SameQueued(w, code, b, a, t);
    }
  }

  lemma HasStart(w: World, tasks: set<Task>, net: Net, run: seq<Net>)
    requires RunsTasks(w, tasks, net, run)
    ensures |run| > 0
  {
  }
}
