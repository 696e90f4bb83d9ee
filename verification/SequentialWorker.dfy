/** The single worker that takes one task after the other from the front of its queue and
    runs each to its end. What it does is one of the runs, so it comes to the net that any
    workers come to.

    The order in which tasks are queued matters to no result about nets, so elsewhere tasks
    are a set; here they are in a queue, and `IsQueueOf` ties the two together. The field
    `run` is a history variable: every net that the worker has gone through, so that what
    holds of all runs holds of it. The loops end because every step leaves less to do than
    before (module Completion), which is measured against some run that is complete; that
    run is a ghost parameter, and nothing that the worker does depends on it. */
module SequentialWorker {
  import opened Values
  import opened Wires
  import opened Machine
  import opened Interaction
  import opened NetEnds
  import opened NetInvariant
  import opened NetCounts
  import opened NetSteps
  import opened Confluence
  import opened Completion

  /** The queue holds exactly these tasks, each once. */
  ghost predicate IsQueueOf(queue: seq<Task>, tasks: set<Task>) {
    && (forall t :: t in queue <==> t in tasks)
    && forall i, j :: 0 <= i < j < |queue| ==> queue[i] != queue[j]
  }

  lemma QueuePops(queue: seq<Task>, tasks: set<Task>)
    requires IsQueueOf(queue, tasks) && queue != []
    ensures queue[0] in tasks && IsQueueOf(queue[1..], tasks - {queue[0]})
  {
  }

  lemma QueuePushes(queue: seq<Task>, tasks: set<Task>, t: Task)
    requires IsQueueOf(queue, tasks) && t !in tasks
    ensures IsQueueOf(queue + [t], tasks + {t})
  {
  }

  lemma NothingToDo(net: Net)
    requires IsQueueOf([], net.tasks) && forall k :: k in net.jobs ==> IsDone(net.jobs[k])
    ensures IsComplete(net)
  {
  }

  lemma InitNet(code: seq<Opcode>)
    ensures Init(code).jobs.Keys == {{}}
  {
  }

  class Worker {
    const world: World
    const code: seq<Opcode>
    var net: Net
    var queue: seq<Task>
    ghost var run: seq<Net>

    ghost predicate Valid()
      reads this
    {
      && WellFormed(world) && Symmetric(world) && IsPure(code)
      && |run| > 0 && IsRun(world, code, run) && run[|run| - 1] == net
      && IsQueueOf(queue, net.tasks)
    }

    constructor (world: World, code: seq<Opcode>)
      requires WellFormed(world) && Symmetric(world) && IsPure(code)
      ensures Valid() && net == Init(code) && this.world == world && this.code == code
    {
      this.world := world;
      this.code := code;
      net := Init(code);
      queue := [];
      run := [Init(code)];
    }

    /** One step of the run; a task that comes of it goes to the back of the queue. */
    method Advance(a: Action, ghost full: seq<Net>)
      requires Valid() && Act(world, net, a).Some? && !a.Begins?
      requires |full| > 0 && IsRun(world, code, full) && IsComplete(full[|full| - 1])
      modifies this`net, this`queue, this`run
      ensures Valid() && net == Act(world, old(net), a).value
      ensures queue == old(queue) || exists t :: queue == old(queue) + [t]
      ensures 0 <= Left(net, full[|full| - 1]) < Left(old(net), full[|full| - 1])
    {
      hide WellFormed, Symmetric, IsPure, IsRun, IsComplete, Compute, Move, Left, IsQueueOf;
      LessLeft(world, code, run, full, a);
      RunGrows(world, code, run, a);
      OneMore(world, net, a);
      var next := Act(world, net, a).value;
      var found := next.tasks - net.tasks;
      assert next.tasks == net.tasks + found;
      if found != {} {
        var t :| t in found;
        QueuePushes(queue, net.tasks, t);
        queue := queue + [t];
        assert found == {t};
      } else {
        assert net.tasks + found == net.tasks;
      }
      net := next;
      run := run + [next];
    }

    method PopTask(ghost full: seq<Net>) returns (task: Task)
      requires Valid() && queue != []
      requires |full| > 0 && IsRun(world, code, full) && IsComplete(full[|full| - 1])
      modifies this`net, this`queue, this`run
      ensures Valid() && task == old(queue)[0] && queue == old(queue)[1..]
      ensures net.jobs.Keys == old(net).jobs.Keys + {{task.left, task.right}}
      ensures forall k :: k in old(net).jobs && k != {task.left, task.right} ==> net.jobs[k] == old(net).jobs[k]
      ensures 0 <= Left(net, full[|full| - 1]) < Left(old(net), full[|full| - 1])
    {
      hide WellFormed, Symmetric, IsPure, IsRun, IsComplete, Left, Begin, Inv, IsQueueOf;
      task := queue[0];
      QueuePops(queue, net.tasks);
      RunInv(world, code, run);
      BeginCan(world, code, net, task);
      LessLeft(world, code, run, full, Begins(task));
      RunGrows(world, code, run, Begins(task));
      BeginTakes(world, net, task);
      var next := Begin(world, net, task).value;
      queue := queue[1..];
      net := next;
      run := run + [next];
    }

    /** What a job does until it is done. */
    method HandleJob(key: set<Name>, ghost full: seq<Net>)
      requires Valid() && key in net.jobs
      requires |full| > 0 && IsRun(world, code, full) && IsComplete(full[|full| - 1])
      modifies this`net, this`queue, this`run
      ensures Valid() && net.jobs.Keys == old(net).jobs.Keys && IsDone(net.jobs[key])
      ensures forall k :: k in net.jobs && k != key ==> net.jobs[k] == old(net).jobs[k]
      ensures Left(net, full[|full| - 1]) <= Left(old(net), full[|full| - 1])
    {
      RunStarts(world, code, full);
      hide WellFormed, Symmetric, IsPure, IsRun, IsComplete, Compute, Move, Left, IsQueueOf;
      ghost var last := full[|full| - 1];
      LeftAtLeast(world, code, run, full);
      while net.jobs[key].joins != [] || net.jobs[key].state.frames != []
        invariant Valid() && net.jobs.Keys == old(net).jobs.Keys
        invariant forall k :: k in net.jobs && k != key ==> net.jobs[k] == old(net).jobs[k]
        invariant 0 <= Left(net, last) <= Left(old(net), last)
        decreases Left(net, last)
      {
        GoesOn(world, code, run, full, key);
        var a := if net.jobs[key].joins != [] then Moves(key) else Computes(key);
        OthersStay(world, net, key);
        Advance(a, full);
      }
    }

    /** Takes tasks until there are none. */
    method HandleQueue(ghost full: seq<Net>)
      requires Valid() && forall k :: k in net.jobs ==> IsDone(net.jobs[k])
      requires |full| > 0 && IsRun(world, code, full) && IsComplete(full[|full| - 1])
      modifies this`net, this`queue, this`run
      ensures Valid() && IsComplete(net)
    {
      hide WellFormed, Symmetric, IsPure, IsRun, Compute, Move, Left, IsQueueOf, IsDone, IsComplete;
      ghost var last := full[|full| - 1];
      LeftAtLeast(world, code, run, full);
      while queue != []
        invariant Valid() && forall k :: k in net.jobs ==> IsDone(net.jobs[k])
        invariant 0 <= Left(net, last)
        decreases Left(net, last)
      {
        var task := PopTask(full);
        HandleJob({task.left, task.right}, full);
        LeftAtLeast(world, code, run, full);
      }
      NothingToDo(net);
    }

    /** The loader's job first, then the queue until it is empty. That some run of the
        program completes is all that is needed for this one to come to an end, and it
        comes to the same. */
    method WorkSequentially(ghost full: seq<Net>)
      requires Valid() && net == Init(code) && queue == []
      requires |full| > 0 && IsRun(world, code, full) && IsComplete(full[|full| - 1])
      modifies this`net, this`queue, this`run
      ensures Valid() && IsComplete(net)
      ensures var last := full[|full| - 1];
              && net.nodes == last.nodes && net.jobs.Keys == last.jobs.Keys
              && forall x, y :: Visible(net, x) && Visible(net, y)
                  ==> (IsConnected(net.heap, x, y) <==> IsConnected(last.heap, x, y))
    {
      InitNet(code);
      hide WellFormed, Symmetric, IsPure, IsRun, Left, IsConnected, Visible, IsQueueOf, IsDone, IsComplete, Init;
      HandleJob({}, full);
      HandleQueue(full);
      CompleteRunsAgree(world, code, run, full);
    }
  }

  lemma LeftAtLeast(w: World, code: seq<Opcode>, run: seq<Net>, full: seq<Net>)
    requires WellFormed(w) && Symmetric(w) && IsPure(code) && IsRun(w, code, run)
    requires IsRun(w, code, full) && IsComplete(full[|full| - 1])
    ensures |run| > 0 && |full| > 0 && Left(run[|run| - 1], full[|full| - 1]) >= 0
  {
    hide WellFormed, Symmetric, IsPure, IsRun, IsComplete, Inv, Left, Within;
    RunInv(w, code, run);
    RunInv(w, code, full);
    RunWithin(w, code, run, |run| - 1, full[|full| - 1]);
    WithinLeft(w, run[|run| - 1], full[|full| - 1]);
  }

  lemma GoesOn(w: World, code: seq<Opcode>, run: seq<Net>, full: seq<Net>, key: set<Name>)
    requires WellFormed(w) && Symmetric(w) && IsPure(code) && IsRun(w, code, run) && |run| > 0
    requires IsRun(w, code, full) && IsComplete(full[|full| - 1])
    requires key in run[|run| - 1].jobs && !IsDone(run[|run| - 1].jobs[key])
    ensures CanGoOn(w, run[|run| - 1], key)
  {
    hide WellFormed, Symmetric, IsPure, IsRun, IsComplete, Inv, CanGoOn, Within;
    RunInv(w, code, run);
    RunInv(w, code, full);
    RunWithin(w, code, run, |run| - 1, full[|full| - 1]);
    KeyWithin(w, run[|run| - 1], full[|full| - 1], key);
    assert IsDoneIn(full[|full| - 1], key) by { DoneWhenComplete(full[|full| - 1], key); }
    JobCanGoOn(w, code, run[|run| - 1], full[|full| - 1], key);
  }

  lemma DoneWhenComplete(net: Net, key: set<Name>)
    requires IsComplete(net) && key in net.jobs
    ensures IsDoneIn(net, key)
  {
  }

  /** A job's step is its own. */
  lemma OthersStay(w: World, net: Net, key: set<Name>)
    requires CanGoOn(w, net, key)
    ensures var a := if net.jobs[key].joins != [] then Moves(key) else Computes(key);
            && Act(w, net, a).Some?
            && var next := Act(w, net, a).value;
               && next.jobs.Keys == net.jobs.Keys
               && forall k :: k in net.jobs && k != key ==> next.jobs[k] == net.jobs[k]
  {
    if net.jobs[key].joins == [] { ComputeIs(w, net, key); }
    hide Advance, FindTask, Step, Merge;
  }

  lemma RunInv(w: World, code: seq<Opcode>, run: seq<Net>)
    requires WellFormed(w) && IsPure(code) && IsRun(w, code, run)
    ensures |run| > 0 && Inv(w, code, run[|run| - 1])
  {
    RunStarts(w, code, run);
    RunKeeps(w, code, run, |run| - 1);
  }

  lemma LessLeft(w: World, code: seq<Opcode>, run: seq<Net>, full: seq<Net>, a: Action)
    requires WellFormed(w) && Symmetric(w) && IsPure(code) && IsRun(w, code, run)
    requires IsRun(w, code, full) && IsComplete(full[|full| - 1])
    requires |run| > 0 && Act(w, run[|run| - 1], a).Some?
    ensures |full| > 0
    ensures 0 <= Left(Act(w, run[|run| - 1], a).value, full[|full| - 1]) < Left(run[|run| - 1], full[|full| - 1])
  {
    hide WellFormed, Symmetric, IsPure, IsRun, IsComplete, Inv, Left, Act, Within;
    RunInv(w, code, run);
    RunInv(w, code, full);
    RunWithin(w, code, run, |run| - 1, full[|full| - 1]);
    ActLess(w, code, run[|run| - 1], full[|full| - 1], a);
    ActWithin(w, code, run[|run| - 1], full[|full| - 1], a);
    WithinLeft(w, Act(w, run[|run| - 1], a).value, full[|full| - 1]);
  }

  lemma RunGrows(w: World, code: seq<Opcode>, run: seq<Net>, a: Action)
    requires IsRun(w, code, run) && Act(w, run[|run| - 1], a).Some?
    ensures IsRun(w, code, run + [Act(w, run[|run| - 1], a).value])
  {
    hide Act;
    var longer := run + [Act(w, run[|run| - 1], a).value];
    forall i | 0 < i < |longer| ensures CanAct(w, longer[i - 1], longer[i]) {
      if i < |run| {
        assert CanAct(w, run[i - 1], run[i]);
      } else {
        assert Act(w, longer[i - 1], a) == Some(longer[i]);
      }
    }
  }

  lemma OneMore(w: World, net: Net, a: Action)
    requires Act(w, net, a).Some? && !a.Begins?
    ensures var next := Act(w, net, a).value;
            && net.tasks <= next.tasks
            && forall t :: t in next.tasks - net.tasks ==> next.tasks - net.tasks == {t}
  {
  }

  lemma BeginTakes(w: World, net: Net, t: Task)
    requires Begin(w, net, t).Some?
    ensures var next := Begin(w, net, t).value;
            && next.tasks == net.tasks - {t} && next.jobs.Keys == net.jobs.Keys + {{t.left, t.right}}
            && forall k :: k in net.jobs && k != {t.left, t.right} ==> next.jobs[k] == net.jobs[k]
  {
  }
}
