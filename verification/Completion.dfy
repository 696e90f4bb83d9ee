/** If one run of a program completes then every run does: none goes on for ever, none gets
    stuck, and all end in the same net. */
module Completion {
  import opened Values
  import opened Wires
  import opened Machine
  import opened Interaction
  import opened NetEnds
  import opened NetInvariant
  import opened NetCounts
  import opened NetSteps
  import opened Confluence

  // A job that a complete run has done can always go on

  lemma {:induction false} FollowEarlier(w: World, key: set<Name>, start: Course, n: nat, m: nat)
    requires n <= m && Follow(w, key, start, m).Some?
    ensures Follow(w, key, start, n).Some?
    ensures n < m ==> Next(w, key, Follow(w, key, start, n).value).Some?
    decreases m
  {
    hide Next;
    if n < m - 1 { FollowEarlier(w, key, start, n, m - 1); }
  }

  lemma RestStops(w: World, key: set<Name>, s: State, n: nat)
    requires Rests(w, key, s, n)
    ensures Follow(w, key, Course(s, []), n).Some? && Next(w, key, Follow(w, key, Course(s, []), n).value).None?
  {
  }

  /** A course that comes to rest goes on until then. */
  lemma GoesUntilRest(w: World, key: set<Name>, s: State, n: nat, rest: nat)
    requires Rests(w, key, s, rest) && Follow(w, key, Course(s, []), n).Some?
    ensures n <= rest
    ensures !Rests(w, key, s, n) ==> Goes(w, key, s, n)
  {
    RestStops(w, key, s, rest);
    hide Next;
    if n > rest { FollowStops(w, key, Course(s, []), rest, n); }
    if n < rest { FollowEarlier(w, key, Course(s, []), n, rest); }
  }

  lemma MatchedRest(w: World, key: set<Name>, s: State, s': State, n: nat)
    requires Matched(w, key, s, s') && Rests(w, key, s', n)
    ensures Rests(w, key, s, n)
  {
  }

  lemma ReplaysAt(w: World, net: Net, key: set<Name>, job: Job)
    requires Replays(w, net, key, job)
    ensures Follow(w, key, Course(job.start, []), job.steps) == Some(Course(job.state, job.joins))
    ensures Rests(w, key, job.start, job.steps) <==> IsDone(job)
  {
  }

  /** The job is there and done. */
  predicate IsDoneIn(full: Net, key: set<Name>) { key in full.jobs && IsDone(full.jobs[key]) }

  /** A job is never ahead of the same job done, and goes on until it has done as much. */
  lemma JobGoes(w: World, net: Net, full: Net, key: set<Name>)
    requires InvReplay(w, net) && InvReplay(w, full) && Within(w, net, full) && key in net.jobs && IsDoneIn(full, key)
    ensures net.jobs[key].steps <= full.jobs[key].steps
    ensures !IsDone(net.jobs[key]) ==> Next(w, key, Course(net.jobs[key].state, net.jobs[key].joins)).Some?
  {
    hide Follow, Next, Replays, Rests, Includes, Coarser, Matched, IsDone;
    var job, job' := net.jobs[key], full.jobs[key];
    ReplaysAt(w, net, key, job);
    ReplaysAt(w, full, key, job');
    MatchedRest(w, key, job.start, job'.start, job'.steps);
    GoesUntilRest(w, key, job.start, job.steps, job'.steps);
  }

  /** The ends in hand are outstanding, so the compare-and-swap can be made. */
  lemma MoveCan(w: World, net: Net, full: Net, key: set<Name>)
    requires InvHeap(net) && InvCount(net) && InvJobs(net) && InvReplay(w, net)
    requires InvHeap(full) && InvReplay(w, full) && IsDoneIn(full, key) && Within(w, net, full)
    requires key in net.jobs && net.jobs[key].joins != []
    ensures Move(w, net, key).Some?
  {
    hide InvCount, Valid, InvReplay, IsDone, Advance, FindTask, Merge, Coarser, Includes, Matched, Step;
    var job := net.jobs[key];
    assert InvJob(net.wiring, job);
    JoinCourse(w, key, Course(job.state, job.joins), full);
    FullPerformed(w, net, full, key);
    HandIsHeld(net, key);
    var p := InHand(job);
    HeldKnown(net, p.left, p.right);
  }

  lemma HeldKnown(net: Net, l: Value, r: Value)
    requires InvHeap(net) && multiset{l, r} <= net.held
    ensures l in net.wiring && r in net.wiring
  {
  }

  predicate CanGoOn(w: World, net: Net, key: set<Name>) {
    key in net.jobs && if net.jobs[key].joins != [] then Move(w, net, key).Some? else Compute(w, net, key).Some?
  }

  lemma ComputeCan(w: World, net: Net, key: set<Name>)
    requires key in net.jobs && net.jobs[key].joins == [] && Next(w, key, Course(net.jobs[key].state, [])).Some?
    ensures Compute(w, net, key).Some?
  {
  }

  lemma JobCanGoOn(w: World, code: seq<Opcode>, net: Net, full: Net, key: set<Name>)
    requires Inv(w, code, net) && Inv(w, code, full) && IsDoneIn(full, key) && Within(w, net, full)
    requires key in net.jobs && !IsDone(net.jobs[key])
    ensures CanGoOn(w, net, key)
  {
    hide InvHeap, InvCount, InvJobs, InvNames, InvNodes, InvTasks, InvFired, InvReplay, Within, Move, Compute, Next;
    if net.jobs[key].joins != [] {
      MoveCan(w, net, full, key);
    } else {
      JobGoes(w, net, full, key);
      ComputeCan(w, net, key);
    }
  }

  lemma BeginCan(w: World, code: seq<Opcode>, net: Net, t: Task)
    requires Inv(w, code, net) && t in net.tasks
    ensures Begin(w, net, t).Some?
  {
    hide InvHeap, InvCount, InvJobs, InvNames, InvNodes, InvFired, InvReplay, FindTask, Queued;
    assert InvTask(w, net, t);
    var u, v :| ComesFrom(w, net, t, u, v);
    TaskNames(w, net.created, u, v, t);
  }

  ghost predicate CanStep(w: World, net: Net) { exists a :: Act(w, net, a).Some? }

  /** While a run is not complete, some worker can go on. */
  lemma NotStuck(w: World, code: seq<Opcode>, net: Net, full: Net)
    requires Inv(w, code, net) && Inv(w, code, full) && IsComplete(full) && Within(w, net, full) && !IsComplete(net)
    ensures CanStep(w, net)
  {
    hide Inv, Within, IsDone, Begin, Compute, Move;
    if net.tasks != {} {
      var t :| t in net.tasks;
      BeginCan(w, code, net, t);
      assert Act(w, net, Begins(t)).Some?;
    } else {
      var key :| key in net.jobs && !IsDone(net.jobs[key]);
      assert IsDoneIn(full, key) by { KeyWithin(w, net, full, key); }
      JobCanGoOn(w, code, net, full, key);
      assert Act(w, net, if net.jobs[key].joins != [] then Moves(key) else Computes(key)).Some?;
    }
  }

  // What is left to do

  ghost function JobsLeft(net: Net, full: Net): map<set<Name>, nat> {
    map key | key in full.jobs ::
      if key !in net.jobs then full.jobs[key].steps + 1
      else if net.jobs[key].steps <= full.jobs[key].steps then full.jobs[key].steps - net.jobs[key].steps
      else 0
  }

  /** The wires that are known but no longer live. */
  function Freed(net: Net): set<Name> {
    set v | v in net.wiring && v.Wire? && v.id !in net.heap.live :: v.id
  }

  function Known(net: Net): set<Name> {
    set v | v in net.wiring && v.Wire? :: v.id
  }

  /** Bounds how many steps all workers together can still make. */
  ghost function Left(net: Net, full: Net): int {
    Total(JobsLeft(net, full)) + |Known(full)| - |Freed(net)|
  }

  lemma LeftBounds(w: World, net: Net, full: Net)
    requires Coarser(net.wiring, full.wiring)
    ensures Left(net, full) >= 0
  {
    SubsetSize(Freed(net), Known(full));
    hide Total;
  }

  lemma JobsLeftPut(net: Net, net': Net, full: Net, key: set<Name>, job: Job)
    requires key in full.jobs && net'.jobs == net.jobs[key := job]
    ensures Total(JobsLeft(net', full))
            == Total(JobsLeft(net, full)) + JobsLeft(net', full)[key] - JobsLeft(net, full)[key]
  {
    var m, m' := JobsLeft(net, full), JobsLeft(net', full);
    assert m' == m[key := m'[key]];
    TotalPut(m, key, m'[key]);
  }

  lemma FreedMore(net: Net, net': Net)
    requires Freed(net) <= Freed(net')
    ensures |Freed(net)| <= |Freed(net')|
    ensures Freed(net) != Freed(net') ==> |Freed(net)| < |Freed(net')|
  {
    SubsetSize(Freed(net), Freed(net'));
    if Freed(net) != Freed(net') {
      var n :| n in Freed(net') && n !in Freed(net);
      SubsetSize(Freed(net), Freed(net') - {n});
    }
  }

  lemma BeginLess(w: World, net: Net, full: Net, t: Task)
    requires Begin(w, net, t).Some? && {t.left, t.right} !in net.jobs && {t.left, t.right} in full.jobs
    ensures Left(Begin(w, net, t).value, full) < Left(net, full)
  {
    var net', key := Begin(w, net, t).value, {t.left, t.right};
    JobsLeftPut(net, net', full, key, net'.jobs[key]);
    assert Freed(net') == Freed(net);
    hide Total, Auxiliary;
  }

  lemma ComputeLess(w: World, net: Net, full: Net, key: set<Name>, s: State)
    requires key in net.jobs && key in full.jobs && net.jobs[key].steps < full.jobs[key].steps
    requires NewValues(s) !! net.wiring.Keys
    ensures Left(NetAfter(net, key, net.jobs[key], s), full) < Left(net, full)
  {
    hide Total, NewNodes, NewJoins, NewValues, NewEnds;
    var job, net' := net.jobs[key], NetAfter(net, key, net.jobs[key], s);
    JobsLeftPut(net, net', full, key, net'.jobs[key]);
    ExtendCoarser(net.wiring, NewValues(s));
    assert forall v :: v in NewValues(s) && v.Wire? ==> v.id in WireIds(NewValues(s));
    assert forall n :: n in WireIds(NewValues(s)) ==> Wire(n) in NewValues(s);
    assert Freed(net') == Freed(net);
  }

  /** Going on from a wire that was full frees it. */
  lemma AgainFrees(h: Heap, l: Value, r: Value)
    requires Advance(h, l, r).Again? && h.fuzed.Keys <= h.live
    ensures exists n :: n in h.live && (Wire(n) == l || Wire(n) == r) && Advance(h, l, r).heap.live == h.live - {n}
  {
  }

  lemma OtherwiseLive(h: Heap, l: Value, r: Value)
    requires !Advance(h, l, r).Again?
    ensures Advance(h, l, r).heap.live == h.live
  {
  }

  lemma MoveLess(w: World, net: Net, full: Net, key: set<Name>, net': Net)
    requires MoveFacts(w, net, key, net') && net.heap.fuzed.Keys <= net.heap.live
    requires key in full.jobs && net.jobs[key].steps < full.jobs[key].steps
    ensures Left(net', full) < Left(net, full)
  {
    hide Total, Advance, FindTask, InHand, Coarser, SameClasses;
    var pair := InHand(net.jobs[key]);
    var o := Advance(net.heap, pair.left, pair.right);
    JobsLeftPut(net, net', full, key, net'.jobs[key]);
    if o.Again? {
      AgainFrees(net.heap, pair.left, pair.right);
      var n :| n in net.heap.live && (Wire(n) == pair.left || Wire(n) == pair.right)
          && o.heap.live == net.heap.live - {n};
      FreedOne(net, net', n);
    } else {
      OtherwiseLive(net.heap, pair.left, pair.right);
      assert Freed(net') == Freed(net);
    }
  }

  lemma FreedOne(net: Net, net': Net, n: Name)
    requires net'.wiring.Keys == net.wiring.Keys && n in net.heap.live && Wire(n) in net.wiring
    requires net'.heap.live == net.heap.live - {n}
    ensures |Freed(net')| > |Freed(net)|
  {
    assert n !in Freed(net);
    assert Wire(n) in net'.wiring && n in Freed(net');
    FreedMore(net, net');
  }

  /** The job that the action begins or goes on with is done in `full`. */
  predicate ActsOn(full: Net, a: Action) {
    IsDoneIn(full, if a.Begins? then {a.task.left, a.task.right} else a.key)
  }

  lemma ActLeaves(w: World, code: seq<Opcode>, net: Net, full: Net, a: Action)
    requires WellFormed(w) && Inv(w, code, net) && Inv(w, code, full) && Act(w, net, a).Some?
    requires Within(w, net, full) && Within(w, Act(w, net, a).value, full) && ActsOn(full, a)
    ensures Left(Act(w, net, a).value, full) < Left(net, full)
  {
    hide WellFormed, InvHeap, InvCount, InvJobs, InvNames, InvNodes, InvTasks, InvFired, InvReplay, IsDone, Begin,
        Compute, Move, Left, Within;
    ActKeeps(w, code, net, a);
    match a
    case Begins(t) =>
      BeginTaken(w, net, t);
      TaskIsFresh(w, net, t);
      BeginLess(w, net, full, t);
    case Computes(key) =>
      ComputeIs(w, net, key);
      var s := Computed(w, key, net.jobs[key]).value;
      StepCounts(w, net, net.jobs[key], Act(w, net, a).value, full, key);
      ComputeFresh(w, net, key);
      ComputeLess(w, net, full, key, s);
    case Moves(key) =>
      MoveIs(w, net, key);
      var net' := Move(w, net, key).value;
      MoveBehind(w, net, full, key);
      FuzedLive(net);
      MoveLess(w, net, full, key, net');
  }

  /** Every step leaves less to do. */
  lemma ActLess(w: World, code: seq<Opcode>, net: Net, full: Net, a: Action)
    requires WellFormed(w) && Symmetric(w) && Inv(w, code, net) && Inv(w, code, full) && IsComplete(full)
    requires Within(w, net, full) && Act(w, net, a).Some?
    ensures Left(Act(w, net, a).value, full) < Left(net, full)
  {
    hide WellFormed, Symmetric, Inv, IsDone, Begin, Compute, Move, Left, Within;
    ActWithin(w, code, net, full, a);
    if a.Begins? {
      BeginKey(w, net, a.task);
      KeyWithin(w, Act(w, net, a).value, full, {a.task.left, a.task.right});
    } else {
      InJobs(w, net, a.key);
      KeyWithin(w, net, full, a.key);
    }
    ActLeaves(w, code, net, full, a);
  }

  lemma BeginKey(w: World, net: Net, t: Task)
    requires Begin(w, net, t).Some?
    ensures {t.left, t.right} in Begin(w, net, t).value.jobs
  {
  }

  lemma FuzedLive(net: Net)
    requires InvHeap(net)
    ensures net.heap.fuzed.Keys <= net.heap.live
  {
  }

  lemma ComputeFresh(w: World, net: Net, key: set<Name>)
    requires WellFormed(w) && InvJobs(net) && InvNames(net) && Compute(w, net, key).Some?
    ensures NewValues(Computed(w, key, net.jobs[key]).value) !! net.wiring.Keys
  {
    hide InvNames, Fresh, NewValues, Step, PureFrames;
    ComputeIs(w, net, key);
    assert InvJob(net.wiring, net.jobs[key]);
    var s := Computed(w, key, net.jobs[key]).value;
    StepFresh(w, key, net.jobs[key].state, s);
    FreshIsNew(w, net, key, s);
  }

  /** An opcode is one of those that the job has executed when it is done. */
  lemma StepCounts(w: World, net: Net, job: Job, net': Net, full: Net, key: set<Name>)
    requires key in net.jobs && job == net.jobs[key] && Computed(w, key, job).Some?
    requires net' == NetAfter(net, key, job, Computed(w, key, job).value)
    requires InvReplay(w, net') && InvReplay(w, full) && IsDoneIn(full, key) && Within(w, net', full)
    ensures job.steps < full.jobs[key].steps
  {
    hide Computed, NewNodes, NewValues, NewJoins, NewEnds, WireIds, Extend, InvReplay, IsDone, Includes, Coarser,
        Matched, Next;
    JobGoes(w, net', full, key);
  }

  /** A job with a join to do is behind the same job done. */
  lemma MoveBehind(w: World, net: Net, full: Net, key: set<Name>)
    requires InvReplay(w, net) && InvReplay(w, full) && IsDoneIn(full, key) && Within(w, net, full)
    requires key in net.jobs && net.jobs[key].joins != []
    ensures net.jobs[key].steps < full.jobs[key].steps
  {
    hide Follow, Replays, Includes, Coarser, Matched;
    var job, job' := net.jobs[key], full.jobs[key];
    JobGoes(w, net, full, key);
    ReplaysAt(w, net, key, job);
    ReplaysAt(w, full, key, job');
    MatchedRest(w, key, job.start, job'.start, job'.steps);
    hide Rests;
  }

  // All runs

  lemma {:induction false} RunLess(w: World, code: seq<Opcode>, run: seq<Net>, i: nat, full: Net)
    requires WellFormed(w) && Symmetric(w) && IsPure(code) && IsRun(w, code, run) && i < |run|
    requires Inv(w, code, full) && IsComplete(full)
    ensures Left(run[i], full) <= Left(Init(code), full) - i
  {
    hide WellFormed, Symmetric, IsPure, Act, Inv, IsComplete, Left, Within, Init;
    if i > 0 {
      RunLess(w, code, run, i - 1, full);
      RunKeeps(w, code, run, i - 1);
      RunWithin(w, code, run, i - 1, full);
      assert CanAct(w, run[i - 1], run[i]);
      var a :| Act(w, run[i - 1], a) == Some(run[i]);
      ActLess(w, code, run[i - 1], full, a);
    }
  }

  /** Once one run completes, every run of the program is bounded, and wherever it stands it
      is complete or can go on: so every run completes, whatever the workers do, and ends in
      the same net. */
  lemma EveryRunCompletes(w: World, code: seq<Opcode>, run: seq<Net>, full: seq<Net>)
    requires WellFormed(w) && Symmetric(w) && IsPure(code)
    requires IsRun(w, code, run) && IsRun(w, code, full) && IsComplete(full[|full| - 1])
    ensures |run| <= 1 + Left(Init(code), full[|full| - 1])
    ensures IsComplete(run[|run| - 1]) || CanStep(w, run[|run| - 1])
  {
    hide WellFormed, Symmetric, IsPure, Inv, IsComplete, Left, Within, Init, CanStep, IsRun;
    RunStarts(w, code, run);
    RunStarts(w, code, full);
    var net, last := run[|run| - 1], full[|full| - 1];
    RunKeeps(w, code, full, |full| - 1);
    RunKeeps(w, code, run, |run| - 1);
    RunWithin(w, code, run, |run| - 1, last);
    RunLess(w, code, run, |run| - 1, last);
    WithinLeft(w, net, last);
    if !IsComplete(net) { NotStuck(w, code, net, last); }
  }

  lemma WithinLeft(w: World, net: Net, full: Net)
    requires Within(w, net, full)
    ensures Left(net, full) >= 0
  {
    hide Left, Coarser, Includes, Matched;
    LeftBounds(w, net, full);
  }
}
