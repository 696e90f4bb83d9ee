/** Every step of every worker keeps the invariant, so it holds in all runs.

    The invariant of module NetInvariant has eight parts, and there are three kinds of step.
    For each kind there is a lemma for each part that needs one, named after both, and one
    that puts the parts together: `BeginKeeps` for taking the two nodes of a task apart,
    `ComputeKeeps` for one opcode of a job, `MoveKeeps` for one compare-and-swap of a job.
    What is hard about the first is that the two nodes are there, different, and in no other
    task, because a pair of principal ports is joined once and never again; about the second
    that whatever the opcode makes gets a name that nobody has, since names hold the redex of
    the job and a number that only grows; about the third that a task is found exactly when
    two principal ports have come together, whichever of the two workers finds it. Lemmas
    that say what merely grows from one step to the next come first. */
module NetSteps {
  import opened Values
  import opened Wires
  import opened Machine
  import opened Interaction
  import opened NetEnds
  import opened NetInvariant
  import opened NetCounts

  // What only grows

  /** Values together stay together. */
  ghost predicate Coarser(c: Wiring, c': Wiring) {
    && c.Keys <= c'.Keys
    && forall u, v :: u in c && v in c && c[u] == c[v] ==> c'[u] == c'[v]
  }

  predicate Includes<K, V(==)>(m: map<K, V>, m': map<K, V>) {
    forall k :: k in m ==> k in m' && m'[k] == m[k]
  }

  ghost predicate Grows(net: Net, net': Net) {
    && Coarser(net.wiring, net'.wiring)
    && Includes(net.created, net'.created)
    && Includes(net.heap.oppsite, net'.heap.oppsite)
  }

  lemma MergeCoarser(c: Wiring, l: Value, r: Value)
    requires IsPartition(c) && l in c && r in c
    ensures Coarser(c, Merge(c, l, r)) && Merge(c, l, r)[l] == Merge(c, l, r)[r]
  {
  }

  lemma ExtendCoarser(c: Wiring, values: set<Value>)
    ensures Coarser(c, Extend(c, values)) && Extend(c, values).Keys == c.Keys + values
  {
  }

  lemma ReplaysGrows(w: World, net: Net, net': Net, key: set<Name>, job: Job)
    requires Coarser(net.wiring, net'.wiring) && Includes(net.created, net'.created)
    requires Replays(w, net, key, job)
    ensures Replays(w, net', key, job)
  {
  }

  lemma ComesFromGrows(w: World, net: Net, net': Net, t: Task, u: Value, v: Value)
    requires Grows(net, net') && ComesFrom(w, net, t, u, v)
    ensures ComesFrom(w, net', t, u, v)
  {
  }

  lemma FiredGrows(w: World, net: Net, net': Net, key: set<Name>, job: Job)
    requires Grows(net, net') && Fired(w, net, key, job)
    ensures Fired(w, net', key, job)
  {
    hide ComesFrom;
    var t, u, v :| ComesFrom(w, net, t, u, v) && IsJobOf(w, net.created, key, job.start, t);
    ComesFromGrows(w, net, net', t, u, v);
    hide Coarser, Start;
    assert IsJobOf(w, net'.created, key, job.start, t);
  }

  // One port, one task

  /** Two principal ports of one node are one port. */
  lemma SamePort(w: World, created: map<Name, Node>, u: Value, v: Value)
    requires WellFormed(w) && IsPort(w, created, u) && IsPort(w, created, v) && u.node == v.node
    ensures u == v
  {
  }

  /** What met is a pair of ports of different nodes. */
  lemma MetPorts(w: World, net: Net, u: Value)
    requires WellFormed(w) && InvHeap(net) && InvNodes(w, net) && u in net.heap.oppsite
    ensures var v := net.heap.oppsite[u];
            && IsPort(w, net.created, u) && IsPort(w, net.created, v)
            && u.node != v.node && v in net.heap.oppsite && net.heap.oppsite[v] == u
            && u in net.wiring && v in net.wiring && net.wiring[u] == net.wiring[v]
  {
    hide WellFormed, Affine, IsPartition, IsNode, IsPort;
    var v := net.heap.oppsite[u];
    assert Paired(net.heap, net.wiring, u, v);
    assert IsPort(w, net.created, u) && IsPort(w, net.created, v) by {
      assert Paired(net.heap, net.wiring, v, net.heap.oppsite[v]);
    }
    if u.node == v.node { SamePort(w, net.created, u, v); }
  }

  lemma TaskNames(w: World, created: map<Name, Node>, u: Value, v: Value, t: Task)
    requires t in FindTask(w, created, u, v)
    ensures u.Principal? && v.Principal? && u.node in created && v.node in created
    ensures {t.left, t.right} == {u.node, v.node} && t.rule < |w.rules|
    ensures FindTask(w, created, u, v) == {t}
  {
  }

  /** The two nodes of a task are different, and their only principal ports met. */
  lemma TaskPorts(w: World, net: Net, t: Task) returns (u: Value, v: Value)
    requires WellFormed(w) && InvHeap(net) && InvNodes(w, net)
    requires exists u, v :: ComesFrom(w, net, t, u, v)
    ensures ComesFrom(w, net, t, u, v) && t in FindTask(w, net.created, u, v)
    ensures t.left != t.right && {t.left, t.right} == {u.node, v.node}
    ensures v in net.heap.oppsite && net.heap.oppsite[v] == u
    ensures IsPort(w, net.created, u) && IsPort(w, net.created, v)
    ensures t.left in net.created && t.right in net.created && t.rule < |w.rules|
  {
    hide WellFormed, InvHeap, InvNodes, FindTask, IsPort;
    u, v :| ComesFrom(w, net, t, u, v);
    MetPorts(w, net, u);
    TaskNames(w, net.created, u, v, t);
    assert t.left in {u.node, v.node} && t.right in {u.node, v.node} && u.node in {t.left, t.right}
        && v.node in {t.left, t.right};
  }

  /** If two tasks share a node they come from the same two ports. */
  lemma SharedNode(w: World, net: Net, u: Value, v: Value, x: Value, y: Value)
    requires WellFormed(w) && InvHeap(net) && InvNodes(w, net)
    requires u in net.heap.oppsite && net.heap.oppsite[u] == v && x in net.heap.oppsite && net.heap.oppsite[x] == y
    requires u.Principal? && v.Principal? && x.Principal? && y.Principal? && !({u.node, v.node} !! {x.node, y.node})
    ensures (x == u && y == v) || (x == v && y == u)
  {
    hide WellFormed, InvHeap, InvNodes, IsPort;
    MetPorts(w, net, u);
    MetPorts(w, net, x);
    var n :| n in {u.node, v.node} && n in {x.node, y.node};
    var a, b := if n == u.node then u else v, if n == x.node then x else y;
    SamePort(w, net.created, a, b);
  }

  lemma TaskIsFresh(w: World, net: Net, t: Task)
    requires WellFormed(w) && InvHeap(net) && InvNodes(w, net) && InvTasks(w, net) && t in net.tasks
    ensures t.left != t.right && {t.left, t.right} !in net.jobs
    ensures forall key :: key in net.jobs ==> t.left !in key && t.right !in key
  {
    hide WellFormed, InvHeap, ComesFrom, IsNode, IsPort, Queued;
    assert InvTask(w, net, t);
    assert t.left in net.nodes && t.left in {t.left, t.right};
    var u, v := TaskPorts(w, net, t);
  }

  // Starting a task

  lemma BeginGrows(w: World, net: Net, t: Task)
    requires Begin(w, net, t).Some?
    ensures Grows(net, Begin(w, net, t).value)
  {
  }

  lemma BeginJobs(w: World, net: Net, t: Task)
    requires WellFormed(w) && InvJobs(net) && Begin(w, net, t).Some?
    ensures InvJobs(Begin(w, net, t).value)
  {
  }

  lemma BeginNames(w: World, net: Net, t: Task)
    requires InvNames(net) && Begin(w, net, t).Some? && {t.left, t.right} !in net.jobs
    ensures InvNames(Begin(w, net, t).value)
  {
    hide Auxiliary;
  }

  lemma BeginNodes(w: World, net: Net, t: Task)
    requires InvNodes(w, net) && Begin(w, net, t).Some?
    ensures InvNodes(w, Begin(w, net, t).value)
  {
    hide Auxiliary, IsNode, IsPort;
    var net' := Begin(w, net, t).value;
    var key := {t.left, t.right};
    assert net'.jobs.Keys == net.jobs.Keys + {key};
    forall n | n in net.created
      ensures n in net'.nodes <==> forall k :: k in net'.jobs ==> n !in k
    {
      assert n in net'.nodes <==> n in net.nodes && n !in key;
    }
  }

  lemma BeginTasks(w: World, net: Net, t: Task)
    requires InvTasks(w, net) && Begin(w, net, t).Some?
    ensures InvTasks(w, Begin(w, net, t).value)
  {
    hide Auxiliary, FindTask, NewJob;
    var net' := Begin(w, net, t).value;
    forall t2 | t2 in net'.tasks ensures InvTask(w, net', t2) {
      assert InvTask(w, net, t2);
      var u, v :| ComesFrom(w, net, t2, u, v);
      assert ComesFrom(w, net', t2, u, v);
    }
    forall u | u in net.heap.oppsite ensures Queued(w, net', u, net.heap.oppsite[u]) {
      assert Queued(w, net, u, net.heap.oppsite[u]);
    }
  }

  lemma BeginFired(w: World, code: seq<Opcode>, net: Net, t: Task)
    requires WellFormed(w) && InvHeap(net) && InvNodes(w, net) && InvTasks(w, net) && InvFired(w, code, net)
    requires Begin(w, net, t).Some?
    ensures InvFired(w, code, Begin(w, net, t).value)
  {
    hide WellFormed, InvHeap, Fired, ComesFrom, Auxiliary, IsPort, IsNode, Grows, Queued, Start;
    var net' := Begin(w, net, t).value;
    var begun := {t.left, t.right};
    BeginGrows(w, net, t);
    assert t.left in begun;
    forall key | key in net'.jobs && key != {} ensures Fired(w, net', key, net'.jobs[key]) {
      if key == begun {
        assert InvTask(w, net, t);
        var u, v := TaskPorts(w, net, t);
        assert IsJobOf(w, net.created, begun, net'.jobs[begun].start, t);
        BeginFires(w, net, net', t, u, v, begun, net'.jobs[begun]);
      } else {
        FiredGrows(w, net, net', key, net.jobs[key]);
      }
    }
  }

  lemma BeginFires(w: World, net: Net, net': Net, t: Task, u: Value, v: Value, key: set<Name>, job: Job)
    requires Grows(net, net') && ComesFrom(w, net, t, u, v) && IsJobOf(w, net.created, key, job.start, t)
    ensures Fired(w, net', key, job)
  {
    assert Fired(w, net, key, job);
    FiredGrows(w, net, net', key, job);
  }

  lemma BeginReplay(w: World, net: Net, t: Task)
    requires InvReplay(w, net) && Begin(w, net, t).Some?
    ensures InvReplay(w, Begin(w, net, t).value)
  {
    hide Auxiliary, Performed;
    var net' := Begin(w, net, t).value;
    forall key | key in net'.jobs ensures Replays(w, net', key, net'.jobs[key]) {
      if key != {t.left, t.right} { ReplaysGrows(w, net, net', key, net.jobs[key]); }
    }
  }

  lemma BeginKeeps(w: World, code: seq<Opcode>, net: Net, t: Task)
    requires WellFormed(w) && Inv(w, code, net) && Begin(w, net, t).Some?
    ensures Inv(w, code, Begin(w, net, t).value)
  {
    hide WellFormed, Valid, Holders, InvJobs, InvNames, InvNodes, InvTasks, InvFired, InvReplay;
    BeginTaken(w, net, t);
    TaskIsFresh(w, net, t);
    BeginJobs(w, net, t);
    BeginNames(w, net, t);
    BeginNodes(w, net, t);
    BeginTasks(w, net, t);
    BeginFired(w, code, net, t);
    BeginReplay(w, net, t);
    var net' := Begin(w, net, t).value;
    forall v | IsEnd(v) ensures Holders(net', v) <= net'.held[v] {
      BeginCounts(w, net, t, v);
      assert Holders(net, v) <= net.held[v];
    }
  }

  lemma BeginTaken(w: World, net: Net, t: Task)
    requires Begin(w, net, t).Some?
    ensures t in net.tasks
    ensures var net' := Begin(w, net, t).value;
            net'.heap == net.heap && net'.held == net.held && net'.wiring == net.wiring
  {
  }

  // Executing an opcode

  function NewNodes(s: State): map<Name, Node> { if s.effects == [] then map[] else NodesOf(s.effects[0]) }

  function NewValues(s: State): set<Value> { if s.effects == [] then {} else ValuesOf(s.effects[0]) }

  function NewJoins(s: State): seq<Pair> { if s.effects == [] then [] else JoinsOf(s.effects[0]) }

  function JobAfter(job: Job, s: State): Job {
    Job(s.(effects := []), NewJoins(s), None, job.start, job.steps + 1)
  }

  function NetAfter(net: Net, key: set<Name>, job: Job, s: State): Net {
    Net(
      net.nodes + NewNodes(s),
      net.heap.(live := net.heap.live + WireIds(NewValues(s))),
      net.tasks,
      net.jobs[key := JobAfter(job, s)],
      net.created + NewNodes(s),
      Extend(net.wiring, NewValues(s)),
      net.held + NewEnds(NewValues(s)))
  }

  lemma ComputeIs(w: World, net: Net, key: set<Name>)
    requires Compute(w, net, key).Some?
    ensures key in net.jobs && Computed(w, key, net.jobs[key]).Some?
    ensures Compute(w, net, key).value == NetAfter(net, key, net.jobs[key], Computed(w, key, net.jobs[key]).value)
  {
    hide Step, NodesOf, ValuesOf, WiresOf, JoinsOf;
    var s := Computed(w, key, net.jobs[key]).value;
    if s.effects == [] {
      assert net.nodes + map[] == net.nodes && net.created + map[] == net.created;
      assert net.heap.live + WireIds({}) == net.heap.live;
      assert Extend(net.wiring, {}) == net.wiring && net.held + NewEnds({}) == net.held;
    } else {
      WireIdsOf(s.effects[0]);
    }
  }

  /** What the opcode allocates is named after the job, with numbers it had not used. */
  ghost predicate Fresh(w: World, key: set<Name>, from: nat, s: State) {
    && from <= s.supply
    && (forall v :: v in NewValues(s) ==>
          IsEnd(v) && exists k {:trigger Born(key, k)} :: from <= k < s.supply && NameOf(v) == Born(key, k))
    && (forall n :: n in NewNodes(s) ==> n == Born(key, from) && from < s.supply && IsNode(w, n, NewNodes(s)[n]))
    && (forall v :: v in NewValues(s) && v.Principal? ==> IsPort(w, NewNodes(s), v))
    && (forall n, v :: n in NewNodes(s) && v in NewNodes(s)[n].ports && v.Principal? ==> v in NewValues(s))
  }

  lemma StepFresh(w: World, key: set<Name>, s: State, s': State)
    requires s.effects == [] && PureProgram(w.program) && PureFrames(s.frames)
    requires s.frames != [] && Step(w.program, key, s, true) == Some(s')
    ensures Fresh(w, key, s.supply, s') && PureFrames(s'.frames)
  {
    hide Step, PureFrames, PureProgram, CountState, Count, AtPorts, CountPairs, NewEnds, IsBuilt, ValuesOf, NodesOf,
        IsNode, IsPort;
    StepConserves(w.program, key, s, Wire(Initial(0)));
    if s'.effects != [] {
      var e := s'.effects[0];
      forall v | v in NewValues(s')
        ensures IsEnd(v) && exists k {:trigger Born(key, k)} :: s.supply <= k < s'.supply && NameOf(v) == Born(key, k)
      {
        ValuesNamed(w.program, key, e, s.supply, s'.supply, v);
      }
      NodesNamed(w.program, key, e, s.supply, s'.supply);
      BuiltNode(w, key, e, s.supply, s'.supply);
    }
  }

  lemma BuiltNode(w: World, key: set<Name>, e: Effect, from: nat, to: nat)
    requires IsBuilt(w.program, key, e, from, to)
    ensures forall n :: n in NodesOf(e) ==> IsNode(w, n, NodesOf(e)[n])
    ensures forall v :: v in ValuesOf(e) && v.Principal? ==> IsPort(w, NodesOf(e), v)
    ensures forall n, v :: n in NodesOf(e) && v in NodesOf(e)[n].ports && v.Principal? ==> v in ValuesOf(e)
  {
  }

  lemma FreshIsNew(w: World, net: Net, key: set<Name>, s: State)
    requires InvNames(net) && key in net.jobs && Fresh(w, key, net.jobs[key].state.supply, s)
    ensures NewValues(s) !! net.wiring.Keys && NewNodes(s).Keys !! net.created.Keys
  {
    hide NewValues, NewNodes, IsNode, IsPort;
  }

  lemma ComputeGrows(w: World, net: Net, key: set<Name>, job: Job, s: State)
    requires NewNodes(s).Keys !! net.created.Keys
    ensures Grows(net, NetAfter(net, key, job, s))
  {
  }

  lemma ComputeHeap(w: World, net: Net, key: set<Name>, job: Job, s: State)
    requires InvHeap(net) && Fresh(w, key, job.state.supply, s) && NewValues(s) !! net.wiring.Keys
    ensures InvHeap(NetAfter(net, key, job, s))
  {
    hide NewNodes, NewValues, WireIds, NewEnds, Valid, IsNode, IsPort;
    AllocValid(net.heap, net.held, net.wiring, NewValues(s));
    ExtendCoarser(net.wiring, NewValues(s));
  }

  lemma ComputeNames(w: World, net: Net, key: set<Name>, s: State)
    requires InvNames(net) && key in net.jobs && Fresh(w, key, net.jobs[key].state.supply, s)
    ensures InvNames(NetAfter(net, key, net.jobs[key], s))
  {
    hide NewNodes, NewValues, NewJoins, WireIds, NewEnds, Extend, IsNode, IsPort;
    var net' := NetAfter(net, key, net.jobs[key], s);
    ExtendCoarser(net.wiring, NewValues(s));
    assert forall n :: Named(net.jobs, n) ==> Named(net'.jobs, n);
  }

  /** The nodes of a job that fired have been created. */
  lemma FiredCreated(w: World, code: seq<Opcode>, net: Net, key: set<Name>, n: Name)
    requires InvFired(w, code, net) && key in net.jobs && n in key
    ensures n in net.created
  {
  }

  /** A new node is in no job's redex, and what was taken stays so. */
  lemma ComputeTaken(w: World, code: seq<Opcode>, net: Net, key: set<Name>, s: State, n: Name)
    requires InvNodes(w, net) && InvFired(w, code, net) && key in net.jobs && NewNodes(s).Keys !! net.created.Keys
    requires n in NetAfter(net, key, net.jobs[key], s).created
    ensures var net' := NetAfter(net, key, net.jobs[key], s);
            n in net'.nodes <==> forall k :: k in net'.jobs ==> n !in k
  {
    hide NewNodes, NewValues, NewJoins, WireIds, NewEnds, Extend, IsNode, IsPort, InvFired;
    var net' := NetAfter(net, key, net.jobs[key], s);
    assert net'.jobs.Keys == net.jobs.Keys;
    if n in NewNodes(s) {
      forall k | k in net.jobs ensures n !in k {
        if n in k { FiredCreated(w, code, net, k, n); }
      }
    } else {
      assert n in net.nodes <==> forall k :: k in net.jobs ==> n !in k;
    }
  }

  lemma ComputeNodes(w: World, code: seq<Opcode>, net: Net, key: set<Name>, s: State)
    requires InvNodes(w, net) && InvFired(w, code, net) && key in net.jobs
    requires Fresh(w, key, net.jobs[key].state.supply, s) && NewNodes(s).Keys !! net.created.Keys
    ensures InvNodes(w, NetAfter(net, key, net.jobs[key], s))
  {
    hide NewNodes, NewValues, NewJoins, WireIds, NewEnds, Extend, IsNode, InvFired;
    var net' := NetAfter(net, key, net.jobs[key], s);
    ExtendCoarser(net.wiring, NewValues(s));
    forall n | n in net'.created ensures n in net'.nodes <==> forall k :: k in net'.jobs ==> n !in k {
      ComputeTaken(w, code, net, key, s, n);
    }
    forall u | u in net'.wiring && u.Principal? ensures IsPort(w, net'.created, u) {
      if u in net.wiring { assert IsPort(w, net.created, u); } else { assert IsPort(w, NewNodes(s), u); }
    }
  }

  lemma QueuedGrows(w: World, net: Net, net': Net, u: Value, v: Value)
    requires Queued(w, net, u, v) && Includes(net.created, net'.created) && net'.tasks == net.tasks
    requires u.Principal? && v.Principal? ==> u.node in net.created && v.node in net.created
    requires forall n :: n in net.created && n in net'.nodes ==> n in net.nodes
    ensures Queued(w, net', u, v)
  {
  }

  lemma ComputeTasks(w: World, net: Net, key: set<Name>, s: State)
    requires WellFormed(w) && InvHeap(net) && InvNodes(w, net) && InvTasks(w, net) && key in net.jobs
    requires NewNodes(s).Keys !! net.created.Keys && Grows(net, NetAfter(net, key, net.jobs[key], s))
    ensures InvTasks(w, NetAfter(net, key, net.jobs[key], s))
  {
    hide WellFormed, InvHeap, NewNodes, NewValues, NewJoins, WireIds, NewEnds, Extend, FindTask, InvNodes, ComesFrom,
        Queued, Coarser;
    var net' := NetAfter(net, key, net.jobs[key], s);
    forall t | t in net'.tasks ensures InvTask(w, net', t) {
      assert InvTask(w, net, t);
      var u, v :| ComesFrom(w, net, t, u, v);
      ComesFromGrows(w, net, net', t, u, v);
    }
    forall u | u in net.heap.oppsite ensures Queued(w, net', u, net.heap.oppsite[u]) {
      MetPorts(w, net, u);
      QueuedGrows(w, net, net', u, net.heap.oppsite[u]);
    }
  }

  lemma GrowsFired(w: World, code: seq<Opcode>, net: Net, net': Net)
    requires InvFired(w, code, net) && Grows(net, net') && net'.jobs.Keys == net.jobs.Keys
    requires forall key :: key in net.jobs ==> net'.jobs[key].start == net.jobs[key].start
    ensures InvFired(w, code, net')
  {
    hide Grows, ComesFrom;
    forall key | key in net'.jobs && key != {} ensures Fired(w, net', key, net'.jobs[key]) {
      FiredGrows(w, net, net', key, net.jobs[key]);
    }
  }

  lemma FollowNext(w: World, key: set<Name>, start: Course, n: nat, c: Course, next: Course)
    requires Follow(w, key, start, n) == Some(c) && Next(w, key, c) == Some(next)
    ensures Follow(w, key, start, n + 1) == Some(next)
  {
  }

  lemma ReplaysNext(w: World, net: Net, key: set<Name>, job: Job, c: Course, job': Job)
    requires Replays(w, net, key, job) && c == Course(job.state, job.joins)
    requires Performed(w, key, net, c) && Next(w, key, c) == Some(Course(job'.state, job'.joins))
    requires job'.start == job.start && job'.steps == job.steps + 1
    ensures Replays(w, net, key, job')
  {
    hide Performed, Next;
    FollowNext(w, key, Course(job.start, []), job.steps, c, Course(job'.state, job'.joins));
    hide Follow;
    forall j | 0 <= j < job'.steps
      ensures var d := Follow(w, key, Course(job.start, []), j); d.Some? && Performed(w, key, net, d.value)
    {
      if j < job.steps { } else { assert j == job.steps; }
    }
  }

  lemma ComputePerformed(w: World, net: Net, key: set<Name>, s: State)
    requires key in net.jobs && Computed(w, key, net.jobs[key]) == Some(s)
    ensures var job := net.jobs[key];
            && Performed(w, key, NetAfter(net, key, job, s), Course(job.state, job.joins))
            && Next(w, key, Course(job.state, job.joins))
                == Some(Course(JobAfter(job, s).state, JobAfter(job, s).joins))
  {
    hide Step, ValuesOf, NodesOf, JoinsOf, WireIds, NewEnds, Extend;
    ExtendCoarser(net.wiring, NewValues(s));
  }

  lemma ComputeReplay(w: World, net: Net, key: set<Name>, s: State)
    requires InvReplay(w, net) && key in net.jobs && Computed(w, key, net.jobs[key]) == Some(s)
    requires Grows(net, NetAfter(net, key, net.jobs[key], s))
    ensures InvReplay(w, NetAfter(net, key, net.jobs[key], s))
  {
    hide Replays, Performed, Coarser, Includes, Computed, Next, NewNodes, NewValues, NewJoins, WireIds, NewEnds, Extend;
    var job, net' := net.jobs[key], NetAfter(net, key, net.jobs[key], s);
    forall k | k in net'.jobs ensures Replays(w, net', k, net'.jobs[k]) {
      ReplaysGrows(w, net, net', k, net.jobs[k]);
      if k == key {
        ComputePerformed(w, net, key, s);
        ReplaysNext(w, net', key, job, Course(job.state, job.joins), net'.jobs[key]);
      }
    }
  }

  lemma ComputeKeeps(w: World, code: seq<Opcode>, net: Net, key: set<Name>)
    requires WellFormed(w) && Inv(w, code, net) && Compute(w, net, key).Some?
    ensures Inv(w, code, Compute(w, net, key).value)
  {
    hide Compute, InvHeap, InvNames, InvNodes, InvTasks, InvFired, InvReplay, Holders, NodesOf, NewValues, NewJoins,
        WireIds, Extend, NewEnds, PureFrames, Step, Grows, Fresh;
    ComputeIs(w, net, key);
    var job := net.jobs[key];
    var s := Computed(w, key, job).value;
    assert InvJob(net.wiring, job);
    StepFresh(w, key, job.state, s);
    FreshIsNew(w, net, key, s);
    ComputeGrows(w, net, key, job, s);
    var net' := NetAfter(net, key, job, s);
    ComputeHeap(w, net, key, job, s);
    ComputeCoarser(net, net');
    ComputeNames(w, net, key, s);
    ComputeNodes(w, code, net, key, s);
    ComputeTasks(w, net, key, s);
    GrowsFired(w, code, net, net');
    ComputeReplay(w, net, key, s);
    NodesCreated(w, net);
    forall v | IsEnd(v) ensures Holders(net', v) <= net'.held[v] {
      ComputeCounts(w, net, key, v);
      assert Holders(net, v) <= net.held[v];
    }
  }

  lemma ComputeCoarser(net: Net, net': Net)
    requires Grows(net, net')
    ensures Coarser(net.wiring, net'.wiring)
  {
  }

  lemma NodesCreated(w: World, net: Net)
    requires InvNodes(w, net)
    ensures net.nodes.Keys <= net.created.Keys
  {
  }

  // One compare-and-swap

  lemma AdvanceOppsite(h: Heap, held: multiset<Value>, l: Value, r: Value)
    requires Affine(h, held) && multiset{l, r} <= held
    ensures var o := Advance(h, l, r);
            if o.Met? then
              && o.left == l && o.right == r && l !in h.oppsite && r !in h.oppsite
              && o.heap.oppsite == h.oppsite[l := r][r := l]
            else o.heap.oppsite == h.oppsite
  {
    var o := Advance(h, l, r);
    if o.Met? {
      assert held[l] >= multiset{l, r}[l] && held[r] >= multiset{l, r}[r];
      HeldIsThere(h, held, l);
      HeldIsThere(h, held, r);
    }
  }

  /** What one step of a connect does, with the pair in hand being outstanding. */
  ghost predicate MoveFacts(w: World, net: Net, key: set<Name>, net': Net) {
    && key in net.jobs && net.jobs[key].joins != []
    && var job := net.jobs[key];
    && var pair := InHand(job);
    && pair.left in net.wiring && pair.right in net.wiring
    && net'.nodes == net.nodes && net'.created == net.created
    && Coarser(net.wiring, net'.wiring) && net'.wiring.Keys == net.wiring.Keys
    && var o := Advance(net.heap, pair.left, pair.right);
    && net'.heap == o.heap
    && (if o.Met? then
          && o.left == pair.left && o.right == pair.right
          && o.left !in net.heap.oppsite && o.right !in net.heap.oppsite
          && net'.heap.oppsite == net.heap.oppsite[o.left := o.right][o.right := o.left]
          && net'.tasks == net.tasks + FindTask(w, net.nodes, o.left, o.right)
        else net'.heap.oppsite == net.heap.oppsite && net'.tasks == net.tasks)
    && (if o.Again? then
          && net'.jobs == net.jobs[key := job.(hand := Some(Pair(o.left, o.right)))]
          && SameClasses(net'.wiring, pair.left, pair.right, o.left, o.right)
        else
          && net'.jobs == net.jobs[key := job.(joins := job.joins[1..], hand := None, steps := job.steps + 1)]
          && net'.wiring[pair.left] == net'.wiring[pair.right])
  }

  ghost predicate SameClasses(c: Wiring, l: Value, r: Value, a: Value, b: Value) {
    && l in c && r in c && a in c && b in c
    && ((c[a] == c[l] && c[b] == c[r]) || (c[a] == c[r] && c[b] == c[l]))
  }

  lemma MoveIs(w: World, net: Net, key: set<Name>)
    requires InvHeap(net) && InvCount(net) && Move(w, net, key).Some?
    ensures InvHeap(Move(w, net, key).value)
    ensures MoveFacts(w, net, key, Move(w, net, key).value)
  {
    hide InvCount, Affine, Represents, IsPartition, Advance, Merge, FindTask, InHand;
    var pair := InHand(net.jobs[key]);
    HandIsHeld(net, key);
    ValidParts(net.heap, net.held, net.wiring);
    AdvanceOppsite(net.heap, net.held, pair.left, pair.right);
    AdvanceValid(net.heap, net.held, net.wiring, pair.left, pair.right);
    MergeCoarser(net.wiring, pair.left, pair.right);
    MergeKeys(net.wiring, pair.left, pair.right);
    hide Valid;
  }

  lemma ValidParts(h: Heap, held: multiset<Value>, c: Wiring)
    requires Valid(h, held, c)
    ensures Affine(h, held) && IsPartition(c)
  {
  }

  lemma MergeKeys(c: Wiring, l: Value, r: Value)
    requires l in c && r in c
    ensures Merge(c, l, r).Keys == c.Keys
  {
  }

  lemma MoveGrows(w: World, net: Net, key: set<Name>, net': Net)
    requires MoveFacts(w, net, key, net')
    ensures Grows(net, net')
  {
    hide Coarser, Advance, FindTask, InHand;
  }

  lemma MoveJobs(w: World, net: Net, key: set<Name>, net': Net)
    requires InvJobs(net) && MoveFacts(w, net, key, net')
    ensures InvJobs(net')
  {
  }

  lemma MoveNames(w: World, net: Net, key: set<Name>, net': Net)
    requires InvNames(net) && MoveFacts(w, net, key, net')
    ensures InvNames(net')
  {
    hide Advance, FindTask, InHand, Coarser;
    assert forall n :: Named(net.jobs, n) ==> Named(net'.jobs, n);
  }

  lemma MoveNodes(w: World, net: Net, key: set<Name>, net': Net)
    requires InvNodes(w, net) && MoveFacts(w, net, key, net')
    ensures InvNodes(w, net')
  {
    hide Advance, FindTask, InHand, Coarser, IsNode, IsPort;
    assert net'.jobs.Keys == net.jobs.Keys;
  }

  lemma FindTaskKept(w: World, nodes: map<Name, Node>, created: map<Name, Node>, u: Value, v: Value, t: Task)
    requires Includes(nodes, created) && t in FindTask(w, nodes, u, v)
    ensures t in FindTask(w, created, u, v)
    ensures t.left in nodes && t.right in nodes
  {
  }

  lemma {:induction false} FindRuleSwap(rules: seq<Rule>, l: nat, r: nat)
    ensures FindRule(rules, l, r) == FindRule(rules, r, l)
  {
    if rules != [] { FindRuleSwap(rules[..|rules| - 1], l, r); }
  }

  /** The two ports that met are queued if both nodes are there. */
  lemma MetQueued(w: World, net: Net, l: Value, r: Value, net': Net, u: Value, v: Value)
    requires net'.nodes == net.nodes && net'.created == net.created && Includes(net.nodes, net.created)
    requires net'.tasks == net.tasks + FindTask(w, net.nodes, l, r)
    requires (u == l && v == r) || (u == r && v == l)
    ensures Queued(w, net', u, v)
  {
  }

  lemma MoveQueued(w: World, net: Net, key: set<Name>, net': Net, u: Value)
    requires InvTasks(w, net) && MoveFacts(w, net, key, net') && Includes(net.nodes, net.created)
    requires u in net'.heap.oppsite
    ensures Queued(w, net', u, net'.heap.oppsite[u])
  {
    hide FindTask, Coarser, Advance, InvTask, InHand;
    var pair := InHand(net.jobs[key]);
    var o := Advance(net.heap, pair.left, pair.right);
    if o.Met? && (u == o.left || u == o.right) {
      MetQueued(w, net, o.left, o.right, net', u, net'.heap.oppsite[u]);
    } else {
      assert Queued(w, net, u, net.heap.oppsite[u]);
    }
  }

  /** A task that was there, or that the two ports that just met make. */
  lemma MoveTask(w: World, net: Net, key: set<Name>, net': Net, t: Task)
    requires InvTasks(w, net) && MoveFacts(w, net, key, net') && Grows(net, net') && Includes(net.nodes, net.created)
    requires t in net'.tasks
    ensures InvTask(w, net', t)
    ensures t !in net.tasks ==>
              var pair := InHand(net.jobs[key]);
              && pair.left !in net.heap.oppsite && pair.right !in net.heap.oppsite
                  && ComesFrom(w, net', t, pair.left, pair.right)
              && FindTask(w, net.nodes, pair.left, pair.right) == {t}
  {
    hide FindTask, Coarser, Advance, Queued, InHand, Grows;
    if t in net.tasks {
      assert InvTask(w, net, t);
      var u, v :| ComesFrom(w, net, t, u, v);
      ComesFromGrows(w, net, net', t, u, v);
    } else {
      var pair := InHand(net.jobs[key]);
      FindTaskKept(w, net.nodes, net.created, pair.left, pair.right, t);
      TaskNames(w, net.nodes, pair.left, pair.right, t);
      assert ComesFrom(w, net', t, pair.left, pair.right);
    }
  }

  lemma MoveApart(w: World, net: Net, key: set<Name>, net': Net, t1: Task, t2: Task)
    requires WellFormed(w) && InvTasks(w, net) && MoveFacts(w, net, key, net') && Grows(net, net')
    requires Includes(net.nodes, net.created)
    requires InvHeap(net') && InvNodes(w, net')
    requires t1 in net.tasks && t2 in net'.tasks && t2 !in net.tasks
    ensures {t1.left, t1.right} !! {t2.left, t2.right}
  {
    hide WellFormed, FindTask, Coarser, Advance, Queued, InHand, Grows, InvHeap, InvNodes, IsPort;
    MoveTask(w, net, key, net', t2);
    var pair := InHand(net.jobs[key]);
    assert InvTask(w, net, t1);
    var u, v :| ComesFrom(w, net, t1, u, v);
    ComesFromGrows(w, net, net', t1, u, v);
    TaskNames(w, net.created, u, v, t1);
    TaskNames(w, net'.created, pair.left, pair.right, t2);
    if !({u.node, v.node} !! {pair.left.node, pair.right.node}) {
      SharedNode(w, net', u, v, pair.left, pair.right);
    }
  }

  lemma MoveTasks(w: World, net: Net, key: set<Name>, net': Net)
    requires WellFormed(w) && InvTasks(w, net) && MoveFacts(w, net, key, net') && Grows(net, net')
    requires Includes(net.nodes, net.created)
    requires InvHeap(net') && InvNodes(w, net')
    ensures InvTasks(w, net')
  {
    hide WellFormed, MoveFacts, Grows, InvHeap, InvNodes, Includes, InvTask, Queued, ComesFrom, FindTask, InHand;
    forall t | t in net'.tasks ensures InvTask(w, net', t) {
      MoveTask(w, net, key, net', t);
    }
    forall t1, t2 | t1 in net'.tasks && t2 in net'.tasks && t1 != t2
      ensures {t1.left, t1.right} !! {t2.left, t2.right}
    {
      if t1 in net.tasks && t2 !in net.tasks { MoveApart(w, net, key, net', t1, t2); }
      if t2 in net.tasks && t1 !in net.tasks { MoveApart(w, net, key, net', t2, t1); }
      if t1 !in net.tasks && t2 !in net.tasks {
        MoveTask(w, net, key, net', t1);
        MoveTask(w, net, key, net', t2);
      }
    }
    forall u | u in net'.heap.oppsite ensures Queued(w, net', u, net'.heap.oppsite[u]) {
      MoveQueued(w, net, key, net', u);
    }
  }

  lemma JoinPerformed(w: World, net: Net, key: set<Name>, net': Net)
    requires InvJobs(net) && MoveFacts(w, net, key, net')
    requires net'.jobs[key].steps == net.jobs[key].steps + 1
    ensures var job, job' := net.jobs[key], net'.jobs[key];
            && Performed(w, key, net', Course(job.state, job.joins))
            && Next(w, key, Course(job.state, job.joins)) == Some(Course(job'.state, job'.joins))
  {
    hide FindTask, Advance, Step, PureFrames;
    assert InvJob(net.wiring, net.jobs[key]);
  }

  lemma MoveReplay(w: World, net: Net, key: set<Name>, net': Net)
    requires InvJobs(net) && InvReplay(w, net) && MoveFacts(w, net, key, net')
    ensures InvReplay(w, net')
  {
    hide Replays, Performed, Coarser, Next, FindTask, Advance, InHand, InvJobs;
    forall k | k in net'.jobs ensures Replays(w, net', k, net'.jobs[k]) {
      ReplaysGrows(w, net, net', k, net.jobs[k]);
      if k == key {
        var job, job' := net.jobs[key], net'.jobs[key];
        if job'.steps == job.steps {
          ReplaysHand(w, net', key, job, job');
        } else {
          JoinPerformed(w, net, key, net');
          ReplaysNext(w, net', key, job, Course(job.state, job.joins), job');
        }
      }
    }
  }

  lemma ReplaysHand(w: World, net: Net, key: set<Name>, job: Job, job': Job)
    requires Replays(w, net, key, job) && job' == job.(hand := job'.hand)
    ensures Replays(w, net, key, job')
  {
  }

  lemma MoveKeeps(w: World, code: seq<Opcode>, net: Net, key: set<Name>)
    requires WellFormed(w) && Inv(w, code, net) && Move(w, net, key).Some?
    ensures Inv(w, code, Move(w, net, key).value)
  {
    hide Move, WellFormed, InvHeap, InvJobs, InvNames, InvNodes, InvTasks, InvFired, InvReplay, Holders, MoveFacts,
        Grows;
    var net' := Move(w, net, key).value;
    MoveIs(w, net, key);
    MoveGrows(w, net, key, net');
    MoveJobs(w, net, key, net');
    MoveNames(w, net, key, net');
    MoveNodes(w, net, key, net');
    NodesIncluded(w, net);
    MoveTasks(w, net, key, net');
    MoveStarts(w, net, key, net');
    GrowsFired(w, code, net, net');
    MoveReplay(w, net, key, net');
    MoveHand(w, net, key);
    forall v | IsEnd(v) ensures Holders(net', v) <= net'.held[v] {
      MoveCounts(w, net, key, v);
      assert Holders(net, v) <= net.held[v];
    }
  }

  /** The pair that is joined is outstanding. */
  lemma MoveHand(w: World, net: Net, key: set<Name>)
    requires InvCount(net) && Move(w, net, key).Some?
    ensures key in net.jobs && net.jobs[key].joins != []
    ensures var p := InHand(net.jobs[key]); multiset{p.left, p.right} <= net.held
  {
    hide InvCount, Advance, Merge, FindTask, InHand;
    HandIsHeld(net, key);
  }

  lemma MoveStarts(w: World, net: Net, key: set<Name>, net': Net)
    requires MoveFacts(w, net, key, net')
    ensures net'.jobs.Keys == net.jobs.Keys && forall k :: k in net.jobs ==> net'.jobs[k].start == net.jobs[k].start
  {
    hide Advance, FindTask, InHand, Coarser;
  }

  lemma NodesIncluded(w: World, net: Net)
    requires InvNodes(w, net)
    ensures Includes(net.nodes, net.created)
  {
  }

  // All runs

  lemma InitKeeps(w: World, code: seq<Opcode>)
    requires IsPure(code)
    ensures Inv(w, code, Init(code))
  {
    var net := Init(code);
    forall v | IsEnd(v) ensures Holders(net, v) <= net.held[v] { InitCount(code, v); }
    hide Holders;
  }

  lemma InitCount(code: seq<Opcode>, v: Value)
    ensures Holders(Init(code), v) == 0
  {
    var net := Init(code);
    var nothing: seq<Value> := [];
    StartCount(code, nothing, nothing, v);
    assert nothing + nothing == nothing;
    var job := NewJob(Start(code, nothing));
    var none: map<set<Name>, Job> := map[];
    hide CountJob;
    JobPut(none, {}, job, v);
    assert none[{} := job] == net.jobs;
    assert JobWeights(none, v) == map[] && NodeWeights(net.nodes, v) == map[];
  }

  lemma ActKeeps(w: World, code: seq<Opcode>, net: Net, a: Action)
    requires WellFormed(w) && Inv(w, code, net) && Act(w, net, a).Some?
    ensures Inv(w, code, Act(w, net, a).value)
  {
    hide WellFormed, Inv, Begin, Compute, Move;
    match a
    case Begins(t) => BeginKeeps(w, code, net, t);
    case Computes(key) => ComputeKeeps(w, code, net, key);
    case Moves(key) => MoveKeeps(w, code, net, key);
  }

  /** The invariant holds at every point of every run. */
  lemma {:induction false} RunKeeps(w: World, code: seq<Opcode>, run: seq<Net>, i: nat)
    requires WellFormed(w) && IsPure(code) && IsRun(w, code, run) && i < |run|
    ensures Inv(w, code, run[i])
  {
    hide WellFormed, Inv, Act, IsPure;
    if i == 0 {
      InitKeeps(w, code);
    } else {
      RunKeeps(w, code, run, i - 1);
      var a :| Act(w, run[i - 1], a) == Some(run[i]);
      ActKeeps(w, code, run[i - 1], a);
    }
  }
}
