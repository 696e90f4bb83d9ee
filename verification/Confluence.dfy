/** All complete runs come to the same net. The workers may take tasks in any order and
    interleave their steps in any way; what a complete run has made, no other run can
    exceed, so any two complete runs have made the same. */
module Confluence {
  import opened Values
  import opened Wires
  import opened Machine
  import opened Interaction
  import opened NetEnds
  import opened NetInvariant
  import opened NetCounts
  import opened NetSteps

  // Rules between equal constructors

  predicate SamePair(p: Pair, q: Pair) {
    p == q || (p.left == q.right && p.right == q.left)
  }

  /** Two points of two courses stand for the same happening in the net. */
  predicate SameFact(w: World, key: set<Name>, c: Course, d: Course) {
    if c.joins != [] then d.joins != [] && SamePair(c.joins[0], d.joins[0])
    else if d.joins != [] || c.state.frames == [] || d.state.frames == [] then c.joins == d.joins
        && c.state.frames == d.state.frames
    else
      var o, o' := Step(w.program, key, c.state, true), Step(w.program, key, d.state, true);
      && o.Some? && o'.Some?
      && Made(o.value) == Made(o'.value)
  }

  /** What an opcode makes, the joins it leaves aside. */
  function Made(s: State): (set<Value>, map<Name, Node>) {
    if s.effects == [] then ({}, map[]) else (ValuesOf(s.effects[0]), NodesOf(s.effects[0]))
  }

  /** Whatever the course from `s` comes to, so does the course from `s'`, at some point;
      and it goes on as long, and comes to rest when the other does. */
  ghost predicate Mirrors(w: World, key: set<Name>, s: State, s': State) {
    && (forall n :: Goes(w, key, s, n) ==> HasFact(w, key, At(w, key, s, n), s'))
    && (forall n :: Goes(w, key, s, n) ==> Goes(w, key, s', n))
    && (forall n :: Rests(w, key, s, n) ==> Rests(w, key, s', n))
  }

  ghost predicate HasFact(w: World, key: set<Name>, c: Course, s: State) {
    exists m :: Goes(w, key, s, m) && SameFact(w, key, c, At(w, key, s, m))
  }

  /** The course from `s` is over after `n` steps. */
  predicate Rests(w: World, key: set<Name>, s: State, n: nat) {
    var c := Follow(w, key, Course(s, []), n);
    c.Some? && c.value.joins == [] && c.value.state.frames == []
  }

  /** The course from `s` goes on after `n` steps. */
  predicate Goes(w: World, key: set<Name>, s: State, n: nat) {
    var c := Follow(w, key, Course(s, []), n);
    c.Some? && Next(w, key, c.value).Some?
  }

  function At(w: World, key: set<Name>, s: State, n: nat): Course
    requires Goes(w, key, s, n)
  {
    Follow(w, key, Course(s, []), n).value
  }

  function Plain(kinds: seq<bool>): nat {
    if kinds == [] then 0 else Plain(kinds[..|kinds| - 1]) + if kinds[|kinds| - 1] then 0 else 1
  }

  /** The rule is between two nodes of one constructor, which have `a` and `b` at their
      ports that are not principal. */
  predicate SelfRule(w: World, i: nat, a: seq<Value>, b: seq<Value>) {
    && i < |w.rules| && w.rules[i].left == w.rules[i].right < |w.program.ctors|
    && |a| == |b| == Plain(w.program.ctors[w.rules[i].left])
  }

  /** A rule between two nodes of one constructor does the same whichever comes first. */
  ghost predicate Symmetric(w: World) {
    forall i: nat, key, a, b :: SelfRule(w, i, a, b) ==>
      Mirrors(w, key, Start(w.rules[i].code, a + b), Start(w.rules[i].code, b + a))
  }

  /** Which of two ports that met came first matters exactly when their nodes are of one
      constructor. */
  lemma OrientationFollowsArrival(w: World, nodes: map<Name, Node>, u: Value, v: Value)
    requires FindTask(w, nodes, u, v) != {} && u.node != v.node
    ensures FindTask(w, nodes, u, v) == FindTask(w, nodes, v, u) <==> nodes[u.node].ctor != nodes[v.node].ctor
  {
    var l, r := nodes[u.node].ctor, nodes[v.node].ctor;
    FindRuleSwap(w.rules, l, r);
    var i := FindRule(w.rules, l, r).value;
    assert Task(u.node, v.node, i) != Task(v.node, u.node, i);
  }

  // What one run has made, a complete run has made too

  ghost predicate Within(w: World, net: Net, full: Net) {
    && Includes(net.created, full.created)
    && Coarser(net.wiring, full.wiring)
    && forall key :: key in net.jobs ==> key in full.jobs && Matched(w, key, net.jobs[key].start, full.jobs[key].start)
  }

  ghost predicate Matched(w: World, key: set<Name>, s: State, s': State) {
    s == s' || (Mirrors(w, key, s, s') && Mirrors(w, key, s', s))
  }

  lemma {:induction false} FollowStops(w: World, key: set<Name>, start: Course, n: nat, m: nat)
    requires n <= m && Follow(w, key, start, n).Some? && Next(w, key, Follow(w, key, start, n).value).None?
    ensures m > n ==> Follow(w, key, start, m).None?
  {
    hide Next;
    if m > n + 1 { FollowStops(w, key, start, n, m - 1); }
  }

  /** A job that is done has performed its whole course. */
  lemma DonePerformed(w: World, full: Net, key: set<Name>, n: nat)
    requires InvReplay(w, full) && key in full.jobs && IsDone(full.jobs[key])
    requires Goes(w, key, full.jobs[key].start, n)
    ensures Performed(w, key, full, At(w, key, full.jobs[key].start, n))
  {
    hide Performed, Step, Next;
    var job := full.jobs[key];
    assert Replays(w, full, key, job);
    var start := Course(job.start, []);
    if n >= job.steps {
      DoneStops(w, key, job);
      FollowStops(w, key, start, job.steps, n + 1);
      FollowNext(w, key, start, n, Follow(w, key, start, n).value, Next(w, key, Follow(w, key, start, n).value).value);
      assert false;
    }
  }

  lemma DoneStops(w: World, key: set<Name>, job: Job)
    requires IsDone(job)
    ensures Next(w, key, Course(job.state, job.joins)).None?
  {
  }

  lemma SameFactPerformed(w: World, key: set<Name>, net: Net, c: Course, d: Course)
    requires Next(w, key, c).Some? && SameFact(w, key, c, d) && Performed(w, key, net, d)
    ensures Performed(w, key, net, c)
  {
    hide Step, ValuesOf, NodesOf;
  }

  lemma SameFactSelf(w: World, key: set<Name>, c: Course)
    requires Next(w, key, c).Some?
    ensures SameFact(w, key, c, c)
  {
  }

  lemma FactAt(w: World, key: set<Name>, c: Course, s: State) returns (m: nat)
    requires HasFact(w, key, c, s)
    ensures Goes(w, key, s, m) && SameFact(w, key, c, At(w, key, s, m))
  {
    hide Step, Follow, Next, SameFact;
    m :| Goes(w, key, s, m) && SameFact(w, key, c, At(w, key, s, m));
  }

  lemma MirrorsFact(w: World, key: set<Name>, s: State, s': State, n: nat)
    requires Mirrors(w, key, s, s') && Goes(w, key, s, n)
    ensures HasFact(w, key, At(w, key, s, n), s')
  {
  }

  lemma MatchedFact(w: World, key: set<Name>, s: State, s': State, n: nat) returns (m: nat)
    requires Matched(w, key, s, s') && Goes(w, key, s, n)
    ensures Goes(w, key, s', m) && SameFact(w, key, At(w, key, s, n), At(w, key, s', m))
  {
    hide Goes, SameFact, At, Mirrors, HasFact, Step, Follow;
    if s == s' {
      m := n;
      FactNext(w, key, s, n);
      SameFactSelf(w, key, At(w, key, s, n));
    } else {
      MirrorsFact(w, key, s, s', n);
      m := FactAt(w, key, At(w, key, s, n), s');
    }
  }

  lemma StepsGo(w: World, net: Net, key: set<Name>, job: Job)
    requires Replays(w, net, key, job) && Next(w, key, Course(job.state, job.joins)).Some?
    ensures Goes(w, key, job.start, job.steps) && At(w, key, job.start, job.steps) == Course(job.state, job.joins)
  {
  }

  /** Whatever a job of the one run is about to do has happened in the complete run. */
  lemma FullPerformed(w: World, net: Net, full: Net, key: set<Name>)
    requires InvReplay(w, net) && InvReplay(w, full) && Within(w, net, full)
    requires key in net.jobs && key in full.jobs && IsDone(full.jobs[key])
    requires Next(w, key, Course(net.jobs[key].state, net.jobs[key].joins)).Some?
    ensures Performed(w, key, full, Course(net.jobs[key].state, net.jobs[key].joins))
  {
    hide Performed, Next, Includes, Coarser, IsDone, SameFact, Matched, Replays, Goes, At;
    var job, s' := net.jobs[key], full.jobs[key].start;
    StepsGo(w, net, key, job);
    var m := MatchedFact(w, key, job.start, s', job.steps);
    DonePerformed(w, full, key, m);
    FactNext(w, key, job.start, job.steps);
    SameFactPerformed(w, key, full, Course(job.state, job.joins), At(w, key, s', m));
  }

  lemma FactNext(w: World, key: set<Name>, s: State, n: nat)
    requires Goes(w, key, s, n)
    ensures Next(w, key, At(w, key, s, n)).Some?
  {
  }

  // Starting a task

  /** If two ports are joined in a complete run, they met. */
  lemma FullMet(w: World, full: Net, u: Value, v: Value)
    requires InvHeap(full) && u != v && !u.Wire? && !v.Wire?
    requires u in full.wiring && v in full.wiring && full.wiring[u] == full.wiring[v]
    ensures u in full.heap.oppsite && full.heap.oppsite[u] == v
  {
    hide Affine, IsPartition;
  }

  /** Two ports that met and have a rule were interacted in a complete run. */
  lemma FullFired(w: World, code: seq<Opcode>, full: Net, u: Value, v: Value) returns (t: Task)
    requires WellFormed(w) && Inv(w, code, full) && IsComplete(full)
    requires u in full.heap.oppsite && full.heap.oppsite[u] == v && FindTask(w, full.created, u, v) != {}
    ensures var key := {u.node, v.node};
            && u.Principal? && v.Principal? && u.node in full.created && v.node in full.created
            && key in full.jobs && (t in FindTask(w, full.created, u, v) || t in FindTask(w, full.created, v, u))
            && IsJobOf(w, full.created, key, full.jobs[key].start, t)
  {
    hide WellFormed, InvHeap, InvCount, InvJobs, InvNames, InvNodes, InvReplay, FindTask, IsDone, IsJobOf;
    MetPorts(w, full, u);
    assert Queued(w, full, u, v);
    TaskNames(w, full.created, u, v, AnyTask(w, full.created, u, v));
    var n := if u.node !in full.nodes then u.node else v.node;
    var key := TakenBy(w, full, n);
    assert Fired(w, full, key, full.jobs[key]);
    var x, y;
    t, x, y :| ComesFrom(w, full, t, x, y) && IsJobOf(w, full.created, key, full.jobs[key].start, t);
    TaskNames(w, full.created, x, y, t);
    JobNames(w, full.created, key, full.jobs[key].start, t);
    SharedNode(w, full, u, v, x, y);
    assert {x.node, y.node} == {u.node, v.node};
  }

  function AnyTask(w: World, created: map<Name, Node>, u: Value, v: Value): Task
    requires FindTask(w, created, u, v) != {}
  {
    var t :| t in FindTask(w, created, u, v); t
  }

  lemma JobNames(w: World, created: map<Name, Node>, key: set<Name>, start: State, t: Task)
    requires IsJobOf(w, created, key, start, t)
    ensures key == {t.left, t.right}
  {
  }

  /** A created node that is gone was taken by a job. */
  lemma TakenBy(w: World, net: Net, n: Name) returns (key: set<Name>)
    requires InvNodes(w, net) && n in net.created && n !in net.nodes
    ensures key in net.jobs && n in key
  {
    key :| key in net.jobs && n in key;
  }

  lemma {:induction false} AuxiliaryLength(n: Name, kinds: seq<bool>, ports: seq<Value>)
    requires WellBuilt(n, kinds, ports, 0) && |ports| == |kinds|
    ensures |Auxiliary(ports)| == Plain(kinds)
    decreases |ports|
  {
    if ports != [] {
      var i := |ports| - 1;
      AuxiliaryLength(n, kinds[..i], ports[..i]);
      assert kinds[0 + i] == ports[i].Principal?;
    }
  }

  /** Tasks of the same two ports start the same, or as mirrors. */
  lemma SameTask(w: World, created: map<Name, Node>, u: Value, v: Value, t: Task, t': Task, key: set<Name>,
          start: State, start': State)
    requires Symmetric(w) && (forall n :: n in created ==> IsNode(w, n, created[n]))
    requires t in FindTask(w, created, u, v) && (t' in FindTask(w, created, u, v) || t' in FindTask(w, created, v, u))
    requires IsJobOf(w, created, key, start, t) && IsJobOf(w, created, key, start', t')
    ensures Matched(w, key, start, start')
  {
    hide Mirrors, Auxiliary, Start, WellBuilt, Symmetric, FindRule;
    FindRuleSwap(w.rules, created[u.node].ctor, created[v.node].ctor);
    if t != t' {
      assert w.rules[t.rule].left == w.rules[t.rule].right && t' == Task(t.right, t.left, t.rule);
      var l, r := created[t.left], created[t.right];
      assert IsNode(w, t.left, l) && IsNode(w, t.right, r);
      AuxiliaryLength(t.left, w.program.ctors[l.ctor], l.ports);
      AuxiliaryLength(t.right, w.program.ctors[r.ctor], r.ports);
      SymmetricRule(w, t.rule, key, Auxiliary(l.ports), Auxiliary(r.ports));
      SymmetricRule(w, t.rule, key, Auxiliary(r.ports), Auxiliary(l.ports));
    }
  }

  lemma SymmetricRule(w: World, i: nat, key: set<Name>, a: seq<Value>, b: seq<Value>)
    requires Symmetric(w) && SelfRule(w, i, a, b)
    ensures Mirrors(w, key, Start(w.rules[i].code, a + b), Start(w.rules[i].code, b + a))
  {
  }

  lemma BeginWithin(w: World, code: seq<Opcode>, net: Net, full: Net, t: Task)
    requires WellFormed(w) && Symmetric(w) && Inv(w, code, net) && Inv(w, code, full) && IsComplete(full)
    requires Within(w, net, full) && Begin(w, net, t).Some?
    ensures Within(w, Begin(w, net, t).value, full)
  {
    hide WellFormed, Symmetric, Includes, Coarser, InvHeap, InvCount, InvJobs, InvNames, InvNodes, InvFired, InvReplay,
        ComesFrom, Queued, Matched, FindTask, IsDone, IsPort, Auxiliary, Start;
    assert InvTask(w, net, t);
    var u, v := TaskPorts(w, net, t);
    MetPorts(w, net, v);
    TaskNames(w, net.created, u, v, t);
    NodesIncluded(w, net);
    JoinedFull(net, full, u, v);
    FullMet(w, full, u, v);
    TaskWithin(w, net, full, u, v, t);
    var t' := FullFired(w, code, full, u, v);
    var key := {t.left, t.right};
    var net' := Begin(w, net, t).value;
    BeginJob(w, net, full, t);
    CreatedNodes(w, full);
    SameTask(w, full.created, u, v, t, t', key, net'.jobs[key].start, full.jobs[key].start);
  }

  lemma CreatedNodes(w: World, net: Net)
    requires InvNodes(w, net)
    ensures forall n :: n in net.created ==> IsNode(w, n, net.created[n])
  {
  }

  lemma JoinedFull(net: Net, full: Net, u: Value, v: Value)
    requires Coarser(net.wiring, full.wiring) && u in net.wiring && v in net.wiring && net.wiring[u] == net.wiring[v]
    ensures u in full.wiring && v in full.wiring && full.wiring[u] == full.wiring[v]
  {
  }

  lemma TaskWithin(w: World, net: Net, full: Net, u: Value, v: Value, t: Task)
    requires Includes(net.created, full.created) && t in FindTask(w, net.created, u, v)
    ensures t in FindTask(w, full.created, u, v)
  {
  }

  lemma BeginJob(w: World, net: Net, full: Net, t: Task)
    requires Begin(w, net, t).Some? && Includes(net.nodes, net.created) && Includes(net.created, full.created)
    ensures var key := {t.left, t.right};
            key in Begin(w, net, t).value.jobs
                && IsJobOf(w, full.created, key, Begin(w, net, t).value.jobs[key].start, t)
  {
  }

  // The other steps, and whole runs

  /** What the opcode makes is in the complete net. */
  lemma MadeWithin(w: World, key: set<Name>, job: Job, s: State, full: Net)
    requires Computed(w, key, job) == Some(s) && Performed(w, key, full, Course(job.state, job.joins))
    ensures NewValues(s) <= full.wiring.Keys && Includes(NewNodes(s), full.created)
  {
  }

  lemma IncludesBoth<K, V>(m: map<K, V>, m': map<K, V>, full: map<K, V>)
    requires Includes(m, full) && Includes(m', full)
    ensures Includes(m + m', full)
  {
  }

  lemma ComputeWithin(w: World, net: Net, full: Net, key: set<Name>)
    requires InvHeap(net) && InvReplay(w, net) && InvReplay(w, full)
    requires Within(w, net, full) && Compute(w, net, key).Some? && key in full.jobs && IsDone(full.jobs[key])
    ensures Within(w, Compute(w, net, key).value, full)
  {
    hide InvHeap, IsPartition, Compute, Computed, Next, Performed, InvReplay, IsDone, Matched, Includes, Coarser,
        NewNodes, NewValues, NewJoins, Extend, WireIds, NewEnds;
    HeapPartition(net);
    ComputeIs(w, net, key);
    var job := net.jobs[key];
    var s := Computed(w, key, job).value;
    ComputePerformed(w, net, key, s);
    FullPerformed(w, net, full, key);
    MadeWithin(w, key, job, s, full);
    IncludesBoth(net.created, NewNodes(s), full.created);
    ExtendWithin(net.wiring, NewValues(s), full.wiring);
  }

  lemma ExtendWithin(c: Wiring, values: set<Value>, full: Wiring)
    requires Coarser(c, full) && values <= full.Keys && IsPartition(c)
    ensures Coarser(Extend(c, values), full)
  {
  }

  lemma MergeWithin(c: Wiring, l: Value, r: Value, full: Wiring)
    requires Coarser(c, full) && IsPartition(c) && l in c && r in c && full[l] == full[r]
    ensures Coarser(Merge(c, l, r), full)
  {
  }

  lemma HandWithin(c: Wiring, job: Job, full: Wiring)
    requires InvJob(c, job) && Coarser(c, full) && job.joins != []
    requires job.joins[0].left in full && job.joins[0].right in full
    requires full[job.joins[0].left] == full[job.joins[0].right]
    requires InHand(job).left in c && InHand(job).right in c
    ensures full[InHand(job).left] == full[InHand(job).right]
  {
  }

  lemma MoveWiring(w: World, net: Net, key: set<Name>)
    requires Move(w, net, key).Some?
    ensures key in net.jobs && net.jobs[key].joins != []
    ensures var p, net' := InHand(net.jobs[key]), Move(w, net, key).value;
            && p.left in net.wiring && p.right in net.wiring && net'.created == net.created
            && (net'.wiring == net.wiring || net'.wiring == Merge(net.wiring, p.left, p.right))
  {
    hide Advance, Merge, FindTask, InHand;
  }

  lemma MoveWithin(w: World, net: Net, full: Net, key: set<Name>)
    requires InvHeap(net) && InvCount(net) && InvJobs(net) && InvReplay(w, net) && InvReplay(w, full)
    requires Within(w, net, full) && Move(w, net, key).Some? && key in full.jobs && IsDone(full.jobs[key])
    ensures Within(w, Move(w, net, key).value, full)
  {
    hide Move, InvCount, InvReplay, IsDone, Matched, Follow, Step, Advance, FindTask, Merge, MoveFacts, InHand,
        IsPartition, Affine, Represents, InvJob, Coarser;
    MoveIs(w, net, key);
    MoveStarts(w, net, key, Move(w, net, key).value);
    MoveWiring(w, net, key);
    var job := net.jobs[key];
    assert InvJob(net.wiring, job);
    JoinCourse(w, key, Course(job.state, job.joins), full);
    FullPerformed(w, net, full, key);
    ValidParts(net.heap, net.held, net.wiring);
    HandWithin(net.wiring, job, full.wiring);
    MergeWithin(net.wiring, InHand(job).left, InHand(job).right, full.wiring);
  }

  lemma JoinCourse(w: World, key: set<Name>, c: Course, full: Net)
    requires c.joins != []
    ensures Next(w, key, c).Some?
  {
  }

  lemma ActWithin(w: World, code: seq<Opcode>, net: Net, full: Net, a: Action)
    requires WellFormed(w) && Symmetric(w) && Inv(w, code, net) && Inv(w, code, full) && IsComplete(full)
    requires Within(w, net, full) && Act(w, net, a).Some?
    ensures Within(w, Act(w, net, a).value, full)
  {
    hide WellFormed, Symmetric, Within, InvHeap, InvCount, InvJobs, InvNames, InvNodes, InvTasks, InvFired, InvReplay,
        IsDone, Begin, Compute, Move;
    match a
    case Begins(t) => BeginWithin(w, code, net, full, t);
    case Computes(key) =>
      InJobs(w, net, key);
      KeyWithin(w, net, full, key);
      ComputeWithin(w, net, full, key);
    case Moves(key) =>
      InJobs(w, net, key);
      KeyWithin(w, net, full, key);
      MoveWithin(w, net, full, key);
  }

  lemma InJobs(w: World, net: Net, key: set<Name>)
    ensures Compute(w, net, key).Some? || Move(w, net, key).Some? ==> key in net.jobs
  {
  }

  lemma KeyWithin(w: World, net: Net, full: Net, key: set<Name>)
    requires Within(w, net, full) && key in net.jobs
    ensures key in full.jobs
  {
  }

  /** What any run has made at any point, every complete run has made. */
  lemma {:induction false} RunWithin(w: World, code: seq<Opcode>, run: seq<Net>, i: nat, full: Net)
    requires WellFormed(w) && Symmetric(w) && IsPure(code) && IsRun(w, code, run) && i < |run|
    requires Inv(w, code, full) && IsComplete(full)
    ensures Within(w, run[i], full)
  {
    hide WellFormed, Symmetric, IsPure, Act, InvHeap, InvCount, InvJobs, InvNames, InvNodes, InvTasks, InvReplay,
        IsDone, Fired, Mirrors, Coarser, Start;
    if i == 0 {
      assert Coarser(map[], full.wiring) by { NothingCoarser(full.wiring); }
    } else {
      hide Within, Inv, IsComplete;
      RunWithin(w, code, run, i - 1, full);
      RunKeeps(w, code, run, i - 1);
      assert CanAct(w, run[i - 1], run[i]);
      var a :| Act(w, run[i - 1], a) == Some(run[i]);
      ActWithin(w, code, run[i - 1], full, a);
    }
  }

  lemma NothingCoarser(c: Wiring)
    ensures Coarser(map[], c)
  {
  }

  lemma SameWiring(c: Wiring, c': Wiring)
    requires IsPartition(c) && IsPartition(c') && Coarser(c, c') && Coarser(c', c)
    ensures c == c'
  {
    forall v | v in c ensures c[v] == c'[v] {
      forall u ensures u in c[v] <==> u in c'[v] { }
    }
  }

  lemma SameNodes(w: World, net: Net, net': Net)
    requires InvNodes(w, net) && InvNodes(w, net') && net.created == net'.created && net.jobs.Keys == net'.jobs.Keys
    ensures net.nodes == net'.nodes
  {
    hide IsNode, IsPort;
    forall n ensures n in net.nodes <==> n in net'.nodes {
      if n in net.created {
        assert n in net.nodes <==> forall key :: key in net.jobs ==> n !in key;
        assert n in net'.nodes <==> forall key :: key in net'.jobs ==> n !in key;
      }
    }
  }

  lemma SameMap<K, V>(m: map<K, V>, m': map<K, V>)
    requires Includes(m, m') && Includes(m', m)
    ensures m == m'
  {
  }

  // What can be seen of a complete net

  /** The end is at a port of a node, or on the stack that the loader ends with. */
  ghost predicate Visible(net: Net, x: Value) {
    && IsEnd(x)
    && ((exists n :: n in net.nodes && x in net.nodes[n].ports) || ({} in net.jobs && x in net.jobs[{}].state.values))
  }

  lemma {:induction false} AuxiliaryHas(ports: seq<Value>, x: Value)
    requires x in ports && !x.Principal?
    ensures Count(Auxiliary(ports), x) > 0
  {
    var n := |ports| - 1;
    if ports[n] != x { AuxiliaryHas(ports[..n], x); }
  }

  lemma VisibleReadable(w: World, net: Net, x: Value)
    requires InvHeap(net) && InvCount(net) && InvNodes(w, net) && Visible(net, x)
    ensures Readable(net.held, net.wiring, x)
  {
    hide Total, NodeWeights, JobWeights, Affine, Represents, IsNode, IsPort, CountFrames, CountPairs, Auxiliary, Count,
        Holders;
    if exists n :: n in net.nodes && x in net.nodes[n].ports {
      var n :| n in net.nodes && x in net.nodes[n].ports;
      if !x.Principal? {
        AuxiliaryHas(net.nodes[n].ports, x);
        NodeTaken(net.nodes, n, x);
        HeldAtLeast(net, x);
      } else {
        assert n in net.created && net.created[n] == net.nodes[n];
      }
    } else {
      OneWeight(net.jobs, {}, x);
      TotalTake(JobWeights(net.jobs, x), {});
      StackCount(net.jobs[{}].state.values, x);
      HeldAtLeast(net, x);
    }
  }

  lemma StackCount(values: seq<Value>, x: Value)
    requires x in values
    ensures Count(values, x) > 0
  {
  }

  lemma HeldAtLeast(net: Net, x: Value)
    requires InvHeap(net) && InvCount(net) && IsEnd(x)
    ensures Total(NodeWeights(net.nodes, x)) + Total(JobWeights(net.jobs, x)) <= net.held[x]
    ensures net.held[x] > 0 ==> x in net.wiring
  {
  }

  /** Two jobs with one start that are done ended at the same point. */
  lemma DoneSame(w: World, key: set<Name>, net: Net, net': Net, job: Job, job': Job)
    requires Replays(w, net, key, job) && Replays(w, net', key, job') && job.start == job'.start
    requires IsDone(job) && IsDone(job') && job.steps <= job'.steps
    ensures job.state == job'.state
  {
    hide Performed, Next;
    DoneStops(w, key, job);
    FollowStops(w, key, Course(job.start, []), job.steps, job'.steps);
  }

  /** The loader ends with the same stack. */
  lemma SameStack(w: World, code: seq<Opcode>, net: Net, net': Net)
    requires InvFired(w, code, net) && InvFired(w, code, net') && InvReplay(w, net) && InvReplay(w, net')
    requires IsComplete(net) && IsComplete(net')
    ensures {} in net.jobs && {} in net'.jobs && net.jobs[{}].state.values == net'.jobs[{}].state.values
  {
    hide Fired, Replays, IsDone, Start;
    var job, job' := net.jobs[{}], net'.jobs[{}];
    if job.steps <= job'.steps {
      DoneSame(w, {}, net, net', job, job');
    } else {
      DoneSame(w, {}, net', net, job', job);
    }
  }

  lemma SameReading(w: World, net: Net, net': Net, x: Value, y: Value)
    requires InvHeap(net) && InvCount(net) && InvNodes(w, net) && InvHeap(net') && InvCount(net') && InvNodes(w, net')
    requires Visible(net, x) && Visible(net, y) && Visible(net', x) && Visible(net', y) && net.wiring == net'.wiring
    ensures IsConnected(net.heap, x, y) <==> IsConnected(net'.heap, x, y)
  {
    hide IsConnected, InvCount, InvNodes, Visible, Readable, Valid;
    VisibleReadable(w, net, x);
    VisibleReadable(w, net, y);
    VisibleReadable(w, net', x);
    VisibleReadable(w, net', y);
    ConnectedIffTogether(net.heap, net.held, net.wiring, x, y);
    ConnectedIffTogether(net'.heap, net'.held, net'.wiring, x, y);
  }

  /** However the tasks are scheduled and their steps interleaved, all complete runs of a
      program come to the same net: the same nodes with the same values at their ports, the
      same ends on the loader's stack, the same ones connected, after the same interactions. */
  lemma CompleteRunsAgree(w: World, code: seq<Opcode>, run: seq<Net>, run': seq<Net>)
    requires WellFormed(w) && Symmetric(w) && IsPure(code)
    requires IsRun(w, code, run) && IsComplete(run[|run| - 1])
    requires IsRun(w, code, run') && IsComplete(run'[|run'| - 1])
    ensures var net, net' := run[|run| - 1], run'[|run'| - 1];
            && net.nodes == net'.nodes
            && net.jobs.Keys == net'.jobs.Keys
            && {} in net.jobs && net.jobs[{}].state.values == net'.jobs[{}].state.values
            && (forall x, y :: Visible(net, x) && Visible(net, y) ==>
                  (IsConnected(net.heap, x, y) <==> IsConnected(net'.heap, x, y)))
  {
    hide WellFormed, Symmetric, IsPure, IsRun, InvHeap, InvCount, InvJobs, InvNames, InvNodes, InvTasks, InvFired,
        InvReplay, IsComplete, Coarser, Includes, IsConnected, IsPartition, Matched;
    var n, n' := |run| - 1, |run'| - 1;
    assert n >= 0 && n' >= 0 by { RunStarts(w, code, run); RunStarts(w, code, run'); }
    var net, net' := run[n], run'[n'];
    RunKeeps(w, code, run, n);
    RunKeeps(w, code, run', n');
    RunWithin(w, code, run, n, net');
    RunWithin(w, code, run', n', net);
    SameMap(net.created, net'.created);
    SameNodes(w, net, net');
    HeapPartition(net);
    HeapPartition(net');
    SameWiring(net.wiring, net'.wiring);
    SameStack(w, code, net, net');
    forall x, y | Visible(net, x) && Visible(net, y)
      ensures IsConnected(net.heap, x, y) <==> IsConnected(net'.heap, x, y)
    {
      SameReading(w, net, net', x, y);
    }
  }

  lemma HeapPartition(net: Net)
    requires InvHeap(net)
    ensures IsPartition(net.wiring)
  {
  }

  lemma RunStarts(w: World, code: seq<Opcode>, run: seq<Net>)
    requires IsRun(w, code, run)
    ensures |run| > 0
  {
  }

  /** Once one run completes, no other run, complete or not, does more interactions. */
  lemma NoRunDoesMore(w: World, code: seq<Opcode>, run: seq<Net>, i: nat, full: seq<Net>)
    requires WellFormed(w) && Symmetric(w) && IsPure(code)
    requires IsRun(w, code, run) && i < |run|
    requires IsRun(w, code, full) && IsComplete(full[|full| - 1])
    ensures run[i].jobs.Keys <= full[|full| - 1].jobs.Keys
    ensures |run[i].jobs| <= |full[|full| - 1].jobs|
  {
    hide WellFormed, Symmetric, IsPure, IsRun, Inv, IsComplete, Coarser, Includes, Matched;
    RunStarts(w, code, full);
    RunKeeps(w, code, full, |full| - 1);
    RunWithin(w, code, run, i, full[|full| - 1]);
    KeysSize(run[i].jobs, full[|full| - 1].jobs);
  }

  lemma {:induction false} SubsetSize<K>(a: set<K>, b: set<K>)
    requires a <= b
    ensures |a| <= |b|
    decreases |a|
  {
    if a != {} {
      var k :| k in a;
      SubsetSize(a - {k}, b - {k});
    }
  }

  lemma KeysSize<K, V>(m: map<K, V>, m': map<K, V>)
    requires m.Keys <= m'.Keys
    ensures |m| <= |m'|
  {
    SubsetSize(m.Keys, m'.Keys);
  }
}
