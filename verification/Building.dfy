/** While a node is being built its own joins find one task at most: what the program asserts.
    The joins are done one after the other, interleaved with whatever other workers do; that
    the node stays meanwhile is what its lock is for (module NodeLock). */
module Building {
  import opened Values
  import opened Wires
  import opened Machine
  import opened Interaction
  import opened NetEnds
  import opened NetInvariant
  import opened NetCounts
  import opened NetSteps
  import opened Confluence
  import opened Commutation
  import opened Linearity

  // The joins that come with a new node

  /** How many of the joins are of a principal port. */
  function PrincipalJoins(joins: seq<Pair>): nat {
    if joins == [] then 0 else (if joins[0].left.Principal? then 1 else 0) + PrincipalJoins(joins[1..])
  }

  /** The joins connect values at the ports, of which one at most is principal. */
  ghost predicate AreOfPorts(joins: seq<Pair>, ports: seq<Value>) {
    && (forall i :: 0 <= i < |joins| ==> joins[i].left in ports)
    && PrincipalJoins(joins) <= 1
  }

  lemma FirstJoin(p: Pair, rest: seq<Pair>)
    ensures PrincipalJoins([p] + rest) == PrincipalJoins(rest) + if p.left.Principal? then 1 else 0
  {
    assert ([p] + rest)[1..] == rest;
  }

  lemma {:induction false} InputsJoins(redex: set<Name>, node: Name, kinds: seq<bool>, args: seq<Value>, supply: nat)
    requires |args| <= |kinds| && OnePrincipal(kinds)
    ensures var b := BuildInputs(redex, node, kinds, args, supply);
            && (forall i :: 0 <= i < |b.joins| ==> b.joins[i].left in b.ports)
            && PrincipalJoins(b.joins) <= if exists i :: 0 <= i < |args| && kinds[i] then 1 else 0
  {
    if args != [] {
      var i := |args| - 1;
      var supply' := supply + if !kinds[i] && args[i].Principal? then 1 else 0;
      InputsJoins(redex, node, kinds, args[..i], supply');
      var rest := BuildInputs(redex, node, kinds, args[..i], supply');
      var port := if kinds[i] then Principal(node, i) else Wire(Born(redex, supply));
      FirstJoin(Pair(port, args[i]), rest.joins);
      hide PrincipalJoins;
      if kinds[i] { assert forall j :: 0 <= j < i ==> !kinds[j]; }
    }
  }

  lemma ConstructJoins(p: Program, redex: set<Name>, values: seq<Value>, supply: nat, ctor: nat, arity: nat)
    requires Construct(p, redex, values, supply, ctor, arity).Some?
    requires forall i :: 0 <= i < |p.ctors| ==> OnePrincipal(p.ctors[i])
    ensures var e := Construct(p, redex, values, supply, ctor, arity).value.effect;
            e.NewNode? && AreOfPorts(e.joins, e.ports)
  {
    hide BuildInputs, BuildOutputs, OnePrincipal, PrincipalJoins;
    InputsJoins(redex, Born(redex, supply), p.ctors[ctor], values[|values| - arity..], supply + 1);
  }

  /** An opcode that makes a node applies a constructor. */
  lemma StepJoins(p: Program, key: set<Name>, s: State)
    requires s.effects == [] && s.frames != [] && Step(p, key, s, true).Some?
    requires forall i :: 0 <= i < |p.ctors| ==> OnePrincipal(p.ctors[i])
    ensures var s' := Step(p, key, s, true).value;
            |s'.effects| <= 1 && (s'.effects != [] && s'.effects[0].NewNode?
                ==> AreOfPorts(s'.effects[0].joins, s'.effects[0].ports))
  {
    hide Construct, OnePrincipal, AreOfPorts;
    var n := |s.frames| - 1;
    var f := s.frames[n];
    if !IsFinished(f) && f.opcodes[f.cursor].Apply? && s.values != [] {
      var m := |s.values| - 1;
      var target, arity := s.values[m], f.opcodes[f.cursor].arity;
      var ctor := if target.Ctor? then target.ctor
        else if target.Primitive? && target.primitive < |p.primitives| && p.primitives[target.primitive].WithNode? then
          p.primitives[target.primitive].ctor
        else 0;
      if Construct(p, key, s.values[..m], s.supply, ctor, arity).Some? {
        ConstructJoins(p, key, s.values[..m], s.supply, ctor, arity);
      }
    }
  }

  // Building

  /** The job is doing the joins of a node that it has made. */
  ghost predicate IsBuilding(net: Net, key: set<Name>, n: Name) {
    && key in net.jobs && n in net.nodes
    && AreOfPorts(net.jobs[key].joins, net.nodes[n].ports)
    && (net.jobs[key].hand.Some? ==> net.jobs[key].joins != [] && net.jobs[key].joins[0].left.Principal?)
  }

  lemma PortIsCounted(net: Net, key: set<Name>, n: Name, v: Value)
    requires key in net.jobs && net.jobs[key].joins != [] && n in net.nodes
    requires v.Wire? && v in net.nodes[n].ports && InHand(net.jobs[key]).left == v
    ensures Holders(net, v) >= 2
  {
    hide Total, NodeWeights, JobWeights, CountJob, CountState, CountPairs, Count, Auxiliary, InHand;
    AuxiliaryHas(net.nodes[n].ports, v);
    NodeTaken(net.nodes, n, v);
    MoveWeight(net.jobs[key], v);
    OneWeight(net.jobs, key, v);
    TotalTake(JobWeights(net.jobs, v), key);
  }

  /** A wire that was put between a port and its argument is still empty when it is joined to
      the argument: one of its ends is at the port, the other in hand. */
  lemma BetweenIsEmpty(net: Net, key: set<Name>, n: Name)
    requires InvHeap(net) && InvCount(net) && IsBuilding(net, key, n) && net.jobs[key].joins != []
    requires InHand(net.jobs[key]).left.Wire? && net.jobs[key].hand.None?
    ensures InHand(net.jobs[key]).left.id !in net.heap.fuzed
  {
    hide Represents, PrincipalJoins, Holders, Refs;
    var v := InHand(net.jobs[key]).left;
    PortIsCounted(net, key, n, v);
    assert Holders(net, v) <= net.held[v];
    assert Ends(net.heap, net.held, v) <= Capacity(net.heap, v);
  }

  /** What the joins still to be done can find. */
  function ToFind(job: Job): nat { PrincipalJoins(job.joins) }

  /** One compare-and-swap of the builder finds a task only for a principal port. */
  lemma BuilderMoves(w: World, code: seq<Opcode>, net: Net, key: set<Name>, n: Name)
    requires WellFormed(w) && Inv(w, code, net) && IsBuilding(net, key, n) && Move(w, net, key).Some?
    ensures var net' := Move(w, net, key).value;
            && IsBuilding(net', key, n)
            && |net'.tasks - net.tasks| + ToFind(net'.jobs[key]) <= ToFind(net.jobs[key])
  {
    hide WellFormed, Valid, InvCount, InvJobs, InvNames, InvNodes, InvTasks, InvFired, InvReplay, Move, Coarser,
        FindTask;
    MoveIs(w, net, key);
    var job, net' := net.jobs[key], Move(w, net, key).value;
    var p := InHand(job);
    assert IsEnd(p.left) && net'.nodes == net.nodes;
    if job.joins[0].left.Wire? {
      BetweenIsEmpty(net, key, n);
      assert Advance(net.heap, p.left, p.right).Joined?;
      assert net'.tasks - net.tasks == {};
    } else if Advance(net.heap, p.left, p.right).Again? {
      assert net'.jobs[key] == job.(hand := net'.jobs[key].hand) && net'.tasks - net.tasks == {};
    } else {
      hide Advance, InHand;
      assert net'.tasks - net.tasks <= FindTask(w, net.nodes, p.left, p.right);
      FindsOne(w, net.nodes, p.left, p.right);
      SubsetSize(net'.tasks - net.tasks, FindTask(w, net.nodes, p.left, p.right));
      assert job.joins[0].left.Principal? && net'.jobs[key].joins == job.joins[1..];
    }
  }

  lemma FindsOne(w: World, nodes: map<Name, Node>, u: Value, v: Value)
    ensures |FindTask(w, nodes, u, v)| <= 1
  {
  }

  // In a run

  /** What other workers do meanwhile leaves the builder alone. */
  lemma OthersLeave(w: World, code: seq<Opcode>, net: Net, a: Action, key: set<Name>, n: Name)
    requires WellFormed(w) && Inv(w, code, net) && IsBuilding(net, key, n) && Act(w, net, a).Some?
    requires n in Act(w, net, a).value.nodes && a != Moves(key) && a != Computes(key)
    ensures IsBuilding(Act(w, net, a).value, key, n) && Act(w, net, a).value.jobs[key] == net.jobs[key]
  {
    hide WellFormed, Inv, Act, AreOfPorts, Coarser;
    var net' := Act(w, net, a).value;
    ActGrows(w, code, net, a);
    ActKeeps(w, code, net, a);
    ActIs(w, net, a);
    if a.Begins? { BeginsAnother(w, code, net, a.task, key); }
    NodeStays(w, code, net, net', n);
  }

  lemma NodeStays(w: World, code: seq<Opcode>, net: Net, net': Net, n: Name)
    requires Inv(w, code, net) && Inv(w, code, net') && Includes(net.created, net'.created)
    requires n in net.nodes && n in net'.nodes
    ensures net'.nodes[n] == net.nodes[n]
  {
    hide InvHeap, InvCount, InvJobs, InvNames, InvTasks, InvFired, InvReplay, IsNode, IsPort;
    assert n in net.created && n in net'.created;
  }

  lemma BeginsAnother(w: World, code: seq<Opcode>, net: Net, t: Task, key: set<Name>)
    requires WellFormed(w) && Inv(w, code, net) && Begin(w, net, t).Some? && key in net.jobs
    ensures KeyOf(t) != key
  {
    hide WellFormed, InvHeap, InvCount, InvJobs, InvNames, InvNodes, InvTasks, InvFired, InvReplay;
    TaskIsFresh(w, net, t);
  }

  /** How many tasks the job's own compare-and-swaps add from step `from` on, up to `until`. */
  function Found(run: seq<Net>, acts: seq<Action>, key: set<Name>, from: nat, until: nat): nat
    requires until <= |acts| && |acts| + 1 == |run|
    decreases until
  {
    if until <= from then 0 else
    var more := if acts[until - 1] == Moves(key) then |run[until].tasks - run[until - 1].tasks| else 0;
    Found(run, acts, key, from, until - 1) + more
  }

  /** The job's `from`-th step makes the node, up to `until` it executes no other opcode, and the
      node stays, as its lock makes sure. */
  ghost predicate BuildsUntil(w: World, code: seq<Opcode>, run: seq<Net>, acts: seq<Action>, key: set<Name>, n: Name,
          from: nat, until: nat) {
    && IsRunBy(w, code, run, acts) && from < until <= |acts|
    && acts[from] == Computes(key) && n !in run[from].created
    && (forall i :: from < i <= until ==> n in run[i].nodes)
    && (forall i :: from < i < until ==> acts[i] != Computes(key))
  }

  lemma MakesNode(w: World, code: seq<Opcode>, net: Net, key: set<Name>, n: Name)
    requires WellFormed(w) && Inv(w, code, net) && Compute(w, net, key).Some?
    requires n !in net.created && n in Compute(w, net, key).value.nodes
    ensures IsBuilding(Compute(w, net, key).value, key, n)
  {
    hide InvHeap, InvCount, InvNames, InvTasks, InvFired, InvReplay, Step, IsPure, PureProgram, PureFrames, AreOfPorts,
        OnePrincipal, IsNode, IsPort, ValuesOf, WiresOf, NewEnds, Extend;
    NodesCreated(w, net);
    assert InvJob(net.wiring, net.jobs[key]);
    hide InvNodes;
    StepJoins(w.program, key, net.jobs[key].state);
    assert n !in net.nodes;
  }

  /** While a node is being built, whatever else happens, the joins of its ports together find
      one task at most. */
  lemma {:induction false} BuilderFindsOneTask(w: World, code: seq<Opcode>, run: seq<Net>, acts: seq<Action>,
          key: set<Name>, n: Name, from: nat, until: nat)
    requires WellFormed(w) && IsPure(code) && BuildsUntil(w, code, run, acts, key, n, from, until)
    ensures IsBuilding(run[until], key, n)
    ensures Found(run, acts, key, from + 1, until) + ToFind(run[until].jobs[key]) <= 1
    ensures Found(run, acts, key, from + 1, until) <= 1
    decreases until
  {
    hide WellFormed, IsPure, Inv, Act, IsBuilding, ToFind;
    var i := until - 1;
    RunKeeps(w, code, run, i);
    assert Act(w, run[i], acts[i]) == Some(run[i + 1]);
    if i == from {
      assert Compute(w, run[i], key) == Some(run[until]) by { ActIs(w, run[i], acts[i]); }
      MakesNode(w, code, run[i], key, n);
      BuildingToFind(run[until], key, n);
    } else {
      BuilderFindsOneTask(w, code, run, acts, key, n, from, i);
      if acts[i] == Moves(key) {
        assert Move(w, run[i], key) == Some(run[until]) by { ActIs(w, run[i], acts[i]); }
        BuilderMoves(w, code, run[i], key, n);
      } else {
        OthersLeave(w, code, run[i], acts[i], key, n);
      }
    }
  }

  lemma ActIs(w: World, net: Net, a: Action)
    ensures a.Begins? ==> Act(w, net, a) == Begin(w, net, a.task)
    ensures a.Computes? ==> Act(w, net, a) == Compute(w, net, a.key)
    ensures a.Moves? ==> Act(w, net, a) == Move(w, net, a.key)
  {
  }

  lemma BuildingToFind(net: Net, key: set<Name>, n: Name)
    requires IsBuilding(net, key, n)
    ensures key in net.jobs && ToFind(net.jobs[key]) <= 1
  {
  }
}
