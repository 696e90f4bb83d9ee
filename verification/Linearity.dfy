/** Exact counts in every run: a live wire has two outstanding ends, one once it is fuzed, and
    what is outstanding is at ports, in jobs and in wires, but for what was lost with the
    variables of frames that were dropped. */
module Linearity {
  import opened Values
  import opened Wires
  import opened Machine
  import opened Interaction
  import opened NetEnds
  import opened NetInvariant
  import opened NetCounts
  import opened NetSteps

  // Outstanding ends

  /** What is not known yet has no ends. */
  lemma UnknownHasNone(h: Heap, held: multiset<Value>, c: Wiring, v: Value)
    requires Valid(h, held, c) && v.Wire? && v !in c
    ensures v.id !in h.live && v.id !in h.fuzed && Ends(h, held, v) == 0
  {
    hide PairsApart, IsPartition, Refs;
    assert Ends(h, held, v) <= Capacity(h, v);
  }

  lemma AllocLinear(h: Heap, held: multiset<Value>, c: Wiring, values: set<Value>)
    requires Valid(h, held, c) && Linear(h, held) && values !! c.Keys
    ensures Linear(h.(live := h.live + WireIds(values)), held + NewEnds(values))
  {
    hide Valid, Refs, NewEnds;
    var h' := h.(live := h.live + WireIds(values));
    forall v: Value | v.Wire? ensures Ends(h', held + NewEnds(values), v) == Capacity(h', v) {
      assert Ends(h, held, v) == Capacity(h, v);
      NewEndsOf(values, v);
      assert v.id in WireIds(values) <==> v in values;
      if v in values { UnknownHasNone(h, held, c, v); }
    }
  }

  lemma ComputeLinear(w: World, code: seq<Opcode>, net: Net, key: set<Name>)
    requires WellFormed(w) && Inv(w, code, net) && Linear(net.heap, net.held) && Compute(w, net, key).Some?
    ensures Linear(Compute(w, net, key).value.heap, Compute(w, net, key).value.held)
  {
    hide Compute, InvCount, InvNames, InvNodes, InvTasks, InvFired, InvReplay, Valid, Linear, NewNodes, NewValues,
        NewJoins, WireIds, NewEnds, Extend, PureFrames, Step, Fresh;
    ComputeIs(w, net, key);
    assert InvJob(net.wiring, net.jobs[key]);
    var s := Computed(w, key, net.jobs[key]).value;
    StepFresh(w, key, net.jobs[key].state, s);
    FreshIsNew(w, net, key, s);
    AllocLinear(net.heap, net.held, net.wiring, NewValues(s));
  }

  lemma MoveLinear(w: World, code: seq<Opcode>, net: Net, key: set<Name>)
    requires Inv(w, code, net) && Linear(net.heap, net.held) && Move(w, net, key).Some?
    ensures Linear(Move(w, net, key).value.heap, Move(w, net, key).value.held)
  {
    hide InvCount, InvJobs, InvNames, InvNodes, InvTasks, InvFired, InvReplay, Linear, Affine, Represents, Advance,
        Merge, FindTask, InHand;
    MoveHand(w, net, key);
    var p := InHand(net.jobs[key]);
    AdvanceLinear(net.heap, net.held, p.left, p.right);
    var o := Advance(net.heap, p.left, p.right);
    assert net.held - multiset{p.left, p.right} + multiset{} == net.held - multiset{p.left, p.right};
  }

  lemma ActLinear(w: World, code: seq<Opcode>, net: Net, a: Action)
    requires WellFormed(w) && Inv(w, code, net) && Linear(net.heap, net.held) && Act(w, net, a).Some?
    ensures Linear(Act(w, net, a).value.heap, Act(w, net, a).value.held)
  {
    hide WellFormed, Inv, Linear, Begin, Compute, Move;
    match a
    case Begins(t) => BeginTaken(w, net, t);
    case Computes(key) => ComputeLinear(w, code, net, key);
    case Moves(key) => MoveLinear(w, code, net, key);
  }

  /** At every point of every run each live wire has exactly two outstanding ends, or one once
      it is fuzed, and a wire that was freed has none. */
  lemma {:induction false} RunLinear(w: World, code: seq<Opcode>, run: seq<Net>, i: nat)
    requires WellFormed(w) && IsPure(code) && IsRun(w, code, run) && i < |run|
    ensures Linear(run[i].heap, run[i].held)
  {
    hide WellFormed, Inv, Act, IsPure, Linear, Init;
    if i == 0 {
      InitLinear(code);
    } else {
      RunLinear(w, code, run, i - 1);
      RunKeeps(w, code, run, i - 1);
      assert CanAct(w, run[i - 1], run[i]);
      var a :| Act(w, run[i - 1], a) == Some(run[i]);
      ActLinear(w, code, run[i - 1], a);
    }
  }

  lemma InitLinear(code: seq<Opcode>)
    ensures Linear(Init(code).heap, Init(code).held)
  {
    var net := Init(code);
    assert forall v :: Refs(net.heap.fuzed, v) == {};
  }

  // Where they are

  /** The ends of `v` that an action loses. */
  function LostBy(net: Net, a: Action, v: Value): nat {
    if a.Computes? && a.key in net.jobs && net.jobs[a.key].state.frames != [] then
      CountVariables(Dropped(net.jobs[a.key].state), v)
    else 0
  }

  lemma ActLoses(w: World, code: seq<Opcode>, net: Net, a: Action, v: Value)
    requires WellFormed(w) && Inv(w, code, net) && Act(w, net, a).Some? && IsEnd(v)
    ensures Lost(Act(w, net, a).value, v) == Lost(net, v) + LostBy(net, a, v)
  {
    hide InvHeap, InvCount, InvNames, InvNodes, InvTasks, InvFired, InvReplay, Holders, Begin, Compute, Move, Fresh,
        NodesOf, PureFrames, Dropped, CountVariables, IsPure, PureProgram;
    match a
    case Begins(t) =>
      BeginTaken(w, net, t);
      TaskIsFresh(w, net, t);
      BeginCounts(w, net, t, v);
    case Computes(key) =>
      ComputeIs(w, net, key);
      hide NewValues, NewJoins, Extend, NewEnds, WireIds, Step;
      assert InvJob(net.wiring, net.jobs[key]);
      ComputeNodesNew(w, net, key);
      NodesCreated(w, net);
      ComputeCounts(w, net, key, v);
    case Moves(key) =>
      MoveHand(w, net, key);
      MoveCounts(w, net, key, v);
  }

  lemma ComputeNodesNew(w: World, net: Net, key: set<Name>)
    requires WellFormed(w) && InvJobs(net) && InvNames(net) && Compute(w, net, key).Some?
    ensures key in net.jobs && Computed(w, key, net.jobs[key]).Some?
    ensures NewNodes(Computed(w, key, net.jobs[key]).value).Keys !! net.created.Keys
  {
    hide Compute, InvNames, NewNodes, NewValues, NewJoins, WireIds, NewEnds, Extend, PureFrames, Step, Fresh;
    ComputeIs(w, net, key);
    assert InvJob(net.wiring, net.jobs[key]);
    var s := Computed(w, key, net.jobs[key]).value;
    StepFresh(w, key, net.jobs[key].state, s);
    FreshIsNew(w, net, key, s);
  }

  /** A run together with what was done at each step. */
  ghost predicate IsRunBy(w: World, code: seq<Opcode>, run: seq<Net>, acts: seq<Action>) {
    && IsRun(w, code, run) && |acts| == |run| - 1
    && forall i :: 0 <= i < |acts| ==> Act(w, run[i], acts[i]) == Some(run[i + 1])
  }

  /** Nothing is lost, in a run, before the first frame that is dropped with a variable that
      holds an end: up to then, and no further, all that is outstanding of `v` is at ports and
      in jobs. */
  lemma {:induction false} EndsAreSomewhere(w: World, code: seq<Opcode>, run: seq<Net>, acts: seq<Action>, i: nat,
          v: Value)
    requires WellFormed(w) && IsPure(code) && IsRunBy(w, code, run, acts) && i < |run| && IsEnd(v)
    ensures Holders(run[i], v) <= run[i].held[v]
    ensures Holders(run[i], v) == run[i].held[v] <==> forall j :: 0 <= j < i ==> LostBy(run[j], acts[j], v) == 0
  {
    hide WellFormed, Inv, Act, IsPure, Holders, LostBy;
    if i == 0 {
      InitCount(code, v);
    } else {
      EndsAreSomewhere(w, code, run, acts, i - 1, v);
      RunKeeps(w, code, run, i - 1);
      assert Act(w, run[i - 1], acts[i - 1]) == Some(run[i - 1 + 1]);
      ActLoses(w, code, run[i - 1], acts[i - 1], v);
    }
  }

  /** So in a program that never drops a frame with a full variable each end of a live wire is
      at a port, in a job or in a wire: two of them, one once the wire is fuzed. */
  lemma WiresHaveTheirEnds(w: World, code: seq<Opcode>, run: seq<Net>, acts: seq<Action>, i: nat, n: Name)
    requires WellFormed(w) && IsPure(code) && IsRunBy(w, code, run, acts) && i < |run|
    requires forall j :: 0 <= j < i ==> LostBy(run[j], acts[j], Wire(n)) == 0
    ensures var h := run[i].heap;
            Holders(run[i], Wire(n)) + |Refs(h.fuzed, Wire(n))| == if n !in h.live then 0 else
                if n in h.fuzed then 1 else 2
  {
    hide WellFormed, IsPure, Act, Holders, LostBy, Refs;
    RunLinear(w, code, run, i);
    EndsAreSomewhere(w, code, run, acts, i, Wire(n));
    assert Ends(run[i].heap, run[i].held, Wire(n)) == Capacity(run[i].heap, Wire(n));
  }
}
