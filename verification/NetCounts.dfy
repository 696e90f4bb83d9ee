/** No step copies a wire end: what ports and jobs hold is never more than what is
    outstanding, so every connect has both its ends to itself. */
module NetCounts {
  import opened Values
  import opened Wires
  import opened Machine
  import opened Interaction
  import opened NetEnds
  import opened NetInvariant

  // Adding what an effect allocates

  function WireIds(values: set<Value>): set<Name> {
    set v | v in values && v.Wire? :: v.id
  }

  lemma WireIdsOf(e: Effect)
    ensures WireIds(ValuesOf(e)) == WiresOf(e)
  {
    assert forall n :: n in WiresOf(e) ==> Wire(n) in ValuesOf(e);
  }

  lemma WireIdsSplit(values: set<Value>, v: Value)
    requires v in values
    ensures WireIds(values) == WireIds(values - {v}) + if v.Wire? then {v.id} else {}
  {
  }

  lemma AllocSplit(h: Heap, c: Wiring, values: set<Value>, v: Value)
    requires v in values && values !! c.Keys
    ensures h.live + WireIds(values) == BirthHeap(h, v).live + WireIds(values - {v})
    ensures Extend(c[v := {v}], values - {v}) == Extend(c, values)
  {
    WireIdsSplit(values, v);
    hide WireIds;
    assert values == (values - {v}) + {v};
  }

  lemma {:induction false} AllocValid(h: Heap, held: multiset<Value>, c: Wiring, values: set<Value>)
    requires Valid(h, held, c) && values !! c.Keys
    ensures Valid(h.(live := h.live + WireIds(values)), held + NewEnds(values), Extend(c, values))
    decreases |values|
  {
    hide Valid;
    if values == {} {
      assert h.live + WireIds(values) == h.live && held + NewEnds(values) == held && Extend(c, values) == c;
    } else {
      var v :| v in values;
      BirthValid(h, held, c, v);
      AllocSplit(h, c, values, v);
      AllocValid(BirthHeap(h, v), held + BirthEnds(v), c[v := {v}], values - {v});
      hide WireIds, NewEnds, Extend;
      assert held + BirthEnds(v) + NewEnds(values - {v}) == held + NewEnds(values);
      assert BirthHeap(h, v).(live := BirthHeap(h, v).live + WireIds(values - {v}))
          == h.(live := h.live + WireIds(values));
    }
  }

  // Names are fresh

  /** The values of an effect are named after its redex, from `from` on. */
  lemma ValuesNamed(p: Program, key: set<Name>, e: Effect, from: nat, to: nat, v: Value)
    requires IsBuilt(p, key, e, from, to) && v in ValuesOf(e)
    ensures IsEnd(v) && exists k {:trigger Born(key, k)} :: from <= k < to && NameOf(v) == Born(key, k)
  {
    if v.Wire? {
      assert v.id in WiresOf(e);
    } else {
      assert NameOf(v) == e.id == Born(key, from);
    }
  }

  lemma NodesNamed(p: Program, key: set<Name>, e: Effect, from: nat, to: nat)
    requires IsBuilt(p, key, e, from, to)
    ensures forall n :: n in NodesOf(e) ==> n == Born(key, from) && from < to
  {
  }

  // Totals

  lemma NodeTaken(nodes: map<Name, Node>, n: Name, v: Value)
    requires n in nodes
    ensures Total(NodeWeights(nodes, v)) == Total(NodeWeights(nodes - {n}, v)) + Count(Auxiliary(nodes[n].ports), v)
  {
    TotalTake(NodeWeights(nodes, v), n);
    assert NodeWeights(nodes, v) - {n} == NodeWeights(nodes - {n}, v);
  }

  lemma JobPut(jobs: map<set<Name>, Job>, key: set<Name>, job: Job, v: Value)
    ensures Total(JobWeights(jobs[key := job], v))
         == Total(JobWeights(jobs, v)) + CountJob(job, v) - if key in jobs then CountJob(jobs[key], v) else 0
  {
    hide CountJob, Total;
    TotalPut(JobWeights(jobs, v), key, CountJob(job, v));
    assert JobWeights(jobs[key := job], v) == JobWeights(jobs, v)[key := CountJob(job, v)];
  }

  lemma BeginCounts(w: World, net: Net, t: Task, v: Value)
    requires Begin(w, net, t).Some? && t.left != t.right && {t.left, t.right} !in net.jobs
    ensures Holders(Begin(w, net, t).value, v) == Holders(net, v)
  {
    hide Total, NodeWeights, JobWeights, Count, Auxiliary, CountFrames;
    var net' := Begin(w, net, t).value;
    NodeTaken(net.nodes, t.left, v);
    NodeTaken(net.nodes - {t.left}, t.right, v);
    assert net.nodes - {t.left} - {t.right} == net'.nodes;
    var key := {t.left, t.right};
    JobPut(net.jobs, key, net'.jobs[key], v);
    StartCount(w.rules[t.rule].code, Auxiliary(net.nodes[t.left].ports), Auxiliary(net.nodes[t.right].ports), v);
  }

  lemma StartCount(code: seq<Opcode>, a: seq<Value>, b: seq<Value>, v: Value)
    ensures CountJob(NewJob(Start(code, a + b)), v) == Count(a, v) + Count(b, v)
  {
    var f := Frame(code, 0, map[]);
    FramePushed([], f, v);
    assert [] + [f] == [f];
  }

  lemma WaitingCount(state: State, joins: seq<Pair>, start: State, steps: nat, v: Value)
    ensures CountJob(Job(state, joins, None, start, steps), v) == CountState(state, v) + CountPairs(joins, v)
  {
  }

  /** What a job's next opcode comes to. */
  function Computed(w: World, key: set<Name>, job: Job): Option<State> {
    if job.joins != [] || job.state.frames == [] then None else Step(w.program, key, job.state, true)
  }

  lemma NodeAdded(nodes: map<Name, Node>, e: Effect, v: Value)
    requires NodesOf(e).Keys !! nodes.Keys
    ensures Total(NodeWeights(nodes + NodesOf(e), v)) == Total(NodeWeights(nodes, v)) + AtPorts(e, v)
  {
    if e.NewNode? {
      var nodes' := nodes + NodesOf(e);
      NodeTaken(nodes', e.id, v);
      assert nodes' - {e.id} == nodes;
    } else {
      assert nodes + map[] == nodes;
    }
  }

  /** The ends of `v` that are outstanding but neither at a port nor in a job: those that were
      lost with the variables of a dropped frame. */
  ghost function Lost(net: Net, v: Value): int { net.held[v] - Holders(net, v) }

  lemma ComputeCounts(w: World, net: Net, key: set<Name>, v: Value)
    requires Compute(w, net, key).Some? && PureProgram(w.program) && InvJobs(net) && IsEnd(v)
    requires var s := Computed(w, key, net.jobs[key]).value;
             s.effects != [] ==> NodesOf(s.effects[0]).Keys !! net.nodes.Keys
    ensures Lost(Compute(w, net, key).value, v) == Lost(net, v) + CountVariables(Dropped(net.jobs[key].state), v)
  {
    hide Total, NodeWeights, JobWeights, CountState, CountVariables, Dropped, Step, NodesOf, AtPorts, CountPairs,
        IsBuilt, NewEnds, ValuesOf, PureProgram, PureFrames;
    var job, net' := net.jobs[key], Compute(w, net, key).value;
    assert InvJob(net.wiring, job);
    StepConserves(w.program, key, job.state, v);
    var s := Step(w.program, key, job.state, true).value;
    var job' := net'.jobs[key];
    JobPut(net.jobs, key, job', v);
    WaitingCount(job'.state, job'.joins, job'.start, job'.steps, v);
    EffectsCount(s, v);
    NoEnds(v);
    if s.effects != [] { NodeAdded(net.nodes, s.effects[0], v); }
  }

  lemma EffectsCount(s: State, v: Value)
    ensures CountState(s.(effects := []), v) == CountState(s, v)
  {
  }

  lemma MoveWeight(job: Job, v: Value)
    requires job.joins != []
    ensures CountJob(job, v) == CountState(job.state, v) + InPair(InHand(job), v) + CountPairs(job.joins[1..], v)
  {
    FirstPair(InHand(job), job.joins[1..], v);
  }

  lemma PairCount(l: Value, r: Value, v: Value)
    ensures multiset{l, r}[v] == InPair(Pair(l, r), v)
  {
  }

  lemma MoveCounts(w: World, net: Net, key: set<Name>, v: Value)
    requires Move(w, net, key).Some?
    requires var p := InHand(net.jobs[key]); multiset{p.left, p.right} <= net.held
    ensures Lost(Move(w, net, key).value, v) == Lost(net, v)
  {
    hide Total, NodeWeights, JobWeights, CountJob, CountState, CountPairs, InPair, Advance, FindTask, InHand;
    var job, net' := net.jobs[key], Move(w, net, key).value;
    var pair, job' := InHand(job), net'.jobs[key];
    JobPut(net.jobs, key, job', v);
    MoveWeight(job, v);
    PairCount(pair.left, pair.right, v);
    assert net.held[v] >= multiset{pair.left, pair.right}[v];
    if job'.hand.Some? {
      MoveWeight(job', v);
      HandCount(job', v);
    } else {
      WaitingCount(job'.state, job'.joins, job'.start, job'.steps, v);
    }
  }

  lemma HandCount(job: Job, v: Value)
    requires job.joins != [] && job.hand.Some?
    ensures InHand(job) == job.hand.value
    ensures multiset{job.hand.value.left, job.hand.value.right}[v] == InPair(InHand(job), v)
  {
  }

  /** The pair in a job's hand is its own. */
  lemma HandIsHeld(net: Net, key: set<Name>)
    requires InvCount(net) && key in net.jobs && net.jobs[key].joins != []
    requires IsEnd(InHand(net.jobs[key]).left) && IsEnd(InHand(net.jobs[key]).right)
    ensures var p := InHand(net.jobs[key]); multiset{p.left, p.right} <= net.held
  {
    hide Total, NodeWeights, JobWeights, CountJob, CountState, CountPairs, InPair, InHand;
    var job := net.jobs[key];
    var p := InHand(job);
    forall v | v in multiset{p.left, p.right} ensures multiset{p.left, p.right}[v] <= net.held[v] {
      PairCount(p.left, p.right, v);
      MoveWeight(job, v);
      assert Holders(net, v) <= net.held[v];
      OneWeight(net.jobs, key, v);
      TotalTake(JobWeights(net.jobs, v), key);
    }
  }

  lemma OneWeight(jobs: map<set<Name>, Job>, key: set<Name>, v: Value)
    requires key in jobs
    ensures key in JobWeights(jobs, v) && JobWeights(jobs, v)[key] == CountJob(jobs[key], v)
  {
  }
}
