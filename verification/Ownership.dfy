/** Linear ownership in every run: what each worker has in hand is its own, and live. */
module Ownership {
  import opened Values
  import opened Wires
  import opened Machine
  import opened Interaction
  import opened NetEnds
  import opened NetInvariant
  import opened NetCounts
  import opened NetSteps

  /** The pair that a worker is joining. */
  predicate IsJoining(net: Net, key: set<Name>) {
    && key in net.jobs && net.jobs[key].joins != []
    && IsEnd(InHand(net.jobs[key]).left) && IsEnd(InHand(net.jobs[key]).right)
  }

  function Hand(net: Net, key: set<Name>): multiset<Value>
    requires IsJoining(net, key)
  {
    multiset{InHand(net.jobs[key]).left, InHand(net.jobs[key]).right}
  }

  lemma HandWeight(net: Net, key: set<Name>, v: Value)
    requires IsJoining(net, key)
    ensures Hand(net, key)[v] <= CountJob(net.jobs[key], v)
  {
  }

  lemma TwoWeights(jobs: map<set<Name>, Job>, j: set<Name>, k: set<Name>, v: Value)
    requires j in jobs && k in jobs && j != k
    ensures CountJob(jobs[j], v) + CountJob(jobs[k], v) <= Total(JobWeights(jobs, v))
  {
    hide Total, CountJob;
    var m := JobWeights(jobs, v);
    TotalTake(m, j);
    TotalTake(m - {j}, k);
  }

  /** Two workers that bring ends at the same moment bring different ends: what they have in
      hand is outstanding, counted for both. */
  lemma HandsAreDisjoint(net: Net, j: set<Name>, k: set<Name>)
    requires InvCount(net) && IsJoining(net, j) && IsJoining(net, k) && j != k
    ensures Hand(net, j) + Hand(net, k) <= net.held
  {
    hide Hand, Total, JobWeights, NodeWeights, CountJob;
    forall v | v in Hand(net, j) + Hand(net, k) ensures (Hand(net, j) + Hand(net, k))[v] <= net.held[v] {
      HandWeight(net, j, v);
      HandWeight(net, k, v);
      TwoWeights(net.jobs, j, k, v);
      HandIsEnd(net, j, v);
      HandIsEnd(net, k, v);
      assert Holders(net, v) <= net.held[v];
    }
  }

  lemma HandIsEnd(net: Net, key: set<Name>, v: Value)
    requires IsJoining(net, key)
    ensures v in Hand(net, key) ==> IsEnd(v)
  {
  }

  /** What is outstanding of a wire is no more than its two ends, one once it is full. */
  lemma EndsAllowed(net: Net, n: Name)
    requires InvHeap(net)
    ensures net.held[Wire(n)] <= if n !in net.heap.live then 0 else if n in net.heap.fuzed then 1 else 2
  {
    assert Ends(net.heap, net.held, Wire(n)) <= Capacity(net.heap, Wire(n));
    hide Represents;
  }

  lemma HandIsOutstanding(net: Net, key: set<Name>)
    requires InvCount(net) && IsJoining(net, key)
    ensures Hand(net, key) <= net.held
  {
    hide InvCount, Holders;
    HandIsHeld(net, key);
  }

  /** In every run, at every moment, a wire that a worker has in hand has not been freed. */
  lemma HandsAreLive(w: World, code: seq<Opcode>, run: seq<Net>, i: nat, key: set<Name>, n: Name)
    requires WellFormed(w) && IsPure(code) && IsRun(w, code, run) && i < |run|
    requires IsJoining(run[i], key) && Wire(n) in Hand(run[i], key)
    ensures n in run[i].heap.live
  {
    hide WellFormed, IsPure, IsRun, InvHeap, InvCount, InvJobs, InvNames, InvNodes, InvTasks, InvFired, InvReplay,
        Hand, IsJoining;
    RunKeeps(w, code, run, i);
    HandIsOutstanding(run[i], key);
    EndsAllowed(run[i], n);
  }

  /** In every run, at every moment, while a wire is full, which is when the next
      compare-and-swap of the worker that has it in hand frees it, no other worker has it in
      hand: so after a wire is freed nobody touches it. */
  lemma FullWiresAreExclusive(w: World, code: seq<Opcode>, run: seq<Net>, i: nat, j: set<Name>, k: set<Name>, n: Name)
    requires WellFormed(w) && IsPure(code) && IsRun(w, code, run) && i < |run|
    requires IsJoining(run[i], j) && IsJoining(run[i], k) && j != k
    requires Wire(n) in Hand(run[i], j) && n in run[i].heap.fuzed
    ensures Wire(n) !in Hand(run[i], k)
  {
    hide WellFormed, IsPure, IsRun, InvHeap, InvCount, InvJobs, InvNames, InvNodes, InvTasks, InvFired, InvReplay,
        Hand, IsJoining;
    RunKeeps(w, code, run, i);
    HandsAreDisjoint(run[i], j, k);
    EndsAllowed(run[i], n);
  }
}
