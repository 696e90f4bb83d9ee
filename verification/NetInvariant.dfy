/** What holds of the net between any two steps of any workers. */
module NetInvariant {
  import opened Values
  import opened Wires
  import opened Machine
  import opened Interaction
  import opened NetEnds

  // Totals over maps

  ghost function Total<K>(m: map<K, nat>): nat
    decreases |m|
  {
    if m == map[] then 0 else var k :| k in m; m[k] + Total(m - {k})
  }

  lemma {:induction false} TotalTake<K>(m: map<K, nat>, k: K)
    requires k in m
    ensures Total(m) == m[k] + Total(m - {k})
    decreases |m|
  {
    var x :| x in m && Total(m) == m[x] + Total(m - {x});
    if x != k {
      TotalTake(m - {x}, k);
      TotalTake(m - {k}, x);
      assert m - {x} - {k} == m - {k} - {x};
    }
  }

  lemma TotalPut<K>(m: map<K, nat>, k: K, n: nat)
    ensures Total(m[k := n]) == n + Total(m) - if k in m then m[k] else 0
  {
    TotalTake(m[k := n], k);
    assert m[k := n] - {k} == m - {k};
    if k in m { TotalTake(m, k); } else { assert m - {k} == m; }
  }

  ghost function NodeWeights(nodes: map<Name, Node>, v: Value): map<Name, nat> {
    map n | n in nodes :: Count(Auxiliary(nodes[n].ports), v)
  }

  /** The pairs a job still has to join, the first as far as it has come. */
  function Remaining(job: Job): seq<Pair> {
    if job.joins == [] then [] else [InHand(job)] + job.joins[1..]
  }

  function CountJob(job: Job, v: Value): nat {
    CountState(job.state, v) + CountPairs(Remaining(job), v)
  }

  ghost function JobWeights(jobs: map<set<Name>, Job>, v: Value): map<set<Name>, nat> {
    map k | k in jobs :: CountJob(jobs[k], v)
  }

  /** The ends of `v` at ports and in jobs. */
  ghost function Holders(net: Net, v: Value): nat {
    Total(NodeWeights(net.nodes, v)) + Total(JobWeights(net.jobs, v))
  }

  // The program

  predicate OnePrincipal(ports: seq<bool>) {
    forall i, j :: 0 <= i < |ports| && 0 <= j < |ports| && ports[i] && ports[j] ==> i == j
  }

  /** Nodes have one principal port at most, and no literal is a wire. */
  predicate WellFormed(w: World) {
    && PureProgram(w.program)
    && (forall i :: 0 <= i < |w.rules| ==> IsPure(w.rules[i].code))
    && (forall i :: 0 <= i < |w.program.ctors| ==> OnePrincipal(w.program.ctors[i]))
  }

  // The invariant

  ghost predicate InvHeap(net: Net) {
    && Valid(net.heap, net.held, net.wiring)
    && forall u :: u in net.wiring ==> IsEnd(u)
  }

  ghost predicate InvCount(net: Net) {
    forall v :: IsEnd(v) ==> Holders(net, v) <= net.held[v]
  }

  ghost predicate InvJob(c: Wiring, job: Job) {
    && job.state.effects == [] && PureFrames(job.state.frames)
    && (job.hand.Some? ==>
          && job.joins != []
          && var l, r, p := job.joins[0].left, job.joins[0].right, job.hand.value;
          && l in c && r in c && p.left in c && p.right in c
          && ((c[p.left] == c[l] && c[p.right] == c[r]) || (c[p.left] == c[r] && c[p.right] == c[l])))
  }

  ghost predicate InvJobs(net: Net) {
    forall key :: key in net.jobs ==> InvJob(net.wiring, net.jobs[key])
  }

  /** The name was given out by a job that has run. */
  predicate Named(jobs: map<set<Name>, Job>, n: Name) {
    n.Born? && n.redex in jobs && n.index < jobs[n.redex].state.supply
  }

  function NameOf(v: Value): Name
    requires IsEnd(v)
  {
    if v.Wire? then v.id else v.node
  }

  ghost predicate InvNames(net: Net) {
    && (forall u :: u in net.wiring && IsEnd(u) ==> Named(net.jobs, NameOf(u)))
    && (forall n :: n in net.created ==> Named(net.jobs, n))
  }

  /** A node lives from its creation until a job starts on it; its ports never change. */
  ghost predicate InvNodes(w: World, net: Net) {
    && (forall n :: n in net.nodes ==> n in net.created && net.nodes[n] == net.created[n])
    && (forall n :: n in net.created ==>
          && (n in net.nodes <==> forall key :: key in net.jobs ==> n !in key)
          && IsNode(w, n, net.created[n]))
    && (forall u :: u in net.wiring && u.Principal? ==> IsPort(w, net.created, u))
    && (forall n, u :: n in net.created && u in net.created[n].ports && u.Principal? ==> u in net.wiring)
  }

  ghost predicate IsNode(w: World, n: Name, node: Node) {
    && node.ctor < |w.program.ctors| && |node.ports| == |w.program.ctors[node.ctor]|
    && WellBuilt(n, w.program.ctors[node.ctor], node.ports, 0)
  }

  /** `u` is a principal port of a node that was created. */
  predicate IsPort(w: World, created: map<Name, Node>, u: Value) {
    && u.Principal? && u.node in created
    && created[u.node].ctor < |w.program.ctors|
    && u.port < |w.program.ctors[created[u.node].ctor]|
    && w.program.ctors[created[u.node].ctor][u.port]
  }

  /** The task comes from two principal ports that met. */
  ghost predicate ComesFrom(w: World, net: Net, t: Task, u: Value, v: Value) {
    && u in net.heap.oppsite && net.heap.oppsite[u] == v
    && t in FindTask(w, net.created, u, v)
  }

  ghost predicate InvTask(w: World, net: Net, t: Task) {
    && t.left in net.nodes && t.right in net.nodes
    && exists u, v :: ComesFrom(w, net, t, u, v)
  }

  /** No node is in two tasks, and no two ports that met are without their task. */
  ghost predicate InvTasks(w: World, net: Net) {
    && (forall t :: t in net.tasks ==> InvTask(w, net, t))
    && (forall t1, t2 :: t1 in net.tasks && t2 in net.tasks && t1 != t2 ==> {t1.left, t1.right} !! {t2.left, t2.right})
    && (forall u :: u in net.heap.oppsite ==> Queued(w, net, u, net.heap.oppsite[u]))
  }

  /** If both nodes are there and a rule is, so is a task for them. */
  ghost predicate Queued(w: World, net: Net, u: Value, v: Value) {
    u.Principal? && v.Principal? && u.node in net.nodes && v.node in net.nodes
        && FindTask(w, net.created, u, v) != {} ==>
      exists t :: t in net.tasks && {t.left, t.right} == {u.node, v.node}
  }

  /** The job was started for a task that came from two ports that met. */
  ghost predicate Fired(w: World, net: Net, key: set<Name>, job: Job) {
    exists t, u, v :: ComesFrom(w, net, t, u, v) && IsJobOf(w, net.created, key, job.start, t)
  }

  predicate IsJobOf(w: World, created: map<Name, Node>, key: set<Name>, start: State, t: Task) {
    && key == {t.left, t.right} && t.left in created && t.right in created && t.rule < |w.rules|
    && start == Start(w.rules[t.rule].code, Auxiliary(created[t.left].ports) + Auxiliary(created[t.right].ports))
  }

  ghost predicate InvFired(w: World, code: seq<Opcode>, net: Net) {
    && {} in net.jobs && net.jobs[{}].start == Start(code, [])
    && forall key :: key in net.jobs && key != {} ==> Fired(w, net, key, net.jobs[key])
  }

  // A job's own course, which depends on nothing but its start

  datatype Course = Course(state: State, joins: seq<Pair>)

  /** The next point of the course: one join done, or one opcode executed. */
  function Next(w: World, key: set<Name>, c: Course): Option<Course> {
    if c.joins != [] then Some(c.(joins := c.joins[1..])) else
    if c.state.frames == [] then None else
    var o := Step(w.program, key, c.state, true);
    if o.None? then None else
    Some(Course(o.value.(effects := []), if o.value.effects == [] then [] else JoinsOf(o.value.effects[0])))
  }

  function Follow(w: World, key: set<Name>, c: Course, n: nat): Option<Course> {
    if n == 0 then Some(c) else
    var before := Follow(w, key, c, n - 1);
    if before.None? then None else Next(w, key, before.value)
  }

  /** What the next point of the course stands for has happened in the net. */
  ghost predicate Performed(w: World, key: set<Name>, net: Net, c: Course) {
    if c.joins != [] then
      var l, r := c.joins[0].left, c.joins[0].right;
      l in net.wiring && r in net.wiring && net.wiring[l] == net.wiring[r]
    else if c.state.frames == [] then true
    else
      var o := Step(w.program, key, c.state, true);
      o.Some? && o.value.effects != [] ==>
        var e := o.value.effects[0];
        && (forall v :: v in ValuesOf(e) ==> v in net.wiring)
        && (forall n :: n in NodesOf(e) ==> n in net.created && net.created[n] == NodesOf(e)[n])
  }

  ghost predicate Replays(w: World, net: Net, key: set<Name>, job: Job) {
    && Follow(w, key, Course(job.start, []), job.steps) == Some(Course(job.state, job.joins))
    && forall j :: 0 <= j < job.steps ==>
         var c := Follow(w, key, Course(job.start, []), j);
         c.Some? && Performed(w, key, net, c.value)
  }

  ghost predicate InvReplay(w: World, net: Net) {
    forall key :: key in net.jobs ==> Replays(w, net, key, net.jobs[key])
  }

  ghost predicate Inv(w: World, code: seq<Opcode>, net: Net) {
    && InvHeap(net) && InvCount(net) && InvJobs(net) && InvNames(net) && InvNodes(w, net)
    && InvTasks(w, net) && InvFired(w, code, net) && InvReplay(w, net)
  }
}
