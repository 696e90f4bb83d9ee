/** The net being rewritten by any number of workers: tasks start in any order, and what
    they do is interleaved down to single compare-and-swaps.

    `created`, `wiring` and `held`, and a job's `start` and `steps`, are history variables: no
    step depends on them. (`Move` asks that the ends in hand are in `wiring`, which they always
    are: see ActivePairs.MoveNeedsEndsOnly.) */
module Interaction {
  import opened Values
  import opened Wires
  import opened Machine

  datatype Rule = Rule(left: nat, right: nat, code: seq<Opcode>)

  datatype World = World(program: Program, rules: seq<Rule>)

  datatype Node = Node(ctor: nat, ports: seq<Value>)

  datatype Task = Task(left: Name, right: Name, rule: nat)

  /** A task being handled: the machine running the rule's body, the joins of its last
      opcode still to be done, and the pair in hand if the first of them has begun. */
  datatype Job = Job(state: State, joins: seq<Pair>, hand: Option<Pair>, start: State, steps: nat)

  datatype Net = Net(
    nodes: map<Name, Node>,
    heap: Heap,
    tasks: set<Task>,
    jobs: map<set<Name>, Job>,
    created: map<Name, Node>,
    wiring: Wiring,
    held: multiset<Value>
  )

  predicate IsEnd(v: Value) { v.Wire? || v.Principal? }

  // Rules

  predicate Matches(r: Rule, left: nat, right: nat) {
    (r.left == left && r.right == right) || (r.left == right && r.right == left)
  }

  /** The first rule for two constructors, in either order. */
  function FindRule(rules: seq<Rule>, left: nat, right: nat): (r: Option<nat>)
    ensures r.Some? ==> r.value < |rules| && Matches(rules[r.value], left, right)
    ensures r.None? ==> forall i :: 0 <= i < |rules| ==> !Matches(rules[i], left, right)
  {
    if rules == [] then None else
    var n := |rules| - 1;
    var earlier := FindRule(rules[..n], left, right);
    if earlier.Some? then earlier else if Matches(rules[n], left, right) then Some(n) else None
  }

  /** The task of two principal ports that met: the node whose constructor is on the rule's
      left comes first, and when both are, the one that came as `left`. */
  function FindTask(w: World, nodes: map<Name, Node>, left: Value, right: Value): set<Task> {
    if !left.Principal? || !right.Principal? || left.node !in nodes || right.node !in nodes then {} else
    var l, r := nodes[left.node].ctor, nodes[right.node].ctor;
    match FindRule(w.rules, l, r)
    case None => {}
    case Some(i) =>
      if w.rules[i].left == l && w.rules[i].right == r then {Task(left.node, right.node, i)}
      else {Task(right.node, left.node, i)}
  }

  // Steps

  /** Taking a node apart gives the values of its ports but the principal ones. */
  function Auxiliary(ports: seq<Value>): seq<Value> {
    if ports == [] then [] else
    var n := |ports| - 1;
    Auxiliary(ports[..n]) + if ports[n].Principal? then [] else [ports[n]]
  }

  /** The machine at the start of a rule's body. */
  function Start(code: seq<Opcode>, values: seq<Value>): State {
    State(values, [Frame(code, 0, map[])], 0, [])
  }

  function NewJob(start: State): Job { Job(start, [], None, start, 0) }

  /** Takes a task off the queue and its two nodes apart. */
  function Begin(w: World, net: Net, t: Task): Option<Net> {
    if t !in net.tasks || t.left !in net.nodes || t.right !in net.nodes || t.rule >= |w.rules| then None else
    var values := Auxiliary(net.nodes[t.left].ports) + Auxiliary(net.nodes[t.right].ports);
    Some(net.(
      nodes := net.nodes - {t.left, t.right},
      tasks := net.tasks - {t},
      jobs := net.jobs[{t.left, t.right} := NewJob(Start(w.rules[t.rule].code, values))]))
  }

  /** What an opcode leaves to be joined, the node and the wires it made, and the values
      that are new to the wiring: the wires, and the principal ports of the node. */
  function JoinsOf(e: Effect): seq<Pair> {
    match e
    case NewWire(_) => []
    case Joined(pair) => [pair]
    case NewNode(_, _, _, _, joins) => joins
  }

  function NodesOf(e: Effect): map<Name, Node> {
    if e.NewNode? then map[e.id := Node(e.ctor, e.ports)] else map[]
  }

  function WiresOf(e: Effect): set<Name> {
    match e
    case NewWire(id) => {id}
    case Joined(_) => {}
    case NewNode(_, _, _, wires, _) => set w | w in wires
  }

  function ValuesOf(e: Effect): set<Value> {
    (set w | w in WiresOf(e) :: Wire(w)) + if e.NewNode? then set v | v in e.ports && v.Principal? else {}
  }

  /** Adds each value in a class of its own. */
  function Extend(c: Wiring, values: set<Value>): Wiring {
    c + map v | v in values - c.Keys :: {v}
  }

  /** The ends that come with what is new. */
  function NewEnds(values: set<Value>): multiset<Value> {
    multiset(values) + multiset(set v | v in values && v.Wire?)
  }

  /** One opcode of a job. What it allocates is its own until it is joined to something. */
  function Compute(w: World, net: Net, key: set<Name>): Option<Net> {
    if key !in net.jobs then None else
    var job := net.jobs[key];
    if job.joins != [] || job.state.frames == [] then None else
    var o := Step(w.program, key, job.state, true);
    if o.None? then None else
    var job' := Job(o.value.(effects := []), [], None, job.start, job.steps + 1);
    if o.value.effects == [] then Some(net.(jobs := net.jobs[key := job'])) else
    var effect := o.value.effects[0];
    Some(net.(
      nodes := net.nodes + NodesOf(effect),
      heap := net.heap.(live := net.heap.live + WiresOf(effect)),
      jobs := net.jobs[key := job'.(joins := JoinsOf(effect))],
      created := net.created + NodesOf(effect),
      wiring := Extend(net.wiring, ValuesOf(effect)),
      held := net.held + NewEnds(ValuesOf(effect))))
  }

  function InHand(job: Job): Pair
    requires job.joins != []
  {
    if job.hand.Some? then job.hand.value else job.joins[0]
  }

  /** One compare-and-swap of a job's first join. */
  function Move(w: World, net: Net, key: set<Name>): Option<Net> {
    if key !in net.jobs || net.jobs[key].joins == [] then None else
    var job := net.jobs[key];
    var pair := InHand(job);
    if !IsEnd(pair.left) || !IsEnd(pair.right) || pair.left !in net.wiring || pair.right !in net.wiring then None else
    var o := Advance(net.heap, pair.left, pair.right);
    if o.Again? then
      Some(net.(
        heap := o.heap,
        jobs := net.jobs[key := job.(hand := Some(Pair(o.left, o.right)))],
        held := net.held - multiset{pair.left, pair.right} + multiset{o.left, o.right}))
    else
      Some(net.(
        heap := o.heap,
        tasks := net.tasks + if o.Met? then FindTask(w, net.nodes, o.left, o.right) else {},
        jobs := net.jobs[key := job.(joins := job.joins[1..], hand := None, steps := job.steps + 1)],
        wiring := Merge(net.wiring, pair.left, pair.right),
        held := net.held - multiset{pair.left, pair.right}))
  }

  datatype Action = Begins(task: Task) | Computes(key: set<Name>) | Moves(key: set<Name>)

  function Act(w: World, net: Net, a: Action): Option<Net> {
    match a
    case Begins(t) => Begin(w, net, t)
    case Computes(key) => Compute(w, net, key)
    case Moves(key) => Move(w, net, key)
  }

  /** The loader's job builds the net from nothing; its key is the empty redex. */
  function Init(code: seq<Opcode>): Net {
    Net(map[], Heap({}, map[], map[]), {}, map[{} := NewJob(Start(code, []))], map[], map[], multiset{})
  }

  ghost predicate IsRun(w: World, code: seq<Opcode>, run: seq<Net>) {
    && 0 < |run| && run[0] == Init(code)
    && forall i :: 0 < i < |run| ==> CanAct(w, run[i - 1], run[i])
  }

  ghost predicate CanAct(w: World, net: Net, net': Net) {
    exists a :: Act(w, net, a) == Some(net')
  }

  predicate IsDone(job: Job) { job.joins == [] && job.state.frames == [] }

  /** Nothing queued, nothing running. */
  predicate IsComplete(net: Net) {
    net.tasks == {} && forall key :: key in net.jobs ==> IsDone(net.jobs[key])
  }
}
