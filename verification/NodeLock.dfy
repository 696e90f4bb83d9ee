/** Building nodes and taking them apart, by any number of workers, under the lock that
    each node has. One step sets or reads one port, or acquires or releases one lock. */
module NodeLock {
  import opened Values

  datatype Task = Task(left: nat, right: nat)

  datatype Claim = Free | InTask(task: Task) | By(worker: nat)

  datatype Node = Node(arity: nat, principals: seq<bool>, isSet: seq<bool>, lock: Option<nat>, builder: Option<nat>,
      claim: Claim)

  datatype Phase =
    | Idle
    | WaitToBuild(node: nat)
    | Build(node: nat, count: nat)
    | WaitToTake(node: nat, rest: seq<nat>)
    | Take(node: nat, next: nat, rest: seq<nat>)

  /** Where ends meet is left open: two nodes whose principal ports have been set may be
      found to be an active pair at any moment, also while one of them is still being built.
      `builder` and `claim` are history variables: who is building the node, and which task
      or worker is to take it apart. */
  datatype World = World(nodes: map<nat, Node>, workers: seq<Phase>, tasks: set<Task>)

  datatype Action =
    | Apply(worker: nat, node: nat, arity: nat, principals: seq<bool>)
    | Acquire(worker: nat)
    | SetPort(worker: nat)
    | ReadPort(worker: nat)
    | Release(worker: nat)
    | Meet(left: nat, right: nat)
    | PopTask(worker: nat, task: Task)

  /** Inputs are set from the last to the first, then the other ports in order. */
  function PortAt(n: Node, count: nat): nat
    requires count < |n.principals|
  {
    if count < n.arity then n.arity - 1 - count else count
  }

  /** A principal port of the node has been set, so that it can be met. */
  predicate IsPublished(n: Node) {
    exists i :: 0 <= i < |n.principals| && i < |n.isSet| && n.principals[i] && n.isSet[i]
  }

  function WantedLock(p: Phase): Option<nat> {
    if p.WaitToBuild? || p.WaitToTake? then Some(p.node) else None
  }

  function HeldLock(p: Phase): Option<nat> {
    if p.Build? || p.Take? then Some(p.node) else None
  }

  function Enter(p: Phase): Phase
    requires WantedLock(p).Some?
  {
    if p.WaitToBuild? then Build(p.node, 0) else Take(p.node, 0, p.rest)
  }

  /** What a worker does after it releases a node. */
  function Leave(p: Phase): Phase
    requires HeldLock(p).Some?
  {
    if p.Take? && p.rest != [] then WaitToTake(p.rest[0], p.rest[1..]) else Idle
  }

  predicate IsEnabled(w: World, a: Action) {
    match a
    case Apply(k, n, arity, principals) =>
      k < |w.workers| && w.workers[k].Idle? && n !in w.nodes && arity <= |principals|
    case Acquire(k) =>
      && k < |w.workers| && WantedLock(w.workers[k]).Some?
      && w.workers[k].node in w.nodes && w.nodes[w.workers[k].node].lock.None?
    case SetPort(k) =>
      && k < |w.workers| && w.workers[k].Build? && w.workers[k].node in w.nodes
      && var n := w.nodes[w.workers[k].node];
         w.workers[k].count < |n.principals| == |n.isSet| && n.arity <= |n.principals|
    case ReadPort(k) =>
      && k < |w.workers| && w.workers[k].Take? && w.workers[k].node in w.nodes
      && w.workers[k].next < |w.nodes[w.workers[k].node].principals|
    case Release(k) =>
      && k < |w.workers| && HeldLock(w.workers[k]).Some? && w.workers[k].node in w.nodes
      && var size := |w.nodes[w.workers[k].node].principals|;
         if w.workers[k].Build? then w.workers[k].count == size else w.workers[k].next == size
    case Meet(l, r) =>
      && l != r && l in w.nodes && r in w.nodes && IsPublished(w.nodes[l]) && IsPublished(w.nodes[r])
      && w.nodes[l].claim.Free? && w.nodes[r].claim.Free?
    case PopTask(k, t) =>
      k < |w.workers| && w.workers[k].Idle? && t in w.tasks && t.left in w.nodes && t.right in w.nodes
  }

  function Act(w: World, a: Action): World
    requires IsEnabled(w, a)
  {
    match a
    case Apply(k, n, arity, principals) =>
      w.(nodes := w.nodes[n := Node(arity, principals, seq(|principals|, _ => false), None, Some(k), Free)],
         workers := w.workers[k := WaitToBuild(n)])
    case Acquire(k) =>
      var n := w.workers[k].node;
      w.(nodes := w.nodes[n := w.nodes[n].(lock := Some(k))], workers := w.workers[k := Enter(w.workers[k])])
    case SetPort(k) =>
      var p := w.workers[k];
      var n := w.nodes[p.node];
      w.(nodes := w.nodes[p.node := n.(isSet := n.isSet[PortAt(n, p.count) := true])],
         workers := w.workers[k := Build(p.node, p.count + 1)])
    case ReadPort(k) =>
      w.(workers := w.workers[k := w.workers[k].(next := w.workers[k].next + 1)])
    case Release(k) =>
      var p := w.workers[k];
      if p.Build? then
        w.(nodes := w.nodes[p.node := w.nodes[p.node].(lock := None, builder := None)],
            workers := w.workers[k := Leave(p)])
      else
        w.(nodes := w.nodes - {p.node}, workers := w.workers[k := Leave(p)])
    case Meet(l, r) =>
      var t := Task(l, r);
      w.(nodes := w.nodes[l := w.nodes[l].(claim := InTask(t))][r := w.nodes[r].(claim := InTask(t))],
          tasks := w.tasks + {t})
    case PopTask(k, t) =>
      w.(nodes := w.nodes[t.left := w.nodes[t.left].(claim := By(k))][t.right := w.nodes[t.right].(claim := By(k))],
         tasks := w.tasks - {t}, workers := w.workers[k := WaitToTake(t.left, [t.right])])
  }

  // The invariant

  /** The ports that the first `count` steps of building set, and no others, are set. */
  ghost predicate IsBuiltUpTo(n: Node, count: nat) {
    && |n.isSet| == |n.principals| && n.arity <= |n.principals|
    && forall c :: 0 <= c < |n.principals| ==> (n.isSet[PortAt(n, c)] <==> c < count)
  }

  ghost predicate IsComplete(n: Node) { IsBuiltUpTo(n, |n.principals|) }

  predicate IsBuilder(p: Phase, n: nat) { (p.WaitToBuild? || p.Build?) && p.node == n }

  predicate IsClaimedBy(nodes: map<nat, Node>, n: nat, k: nat) { n in nodes && nodes[n].claim == By(k) }

  ghost predicate InvWorker(nodes: map<nat, Node>, k: nat, p: Phase) {
    match p
    case Idle => true
    case WaitToBuild(n) => n in nodes && nodes[n].builder == Some(k) && nodes[n].lock.None? && IsBuiltUpTo(nodes[n], 0)
    case Build(n, c) =>
      n in nodes && nodes[n].builder == Some(k) && nodes[n].lock == Some(k) && IsBuiltUpTo(nodes[n], c)
          && c <= |nodes[n].principals|
    case WaitToTake(n, rest) => IsClaimedBy(nodes, n, k) && forall m :: m in rest ==> m != n && IsClaimedBy(nodes, m, k)
    case Take(n, i, rest) =>
      && IsClaimedBy(nodes, n, k) && (forall m :: m in rest ==> m != n && IsClaimedBy(nodes, m, k))
      && nodes[n].lock == Some(k) && nodes[n].builder.None? && IsComplete(nodes[n]) && i <= |nodes[n].principals|
  }

  ghost predicate InvNode(w: World, id: nat, n: Node) {
    && (if n.builder.Some? then n.builder.value < |w.workers|
        && IsBuilder(w.workers[n.builder.value], id) else IsComplete(n))
    && (n.lock.Some? ==> n.lock.value < |w.workers| && HeldLock(w.workers[n.lock.value]) == Some(id))
    && (!n.claim.Free? ==> IsPublished(n))
    && (n.claim.InTask? ==> n.claim.task in w.tasks && (id == n.claim.task.left || id == n.claim.task.right))
    && (n.claim.By? ==> n.claim.worker < |w.workers|)
  }

  ghost predicate InvTask(nodes: map<nat, Node>, t: Task) {
    && t.left != t.right && t.left in nodes && t.right in nodes
    && nodes[t.left].claim == InTask(t) && nodes[t.right].claim == InTask(t)
  }

  /** After its first node a worker has at most one more to take apart. */
  predicate ShortRest(p: Phase) { (p.WaitToTake? || p.Take?) ==> |p.rest| <= 1 }

  ghost predicate Inv(w: World) {
    && (forall k :: 0 <= k < |w.workers| ==> InvWorker(w.nodes, k, w.workers[k]) && ShortRest(w.workers[k]))
    && (forall n :: n in w.nodes ==> InvNode(w, n, w.nodes[n]))
    && (forall t :: t in w.tasks ==> InvTask(w.nodes, t))
  }

  lemma InitHolds(workers: seq<Phase>)
    requires forall k :: 0 <= k < |workers| ==> workers[k].Idle?
    ensures Inv(World(map[], workers, {}))
  {
  }

  // Steps

  lemma SameWorkers(w: World, a: Action)
    requires IsEnabled(w, a)
    ensures |Act(w, a).workers| == |w.workers|
  {
  }

  lemma NothingPublished(n: Node)
    requires IsBuiltUpTo(n, 0)
    ensures !IsPublished(n)
  {
    forall i | 0 <= i < |n.principals| ensures !n.isSet[i] {
      assert PortAt(n, if i < n.arity then n.arity - 1 - i else i) == i;
    }
  }

  /** Whoever gets the lock of a node that was met finds every port set. */
  lemma AcquiredComplete(w: World, k: nat)
    requires Inv(w) && IsEnabled(w, Acquire(k)) && w.workers[k].WaitToTake?
    ensures IsComplete(w.nodes[w.workers[k].node]) && w.nodes[w.workers[k].node].builder.None?
  {
    var id := w.workers[k].node;
    var n := w.nodes[id];
    assert InvWorker(w.nodes, k, w.workers[k]) && InvNode(w, id, n);
    if n.builder.Some? {
      var b := n.builder.value;
      assert InvWorker(w.nodes, b, w.workers[b]);
      NothingPublished(n);
    }
  }

  lemma SetOne(n: Node, count: nat)
    requires IsBuiltUpTo(n, count) && count < |n.principals|
    ensures IsBuiltUpTo(n.(isSet := n.isSet[PortAt(n, count) := true]), count + 1)
    ensures IsPublished(n) ==> IsPublished(n.(isSet := n.isSet[PortAt(n, count) := true]))
  {
    var n' := n.(isSet := n.isSet[PortAt(n, count) := true]);
    forall c | 0 <= c < |n.principals| ensures n'.isSet[PortAt(n', c)] <==> c < count + 1 {
      assert PortAt(n', c) == PortAt(n, c) && (PortAt(n, c) == PortAt(n, count) ==> c == count);
    }
  }

  lemma ApplyKeeps(w: World, k: nat, id: nat, arity: nat, principals: seq<bool>)
    requires Inv(w) && IsEnabled(w, Apply(k, id, arity, principals))
    ensures Inv(Act(w, Apply(k, id, arity, principals)))
  {
    hide IsPublished;
    var w' := Act(w, Apply(k, id, arity, principals));
    assert IsBuiltUpTo(w'.nodes[id], 0);
    hide IsBuiltUpTo;
    forall j | 0 <= j < |w.workers| ensures InvWorker(w'.nodes, j, w'.workers[j]) && ShortRest(w'.workers[j]) {
      assert InvWorker(w.nodes, j, w.workers[j]);
    }
    forall n | n in w'.nodes ensures InvNode(w', n, w'.nodes[n]) {
      if n != id { assert InvNode(w, n, w.nodes[n]); }
    }
  }

  predicate IsAt(n: Node, j: nat) { n.builder == Some(j) || n.lock == Some(j) }

  /** What a node may have changed without worker `j` noticing. */
  predicate Unnoticed(n: Node, n': Node, j: nat) {
    && (n.claim == By(j) ==> n'.claim == n.claim)
    && (IsAt(n, j) ==>
          n'.arity == n.arity && n'.principals == n.principals && n'.isSet == n.isSet && n'.builder == n.builder
              && n'.lock == n.lock)
  }

  ghost predicate AllUnnoticed(nodes: map<nat, Node>, nodes': map<nat, Node>, j: nat) {
    forall n :: n in nodes && (IsAt(nodes[n], j) || nodes[n].claim == By(j)) ==>
      n in nodes' && Unnoticed(nodes[n], nodes'[n], j)
  }

  lemma WorkerFrame(nodes: map<nat, Node>, nodes': map<nat, Node>, j: nat, p: Phase)
    requires InvWorker(nodes, j, p) && AllUnnoticed(nodes, nodes', j)
    ensures InvWorker(nodes', j, p)
  {
    if !p.Idle? && IsAt(nodes[p.node], j) { SameBuilt(nodes[p.node], nodes'[p.node]); }
    hide IsBuiltUpTo, IsPublished;
  }

  lemma AcquireWorker(w: World, k: nat, j: nat)
    requires Inv(w) && IsEnabled(w, Acquire(k)) && j < |w.workers|
    ensures var w' := Act(w, Acquire(k)); InvWorker(w'.nodes, j, w'.workers[j]) && ShortRest(w'.workers[j])
  {
    var id, w' := w.workers[k].node, Act(w, Acquire(k));
    if w.workers[k].WaitToTake? { AcquiredComplete(w, k); }
    assert InvWorker(w.nodes, k, w.workers[k]);
    assert InvWorker(w.nodes, j, w.workers[j]) && ShortRest(w.workers[j]);
    if j == k {
      SameBuilt(w.nodes[id], w'.nodes[id]);
      hide IsBuiltUpTo, IsPublished;
    } else {
      hide IsBuiltUpTo, IsPublished, InvWorker;
      assert InvNode(w, id, w.nodes[id]);
      assert w.nodes[id].builder != Some(j) by { NotBuilding(w, k, j); }
      WorkerFrame(w.nodes, w'.nodes, j, w.workers[j]);
    }
  }

  /** The node whose lock a worker gets is built by no other. */
  lemma NotBuilding(w: World, k: nat, j: nat)
    requires Inv(w) && IsEnabled(w, Acquire(k)) && j != k
    ensures w.nodes[w.workers[k].node].builder != Some(j)
  {
    assert InvWorker(w.nodes, k, w.workers[k]);
    if w.workers[k].WaitToTake? { AcquiredComplete(w, k); }
    hide IsBuiltUpTo, IsPublished;
  }

  lemma AcquireNode(w: World, k: nat, n: nat)
    requires Inv(w) && IsEnabled(w, Acquire(k)) && n in Act(w, Acquire(k)).nodes
    ensures var w' := Act(w, Acquire(k)); InvNode(w', n, w'.nodes[n])
  {
    var id := w.workers[k].node;
    SameBuilt(w.nodes[id], Act(w, Acquire(k)).nodes[id]);
    hide IsBuiltUpTo, IsPublished;
    assert InvNode(w, n, w.nodes[n]);
  }

  lemma AcquireTask(w: World, k: nat, s: Task)
    requires Inv(w) && IsEnabled(w, Acquire(k)) && s in Act(w, Acquire(k)).tasks
    ensures InvTask(Act(w, Acquire(k)).nodes, s)
  {
    if s in w.tasks { assert InvTask(w.nodes, s); }
    hide IsBuiltUpTo, IsPublished, InvNode;
  }

  lemma AcquireKeeps(w: World, k: nat)
    requires Inv(w) && IsEnabled(w, Acquire(k))
    ensures Inv(Act(w, Acquire(k)))
  {
    hide IsBuiltUpTo, IsPublished, InvWorker, InvNode, InvTask, IsEnabled;
    var w' := Act(w, Acquire(k));
    SameWorkers(w, Acquire(k));
    hide Act;
    forall j | 0 <= j < |w.workers|
      ensures InvWorker(w'.nodes, j, w'.workers[j]) && ShortRest(w'.workers[j])
    {
      AcquireWorker(w, k, j);
    }
    forall n | n in w'.nodes ensures InvNode(w', n, w'.nodes[n]) { AcquireNode(w, k, n); }
    forall s | s in w'.tasks ensures InvTask(w'.nodes, s) { AcquireTask(w, k, s); }
  }

  lemma SameBuilt(n: Node, n': Node)
    requires n'.arity == n.arity && n'.principals == n.principals && n'.isSet == n.isSet
    ensures forall c :: IsBuiltUpTo(n, c) <==> IsBuiltUpTo(n', c)
    ensures IsPublished(n) <==> IsPublished(n')
  {
    assert forall c :: 0 <= c < |n.principals| ==> PortAt(n, c) == PortAt(n', c);
  }

  lemma SetPortWorker(w: World, k: nat, j: nat)
    requires Inv(w) && IsEnabled(w, SetPort(k)) && j < |w.workers|
    ensures var w' := Act(w, SetPort(k)); InvWorker(w'.nodes, j, w'.workers[j]) && ShortRest(w'.workers[j])
  {
    hide IsPublished, InvNode, InvTask;
    assert InvWorker(w.nodes, k, w.workers[k]);
    assert InvWorker(w.nodes, j, w.workers[j]) && ShortRest(w.workers[j]);
    SetOne(w.nodes[w.workers[k].node], w.workers[k].count);
    hide IsBuiltUpTo;
    if j != k { WorkerFrame(w.nodes, Act(w, SetPort(k)).nodes, j, w.workers[j]); }
  }

  lemma SetPortNode(w: World, k: nat, n: nat)
    requires Inv(w) && IsEnabled(w, SetPort(k)) && n in Act(w, SetPort(k)).nodes
    ensures var w' := Act(w, SetPort(k)); InvNode(w', n, w'.nodes[n])
  {
    assert InvWorker(w.nodes, k, w.workers[k]);
    SetOne(w.nodes[w.workers[k].node], w.workers[k].count);
    hide IsBuiltUpTo, IsPublished;
    assert InvNode(w, n, w.nodes[n]);
  }

  lemma SetPortTask(w: World, k: nat, s: Task)
    requires Inv(w) && IsEnabled(w, SetPort(k)) && s in Act(w, SetPort(k)).tasks
    ensures InvTask(Act(w, SetPort(k)).nodes, s)
  {
    if s in w.tasks { assert InvTask(w.nodes, s); }
    hide IsBuiltUpTo, IsPublished, InvNode;
  }

  lemma SetPortKeeps(w: World, k: nat)
    requires Inv(w) && IsEnabled(w, SetPort(k))
    ensures Inv(Act(w, SetPort(k)))
  {
    hide IsBuiltUpTo, IsPublished, InvWorker, InvNode, InvTask, IsEnabled;
    var w' := Act(w, SetPort(k));
    SameWorkers(w, SetPort(k));
    hide Act;
    forall j | 0 <= j < |w.workers|
      ensures InvWorker(w'.nodes, j, w'.workers[j]) && ShortRest(w'.workers[j])
    {
      SetPortWorker(w, k, j);
    }
    forall n | n in w'.nodes ensures InvNode(w', n, w'.nodes[n]) { SetPortNode(w, k, n); }
    forall s | s in w'.tasks ensures InvTask(w'.nodes, s) { SetPortTask(w, k, s); }
  }

  lemma ReadPortKeeps(w: World, k: nat)
    requires Inv(w) && IsEnabled(w, ReadPort(k))
    ensures Inv(Act(w, ReadPort(k)))
  {
    hide IsBuiltUpTo, IsPublished;
    var w' := Act(w, ReadPort(k));
    forall j | 0 <= j < |w.workers| ensures InvWorker(w'.nodes, j, w'.workers[j]) && ShortRest(w'.workers[j]) {
      assert InvWorker(w.nodes, j, w.workers[j]);
    }
    forall n | n in w'.nodes ensures InvNode(w', n, w'.nodes[n]) {
      assert InvNode(w, n, w.nodes[n]);
    }
  }

  lemma ReleaseOther(w: World, k: nat, j: nat)
    requires Inv(w) && IsEnabled(w, Release(k)) && j < |w.workers| && j != k
    ensures InvWorker(Act(w, Release(k)).nodes, j, w.workers[j])
  {
    hide IsBuiltUpTo, IsPublished, InvNode, InvTask;
    assert InvWorker(w.nodes, k, w.workers[k]);
    assert InvWorker(w.nodes, j, w.workers[j]);
    WorkerFrame(w.nodes, Act(w, Release(k)).nodes, j, w.workers[j]);
  }

  lemma ReleaseOwn(w: World, k: nat)
    requires Inv(w) && IsEnabled(w, Release(k))
    ensures var w' := Act(w, Release(k)); InvWorker(w'.nodes, k, w'.workers[k]) && ShortRest(w'.workers[k])
  {
    hide IsBuiltUpTo, IsPublished;
    var p := w.workers[k];
    assert InvWorker(w.nodes, k, p) && ShortRest(p);
    if p.Take? && p.rest != [] {
      assert p.rest[0] in p.rest && p.rest[1..] == [];
    }
  }

  lemma ReleaseWorker(w: World, k: nat, j: nat)
    requires Inv(w) && IsEnabled(w, Release(k)) && j < |w.workers|
    ensures var w' := Act(w, Release(k)); InvWorker(w'.nodes, j, w'.workers[j]) && ShortRest(w'.workers[j])
  {
    if j == k {
      ReleaseOwn(w, k);
    } else {
      ReleaseOther(w, k, j);
      assert ShortRest(w.workers[j]);
      hide InvWorker, InvNode, InvTask;
    }
  }

  lemma ReleaseNode(w: World, k: nat, n: nat)
    requires Inv(w) && IsEnabled(w, Release(k)) && n in Act(w, Release(k)).nodes
    ensures var w' := Act(w, Release(k)); InvNode(w', n, w'.nodes[n])
  {
    var id := w.workers[k].node;
    if w.workers[k].Build? { SameBuilt(w.nodes[id], Act(w, Release(k)).nodes[id]); }
    hide IsBuiltUpTo, IsPublished;
    assert InvWorker(w.nodes, k, w.workers[k]);
    assert InvNode(w, n, w.nodes[n]);
  }

  lemma ReleaseTask(w: World, k: nat, s: Task)
    requires Inv(w) && IsEnabled(w, Release(k)) && s in Act(w, Release(k)).tasks
    ensures InvTask(Act(w, Release(k)).nodes, s)
  {
    if s in w.tasks { assert InvTask(w.nodes, s); }
    hide IsBuiltUpTo, IsPublished, InvNode;
  }

  lemma ReleaseKeeps(w: World, k: nat)
    requires Inv(w) && IsEnabled(w, Release(k))
    ensures Inv(Act(w, Release(k)))
  {
    hide IsBuiltUpTo, IsPublished, InvWorker, InvNode, InvTask, IsEnabled;
    var w' := Act(w, Release(k));
    SameWorkers(w, Release(k));
    hide Act;
    forall j | 0 <= j < |w.workers|
      ensures InvWorker(w'.nodes, j, w'.workers[j]) && ShortRest(w'.workers[j])
    {
      ReleaseWorker(w, k, j);
    }
    forall n | n in w'.nodes ensures InvNode(w', n, w'.nodes[n]) { ReleaseNode(w, k, n); }
    forall s | s in w'.tasks ensures InvTask(w'.nodes, s) { ReleaseTask(w, k, s); }
  }

  lemma MeetWorker(w: World, l: nat, r: nat, j: nat)
    requires Inv(w) && IsEnabled(w, Meet(l, r)) && j < |w.workers|
    ensures var w' := Act(w, Meet(l, r)); InvWorker(w'.nodes, j, w'.workers[j]) && ShortRest(w'.workers[j])
  {
    hide IsBuiltUpTo, IsPublished, InvWorker, InvNode, InvTask;
    assert InvWorker(w.nodes, j, w.workers[j]) && ShortRest(w.workers[j]);
    WorkerFrame(w.nodes, Act(w, Meet(l, r)).nodes, j, w.workers[j]);
  }

  lemma MeetNode(w: World, l: nat, r: nat, n: nat)
    requires Inv(w) && IsEnabled(w, Meet(l, r)) && n in Act(w, Meet(l, r)).nodes
    ensures var w' := Act(w, Meet(l, r)); InvNode(w', n, w'.nodes[n])
  {
    SameBuilt(w.nodes[l], Act(w, Meet(l, r)).nodes[l]);
    SameBuilt(w.nodes[r], Act(w, Meet(l, r)).nodes[r]);
    hide IsBuiltUpTo, IsPublished;
    assert InvNode(w, n, w.nodes[n]);
  }

  lemma MeetTask(w: World, l: nat, r: nat, s: Task)
    requires Inv(w) && IsEnabled(w, Meet(l, r)) && s in Act(w, Meet(l, r)).tasks
    ensures InvTask(Act(w, Meet(l, r)).nodes, s)
  {
    hide IsBuiltUpTo, IsPublished, InvWorker, InvNode;
    if s in w.tasks { assert InvTask(w.nodes, s); }
  }

  lemma MeetKeeps(w: World, l: nat, r: nat)
    requires Inv(w) && IsEnabled(w, Meet(l, r))
    ensures Inv(Act(w, Meet(l, r)))
  {
    hide IsBuiltUpTo, IsPublished, InvWorker, InvNode, InvTask, IsEnabled;
    var w' := Act(w, Meet(l, r));
    SameWorkers(w, Meet(l, r));
    hide Act;
    forall j | 0 <= j < |w.workers|
      ensures InvWorker(w'.nodes, j, w'.workers[j]) && ShortRest(w'.workers[j])
    {
      MeetWorker(w, l, r, j);
    }
    forall n | n in w'.nodes ensures InvNode(w', n, w'.nodes[n]) { MeetNode(w, l, r, n); }
    forall s | s in w'.tasks ensures InvTask(w'.nodes, s) { MeetTask(w, l, r, s); }
  }

  lemma PopTaskWorker(w: World, k: nat, t: Task, j: nat)
    requires Inv(w) && IsEnabled(w, PopTask(k, t)) && j < |w.workers|
    ensures var w' := Act(w, PopTask(k, t)); InvWorker(w'.nodes, j, w'.workers[j]) && ShortRest(w'.workers[j])
  {
    hide IsBuiltUpTo, IsPublished, InvNode;
    assert InvTask(w.nodes, t);
    if j != k {
      assert InvWorker(w.nodes, j, w.workers[j]) && ShortRest(w.workers[j]);
      hide InvWorker;
      WorkerFrame(w.nodes, Act(w, PopTask(k, t)).nodes, j, w.workers[j]);
    }
  }

  lemma PopTaskNode(w: World, k: nat, t: Task, n: nat)
    requires Inv(w) && IsEnabled(w, PopTask(k, t)) && n in Act(w, PopTask(k, t)).nodes
    ensures var w' := Act(w, PopTask(k, t)); InvNode(w', n, w'.nodes[n])
  {
    assert InvTask(w.nodes, t);
    SameBuilt(w.nodes[t.left], Act(w, PopTask(k, t)).nodes[t.left]);
    SameBuilt(w.nodes[t.right], Act(w, PopTask(k, t)).nodes[t.right]);
    hide IsBuiltUpTo, IsPublished;
    assert InvNode(w, n, w.nodes[n]);
  }

  lemma PopTaskTask(w: World, k: nat, t: Task, s: Task)
    requires Inv(w) && IsEnabled(w, PopTask(k, t)) && s in Act(w, PopTask(k, t)).tasks
    ensures InvTask(Act(w, PopTask(k, t)).nodes, s)
  {
    if s in w.tasks { assert InvTask(w.nodes, s); }
    hide IsBuiltUpTo, IsPublished, InvNode;
  }

  lemma PopTaskKeeps(w: World, k: nat, t: Task)
    requires Inv(w) && IsEnabled(w, PopTask(k, t))
    ensures Inv(Act(w, PopTask(k, t)))
  {
    hide IsBuiltUpTo, IsPublished, InvWorker, InvNode, InvTask, IsEnabled;
    var w' := Act(w, PopTask(k, t));
    SameWorkers(w, PopTask(k, t));
    hide Act;
    forall j | 0 <= j < |w.workers|
      ensures InvWorker(w'.nodes, j, w'.workers[j]) && ShortRest(w'.workers[j])
    {
      PopTaskWorker(w, k, t, j);
    }
    forall n | n in w'.nodes ensures InvNode(w', n, w'.nodes[n]) { PopTaskNode(w, k, t, n); }
    forall s | s in w'.tasks ensures InvTask(w'.nodes, s) { PopTaskTask(w, k, t, s); }
  }

  lemma StepKeeps(w: World, a: Action)
    requires Inv(w) && IsEnabled(w, a)
    ensures Inv(Act(w, a))
  {
    hide Inv, IsEnabled, Act;
    match a
    case Apply(k, n, arity, principals) => ApplyKeeps(w, k, n, arity, principals);
    case Acquire(k) => AcquireKeeps(w, k);
    case SetPort(k) => SetPortKeeps(w, k);
    case ReadPort(k) => ReadPortKeeps(w, k);
    case Release(k) => ReleaseKeeps(w, k);
    case Meet(l, r) => MeetKeeps(w, l, r);
    case PopTask(k, t) => PopTaskKeeps(w, k, t);
  }

  /** The nodes that a worker has still to take apart. */
  function Pending(p: Phase): seq<nat> { if p.WaitToTake? || p.Take? then [p.node] + p.rest else [] }

  /** A node is there from the moment it is applied until the worker that popped its task has
      read it and releases it, and then it is gone; each worker takes the two nodes of its task
      apart, the left one first, and no others. */
  lemma NodesComeAndGo(w: World, a: Action, k: nat)
    requires Inv(w) && IsEnabled(w, a) && k < |w.workers|
    ensures k < |Act(w, a).workers|
    ensures Act(w, a).nodes.Keys ==
              if a.Apply? then w.nodes.Keys + {a.node}
              else if a.Release? && Pending(w.workers[a.worker]) != [] then
                w.nodes.Keys - {Pending(w.workers[a.worker])[0]}
              else w.nodes.Keys
    ensures var p := Pending(w.workers[k]);
            Pending(Act(w, a).workers[k]) ==
              if a.PopTask? && a.worker == k then [a.task.left, a.task.right]
              else if a == Release(k) && p != [] then p[1..]
              else p
  {
    hide IsPublished, IsBuiltUpTo, InvNode, InvTask;
    if a == Release(k) { assert ShortRest(w.workers[k]); }
  }

  // What follows in every run

  ghost predicate IsStep(w: World, w': World) { exists a :: IsEnabled(w, a) && w' == Act(w, a) }

  ghost predicate IsRun(run: seq<World>) {
    && |run| > 0 && run[0].nodes == map[] && run[0].tasks == {}
    && (forall k :: 0 <= k < |run[0].workers| ==> run[0].workers[k].Idle?)
    && forall i :: 0 < i < |run| ==> IsStep(run[i - 1], run[i])
  }

  lemma {:induction false} RunKeeps(run: seq<World>, i: nat)
    requires IsRun(run) && i < |run|
    ensures Inv(run[i])
  {
    hide Inv, IsEnabled, Act;
    if i == 0 {
      InitHolds(run[0].workers);
    } else {
      RunKeeps(run, i - 1);
      assert IsStep(run[i - 1], run[i]);
      var a :| IsEnabled(run[i - 1], a) && run[i] == Act(run[i - 1], a);
      StepKeeps(run[i - 1], a);
    }
  }

  /** In every interleaving a node is taken apart only with all its ports set and by one
      worker, who reads it alone. */
  lemma TakenApartComplete(run: seq<World>, i: nat, k: nat)
    requires IsRun(run) && i < |run| && k < |run[i].workers| && run[i].workers[k].Take?
    ensures var w := run[i];
            && w.workers[k].node in w.nodes && IsComplete(w.nodes[w.workers[k].node])
            && forall j :: 0 <= j < |w.workers| && HeldLock(w.workers[j]) == Some(w.workers[k].node) ==> j == k
  {
    RunKeeps(run, i);
    var w := run[i];
    assert InvWorker(w.nodes, k, w.workers[k]);
    forall j | 0 <= j < |w.workers| && HeldLock(w.workers[j]) == Some(w.workers[k].node) ensures j == k {
      assert InvWorker(w.nodes, j, w.workers[j]);
    }
    hide IsPublished, IsBuiltUpTo;
  }

  /** The action by which a worker goes on. */
  predicate Moves(w: World, k: nat, a: Action) {
    match a
    case Acquire(j) => j == k
    case SetPort(j) => j == k
    case ReadPort(j) => j == k
    case Release(j) => j == k
    case _ => false
  }

  lemma HolderMoves(w: World, j: nat)
    requires Inv(w) && j < |w.workers| && HeldLock(w.workers[j]).Some?
    ensures exists a :: IsEnabled(w, a) && Moves(w, j, a)
  {
    hide IsPublished;
    var p := w.workers[j];
    assert InvWorker(w.nodes, j, p);
    var size := |w.nodes[p.node].principals|;
    if p.Build? {
      if p.count < size { assert IsEnabled(w, SetPort(j)) && Moves(w, j, SetPort(j)); }
      else { assert IsEnabled(w, Release(j)) && Moves(w, j, Release(j)); }
    } else {
      if p.next < size { assert IsEnabled(w, ReadPort(j)) && Moves(w, j, ReadPort(j)); }
      else { assert IsEnabled(w, Release(j)) && Moves(w, j, Release(j)); }
    }
  }

  /** Nobody holds one lock while waiting for another, so a worker that has begun can go on,
      or the holder of the lock it waits for can: there is no deadlock. */
  lemma NoDeadlock(w: World, k: nat)
    requires Inv(w) && k < |w.workers| && !w.workers[k].Idle?
    ensures exists j, a :: 0 <= j < |w.workers| && IsEnabled(w, a) && Moves(w, j, a)
              && (j == k || HeldLock(w.workers[j]) == WantedLock(w.workers[k]))
  {
    hide IsPublished, IsBuiltUpTo;
    var p := w.workers[k];
    if HeldLock(p).Some? {
      HolderMoves(w, k);
    } else {
      assert InvWorker(w.nodes, k, p);
      var n := w.nodes[p.node];
      assert InvNode(w, p.node, n);
      if n.lock.None? {
        assert IsEnabled(w, Acquire(k)) && Moves(w, k, Acquire(k));
      } else {
        HolderMoves(w, n.lock.value);
      }
    }
  }
}
