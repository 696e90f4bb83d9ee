/** When two principal ports meet, both their nodes are still there, so that what the rule
    looks up exists; and they make exactly one task if there is a rule for them. */
module ActivePairs {
  import opened Values
  import opened Wires
  import opened Machine
  import opened Interaction
  import opened NetEnds
  import opened NetInvariant
  import opened NetCounts
  import opened NetSteps

  /** The ports that a job's next compare-and-swap brings together. */
  predicate AreMeeting(net: Net, key: set<Name>) {
    && key in net.jobs && net.jobs[key].joins != []
    && InHand(net.jobs[key]).left.Principal? && InHand(net.jobs[key]).right.Principal?
  }

  /** Whether a compare-and-swap can be made depends on no history variable: the ends in hand
      are always known. */
  lemma MoveNeedsEndsOnly(w: World, net: Net, key: set<Name>)
    requires InvHeap(net) && InvCount(net)
    ensures Move(w, net, key).Some? <==>
              && key in net.jobs && net.jobs[key].joins != []
              && IsEnd(InHand(net.jobs[key]).left) && IsEnd(InHand(net.jobs[key]).right)
  {
    hide InvCount, Affine, Represents, Advance, Merge, FindTask, InHand;
    if key in net.jobs && net.jobs[key].joins != [] {
      var p := InHand(net.jobs[key]);
      if IsEnd(p.left) && IsEnd(p.right) {
        HandIsHeld(net, key);
        assert net.held[p.left] >= multiset{p.left, p.right}[p.left]
            && net.held[p.right] >= multiset{p.left, p.right}[p.right];
      }
    }
  }

  /** A node that is gone was taken by a job whose task came from two ports that met. */
  lemma TakenFrom(w: World, code: seq<Opcode>, net: Net, n: Name) returns (x: Value, y: Value)
    requires InvNodes(w, net) && InvFired(w, code, net) && n in net.created && n !in net.nodes
    ensures x in net.heap.oppsite && net.heap.oppsite[x] == y
    ensures x.Principal? && y.Principal? && n in {x.node, y.node}
  {
    hide IsNode, IsPort, FindTask, Start;
    var key :| key in net.jobs && n in key;
    assert Fired(w, net, key, net.jobs[key]);
    var t;
    t, x, y :| ComesFrom(w, net, t, x, y) && IsJobOf(w, net.created, key, net.jobs[key].start, t);
    hide InvNodes, InvFired;
    TaskNames(w, net.created, x, y, t);
  }

  /** A node is taken apart only after its principal port has met another. */
  lemma TakenHasMet(w: World, code: seq<Opcode>, net: Net, u: Value)
    requires WellFormed(w) && InvHeap(net) && InvNodes(w, net) && InvFired(w, code, net)
    requires IsPort(w, net.created, u) && u.node !in net.nodes
    ensures u in net.heap.oppsite
  {
    hide WellFormed, InvHeap, InvNodes, InvFired, IsPort;
    PortCreated(w, net.created, u);
    var x, y := TakenFrom(w, code, net, u.node);
    MetPorts(w, net, x);
    SamePort(w, net.created, u, if u.node == x.node then x else y);
  }

  lemma PortCreated(w: World, created: map<Name, Node>, u: Value)
    requires IsPort(w, created, u)
    ensures u.Principal? && u.node in created
  {
  }

  /** The ports in hand have not met any before, so their nodes are there. */
  lemma MeetingAreLive(w: World, code: seq<Opcode>, net: Net, key: set<Name>)
    requires WellFormed(w) && Inv(w, code, net) && AreMeeting(net, key) && Move(w, net, key).Some?
    ensures var p := InHand(net.jobs[key]);
            && p.left.node in net.nodes && p.right.node in net.nodes && p.left.node != p.right.node
            && p.left !in net.heap.oppsite && p.right !in net.heap.oppsite
            && IsPort(w, net.created, p.left) && IsPort(w, net.created, p.right)
  {
    hide WellFormed, Valid, Holders, InvJobs, InvNames, InvTasks, InvFired, InvReplay, IsNode, IsPort, FindTask,
        InHand, Inv;
    var p := InHand(net.jobs[key]);
    InvParts(w, code, net);
    MoveIs(w, net, key);
    MoveKeeps(w, code, net, key);
    var net' := Move(w, net, key).value;
    InvParts(w, code, net');
    MetPorts(w, net', p.left);
    if p.left.node !in net.nodes { TakenHasMet(w, code, net, p.left); }
    if p.right.node !in net.nodes { TakenHasMet(w, code, net, p.right); }
  }

  lemma InvParts(w: World, code: seq<Opcode>, net: Net)
    requires Inv(w, code, net)
    ensures InvHeap(net) && InvCount(net) && InvNodes(w, net) && InvTasks(w, net) && InvFired(w, code, net)
  {
  }

  /** No task has a port that has not met. */
  lemma NotYetQueued(w: World, net: Net, u: Value, t: Task)
    requires WellFormed(w) && InvHeap(net) && InvNodes(w, net) && InvTasks(w, net) && t in net.tasks
    requires IsPort(w, net.created, u) && u !in net.heap.oppsite
    ensures u.Principal? && u.node != t.left && u.node != t.right
  {
    hide WellFormed, InvHeap, InvNodes, FindTask, IsPort, Queued;
    assert InvTask(w, net, t);
    var x, y := TaskPorts(w, net, t);
    MetPorts(w, net, x);
    PortCreated(w, net.created, u);
    PortCreated(w, net.created, x);
    PortCreated(w, net.created, y);
    if u.node in {x.node, y.node} { SamePort(w, net.created, u, if u.node == x.node then x else y); }
    assert t.left in {t.left, t.right} && t.right in {t.left, t.right};
  }

  /** What one compare-and-swap does to the tasks: if it brings two principal ports together
      and there is a rule for their nodes, which are both there, one task is added, for that
      rule and these nodes, and if they are of one constructor, the node of the left port comes
      first; otherwise none is. */
  lemma MeetingMakesOneTask(w: World, code: seq<Opcode>, net: Net, key: set<Name>)
    requires WellFormed(w) && Inv(w, code, net) && Move(w, net, key).Some?
    ensures !AreMeeting(net, key) ==> Move(w, net, key).value.tasks == net.tasks
    ensures AreMeeting(net, key) ==>
              var l, r := InHand(net.jobs[key]).left.node, InHand(net.jobs[key]).right.node;
              && l in net.nodes && r in net.nodes && l != r
              && var rule := FindRule(w.rules, net.nodes[l].ctor, net.nodes[r].ctor);
                 if rule.None? then Move(w, net, key).value.tasks == net.tasks
                 else exists t :: t !in net.tasks && t.rule == rule.value && {t.left, t.right} == {l, r}
                                  && (net.nodes[l].ctor == net.nodes[r].ctor ==> t.left == l)
                                  && Move(w, net, key).value.tasks == net.tasks + {t}
  {
    hide WellFormed, Inv, IsPort;
    if AreMeeting(net, key) {
      MeetingAreLive(w, code, net, key);
      var p := InHand(net.jobs[key]);
      FoundIsNew(w, code, net, p.left, p.right);
      hide FindRule;
      var found := FindTask(w, net.nodes, p.left, p.right);
      if found != {} {
        var t :| t in found;
        TaskNames(w, net.nodes, p.left, p.right, t);
        assert Move(w, net, key).value.tasks == net.tasks + {t};
      }
    }
  }

  lemma FoundIsNew(w: World, code: seq<Opcode>, net: Net, u: Value, v: Value)
    requires WellFormed(w) && Inv(w, code, net) && IsPort(w, net.created, u) && u !in net.heap.oppsite
    ensures forall t :: t in FindTask(w, net.nodes, u, v) ==> t !in net.tasks
  {
    hide WellFormed, Inv, IsPort;
    InvParts(w, code, net);
    hide InvHeap, InvNodes, InvTasks, InvCount, InvFired;
    forall t | t in FindTask(w, net.nodes, u, v) ensures t !in net.tasks {
      TaskNames(w, net.nodes, u, v, t);
      assert u.node in {t.left, t.right};
      if t in net.tasks { NotYetQueued(w, net, u, t); }
    }
  }
}
