/** A port is joined to at most one other port: in the net of any run, the neighbour tables
    hold all there is to know of who is joined to whom. */
module Partners {
  import opened Values
  import opened Wires
  import opened Machine
  import opened Interaction
  import opened NetEnds
  import opened NetInvariant
  import opened NetCounts
  import opened NetSteps
  import Neighborhood

  // No three ends walk to one wire

  lemma {:induction false} WalkAround(fuzed: map<Name, Value>, w: Name, v: Value)
    requires w in fuzed && v != Wire(w) && forall n :: n in fuzed ==> fuzed[n] != Wire(w)
    ensures Walk(fuzed - {w}, v) == Walk(fuzed, v)
    decreases fuzed.Keys
  {
    if v.Wire? && v.id in fuzed {
      WalkAround(fuzed - {v.id}, w, fuzed[v.id]);
      assert fuzed - {w} - {v.id} == fuzed - {v.id} - {w};
    }
  }

  /** The end of a full wire is its only one. */
  lemma OnlyEnd(h: Heap, held: multiset<Value>, w: Name)
    requires Affine(h, held) && w in h.fuzed && held[Wire(w)] > 0
    ensures held[Wire(w)] == 1 && forall n :: n in h.fuzed ==> h.fuzed[n] != Wire(w)
  {
    hide Refs;
    assert Ends(h, held, Wire(w)) <= Capacity(h, Wire(w)) == 1;
    forall n | n in h.fuzed ensures h.fuzed[n] != Wire(w) {
      if h.fuzed[n] == Wire(w) { OneRef(h.fuzed, n, Wire(w)); }
    }
  }

  predicate IsFull(h: Heap, v: Value) { v.Wire? && v.id in h.fuzed }

  lemma WalkOne(fuzed: map<Name, Value>, a: Value)
    requires a.Wire? && a.id in fuzed
    ensures Walk(fuzed, a) == Walk(fuzed - {a.id}, fuzed[a.id])
  {
  }

  lemma FreeAffine(h: Heap, held: multiset<Value>, w: Name)
    requires Affine(h, held) && w in h.fuzed && held[Wire(w)] > 0
    ensures Affine(h.(live := h.live - {w}, fuzed := h.fuzed - {w}), held - multiset{Wire(w)} + multiset{h.fuzed[w]})
  {
    hide Refs;
    var h', held' := h.(live := h.live - {w}, fuzed := h.fuzed - {w}), held - multiset{Wire(w)} + multiset{h.fuzed[w]};
    OnlyEnd(h, held, w);
    forall v ensures Ends(h', held', v) <= Capacity(h', v) {
      RefsFree(h.fuzed, w, v);
      assert Ends(h, held, v) <= Capacity(h, v);
    }
  }

  lemma Twice(ends: seq<Value>, i: nat, j: nat)
    requires i < |ends| && j < |ends| && i != j && ends[i] == ends[j]
    ensures multiset(ends)[ends[i]] >= 2
  {
    var a, b := if i < j then i else j, if i < j then j else i;
    assert ends == ends[..b] + [ends[b]] + ends[b + 1..];
    assert ends[..b] == ends[..a] + [ends[a]] + ends[a + 1..b];
  }

  /** Ends that walk to one wire are two at most, and to any other value one. */
  lemma {:induction false} EndsOfOne(h: Heap, held: multiset<Value>, ends: seq<Value>, t: Value)
    requires Affine(h, held) && multiset(ends) <= held && forall i :: 0 <= i < |ends| ==> Walk(h.fuzed, ends[i]) == t
    ensures |ends| <= if t.Wire? then 2 else 1
    decreases h.fuzed.Keys
  {
    hide Affine, Walk;
    if i :| 0 <= i < |ends| && IsFull(h, ends[i]) {
      var a := ends[i];
      var w, x := a.id, h.fuzed[a.id];
      OnlyEnd(h, held, w);
      FreeAffine(h, held, w);
      var ends' := ends[i := x];
      forall j | 0 <= j < |ends'| ensures Walk(h.fuzed - {w}, ends'[j]) == t {
        if j == i {
          WalkOne(h.fuzed, a);
        } else {
          if ends[j] == a { Twice(ends, i, j); }
          WalkAround(h.fuzed, w, ends[j]);
        }
      }
      EndsOfOne(h.(live := h.live - {w}, fuzed := h.fuzed - {w}), held - multiset{a} + multiset{x}, ends', t);
    } else {
      AllAtOne(h, held, ends, t);
    }
  }

  lemma {:induction false} AllEqual(ends: seq<Value>, t: Value)
    requires forall i :: 0 <= i < |ends| ==> ends[i] == t
    ensures multiset(ends)[t] == |ends|
  {
    if ends != [] {
      AllEqual(ends[1..], t);
      assert ends == [ends[0]] + ends[1..];
    }
  }

  lemma AllAtOne(h: Heap, held: multiset<Value>, ends: seq<Value>, t: Value)
    requires Affine(h, held) && multiset(ends) <= held
    requires forall i :: 0 <= i < |ends| ==> !IsFull(h, ends[i]) && Walk(h.fuzed, ends[i]) == t
    ensures |ends| <= if t.Wire? then 2 else 1
  {
    AllEqual(ends, t);
    assert Ends(h, held, t) <= Capacity(h, t);
    assert multiset(ends)[t] <= held[t];
    hide Refs;
  }

  // A class has two visible ends at most

  lemma SameClassMet(h: Heap, c: Wiring, u: Value, v: Value)
    requires Represents(h, c) && u in c && v in c && u != v && c[u] == c[v] && !u.Wire? && !v.Wire?
    ensures u in h.oppsite && h.oppsite[u] == v
  {
  }

  /** A class with an outstanding end has a terminal, so no values have met in it. */
  lemma NotMetYet(h: Heap, held: multiset<Value>, c: Wiring, x: Value, u: Value)
    requires Valid(h, held, c) && x in c && held[x] > 0 && u in c && c[u] == c[x]
    ensures u !in h.oppsite
    ensures !u.Wire? ==> Walk(h.fuzed, x) == u
  {
    hide Affine, Walk, IsPartition;
    WalkArrives(h, held, c, x);
  }

  lemma SameTerminal(h: Heap, held: multiset<Value>, c: Wiring, x: Value, y: Value)
    requires Valid(h, held, c) && x in c && y in c && held[x] > 0 && held[y] > 0 && c[x] == c[y]
    ensures Walk(h.fuzed, x) == Walk(h.fuzed, y)
  {
    hide Affine, Walk, IsPartition, PairsApart;
    WalkArrives(h, held, c, x);
    WalkArrives(h, held, c, y);
  }

  lemma ThreePrincipals(h: Heap, held: multiset<Value>, c: Wiring, u: Value, v: Value, t: Value)
    requires Valid(h, held, c) && u in c && v in c && t in c && c[u] == c[v] == c[t] && !u.Wire? && !v.Wire? && !t.Wire?
    ensures u == v || u == t || v == t
  {
  }

  lemma PrincipalsAndEnd(h: Heap, held: multiset<Value>, c: Wiring, u: Value, v: Value, x: Value)
    requires Valid(h, held, c) && u in c && v in c && x in c && c[u] == c[v] == c[x] && !u.Wire? && !v.Wire?
    requires held[x] > 0
    ensures u == v
  {
    hide Affine, Represents;
    NotMetYet(h, held, c, x, u);
    if u != v { SameClassMet(h, c, u, v); }
  }

  lemma EndsAndPrincipal(h: Heap, held: multiset<Value>, c: Wiring, x: Value, y: Value, u: Value)
    requires Valid(h, held, c) && x in c && y in c && u in c && c[x] == c[y] && !u.Wire? && multiset([x, y]) <= held
    ensures c[u] != c[x]
  {
    hide Affine, Represents, Walk;
    if c[u] == c[x] {
      NotMetYet(h, held, c, x, u);
      NotMetYet(h, held, c, y, u);
      EndsOfOne(h, held, [x, y], u);
    }
  }

  lemma ThreeEnds(h: Heap, held: multiset<Value>, c: Wiring, x: Value, y: Value, z: Value)
    requires Valid(h, held, c) && x in c && y in c && z in c && c[x] == c[y] && multiset([x, y, z]) <= held
    ensures c[z] != c[x]
  {
    hide Affine, Represents, Walk;
    if c[z] == c[x] {
      SameTerminal(h, held, c, x, y);
      SameTerminal(h, held, c, x, z);
      EndsOfOne(h, held, [x, y, z], Walk(h.fuzed, x));
    }
  }

  // Ports of three nodes

  function PortsOf(net: Net): Neighborhood.Ports { map n | n in net.nodes :: net.nodes[n].ports }

  function Outside(v: Value): seq<Value> { if v.Principal? then [] else [v] }

  lemma ThreeNodes(nodes: map<Name, Node>, a: Name, b: Name, d: Name, v: Value)
    requires a in nodes && b in nodes && d in nodes && a != b && a != d && b != d
    ensures Count(Auxiliary(nodes[a].ports), v) + Count(Auxiliary(nodes[b].ports), v)
            + Count(Auxiliary(nodes[d].ports), v)
         <= Total(NodeWeights(nodes, v))
  {
    hide Total, Count, Auxiliary;
    NodeTaken(nodes, a, v);
    NodeTaken(nodes - {a}, b, v);
    NodeTaken(nodes - {a} - {b}, d, v);
  }

  lemma {:induction false} AtPort(ports: seq<Value>, i: nat, v: Value)
    requires i < |ports|
    ensures Count(Auxiliary(ports), v) >= if ports[i] == v && !v.Principal? then 1 else 0
  {
    var n := |ports| - 1;
    if i < n { AtPort(ports[..n], i, v); }
  }

  function If(b: bool): nat { if b then 1 else 0 }

  lemma OutsideCount(x: Value, v: Value)
    ensures multiset(Outside(x))[v] == If(x == v && !v.Principal?)
  {
  }

  /** What is at ports of three nodes, the principal ports aside, is outstanding. */
  lemma ThreeHeld(net: Net, a: Name, b: Name, d: Name, i: nat, j: nat, k: nat)
    requires InvCount(net)
    requires a in net.nodes && b in net.nodes && d in net.nodes && a != b && a != d && b != d
    requires i < |net.nodes[a].ports| && j < |net.nodes[b].ports| && k < |net.nodes[d].ports|
    requires IsEnd(net.nodes[a].ports[i]) && IsEnd(net.nodes[b].ports[j]) && IsEnd(net.nodes[d].ports[k])
    ensures multiset(Outside(net.nodes[a].ports[i]) + Outside(net.nodes[b].ports[j])
            + Outside(net.nodes[d].ports[k])) <= net.held
  {
    hide Total, NodeWeights, JobWeights, Count, Auxiliary, Outside;
    var x, y, z := net.nodes[a].ports[i], net.nodes[b].ports[j], net.nodes[d].ports[k];
    var ends := Outside(x) + Outside(y) + Outside(z);
    forall v | v in multiset(ends) ensures multiset(ends)[v] <= net.held[v] {
      OutsideCount(x, v);
      OutsideCount(y, v);
      OutsideCount(z, v);
      assert multiset(ends)[v] == multiset(Outside(x))[v] + multiset(Outside(y))[v] + multiset(Outside(z))[v];
      ThreeNodes(net.nodes, a, b, d, v);
      AtPort(net.nodes[a].ports, i, v);
      AtPort(net.nodes[b].ports, j, v);
      AtPort(net.nodes[d].ports, k, v);
      assert IsEnd(v);
      assert Holders(net, v) <= net.held[v];
    }
  }

  /** A principal port names its node. */
  lemma PortOfNode(w: World, net: Net, a: Name, i: nat)
    requires InvNodes(w, net) && a in net.nodes && i < |net.nodes[a].ports| && net.nodes[a].ports[i].Principal?
    ensures net.nodes[a].ports[i].node == a && net.nodes[a].ports[i] in net.wiring
  {
  }

  /** What is at a port of a node can be read. */
  lemma PortReadable(w: World, net: Net, a: Name, i: nat)
    requires InvHeap(net) && InvCount(net) && InvNodes(w, net)
    requires a in net.nodes && i < |net.nodes[a].ports| && IsEnd(net.nodes[a].ports[i])
    ensures Readable(net.held, net.wiring, net.nodes[a].ports[i])
  {
    hide Total, NodeWeights, JobWeights, Count, Auxiliary, Affine, Represents, InvNodes;
    var x := net.nodes[a].ports[i];
    if x.Principal? {
      PortOfNode(w, net, a, i);
    } else {
      NodeTaken(net.nodes, a, x);
      AtPort(net.nodes[a].ports, i, x);
      assert Holders(net, x) <= net.held[x];
    }
  }

  /** Only ends are ever connected. */
  lemma ConnectedEnds(h: Heap, x: Value, y: Value)
    requires IsConnected(h, x, y)
    ensures IsEnd(x) && IsEnd(y)
  {
  }

  /** A port is connected to no two other nodes. */
  lemma OnePartner(w: World, code: seq<Opcode>, net: Net, a: Name, b: Name, d: Name, i: nat, j: nat, k: nat)
    requires Inv(w, code, net)
    requires a in net.nodes && b in net.nodes && d in net.nodes && a != b && a != d
    requires i < |net.nodes[a].ports| && j < |net.nodes[b].ports| && k < |net.nodes[d].ports|
    requires IsConnected(net.heap, net.nodes[a].ports[i], net.nodes[b].ports[j])
    requires IsConnected(net.heap, net.nodes[a].ports[i], net.nodes[d].ports[k])
    ensures b == d
  {
    hide Valid, InvCount, InvJobs, InvNames, InvNodes, InvTasks, InvFired, InvReplay, IsConnected, Readable;
    var x, y, z := net.nodes[a].ports[i], net.nodes[b].ports[j], net.nodes[d].ports[k];
    ConnectedEnds(net.heap, x, y);
    ConnectedEnds(net.heap, x, z);
    PortReadable(w, net, a, i);
    PortReadable(w, net, b, j);
    PortReadable(w, net, d, k);
    ConnectedIffTogether(net.heap, net.held, net.wiring, x, y);
    ConnectedIffTogether(net.heap, net.held, net.wiring, x, z);
    ReadableIn(net.held, net.wiring, x);
    ReadableIn(net.held, net.wiring, y);
    ReadableIn(net.held, net.wiring, z);
    if b != d {
      ThreeHeld(net, a, b, d, i, j, k);
      if x.Principal? { PortOfNode(w, net, a, i); }
      if y.Principal? { PortOfNode(w, net, b, j); }
      if z.Principal? { PortOfNode(w, net, d, k); }
      TogetherThree(net.heap, net.held, net.wiring, x, y, z);
    }
  }

  lemma ReadableIn(held: multiset<Value>, c: Wiring, x: Value)
    requires Readable(held, c, x)
    ensures x in c
  {
  }

  lemma TogetherThree(h: Heap, held: multiset<Value>, c: Wiring, x: Value, y: Value, z: Value)
    requires Valid(h, held, c) && x in c && y in c && z in c && c[x] == c[y] == c[z]
    requires multiset(Outside(x) + Outside(y) + Outside(z)) <= held
    ensures (x.Principal? && (x == y || x == z)) || (y.Principal? && y == z)
  {
    hide Valid;
    var s := Outside(x) + Outside(y) + Outside(z);
    if x.Principal? && y.Principal? && z.Principal? {
      ThreePrincipals(h, held, c, x, y, z);
    } else if x.Principal? && y.Principal? {
      assert s == [z];
      PrincipalsAndEnd(h, held, c, x, y, z);
    } else if x.Principal? && z.Principal? {
      assert s == [y];
      PrincipalsAndEnd(h, held, c, x, z, y);
    } else if y.Principal? && z.Principal? {
      assert s == [x];
      PrincipalsAndEnd(h, held, c, y, z, x);
    } else {
      AtMostOnePrincipal(h, held, c, x, y, z);
    }
  }

  lemma OutsideOnly(x: Value, y: Value, z: Value)
    ensures x.Principal? && !y.Principal? && !z.Principal? ==> Outside(x) + Outside(y) + Outside(z) == [y, z]
    ensures !x.Principal? && y.Principal? && !z.Principal? ==> Outside(x) + Outside(y) + Outside(z) == [x, z]
    ensures !x.Principal? && !y.Principal? && z.Principal? ==> Outside(x) + Outside(y) + Outside(z) == [x, y]
    ensures !x.Principal? && !y.Principal? && !z.Principal? ==> Outside(x) + Outside(y) + Outside(z) == [x, y, z]
  {
  }

  lemma AtMostOnePrincipal(h: Heap, held: multiset<Value>, c: Wiring, x: Value, y: Value, z: Value)
    requires Valid(h, held, c) && x in c && y in c && z in c && c[x] == c[y]
    requires multiset(Outside(x) + Outside(y) + Outside(z)) <= held
    requires !(x.Principal? && y.Principal?) && !(x.Principal? && z.Principal?) && !(y.Principal? && z.Principal?)
    ensures c[z] != c[x]
  {
    hide Valid, Outside;
    OutsideOnly(x, y, z);
    if c[z] == c[x] {
      if x.Principal? { EndsAndPrincipal(h, held, c, y, z, x); }
      else if y.Principal? { EndsAndPrincipal(h, held, c, x, z, y); }
      else if z.Principal? { EndsAndPrincipal(h, held, c, x, y, z); }
      else { ThreeEnds(h, held, c, x, y, z); }
    }
  }

  /** In every run, at every moment, no port of the net is joined to two other nodes; so the
      neighbour tables hold an entry for each two nodes that are joined. */
  lemma PortsHaveOnePartner(w: World, code: seq<Opcode>, run: seq<Net>, n: nat)
    requires WellFormed(w) && IsPure(code) && IsRun(w, code, run) && n < |run|
    ensures Neighborhood.OneEach(run[n].heap, PortsOf(run[n]))
  {
    hide WellFormed, IsPure, IsRun, Inv, IsConnected;
    RunKeeps(w, code, run, n);
    var net := run[n];
    forall a, b, d, i: nat | a in PortsOf(net) && b in PortsOf(net) && d in PortsOf(net) && b != a && d != a
                             && Neighborhood.MeetAt(net.heap, PortsOf(net)[a], PortsOf(net)[b], i)
                             && Neighborhood.MeetAt(net.heap, PortsOf(net)[a], PortsOf(net)[d], i) ensures b == d {
      var j: nat :| j < |net.nodes[b].ports|
          && Neighborhood.Meet(net.heap, net.nodes[a].ports, net.nodes[b].ports, i, j);
      var k: nat :| k < |net.nodes[d].ports|
          && Neighborhood.Meet(net.heap, net.nodes[a].ports, net.nodes[d].ports, i, k);
      OnePartner(w, code, net, a, b, d, i, j, k);
    }
  }
}
