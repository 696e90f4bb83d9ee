/** The neighbour tables that the traversal reads, built by comparing every port of every
    two nodes. */
module Neighborhood {
  import opened Values
  import opened Wires
  import opened Traversal

  type Ports = map<Name, seq<Value>>

  /** Port `i` of the one node and port `j` of the other are joined. */
  predicate Meet(h: Heap, xs: seq<Value>, ys: seq<Value>, i: nat, j: nat) {
    i < |xs| && j < |ys| && IsConnected(h, xs[i], ys[j])
  }

  predicate MeetAt(h: Heap, xs: seq<Value>, ys: seq<Value>, i: nat) {
    exists j: nat :: j < |ys| && Meet(h, xs, ys, i, j)
  }

  /** The first port of the one node that is joined to some port of the other. */
  ghost predicate IsFirstPort(h: Heap, xs: seq<Value>, ys: seq<Value>, port: Option<nat>) {
    match port
    case Some(i) => MeetAt(h, xs, ys, i) && forall k :: 0 <= k < i ==> !MeetAt(h, xs, ys, k)
    case None => forall k :: 0 <= k < |xs| ==> !MeetAt(h, xs, ys, k)
  }

  method FindPort(h: Heap, xs: seq<Value>, ys: seq<Value>) returns (port: Option<nat>)
    ensures IsFirstPort(h, xs, ys, port)
  {
    for i := 0 to |xs|
      invariant forall k :: 0 <= k < i ==> !MeetAt(h, xs, ys, k)
    {
      for j := 0 to |ys|
        invariant forall l: nat :: l < j ==> !Meet(h, xs, ys, i, l)
      {
        if IsConnected(h, xs[i], ys[j]) {
          assert Meet(h, xs, ys, i, j);
          return Some(i);
        }
      }
    }
    port := None;
  }

  /** Every entry is another of the nodes, joined at that port. */
  ghost predicate IsSound(h: Heap, ports: Ports, a: Name, nodes: seq<Name>, table: seq<Option<Name>>) {
    && a in ports && |table| == |ports[a]|
    && forall i :: 0 <= i < |table| && table[i].Some? ==>
         var b := table[i].value; b in nodes && b != a && b in ports && MeetAt(h, ports[a], ports[b], i)
  }

  /** Each of the nodes that is joined to `a` has the entry of the first port it is joined
      at, unless another node is joined there as well. */
  ghost predicate IsFull(h: Heap, ports: Ports, a: Name, nodes: seq<Name>, table: seq<Option<Name>>) {
    forall b :: b in nodes && b != a && a in ports && b in ports && Joined(h, ports, a, b) ==> Some(b) in table
  }

  ghost predicate Joined(h: Heap, ports: Ports, a: Name, b: Name)
    requires a in ports && b in ports
  {
    exists i: nat :: i < |ports[a]| && MeetAt(h, ports[a], ports[b], i)
  }

  /** No port is joined to ports of two other nodes. */
  ghost predicate OneEach(h: Heap, ports: Ports) {
    forall a, b, c, i: nat ::
      (a in ports && b in ports && c in ports && b != a && c != a
       && MeetAt(h, ports[a], ports[b], i) && MeetAt(h, ports[a], ports[c], i)) ==> b == c
  }

  method BuildTable(h: Heap, ports: Ports, a: Name, nodes: seq<Name>) returns (table: seq<Option<Name>>)
    requires a in ports && forall n :: n in nodes ==> n in ports
    ensures IsSound(h, ports, a, nodes, table)
    ensures OneEach(h, ports) ==> IsFull(h, ports, a, nodes, table)
  {
    hide MeetAt;
    table := seq(|ports[a]|, _ => None);
    for k := 0 to |nodes|
      invariant IsSound(h, ports, a, nodes, table)
      invariant OneEach(h, ports) ==> IsFull(h, ports, a, nodes[..k], table)
    {
      var b := nodes[k];
      ghost var before := table;
      if b != a {
        var port := FindPort(h, ports[a], ports[b]);
        if port.Some? {
          MeetsInside(h, ports[a], ports[b], port.value);
          table := table[port.value := Some(b)];
          if OneEach(h, ports) { EntryKept(h, ports, a, nodes, nodes[..k], before, port.value, b); }
        } else {
        }
      }
      assert nodes[..k + 1] == nodes[..k] + [b];
    }
    assert nodes[..|nodes|] == nodes;
  }

  lemma MeetsInside(h: Heap, xs: seq<Value>, ys: seq<Value>, i: nat)
    requires MeetAt(h, xs, ys, i)
    ensures i < |xs|
  {
  }

  /** Writing an entry overwrites no other node's. */
  lemma EntryKept(h: Heap, ports: Ports, a: Name, nodes: seq<Name>, done: seq<Name>, table: seq<Option<Name>>, i: nat,
          b: Name)
    requires OneEach(h, ports) && IsSound(h, ports, a, nodes, table) && IsFull(h, ports, a, done, table)
    requires i < |table| && b in ports && b != a && MeetAt(h, ports[a], ports[b], i)
    ensures IsFull(h, ports, a, done + [b], table[i := Some(b)])
  {
    hide MeetAt;
    var table' := table[i := Some(b)];
    assert table'[i] == Some(b);
    forall c | c in done + [b] && c != a && c in ports && Joined(h, ports, a, c) ensures Some(c) in table' {
      if c != b {
        var k :| 0 <= k < |table| && table[k] == Some(c);
        assert k != i;
        assert table'[k] == Some(c);
      }
    }
  }

  method BuildTables(h: Heap, ports: Ports, nodes: seq<Name>) returns (t: Tables)
    requires forall n :: n in nodes ==> n in ports
    ensures t.Keys == set n | n in nodes
    ensures IsClosed(t)
    ensures forall a :: a in t ==> IsSound(h, ports, a, nodes, t[a])
    ensures OneEach(h, ports) ==>
              forall a, b :: a in nodes && b in nodes && a != b ==> (IsEdge(t, a, b) <==> Joined(h, ports, a, b))
  {
    hide OneEach, Joined, MeetAt;
    t := map[];
    for k := 0 to |nodes|
      invariant t.Keys == set n | n in nodes[..k]
      invariant forall a :: a in t ==> IsSound(h, ports, a, nodes, t[a])
      invariant OneEach(h, ports) ==> forall a :: a in t ==> IsFull(h, ports, a, nodes, t[a])
    {
      var table := BuildTable(h, ports, nodes[k], nodes);
      t := t[nodes[k] := table];
    }
    assert nodes[..|nodes|] == nodes;
    forall a, b | IsEdge(t, a, b) ensures b in t && a in ports && b in ports && Joined(h, ports, a, b) {
      EdgeJoined(h, ports, a, b, nodes, t[a]);
    }
  }

  lemma EdgeJoined(h: Heap, ports: Ports, a: Name, b: Name, nodes: seq<Name>, table: seq<Option<Name>>)
    requires IsSound(h, ports, a, nodes, table) && Some(b) in table
    ensures b in nodes && a in ports && b in ports && Joined(h, ports, a, b)
  {
  }
}
