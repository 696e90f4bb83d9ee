/** Depth-first traversal of the nodes connected to a root, through neighbour tables. */
module Traversal {
  import opened Values

  /** For each node, the node at the other end of each port, if there is one. */
  type Tables = map<Name, seq<Option<Name>>>

  predicate IsEdge(t: Tables, a: Name, b: Name) { a in t && Some(b) in t[a] }

  ghost predicate IsPath(t: Tables, path: seq<Name>) {
    |path| > 0 && forall i :: 0 < i < |path| ==> IsEdge(t, path[i - 1], path[i])
  }

  ghost predicate Reachable(t: Tables, a: Name, b: Name) {
    exists path :: IsPath(t, path) && path[0] == a && path[|path| - 1] == b
  }

  /** Every node has a table, also those at the other end of a port. */
  ghost predicate IsClosed(t: Tables) {
    forall a, b :: IsEdge(t, a, b) ==> b in t
  }

  function Neighbors(ports: seq<Option<Name>>): seq<Name> {
    if ports == [] then [] else
    var n := |ports| - 1;
    Neighbors(ports[..n]) + if ports[n].Some? then [ports[n].value] else []
  }

  lemma {:induction false} NeighborsHas(ports: seq<Option<Name>>, b: Name)
    ensures b in Neighbors(ports) <==> Some(b) in ports
  {
    if ports != [] {
      var n := |ports| - 1;
      NeighborsHas(ports[..n], b);
      assert ports == ports[..n] + [ports[n]];
    }
  }

  lemma ReachableSelf(t: Tables, a: Name)
    ensures Reachable(t, a, a)
  {
    assert IsPath(t, [a]) && [a][0] == a;
  }

  lemma ReachableStep(t: Tables, a: Name, b: Name, c: Name)
    requires Reachable(t, a, b) && IsEdge(t, b, c)
    ensures Reachable(t, a, c)
  {
    var path :| IsPath(t, path) && path[0] == a && path[|path| - 1] == b;
    var longer := path + [c];
    assert IsPath(t, longer) && longer[0] == a && longer[|longer| - 1] == c;
  }

  /** A set that holds the root and is closed under edges holds all that can be reached. */
  lemma {:induction false} ReachedInside(t: Tables, inside: set<Name>, path: seq<Name>)
    requires IsPath(t, path) && path[0] in inside
    requires forall a, b :: a in inside && IsEdge(t, a, b) ==> b in inside
    ensures path[|path| - 1] in inside
    decreases |path|
  {
    if |path| > 1 {
      var shorter := path[..|path| - 1];
      ReachedInside(t, inside, shorter);
      assert IsEdge(t, path[|path| - 2], path[|path| - 1]);
    }
  }

  /** Everything taken or still pending can be reached, and every edge out of what was taken
      leads to one of the two. */
  ghost predicate Explores(t: Tables, root: Name, taken: set<Name>, pending: seq<Name>) {
    && taken <= t.Keys
    && (forall a :: a in taken || a in pending ==> Reachable(t, root, a))
    && (forall a, b :: a in taken && IsEdge(t, a, b) ==> b in taken || b in pending)
  }

  lemma ExploresMore(t: Tables, root: Name, taken: set<Name>, pending: seq<Name>, next: Name)
    requires next in t && Reachable(t, root, next) && taken <= t.Keys
    requires forall a :: a in taken || a in pending ==> Reachable(t, root, a)
    requires forall a, b :: a in taken && IsEdge(t, a, b) ==> b in taken || b in pending || b == next
    ensures Explores(t, root, taken + {next}, pending + Neighbors(t[next]))
  {
    hide Reachable;
    forall a | a in Neighbors(t[next]) ensures Reachable(t, root, a) {
      NeighborsHas(t[next], a);
      ReachableStep(t, root, next, a);
    }
    forall b | IsEdge(t, next, b) ensures b in Neighbors(t[next]) { NeighborsHas(t[next], b); }
  }

  lemma ExploresLess(t: Tables, root: Name, taken: set<Name>, pending: seq<Name>)
    requires Explores(t, root, taken, pending) && pending != [] && pending[|pending| - 1] in taken
    ensures Explores(t, root, taken, pending[..|pending| - 1])
  {
    assert pending == pending[..|pending| - 1] + [pending[|pending| - 1]];
  }

  /** What `ExploresMore` needs of the last pending node. */
  lemma LastHasTable(t: Tables, root: Name, taken: set<Name>, pending: seq<Name>)
    requires IsClosed(t) && root in taken && Explores(t, root, taken, pending) && pending != []
    ensures var n := |pending| - 1;
            && pending[n] in t && Reachable(t, root, pending[n]) && taken <= t.Keys
            && (forall a :: a in taken || a in pending[..n] ==> Reachable(t, root, a))
            && (forall a, b :: a in taken && IsEdge(t, a, b) ==> b in taken || b in pending[..n] || b == pending[n])
  {
    var n := |pending| - 1;
    assert pending == pending[..n] + [pending[n]];
    ReachableInTables(t, root, pending[n]);
    hide Reachable, IsEdge;
  }

  // Depth first

  /** Where a pending node was found: from which of the nodes taken, and at which port. */
  datatype Place = Place(owner: nat, port: nat)

  predicate IsBefore(a: Place, b: Place) { a.owner < b.owner || (a.owner == b.owner && a.port < b.port) }

  /** At that port of that node there is `b`. */
  predicate Leads(t: Tables, order: seq<Name>, at: Place, b: Name) {
    && at.owner < |order| && order[at.owner] in t && at.port < |t[order[at.owner]]|
    && t[order[at.owner]][at.port] == Some(b)
  }

  /** The node comes from the last port, of the last node taken, that leads to one not taken. */
  ghost predicate IsNext(t: Tables, order: seq<Name>, b: Name) {
    b !in order && exists at :: Leads(t, order, at, b) && NoneAfter(t, order, at)
  }

  ghost predicate NoneAfter(t: Tables, order: seq<Name>, at: Place) {
    forall later, c :: Leads(t, order, later, c) && IsBefore(at, later) ==> c in order
  }

  ghost predicate IsDepthFirst(t: Tables, order: seq<Name>) {
    forall k :: 0 < k < |order| ==> IsNext(t, order[..k], order[k])
  }

  function PlacesOf(owner: nat, ports: seq<Option<Name>>): (r: seq<Place>)
    ensures |r| == |Neighbors(ports)|
  {
    if ports == [] then [] else
    var n := |ports| - 1;
    PlacesOf(owner, ports[..n]) + if ports[n].Some? then [Place(owner, n)] else []
  }

  lemma {:induction false} PlacesAre(owner: nat, ports: seq<Option<Name>>)
    ensures forall i :: 0 <= i < |PlacesOf(owner, ports)| ==>
              var at := PlacesOf(owner, ports)[i];
              at.owner == owner && at.port < |ports| && ports[at.port] == Some(Neighbors(ports)[i])
    ensures forall i, j :: 0 <= i < j < |PlacesOf(owner, ports)| ==>
              IsBefore(PlacesOf(owner, ports)[i], PlacesOf(owner, ports)[j])
    ensures forall p :: 0 <= p < |ports| && ports[p].Some? ==> Place(owner, p) in PlacesOf(owner, ports)
  {
    if ports != [] { PlacesAre(owner, ports[..|ports| - 1]); }
  }

  ghost predicate AllLead(t: Tables, order: seq<Name>, remaining: seq<Name>, places: seq<Place>) {
    |places| == |remaining| && forall i :: 0 <= i < |places| ==> Leads(t, order, places[i], remaining[i])
  }

  ghost predicate AreOrdered(places: seq<Place>) {
    forall i, j :: 0 <= i < j < |places| ==> IsBefore(places[i], places[j])
  }

  ghost predicate HasAll(t: Tables, order: seq<Name>, places: seq<Place>, but: set<Name>) {
    forall at, b :: Leads(t, order, at, b) && b !in order && b !in but ==> at in places
  }

  /** The pending nodes lie in the order of their places, and each node that a port leads to is
      there or has been taken. */
  ghost predicate IsPending(t: Tables, order: seq<Name>, remaining: seq<Name>, places: seq<Place>) {
    AllLead(t, order, remaining, places) && AreOrdered(places) && HasAll(t, order, places, {})
  }

  /** Without the last pending node. */
  lemma DropLast(t: Tables, order: seq<Name>, remaining: seq<Name>, places: seq<Place>)
    requires IsPending(t, order, remaining, places) && remaining != []
    ensures var n := |remaining| - 1;
            && |places| == n + 1 && AllLead(t, order, remaining[..n], places[..n]) && AreOrdered(places[..n])
            && HasAll(t, order, places[..n], {remaining[n]})
  {
    var n := |remaining| - 1;
    forall at, b | Leads(t, order, at, b) && b !in order && b != remaining[n] ensures at in places[..n] {
      assert at in places && at != places[n];
    }
    hide IsBefore;
  }

  lemma DropTaken(t: Tables, order: seq<Name>, remaining: seq<Name>, places: seq<Place>)
    requires IsPending(t, order, remaining, places) && remaining != [] && remaining[|remaining| - 1] in order
    ensures var n := |remaining| - 1; |places| == n + 1 && IsPending(t, order, remaining[..n], places[..n])
  {
    DropLast(t, order, remaining, places);
    hide AllLead, AreOrdered, Leads;
  }

  lemma LastIsNext(t: Tables, order: seq<Name>, remaining: seq<Name>, places: seq<Place>)
    requires IsPending(t, order, remaining, places) && remaining != [] && remaining[|remaining| - 1] !in order
    ensures IsNext(t, order, remaining[|remaining| - 1])
  {
    var n := |remaining| - 1;
    assert Leads(t, order, places[n], remaining[n]);
    forall later, c | Leads(t, order, later, c) && IsBefore(places[n], later) ensures c in order {
      if c !in order { NotAfterLast(places, later); }
    }
    assert NoneAfter(t, order, places[n]);
    hide Leads;
  }

  lemma NotAfterLast(places: seq<Place>, at: Place)
    requires AreOrdered(places) && at in places
    ensures !IsBefore(places[|places| - 1], at)
  {
  }

  lemma LeadsMore(t: Tables, order: seq<Name>, node: Name, at: Place, b: Name)
    requires at.owner < |order|
    ensures Leads(t, order + [node], at, b) <==> Leads(t, order, at, b)
  {
  }

  lemma AllLeadMore(t: Tables, order: seq<Name>, remaining: seq<Name>, places: seq<Place>, node: Name)
    requires node in t && AllLead(t, order, remaining, places)
    ensures AllLead(t, order + [node], remaining + Neighbors(t[node]), places + PlacesOf(|order|, t[node]))
  {
    PlacesAre(|order|, t[node]);
    hide PlacesOf, Neighbors;
    var all, more := places + PlacesOf(|order|, t[node]), remaining + Neighbors(t[node]);
    forall i | 0 <= i < |all| ensures Leads(t, order + [node], all[i], more[i]) {
      if i < |places| {
        assert Leads(t, order, places[i], remaining[i]);
        LeadsMore(t, order, node, places[i], remaining[i]);
      } else {
        assert all[i] == PlacesOf(|order|, t[node])[i - |places|];
      }
    }
  }

  lemma OrderedMore(t: Tables, order: seq<Name>, remaining: seq<Name>, places: seq<Place>, ports: seq<Option<Name>>)
    requires AllLead(t, order, remaining, places) && AreOrdered(places)
    ensures AreOrdered(places + PlacesOf(|order|, ports))
  {
    var more := PlacesOf(|order|, ports);
    PlacesAre(|order|, ports);
    hide PlacesOf;
    forall i, j | 0 <= i < j < |places + more| ensures IsBefore((places + more)[i], (places + more)[j]) {
      if i < |places| {
        assert Leads(t, order, places[i], remaining[i]);
        assert j >= |places| ==> (places + more)[j] == more[j - |places|];
      } else {
        assert IsBefore(more[i - |places|], more[j - |places|]);
      }
    }
  }

  lemma HasAllMore(t: Tables, order: seq<Name>, places: seq<Place>, node: Name)
    requires node in t && HasAll(t, order, places, {node})
    ensures HasAll(t, order + [node], places + PlacesOf(|order|, t[node]), {})
  {
    PlacesAre(|order|, t[node]);
    hide PlacesOf;
    forall at, b | Leads(t, order + [node], at, b) && b !in order + [node]
      ensures at in places + PlacesOf(|order|, t[node])
    {
      if at.owner < |order| {
        LeadsMore(t, order, node, at, b);
      } else {
        assert at == Place(|order|, at.port);
      }
    }
  }

  /** Taking a node: pending are those from before and those at its ports. */
  lemma TakeKeeps(t: Tables, order: seq<Name>, remaining: seq<Name>, places: seq<Place>, node: Name)
    requires node in t && AllLead(t, order, remaining, places) && AreOrdered(places)
    requires HasAll(t, order, places, {node})
    ensures IsPending(t, order + [node], remaining + Neighbors(t[node]), places + PlacesOf(|order|, t[node]))
  {
    AllLeadMore(t, order, remaining, places, node);
    OrderedMore(t, order, remaining, places, t[node]);
    HasAllMore(t, order, places, node);
    hide AllLead, AreOrdered, HasAll, PlacesOf, Neighbors;
  }

  lemma OneMore(t: Tables, order: seq<Name>, node: Name)
    requires IsDepthFirst(t, order) && (order == [] || IsNext(t, order, node))
    ensures IsDepthFirst(t, order + [node])
  {
    forall k | 0 < k < |order + [node]| ensures IsNext(t, (order + [node])[..k], (order + [node])[k]) {
      assert (order + [node])[..k] == order[..k];
      if k == |order| { assert order[..k] == order; }
    }
  }

  class ConnectedNodeIter {
    const root: Name
    const tables: Tables
    var occurred: set<Name>
    var remaining: seq<Name>
    ghost var order: seq<Name>
    ghost var places: seq<Place>

    constructor (root: Name, tables: Tables)
      ensures this.root == root && this.tables == tables && occurred == {} && remaining == []
      ensures order == [] && places == []
    {
      this.root := root;
      this.tables := tables;
      occurred := {};
      remaining := [];
      order, places := [], [];
    }

    /** `order` is what has been taken so far, depth first,
        and `places` is where the pending nodes were found. */
    ghost predicate Valid()
      reads this
    {
      IsClosed(tables) && root in occurred && Explores(tables, root, occurred, remaining) && InOrder()
    }

    ghost predicate InOrder()
      reads this
    {
      && order != [] && order[0] == root && (forall n :: n in order <==> n in occurred)
      && IsDepthFirst(tables, order) && IsPending(tables, order, remaining, places)
    }

    method TakeNode(node: Name)
      requires node in tables
      modifies this
      ensures occurred == old(occurred) + {node}
      ensures remaining == old(remaining) + Neighbors(tables[node])
      ensures order == old(order) + [node] && places == old(places) + PlacesOf(|old(order)|, tables[node])
    {
      order, places := order + [node], places + PlacesOf(|order|, tables[node]);
      occurred := occurred + {node};
      var ports := tables[node];
      assert ports[..0] == [];
      for i := 0 to |ports|
        invariant occurred == old(occurred) + {node}
        invariant remaining == old(remaining) + Neighbors(ports[..i])
        invariant order == old(order) + [node] && places == old(places) + PlacesOf(|old(order)|, tables[node])
      {
        assert ports[..i + 1][..i] == ports[..i];
        if ports[i].Some? {
          remaining := remaining + [ports[i].value];
        }
      }
      assert ports[..|ports|] == ports;
    }

    method First() returns (node: Name)
      requires occurred == {} && remaining == [] && root in tables && IsClosed(tables)
      requires order == [] && places == []
      modifies this
      ensures Valid() && node == root && occurred == {root} && order == [root]
    {
      hide IsPending, IsDepthFirst, Explores;
      TakeKeeps(tables, [], [], [], root);
      OneMore(tables, [], root);
      TakeNode(root);
      assert InOrder();
      ReachableSelf(tables, root);
      ExploresMore(tables, root, {}, [], root);
      assert {} + {root} == {root} && [] + Neighbors(tables[root]) == Neighbors(tables[root]);
      node := root;
    }

    /** Pops pending nodes until one has not occurred yet. */
    method Next() returns (node: Option<Name>)
      requires Valid()
      modifies this
      ensures Valid()
      ensures node.None? ==> remaining == [] && occurred == old(occurred) && order == old(order)
      ensures node.Some? ==> node.value !in old(occurred) && occurred == old(occurred) + {node.value}
      ensures node.Some? ==> IsNext(tables, old(order), node.value) && order == old(order) + [node.value]
      decreases |remaining|
    {
      hide IsPending, IsDepthFirst, IsNext, Explores;
      if remaining == [] {
        return None;
      }
      var last := |remaining| - 1;
      var next := remaining[last];
      if next in occurred {
        ExploresLess(tables, root, occurred, remaining);
        DropTaken(tables, order, remaining, places);
        remaining, places := remaining[..last], places[..last];
        node := Next();
        return;
      }
      TakePending(next);
      node := Some(next);
    }

    method TakePending(next: Name)
      requires Valid() && remaining != [] && next == remaining[|remaining| - 1] && next !in occurred
      modifies this
      ensures Valid() && occurred == old(occurred) + {next}
      ensures IsNext(tables, old(order), next) && order == old(order) + [next]
    {
      hide IsPending, IsDepthFirst, IsNext, AllLead, AreOrdered, HasAll, Explores, PlacesOf, Neighbors;
      var last := |remaining| - 1;
      LastHasTable(tables, root, occurred, remaining);
      LastIsNext(tables, order, remaining, places);
      DropLast(tables, order, remaining, places);
      TakeKeeps(tables, order, remaining[..last], places[..last], next);
      OneMore(tables, order, next);
      remaining, places := remaining[..last], places[..last];
      ExploresMore(tables, root, occurred, remaining, next);
      TakeNode(next);
    }
  }

  lemma ReachableInTables(t: Tables, a: Name, b: Name)
    requires IsClosed(t) && a in t && Reachable(t, a, b)
    ensures b in t
  {
    var path :| IsPath(t, path) && path[0] == a && path[|path| - 1] == b;
    if |path| > 1 { assert IsEdge(t, path[|path| - 2], path[|path| - 1]); }
  }

  /** The array has each node that can be reached from the root exactly once, and nothing
      else, however the net is connected; from the root on they come depth first, the last port
      of a node before the others. */
  method ConnectedNodeArray(root: Name, tables: Tables) returns (nodes: seq<Name>)
    requires root in tables && IsClosed(tables)
    ensures forall n :: n in nodes <==> Reachable(tables, root, n)
    ensures forall i, j :: 0 <= i < j < |nodes| ==> nodes[i] != nodes[j]
    ensures nodes != [] && nodes[0] == root && IsDepthFirst(tables, nodes)
  {
    hide IsDepthFirst, IsPending, Leads, NoneAfter;
    var iter := new ConnectedNodeIter(root, tables);
    var first := iter.First();
    var node := Some(first);
    nodes := [];
    while node.Some?
      invariant iter.Valid() && fresh(iter) && iter.root == root && iter.tables == tables
      invariant iter.occurred == (set n | n in nodes) + if node.Some? then {node.value} else {}
      invariant node.Some? ==> node.value !in nodes
      invariant node.None? ==> iter.remaining == []
      invariant iter.order == nodes + if node.Some? then [node.value] else []
      invariant forall i, j :: 0 <= i < j < |nodes| ==> nodes[i] != nodes[j]
      decreases tables.Keys - iter.occurred, node.Some?
    {
      nodes := nodes + [node.value];
      node := iter.Next();
    }
    assert iter.order == nodes;
    forall n | Reachable(tables, root, n) ensures n in nodes {
      var path :| IsPath(tables, path) && path[0] == root && path[|path| - 1] == n;
      ReachedInside(tables, iter.occurred, path);
    }
  }
}
