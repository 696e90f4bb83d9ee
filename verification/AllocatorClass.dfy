/** The caching node allocator as objects updated in place, by one thread. */
module AllocatorClass {
  import opened Values

  class ThreadStack {
    var items: seq<nat>

    constructor ()
      ensures items == []
    {
      items := [];
    }
  }

  function Given(node: Option<nat>): multiset<nat> {
    if node.Some? then multiset{node.value} else multiset{}
  }

  class NodeAllocator {
    const cacheSize: nat
    const batchSize: nat
    var stack: seq<nat>
    var nodeCount: nat
    var nodes: seq<nat>

    constructor (cacheSize: nat, batchSize: nat)
      requires cacheSize >= 1 && batchSize >= 1
      ensures this.cacheSize == cacheSize && this.batchSize == batchSize && Valid()
      ensures nodeCount == batchSize && multiset(stack) == multiset(nodes)
    {
      this.cacheSize := cacheSize;
      this.batchSize := batchSize;
      stack := [];
      nodeCount := 0;
      nodes := [];
      new;
      PrepareOneBatch();
    }

    /** Nodes are numbered from one, without gaps. */
    predicate Valid()
      reads this
    {
      && cacheSize >= 1 && batchSize >= 1 && |nodes| == nodeCount
      && forall i :: 0 <= i < |nodes| ==> nodes[i] == i + 1
    }

    method PrepareOneBatch()
      requires Valid()
      modifies this`stack, this`nodeCount, this`nodes
      ensures Valid() && nodeCount == old(nodeCount) + batchSize && stack != []
      ensures old(nodes) <= nodes && stack == old(stack) + nodes[old(nodeCount)..]
    {
      assert nodes[old(nodeCount)..] == [];
      for i := 0 to batchSize
        invariant Valid() && nodeCount == old(nodeCount) + i && old(nodes) <= nodes
        invariant stack == old(stack) + nodes[old(nodeCount)..]
      {
        nodeCount := nodeCount + 1;
        ghost var made := nodes[old(nodeCount)..];
        stack := stack + [nodeCount];
        nodes := nodes + [nodeCount];
        assert nodes[old(nodeCount)..] == made + [nodeCount];
      }
    }

    /** Fills the thread's empty stack. */
    method Fill(thread: ThreadStack)
      requires thread.items == []
      modifies this`stack, thread
      ensures var k := |old(stack)| - Share(cacheSize, |old(stack)|);
              stack == old(stack)[..k] && thread.items == Reversed(old(stack)[k..])
    {
      hide Reversed;
      ghost var n := |stack|;
      assert stack[n..] == [];
      ReversedFirst(stack, n);
      for i := 0 to cacheSize
        invariant i <= n && stack == old(stack)[..n - i] && thread.items == Reversed(old(stack)[n - i..])
      {
        if stack == [] { break; }
        var top := |stack| - 1;
        ReversedFirst(old(stack), top);
        thread.items, stack := thread.items + [stack[top]], stack[..top];
      }
    }

    /** From the top of the thread's own stack, which is filled first if it is empty. */
    method MaybeAllocate(thread: ThreadStack) returns (node: Option<nat>)
      modifies this`stack, thread
      ensures Takes(cacheSize, old(stack), old(thread.items), stack, thread.items, node)
      ensures multiset(stack) + multiset(thread.items) + Given(node)
              == multiset(old(stack)) + multiset(old(thread.items))
      ensures node.None? <==> old(thread.items) == [] && (old(stack) == [] || cacheSize == 0)
    {
      hide Reversed;
      if thread.items == [] { Fill(thread); }
      if thread.items == [] {
        node := None;
      } else {
        var top := |thread.items| - 1;
        assert thread.items == thread.items[..top] + [thread.items[top]];
        node := Some(thread.items[top]);
        thread.items := thread.items[..top];
      }
      TakesConserves(cacheSize, old(stack), old(thread.items), stack, thread.items, node);
    }

    /** Makes a batch of new nodes when both stacks are empty; one batch is enough. */
    method Allocate(thread: ThreadStack) returns (node: nat)
      requires Valid()
      modifies this`stack, this`nodeCount, this`nodes, thread
      ensures Valid() && old(nodes) <= nodes
      ensures nodeCount == old(nodeCount) + if old(stack) == [] && old(thread.items) == [] then batchSize else 0
      ensures Takes(cacheSize, old(stack) + nodes[old(nodeCount)..], old(thread.items), stack, thread.items, Some(node))
      ensures multiset(stack) + multiset(thread.items) + multiset{node}
           == multiset(old(stack)) + multiset(old(thread.items)) + multiset(nodes[old(nodeCount)..])
    {
      hide Takes;
      assert nodes[old(nodeCount)..] == [] && old(stack) + [] == old(stack);
      var found := MaybeAllocate(thread);
      if found.None? {
        NothingTaken(cacheSize, old(stack), old(thread.items), stack, thread.items);
        PrepareOneBatch();
        assert [] + nodes[old(nodeCount)..] == nodes[old(nodeCount)..];
        found := MaybeAllocate(thread);
      }
      node := found.value;
    }

    /** Puts a node on the thread's own stack, and a batch of that on the shared stack when
        it holds twice a batch. */
    method Recycle(thread: ThreadStack, node: nat)
      requires Valid() && |thread.items| <= 2 * cacheSize
      modifies this`stack, thread
      ensures Valid() && |thread.items| <= 2 * cacheSize
      ensures multiset(stack) + multiset(thread.items)
              == multiset(old(stack)) + multiset(old(thread.items)) + multiset{node}
      ensures Gives(cacheSize, old(stack), old(thread.items), stack, thread.items, node)
    {
      hide Reversed;
      if |thread.items| >= 2 * cacheSize { Drain(thread); }
      thread.items := thread.items + [node];
      GivesConserves(cacheSize, old(stack), old(thread.items), stack, thread.items, node);
    }

    /** Moves one cache from the top of the thread's stack to the shared one. */
    method Drain(thread: ThreadStack)
      requires |thread.items| >= cacheSize
      modifies this`stack, thread
      ensures var k := |old(thread.items)| - cacheSize;
              thread.items == old(thread.items)[..k] && stack == old(stack) + Reversed(old(thread.items)[k..])
    {
      hide Reversed;
      ghost var n := |thread.items|;
      ReversedFirst(thread.items, n);
      for i := 0 to cacheSize
        invariant thread.items == old(thread.items)[..n - i]
        invariant stack == old(stack) + Reversed(old(thread.items)[n - i..])
      {
        var top := |thread.items| - 1;
        ReversedFirst(old(thread.items), top);
        stack, thread.items := stack + [thread.items[top]], thread.items[..top];
      }
    }
  }

  /** The node comes on top of the thread's own stack; if that held two caches, the upper one
      first goes to the shared stack, the top node first. */
  predicate Gives(cacheSize: nat, shared: seq<nat>, own: seq<nat>, shared': seq<nat>, own': seq<nat>, node: nat) {
    var k := if |own| < 2 * cacheSize then |own| else |own| - cacheSize;
    k >= 0 && own' == own[..k] + [node] && shared' == shared + Reversed(own[k..])
  }

  lemma GivesConserves(cacheSize: nat, shared: seq<nat>, own: seq<nat>, shared': seq<nat>, own': seq<nat>, node: nat)
    requires Gives(cacheSize, shared, own, shared', own', node)
    ensures multiset(shared') + multiset(own') == multiset(shared) + multiset(own) + multiset{node}
  {
    hide Reversed;
    var k := if |own| < 2 * cacheSize then |own| else |own| - cacheSize;
    ReversedSame(own[k..]);
    assert own == own[..k] + own[k..];
  }

  /** How many nodes a thread with an empty stack gets from `available` ones: a whole cache, or
      all there are. */
  function Share(cacheSize: nat, available: nat): (n: nat)
    ensures n <= available
  {
    if available < cacheSize then available else cacheSize
  }

  /** A node is taken from the top of the thread's own stack; if that is empty, it first gets its
      share from the top of the shared stack, the top one first. */
  predicate Takes(cacheSize: nat, shared: seq<nat>, own: seq<nat>, shared': seq<nat>, own': seq<nat>,
          node: Option<nat>)
  {
    var k := if own != [] then |shared| else |shared| - Share(cacheSize, |shared|);
    var all := if own != [] then own else Reversed(shared[k..]);
    shared' == shared[..k] && if node.Some? then own' + [node.value] == all else own' == [] == all
  }

  lemma TakesConserves(cacheSize: nat, shared: seq<nat>, own: seq<nat>, shared': seq<nat>, own': seq<nat>,
          node: Option<nat>)
    requires Takes(cacheSize, shared, own, shared', own', node)
    ensures multiset(shared') + multiset(own') + Given(node) == multiset(shared) + multiset(own)
    ensures node.None? <==> own == [] && (shared == [] || cacheSize == 0)
  {
    hide Reversed;
    var k := if own != [] then |shared| else |shared| - Share(cacheSize, |shared|);
    ReversedSame(shared[k..]);
    assert shared == shared[..k] + shared[k..];
    if node.Some? { assert multiset(own' + [node.value]) == multiset(own') + Given(node); }
  }

  lemma NothingTaken(cacheSize: nat, shared: seq<nat>, own: seq<nat>, shared': seq<nat>, own': seq<nat>)
    requires Takes(cacheSize, shared, own, shared', own', None) && cacheSize >= 1
    ensures shared == [] && own == [] && shared' == [] && own' == []
  {
    TakesConserves(cacheSize, shared, own, shared', own', None);
  }

  function Reversed(s: seq<nat>): (r: seq<nat>)
    ensures |r| == |s|
  {
    if s == [] then [] else Reversed(s[1..]) + [s[0]]
  }

  lemma ReversedFirst(s: seq<nat>, i: nat)
    requires i <= |s|
    ensures Reversed(s[i..]) == if i < |s| then Reversed(s[i + 1..]) + [s[i]] else []
  {
    if i < |s| { assert s[i..][1..] == s[i + 1..]; }
  }

  lemma {:induction false} ReversedSame(s: seq<nat>)
    ensures multiset(Reversed(s)) == multiset(s)
  {
    if s != [] {
      ReversedSame(s[1..]);
      assert s == [s[0]] + s[1..];
    }
  }
}
