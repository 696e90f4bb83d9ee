/** The wires of the program as an object that is updated in place: the two mutually
    recursive operations that join ends, and the loop that reads through fuzed wires. */
module WireStore {
  import opened Values
  import Wires

  function MetPair(o: Wires.Outcome): Option<Pair> {
    if o.Met? then Some(Pair(o.left, o.right)) else None
  }

  /** The wires of the program, with the two mutually recursive operations on them and the
      reading loop. */
  class Store {
    var heap: Wires.Heap

    constructor ()
      ensures heap == Wires.Heap({}, map[], map[])
    {
      heap := Wires.Heap({}, map[], map[]);
    }

    method Fuze(wire: Name, value: Value) returns (met: Option<Pair>)
      modifies this
      ensures var o := Wires.Fuze(old(heap), wire, value);
              if o.Again? then
                && heap == Wires.Connect(o.heap, o.left, o.right).heap
                && met == MetPair(Wires.Connect(o.heap, o.left, o.right))
              else heap == o.heap && met == None
      decreases heap.fuzed.Keys, 0
    {
      if wire !in heap.fuzed {
        heap := heap.(fuzed := heap.fuzed[wire := value]);
        met := None;
      } else {
        var expected := heap.fuzed[wire];
        heap := heap.(live := heap.live - {wire}, fuzed := heap.fuzed - {wire});
        met := Connect(expected, value);
      }
    }

    method Connect(left: Value, right: Value) returns (met: Option<Pair>)
      modifies this
      ensures heap == Wires.Connect(old(heap), left, right).heap
      ensures met == MetPair(Wires.Connect(old(heap), left, right))
      decreases heap.fuzed.Keys, 1
    {
      if left.Wire? {
        met := Fuze(left.id, right);
      } else if right.Wire? {
        met := Fuze(right.id, left);
      } else {
        heap := heap.(oppsite := heap.oppsite[left := right][right := left]);
        met := Some(Pair(left, right));
      }
    }

    /** The loop ends because no wire of a chain that starts at an outstanding end is
        passed twice. */
    method Walk(v: Value, ghost held: multiset<Value>) returns (value: Value)
      requires Wires.Affine(heap, held) && held[v] > 0
      ensures value == Wires.Walk(heap.fuzed, v) && Wires.Terminal(heap, value)
    {
      value := v;
      ghost var passed: set<Name> := {};
      assert heap.fuzed - {} == heap.fuzed;
      while value.Wire? && value.id in heap.fuzed
        invariant Wires.Reached(heap, held, passed, value)
        invariant Wires.Walk(heap.fuzed - passed, value) == Wires.Walk(heap.fuzed, v)
        decreases heap.fuzed.Keys - passed
      {
        Wires.ReachedNext(heap, held, passed, value);
        assert heap.fuzed - passed - {value.id} == heap.fuzed - (passed + {value.id});
        passed, value := passed + {value.id}, heap.fuzed[value.id];
      }
      Wires.WalkFrom(heap, held, passed, value);
    }
  }
}
