/** Joining wire ends. A wire has a field that is stored into at most once; the second end
    to arrive finds it full, frees the wire, and carries on with what it found. Each
    `Advance` is one compare-and-swap, so any interleaving of connects is a sequence of
    these steps. */
module Wires {
  import opened Values

  /** The live wires, what is fuzed into them, and the opposite of each non-wire value
      that met another. */
  datatype Heap = Heap(live: set<Name>, fuzed: map<Name, Value>, oppsite: map<Value, Value>)

  datatype Outcome =
    | Joined(heap: Heap)
    | Again(heap: Heap, left: Value, right: Value)
    | Met(heap: Heap, left: Value, right: Value)

  function Fuze(h: Heap, w: Name, v: Value): Outcome {
    if w !in h.fuzed then Joined(h.(fuzed := h.fuzed[w := v]))
    else Again(h.(live := h.live - {w}, fuzed := h.fuzed - {w}), h.fuzed[w], v)
  }

  function Advance(h: Heap, left: Value, right: Value): Outcome {
    if left.Wire? then Fuze(h, left.id, right)
    else if right.Wire? then Fuze(h, right.id, left)
    else Met(h.(oppsite := h.oppsite[left := right][right := left]), left, right)
  }

  // Linear ownership

  /** The wires that hold `v`. */
  function Refs(fuzed: map<Name, Value>, v: Value): set<Name> {
    set w | w in fuzed && fuzed[w] == v
  }

  /** The outstanding ends of `v`: those held outside wires, and those fuzed into wires. */
  function Ends(h: Heap, held: multiset<Value>, v: Value): nat {
    held[v] + |Refs(h.fuzed, v)|
  }

  /** The ends `v` should have outstanding: two for a live wire, one once it is fuzed; one
      for any other value until it meets its opposite. */
  function Capacity(h: Heap, v: Value): nat {
    if v.Wire? then
      if v.id !in h.live then 0 else if v.id in h.fuzed then 1 else 2
    else if v in h.oppsite then 0 else 1
  }

  /** Nothing has more ends than it should. Ends can be lost (a variable never used) but
      never copied. */
  ghost predicate Affine(h: Heap, held: multiset<Value>) {
    && h.fuzed.Keys <= h.live
    && forall v :: Ends(h, held, v) <= Capacity(h, v)
  }

  /** Every wire has exactly the ends it should. */
  ghost predicate Linear(h: Heap, held: multiset<Value>) {
    && h.fuzed.Keys <= h.live
    && forall v: Value :: v.Wire? ==> Ends(h, held, v) == Capacity(h, v)
  }

  function HeldAfter(held: multiset<Value>, left: Value, right: Value, o: Outcome): multiset<Value> {
    held - multiset{left, right} + if o.Again? then multiset{o.left, o.right} else multiset{}
  }

  lemma RefsStore(fuzed: map<Name, Value>, w: Name, x: Value, v: Value)
    requires w !in fuzed
    ensures |Refs(fuzed[w := x], v)| == |Refs(fuzed, v)| + if v == x then 1 else 0
  {
    var more := Refs(fuzed[w := x], v);
    assert more == Refs(fuzed, v) + if v == x then {w} else {};
  }

  lemma RefsFree(fuzed: map<Name, Value>, w: Name, v: Value)
    requires w in fuzed
    ensures |Refs(fuzed - {w}, v)| == |Refs(fuzed, v)| - if v == fuzed[w] then 1 else 0
  {
    assert Refs(fuzed, v) == Refs(fuzed - {w}, v) + if v == fuzed[w] then {w} else {};
  }

  lemma FreeBalances(h: Heap, held: multiset<Value>, w: Name, x: Value, v: Value)
    requires h.fuzed.Keys <= h.live && w in h.fuzed && multiset{Wire(w), x} <= held && Ends(h, held, Wire(w)) <= 1
    ensures var o := Fuze(h, w, x);
            && o.heap.fuzed.Keys <= o.heap.live
            && Capacity(o.heap, v) - Ends(o.heap, HeldAfter(held, Wire(w), x, o), v)
                == Capacity(h, v) - Ends(h, held, v)
  {
    hide Refs;
    RefsFree(h.fuzed, w, v);
  }

  lemma StoreBalances(h: Heap, held: multiset<Value>, w: Name, x: Value, v: Value)
    requires h.fuzed.Keys <= h.live && w in h.live && w !in h.fuzed && multiset{Wire(w), x} <= held
    ensures var o := Fuze(h, w, x);
            && o.heap.fuzed.Keys <= o.heap.live
            && Capacity(o.heap, v) - Ends(o.heap, HeldAfter(held, Wire(w), x, o), v)
                == Capacity(h, v) - Ends(h, held, v)
  {
    hide Refs;
    RefsStore(h.fuzed, w, x, v);
  }

  lemma FuzeBalances(h: Heap, held: multiset<Value>, w: Name, x: Value, v: Value)
    requires h.fuzed.Keys <= h.live && w in h.live && multiset{Wire(w), x} <= held
    requires w in h.fuzed ==> Ends(h, held, Wire(w)) <= 1
    ensures var o := Fuze(h, w, x);
            && o.heap.fuzed.Keys <= o.heap.live
            && Capacity(o.heap, v) - Ends(o.heap, HeldAfter(held, Wire(w), x, o), v)
                == Capacity(h, v) - Ends(h, held, v)
  {
    hide Capacity, Ends, Fuze, HeldAfter;
    if w in h.fuzed { FreeBalances(h, held, w, x, v); } else { StoreBalances(h, held, w, x, v); }
  }

  /** A step takes from each value exactly as many ends as it takes from its capacity:
      every wire is stored into once and freed exactly when its second end arrives. */
  lemma AdvanceBalances(h: Heap, held: multiset<Value>, left: Value, right: Value, v: Value)
    requires Affine(h, held) && multiset{left, right} <= held
    ensures var o := Advance(h, left, right);
            && o.heap.fuzed.Keys <= o.heap.live
            && Capacity(o.heap, v) - Ends(o.heap, HeldAfter(held, left, right, o), v)
                == Capacity(h, v) - Ends(h, held, v)
  {
    hide Refs;
    assert held[left] >= multiset{left, right}[left] && held[right] >= multiset{left, right}[right];
    assert Ends(h, held, left) <= Capacity(h, left);
    assert Ends(h, held, right) <= Capacity(h, right);
    if left.Wire? {
      FuzeBalances(h, held, left.id, right, v);
    } else if right.Wire? {
      assert multiset{left, right} == multiset{right, left};
      FuzeBalances(h, held, right.id, left, v);
    } else {
      MeetBalances(h, held, left, right, v);
    }
    hide Ends, Capacity, Fuze;
  }

  lemma MeetBalances(h: Heap, held: multiset<Value>, left: Value, right: Value, v: Value)
    requires h.fuzed.Keys <= h.live && multiset{left, right} <= held && !left.Wire? && !right.Wire?
    requires Ends(h, held, left) <= Capacity(h, left) && Ends(h, held, right) <= Capacity(h, right)
    ensures var o := Advance(h, left, right);
            && o.heap.fuzed.Keys <= o.heap.live
            && Capacity(o.heap, v) - Ends(o.heap, HeldAfter(held, left, right, o), v)
                == Capacity(h, v) - Ends(h, held, v)
  {
    hide Refs;
    assert held[left] >= multiset{left, right}[left] && held[right] >= multiset{left, right}[right];
  }

  // Reading fuzed wires as transparent

  /** Follows fuzed wires to the far end. A wire is dropped from the map once passed, so
      the function is total; from an outstanding end no wire is ever met twice. */
  function Walk(fuzed: map<Name, Value>, v: Value): Value
    decreases fuzed.Keys
  {
    if v.Wire? && v.id in fuzed then Walk(fuzed - {v.id}, fuzed[v.id]) else v
  }

  /** What the wires mean: which values belong together. Each value is mapped to its class. */
  type Wiring = map<Value, set<Value>>

  ghost predicate IsPartition(c: Wiring) {
    forall v :: v in c ==> v in c[v] && forall u :: u in c[v] ==> u in c && c[u] == c[v]
  }

  function Merge(c: Wiring, left: Value, right: Value): Wiring
    requires left in c && right in c
  {
    map v | v in c :: if v in c[left] + c[right] then c[left] + c[right] else c[v]
  }

  /** What can still be joined: an unfuzed wire, or a value that has not met another. */
  predicate Terminal(h: Heap, v: Value) {
    if v.Wire? then v.id in h.live && v.id !in h.fuzed else v !in h.oppsite
  }

  /** The heap represents the wiring: fuzed wires stay inside their class, a class has at
      most one terminal, and a class where two values met has those two and no terminal. */
  ghost predicate Represents(h: Heap, c: Wiring) {
    && IsPartition(c)
    && (forall w :: w in h.live ==> Wire(w) in c)
    && (forall w :: w in h.fuzed ==> h.fuzed[w] in c && Wire(w) in c && c[h.fuzed[w]] == c[Wire(w)])
    && (forall u, v :: u in c && v in c && Terminal(h, u) && Terminal(h, v) && c[u] == c[v] ==> u == v)
    && PairsApart(h, c)
  }

  ghost predicate Paired(h: Heap, c: Wiring, u: Value, v: Value) {
    !u.Wire? && u != v && u in c && v in c && c[u] == c[v] && v in h.oppsite && h.oppsite[v] == u
  }

  ghost predicate PairsApart(h: Heap, c: Wiring) {
    && (forall u :: u in h.oppsite ==> Paired(h, c, u, h.oppsite[u]))
    && (forall u, v :: u in h.oppsite && u in c && v in c && Terminal(h, v) ==> c[u] != c[v])
    && (forall u, v :: u in h.oppsite && v in h.oppsite && u in c && v in c && c[u] == c[v] ==>
          u == v || h.oppsite[u] == v)
  }

  /** `v` is an outstanding end, or sits in one of the wires already passed. */
  ghost predicate Reached(h: Heap, held: multiset<Value>, passed: set<Name>, v: Value) {
    && passed <= h.fuzed.Keys
    && (held[v] > 0 || exists p :: p in passed && h.fuzed[p] == v)
    && (v.Wire? ==> v.id !in passed)
    && (forall p, w :: p in passed && w in h.fuzed && w !in passed ==> h.fuzed[w] != Wire(p))
  }

  lemma TwoRefs(fuzed: map<Name, Value>, p: Name, q: Name, v: Value)
    requires p in fuzed && q in fuzed && p != q && fuzed[p] == v && fuzed[q] == v
    ensures |Refs(fuzed, v)| >= 2
  {
    var rest := Refs(fuzed, v) - {p};
    assert q in rest && Refs(fuzed, v) == rest + {p};
  }

  lemma OneRef(fuzed: map<Name, Value>, p: Name, v: Value)
    requires p in fuzed && fuzed[p] == v
    ensures |Refs(fuzed, v)| >= 1
  {
    assert p in Refs(fuzed, v);
  }

  /** Passing one more wire of the chain. */
  lemma ReachedNext(h: Heap, held: multiset<Value>, passed: set<Name>, v: Value)
    requires Affine(h, held) && Reached(h, held, passed, v) && v.Wire? && v.id in h.fuzed
    ensures Reached(h, held, passed + {v.id}, h.fuzed[v.id])
  {
    hide Refs;
    assert Ends(h, held, v) <= Capacity(h, v) == 1;
    forall w | w in h.fuzed && w !in passed ensures h.fuzed[w] != v {
      if h.fuzed[w] == v {
        OneRef(h.fuzed, w, v);
        if held[v] == 0 {
          var p :| p in passed && h.fuzed[p] == v;
          TwoRefs(h.fuzed, p, w, v);
        }
      }
    }
  }

  lemma {:induction false} WalkFrom(h: Heap, held: multiset<Value>, passed: set<Name>, v: Value)
    requires Affine(h, held) && Reached(h, held, passed, v)
    ensures Terminal(h, Walk(h.fuzed - passed, v))
    decreases h.fuzed.Keys - passed
  {
    hide Refs;
    if v.Wire? && v.id in h.fuzed {
      ReachedNext(h, held, passed, v);
      assert h.fuzed - passed - {v.id} == h.fuzed - (passed + {v.id});
      WalkFrom(h, held, passed + {v.id}, h.fuzed[v.id]);
    } else {
      assert Ends(h, held, v) <= Capacity(h, v);
      if held[v] == 0 {
        var p :| p in passed && h.fuzed[p] == v;
        OneRef(h.fuzed, p, v);
      }
    }
  }

  /** From an outstanding end, walking stays in its class and arrives at its terminal. */
  lemma WalkArrives(h: Heap, held: multiset<Value>, c: Wiring, v: Value)
    requires Affine(h, held) && Represents(h, c) && held[v] > 0 && v in c
    ensures var t := Walk(h.fuzed, v); Terminal(h, t) && t in c && c[t] == c[v]
  {
    assert h.fuzed - {} == h.fuzed;
    WalkFrom(h, held, {}, v);
    WalkInClass(h.fuzed, c, v);
  }

  lemma {:induction false} WalkInClass(fuzed: map<Name, Value>, c: Wiring, v: Value)
    requires forall w :: w in fuzed ==> fuzed[w] in c && Wire(w) in c && c[fuzed[w]] == c[Wire(w)]
    requires v in c
    ensures var t := Walk(fuzed, v); t in c && c[t] == c[v]
    decreases fuzed.Keys
  {
    if v.Wire? && v.id in fuzed { WalkInClass(fuzed - {v.id}, c, fuzed[v.id]); }
  }

  // Merging classes

  /** Merges can be done in any order. */
  lemma MergeCommutes(c: Wiring, a: Value, b: Value, x: Value, y: Value)
    requires IsPartition(c) && a in c && b in c && x in c && y in c
    ensures Merge(Merge(c, a, b), x, y) == Merge(Merge(c, x, y), a, b)
  {
    var p, q := Merge(Merge(c, a, b), x, y), Merge(Merge(c, x, y), a, b);
    forall v | v in c ensures p[v] == q[v] { }
  }

  /** Merge relates `c'` to `c` on the values of `c`. */
  ghost predicate Joins(c: Wiring, c': Wiring, left: Value, right: Value) {
    && left in c && right in c && c'.Keys == c.Keys && IsPartition(c')
    && forall u, v :: u in c && v in c ==>
         (c'[u] == c'[v] <==>
           c[u] == c[v] || (c[u] == c[left] && c[v] == c[right]) || (c[u] == c[right] && c[v] == c[left]))
  }

  lemma MergeJoins(c: Wiring, left: Value, right: Value)
    requires IsPartition(c) && left in c && right in c
    ensures Joins(c, Merge(c, left, right), left, right)
  {
    forall u, v | u in c && v in c
      ensures Merge(c, left, right)[u] == Merge(c, left, right)[v] <==>
        c[u] == c[v] || (c[u] == c[left] && c[v] == c[right]) || (c[u] == c[right] && c[v] == c[left])
    {
    }
  }

  // One step keeps the representation

  /** What a merge at an unfuzed wire `w` does to a class: nothing, unless it is `w`'s or `x`'s. */
  lemma StoreTerminals(h: Heap, c: Wiring, c': Wiring, w: Name, x: Value)
    requires Represents(h, c) && Joins(c, c', Wire(w), x) && w in h.live && w !in h.fuzed
    ensures var h' := h.(fuzed := h.fuzed[w := x]);
            forall u, v :: u in c' && v in c' && Terminal(h', u) && Terminal(h', v) && c'[u] == c'[v] ==> u == v
  {
    hide IsPartition, PairsApart;
    assert Terminal(h, Wire(w));
  }

  /** A merge of two classes that have a terminal each leaves the met pairs alone. */
  lemma PairsUnmoved(h: Heap, c: Wiring, c': Wiring, left: Value, right: Value, u: Value, v: Value)
    requires Represents(h, c) && Joins(c, c', left, right) && u in h.oppsite && v in c
    requires exists s, t :: s in c && t in c && Terminal(h, s) && Terminal(h, t) && c[s] == c[left] && c[t] == c[right]
    ensures u in c && (c'[u] == c'[v] <==> c[u] == c[v])
  {
    hide IsPartition;
    assert Paired(h, c, u, h.oppsite[u]);
    var s, t :| s in c && t in c && Terminal(h, s) && Terminal(h, t) && c[s] == c[left] && c[t] == c[right];
    assert c[u] != c[s] && c[u] != c[t];
  }

  ghost predicate Unmoved(h: Heap, c: Wiring, c': Wiring) {
    && c'.Keys == c.Keys
    && forall u, v :: u in h.oppsite && u in c && v in c ==> (c'[u] == c'[v] <==> c[u] == c[v])
  }

  lemma MergeUnmoved(h: Heap, c: Wiring, c': Wiring, left: Value, right: Value, s: Value, t: Value)
    requires Represents(h, c) && Joins(c, c', left, right) && left in c && right in c && c'.Keys == c.Keys
    requires s in c && t in c && Terminal(h, s) && Terminal(h, t) && c[s] == c[left] && c[t] == c[right]
    ensures Unmoved(h, c, c')
  {
    hide Represents, Joins, Terminal;
    forall u, v | u in h.oppsite && u in c && v in c ensures c'[u] == c'[v] <==> c[u] == c[v] {
      PairsUnmoved(h, c, c', left, right, u, v);
    }
  }

  lemma PairsKept(h: Heap, c: Wiring, h': Heap, c': Wiring)
    requires PairsApart(h, c) && Unmoved(h, c, c') && h'.oppsite == h.oppsite
    requires forall v :: Terminal(h', v) ==> Terminal(h, v)
    ensures PairsApart(h', c')
  {
  }

  lemma FuzeRepresents(h: Heap, held: multiset<Value>, c: Wiring, w: Name, x: Value)
    requires Affine(h, held) && Represents(h, c)
    requires w in h.live && w !in h.fuzed && held[x] > 0 && x in c
    ensures Represents(h.(fuzed := h.fuzed[w := x]), Merge(c, Wire(w), x))
  {
    hide Affine, Merge, IsPartition, Walk, PairsApart, Terminal, Joins, Unmoved;
    WalkArrives(h, held, c, x);
    MergeJoins(c, Wire(w), x);
    StoreTerminals(h, c, Merge(c, Wire(w), x), w, x);
    StoreKeepsTerminals(h, w, x);
    MergeUnmoved(h, c, Merge(c, Wire(w), x), Wire(w), x, Wire(w), Walk(h.fuzed, x));
    PairsKept(h, c, h.(fuzed := h.fuzed[w := x]), Merge(c, Wire(w), x));
  }

  lemma StoreKeepsTerminals(h: Heap, w: Name, x: Value)
    ensures w in h.live && w !in h.fuzed ==> Terminal(h, Wire(w))
    ensures forall v :: Terminal(h.(fuzed := h.fuzed[w := x]), v) ==> Terminal(h, v)
  {
  }

  lemma FreeRepresents(h: Heap, c: Wiring, w: Name)
    requires Represents(h, c) && w in h.fuzed
    ensures Represents(h.(live := h.live - {w}, fuzed := h.fuzed - {w}), c)
  {
    hide IsPartition, PairsApart;
    var h' := h.(live := h.live - {w}, fuzed := h.fuzed - {w});
    assert forall v :: Terminal(h', v) ==> Terminal(h, v);
    PairsKept(h, c, h', c);
  }

  lemma MeetPaired(h: Heap, c: Wiring, c': Wiring, left: Value, right: Value)
    requires (forall u :: u in h.oppsite ==> Paired(h, c, u, h.oppsite[u])) && Unmoved(h, c, c')
    requires left in c && right in c && left != right && !left.Wire? && !right.Wire?
    requires left !in h.oppsite && right !in h.oppsite && c'[left] == c'[right] && c'.Keys == c.Keys
    ensures var h' := h.(oppsite := h.oppsite[left := right][right := left]);
            forall u :: u in h'.oppsite ==> Paired(h', c', u, h'.oppsite[u])
  {
  }

  lemma MeetPairs(h: Heap, c: Wiring, c': Wiring, left: Value, right: Value)
    requires PairsApart(h, c) && Unmoved(h, c, c') && left in c && right in c && left != right
    requires !left.Wire? && !right.Wire? && Terminal(h, left) && Terminal(h, right)
    requires c'[left] == c'[right]
    requires forall v :: v in c && Terminal(h, v) && c'[v] == c'[left] ==> v == left || v == right
    ensures PairsApart(h.(oppsite := h.oppsite[left := right][right := left]), c')
  {
    MeetPaired(h, c, c', left, right);
    hide Terminal, Paired;
  }

  lemma MeetRepresents(h: Heap, c: Wiring, left: Value, right: Value)
    requires Represents(h, c) && left in c && right in c && left != right
    requires !left.Wire? && !right.Wire? && Terminal(h, left) && Terminal(h, right)
    ensures Represents(h.(oppsite := h.oppsite[left := right][right := left]), Merge(c, left, right))
  {
    hide Merge, IsPartition, PairsApart, Unmoved;
    var h', c' := h.(oppsite := h.oppsite[left := right][right := left]), Merge(c, left, right);
    MergeJoins(c, left, right);
    MergeUnmoved(h, c, c', left, right, left, right);
    forall v | v in c && Terminal(h, v) && c'[v] == c'[left] ensures v == left || v == right { }
    MeetPairs(h, c, c', left, right);
    forall u, v | u in c && v in c && Terminal(h', u) && Terminal(h', v) && c'[u] == c'[v] ensures u == v {
      assert Terminal(h, u) && u != left && u != right && Terminal(h, v) && v != left && v != right;
    }
    hide Terminal, Joins;
  }

  /** Everything that holds between two steps of any number of workers. `held` are the ends
      outside wires, wherever they are: in ports, on stacks, or on their way into a connect. */
  ghost predicate Valid(h: Heap, held: multiset<Value>, c: Wiring) {
    && Affine(h, held) && Represents(h, c)
    && forall v :: held[v] > 0 ==> v in c
  }

  lemma AdvanceAffine(h: Heap, held: multiset<Value>, left: Value, right: Value)
    requires Affine(h, held) && multiset{left, right} <= held
    ensures var o := Advance(h, left, right); Affine(o.heap, HeldAfter(held, left, right, o))
  {
    hide Ends, Capacity, Fuze;
    var o := Advance(h, left, right);
    AdvanceBalances(h, held, left, right, left);
    forall v ensures Ends(o.heap, HeldAfter(held, left, right, o), v) <= Capacity(o.heap, v) {
      AdvanceBalances(h, held, left, right, v);
      assert Ends(h, held, v) <= Capacity(h, v);
    }
  }

  /** What is held can be found: a wire is live, any other value has not met yet, and it
      is held only once. */
  lemma HeldIsThere(h: Heap, held: multiset<Value>, v: Value)
    requires Affine(h, held) && held[v] > 0
    ensures if v.Wire? then v.id in h.live else Terminal(h, v) && held[v] == 1
  {
    assert Ends(h, held, v) <= Capacity(h, v);
  }

  lemma FuzeReads(h: Heap, held: multiset<Value>, c: Wiring, w: Name, x: Value)
    requires Valid(h, held, c) && held[Wire(w)] > 0 && held[x] > 0
    ensures match Fuze(h, w, x)
            case Again(h', l, r) => Represents(h', c) && l in c && c[l] == c[Wire(w)] && h'.live < h.live
            case Joined(h') => Represents(h', Merge(c, Wire(w), x))
            case _ => true
  {
    hide IsPartition, PairsApart, Affine, Terminal, Merge;
    HeldIsThere(h, held, Wire(w));
    if w in h.fuzed {
      FreeRepresents(h, c, w);
    } else {
      FuzeRepresents(h, held, c, w, x);
    }
  }

  lemma AdvanceReads(h: Heap, held: multiset<Value>, c: Wiring, left: Value, right: Value)
    requires Valid(h, held, c) && multiset{left, right} <= held
    ensures left in c && right in c
    ensures match Advance(h, left, right)
            case Again(h', l, r) =>
              && Represents(h', c) && l in c && r in c && h'.live < h.live
              && ((c[l] == c[left] && c[r] == c[right]) || (c[l] == c[right] && c[r] == c[left]))
            case Joined(h') => Represents(h', Merge(c, left, right))
            case Met(h', _, _) => Represents(h', Merge(c, left, right))
  {
    hide Represents, Affine, Terminal;
    assert held[left] >= multiset{left, right}[left] && held[right] >= multiset{left, right}[right];
    if left.Wire? {
      FuzeReads(h, held, c, left.id, right);
    } else if right.Wire? {
      FuzeReads(h, held, c, right.id, left);
      assert Merge(c, left, right) == Merge(c, right, left) by {
        assert c[left] + c[right] == c[right] + c[left];
      }
    } else {
      HeldIsThere(h, held, left);
      HeldIsThere(h, held, right);
      MeetRepresents(h, c, left, right);
    }
  }

  /** One compare-and-swap of a connect: it frees or stores, and it merges the two classes
      exactly when it is the last of its connect; until then the pair in hand changes but
      stays in the same two classes. */
  lemma AdvanceValid(h: Heap, held: multiset<Value>, c: Wiring, left: Value, right: Value)
    requires Valid(h, held, c) && multiset{left, right} <= held
    ensures left in c && right in c
    ensures match Advance(h, left, right)
            case Again(h', l, r) =>
              && Valid(h', held - multiset{left, right} + multiset{l, r}, c)
              && l in c && r in c && h'.live < h.live
              && ((c[l] == c[left] && c[r] == c[right]) || (c[l] == c[right] && c[r] == c[left]))
            case Joined(h') => Valid(h', held - multiset{left, right}, Merge(c, left, right))
            case Met(h', _, _) => Valid(h', held - multiset{left, right}, Merge(c, left, right))
  {
    AdvanceReads(h, held, c, left, right);
    AdvanceAffine(h, held, left, right);
    hide Represents, Affine, Advance;
    var o := Advance(h, left, right);
    if o.Again? {
    } else {
      assert HeldAfter(held, left, right, o) == held - multiset{left, right};
      assert held - multiset{left, right} == held - multiset{left, right} + multiset{};
      MergeKept(c, left, right);
    }
  }

  /** With linear holders the count is exact, and one step keeps it exact. */
  lemma AdvanceLinear(h: Heap, held: multiset<Value>, left: Value, right: Value)
    requires Affine(h, held) && Linear(h, held) && multiset{left, right} <= held
    ensures var o := Advance(h, left, right); Linear(o.heap, HeldAfter(held, left, right, o))
  {
    hide Ends, Capacity, Fuze;
    var o := Advance(h, left, right);
    AdvanceBalances(h, held, left, right, left);
    forall v: Value | v.Wire?
      ensures Ends(o.heap, HeldAfter(held, left, right, o), v) == Capacity(o.heap, v)
    {
      AdvanceBalances(h, held, left, right, v);
      assert Ends(h, held, v) == Capacity(h, v);
    }
  }

  function BirthEnds(v: Value): multiset<Value> {
    if v.Wire? then multiset{v, v} else multiset{v}
  }

  function BirthHeap(h: Heap, v: Value): Heap {
    if v.Wire? then h.(live := h.live + {v.id}) else h
  }

  /** A new wire has both its ends outstanding, any other new value has its one. */
  lemma BirthValid(h: Heap, held: multiset<Value>, c: Wiring, v: Value)
    requires Valid(h, held, c) && v !in c
    ensures Valid(BirthHeap(h, v), held + BirthEnds(v), c[v := {v}])
  {
    hide PairsApart;
    var h' := BirthHeap(h, v);
    assert Ends(h, held, v) == 0 by {
      assert Ends(h, held, v) <= Capacity(h, v);
      assert Refs(h.fuzed, v) == {};
    }
    assert v !in h.oppsite by { NewHasNotMet(h, c, v); }
    ExtendRepresents(h, c, v);
    hide Represents, Refs;
    assert Affine(h', held + BirthEnds(v)) by {
      forall x ensures Ends(h', held + BirthEnds(v), x) <= Capacity(h', x) {
        assert Ends(h, held, x) <= Capacity(h, x);
      }
    }
  }

  lemma NewHasNotMet(h: Heap, c: Wiring, v: Value)
    requires Represents(h, c) && v !in c
    ensures v !in h.oppsite
  {
  }

  /** A new value, in a class of its own. */
  lemma ExtendPartition(c: Wiring, v: Value)
    requires IsPartition(c) && v !in c
    ensures IsPartition(c[v := {v}]) && forall u :: u in c ==> v !in c[u]
  {
  }

  lemma ExtendRepresents(h: Heap, c: Wiring, v: Value)
    requires Represents(h, c) && v !in c
    ensures Represents(BirthHeap(h, v), c[v := {v}])
  {
    var h', c' := BirthHeap(h, v), c[v := {v}];
    ExtendPartition(c, v);
    assert v in c'[v] && forall u :: u in c ==> c'[u] == c[u] != c'[v];
    assert forall u :: u in c ==> (Terminal(h', u) <==> Terminal(h, u));
    ExtendPairs(h, c, v);
    hide IsPartition, PairsApart, Terminal;
  }

  lemma ExtendPairs(h: Heap, c: Wiring, v: Value)
    requires PairsApart(h, c) && v !in c && forall u :: u in c ==> v !in c[u]
    ensures PairsApart(BirthHeap(h, v), c[v := {v}])
  {
    var h', c' := BirthHeap(h, v), c[v := {v}];
    assert forall u :: u in c ==> (Terminal(h', u) <==> Terminal(h, u));
    forall u | u in h.oppsite ensures Paired(h', c', u, h.oppsite[u]) { assert Paired(h, c, u, h.oppsite[u]); }
    assert v in c'[v];
    hide Terminal;
  }

  // A whole connect

  /** Advances until the pair is stored or met. */
  function Connect(h: Heap, left: Value, right: Value): Outcome
    decreases h.fuzed.Keys
  {
    var o := Advance(h, left, right);
    if o.Again? then Connect(o.heap, o.left, o.right) else o
  }

  lemma MergeSame(c: Wiring, left: Value, right: Value, l: Value, r: Value)
    requires left in c && right in c && l in c && r in c
    requires (c[l] == c[left] && c[r] == c[right]) || (c[l] == c[right] && c[r] == c[left])
    ensures Merge(c, l, r) == Merge(c, left, right)
  {
    assert c[l] + c[r] == c[left] + c[right];
  }

  /** However long the chains, a connect merges the two classes and nothing else. */
  lemma {:induction false} ConnectValid(h: Heap, held: multiset<Value>, c: Wiring, left: Value, right: Value)
    requires Valid(h, held, c) && multiset{left, right} <= held
    ensures left in c && right in c
    ensures Valid(Connect(h, left, right).heap, held - multiset{left, right}, Merge(c, left, right))
    decreases h.fuzed.Keys
  {
    hide Valid;
    AdvanceValid(h, held, c, left, right);
    var o := Advance(h, left, right);
    if o.Again? {
      var held' := held - multiset{left, right} + multiset{o.left, o.right};
      ConnectValid(o.heap, held', c, o.left, o.right);
      assert held' - multiset{o.left, o.right} == held - multiset{left, right};
      MergeSame(c, left, right, o.left, o.right);
    }
  }

  /** A wire that nothing holds is on no other way. */
  lemma {:induction false} WalkPast(fuzed: map<Name, Value>, w: Name, v: Value)
    requires v != Wire(w) && forall x :: x in fuzed ==> fuzed[x] != Wire(w)
    ensures Walk(fuzed - {w}, v) == Walk(fuzed, v)
    decreases fuzed.Keys
  {
    if v.Wire? && v.id in fuzed {
      WalkPast(fuzed - {v.id}, w, fuzed[v.id]);
      assert fuzed - {v.id} - {w} == fuzed - {w} - {v.id};
    }
  }

  /** The second end of a full wire is the only one, so that no other way passes it. */
  lemma OtherWay(h: Heap, held: multiset<Value>, w: Name, v: Value)
    requires Affine(h, held) && w in h.fuzed && multiset{Wire(w), v} <= held
    ensures Walk(h.fuzed - {w}, v) == Walk(h.fuzed, v)
  {
    assert held[Wire(w)] >= multiset{Wire(w), v}[Wire(w)];
    assert Ends(h, held, Wire(w)) <= Capacity(h, Wire(w)) == 1;
    forall x | x in h.fuzed ensures h.fuzed[x] != Wire(w) {
      if h.fuzed[x] == Wire(w) { OneRef(h.fuzed, x, Wire(w)); }
    }
    hide Refs;
    WalkPast(h.fuzed, w, v);
  }

  /** Going on from a full wire leads to the same two far ends. */
  lemma AgainWalks(h: Heap, held: multiset<Value>, left: Value, right: Value)
    requires Affine(h, held) && multiset{left, right} <= held && Advance(h, left, right).Again?
    ensures var o := Advance(h, left, right);
            && (left.Wire? ==> o.right == right)
            && (!left.Wire? ==> right.Wire? && o.right == left)
            && Walk(o.heap.fuzed, o.left) == Walk(h.fuzed, if left.Wire? then left else right)
            && Walk(o.heap.fuzed, o.right) == Walk(h.fuzed, if left.Wire? then right else left)
  {
    assert multiset{left, right} == multiset{right, left};
    if left.Wire? {
      OtherWay(h, held, left.id, right);
    } else {
      OtherWay(h, held, right.id, left);
    }
    hide Affine;
  }

  /** `connect(left, right)` brings two values together exactly when there is one at the far end
      of either side; the one that is behind a wire on the right comes first, as the one that
      was there before, otherwise the one on the left. */
  lemma {:induction false} ConnectMeets(h: Heap, held: multiset<Value>, left: Value, right: Value)
    requires Affine(h, held) && multiset{left, right} <= held
    ensures var o, a, b := Connect(h, left, right), Walk(h.fuzed, left), Walk(h.fuzed, right);
            && (o.Met? <==> !a.Wire? && !b.Wire?)
            && (o.Met? ==> Pair(o.left, o.right) == if right.Wire? then Pair(b, a) else Pair(a, b))
    decreases h.fuzed.Keys
  {
    hide Affine, Walk;
    AdvanceAffine(h, held, left, right);
    var o := Advance(h, left, right);
    if o.Again? {
      AgainWalks(h, held, left, right);
      ConnectMeets(o.heap, held - multiset{left, right} + multiset{o.left, o.right}, o.left, o.right);
    } else {
      WalkIdle(h.fuzed, left);
      if !left.Wire? { WalkIdle(h.fuzed, right); }
    }
    hide Fuze, Advance;
  }

  // What the program reads

  predicate IsFuzed(h: Heap, x: Value, y: Value) {
    var a, b := Walk(h.fuzed, x), Walk(h.fuzed, y);
    a.Wire? && b.Wire? && a == b
  }

  predicate IsConnected(h: Heap, x: Value, y: Value) {
    var a, b := Walk(h.fuzed, x), Walk(h.fuzed, y);
    if a.Principal? && b.Principal? then
      a == b || (a in h.oppsite && h.oppsite[a] == b && b in h.oppsite && h.oppsite[b] == a)
    else
      IsFuzed(h, a, b)
  }

  /** The wiring is of wires and principal ports, and `v` can be read: it is an outstanding
      end, or the principal port of a node, which keeps its value while the node lives. */
  ghost predicate Readable(held: multiset<Value>, c: Wiring, v: Value) {
    && v in c && (held[v] > 0 || v.Principal?)
    && forall u :: u in c ==> u.Wire? || u.Principal?
  }

  lemma WalkIdle(fuzed: map<Name, Value>, v: Value)
    requires v.Wire? ==> v.id !in fuzed
    ensures Walk(fuzed, v) == v
  {
  }

  /** Two readable values read as connected exactly when they are in one class. */
  lemma ConnectedIffTogether(h: Heap, held: multiset<Value>, c: Wiring, x: Value, y: Value)
    requires Valid(h, held, c) && Readable(held, c, x) && Readable(held, c, y)
    ensures IsConnected(h, x, y) <==> c[x] == c[y]
  {
    hide IsPartition, Affine, Walk;
    var a, b := Walk(h.fuzed, x), Walk(h.fuzed, y);
    FarEnd(h, held, c, x);
    FarEnd(h, held, c, y);
    WalkIdle(h.fuzed, a);
    WalkIdle(h.fuzed, b);
    assert a in h.oppsite ==> Paired(h, c, a, h.oppsite[a]);
  }

  lemma FarEnd(h: Heap, held: multiset<Value>, c: Wiring, x: Value)
    requires Valid(h, held, c) && Readable(held, c, x)
    ensures var a := Walk(h.fuzed, x);
            && a in c && c[a] == c[x]
            && (if a.Wire? then Terminal(h, a) else a.Principal?)
  {
    hide Affine, Represents;
    if held[x] > 0 {
      WalkArrives(h, held, c, x);
    } else {
      WalkIdle(h.fuzed, x);
    }
  }

  /** `connect(left, right)` joins exactly what was at the far end of `left` to what was at
      the far end of `right`, and changes no other join. */
  lemma ConnectJoinsFarEnds(h: Heap, held: multiset<Value>, c: Wiring, left: Value, right: Value, x: Value, y: Value)
    requires Valid(h, held, c) && multiset{left, right} <= held
    requires Readable(held, c, left) && Readable(held, c, right)
    requires Readable(held - multiset{left, right}, c, x) && Readable(held - multiset{left, right}, c, y)
    ensures var h' := Connect(h, left, right).heap;
            IsConnected(h', x, y) <==>
              || IsConnected(h, x, y)
              || (IsConnected(h, x, left) && IsConnected(h, y, right))
              || (IsConnected(h, x, right) && IsConnected(h, y, left))
  {
    hide Affine, Represents, Walk, Connect, Merge, IsConnected;
    ConnectValid(h, held, c, left, right);
    assert IsPartition(c) by { ValidPartition(h, held, c); }
    MergeJoins(c, left, right);
    ConnectedIffTogether(Connect(h, left, right).heap, held - multiset{left, right}, Merge(c, left, right), x, y);
    ConnectedIffTogether(h, held, c, x, y);
    ConnectedIffTogether(h, held, c, x, left);
    ConnectedIffTogether(h, held, c, x, right);
    ConnectedIffTogether(h, held, c, y, left);
    ConnectedIffTogether(h, held, c, y, right);
  }

  lemma ValidPartition(h: Heap, held: multiset<Value>, c: Wiring)
    requires Valid(h, held, c)
    ensures IsPartition(c)
  {
  }

  // Several connects at once, interleaved step by step

  /** A batch in progress: the pair each unfinished connect has in hand. */
  datatype Batch = Batch(heap: Heap, pending: seq<Pair>)

  function Without<T>(s: seq<T>, i: nat): seq<T>
    requires i < |s|
  {
    s[..i] + s[i + 1..]
  }

  /** One step of the `i`-th unfinished connect. */
  function StepBatch(b: Batch, i: nat): Batch
    requires i < |b.pending|
  {
    var o := Advance(b.heap, b.pending[i].left, b.pending[i].right);
    if o.Again? then Batch(o.heap, b.pending[i := Pair(o.left, o.right)])
    else Batch(o.heap, Without(b.pending, i))
  }

  function PairEnds(p: Pair): multiset<Value> { multiset{p.left, p.right} }

  function PendingEnds(ps: seq<Pair>): multiset<Value> {
    if ps == [] then multiset{} else PairEnds(ps[0]) + PendingEnds(ps[1..])
  }

  ghost predicate AllIn(c: Wiring, ps: seq<Pair>) {
    forall i :: 0 <= i < |ps| ==> ps[i].left in c && ps[i].right in c
  }

  ghost function MergeAll(c: Wiring, ps: seq<Pair>): Wiring
    requires AllIn(c, ps)
    decreases |ps|
  {
    if ps == [] then c else MergeAll(Merge(c, ps[0].left, ps[0].right), ps[1..])
  }

  lemma AllInMerge(c: Wiring, ps: seq<Pair>, i: nat)
    requires AllIn(c, ps) && i < |ps|
    ensures AllIn(Merge(c, ps[i].left, ps[i].right), Without(ps, i))
  {
  }

  lemma WithoutLater(ps: seq<Pair>, i: nat)
    requires 0 < i < |ps|
    ensures Without(ps, i) != [] && Without(ps, i)[0] == ps[0] && Without(ps, i)[1..] == Without(ps[1..], i - 1)
    ensures ps[1..][i - 1] == ps[i]
  {
  }

  /** Any pair of a batch can be merged first. */
  lemma {:induction false} MergeFirst(c: Wiring, ps: seq<Pair>, i: nat)
    requires IsPartition(c) && AllIn(c, ps) && i < |ps|
    ensures AllIn(Merge(c, ps[i].left, ps[i].right), Without(ps, i))
    ensures MergeAll(c, ps) == MergeAll(Merge(c, ps[i].left, ps[i].right), Without(ps, i))
    decreases i
  {
    AllInMerge(c, ps, i);
    if i == 0 {
      assert Without(ps, 0) == ps[1..];
    } else {
      var p, q := ps[0], ps[i];
      WithoutLater(ps, i);
      assert q.left in c && q.right in c && p.left in c && p.right in c;
      hide Merge, IsPartition, MergeAll, Without, AllIn;
      MergeFirst(Merge(c, p.left, p.right), ps[1..], i - 1);
      MergeCommutes(c, p.left, p.right, q.left, q.right);
    }
  }

  lemma MergeKept(c: Wiring, left: Value, right: Value)
    requires left in c && right in c
    ensures Merge(c, left, right).Keys == c.Keys
  {
  }

  lemma {:induction false} EndsSplit(ps: seq<Pair>, i: nat)
    requires i < |ps|
    ensures PendingEnds(ps) == PairEnds(ps[i]) + PendingEnds(Without(ps, i))
    decreases i
  {
    hide PairEnds;
    if i == 0 {
      assert Without(ps, 0) == ps[1..];
    } else {
      EndsSplit(ps[1..], i - 1);
      assert Without(ps, i)[1..] == Without(ps[1..], i - 1) && Without(ps, i)[0] == ps[0];
    }
  }

  /** Bounds how many steps are left: a connect that ends leaves at most one fuzed wire
      more, one that goes on frees one. */
  function StepsLeft(b: Batch): nat {
    2 * |b.pending| + |b.heap.fuzed|
  }

  lemma {:induction false} PendingIn(h: Heap, rest: multiset<Value>, c: Wiring, ps: seq<Pair>)
    requires Valid(h, rest + PendingEnds(ps), c)
    ensures AllIn(c, ps)
  {
    forall i | 0 <= i < |ps| ensures ps[i].left in c && ps[i].right in c {
      EndsSplit(ps, i);
      assert (rest + PendingEnds(ps))[ps[i].left] > 0 && (rest + PendingEnds(ps))[ps[i].right] > 0;
    }
  }

  /** Whichever connect moves, what the whole batch will come to does not change. */
  lemma BatchStep(b: Batch, i: nat, rest: multiset<Value>, c: Wiring) returns (c': Wiring)
    requires i < |b.pending| && Valid(b.heap, rest + PendingEnds(b.pending), c)
    ensures var b' := StepBatch(b, i);
            && Valid(b'.heap, rest + PendingEnds(b'.pending), c')
            && AllIn(c, b.pending) && AllIn(c', b'.pending)
            && MergeAll(c', b'.pending) == MergeAll(c, b.pending)
            && StepsLeft(b') < StepsLeft(b)
  {
    hide Valid, IsPartition, Advance, PendingEnds, MergeAll;
    var ps, p := b.pending, b.pending[i];
    var others := Without(ps, i);
    EndsSplit(ps, i);
    PendingIn(b.heap, rest, c, ps);
    var held := rest + PendingEnds(ps);
    ValidPartition(b.heap, held, c);
    assert held - multiset{p.left, p.right} == rest + PendingEnds(others);
    AdvanceValid(b.heap, held, c, p.left, p.right);
    var o := Advance(b.heap, p.left, p.right);
    FuzedSize(b.heap, p.left, p.right);
    MergeFirst(c, ps, i);
    if o.Again? {
      c' := c;
      var q := Pair(o.left, o.right);
      var ps' := ps[i := q];
      assert Without(ps', i) == others;
      EndsSplit(ps', i);
      assert rest + PendingEnds(others) + multiset{o.left, o.right} == rest + PendingEnds(ps');
      MergeSame(c, p.left, p.right, q.left, q.right);
      MergeFirst(c, ps', i);
    } else {
      c' := Merge(c, p.left, p.right);
    }
  }

  lemma FuzedSize(h: Heap, left: Value, right: Value)
    ensures var o := Advance(h, left, right);
            |o.heap.fuzed| <= |h.fuzed| + if o.Again? then -1 else 1
  {
  }

  /** The steps of a schedule, each naming the connect that moves. */
  ghost predicate IsSchedule(b: Batch, schedule: seq<nat>, last: Batch)
    decreases |schedule|
  {
    if schedule == [] then last == b
    else schedule[0] < |b.pending| && IsSchedule(StepBatch(b, schedule[0]), schedule[1..], last)
  }

  lemma {:induction false} BatchRuns(b: Batch, schedule: seq<nat>, last: Batch, rest: multiset<Value>, c: Wiring)
    requires Valid(b.heap, rest + PendingEnds(b.pending), c)
    requires IsSchedule(b, schedule, last) && last.pending == []
    ensures |schedule| <= StepsLeft(b)
    ensures AllIn(c, b.pending) && Valid(last.heap, rest, MergeAll(c, b.pending))
    decreases |schedule|
  {
    hide Valid;
    if schedule == [] {
      assert rest + PendingEnds([]) == rest;
    } else {
      var c' := BatchStep(b, schedule[0], rest, c);
      BatchRuns(StepBatch(b, schedule[0]), schedule[1..], last, rest, c');
    }
  }

  /** Two interleavings of one batch of connects, run to the end, read the same everywhere. */
  lemma BatchOrderIrrelevant(b: Batch, rest: multiset<Value>, c: Wiring,
                             schedule1: seq<nat>, last1: Batch, schedule2: seq<nat>, last2: Batch, x: Value, y: Value)
    requires Valid(b.heap, rest + PendingEnds(b.pending), c)
    requires IsSchedule(b, schedule1, last1) && last1.pending == []
    requires IsSchedule(b, schedule2, last2) && last2.pending == []
    requires Readable(rest, c, x) && Readable(rest, c, y)
    ensures IsConnected(last1.heap, x, y) <==> IsConnected(last2.heap, x, y)
  {
    hide Valid, IsConnected, MergeAll, PendingEnds;
    BatchRuns(b, schedule1, last1, rest, c);
    BatchRuns(b, schedule2, last2, rest, c);
    MergeAllKeys(c, b.pending);
    ConnectedIffTogether(last1.heap, rest, MergeAll(c, b.pending), x, y);
    ConnectedIffTogether(last2.heap, rest, MergeAll(c, b.pending), x, y);
  }

  lemma {:induction false} MergeAllKeys(c: Wiring, ps: seq<Pair>)
    requires AllIn(c, ps)
    ensures MergeAll(c, ps).Keys == c.Keys
    decreases |ps|
  {
    if ps != [] { MergeAllKeys(Merge(c, ps[0].left, ps[0].right), ps[1..]); }
  }
}
