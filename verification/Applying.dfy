/** What the machine does when it applies a value, said of the stack and the effects alone:
    which argument goes to which port, what comes back and in which order, and when it fails. */
module Applying {
  import opened Values
  import opened Machine

  /** The next opcode applies `target`, which is above `below` and the arguments. */
  predicate IsApplying(s: State, below: seq<Value>, args: seq<Value>, target: Value) {
    && s.frames != []
    && var f := s.frames[|s.frames| - 1];
       && f.cursor < |f.opcodes| && f.opcodes[f.cursor] == Apply(|args|)
       && s.values == below + args + [target]
  }

  /** A constructor, or a primitive that works through a node of its own. */
  predicate MakesNode(p: Program, target: Value, ctor: nat) {
    || target == Ctor(ctor)
    || (target.Primitive? && target.primitive < |p.primitives| && p.primitives[target.primitive] == WithNode(ctor))
  }

  /** The frames once the opcode has been fetched: the frame is put back, unless it was its last
      opcode and tail calls are proper. */
  function FramesAfter(s: State, tail: bool): seq<Frame>
    requires s.frames != []
  {
    var n := |s.frames| - 1;
    var f := s.frames[n];
    if tail && f.cursor + 1 >= |f.opcodes| then s.frames[..n] else s.frames[..n] + [f.(cursor := f.cursor + 1)]
  }

  /** Port `k` is principal, or would get a principal wire, so that there is something to join. */
  predicate NeedsJoin(kinds: seq<bool>, args: seq<Value>, k: nat)
    requires k < |args| <= |kinds|
  {
    kinds[k] || args[k].Principal?
  }

  /** Each argument that needs it is joined to what is at its port, and nothing else is. */
  ghost predicate AreJoined(kinds: seq<bool>, args: seq<Value>, ports: seq<Value>, joins: seq<Pair>) {
    && |args| <= |kinds| && |args| <= |ports|
    && (forall k :: 0 <= k < |args| && NeedsJoin(kinds, args, k) ==> Pair(ports[k], args[k]) in joins)
    && (forall j :: j in joins ==>
          exists k :: 0 <= k < |args| && NeedsJoin(kinds, args, k) && j == Pair(ports[k], args[k]))
  }

  /** They are joined one by one, from the last argument to the first. */
  predicate InOrder(kinds: seq<bool>, args: seq<Value>, ports: seq<Value>, joins: seq<Pair>)
    requires |args| <= |kinds| && |args| <= |ports|
    decreases |args|
  {
    if args == [] then joins == [] else
    var i := |args| - 1;
    if !NeedsJoin(kinds, args, i) then InOrder(kinds, args[..i], ports, joins)
    else joins != [] && joins[0] == Pair(ports[i], args[i]) && InOrder(kinds, args[..i], ports, joins[1..])
  }

  /** Argument `k` is at port `k`, unless there is something to join: then a principal port has a
      principal wire of the node's own, and any other a new wire. */
  ghost predicate AreHeld(node: Name, kinds: seq<bool>, args: seq<Value>, ports: seq<Value>, wires: seq<Name>) {
    && |args| <= |kinds| && |args| <= |ports|
    && forall k :: 0 <= k < |args| ==>
         if kinds[k] then ports[k] == Principal(node, k)
         else if args[k].Principal? then ports[k].Wire? && ports[k].id in wires
         else ports[k] == args[k]
  }

  /** Argument `k` is at port `k` or is to be joined to what is there, and nothing else is. */
  ghost predicate TakesArgs(node: Name, kinds: seq<bool>, args: seq<Value>, ports: seq<Value>, wires: seq<Name>,
          joins: seq<Pair>)
  {
    AreHeld(node, kinds, args, ports, wires) && AreJoined(kinds, args, ports, joins)
    && InOrder(kinds, args, ports, joins)
  }

  /** A principal port has a principal wire of its own, any other port from `from` on a new wire. */
  ghost predicate HasOwnWires(node: Name, kinds: seq<bool>, ports: seq<Value>, wires: seq<Name>, from: nat) {
    && from <= |kinds| && |ports| == |kinds| - from
    && forall k :: 0 <= k < |ports| ==>
         if kinds[from + k] then ports[k] == Principal(node, from + k)
         else ports[k].Wire? && ports[k].id in wires
  }

  // The two loops

  lemma {:induction false} InputsHold(redex: set<Name>, node: Name, kinds: seq<bool>, args: seq<Value>, supply: nat)
    requires |args| <= |kinds|
    ensures var b := BuildInputs(redex, node, kinds, args, supply); AreHeld(node, kinds, args, b.ports, b.wires)
  {
    if args != [] {
      var i := |args| - 1;
      InputsHold(redex, node, kinds, args[..i], supply + if !kinds[i] && args[i].Principal? then 1 else 0);
    }
  }

  lemma {:induction false} InputsJoined(redex: set<Name>, node: Name, kinds: seq<bool>, args: seq<Value>, supply: nat)
    requires |args| <= |kinds|
    ensures var b := BuildInputs(redex, node, kinds, args, supply);
            AreJoined(kinds, args, b.ports, b.joins) && InOrder(kinds, args, b.ports, b.joins)
  {
    if args != [] {
      var i := |args| - 1;
      var supply' := supply + if !kinds[i] && args[i].Principal? then 1 else 0;
      InputsJoined(redex, node, kinds, args[..i], supply');
      var rest := BuildInputs(redex, node, kinds, args[..i], supply');
      var b := BuildInputs(redex, node, kinds, args, supply);
      OneMoreArg(kinds, args, rest.ports, rest.joins, b.ports[i]);
      PortsBefore(kinds, args[..i], rest.ports, b.ports[i], rest.joins);
      hide AreJoined;
    }
  }

  lemma OneMoreArg(kinds: seq<bool>, args: seq<Value>, ports: seq<Value>, joins: seq<Pair>, port: Value)
    requires args != [] && |args| <= |kinds| && |ports| == |args| - 1
    requires AreJoined(kinds, args[..|args| - 1], ports, joins)
    ensures var i := |args| - 1;
            AreJoined(kinds, args, ports + [port],
                if NeedsJoin(kinds, args, i) then [Pair(port, args[i])] + joins else joins)
  {
    var i := |args| - 1;
    var joins' := if NeedsJoin(kinds, args, i) then [Pair(port, args[i])] + joins else joins;
    assert forall k :: 0 <= k < i ==> NeedsJoin(kinds, args[..i], k) == NeedsJoin(kinds, args, k);
    forall j | j in joins'
      ensures exists k :: 0 <= k < |args| && NeedsJoin(kinds, args, k) && j == Pair((ports + [port])[k], args[k])
    {
      if j in joins {
        var k :| 0 <= k < i && NeedsJoin(kinds, args[..i], k) && j == Pair(ports[k], args[..i][k]);
        assert j == Pair((ports + [port])[k], args[k]);
      } else {
        assert j == Pair((ports + [port])[i], args[i]);
      }
    }
  }

  /** What is at later ports makes no difference. */
  lemma {:induction false} PortsBefore(kinds: seq<bool>, args: seq<Value>, ports: seq<Value>, port: Value,
          joins: seq<Pair>)
    requires |args| <= |kinds| && |args| <= |ports|
    ensures InOrder(kinds, args, ports + [port], joins) <==> InOrder(kinds, args, ports, joins)
    decreases |args|
  {
    if args != [] {
      var i := |args| - 1;
      PortsBefore(kinds, args[..i], ports, port, joins);
      if joins != [] { PortsBefore(kinds, args[..i], ports, port, joins[1..]); }
    }
  }

  lemma {:induction false} PortsAfter(kinds: seq<bool>, args: seq<Value>, ports: seq<Value>, more: seq<Value>,
          joins: seq<Pair>)
    requires |args| <= |kinds| && |args| <= |ports|
    ensures InOrder(kinds, args, ports + more, joins) <==> InOrder(kinds, args, ports, joins)
    decreases |more|
  {
    if more == [] {
      assert ports + more == ports;
    } else {
      assert ports + more == ports + [more[0]] + more[1..];
      PortsAfter(kinds, args, ports + [more[0]], more[1..], joins);
      PortsBefore(kinds, args, ports, more[0], joins);
    }
  }

  lemma {:induction false} OutputsOwnWires(redex: set<Name>, node: Name, kinds: seq<bool>, from: nat, supply: nat)
    requires from <= |kinds|
    ensures var b := BuildOutputs(redex, node, kinds, from, supply); HasOwnWires(node, kinds, b.ports, b.wires, from)
    decreases |kinds| - from
  {
    if from < |kinds| {
      var supply' := supply + if kinds[from] then 0 else 1;
      OutputsOwnWires(redex, node, kinds, from + 1, supply');
      var rest := BuildOutputs(redex, node, kinds, from + 1, supply');
      var b := BuildOutputs(redex, node, kinds, from, supply);
      forall k | 0 <= k < |b.ports|
        ensures if kinds[from + k] then b.ports[k] == Principal(node, from + k)
                else b.ports[k].Wire? && b.ports[k].id in b.wires
      {
        if k > 0 { assert b.ports[k] == rest.ports[k - 1] && kinds[from + k] == kinds[from + 1 + (k - 1)]; }
      }
      hide BuildOutputs;
    }
  }

  /** Building a node attaches argument `k` to port `k`, and what comes back is what was below
      the arguments and then the other ports, in order. */
  lemma ConstructAttaches(p: Program, redex: set<Name>, below: seq<Value>, args: seq<Value>, supply: nat, ctor: nat)
    ensures var o := Construct(p, redex, below + args, supply, ctor, |args|);
            && (o.Some? <==> ctor < |p.ctors| && |args| <= |p.ctors[ctor]|)
            && (o.Some? ==>
                  var e := o.value.effect;
                  && e.NewNode? && e.ctor == ctor && |e.ports| == |p.ctors[ctor]|
                  && TakesArgs(e.id, p.ctors[ctor], args, e.ports, e.wires, e.joins)
                  && HasOwnWires(e.id, p.ctors[ctor], e.ports[|args|..], e.wires, |args|)
                  && o.value.values == below + e.ports[|args|..])
  {
    if ctor < |p.ctors| && |args| <= |p.ctors[ctor]| {
      var kinds, node := p.ctors[ctor], Born(redex, supply);
      assert (below + args)[|below|..] == args && (below + args)[..|below|] == below;
      InputsHold(redex, node, kinds, args, supply + 1);
      InputsJoined(redex, node, kinds, args, supply + 1);
      var inputs := BuildInputs(redex, node, kinds, args, supply + 1);
      OutputsOwnWires(redex, node, kinds, |args|, inputs.supply);
      var outputs := BuildOutputs(redex, node, kinds, |args|, inputs.supply);
      hide BuildInputs, BuildOutputs;
      var ports := inputs.ports + outputs.ports;
      assert ports[|args|..] == outputs.ports;
      MoreAfter(node, kinds, args, inputs, outputs);
    }
  }

  /** The other ports and their wires make no difference to the arguments, and the other way. */
  lemma MoreAfter(node: Name, kinds: seq<bool>, args: seq<Value>, b: Built, more: Built)
    requires TakesArgs(node, kinds, args, b.ports, b.wires, b.joins) && |b.ports| == |args|
    requires HasOwnWires(node, kinds, more.ports, more.wires, |args|)
    ensures TakesArgs(node, kinds, args, b.ports + more.ports, b.wires + more.wires, b.joins)
    ensures HasOwnWires(node, kinds, more.ports, b.wires + more.wires, |args|)
  {
    hide NeedsJoin;
    var ports := b.ports + more.ports;
    assert forall k :: 0 <= k < |args| ==> ports[k] == b.ports[k];
    PortsAfter(kinds, args, b.ports, more.ports, b.joins);
  }

  // One step

  lemma StepIs(p: Program, redex: set<Name>, s: State, below: seq<Value>, args: seq<Value>, target: Value, tail: bool)
    requires IsApplying(s, below, args, target)
    ensures Step(p, redex, s, tail)
            == ApplyValue(p, redex, s.(values := below + args, frames := FramesAfter(s, tail)), target, |args|)
  {
    assert s.values[..|s.values| - 1] == below + args;
    assert s.frames[..|s.frames| - 1] + [] == s.frames[..|s.frames| - 1];
    hide ApplyValue;
  }

  /** Applying a constructor with `n` arguments, on top of anything: fails unless it is defined
      and has `n` ports; makes one node, whose port `k` has argument `k` or is to be joined to
      it; and pushes the values of the other ports, first to last. */
  lemma ApplyMakesNode(p: Program, redex: set<Name>, s: State, below: seq<Value>, args: seq<Value>, target: Value,
          ctor: nat, tail: bool)
    requires IsApplying(s, below, args, target) && MakesNode(p, target, ctor)
    ensures Step(p, redex, s, tail).Some? <==> ctor < |p.ctors| && |args| <= |p.ctors[ctor]|
    ensures Step(p, redex, s, tail).Some? ==>
              var s' := Step(p, redex, s, tail).value;
              && s'.frames == FramesAfter(s, tail) && |s'.effects| == |s.effects| + 1 && s.effects <= s'.effects
              && var e := s'.effects[|s.effects|];
                 && e.NewNode? && e.ctor == ctor && |e.ports| == |p.ctors[ctor]|
                 && TakesArgs(e.id, p.ctors[ctor], args, e.ports, e.wires, e.joins)
                 && HasOwnWires(e.id, p.ctors[ctor], e.ports[|args|..], e.wires, |args|)
                 && s'.values == below + e.ports[|args|..]
  {
    StepIs(p, redex, s, below, args, target, tail);
    ConstructAttaches(p, redex, below, args, s.supply, ctor);
    hide Step, Construct, TakesArgs, HasOwnWires;
  }

  /** Applying a function starts its code with no variable bound, on the stack as it is, and
      fails when the function is not defined or takes another number of arguments. */
  lemma ApplyCallsFunction(p: Program, redex: set<Name>, s: State, below: seq<Value>, args: seq<Value>, i: nat,
          tail: bool)
    requires IsApplying(s, below, args, Function(i))
    ensures Step(p, redex, s, tail) ==
            if i < |p.functions| && p.functions[i].arity == |args|
            then Some(s.(values := below + args,
                frames := FramesAfter(s, tail) + [Frame(p.functions[i].opcodes, 0, map[])]))
            else None
  {
    StepIs(p, redex, s, below, args, Function(i), tail);
    hide Step;
  }

  /** `link` takes nothing and pushes both ends of one new wire; `connect` takes two values, which
      are to be joined, and pushes nothing. */
  lemma ApplyJoins(p: Program, redex: set<Name>, s: State, below: seq<Value>, args: seq<Value>, i: nat, tail: bool)
    requires IsApplying(s, below, args, Primitive(i)) && i < |p.primitives| && !p.primitives[i].WithNode?
    ensures Step(p, redex, s, tail).Some? <==> |args| == if p.primitives[i] == Link then 0 else 2
    ensures Step(p, redex, s, tail).Some? ==>
              var s' := Step(p, redex, s, tail).value;
              && s'.frames == FramesAfter(s, tail)
              && if p.primitives[i] == Link then
                   exists w :: s'.values == below + [Wire(w), Wire(w)] && s'.effects == s.effects + [NewWire(w)]
                 else
                   s'.values == below && s'.effects == s.effects + [Joined(Pair(args[0], args[1]))]
  {
    StepIs(p, redex, s, below, args, Primitive(i), tail);
    hide Step;
    if args == [] { assert below + args == below; }
    if |args| == 2 && p.primitives[i] == Connect { assert (below + args)[..|below|] == below; }
  }

  /** Nothing else can be applied, and nothing to fewer values than it is given. */
  lemma ApplyFails(p: Program, redex: set<Name>, s: State, target: Value, arity: nat)
    ensures (target.Wire? || target.Principal? || target.Int?) ==> ApplyValue(p, redex, s, target, arity).None?
    ensures (target.Primitive? && target.primitive >= |p.primitives|) ==> ApplyValue(p, redex, s, target, arity).None?
    ensures !target.Function? && arity > |s.values| ==> ApplyValue(p, redex, s, target, arity).None?
  {
  }
}
