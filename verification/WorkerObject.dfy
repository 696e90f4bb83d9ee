/** The worker as an object: frames whose cursor and variables are updated in place, the
    two stacks, and the operations that push and pop them. Each is proved to do what the
    machine does on values.

    A frame that has been popped from the return stack may still be in use while its last
    opcode is executed: with proper tail calls it is not pushed back before that. Methods
    that execute an opcode therefore come with a ghost parameter `keep` that says whether
    the frame is on the stack, and `Around` is the state as the machine sees it then. Stacks
    are sequences of the program's values; the frames on the return stack are objects, all
    of them different, and `Frames` reads them off as values. What goes to the net is
    recorded as effects. */
module WorkerObject {
  import opened Values
  import opened Machine
  import Interaction

  class FrameObject {
    const opcodes: seq<Opcode>
    var cursor: nat
    var variables: map<nat, Value>

    constructor (opcodes: seq<Opcode>)
      ensures AsFrame() == Frame(opcodes, 0, map[])
    {
      this.opcodes := opcodes;
      cursor := 0;
      variables := map[];
    }

    function AsFrame(): Frame
      reads this
    {
      Frame(opcodes, cursor, variables)
    }

    method FetchOpcode() returns (op: Opcode)
      requires cursor < |opcodes|
      modifies this`cursor
      ensures op == opcodes[old(cursor)] && cursor == old(cursor) + 1
    {
      op := opcodes[cursor];
      cursor := cursor + 1;
    }

    /** A variable that is read is emptied; an empty one cannot be read. */
    method GetVariable(i: nat) returns (value: Option<Value>)
      modifies this`variables
      ensures i in old(variables) ==> value == Some(old(variables)[i]) && variables == old(variables) - {i}
      ensures i !in old(variables) ==> value == None && variables == old(variables)
    {
      if i !in variables { return None; }
      value := Some(variables[i]);
      variables := variables - {i};
    }

    /** A variable that is full cannot be stored into. */
    method SetVariable(i: nat, value: Value) returns (ok: bool)
      modifies this`variables
      ensures ok == (i !in old(variables))
      ensures variables == if ok then old(variables)[i := value] else old(variables)
    {
      if i in variables { return false; }
      variables := variables[i := value];
      ok := true;
    }
  }

  // One port, and what was done before and after it

  function InputPort(redex: set<Name>, node: Name, kinds: seq<bool>, index: nat, value: Value, supply: nat): Built
    requires index < |kinds|
  {
    if kinds[index] then Built([Principal(node, index)], [], [Pair(Principal(node, index), value)], supply)
    else if value.Principal? then
      var w := Born(redex, supply);
      Built([Wire(w)], [w], [Pair(Wire(w), value)], supply + 1)
    else Built([value], [], [], supply)
  }

  function OutputPort(redex: set<Name>, node: Name, kinds: seq<bool>, index: nat, supply: nat): Built
    requires index < |kinds|
  {
    if kinds[index] then Built([Principal(node, index)], [], [], supply)
    else Built([Wire(Born(redex, supply))], [Born(redex, supply)], [], supply + 1)
  }

  /** The inputs still to be filled, before those that are. */
  function Before(b: Built, ports: seq<Value>, wires: seq<Name>, joins: seq<Pair>): Built {
    Built(b.ports + ports, wires + b.wires, joins + b.joins, b.supply)
  }

  function After(b: Built, ports: seq<Value>, wires: seq<Name>): Built {
    Built(ports + b.ports, wires + b.wires, b.joins, b.supply)
  }

  lemma Associates<T>(a: seq<T>, b: seq<T>, c: seq<T>)
    ensures a + b + c == a + (b + c)
  {
  }

  lemma BeforeNothing(b: Built)
    ensures Before(b, [], [], []) == b
  {
    assert b.ports + [] == b.ports && [] + b.wires == b.wires && [] + b.joins == b.joins;
  }

  lemma AfterNothing(b: Built)
    ensures After(b, [], []) == b
  {
    assert [] + b.ports == b.ports && [] + b.wires == b.wires;
  }

  lemma InputsStep(redex: set<Name>, node: Name, kinds: seq<bool>, args: seq<Value>, supply: nat,
                   ports: seq<Value>, wires: seq<Name>, joins: seq<Pair>)
    requires 0 < |args| <= |kinds|
    ensures
      var i := |args| - 1;
      var p := InputPort(redex, node, kinds, i, args[i], supply);
      Before(BuildInputs(redex, node, kinds, args, supply), ports, wires, joins)
        == Before(BuildInputs(redex, node, kinds, args[..i], p.supply), p.ports + ports, wires + p.wires,
            joins + p.joins)
  {
    var i := |args| - 1;
    var p := InputPort(redex, node, kinds, i, args[i], supply);
    var rest := BuildInputs(redex, node, kinds, args[..i], p.supply);
    var whole := BuildInputs(redex, node, kinds, args, supply);
    assert whole.ports == rest.ports + p.ports && whole.wires == p.wires + rest.wires
        && whole.joins == p.joins + rest.joins;
    hide BuildInputs, InputPort;
    Associates(rest.ports, p.ports, ports);
    Associates(wires, p.wires, rest.wires);
    Associates(joins, p.joins, rest.joins);
  }

  lemma NoInputs(redex: set<Name>, node: Name, kinds: seq<bool>, args: seq<Value>, supply: nat,
                 ports: seq<Value>, wires: seq<Name>, joins: seq<Pair>)
    requires args == []
    ensures Before(BuildInputs(redex, node, kinds, args, supply), ports, wires, joins)
            == Built(ports, wires, joins, supply)
  {
    assert [] + ports == ports && wires + [] == wires && joins + [] == joins;
  }

  lemma OutputsStep(redex: set<Name>, node: Name, kinds: seq<bool>, index: nat, supply: nat, ports: seq<Value>,
          wires: seq<Name>)
    requires index < |kinds|
    ensures
      var p := OutputPort(redex, node, kinds, index, supply);
      After(BuildOutputs(redex, node, kinds, index, supply), ports, wires)
        == After(BuildOutputs(redex, node, kinds, index + 1, p.supply), ports + p.ports, wires + p.wires)
  {
    var p := OutputPort(redex, node, kinds, index, supply);
    var rest := BuildOutputs(redex, node, kinds, index + 1, p.supply);
    var whole := BuildOutputs(redex, node, kinds, index, supply);
    assert whole.ports == p.ports + rest.ports && whole.wires == p.wires + rest.wires;
    hide BuildOutputs, OutputPort;
    Associates(ports, p.ports, rest.ports);
    Associates(wires, p.wires, rest.wires);
  }

  lemma NoOutputs(redex: set<Name>, node: Name, kinds: seq<bool>, supply: nat, ports: seq<Value>, wires: seq<Name>)
    ensures After(BuildOutputs(redex, node, kinds, |kinds|, supply), ports, wires) == Built(ports, wires, [], supply)
  {
    assert ports + [] == ports && wires + [] == wires;
  }

  class Worker {
    const program: Program
    var redex: set<Name>
    var valueStack: seq<Value>
    var returnStack: seq<FrameObject>
    var supply: nat
    var effects: seq<Effect>

    constructor (program: Program, redex: set<Name>)
      ensures Valid() && this.program == program && this.redex == redex && AsState() == State([], [], 0, [])
    {
      this.program := program;
      this.redex := redex;
      valueStack := [];
      returnStack := [];
      supply := 0;
      effects := [];
    }

    /** No frame is on the stack twice. */
    ghost predicate Valid()
      reads this
    {
      forall i, j :: 0 <= i < j < |returnStack| ==> returnStack[i] != returnStack[j]
    }

    ghost function Frames(): (r: seq<Frame>)
      reads this, returnStack
      ensures |r| == |returnStack|
    {
      seq(|returnStack|, i requires 0 <= i < |returnStack| reads this, returnStack => returnStack[i].AsFrame())
    }

    ghost function AsState(): State
      reads this, returnStack
    {
      State(valueStack, Frames(), supply, effects)
    }

    method NewName() returns (name: Name)
      modifies this`supply
      ensures name == Born(redex, old(supply)) && supply == old(supply) + 1
    {
      name := Born(redex, supply);
      supply := supply + 1;
    }

    /** Sets one input port. */
    method ReconnectInput(node: Name, kinds: seq<bool>, index: nat, value: Value)
            returns (port: Value, wires: seq<Name>, joins: seq<Pair>)
      requires index < |kinds|
      modifies this`supply
      ensures Built([port], wires, joins, supply) == InputPort(redex, node, kinds, index, value, old(supply))
    {
      if kinds[index] {
        port, wires, joins := Principal(node, index), [], [Pair(Principal(node, index), value)];
      } else if value.Principal? {
        var w := NewName();
        port, wires, joins := Wire(w), [w], [Pair(Wire(w), value)];
      } else {
        port, wires, joins := value, [], [];
      }
    }

    /** Fills the input ports from the last to the first, popping the value stack. */
    method ReconnectInputs(node: Name, kinds: seq<bool>, arity: nat)
            returns (ports: seq<Value>, wires: seq<Name>, joins: seq<Pair>)
      requires arity <= |kinds| && arity <= |valueStack|
      modifies this`valueStack, this`supply
      ensures valueStack == old(valueStack)[..|old(valueStack)| - arity]
      ensures Built(ports, wires, joins, supply)
           == BuildInputs(redex, node, kinds, old(valueStack)[|old(valueStack)| - arity..], old(supply))
    {
      hide BuildInputs, InputPort, Before;
      ghost var rest := |valueStack| - arity;
      ghost var args := valueStack[rest..];
      ghost var whole := BuildInputs(redex, node, kinds, args, supply);
      ports, wires, joins := [], [], [];
      assert args[..arity] == args;
      BeforeNothing(whole);
      for count := 0 to arity
        invariant valueStack == old(valueStack)[..rest + arity - count]
        invariant whole == Before(BuildInputs(redex, node, kinds, args[..arity - count], supply), ports, wires, joins)
      {
        var index := arity - 1 - count;
        assert args[..arity - count][..index] == args[..index];
        InputsStep(redex, node, kinds, args[..arity - count], supply, ports, wires, joins);
        var top := |valueStack| - 1;
        var value := valueStack[top];
        valueStack := valueStack[..top];
        var port, newWires, newJoins := ReconnectInput(node, kinds, index, value);
        ports, wires, joins := [port] + ports, wires + newWires, joins + newJoins;
      }
      NoInputs(redex, node, kinds, args[..0], supply, ports, wires, joins);
    }

    method ReconnectOutput(node: Name, kinds: seq<bool>, index: nat) returns (port: Value, wires: seq<Name>)
      requires index < |kinds|
      modifies this`supply
      ensures Built([port], wires, [], supply) == OutputPort(redex, node, kinds, index, old(supply))
    {
      if kinds[index] {
        port, wires := Principal(node, index), [];
      } else {
        var w := NewName();
        port, wires := Wire(w), [w];
      }
    }

    /** Fills the other ports, pushing their other ends. */
    method ReconnectOutputs(node: Name, kinds: seq<bool>, from: nat) returns (ports: seq<Value>, wires: seq<Name>)
      requires from <= |kinds|
      modifies this`valueStack, this`supply
      ensures Built(ports, wires, [], supply) == BuildOutputs(redex, node, kinds, from, old(supply))
      ensures valueStack == old(valueStack) + ports
    {
      hide BuildOutputs, OutputPort, After;
      ghost var whole := BuildOutputs(redex, node, kinds, from, supply);
      ports, wires := [], [];
      AfterNothing(whole);
      for index := from to |kinds|
        invariant valueStack == old(valueStack) + ports
        invariant whole == After(BuildOutputs(redex, node, kinds, index, supply), ports, wires)
      {
        OutputsStep(redex, node, kinds, index, supply, ports, wires);
        var port, newWires := ReconnectOutput(node, kinds, index);
        valueStack := valueStack + [port];
        ports, wires := ports + [port], wires + newWires;
      }
      NoOutputs(redex, node, kinds, supply, ports, wires);
    }

    /** Builds a node from the top of the value stack. */
    method ReconnectNode(ctor: nat, arity: nat) returns (ok: bool)
      modifies this`valueStack, this`supply, this`effects
      ensures match Construct(program, redex, old(valueStack), old(supply), ctor, arity)
              case None => !ok && valueStack == old(valueStack) && supply == old(supply) && effects == old(effects)
              case Some(c) => ok && valueStack == c.values && supply == c.supply && effects == old(effects) + [c.effect]
    {
      if ctor >= |program.ctors| || arity > |program.ctors[ctor]| || arity > |valueStack| { return false; }
      var kinds := program.ctors[ctor];
      var node := NewName();
      var inputs, inputWires, joins := ReconnectInputs(node, kinds, arity);
      var outputs, outputWires := ReconnectOutputs(node, kinds, arity);
      effects := effects + [NewNode(node, ctor, inputs + outputs, inputWires + outputWires, joins)];
      ok := true;
    }

    /** Takes a node apart: all but its principal wires go on the value stack. */
    method DisconnectNode(ports: seq<Value>)
      modifies this`valueStack
      ensures valueStack == old(valueStack) + Interaction.Auxiliary(ports)
    {
      assert ports[..0] == [];
      for i := 0 to |ports|
        invariant valueStack == old(valueStack) + Interaction.Auxiliary(ports[..i])
      {
        assert ports[..i + 1][..i] == ports[..i];
        if !ports[i].Principal? {
          valueStack := valueStack + [ports[i]];
        }
      }
      assert ports[..|ports|] == ports;
    }

    method PushFrame(frame: FrameObject)
      requires Valid() && frame !in returnStack
      modifies this`returnStack
      ensures Valid() && returnStack == old(returnStack) + [frame]
      ensures AsState() == old(AsState()).(frames := old(Frames()) + [frame.AsFrame()])
    {
      returnStack := returnStack + [frame];
      assert Frames() == old(Frames()) + [frame.AsFrame()];
    }

    /** Two wire ends that are one wire. */
    method LinkPrimitive()
      modifies this`valueStack, this`supply, this`effects
      ensures var w := Born(redex, old(supply));
              && valueStack == old(valueStack) + [Wire(w), Wire(w)] && supply == old(supply) + 1
              && effects == old(effects) + [NewWire(w)]
    {
      var w := NewName();
      valueStack := valueStack + [Wire(w)];
      valueStack := valueStack + [Wire(w)];
      effects := effects + [NewWire(w)];
    }

    method ConnectPrimitive()
      requires |valueStack| >= 2
      modifies this`valueStack, this`effects
      ensures var n := |old(valueStack)| - 2;
              && valueStack == old(valueStack)[..n]
              && effects == old(effects) + [Joined(Pair(old(valueStack)[n], old(valueStack)[n + 1]))]
    {
      var n := |valueStack| - 1;
      var second := valueStack[n];
      valueStack := valueStack[..n];
      var first := valueStack[n - 1];
      valueStack := valueStack[..n - 1];
      effects := effects + [Joined(Pair(first, second))];
    }

    method Apply(target: Value, arity: nat) returns (ok: bool)
      requires Valid()
      modifies this`valueStack, this`supply, this`effects, this`returnStack
      ensures Valid() && old(returnStack) <= returnStack && returnStack[..|old(returnStack)|] == old(returnStack)
      ensures forall i :: |old(returnStack)| <= i < |returnStack| ==> fresh(returnStack[i])
      ensures ok == ApplyValue(program, redex, old(AsState()), target, arity).Some?
      ensures ok ==> AsState() == ApplyValue(program, redex, old(AsState()), target, arity).value
    {
      hide Construct;
      ghost var s := AsState();
      match target
      case Ctor(ctor) =>
        ok := ReconnectNode(ctor, arity);
        assert Frames() == s.frames;
      case Function(i) =>
        if i >= |program.functions| || program.functions[i].arity != arity { return false; }
        var frame := new FrameObject(program.functions[i].opcodes);
        PushFrame(frame);
        ok := true;
      case Primitive(i) =>
        if i >= |program.primitives| { return false; }
        match program.primitives[i] {
          case WithNode(ctor) =>
            ok := ReconnectNode(ctor, arity);
            assert Frames() == s.frames;
          case Link =>
            if arity != 0 { return false; }
            LinkPrimitive();
            assert Frames() == s.frames;
            ok := true;
          case Connect =>
            if arity != 2 || |valueStack| < 2 { return false; }
            ConnectPrimitive();
            assert Frames() == s.frames;
            ok := true;
        }
      case _ => ok := false;
    }

    /** The state without the frame whose opcode is being executed. */
    ghost function Around(keep: bool): State
      requires keep ==> returnStack != []
      reads this, returnStack
    {
      State(valueStack, if keep then Frames()[..|returnStack| - 1] else Frames(), supply, effects)
    }

    method ExecuteApply(arity: nat) returns (ok: bool)
      requires Valid()
      modifies this`valueStack, this`supply, this`effects, this`returnStack
      ensures Valid() && old(returnStack) <= returnStack
      ensures forall i :: |old(returnStack)| <= i < |returnStack| ==> fresh(returnStack[i])
      ensures var s := old(AsState());
              var o := if s.values == [] then None
                else ApplyValue(program, redex, s.(values := s.values[..|s.values| - 1]), s.values[|s.values| - 1],
                    arity);
              ok == o.Some? && (ok ==> AsState() == o.value)
    {
      hide ApplyValue;
      if valueStack == [] { return false; }
      var n := |valueStack| - 1;
      var target := valueStack[n];
      ghost var s := AsState();
      valueStack := valueStack[..n];
      assert AsState() == s.(values := s.values[..n]);
      ok := Apply(target, arity);
    }

    method ExecuteGet(frame: FrameObject, i: nat) returns (ok: bool)
      modifies this`valueStack, frame`variables
      ensures ok == (i in old(frame.variables))
      ensures ok ==>
                && valueStack == old(valueStack) + [old(frame.variables)[i]]
                && frame.variables == old(frame.variables) - {i}
    {
      var value := frame.GetVariable(i);
      if value.None? { return false; }
      valueStack := valueStack + [value.value];
      ok := true;
    }

    method ExecuteSet(frame: FrameObject, i: nat) returns (ok: bool)
      modifies this`valueStack, frame`variables
      ensures ok == (old(valueStack) != [] && i !in old(frame.variables))
      ensures ok ==>
                var n := |old(valueStack)| - 1;
                valueStack == old(valueStack)[..n] && frame.variables == old(frame.variables)[i := old(valueStack)[n]]
    {
      if valueStack == [] { return false; }
      var n := |valueStack| - 1;
      var value := valueStack[n];
      valueStack := valueStack[..n];
      ok := frame.SetVariable(i, value);
    }

    /** The frame is on top of the stack, or has been dropped because this is its last opcode. */
    method ExecuteOpcode(frame: FrameObject, op: Opcode, ghost keep: bool) returns (ok: bool)
      requires Valid()
      requires if keep then returnStack != [] && returnStack[|returnStack| - 1] == frame else frame !in returnStack
      modifies this`valueStack, this`supply, this`effects, this`returnStack, frame`variables
      ensures Valid() && old(returnStack) <= returnStack
      ensures forall i :: |old(returnStack)| <= i < |returnStack| ==> fresh(returnStack[i])
      ensures ok == Execute(program, redex, old(Around(keep)), old(frame.AsFrame()), op, keep).Some?
      ensures ok ==> AsState() == Execute(program, redex, old(Around(keep)), old(frame.AsFrame()), op, keep).value
    {
      hide ApplyValue;
      ghost var s := Around(keep);
      assert Frames() == s.frames + Back(frame.AsFrame(), keep);
      match op
      case Apply(arity) =>
        ok := ExecuteApply(arity);
      case Literal(v) =>
        valueStack := valueStack + [v];
        assert Frames() == s.frames + Back(frame.AsFrame(), keep);
        ok := true;
      case GetVariable(i) =>
        ok := ExecuteGet(frame, i);
        assert Frames() == s.frames + Back(frame.AsFrame(), keep);
      case SetVariable(i) =>
        ok := ExecuteSet(frame, i);
        assert Frames() == s.frames + Back(frame.AsFrame(), keep);
    }

    /** Pops the top frame, fetches an opcode, puts the frame back unless it is finished and
        tail calls are proper, and executes the opcode. */
    method RunOneStep(tail: bool) returns (ok: bool)
      requires Valid() && returnStack != []
      modifies this`valueStack, this`supply, this`effects, this`returnStack, returnStack
      ensures Valid()
      ensures forall i :: 0 <= i < |returnStack| ==> returnStack[i] in old(returnStack) || fresh(returnStack[i])
      ensures ok == Step(program, redex, old(AsState()), tail).Some?
      ensures ok ==> AsState() == Step(program, redex, old(AsState()), tail).value
    {
      hide Execute;
      var n := |returnStack| - 1;
      var frame := returnStack[n];
      returnStack := returnStack[..n];
      assert Frames() == old(Frames())[..n] && frame !in returnStack;
      if frame.cursor >= |frame.opcodes| {
        return true;
      }
      var op := frame.FetchOpcode();
      assert Frames() == old(Frames())[..n];
      var finished := frame.cursor >= |frame.opcodes|;
      if !tail || !finished {
        PushFrame(frame);
        assert Frames()[..n] == old(Frames())[..n];
        ok := ExecuteOpcode(frame, op, true);
      } else {
        ok := ExecuteOpcode(frame, op, false);
      }
    }

    /** Runs until the return stack is down to `base`. `n` bounds the steps that this takes. The
        frames below are left alone. */
    method RunUntil(base: nat, tail: bool, ghost n: nat) returns (ok: bool)
      requires Valid() && base <= |returnStack|
      requires var o := Run(program, redex, AsState().(frames := Frames()[base..]), tail, n);
               o.None? || o.value.frames == []
      modifies this`valueStack, this`supply, this`effects, this`returnStack, returnStack
      ensures Valid()
      ensures var o := Run(program, redex, old(AsState().(frames := Frames()[base..])), tail, n);
              ok == o.Some? && (ok ==> AsState() == o.value.(frames := old(Frames())[..base]))
    {
      hide Step;
      ghost var left: nat := n;
      while |returnStack| > base
        invariant Valid() && left <= n && base <= |returnStack|
        invariant forall i :: 0 <= i < |returnStack| ==> returnStack[i] in old(returnStack) || fresh(returnStack[i])
        invariant Frames()[..base] == old(Frames())[..base]
        invariant Run(program, redex, AsState().(frames := Frames()[base..]), tail, left)
               == Run(program, redex, old(AsState().(frames := Frames()[base..])), tail, n)
        decreases left
      {
        ghost var s, lower := AsState().(frames := Frames()[base..]), Frames()[..base];
        assert Frames() == lower + s.frames && s.frames != [] && AsState() == s.(frames := lower + s.frames);
        StepAbove(program, redex, lower, s, tail);
        ok := RunOneStep(tail);
        if !ok { return; }
        ghost var s' := Step(program, redex, s, tail).value;
        assert Frames() == lower + s'.frames;
        assert Frames()[base..] == s'.frames && Frames()[..base] == lower;
        assert |Frames()| == |returnStack|;
        left := left - 1;
      }
      assert Frames()[base..] == [] && Frames() == Frames()[..base];
      ok := true;
    }

    /** Takes the two nodes of an active pair apart, the left one first, and runs the body of
        the rule on what was at their ports, above whatever is on the two stacks. What is
        allocated from now on is named after the pair. */
    method HandleActivePair(key: set<Name>, left: seq<Value>, right: seq<Value>, code: seq<Opcode>, tail: bool,
            ghost n: nat) returns (ok: bool)
      requires Valid()
      requires var values := valueStack + (Interaction.Auxiliary(left) + Interaction.Auxiliary(right));
               var o := Run(program, key, Interaction.Start(code, values), tail, n);
               o.None? || o.value.frames == []
      modifies this, returnStack
      ensures Valid() && redex == key
      ensures var values := old(valueStack) + (Interaction.Auxiliary(left) + Interaction.Auxiliary(right));
              var o := Run(program, key, Interaction.Start(code, values), tail, n);
              ok == o.Some? && (ok ==> AsState() == o.value.(frames := old(Frames())))
      ensures var own := Interaction.Auxiliary(left) + Interaction.Auxiliary(right);
              var o := Run(program, key, Interaction.Start(code, own), tail, n);
              o.Some? ==>
                && ok
                && AsState() == o.value.(values := old(valueStack) + o.value.values, frames := old(Frames()))
    {
      hide Run, Interaction.Auxiliary;
      redex, supply, effects := key, 0, [];
      DisconnectNode(left);
      DisconnectNode(right);
      ghost var own := Interaction.Auxiliary(left) + Interaction.Auxiliary(right);
      assert valueStack == old(valueStack) + own;
      var base := |returnStack|;
      var frame := new FrameObject(code);
      PushFrame(frame);
      assert Frames()[..base] == old(Frames()) && Frames()[base..] == [Frame(code, 0, map[])];
      assert AsState().(frames := Frames()[base..]) == Interaction.Start(code, old(valueStack) + own);
      if Run(program, key, Interaction.Start(code, own), tail, n).Some? {
        RunBelow(program, key, old(valueStack), Interaction.Start(code, own), tail, n);
      }
      ok := RunUntil(base, tail, n);
    }
  }

  // What is below on the stacks does not matter

  lemma ExecuteAbove(p: Program, redex: set<Name>, lower: seq<Frame>, s: State, f: Frame, op: Opcode, keep: bool)
    ensures var o := Execute(p, redex, s, f, op, keep);
            Execute(p, redex, s.(frames := lower + s.frames), f, op, keep)
              == if o.None? then None else Some(o.value.(frames := lower + o.value.frames))
  {
    hide Construct;
    assert forall a: seq<Frame>, b :: lower + a + b == lower + (a + b);
  }

  /** A step does not look at the frames below the top one. */
  lemma StepAbove(p: Program, redex: set<Name>, lower: seq<Frame>, s: State, tail: bool)
    requires s.frames != []
    ensures var o := Step(p, redex, s, tail);
            Step(p, redex, s.(frames := lower + s.frames), tail)
              == if o.None? then None else Some(o.value.(frames := lower + o.value.frames))
  {
    hide Execute;
    var n := |s.frames| - 1;
    var f := s.frames[n];
    assert (lower + s.frames)[..|lower| + n] == lower + s.frames[..n] && (lower + s.frames)[|lower| + n] == f;
    if !IsFinished(f) {
      var f' := f.(cursor := f.cursor + 1);
      ExecuteAbove(p, redex, lower, s.(frames := s.frames[..n]), f', f.opcodes[f.cursor], !tail || !IsFinished(f'));
    }
  }

  function Under(below: seq<Value>, s: State): State { s.(values := below + s.values) }

  lemma ConstructBelow(p: Program, redex: set<Name>, below: seq<Value>, values: seq<Value>, supply: nat, ctor: nat,
          arity: nat)
    requires Construct(p, redex, values, supply, ctor, arity).Some?
    ensures var c := Construct(p, redex, values, supply, ctor, arity).value;
            Construct(p, redex, below + values, supply, ctor, arity) == Some(c.(values := below + c.values))
  {
    hide BuildInputs, BuildOutputs;
    var rest := |values| - arity;
    assert (below + values)[|below| + rest..] == values[rest..]
        && (below + values)[..|below| + rest] == below + values[..rest];
    var c := Construct(p, redex, values, supply, ctor, arity).value;
    var outputs := c.values[rest..];
    assert c.values == values[..rest] + outputs && below + values[..rest] + outputs == below + c.values;
  }

  lemma ApplyBelow(p: Program, redex: set<Name>, below: seq<Value>, s: State, target: Value, arity: nat)
    requires ApplyValue(p, redex, s, target, arity).Some?
    ensures ApplyValue(p, redex, Under(below, s), target, arity)
            == Some(Under(below, ApplyValue(p, redex, s, target, arity).value))
  {
    hide Construct;
    match target
    case Ctor(ctor) => ConstructBelow(p, redex, below, s.values, s.supply, ctor, arity);
    case Primitive(i) =>
      match p.primitives[i] {
        case WithNode(ctor) => ConstructBelow(p, redex, below, s.values, s.supply, ctor, arity);
        case Link =>
          var w := Born(redex, s.supply);
          assert below + s.values + [Wire(w), Wire(w)] == below + (s.values + [Wire(w), Wire(w)]);
        case Connect =>
          var n := |s.values| - 2;
          assert (below + s.values)[..|below| + n] == below + s.values[..n];
      }
    case _ =>
  }

  lemma ExecuteBelow(p: Program, redex: set<Name>, below: seq<Value>, s: State, f: Frame, op: Opcode, keep: bool)
    requires Execute(p, redex, s, f, op, keep).Some?
    ensures Execute(p, redex, Under(below, s), f, op, keep)
            == Some(Under(below, Execute(p, redex, s, f, op, keep).value))
  {
    hide ApplyValue;
    assert forall x: Value :: below + s.values + [x] == below + (s.values + [x]);
    if s.values != [] {
      var n := |s.values| - 1;
      assert (below + s.values)[..|below| + n] == below + s.values[..n]
          && (below + s.values)[|below| + n] == s.values[n];
      if op.Apply? {
        ApplyBelow(p, redex, below, s.(values := s.values[..n], frames := s.frames + Back(f, keep)), s.values[n],
            op.arity);
      }
    }
  }

  /** A run that comes through with its own values does the same above others, and leaves them. */
  lemma {:induction false} RunBelow(p: Program, redex: set<Name>, below: seq<Value>, s: State, tail: bool, n: nat)
    requires Run(p, redex, s, tail, n).Some?
    ensures Run(p, redex, Under(below, s), tail, n) == Some(Under(below, Run(p, redex, s, tail, n).value))
    decreases n
  {
    hide Execute;
    if n > 0 && s.frames != [] {
      var k := |s.frames| - 1;
      var f := s.frames[k];
      if !IsFinished(f) {
        var f' := f.(cursor := f.cursor + 1);
        ExecuteBelow(p, redex, below, s.(frames := s.frames[..k]), f', f.opcodes[f.cursor], !tail || !IsFinished(f'));
      }
      RunBelow(p, redex, below, Step(p, redex, s, tail).value, tail, n - 1);
    }
  }
}
