/** An opcode copies no wire end: what it leaves on the stack, in variables, at the ports of
    a new node and in the joins to be done is what it found, plus two ends for each new wire
    and one for each new principal port. */
module NetEnds {
  import opened Values
  import opened Machine
  import opened Interaction

  function Count(vs: seq<Value>, v: Value): nat { multiset(vs)[v] }

  function InPair(p: Pair, v: Value): nat {
    (if p.left == v then 1 else 0) + (if p.right == v then 1 else 0)
  }

  function CountPairs(ps: seq<Pair>, v: Value): nat {
    if ps == [] then 0 else InPair(ps[0], v) + CountPairs(ps[1..], v)
  }

  function Holding(variables: map<nat, Value>, v: Value): set<nat> {
    set i | i in variables && variables[i] == v
  }

  function CountVariables(variables: map<nat, Value>, v: Value): nat {
    |Holding(variables, v)|
  }

  function CountFrames(frames: seq<Frame>, v: Value): nat {
    if frames == [] then 0
    else CountFrames(frames[..|frames| - 1], v) + CountVariables(frames[|frames| - 1].variables, v)
  }

  function CountState(s: State, v: Value): nat {
    Count(s.values, v) + CountFrames(s.frames, v)
  }

  /** Code whose literals are no wire ends. */
  predicate IsPure(code: seq<Opcode>) {
    forall i :: 0 <= i < |code| && code[i].Literal? ==> !IsEnd(code[i].value)
  }

  predicate PureProgram(p: Program) {
    forall i :: 0 <= i < |p.functions| ==> IsPure(p.functions[i].opcodes)
  }

  predicate PureFrames(frames: seq<Frame>) {
    forall i :: 0 <= i < |frames| ==> IsPure(frames[i].opcodes)
  }

  // Building a node

  lemma CountAppend(a: seq<Value>, b: seq<Value>, v: Value)
    ensures Count(a + b, v) == Count(a, v) + Count(b, v)
  {
  }

  lemma {:induction false} AuxiliaryAppend(a: seq<Value>, b: seq<Value>)
    ensures Auxiliary(a + b) == Auxiliary(a) + Auxiliary(b)
    decreases |b|
  {
    if b == [] {
      assert a + b == a;
    } else {
      var n := |b| - 1;
      AuxiliaryAppend(a, b[..n]);
      assert (a + b)[..|a + b| - 1] == a + b[..n];
    }
  }

  /** The wires of a construction are numbered one after the other. */
  ghost predicate Numbered(redex: set<Name>, wires: seq<Name>, from: nat) {
    forall i :: 0 <= i < |wires| ==> wires[i] == Born(redex, from + i)
  }

  function WireEnds(wires: seq<Name>, v: Value): nat {
    if v.Wire? && v.id in wires then 2 else 0
  }

  function PrincipalEnds(node: Name, ports: seq<bool>, from: nat, to: nat, v: Value): nat {
    if v.Principal? && v.node == node && from <= v.port < to && v.port < |ports| && ports[v.port] then 1 else 0
  }

  lemma {:induction false} InputsNumbered(redex: set<Name>, node: Name, ports: seq<bool>, args: seq<Value>, supply: nat)
    requires |args| <= |ports|
    ensures var b := BuildInputs(redex, node, ports, args, supply);
            b.supply == supply + |b.wires| && Numbered(redex, b.wires, supply)
  {
    if args != [] {
      var i := |args| - 1;
      InputsNumbered(redex, node, ports, args[..i], supply + if !ports[i] && args[i].Principal? then 1 else 0);
    }
  }

  lemma {:induction false} OutputsNumbered(redex: set<Name>, node: Name, ports: seq<bool>, from: nat, supply: nat)
    requires from <= |ports|
    ensures var b := BuildOutputs(redex, node, ports, from, supply);
            b.supply == supply + |b.wires| && Numbered(redex, b.wires, supply)
    decreases |ports| - from
  {
    if from < |ports| { OutputsNumbered(redex, node, ports, from + 1, supply + if ports[from] then 0 else 1); }
  }

  lemma FirstWire(redex: set<Name>, rest: seq<Name>, supply: nat, v: Value)
    requires Numbered(redex, rest, supply + 1)
    ensures WireEnds([Born(redex, supply)] + rest, v)
         == WireEnds(rest, v) + if v == Wire(Born(redex, supply)) then 2 else 0
  {
  }

  lemma FirstPair(p: Pair, rest: seq<Pair>, v: Value)
    ensures CountPairs([p] + rest, v) == InPair(p, v) + CountPairs(rest, v)
  {
    assert ([p] + rest)[1..] == rest;
  }

  lemma AddPort(a: seq<Value>, port: Value, b: seq<Value>, v: Value)
    ensures Count(Auxiliary(a + [port] + b), v) == Count(Auxiliary(a), v) + Count(Auxiliary(b), v)
              + if port == v && !port.Principal? then 1 else 0
    ensures Count(a + [port] + b, v) == Count(a, v) + Count(b, v) + if port == v then 1 else 0
  {
    AuxiliaryAppend(a, [port]);
    AuxiliaryAppend(a + [port], b);
  }

  lemma {:induction false} InputsConserve(redex: set<Name>, node: Name, ports: seq<bool>, args: seq<Value>,
          supply: nat, v: Value)
    requires |args| <= |ports| && IsEnd(v)
    ensures var b := BuildInputs(redex, node, ports, args, supply);
            Count(Auxiliary(b.ports), v) + CountPairs(b.joins, v)
              == Count(args, v) + WireEnds(b.wires, v) + PrincipalEnds(node, ports, 0, |args|, v)
  {
    hide Count, Auxiliary, CountPairs, WireEnds, Numbered;
    if args == [] {
      NoEnds(v);
    } else {
      var i := |args| - 1;
      var arg := args[i];
      assert args == args[..i] + [arg] + [];
      AddPort(args[..i], arg, [], v);
      var between := !ports[i] && arg.Principal?;
      var supply' := supply + if between then 1 else 0;
      InputsConserve(redex, node, ports, args[..i], supply', v);
      var rest := BuildInputs(redex, node, ports, args[..i], supply');
      var port := if ports[i] then Principal(node, i) else if between then Wire(Born(redex, supply)) else arg;
      assert rest.ports + [port] == rest.ports + [port] + [];
      AddPort(rest.ports, port, [], v);
      NoEnds(v);
      FirstPair(Pair(port, arg), rest.joins, v);
      if between {
        InputsNumbered(redex, node, ports, args[..i], supply');
        FirstWire(redex, rest.wires, supply, v);
      }
    }
  }

  lemma NoEnds(v: Value)
    ensures Count([], v) == 0 && Auxiliary([]) == [] && CountPairs([], v) == 0 && WireEnds([], v) == 0
  {
  }

  lemma {:induction false} OutputsConserve(redex: set<Name>, node: Name, ports: seq<bool>, from: nat, supply: nat,
          v: Value)
    requires from <= |ports| && IsEnd(v)
    ensures var b := BuildOutputs(redex, node, ports, from, supply);
            Count(Auxiliary(b.ports), v) + Count(b.ports, v)
              == WireEnds(b.wires, v) + PrincipalEnds(node, ports, from, |ports|, v)
    decreases |ports| - from
  {
    hide Count, Auxiliary, WireEnds, Numbered;
    NoEnds(v);
    if from < |ports| {
      var supply' := supply + if ports[from] then 0 else 1;
      OutputsConserve(redex, node, ports, from + 1, supply', v);
      var rest := BuildOutputs(redex, node, ports, from + 1, supply');
      var port := if ports[from] then Principal(node, from) else Wire(Born(redex, supply));
      assert [port] + rest.ports == [] + [port] + rest.ports;
      AddPort([], port, rest.ports, v);
      if !ports[from] {
        OutputsNumbered(redex, node, ports, from + 1, supply');
        FirstWire(redex, rest.wires, supply, v);
      }
    }
  }

  /** A principal port holds its own principal wire; no other port holds a principal wire. */
  ghost predicate WellBuilt(node: Name, kinds: seq<bool>, ports: seq<Value>, from: nat) {
    && from + |ports| <= |kinds|
    && forall i :: 0 <= i < |ports| ==>
         if kinds[from + i] then ports[i] == Principal(node, from + i) else !ports[i].Principal?
  }

  lemma {:induction false} InputsWellBuilt(redex: set<Name>, node: Name, kinds: seq<bool>, args: seq<Value>,
          supply: nat)
    requires |args| <= |kinds|
    ensures WellBuilt(node, kinds, BuildInputs(redex, node, kinds, args, supply).ports, 0)
  {
    if args != [] {
      var i := |args| - 1;
      InputsWellBuilt(redex, node, kinds, args[..i], supply + if !kinds[i] && args[i].Principal? then 1 else 0);
    }
  }

  lemma {:induction false} OutputsWellBuilt(redex: set<Name>, node: Name, kinds: seq<bool>, from: nat, supply: nat)
    requires from <= |kinds|
    ensures WellBuilt(node, kinds, BuildOutputs(redex, node, kinds, from, supply).ports, from)
    decreases |kinds| - from
  {
    if from < |kinds| {
      var supply' := supply + if kinds[from] then 0 else 1;
      OutputsWellBuilt(redex, node, kinds, from + 1, supply');
      var rest := BuildOutputs(redex, node, kinds, from + 1, supply');
      var ports := BuildOutputs(redex, node, kinds, from, supply).ports;
      assert forall i :: 1 <= i < |ports| ==> ports[i] == rest.ports[i - 1];
    }
  }

  /** What an opcode creates is named after its redex and numbered from `from` up to `to`. */
  ghost predicate NamedFrom(redex: set<Name>, e: Effect, from: nat, to: nat) {
    && from < to
    && (forall w :: w in WiresOf(e) ==> exists k {:trigger Born(redex, k)} :: from <= k < to && w == Born(redex, k))
    && (e.NewNode? ==> e.id == Born(redex, from))
  }

  ghost predicate IsBuilt(p: Program, redex: set<Name>, e: Effect, from: nat, to: nat) {
    && (e.NewNode? ==>
          && e.ctor < |p.ctors| && |e.ports| == |p.ctors[e.ctor]|
          && WellBuilt(e.id, p.ctors[e.ctor], e.ports, 0))
    && (!e.Joined? ==> NamedFrom(redex, e, from, to))
  }

  lemma ConstructBuilds(p: Program, redex: set<Name>, values: seq<Value>, supply: nat, ctor: nat, arity: nat)
    requires Construct(p, redex, values, supply, ctor, arity).Some?
    ensures var c := Construct(p, redex, values, supply, ctor, arity).value;
            && c.effect.NewNode? && c.effect.ctor == ctor && c.supply > supply
            && c.supply == supply + 1 + |c.effect.wires|
            && Numbered(redex, c.effect.wires, supply + 1)
            && IsBuilt(p, redex, c.effect, supply, c.supply)
  {
    hide BuildInputs, BuildOutputs;
    var kinds, node, rest := p.ctors[ctor], Born(redex, supply), |values| - arity;
    var args := values[rest..];
    InputsNumbered(redex, node, kinds, args, supply + 1);
    InputsWellBuilt(redex, node, kinds, args, supply + 1);
    var inputs := BuildInputs(redex, node, kinds, args, supply + 1);
    OutputsNumbered(redex, node, kinds, arity, inputs.supply);
    OutputsWellBuilt(redex, node, kinds, arity, inputs.supply);
    var c := Construct(p, redex, values, supply, ctor, arity).value;
    forall w | w in WiresOf(c.effect)
      ensures exists k {:trigger Born(redex, k)} :: supply <= k < c.supply && w == Born(redex, k)
    {
      var i :| 0 <= i < |c.effect.wires| && w == c.effect.wires[i];
      assert w == Born(redex, supply + 1 + i);
    }
  }

  lemma NewEndsOf(values: set<Value>, v: Value)
    ensures NewEnds(values)[v] == if v !in values then 0 else if v.Wire? then 2 else 1
  {
  }

  lemma WireEndsAppend(redex: set<Name>, a: seq<Name>, b: seq<Name>, from: nat, v: Value)
    requires Numbered(redex, a + b, from)
    ensures WireEnds(a + b, v) == WireEnds(a, v) + WireEnds(b, v)
  {
    assert forall i :: 0 <= i < |a| ==> a[i] == (a + b)[i];
    assert forall i :: 0 <= i < |b| ==> b[i] == (a + b)[|a| + i];
  }

  /** The ports hold the principal wire `v` exactly when it is one of the node's own. */
  lemma PrincipalAtPort(node: Name, kinds: seq<bool>, ports: seq<Value>, v: Value)
    requires WellBuilt(node, kinds, ports, 0) && |ports| == |kinds| && v.Principal?
    ensures v in ports <==> PrincipalEnds(node, kinds, 0, |kinds|, v) == 1
  {
    if v.node == node && v.port < |kinds| && kinds[v.port] { assert ports[v.port] == v; }
  }

  lemma EffectEnds(p: Program, redex: set<Name>, e: Effect, from: nat, to: nat, v: Value)
    requires e.NewNode? && IsBuilt(p, redex, e, from, to) && IsEnd(v)
    ensures NewEnds(ValuesOf(e))[v]
            == WireEnds(e.wires, v) + PrincipalEnds(e.id, p.ctors[e.ctor], 0, |p.ctors[e.ctor]|, v)
  {
    NewEndsOf(ValuesOf(e), v);
    if v.Principal? { PrincipalAtPort(e.id, p.ctors[e.ctor], e.ports, v); }
  }

  lemma ConstructConserves(p: Program, redex: set<Name>, values: seq<Value>, supply: nat, ctor: nat, arity: nat,
          v: Value)
    requires Construct(p, redex, values, supply, ctor, arity).Some? && IsEnd(v)
    ensures var c := Construct(p, redex, values, supply, ctor, arity).value;
            && c.effect.NewNode?
            && Count(c.values, v) + Count(Auxiliary(c.effect.ports), v) + CountPairs(c.effect.joins, v)
                 == Count(values, v) + NewEnds(ValuesOf(c.effect))[v]
  {
    hide Count, Auxiliary, CountPairs, WireEnds, Numbered, BuildInputs, BuildOutputs, NewEnds, ValuesOf, IsBuilt;
    var c := Construct(p, redex, values, supply, ctor, arity).value;
    ConstructBuilds(p, redex, values, supply, ctor, arity);
    EffectEnds(p, redex, c.effect, supply, c.supply, v);
    var kinds, node, rest := p.ctors[ctor], Born(redex, supply), |values| - arity;
    var args := values[rest..];
    InputsConserve(redex, node, kinds, args, supply + 1, v);
    var inputs := BuildInputs(redex, node, kinds, args, supply + 1);
    OutputsConserve(redex, node, kinds, arity, inputs.supply, v);
    var outputs := BuildOutputs(redex, node, kinds, arity, inputs.supply);
    assert values == values[..rest] + args;
    CountAppend(values[..rest], args, v);
    CountAppend(values[..rest], outputs.ports, v);
    AuxiliaryAppend(inputs.ports, outputs.ports);
    CountAppend(Auxiliary(inputs.ports), Auxiliary(outputs.ports), v);
    WireEndsAppend(redex, inputs.wires, outputs.wires, supply + 1, v);
  }

  // One opcode

  lemma VariableTaken(variables: map<nat, Value>, i: nat, v: Value)
    requires i in variables
    ensures CountVariables(variables, v) == CountVariables(variables - {i}, v) + if variables[i] == v then 1 else 0
  {
    assert Holding(variables, v) == Holding(variables - {i}, v) + if variables[i] == v then {i} else {};
  }

  lemma VariableStored(variables: map<nat, Value>, i: nat, x: Value, v: Value)
    requires i !in variables
    ensures CountVariables(variables[i := x], v) == CountVariables(variables, v) + if x == v then 1 else 0
  {
    assert variables[i := x] - {i} == variables;
    VariableTaken(variables[i := x], i, v);
  }

  lemma FramePushed(frames: seq<Frame>, f: Frame, v: Value)
    ensures CountFrames(frames + [f], v) == CountFrames(frames, v) + CountVariables(f.variables, v)
  {
    assert (frames + [f])[..|frames|] == frames;
  }

  /** The ends at the ports of a node that an effect makes. */
  function AtPorts(e: Effect, v: Value): nat {
    if e.NewNode? then Count(Auxiliary(e.ports), v) else 0
  }

  /** The variables of a frame after an opcode that has been fetched from it. */
  function VariablesAfter(f: Frame, op: Opcode, values: seq<Value>): map<nat, Value> {
    match op
    case GetVariable(i) => f.variables - {i}
    case SetVariable(i) => if values == [] then f.variables else f.variables[i := values[|values| - 1]]
    case _ => f.variables
  }

  /** The variables that are lost with the frame that a step drops: one that is found
      finished, or one whose last opcode is executed, which is not put back. */
  function Dropped(s: State): map<nat, Value>
    requires s.frames != []
  {
    var f := s.frames[|s.frames| - 1];
    if IsFinished(f) then f.variables
    else if !IsFinished(f.(cursor := f.cursor + 1)) then map[]
    else VariablesAfter(f, f.opcodes[f.cursor], s.values)
  }

  /** What holds of a step from a state without effects: every end is kept, but for the
      `lost` ones in the variables of a frame that is dropped. */
  ghost predicate Conserves(p: Program, key: set<Name>, s: State, s': State, v: Value, lost: nat) {
    && |s'.effects| <= 1 && s.supply <= s'.supply
    && (s'.effects == [] ==> CountState(s', v) + lost == CountState(s, v))
    && (s'.effects != [] ==>
          var e := s'.effects[0];
          && IsBuilt(p, key, e, s.supply, s'.supply)
          && CountState(s', v) + AtPorts(e, v) + CountPairs(JoinsOf(e), v) + lost
              == CountState(s, v) + NewEnds(ValuesOf(e))[v])
  }

  lemma ApplyCtorConserves(p: Program, key: set<Name>, s: State, ctor: nat, arity: nat, v: Value)
    requires s.effects == [] && IsEnd(v) && ApplyCtor(p, key, s, ctor, arity).Some?
    ensures Conserves(p, key, s, ApplyCtor(p, key, s, ctor, arity).value, v, 0)
  {
    hide Construct, Count, NewEnds, ValuesOf, IsBuilt, CountPairs, Auxiliary;
    ConstructBuilds(p, key, s.values, s.supply, ctor, arity);
    ConstructConserves(p, key, s.values, s.supply, ctor, arity, v);
  }

  lemma LinkConserves(p: Program, key: set<Name>, s: State, v: Value)
    requires s.effects == [] && IsEnd(v)
    ensures var w := Born(key, s.supply);
            Conserves(p, key, s, s.(values := s.values + [Wire(w), Wire(w)], supply := s.supply + 1,
                effects := [NewWire(w)]), v, 0)
  {
    var w := Born(key, s.supply);
    NewEndsOf(ValuesOf(NewWire(w)), v);
    CountAppend(s.values, [Wire(w), Wire(w)], v);
    hide CountFrames;
  }

  lemma ConnectConserves(p: Program, key: set<Name>, s: State, v: Value)
    requires s.effects == [] && IsEnd(v) && |s.values| >= 2
    ensures var n := |s.values| - 2;
            Conserves(p, key, s, s.(values := s.values[..n], effects := [Joined(Pair(s.values[n], s.values[n + 1]))]),
                v, 0)
  {
    var n := |s.values| - 2;
    assert s.values == s.values[..n] + [s.values[n], s.values[n + 1]];
    CountAppend(s.values[..n], [s.values[n], s.values[n + 1]], v);
    FirstPair(Pair(s.values[n], s.values[n + 1]), [], v);
    assert [Pair(s.values[n], s.values[n + 1])] + [] == [Pair(s.values[n], s.values[n + 1])];
    CountAppend([s.values[n]], [s.values[n + 1]], v);
    assert [s.values[n]] + [s.values[n + 1]] == [s.values[n], s.values[n + 1]];
    NewEndsOf({}, v);
    hide CountFrames;
  }

  lemma ApplyConserves(p: Program, key: set<Name>, s: State, target: Value, arity: nat, v: Value)
    requires s.effects == [] && PureProgram(p) && PureFrames(s.frames) && IsEnd(v)
    requires ApplyValue(p, key, s, target, arity).Some?
    ensures var s' := ApplyValue(p, key, s, target, arity).value;
            PureFrames(s'.frames) && Conserves(p, key, s, s', v, 0)
    ensures !IsEnd(target)
  {
    hide CountState, IsPure;
    match target
    case Ctor(ctor) => ApplyCtorConserves(p, key, s, ctor, arity, v);
    case Function(i) =>
      var f := Frame(p.functions[i].opcodes, 0, map[]);
      FrameConserves(s, f, v);
    case Primitive(i) =>
      match p.primitives[i] {
        case WithNode(ctor) => ApplyCtorConserves(p, key, s, ctor, arity, v);
        case Link =>
          LinkConserves(p, key, s, v);
          assert s.effects + [NewWire(Born(key, s.supply))] == [NewWire(Born(key, s.supply))];
        case Connect =>
          ConnectConserves(p, key, s, v);
          var n := |s.values| - 2;
          assert s.effects + [Joined(Pair(s.values[n], s.values[n + 1]))]
              == [Joined(Pair(s.values[n], s.values[n + 1]))];
      }
    case _ =>
  }

  lemma FrameConserves(s: State, f: Frame, v: Value)
    ensures CountState(s.(frames := s.frames + [f]), v) == CountState(s, v) + CountVariables(f.variables, v)
    ensures CountVariables(map[], v) == 0
  {
  }

  lemma BackConserves(s: State, f: Frame, keep: bool, v: Value)
    ensures CountState(s.(frames := s.frames + Back(f, keep)), v)
         == CountState(s, v) + if keep then CountVariables(f.variables, v) else 0
  {
    assert s.frames + [] == s.frames;
    FramePushed(s.frames, f, v);
  }

  lemma PopConserves(s: State, v: Value)
    requires s.values != []
    ensures CountState(s, v) == CountState(s.(values := s.values[..|s.values| - 1]), v) +
            if s.values[|s.values| - 1] == v then 1 else 0
  {
    var n := |s.values| - 1;
    assert s.values == s.values[..n] + [s.values[n]];
    CountAppend(s.values[..n], [s.values[n]], v);
    hide CountFrames;
  }

  lemma ExecuteConserves(p: Program, key: set<Name>, s: State, f: Frame, op: Opcode, keep: bool, v: Value)
    requires s.effects == [] && PureProgram(p) && PureFrames(s.frames) && IsPure(f.opcodes) && IsEnd(v)
    requires op.Literal? ==> !IsEnd(op.value)
    requires Execute(p, key, s, f, op, keep).Some?
    ensures var s' := Execute(p, key, s, f, op, keep).value;
            PureFrames(s'.frames) &&
            Conserves(p, key, s.(frames := s.frames + [f]), s', v,
                      if keep then 0 else CountVariables(VariablesAfter(f, op, s.values), v))
  {
    hide ApplyValue, CountState, CountVariables, IsPure, IsBuilt, NewEnds, ValuesOf, AtPorts, CountPairs;
    FrameConserves(s, f, v);
    match op
    case Apply(arity) =>
      var n := |s.values| - 1;
      var s0 := s.(values := s.values[..n], frames := s.frames + Back(f, keep));
      PopConserves(s, v);
      BackConserves(s.(values := s.values[..n]), f, keep, v);
      ApplyConserves(p, key, s0, s.values[n], arity, v);
    case Literal(x) =>
      BackConserves(s, f, keep, v);
      var s' := Execute(p, key, s, f, op, keep).value;
      assert s'.values[..|s'.values| - 1] == s.values;
      PopConserves(s', v);
    case GetVariable(i) =>
      var f' := f.(variables := f.variables - {i});
      VariableTaken(f.variables, i, v);
      BackConserves(s, f', keep, v);
      var s' := Execute(p, key, s, f, op, keep).value;
      assert s'.values[..|s'.values| - 1] == s.values;
      PopConserves(s', v);
    case SetVariable(i) =>
      var n := |s.values| - 1;
      VariableStored(f.variables, i, s.values[n], v);
      PopConserves(s, v);
      BackConserves(s.(values := s.values[..n]), f.(variables := f.variables[i := s.values[n]]), keep, v);
  }

  lemma StepConserves(p: Program, key: set<Name>, s: State, v: Value)
    requires s.effects == [] && PureProgram(p) && PureFrames(s.frames) && IsEnd(v)
    requires s.frames != [] && Step(p, key, s, true).Some?
    ensures var s' := Step(p, key, s, true).value;
            PureFrames(s'.frames) && Conserves(p, key, s, s', v, CountVariables(Dropped(s), v))
  {
    hide Execute, IsBuilt, NewEnds, ValuesOf, AtPorts, CountPairs, CountVariables, VariablesAfter;
    var n := |s.frames| - 1;
    var f := s.frames[n];
    assert s.frames[..n] + [f] == s.frames;
    if IsFinished(f) {
      FrameConserves(s.(frames := s.frames[..n]), f, v);
    } else {
      var f' := f.(cursor := f.cursor + 1);
      var s0 := s.(frames := s.frames[..n]);
      ExecuteConserves(p, key, s0, f', f.opcodes[f.cursor], !IsFinished(f'), v);
      FrameConserves(s0, f', v);
      FrameConserves(s0, f, v);
      AfterSame(f, f', f.opcodes[f.cursor], s.values);
    }
  }

  lemma AfterSame(f: Frame, g: Frame, op: Opcode, values: seq<Value>)
    requires f.variables == g.variables
    ensures VariablesAfter(f, op, values) == VariablesAfter(g, op, values)
  {
  }
}
