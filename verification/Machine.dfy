/** The stack machine: frames of opcodes over a value stack. What it does to the net is
    recorded as a list of effects, because no opcode looks at the net: only at the values
    on the stack. An error that makes the program exit is None. */
module Machine {
  import opened Values

  datatype Opcode =
    | Apply(arity: nat)
    | Literal(value: Value)
    | GetVariable(index: nat)
    | SetVariable(index: nat)

  datatype Code = Code(arity: nat, opcodes: seq<Opcode>)

  /** `link`, `connect`, or a primitive that works through a node of its own. */
  datatype PrimitiveKind = Link | Connect | WithNode(ctor: nat)

  /** A constructor is the list of its ports: true for a principal one. */
  datatype Program = Program(ctors: seq<seq<bool>>, functions: seq<Code>, primitives: seq<PrimitiveKind>)

  /** What one opcode does to the net. A node comes with the wires at its ports and with
      the joins that its input ports need. */
  datatype Effect =
    | NewWire(id: Name)
    | Joined(pair: Pair)
    | NewNode(id: Name, ctor: nat, ports: seq<Value>, wires: seq<Name>, joins: seq<Pair>)

  datatype Frame = Frame(opcodes: seq<Opcode>, cursor: nat, variables: map<nat, Value>)

  /** Values and frames have their top at the end. `supply` numbers allocations. */
  datatype State = State(values: seq<Value>, frames: seq<Frame>, supply: nat, effects: seq<Effect>)

  predicate IsFinished(f: Frame) {
    f.cursor >= |f.opcodes|
  }

  // Building a node

  /** A node under construction: its ports, what was allocated and what must be joined. */
  datatype Built = Built(ports: seq<Value>, wires: seq<Name>, joins: seq<Pair>, supply: nat)

  /** Input ports are filled from the last to the first, popping the stack. A principal
      port gets a wire of its own to join; a port that does not carry interaction gets a
      wire in between if it is handed a principal wire. */
  function BuildInputs(redex: set<Name>, node: Name, ports: seq<bool>, args: seq<Value>, supply: nat): (b: Built)
    requires |args| <= |ports|
    ensures |b.ports| == |args|
  {
    if args == [] then Built([], [], [], supply) else
    var i := |args| - 1;
    var arg := args[i];
    if ports[i] then
      var rest := BuildInputs(redex, node, ports, args[..i], supply);
      Built(rest.ports + [Principal(node, i)], rest.wires, [Pair(Principal(node, i), arg)] + rest.joins, rest.supply)
    else if arg.Principal? then
      var w := Born(redex, supply);
      var rest := BuildInputs(redex, node, ports, args[..i], supply + 1);
      Built(rest.ports + [Wire(w)], [w] + rest.wires, [Pair(Wire(w), arg)] + rest.joins, rest.supply)
    else
      var rest := BuildInputs(redex, node, ports, args[..i], supply);
      Built(rest.ports + [arg], rest.wires, rest.joins, rest.supply)
  }

  /** The other ports are pushed as results, first to last. */
  function BuildOutputs(redex: set<Name>, node: Name, ports: seq<bool>, from: nat, supply: nat): (b: Built)
    requires from <= |ports|
    ensures |b.ports| == |ports| - from && b.joins == []
    decreases |ports| - from
  {
    if from == |ports| then Built([], [], [], supply) else
    if ports[from] then
      var rest := BuildOutputs(redex, node, ports, from + 1, supply);
      rest.(ports := [Principal(node, from)] + rest.ports)
    else
      var w := Born(redex, supply);
      var rest := BuildOutputs(redex, node, ports, from + 1, supply + 1);
      rest.(ports := [Wire(w)] + rest.ports, wires := [w] + rest.wires)
  }

  /** What applying a constructor does to the value stack and to the net. */
  datatype Change = Change(values: seq<Value>, supply: nat, effect: Effect)

  function Construct(p: Program, redex: set<Name>, values: seq<Value>, supply: nat, ctor: nat,
          arity: nat): Option<Change> {
    if ctor >= |p.ctors| || arity > |p.ctors[ctor]| || arity > |values| then None else
    var ports := p.ctors[ctor];
    var rest := |values| - arity;
    var node := Born(redex, supply);
    var inputs := BuildInputs(redex, node, ports, values[rest..], supply + 1);
    var outputs := BuildOutputs(redex, node, ports, arity, inputs.supply);
    Some(Change(
      values[..rest] + outputs.ports,
      outputs.supply,
      NewNode(node, ctor, inputs.ports + outputs.ports, inputs.wires + outputs.wires, inputs.joins)))
  }

  /** Applies a node constructor to the top `arity` values. */
  function ApplyCtor(p: Program, redex: set<Name>, s: State, ctor: nat, arity: nat): Option<State> {
    match Construct(p, redex, s.values, s.supply, ctor, arity)
    case None => None
    case Some(c) => Some(s.(values := c.values, supply := c.supply, effects := s.effects + [c.effect]))
  }

  function ApplyValue(p: Program, redex: set<Name>, s: State, target: Value, arity: nat): Option<State> {
    match target
    case Ctor(ctor) => ApplyCtor(p, redex, s, ctor, arity)
    case Function(i) =>
      if i >= |p.functions| || p.functions[i].arity != arity then None
      else Some(s.(frames := s.frames + [Frame(p.functions[i].opcodes, 0, map[])]))
    case Primitive(i) =>
      if i >= |p.primitives| then None else
      (match p.primitives[i]
       case WithNode(ctor) => ApplyCtor(p, redex, s, ctor, arity)
       case Link =>
         if arity != 0 then None else
         var w := Born(redex, s.supply);
         Some(s.(values := s.values + [Wire(w), Wire(w)], supply := s.supply + 1, effects := s.effects + [NewWire(w)]))
       case Connect =>
         if arity != 2 || |s.values| < 2 then None else
         var n := |s.values| - 2;
         Some(s.(values := s.values[..n], effects := s.effects + [Joined(Pair(s.values[n], s.values[n + 1]))])))
    case _ => None
  }

  function Back(f: Frame, keep: bool): seq<Frame> { if keep then [f] else [] }

  /** Executes an opcode for frame `f`, which has been taken off the stack and is put back
      below what the opcode pushes if `keep` holds. Reading a variable empties it; storing
      into one that is full is an error. */
  function Execute(p: Program, redex: set<Name>, s: State, f: Frame, op: Opcode, keep: bool): Option<State> {
    match op
    case Apply(arity) =>
      if s.values == [] then None else
      var n := |s.values| - 1;
      ApplyValue(p, redex, s.(values := s.values[..n], frames := s.frames + Back(f, keep)), s.values[n], arity)
    case Literal(v) =>
      Some(s.(values := s.values + [v], frames := s.frames + Back(f, keep)))
    case GetVariable(i) =>
      if i !in f.variables then None else
      Some(s.(values := s.values + [f.variables[i]],
          frames := s.frames + Back(f.(variables := f.variables - {i}), keep)))
    case SetVariable(i) =>
      if s.values == [] || i in f.variables then None else
      var n := |s.values| - 1;
      Some(s.(values := s.values[..n], frames := s.frames + Back(f.(variables := f.variables[i := s.values[n]]), keep)))
  }

  /** One step. With `tail` (proper tail calls) a frame whose last opcode is fetched is not
      put back; without, it is, and is dropped when it is found finished. */
  function Step(p: Program, redex: set<Name>, s: State, tail: bool): Option<State>
    requires s.frames != []
  {
    var n := |s.frames| - 1;
    var f := s.frames[n];
    var s0 := s.(frames := s.frames[..n]);
    if IsFinished(f) then Some(s0) else
    var f' := f.(cursor := f.cursor + 1);
    Execute(p, redex, s0, f', f.opcodes[f.cursor], !tail || !IsFinished(f'))
  }

  /** `n` steps, or fewer if the frames run out. */
  function Run(p: Program, redex: set<Name>, s: State, tail: bool, n: nat): Option<State>
    decreases n
  {
    if n == 0 || s.frames == [] then Some(s) else
    var o := Step(p, redex, s, tail);
    if o.None? then None else Run(p, redex, o.value, tail, n - 1)
  }

  /** The machine comes to rest in `t`. */
  ghost predicate Halts(p: Program, redex: set<Name>, s: State, tail: bool, t: State) {
    t.frames == [] && exists n :: Run(p, redex, s, tail, n) == Some(t)
  }
}
