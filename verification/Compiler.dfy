/** From expressions to opcodes, and what expressions mean without any opcodes. */
module Compiler {
  import opened Values
  import opened Machine

  datatype Exp =
    | Var(name: string)
    | Ap(target: Exp, args: seq<Exp>)
    | Assign(names: seq<string>, exp: Exp)
    | Lit(value: Value)

  datatype Source = Source(params: seq<string>, body: seq<Exp>)

  /** What a module defines: global names, and functions as sources and as code. */
  datatype Context = Context(globals: map<string, Value>, program: Program, sources: seq<Source>)

  // Compiling

  /** Local variables are numbered as they are first stored into. */
  type Locals = map<string, nat>

  datatype Out = Out(locals: Locals, code: seq<Opcode>)

  function CompileSet(locals: Locals, name: string): Out {
    if name in locals then Out(locals, [SetVariable(locals[name])])
    else Out(locals[name := |locals|], [SetVariable(|locals|)])
  }

  /** The last name takes the top of the stack. */
  function CompileSets(locals: Locals, names: seq<string>): Out
    decreases |names|
  {
    if names == [] then Out(locals, []) else
    var n := |names| - 1;
    var first := CompileSet(locals, names[n]);
    var rest := CompileSets(first.locals, names[..n]);
    Out(rest.locals, first.code + rest.code)
  }

  function Compile(globals: map<string, Value>, locals: Locals, exp: Exp): Option<Out>
    decreases exp, 1
  {
    match exp
    case Var(name) =>
      if name in locals then Some(Out(locals, [GetVariable(locals[name])]))
      else if name in globals then Some(Out(locals, [Literal(globals[name])]))
      else None
    case Ap(target, args) =>
      var a := CompileList(globals, locals, args);
      if a.None? then None else
      var t := Compile(globals, a.value.locals, target);
      if t.None? then None else
      Some(Out(t.value.locals, a.value.code + t.value.code + [Apply(|args|)]))
    case Assign(names, e) =>
      var o := Compile(globals, locals, e);
      if o.None? then None else
      var sets := CompileSets(o.value.locals, names);
      Some(Out(sets.locals, o.value.code + sets.code))
    case Lit(v) => Some(Out(locals, [Literal(v)]))
  }

  function CompileList(globals: map<string, Value>, locals: Locals, exps: seq<Exp>): Option<Out>
    decreases exps, 0
  {
    if exps == [] then Some(Out(locals, [])) else
    var first := Compile(globals, locals, exps[0]);
    if first.None? then None else
    var rest := CompileList(globals, first.value.locals, exps[1..]);
    if rest.None? then None else
    Some(Out(rest.value.locals, first.value.code + rest.value.code))
  }

  /** Arguments first go from the stack into the parameters. */
  function CompileFunction(globals: map<string, Value>, source: Source): Option<Out> {
    var params := CompileSets(map[], source.params);
    var body := CompileList(globals, params.locals, source.body);
    if body.None? then None else Some(Out(body.value.locals, params.code + body.value.code))
  }

  ghost predicate Compiled(ctx: Context) {
    && |ctx.sources| == |ctx.program.functions|
    && forall i :: 0 <= i < |ctx.sources| ==>
         var o := CompileFunction(ctx.globals, ctx.sources[i]);
         o.Some? && ctx.program.functions[i] == Code(|ctx.sources[i].params|, o.value.code)
  }

  // Evaluating, without opcodes, indexes or frames

  /** A value stack, the variables that hold a value, and the net effects so far. */
  datatype Store = Store(values: seq<Value>, variables: map<string, Value>, supply: nat, effects: seq<Effect>)

  /** Names stored into so far: they are local from then on, full or empty. */
  function Declare(scope: set<string>, exp: Exp): set<string>
    decreases exp, 1
  {
    match exp
    case Var(_) => scope
    case Ap(target, args) => Declare(DeclareList(scope, args), target)
    case Assign(names, e) => Declare(scope, e) + set n | n in names
    case Lit(_) => scope
  }

  function DeclareList(scope: set<string>, exps: seq<Exp>): set<string>
    decreases exps, 0
  {
    if exps == [] then scope else DeclareList(Declare(scope, exps[0]), exps[1..])
  }

  /** The store once the top value is put under a name. */
  function BindOne(s: Store, name: string): Store
    requires s.values != []
  {
    var v := |s.values| - 1;
    s.(values := s.values[..v], variables := s.variables[name := s.values[v]])
  }

  /** Binds the names to the top values, the last name to the top one; each must be empty. */
  function Bind(names: seq<string>, s: Store): Option<Store> {
    if names == [] then Some(s) else
    var n := |names| - 1;
    if s.values == [] || names[n] in s.variables then None else Bind(names[..n], BindOne(s, names[n]))
  }

  /** Applies what is no function: as the machine does, for it has no opcodes of its own. */
  function ApplyOther(p: Program, redex: set<Name>, s: Store, target: Value, arity: nat): Option<Store>
    requires !target.Function?
  {
    var o := ApplyValue(p, redex, State(s.values, [], s.supply, s.effects), target, arity);
    if o.None? then None else
    Some(Store(o.value.values, s.variables, o.value.supply, o.value.effects))
  }

  /** Variables are linear: a use empties the variable. `fuel` bounds the depth of calls. */
  function Eval(fuel: nat, ctx: Context, redex: set<Name>, scope: set<string>, exp: Exp, s: Store): Option<Store>
    decreases fuel, 1, exp, 1
  {
    match exp
    case Var(name) =>
      if name in scope then
        if name !in s.variables then None
        else Some(s.(values := s.values + [s.variables[name]], variables := s.variables - {name}))
      else if name in ctx.globals then Some(s.(values := s.values + [ctx.globals[name]]))
      else None
    case Ap(target, args) =>
      var a := EvalList(fuel, ctx, redex, scope, args, s);
      if a.None? then None else
      var t := Eval(fuel, ctx, redex, DeclareList(scope, args), target, a.value);
      if t.None? then None else
      ApplyTop(fuel, ctx, redex, |args|, t.value)
    case Assign(names, e) =>
      var o := Eval(fuel, ctx, redex, scope, e, s);
      if o.None? then None else Bind(names, o.value)
    case Lit(v) => Some(s.(values := s.values + [v]))
  }

  function EvalList(fuel: nat, ctx: Context, redex: set<Name>, scope: set<string>, exps: seq<Exp>,
          s: Store): Option<Store>
    decreases fuel, 1, exps, 0
  {
    if exps == [] then Some(s) else
    var first := Eval(fuel, ctx, redex, scope, exps[0], s);
    if first.None? then None else
    EvalList(fuel, ctx, redex, Declare(scope, exps[0]), exps[1..], first.value)
  }

  /** Applies the value on top of the stack. */
  function ApplyTop(fuel: nat, ctx: Context, redex: set<Name>, arity: nat, s: Store): Option<Store>
    decreases fuel, 0
  {
    if s.values == [] then None else
    var n := |s.values| - 1;
    var s0 := s.(values := s.values[..n]);
    if s.values[n].Function? then
      if fuel == 0 then None else Call(fuel - 1, ctx, redex, s.values[n].index, arity, s0)
    else ApplyOther(ctx.program, redex, s0, s.values[n], arity)
  }

  /** A call, `fuel` calls deep at most, evaluates the body with variables of its own, on the caller's value stack. */
  function Call(fuel: nat, ctx: Context, redex: set<Name>, index: nat, arity: nat, s: Store): Option<Store>
    decreases fuel
  {
    if index >= |ctx.sources| || |ctx.sources[index].params| != arity then None else
    var source := ctx.sources[index];
    var b := Bind(source.params, s.(variables := map[]));
    if b.None? then None else
    var r := EvalList(fuel, ctx, redex, (set n | n in source.params), source.body, b.value);
    if r.None? then None else Some(r.value.(variables := s.variables))
  }
}
