/** The compiled code, run on the machine, does what the expression evaluates to: the same
    value stack, variables, allocations and net effects, or no result on either side. */
module CompilerCorrect {
  import opened Values
  import opened Machine
  import opened Compiler
  import TailCall

  // Variables by name and by index

  predicate IsNumbering(locals: Locals) {
    && (forall n :: n in locals ==> locals[n] < |locals|)
    && (forall n, m :: n in locals && m in locals && locals[n] == locals[m] ==> n == m)
  }

  /** The frame holds at each local's index what the name holds. */
  predicate Match(locals: Locals, variables: map<string, Value>, slots: map<nat, Value>) {
    && IsNumbering(locals)
    && (forall n :: n in variables ==> n in locals)
    && (forall n :: n in locals ==> (n in variables <==> locals[n] in slots))
    && (forall n :: n in variables ==> slots[locals[n]] == variables[n])
    && (forall i :: i in slots ==> i < |locals|)
  }

  lemma MatchDeclare(locals: Locals, name: string, variables: map<string, Value>, slots: map<nat, Value>)
    requires Match(locals, variables, slots) && name !in locals
    ensures Match(locals[name := |locals|], variables, slots)
  {
  }

  lemma CompileSetNumbers(locals: Locals, name: string, variables: map<string, Value>, slots: map<nat, Value>)
    requires Match(locals, variables, slots)
    ensures var o := CompileSet(locals, name);
            && name in o.locals && o.locals.Keys == locals.Keys + {name}
            && o.code == [SetVariable(o.locals[name])]
            && Match(o.locals, variables, slots)
  {
    hide Match;
    if name !in locals { MatchDeclare(locals, name, variables, slots); }
  }

  // The machine in the middle of a piece of code

  /** The machine about to execute `code` at `cursor`, above the frames `base`. */
  function At(s: Store, base: seq<Frame>, code: seq<Opcode>, cursor: nat, slots: map<nat, Value>): State {
    State(s.values, base + [Frame(code, cursor, slots)], s.supply, s.effects)
  }

  predicate CodeAt(code: seq<Opcode>, cursor: nat, piece: seq<Opcode>) {
    cursor + |piece| <= |code| && code[cursor..cursor + |piece|] == piece
  }

  lemma CodeSplit(code: seq<Opcode>, cursor: nat, a: seq<Opcode>, b: seq<Opcode>)
    requires CodeAt(code, cursor, a + b)
    ensures CodeAt(code, cursor, a) && CodeAt(code, cursor + |a|, b)
  {
    assert (a + b)[..|a|] == a && (a + b)[|a|..] == b;
    assert code[cursor..cursor + |a + b|][..|a|] == code[cursor..cursor + |a|];
    assert code[cursor..cursor + |a + b|][|a|..] == code[cursor + |a|..cursor + |a + b|];
  }

  lemma {:induction false} RunAdd(p: Program, redex: set<Name>, s: State, m: nat, n: nat)
    requires Run(p, redex, s, false, m).Some?
    ensures Run(p, redex, s, false, m + n) == Run(p, redex, Run(p, redex, s, false, m).value, false, n)
    decreases m
  {
    hide Step;
    if m > 0 && s.frames != [] {
      RunAdd(p, redex, Step(p, redex, s, false).value, m - 1, n);
    }
  }

  /** One step inside a frame. */
  lemma StepAt(p: Program, redex: set<Name>, s: Store, base: seq<Frame>, code: seq<Opcode>, cursor: nat,
          slots: map<nat, Value>)
    requires cursor < |code|
    ensures Step(p, redex, At(s, base, code, cursor, slots), false)
         == Execute(p, redex, State(s.values, base, s.supply, s.effects), Frame(code, cursor + 1, slots), code[cursor],
             true)
  {
  }

  lemma RunAt(p: Program, redex: set<Name>, s: Store, base: seq<Frame>, code: seq<Opcode>, cursor: nat,
          slots: map<nat, Value>, n: nat)
    requires n > 0
    ensures At(s, base, code, cursor, slots).frames != []
    ensures var a := At(s, base, code, cursor, slots);
            var o := Step(p, redex, a, false);
            Run(p, redex, a, false, n) == if o.None? then None else Run(p, redex, o.value, false, n - 1)
  {
  }

  lemma RunOneAt(p: Program, redex: set<Name>, s: Store, base: seq<Frame>, code: seq<Opcode>, cursor: nat,
          slots: map<nat, Value>)
    ensures var a := At(s, base, code, cursor, slots);
            a.frames != [] && Run(p, redex, a, false, 1) == Step(p, redex, a, false)
  {
  }

  /** Scope and locals declare the same names. */
  lemma {:induction false} SetsDeclare(locals: Locals, names: seq<string>)
    ensures CompileSets(locals, names).locals.Keys == locals.Keys + set n | n in names
    decreases |names|
  {
    if names != [] {
      var n := |names| - 1;
      SetsDeclare(CompileSet(locals, names[n]).locals, names[..n]);
      assert names == names[..n] + [names[n]];
    }
  }

  lemma {:induction false} CompileDeclares(globals: map<string, Value>, locals: Locals, exp: Exp)
    requires Compile(globals, locals, exp).Some?
    ensures Compile(globals, locals, exp).value.locals.Keys == Declare(locals.Keys, exp)
    decreases exp, 1
  {
    match exp
    case Var(_) =>
    case Ap(target, args) =>
      CompileListDeclares(globals, locals, args);
      CompileDeclares(globals, CompileList(globals, locals, args).value.locals, target);
    case Assign(names, e) =>
      CompileDeclares(globals, locals, e);
      SetsDeclare(Compile(globals, locals, e).value.locals, names);
    case Lit(_) =>
  }

  lemma {:induction false} CompileListDeclares(globals: map<string, Value>, locals: Locals, exps: seq<Exp>)
    requires CompileList(globals, locals, exps).Some?
    ensures CompileList(globals, locals, exps).value.locals.Keys == DeclareList(locals.Keys, exps)
    decreases exps, 0
  {
    if exps != [] {
      CompileDeclares(globals, locals, exps[0]);
      CompileListDeclares(globals, Compile(globals, locals, exps[0]).value.locals, exps[1..]);
    }
  }

  // From evaluation to the machine

  lemma {:induction false} SetsLength(locals: Locals, names: seq<string>)
    ensures |CompileSets(locals, names).code| == |names|
    decreases |names|
  {
    if names != [] { SetsLength(CompileSet(locals, names[|names| - 1]).locals, names[..|names| - 1]); }
  }

  lemma SetStep(p: Program, redex: set<Name>, name: string, locals: Locals,
                s: Store, base: seq<Frame>, code: seq<Opcode>, cursor: nat, slots: map<nat, Value>)
    requires Match(locals, s.variables, slots) && name in locals
    requires cursor < |code| && code[cursor] == SetVariable(locals[name])
    ensures var o := Step(p, redex, At(s, base, code, cursor, slots), false);
            if s.values == [] || name in s.variables then o.None?
            else
              var slots' := slots[locals[name] := s.values[|s.values| - 1]];
              && o == Some(At(BindOne(s, name), base, code, cursor + 1, slots'))
              && Match(locals, BindOne(s, name).variables, slots')
  {
  }

  lemma {:induction false} SetsRun(p: Program, redex: set<Name>, names: seq<string>, locals: Locals,
                                   s: Store, base: seq<Frame>, code: seq<Opcode>, cursor: nat, slots: map<nat, Value>)
    returns (slots': map<nat, Value>)
    requires Match(locals, s.variables, slots) && CodeAt(code, cursor, CompileSets(locals, names).code)
    ensures var o := Bind(names, s);
            if o.None? then Run(p, redex, At(s, base, code, cursor, slots), false, |names|).None?
            else
              && Run(p, redex, At(s, base, code, cursor, slots), false, |names|)
                   == Some(At(o.value, base, code, cursor + |names|, slots'))
              && Match(CompileSets(locals, names).locals, o.value.variables, slots')
    decreases |names|
  {
    hide Match, Step, CompileSet, BindOne, At;
    slots' := slots;
    if names != [] {
      var n := |names| - 1;
      CompileSetNumbers(locals, names[n], s.variables, slots);
      var first := CompileSet(locals, names[n]);
      CodeSplit(code, cursor, first.code, CompileSets(first.locals, names[..n]).code);
      assert code[cursor] == code[cursor..cursor + 1][0];
      SetStep(p, redex, names[n], first.locals, s, base, code, cursor, slots);
      RunAt(p, redex, s, base, code, cursor, slots, |names|);
      if s.values != [] && names[n] !in s.variables {
        slots' := SetsRun(p, redex, names[..n], first.locals, BindOne(s, names[n]), base, code, cursor + 1,
                          slots[first.locals[names[n]] := s.values[|s.values| - 1]]);
      }
    }
  }

  lemma GetStep(p: Program, redex: set<Name>, name: string, locals: Locals,
                s: Store, base: seq<Frame>, code: seq<Opcode>, cursor: nat, slots: map<nat, Value>)
    requires Match(locals, s.variables, slots) && name in locals
    requires cursor < |code| && code[cursor] == GetVariable(locals[name])
    ensures var o := Step(p, redex, At(s, base, code, cursor, slots), false);
            if name !in s.variables then o.None?
            else
              var s' := s.(values := s.values + [s.variables[name]], variables := s.variables - {name});
              var slots' := slots - {locals[name]};
              o == Some(At(s', base, code, cursor + 1, slots')) && Match(locals, s'.variables, slots')
  {
  }

  lemma LiteralStep(p: Program, redex: set<Name>, v: Value,
                    s: Store, base: seq<Frame>, code: seq<Opcode>, cursor: nat, slots: map<nat, Value>)
    requires cursor < |code| && code[cursor] == Literal(v)
    ensures Step(p, redex, At(s, base, code, cursor, slots), false)
         == Some(At(s.(values := s.values + [v]), base, code, cursor + 1, slots))
  {
  }

  lemma ApplyStep(ctx: Context, redex: set<Name>, arity: nat,
                  s: Store, base: seq<Frame>, code: seq<Opcode>, cursor: nat, slots: map<nat, Value>)
    requires Compiled(ctx) && cursor < |code| && code[cursor] == Apply(arity)
    ensures var o := Step(ctx.program, redex, At(s, base, code, cursor, slots), false);
            if s.values == [] then o.None? else
            var n := |s.values| - 1;
            var s0 := s.(values := s.values[..n]);
            var caller := base + [Frame(code, cursor + 1, slots)];
            match s.values[n]
            case Function(i) =>
              if i >= |ctx.sources| || |ctx.sources[i].params| != arity then o.None?
              else o == Some(At(s0, caller, ctx.program.functions[i].opcodes, 0, map[]))
            case target =>
              var r := ApplyOther(ctx.program, redex, s0, target, arity);
              if r.None? then o.None? else o == Some(At(r.value, base, code, cursor + 1, slots))
  {
  }

  /** A variable or a literal takes one step. */
  lemma LeafRuns(fuel: nat, ctx: Context, redex: set<Name>, exp: Exp, locals: Locals,
                 s: Store, base: seq<Frame>, code: seq<Opcode>, cursor: nat, slots: map<nat, Value>)
    returns (slots': map<nat, Value>)
    requires (exp.Var? || exp.Lit?) && Match(locals, s.variables, slots)
    requires Compile(ctx.globals, locals, exp).Some?
    requires CodeAt(code, cursor, Compile(ctx.globals, locals, exp).value.code)
    requires Eval(fuel, ctx, redex, locals.Keys, exp, s).Some?
    ensures var out, s' := Compile(ctx.globals, locals, exp).value, Eval(fuel, ctx, redex, locals.Keys, exp, s).value;
            && Run(ctx.program, redex, At(s, base, code, cursor, slots), false, 1)
                 == Some(At(s', base, code, cursor + |out.code|, slots'))
            && Match(out.locals, s'.variables, slots')
  {
    hide Match, Step, Run, At;
    var p := ctx.program;
    slots' := slots;
    assert code[cursor] == code[cursor..cursor + 1][0];
    RunOneAt(p, redex, s, base, code, cursor, slots);
    match exp
    case Var(name) =>
      if name in locals {
        GetStep(p, redex, name, locals, s, base, code, cursor, slots);
        slots' := slots - {locals[name]};
      } else {
        LiteralStep(p, redex, ctx.globals[name], s, base, code, cursor, slots);
      }
    case Lit(v) =>
      LiteralStep(p, redex, v, s, base, code, cursor, slots);
    case _ =>
  }

  lemma {:induction false} ExpRuns(fuel: nat, ctx: Context, redex: set<Name>, exp: Exp, locals: Locals,
                                   s: Store, base: seq<Frame>, code: seq<Opcode>, cursor: nat, slots: map<nat, Value>)
    returns (n: nat, slots': map<nat, Value>)
    requires Compiled(ctx) && Match(locals, s.variables, slots)
    requires Compile(ctx.globals, locals, exp).Some?
    requires CodeAt(code, cursor, Compile(ctx.globals, locals, exp).value.code)
    requires Eval(fuel, ctx, redex, locals.Keys, exp, s).Some?
    ensures var out, s' := Compile(ctx.globals, locals, exp).value, Eval(fuel, ctx, redex, locals.Keys, exp, s).value;
            && Run(ctx.program, redex, At(s, base, code, cursor, slots), false, n)
                 == Some(At(s', base, code, cursor + |out.code|, slots'))
            && Match(out.locals, s'.variables, slots')
    decreases fuel, 1, exp, 1
  {
    hide Match, Step, Run, ApplyTop, Bind, At, Compiled;
    var p := ctx.program;
    match exp
    case Var(_) =>
      n := 1;
      slots' := LeafRuns(fuel, ctx, redex, exp, locals, s, base, code, cursor, slots);
    case Lit(_) =>
      n := 1;
      slots' := LeafRuns(fuel, ctx, redex, exp, locals, s, base, code, cursor, slots);
    case Assign(names, e) =>
      n, slots' := AssignRuns(fuel, ctx, redex, names, e, locals, s, base, code, cursor, slots);
    case Ap(target, args) =>
      n, slots' := ApRuns(fuel, ctx, redex, target, args, locals, s, base, code, cursor, slots);
  }

  lemma {:induction false} AssignRuns(fuel: nat, ctx: Context, redex: set<Name>, names: seq<string>, e: Exp,
          locals: Locals,
                                      s: Store, base: seq<Frame>, code: seq<Opcode>, cursor: nat,
                                          slots: map<nat, Value>)
    returns (n: nat, slots': map<nat, Value>)
    requires Compiled(ctx) && Match(locals, s.variables, slots)
    requires var exp := Assign(names, e);
             && Compile(ctx.globals, locals, exp).Some?
                 && CodeAt(code, cursor, Compile(ctx.globals, locals, exp).value.code)
             && Eval(fuel, ctx, redex, locals.Keys, exp, s).Some?
    ensures var exp := Assign(names, e);
            var out, s' := Compile(ctx.globals, locals, exp).value, Eval(fuel, ctx, redex, locals.Keys, exp, s).value;
            && Run(ctx.program, redex, At(s, base, code, cursor, slots), false, n)
                 == Some(At(s', base, code, cursor + |out.code|, slots'))
            && Match(out.locals, s'.variables, slots')
    decreases fuel, 1, Assign(names, e), 0
  {
    hide Match, Step, Run, ApplyTop, Bind, At, Compiled, CodeAt, CompileSets;
    var p := ctx.program;
    var o := Compile(ctx.globals, locals, e).value;
    var sets := CompileSets(o.locals, names);
    CodeSplit(code, cursor, o.code, sets.code);
    var m;
    m, slots' := ExpRuns(fuel, ctx, redex, e, locals, s, base, code, cursor, slots);
    var s1 := Eval(fuel, ctx, redex, locals.Keys, e, s).value;
    SetsLength(o.locals, names);
    slots' := SetsRun(p, redex, names, o.locals, s1, base, code, cursor + |o.code|, slots');
    RunAdd(p, redex, At(s, base, code, cursor, slots), m, |names|);
    n := m + |names|;
  }

  lemma {:induction false} ApRuns(fuel: nat, ctx: Context, redex: set<Name>, target: Exp, args: seq<Exp>,
          locals: Locals,
                                  s: Store, base: seq<Frame>, code: seq<Opcode>, cursor: nat, slots: map<nat, Value>)
    returns (n: nat, slots': map<nat, Value>)
    requires Compiled(ctx) && Match(locals, s.variables, slots)
    requires var exp := Ap(target, args);
             && Compile(ctx.globals, locals, exp).Some?
                 && CodeAt(code, cursor, Compile(ctx.globals, locals, exp).value.code)
             && Eval(fuel, ctx, redex, locals.Keys, exp, s).Some?
    ensures var exp := Ap(target, args);
            var out, s' := Compile(ctx.globals, locals, exp).value, Eval(fuel, ctx, redex, locals.Keys, exp, s).value;
            && Run(ctx.program, redex, At(s, base, code, cursor, slots), false, n)
                 == Some(At(s', base, code, cursor + |out.code|, slots'))
            && Match(out.locals, s'.variables, slots')
    decreases fuel, 1, Ap(target, args), 0
  {
    hide Match, Step, Run, ApplyTop, At, Compiled, CodeAt, CompileList, EvalList;
    var p := ctx.program;
    var a := CompileList(ctx.globals, locals, args).value;
    var t := Compile(ctx.globals, a.locals, target).value;
    ApCode(code, cursor, a.code, t.code, |args|);
    var m, k, j;
    m, slots' := ListRuns(fuel, ctx, redex, args, locals, s, base, code, cursor, slots);
    var s1 := EvalList(fuel, ctx, redex, locals.Keys, args, s).value;
    CompileListDeclares(ctx.globals, locals, args);
    k, slots' := ExpRuns(fuel, ctx, redex, target, a.locals, s1, base, code, cursor + |a.code|, slots');
    var s2 := Eval(fuel, ctx, redex, a.locals.Keys, target, s1).value;
    RunAdd(p, redex, At(s, base, code, cursor, slots), m, k);
    j := ApplyRuns(fuel, ctx, redex, |args|, s2, base, code, cursor + |a.code| + |t.code|, slots');
    RunAdd(p, redex, At(s, base, code, cursor, slots), m + k, j);
    n := m + k + j;
  }

  lemma {:induction false} ApplyRuns(fuel: nat, ctx: Context, redex: set<Name>, arity: nat,
                                     s: Store, base: seq<Frame>, code: seq<Opcode>, cursor: nat, slots: map<nat, Value>)
    returns (n: nat)
    requires Compiled(ctx) && cursor < |code| && code[cursor] == Apply(arity)
    requires ApplyTop(fuel, ctx, redex, arity, s).Some?
    ensures var s' := ApplyTop(fuel, ctx, redex, arity, s).value;
            && s'.variables == s.variables
            && Run(ctx.program, redex, At(s, base, code, cursor, slots), false, n)
                == Some(At(s', base, code, cursor + 1, slots))
    decreases fuel, 0
  {
    hide Run, Step, ApplyOther, At, Compiled, Call;
    var v := |s.values| - 1;
    var s0 := s.(values := s.values[..v]);
    ApplyStep(ctx, redex, arity, s, base, code, cursor, slots);
    if s.values[v].Function? {
      var i := s.values[v].index;
      n := CallRuns(fuel - 1, ctx, redex, i, arity, s0, base + [Frame(code, cursor + 1, slots)]);
      CallState(fuel - 1, ctx, redex, i, arity, s0, base, code, cursor + 1, slots);
      n := 1 + n;
      RunAt(ctx.program, redex, s, base, code, cursor, slots, n);
    } else {
      OtherKeepsVariables(ctx.program, redex, s0, s.values[v], arity);
      n := 1;
      RunOneAt(ctx.program, redex, s, base, code, cursor, slots);
    }
  }

  lemma ApCode(code: seq<Opcode>, cursor: nat, a: seq<Opcode>, t: seq<Opcode>, arity: nat)
    requires CodeAt(code, cursor, a + t + [Apply(arity)])
    ensures CodeAt(code, cursor, a) && CodeAt(code, cursor + |a|, t)
    ensures cursor + |a| + |t| < |code| && code[cursor + |a| + |t|] == Apply(arity)
  {
    CodeSplit(code, cursor, a + t, [Apply(arity)]);
    CodeSplit(code, cursor, a, t);
    var at := cursor + |a| + |t|;
    assert code[at] == code[at..at + 1][0];
  }

  lemma OtherKeepsVariables(p: Program, redex: set<Name>, s: Store, target: Value, arity: nat)
    requires !target.Function? && ApplyOther(p, redex, s, target, arity).Some?
    ensures ApplyOther(p, redex, s, target, arity).value.variables == s.variables
  {
  }

  lemma CallState(fuel: nat, ctx: Context, redex: set<Name>, index: nat, arity: nat,
                  s: Store, base: seq<Frame>, code: seq<Opcode>, cursor: nat, slots: map<nat, Value>)
    requires Call(fuel, ctx, redex, index, arity, s).Some?
    ensures index < |ctx.sources| && |ctx.sources[index].params| == arity
    ensures var s' := Call(fuel, ctx, redex, index, arity, s).value;
            && s'.variables == s.variables
            && State(s'.values, base + [Frame(code, cursor, slots)], s'.supply, s'.effects)
                == At(s', base, code, cursor, slots)
  {
  }

  lemma {:induction false} ListRuns(fuel: nat, ctx: Context, redex: set<Name>, exps: seq<Exp>, locals: Locals,
                                    s: Store, base: seq<Frame>, code: seq<Opcode>, cursor: nat, slots: map<nat, Value>)
    returns (n: nat, slots': map<nat, Value>)
    requires Compiled(ctx) && Match(locals, s.variables, slots)
    requires CompileList(ctx.globals, locals, exps).Some?
    requires CodeAt(code, cursor, CompileList(ctx.globals, locals, exps).value.code)
    requires EvalList(fuel, ctx, redex, locals.Keys, exps, s).Some?
    ensures var out, s' := CompileList(ctx.globals, locals, exps).value,
            EvalList(fuel, ctx, redex, locals.Keys, exps, s).value;
            && Run(ctx.program, redex, At(s, base, code, cursor, slots), false, n)
                 == Some(At(s', base, code, cursor + |out.code|, slots'))
            && Match(out.locals, s'.variables, slots')
    decreases fuel, 1, exps, 0
  {
    hide Match, Step, Eval, Compile, At, Compiled, CodeAt;
    n, slots' := 0, slots;
    if exps != [] {
      var first := Compile(ctx.globals, locals, exps[0]).value;
      CodeSplit(code, cursor, first.code, CompileList(ctx.globals, first.locals, exps[1..]).value.code);
      var m, k;
      m, slots' := ExpRuns(fuel, ctx, redex, exps[0], locals, s, base, code, cursor, slots);
      var s1 := Eval(fuel, ctx, redex, locals.Keys, exps[0], s).value;
      CompileDeclares(ctx.globals, locals, exps[0]);
      k, slots' := ListRuns(fuel, ctx, redex, exps[1..], first.locals, s1, base, code, cursor + |first.code|, slots');
      RunAdd(ctx.program, redex, At(s, base, code, cursor, slots), m, k);
      n := m + k;
    }
  }

  lemma CalleeCode(ctx: Context, index: nat)
    requires Compiled(ctx) && index < |ctx.sources|
    ensures index < |ctx.program.functions|
    ensures var params := CompileSets(map[], ctx.sources[index].params);
            var body := CompileList(ctx.globals, params.locals, ctx.sources[index].body);
            var code := ctx.program.functions[index].opcodes;
            && body.Some? && |code| == |params.code| + |body.value.code|
            && CodeAt(code, 0, params.code) && CodeAt(code, |params.code|, body.value.code)
            && ctx.program.functions[index].arity == |ctx.sources[index].params|
  {
  }

  lemma {:induction false} CallRuns(fuel: nat, ctx: Context, redex: set<Name>, index: nat, arity: nat, s: Store,
          base: seq<Frame>)
    returns (n: nat)
    requires Compiled(ctx) && Call(fuel, ctx, redex, index, arity, s).Some?
    ensures var s' := Call(fuel, ctx, redex, index, arity, s).value;
            && index < |ctx.program.functions|
            && Run(ctx.program, redex, At(s, base, ctx.program.functions[index].opcodes, 0, map[]), false, n)
                 == Some(State(s'.values, base, s'.supply, s'.effects))
    decreases fuel
  {
    hide Match, Step, Run, Bind, EvalList, CompileList, CompileSets, Compiled;
    var p, source := ctx.program, ctx.sources[index];
    CalleeCode(ctx, index);
    var code := p.functions[index].opcodes;
    var params := CompileSets(map[], source.params);
    var body := CompileList(ctx.globals, params.locals, source.body).value;
    MatchEmpty();
    SetsLength(map[], source.params);
    SetsDeclare(map[], source.params);
    var s0 := s.(variables := map[]);
    var slots := SetsRun(p, redex, source.params, map[], s0, base, code, 0, map[]);
    var s1 := Bind(source.params, s0).value;
    assert params.locals.Keys == set n | n in source.params;
    var k, m := |source.params|, 0;
    m, slots := ListRuns(fuel, ctx, redex, source.body, params.locals, s1, base, code, k, slots);
    var s2 := EvalList(fuel, ctx, redex, params.locals.Keys, source.body, s1).value;
    RunAdd(p, redex, At(s0, base, code, 0, map[]), k, m);
    LeaveStep(p, redex, s2, base, code, slots);
    RunOneAt(p, redex, s2, base, code, |code|, slots);
    RunAdd(p, redex, At(s0, base, code, 0, map[]), k + m, 1);
    n := k + m + 1;
  }

  lemma MatchEmpty()
    ensures Match(map[], map[], map[])
  {
  }

  lemma LeaveStep(p: Program, redex: set<Name>, s: Store, base: seq<Frame>, code: seq<Opcode>, slots: map<nat, Value>)
    ensures Step(p, redex, At(s, base, code, |code|, slots), false) == Some(State(s.values, base, s.supply, s.effects))
  {
  }

  // More fuel changes nothing

  lemma {:induction false} EvalMono(fuel: nat, more: nat, ctx: Context, redex: set<Name>, scope: set<string>, exp: Exp,
          s: Store)
    requires fuel <= more && Eval(fuel, ctx, redex, scope, exp, s).Some?
    ensures Eval(more, ctx, redex, scope, exp, s) == Eval(fuel, ctx, redex, scope, exp, s)
    decreases fuel, 1, exp, 1
  {
    hide Bind, ApplyTop;
    match exp
    case Var(_) =>
    case Lit(_) =>
    case Assign(names, e) => EvalMono(fuel, more, ctx, redex, scope, e, s);
    case Ap(target, args) =>
      EvalListMono(fuel, more, ctx, redex, scope, args, s);
      var s1 := EvalList(fuel, ctx, redex, scope, args, s).value;
      EvalMono(fuel, more, ctx, redex, DeclareList(scope, args), target, s1);
      ApplyTopMono(fuel, more, ctx, redex, |args|, Eval(fuel, ctx, redex, DeclareList(scope, args), target, s1).value);
  }

  lemma {:induction false} EvalListMono(fuel: nat, more: nat, ctx: Context, redex: set<Name>, scope: set<string>,
          exps: seq<Exp>, s: Store)
    requires fuel <= more && EvalList(fuel, ctx, redex, scope, exps, s).Some?
    ensures EvalList(more, ctx, redex, scope, exps, s) == EvalList(fuel, ctx, redex, scope, exps, s)
    decreases fuel, 1, exps, 0
  {
    hide Eval;
    if exps != [] {
      EvalMono(fuel, more, ctx, redex, scope, exps[0], s);
      EvalListMono(fuel, more, ctx, redex, Declare(scope, exps[0]), exps[1..],
          Eval(fuel, ctx, redex, scope, exps[0], s).value);
    }
  }

  lemma {:induction false} ApplyTopMono(fuel: nat, more: nat, ctx: Context, redex: set<Name>, arity: nat, s: Store)
    requires fuel <= more && ApplyTop(fuel, ctx, redex, arity, s).Some?
    ensures ApplyTop(more, ctx, redex, arity, s) == ApplyTop(fuel, ctx, redex, arity, s)
    decreases fuel, 0
  {
    hide EvalList, Bind, ApplyOther;
    var n := |s.values| - 1;
    if s.values[n].Function? {
      var i := s.values[n].index;
      var source := ctx.sources[i];
      var s1 := Bind(source.params, s.(values := s.values[..n], variables := map[])).value;
      assert Call(fuel - 1, ctx, redex, i, arity, s.(values := s.values[..n])).Some?;
      EvalListMono(fuel - 1, more - 1, ctx, redex, (set n | n in source.params), source.body, s1);
    }
  }

  // From the machine to evaluation

  ghost predicate HaltsIn(p: Program, redex: set<Name>, s: State, n: nat, t: State) {
    Run(p, redex, s, false, n) == Some(t) && t.frames == []
  }

  /** A run that halts passes through whatever the machine reaches, and never fails. */
  lemma Remaining(p: Program, redex: set<Name>, s: State, n: nat, t: State, m: nat)
    requires HaltsIn(p, redex, s, n, t)
    ensures var o := Run(p, redex, s, false, m);
            o.Some? && (o.value.frames != [] ==> m < n && HaltsIn(p, redex, o.value, n - m, t))
  {
    if n <= m {
      RunAdd(p, redex, s, n, m - n);
      assert Run(p, redex, t, false, m - n) == Some(t);
    } else {
      if Run(p, redex, s, false, m).None? {
        RunNone(p, redex, s, m, n - m);
      } else {
        RunAdd(p, redex, s, m, n - m);
      }
    }
  }

  lemma {:induction false} RunNone(p: Program, redex: set<Name>, s: State, m: nat, n: nat)
    requires Run(p, redex, s, false, m).None?
    ensures Run(p, redex, s, false, m + n).None?
    decreases m
  {
    hide Step;
    var o := Step(p, redex, s, false);
    if o.Some? { RunNone(p, redex, o.value, m - 1, n); }
  }

  function Max(a: nat, b: nat): nat { if a < b then b else a }

  lemma {:induction false} ExpEvals(n: nat, ctx: Context, redex: set<Name>, exp: Exp, locals: Locals,
                                    s: Store, base: seq<Frame>, code: seq<Opcode>, cursor: nat, slots: map<nat, Value>,
                                        t: State)
    returns (fuel: nat)
    requires Compiled(ctx) && Match(locals, s.variables, slots)
    requires Compile(ctx.globals, locals, exp).Some?
    requires CodeAt(code, cursor, Compile(ctx.globals, locals, exp).value.code)
    requires HaltsIn(ctx.program, redex, At(s, base, code, cursor, slots), n, t)
    ensures Eval(fuel, ctx, redex, locals.Keys, exp, s).Some?
    decreases n, 1, exp, 1
  {
    hide Match, Step, Run, HaltsIn, ApplyTop, Bind, At, Compiled, CompileList;
    var p := ctx.program;
    fuel := 0;
    match exp
    case Lit(_) =>
    case Var(name) =>
      VarEvals(n, ctx, redex, name, locals, s, base, code, cursor, slots, t);
    case Assign(names, e) =>
      fuel := AssignEvals(n, ctx, redex, names, e, locals, s, base, code, cursor, slots, t);
    case Ap(target, args) =>
      fuel := ApEvals(n, ctx, redex, target, args, locals, s, base, code, cursor, slots, t);
  }

  /** The machine does not get past a variable that is empty. */
  lemma VarEvals(n: nat, ctx: Context, redex: set<Name>, name: string, locals: Locals,
                 s: Store, base: seq<Frame>, code: seq<Opcode>, cursor: nat, slots: map<nat, Value>, t: State)
    requires Match(locals, s.variables, slots)
    requires Compile(ctx.globals, locals, Var(name)).Some?
    requires CodeAt(code, cursor, Compile(ctx.globals, locals, Var(name)).value.code)
    requires HaltsIn(ctx.program, redex, At(s, base, code, cursor, slots), n, t)
    ensures Eval(0, ctx, redex, locals.Keys, Var(name), s).Some?
  {
    hide Match, Step, Run, HaltsIn, At;
    if name in locals {
      assert code[cursor] == code[cursor..cursor + 1][0];
      GetStep(ctx.program, redex, name, locals, s, base, code, cursor, slots);
      RunOneAt(ctx.program, redex, s, base, code, cursor, slots);
      Remaining(ctx.program, redex, At(s, base, code, cursor, slots), n, t, 1);
    }
  }

  lemma {:induction false} AssignEvals(n: nat, ctx: Context, redex: set<Name>, names: seq<string>, e: Exp,
          locals: Locals,
                                       s: Store, base: seq<Frame>, code: seq<Opcode>, cursor: nat,
                                           slots: map<nat, Value>, t: State)
    returns (fuel: nat)
    requires Compiled(ctx) && Match(locals, s.variables, slots)
    requires var exp := Assign(names, e);
             Compile(ctx.globals, locals, exp).Some?
                 && CodeAt(code, cursor, Compile(ctx.globals, locals, exp).value.code)
    requires HaltsIn(ctx.program, redex, At(s, base, code, cursor, slots), n, t)
    ensures Eval(fuel, ctx, redex, locals.Keys, Assign(names, e), s).Some?
    decreases n, 1, Assign(names, e), 0
  {
    hide Match, Step, Run, HaltsIn, ApplyTop, Bind, At, Compiled, CodeAt, CompileSets;
    var p := ctx.program;
    var o := Compile(ctx.globals, locals, e).value;
    var sets := CompileSets(o.locals, names);
    CodeSplit(code, cursor, o.code, sets.code);
    fuel := ExpEvals(n, ctx, redex, e, locals, s, base, code, cursor, slots, t);
    var m, slots' := ExpRuns(fuel, ctx, redex, e, locals, s, base, code, cursor, slots);
    var s1 := Eval(fuel, ctx, redex, locals.Keys, e, s).value;
    AtHasFrames(s1, base, code, cursor + |o.code|, slots');
    Remaining(p, redex, At(s, base, code, cursor, slots), n, t, m);
    slots' := SetsRun(p, redex, names, o.locals, s1, base, code, cursor + |o.code|, slots');
    Remaining(p, redex, Run(p, redex, At(s, base, code, cursor, slots), false, m).value, n - m, t, |names|);
  }

  lemma AtHasFrames(s: Store, base: seq<Frame>, code: seq<Opcode>, cursor: nat, slots: map<nat, Value>)
    ensures At(s, base, code, cursor, slots).frames != []
  {
  }

  lemma {:induction false} ApEvals(n: nat, ctx: Context, redex: set<Name>, target: Exp, args: seq<Exp>, locals: Locals,
                                   s: Store, base: seq<Frame>, code: seq<Opcode>, cursor: nat, slots: map<nat, Value>,
                                       t: State)
    returns (fuel: nat)
    requires Compiled(ctx) && Match(locals, s.variables, slots)
    requires var exp := Ap(target, args);
             Compile(ctx.globals, locals, exp).Some?
                 && CodeAt(code, cursor, Compile(ctx.globals, locals, exp).value.code)
    requires HaltsIn(ctx.program, redex, At(s, base, code, cursor, slots), n, t)
    ensures Eval(fuel, ctx, redex, locals.Keys, Ap(target, args), s).Some?
    decreases n, 1, Ap(target, args), 0
  {
    hide Match, Step, Run, HaltsIn, ApplyTop, At, Compiled, CodeAt, CompileList, EvalList;
    var p := ctx.program;
    var a := CompileList(ctx.globals, locals, args).value;
    var c := Compile(ctx.globals, a.locals, target).value;
    ApCode(code, cursor, a.code, c.code, |args|);
    var f1 := ListEvals(n, ctx, redex, args, locals, s, base, code, cursor, slots, t);
    var m, slots1 := ListRuns(f1, ctx, redex, args, locals, s, base, code, cursor, slots);
    var s1 := EvalList(f1, ctx, redex, locals.Keys, args, s).value;
    CompileListDeclares(ctx.globals, locals, args);
    AtHasFrames(s1, base, code, cursor + |a.code|, slots1);
    Remaining(p, redex, At(s, base, code, cursor, slots), n, t, m);
    var f2 := ExpEvals(n - m, ctx, redex, target, a.locals, s1, base, code, cursor + |a.code|, slots1, t);
    var k, slots2 := ExpRuns(f2, ctx, redex, target, a.locals, s1, base, code, cursor + |a.code|, slots1);
    var s2 := Eval(f2, ctx, redex, a.locals.Keys, target, s1).value;
    AtHasFrames(s2, base, code, cursor + |a.code| + |c.code|, slots2);
    Remaining(p, redex, At(s1, base, code, cursor + |a.code|, slots1), n - m, t, k);
    var f3 := ApplyEvals(n - m - k, ctx, redex, |args|, s2, base, code, cursor + |a.code| + |c.code|, slots2, t);
    fuel := Max(f1, Max(f2, f3));
    EvalListMono(f1, fuel, ctx, redex, locals.Keys, args, s);
    EvalMono(f2, fuel, ctx, redex, a.locals.Keys, target, s1);
    ApplyTopMono(f3, fuel, ctx, redex, |args|, s2);
  }

  lemma {:induction false} ApplyEvals(n: nat, ctx: Context, redex: set<Name>, arity: nat,
                                      s: Store, base: seq<Frame>, code: seq<Opcode>, cursor: nat,
                                          slots: map<nat, Value>, t: State)
    returns (fuel: nat)
    requires Compiled(ctx) && cursor < |code| && code[cursor] == Apply(arity)
    requires HaltsIn(ctx.program, redex, At(s, base, code, cursor, slots), n, t)
    ensures ApplyTop(fuel, ctx, redex, arity, s).Some?
    decreases n, 0
  {
    hide Run, Step, HaltsIn, ApplyOther, At, Compiled, Call;
    var p := ctx.program;
    ApplyStep(ctx, redex, arity, s, base, code, cursor, slots);
    RunOneAt(p, redex, s, base, code, cursor, slots);
    Remaining(p, redex, At(s, base, code, cursor, slots), n, t, 1);
    fuel := 0;
    var v := |s.values| - 1;
    if s.values[v].Function? {
      var s0, i := s.(values := s.values[..v]), s.values[v].index;
      var caller := base + [Frame(code, cursor + 1, slots)];
      CalleeCode(ctx, i);
      AtHasFrames(s0, caller, p.functions[i].opcodes, 0, map[]);
      fuel := CallEvals(n - 1, ctx, redex, i, arity, s0, caller, t);
      fuel := fuel + 1;
    }
  }

  lemma {:induction false} ListEvals(n: nat, ctx: Context, redex: set<Name>, exps: seq<Exp>, locals: Locals,
                                     s: Store, base: seq<Frame>, code: seq<Opcode>, cursor: nat,
                                         slots: map<nat, Value>, t: State)
    returns (fuel: nat)
    requires Compiled(ctx) && Match(locals, s.variables, slots)
    requires CompileList(ctx.globals, locals, exps).Some?
    requires CodeAt(code, cursor, CompileList(ctx.globals, locals, exps).value.code)
    requires HaltsIn(ctx.program, redex, At(s, base, code, cursor, slots), n, t)
    ensures EvalList(fuel, ctx, redex, locals.Keys, exps, s).Some?
    decreases n, 1, exps, 0
  {
    hide Match, Run, HaltsIn, Eval, Compile, At, Compiled, CodeAt;
    fuel := 0;
    if exps != [] {
      var first := Compile(ctx.globals, locals, exps[0]).value;
      CodeSplit(code, cursor, first.code, CompileList(ctx.globals, first.locals, exps[1..]).value.code);
      var f1 := ExpEvals(n, ctx, redex, exps[0], locals, s, base, code, cursor, slots, t);
      var m, slots1 := ExpRuns(f1, ctx, redex, exps[0], locals, s, base, code, cursor, slots);
      var s1 := Eval(f1, ctx, redex, locals.Keys, exps[0], s).value;
      CompileDeclares(ctx.globals, locals, exps[0]);
      AtHasFrames(s1, base, code, cursor + |first.code|, slots1);
      Remaining(ctx.program, redex, At(s, base, code, cursor, slots), n, t, m);
      var f2 := ListEvals(n - m, ctx, redex, exps[1..], first.locals, s1, base, code, cursor + |first.code|, slots1, t);
      fuel := Max(f1, f2);
      EvalMono(f1, fuel, ctx, redex, locals.Keys, exps[0], s);
      EvalListMono(f2, fuel, ctx, redex, first.locals.Keys, exps[1..], s1);
    }
  }

  lemma {:induction false} CallEvals(n: nat, ctx: Context, redex: set<Name>, index: nat, arity: nat, s: Store,
          base: seq<Frame>, t: State)
    returns (fuel: nat)
    requires Compiled(ctx) && index < |ctx.sources| && |ctx.sources[index].params| == arity
    requires index < |ctx.program.functions|
    requires HaltsIn(ctx.program, redex, At(s, base, ctx.program.functions[index].opcodes, 0, map[]), n, t)
    ensures Call(fuel, ctx, redex, index, arity, s).Some?
    decreases n
  {
    hide Match, Run, HaltsIn, Bind, EvalList, CompileList, CompileSets, Compiled;
    var p, source := ctx.program, ctx.sources[index];
    CalleeCode(ctx, index);
    var code := p.functions[index].opcodes;
    var params := CompileSets(map[], source.params);
    MatchEmpty();
    SetsLength(map[], source.params);
    SetsDeclare(map[], source.params);
    var s0, k := s.(variables := map[]), |source.params|;
    var slots := SetsRun(p, redex, source.params, map[], s0, base, code, 0, map[]);
    Remaining(p, redex, At(s0, base, code, 0, map[]), n, t, k);
    var s1 := Bind(source.params, s0).value;
    assert params.locals.Keys == set n | n in source.params;
    AtHasFrames(s1, base, code, k, slots);
    fuel := ListEvals(n - k, ctx, redex, source.body, params.locals, s1, base, code, k, slots, t);
  }

  /** The machine in front of a function's code, its arguments on the stack. */
  function Entry(ctx: Context, index: nat, s: Store): State
    requires index < |ctx.program.functions|
  {
    State(s.values, [Frame(ctx.program.functions[index].opcodes, 0, map[])], s.supply, s.effects)
  }

  function AtRest(s: Store): State { State(s.values, [], s.supply, s.effects) }

  /** The main theorem: the compiled function comes to rest in a state exactly when its body
      evaluates to that state, with proper tail calls or without. */
  lemma CompiledFunctionMeansItsBody(ctx: Context, redex: set<Name>, index: nat, s: Store, t: State, tail: bool)
    requires Compiled(ctx) && index < |ctx.sources|
    ensures index < |ctx.program.functions|
    ensures Halts(ctx.program, redex, Entry(ctx, index, s), tail, t) <==>
              exists fuel {:trigger Call(fuel, ctx, redex, index, |ctx.sources[index].params|, s)} ::
                var r := Call(fuel, ctx, redex, index, |ctx.sources[index].params|, s);
                r.Some? && t == AtRest(r.value)
  {
    hide Run, Call, Compiled;
    var p, arity := ctx.program, |ctx.sources[index].params|;
    CalleeCode(ctx, index);
    TailCall.TailCallsPreserveMeaning(p, redex, Entry(ctx, index, s), t);
    assert Entry(ctx, index, s) == At(s, [], p.functions[index].opcodes, 0, map[]);
    if Halts(p, redex, Entry(ctx, index, s), false, t) {
      var n :| Run(p, redex, Entry(ctx, index, s), false, n) == Some(t);
      var fuel := CallEvals(n, ctx, redex, index, arity, s, [], t);
      var m := CallRuns(fuel, ctx, redex, index, arity, s, []);
      SameEnd(p, redex, Entry(ctx, index, s), n, t, m);
    }
    if fuel :|
      Call(fuel, ctx, redex, index, arity, s).Some? && t == AtRest(Call(fuel, ctx, redex, index, arity, s).value)
    {
      var m := CallRuns(fuel, ctx, redex, index, arity, s, []);
    }
  }

  lemma SameEnd(p: Program, redex: set<Name>, s: State, n: nat, t: State, m: nat)
    requires Run(p, redex, s, false, n) == Some(t) && t.frames == []
    requires Run(p, redex, s, false, m).Some? && Run(p, redex, s, false, m).value.frames == []
    ensures Run(p, redex, s, false, m) == Some(t)
  {
    Remaining(p, redex, s, n, t, m);
    if n <= m {
      RunAdd(p, redex, s, n, m - n);
    } else {
      RunAdd(p, redex, s, m, n - m);
    }
  }
}
