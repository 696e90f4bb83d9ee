/** What calls and names do, said of the machine that runs the compiled code: parameters take
    the arguments in order, arguments are passed in order, results are named in order, and a
    name that is local hides a global one. */
module Calling {
  import opened Values
  import opened Machine
  import opened Compiler
  import opened CompilerCorrect
  import opened RuleMeaning

  /** Function `f`, started above `below` and its arguments, comes to rest in `t`. */
  ghost predicate Ends(ctx: Context, redex: set<Name>, f: nat, s: State, tail: bool, t: State)
    requires f < |ctx.program.functions|
  {
    Halts(ctx.program, redex, s.(frames := [Frame(ctx.program.functions[f].opcodes, 0, map[])]), tail, t)
  }

  function Vars(names: seq<string>): (r: seq<Exp>)
    ensures |r| == |names|
  {
    seq(|names|, i requires 0 <= i < |names| => Var(names[i]))
  }

  /** The expression is function `f`: a literal, or a global name that no parameter hides. */
  predicate IsFunction(ctx: Context, scope: seq<string>, target: Exp, f: nat) {
    || target == Lit(Function(f))
    || (target.Var? && target.name !in scope && target.name in ctx.globals
        && ctx.globals[target.name] == Function(f))
  }

  /** `names` are among the parameters, and `values` are the arguments at the same places. */
  ghost predicate Selects(params: seq<string>, args: seq<Value>, names: seq<string>, values: seq<Value>) {
    && |params| == |args| && |names| == |values|
    && forall i :: 0 <= i < |names| ==> exists k :: 0 <= k < |params| && params[k] == names[i] && args[k] == values[i]
  }

  // Evaluating

  ghost predicate CallEnds(fuel: nat, ctx: Context, redex: set<Name>, f: nat, s: State, t: State)
    requires f < |ctx.sources|
  {
    var r := Call(fuel, ctx, redex, f, |ctx.sources[f].params|, Plain(s));
    r.Some? && t == AtRest(r.value)
  }

  lemma EndsMeans(ctx: Context, redex: set<Name>, f: nat, s: State, tail: bool, t: State)
    requires Compiled(ctx) && f < |ctx.sources|
    ensures f < |ctx.program.functions|
    ensures Ends(ctx, redex, f, s, tail, t) <==> exists fuel :: CallEnds(fuel, ctx, redex, f, s, t)
  {
    CompiledFunctionMeansItsBody(ctx, redex, f, Plain(s), t, tail);
    assert Entry(ctx, f, Plain(s)) == s.(frames := [Frame(ctx.program.functions[f].opcodes, 0, map[])]);
    hide Compiled, Halts, Call, Entry, Plain;
    if Ends(ctx, redex, f, s, tail, t) {
      var fuel: nat :|
        var r := Call(fuel, ctx, redex, f, |ctx.sources[f].params|, Plain(s)); r.Some? && t == AtRest(r.value);
      assert CallEnds(fuel, ctx, redex, f, s, t);
    }
    if fuel: nat :| CallEnds(fuel, ctx, redex, f, s, t) {
      var arity, st := |ctx.sources[f].params|, Plain(s);
      assert exists fuel {:trigger Call(fuel, ctx, redex, f, arity, st)} ::
          var r := Call(fuel, ctx, redex, f, arity, st); r.Some? && t == AtRest(r.value);
      assert Halts(ctx.program, redex, Entry(ctx, f, st), tail, t);
    }
  }

  function Plain(s: State): Store { Store(s.values, map[], s.supply, s.effects) }

  /** Reading names in turn pushes what they hold, in the same order, and empties them. */
  lemma {:induction false} VarsPush(fuel: nat, ctx: Context, redex: set<Name>, scope: set<string>,
          names: seq<string>, values: seq<Value>, s: Store)
    requires |names| == |values| && Distinct(names)
    requires forall i :: 0 <= i < |names| ==>
               names[i] in scope && names[i] in s.variables && s.variables[names[i]] == values[i]
    ensures EvalList(fuel, ctx, redex, scope, Vars(names), s)
         == Some(s.(values := s.values + values, variables := s.variables - set n | n in names))
    ensures DeclareList(scope, Vars(names)) == scope
    decreases |names|
  {
    if names == [] {
      assert s.values + values == s.values && s.variables - (set n | n in names) == s.variables;
    } else {
      var s' := s.(values := s.values + [values[0]], variables := s.variables - {names[0]});
      assert Vars(names)[0] == Var(names[0]) && Vars(names)[1..] == Vars(names[1..]);
      assert Eval(fuel, ctx, redex, scope, Var(names[0]), s) == Some(s');
      VarsPush(fuel, ctx, redex, scope, names[1..], values[1..], s');
      assert s'.values + values[1..] == s.values + values;
      assert s'.variables - (set n | n in names[1..]) == s.variables - set n | n in names;
      hide Eval;
    }
  }

  lemma BoundOf(params: seq<string>, args: seq<Value>, names: seq<string>, values: seq<Value>)
    requires Distinct(params) && Selects(params, args, names, values)
    ensures forall i :: 0 <= i < |names| ==>
              names[i] in params && names[i] in Bindings(params, args) && Bindings(params, args)[names[i]] == values[i]
  {
    hide Bindings;
    forall i | 0 <= i < |names|
      ensures names[i] in params && names[i] in Bindings(params, args) && Bindings(params, args)[names[i]] == values[i]
    {
      var k :| 0 <= k < |params| && params[k] == names[i] && args[k] == values[i];
      BoundAt(params, args, k);
    }
  }

  /** A call is its body evaluated with each parameter bound to the argument at its place. */
  lemma CallIs(fuel: nat, ctx: Context, redex: set<Name>, f: nat, s: State, below: seq<Value>, args: seq<Value>)
    requires f < |ctx.sources| && |args| == |ctx.sources[f].params| && Distinct(ctx.sources[f].params)
    requires s.values == below + args
    ensures var params := ctx.sources[f].params;
            var bound := Store(below, Bindings(params, args), s.supply, s.effects);
            var r := EvalList(fuel, ctx, redex, (set n | n in params), ctx.sources[f].body, bound);
            Call(fuel, ctx, redex, f, |args|, Plain(s)) ==
              if r.None? then None else Some(r.value.(variables := map[]))
  {
    var params := ctx.sources[f].params;
    BindAll(below, params, args, Plain(s));
    assert map[] + Bindings(params, args) == Bindings(params, args);
    hide Bindings, EvalList, Bind;
  }

  lemma OneExp(fuel: nat, ctx: Context, redex: set<Name>, scope: set<string>, e: Exp, s: Store)
    ensures EvalList(fuel, ctx, redex, scope, [e], s) == Eval(fuel, ctx, redex, scope, e, s)
  {
    var none: seq<Exp> := [];
    assert [e][1..] == none;
    var r := Eval(fuel, ctx, redex, scope, e, s);
    if r.Some? { assert EvalList(fuel, ctx, redex, Declare(scope, e), none, r.value) == r; }
    hide Eval;
  }

  // The laws

  /** A function whose body is its `k`-th parameter returns its `k`-th argument, whatever the
      name means outside, and leaves what is below alone. */
  lemma SelectsItsArgument(ctx: Context, redex: set<Name>, f: nat, s: State, below: seq<Value>, args: seq<Value>,
          k: nat, tail: bool, t: State)
    requires Compiled(ctx) && f < |ctx.sources| && k < |args| == |ctx.sources[f].params|
    requires Distinct(ctx.sources[f].params) && ctx.sources[f].body == [Var(ctx.sources[f].params[k])]
    requires s.values == below + args
    ensures f < |ctx.program.functions|
    ensures Ends(ctx, redex, f, s, tail, t) <==> t == s.(values := below + [args[k]], frames := [])
  {
    EndsMeans(ctx, redex, f, s, tail, t);
    hide Compiled, Ends, Call;
    forall fuel: nat
      ensures Call(fuel, ctx, redex, f, |args|, Plain(s)) == Some(Plain(s).(values := below + [args[k]]))
    {
      SelectsOnce(fuel, ctx, redex, f, s, below, args, k);
    }
    assert CallEnds(0, ctx, redex, f, s, s.(values := below + [args[k]], frames := []));
  }

  lemma SelectsOnce(fuel: nat, ctx: Context, redex: set<Name>, f: nat, s: State, below: seq<Value>, args: seq<Value>,
          k: nat)
    requires f < |ctx.sources| && k < |args| == |ctx.sources[f].params|
    requires Distinct(ctx.sources[f].params) && ctx.sources[f].body == [Var(ctx.sources[f].params[k])]
    requires s.values == below + args
    ensures Call(fuel, ctx, redex, f, |args|, Plain(s)) == Some(Plain(s).(values := below + [args[k]]))
  {
    var params := ctx.sources[f].params;
    var bound := Store(below, Bindings(params, args), s.supply, s.effects);
    BoundAt(params, args, k);
    CallIs(fuel, ctx, redex, f, s, below, args);
    OneExp(fuel, ctx, redex, (set n | n in params), Var(params[k]), bound);
    hide Bindings, Call, EvalList;
  }

  /** Applying a function to names passes what they hold, in the same order, and nothing else. */
  lemma AppliesTo(fuel: nat, ctx: Context, redex: set<Name>, scope: set<string>, params: seq<string>, target: Exp,
          h: nat, names: seq<string>, values: seq<Value>, s: Store)
    requires |names| == |values| && Distinct(names) && IsFunction(ctx, params, target, h)
    requires scope == set n | n in params
    requires forall i :: 0 <= i < |names| ==>
               names[i] in scope && names[i] in s.variables && s.variables[names[i]] == values[i]
    ensures Eval(fuel, ctx, redex, scope, Ap(target, Vars(names)), s) ==
            if fuel == 0 then None else
            Call(fuel - 1, ctx, redex, h, |names|,
                s.(values := s.values + values, variables := s.variables - set n | n in names))
  {
    VarsPush(fuel, ctx, redex, scope, names, values, s);
    var s1 := s.(values := s.values + values, variables := s.variables - set n | n in names);
    var s2 := s1.(values := s1.values + [Function(h)]);
    assert Eval(fuel, ctx, redex, scope, target, s1) == Some(s2);
    assert s2.values[..|s2.values| - 1] == s1.values;
    assert s2.(values := s1.values) == s1;
    hide Call, EvalList, Vars;
  }

  /** A call looks at no variable of the caller. */
  lemma CallPlain(fuel: nat, ctx: Context, redex: set<Name>, f: nat, arity: nat, s: Store,
          variables: map<string, Value>)
    ensures var c, d := Call(fuel, ctx, redex, f, arity, s),
                Call(fuel, ctx, redex, f, arity, s.(variables := variables));
            (c.Some? <==> d.Some?) && (c.Some? ==> d.value == c.value.(variables := variables))
  {
    hide EvalList, Bind;
  }

  /** A function that applies another to some of its own parameters does what the other does
      on the arguments at their places, and nothing when that takes another number of them. */
  lemma PassesItsArguments(ctx: Context, redex: set<Name>, g: nat, h: nat, target: Exp, names: seq<string>, s: State,
          below: seq<Value>, args: seq<Value>, passed: seq<Value>, tail: bool, t: State)
    requires Compiled(ctx) && g < |ctx.sources| && h < |ctx.sources|
    requires |args| == |ctx.sources[g].params| && Distinct(ctx.sources[g].params) && s.values == below + args
    requires ctx.sources[g].body == [Ap(target, Vars(names))] && IsFunction(ctx, ctx.sources[g].params, target, h)
    requires Distinct(names) && Selects(ctx.sources[g].params, args, names, passed)
    ensures g < |ctx.program.functions| && h < |ctx.program.functions|
    ensures Ends(ctx, redex, g, s, tail, t) <==>
              |names| == |ctx.sources[h].params| && Ends(ctx, redex, h, s.(values := below + passed), tail, t)
  {
    hide Compiled, Ends, CallEnds, Selects, IsFunction, Distinct;
    var s' := s.(values := below + passed);
    EndsMeans(ctx, redex, g, s, tail, t);
    EndsMeans(ctx, redex, h, s', tail, t);
    if fuel: nat :| CallEnds(fuel, ctx, redex, g, s, t) {
      PassesEnds(if fuel == 0 then 0 else fuel - 1, ctx, redex, g, h, target, names, s, below, args, passed, t);
    }
    if fuel: nat :| CallEnds(fuel, ctx, redex, h, s', t) {
      PassesEnds(fuel, ctx, redex, g, h, target, names, s, below, args, passed, t);
    }
  }

  lemma PassesEnds(fuel: nat, ctx: Context, redex: set<Name>, g: nat, h: nat, target: Exp, names: seq<string>,
          s: State, below: seq<Value>, args: seq<Value>, passed: seq<Value>, t: State)
    requires g < |ctx.sources| && h < |ctx.sources|
    requires |args| == |ctx.sources[g].params| && Distinct(ctx.sources[g].params) && s.values == below + args
    requires ctx.sources[g].body == [Ap(target, Vars(names))] && IsFunction(ctx, ctx.sources[g].params, target, h)
    requires Distinct(names) && Selects(ctx.sources[g].params, args, names, passed)
    ensures !CallEnds(0, ctx, redex, g, s, t)
    ensures CallEnds(fuel + 1, ctx, redex, g, s, t) <==>
              |names| == |ctx.sources[h].params| && CallEnds(fuel, ctx, redex, h, s.(values := below + passed), t)
  {
    BoundOf(ctx.sources[g].params, args, names, passed);
    PassesOnce(fuel, ctx, redex, g, h, target, names, s, below, args, passed);
    hide Call, IsFunction, Bindings;
  }

  lemma PassesOnce(fuel: nat, ctx: Context, redex: set<Name>, g: nat, h: nat, target: Exp, names: seq<string>,
          s: State, below: seq<Value>, args: seq<Value>, passed: seq<Value>)
    requires g < |ctx.sources| && h < |ctx.sources|
    requires |args| == |ctx.sources[g].params| && Distinct(ctx.sources[g].params) && s.values == below + args
    requires ctx.sources[g].body == [Ap(target, Vars(names))] && IsFunction(ctx, ctx.sources[g].params, target, h)
    requires Distinct(names) && |names| == |passed|
    requires forall i :: 0 <= i < |names| ==>
               && names[i] in ctx.sources[g].params && names[i] in Bindings(ctx.sources[g].params, args)
               && Bindings(ctx.sources[g].params, args)[names[i]] == passed[i]
    ensures Call(fuel + 1, ctx, redex, g, |args|, Plain(s)) ==
            if |names| == |ctx.sources[h].params|
            then Call(fuel, ctx, redex, h, |names|, Plain(s.(values := below + passed))) else None
    ensures Call(0, ctx, redex, g, |args|, Plain(s)) == None
  {
    var params := ctx.sources[g].params;
    var scope := set n | n in params;
    var bound := Store(below, Bindings(params, args), s.supply, s.effects);
    var after := bound.(values := below + passed, variables := bound.variables - set n | n in names);
    forall more: nat
      ensures Call(more, ctx, redex, g, |args|, Plain(s)) ==
              (var r := if more == 0 then None else Call(more - 1, ctx, redex, h, |names|, after);
               if r.None? then None else Some(r.value.(variables := map[])))
    {
      CallIs(more, ctx, redex, g, s, below, args);
      OneExp(more, ctx, redex, scope, Ap(target, Vars(names)), bound);
      AppliesTo(more, ctx, redex, scope, params, target, h, names, passed, bound);
      hide Call, Bindings, Eval, EvalList, IsFunction;
    }
    assert fuel + 1 - 1 == fuel;
    CallPlain(fuel, ctx, redex, h, |names|, after, map[]);
    assert after.(variables := map[]) == Plain(s.(values := below + passed));
    if |names| != |ctx.sources[h].params| {
      assert Call(fuel, ctx, redex, h, |names|, after) == None;
    }
    hide Call;
  }

  // Naming results

  lemma {:induction false} BindShort(names: seq<string>, s: Store)
    requires |s.values| < |names|
    ensures Bind(names, s).None?
    decreases |names|
  {
    var n := |names| - 1;
    if s.values != [] && names[n] !in s.variables { BindShort(names[..n], BindOne(s, names[n])); }
  }

  lemma {:induction false} BindTwice(names: seq<string>, s: Store)
    requires !Distinct(names) || exists n :: n in names && n in s.variables
    ensures Bind(names, s).None?
    decreases |names|
  {
    var n := |names| - 1;
    if s.values != [] && names[n] !in s.variables {
      var s' := BindOne(s, names[n]);
      if m :| m in names && m in s.variables {
        assert m in names[..n] && m in s'.variables;
      } else {
        var i, j :| 0 <= i < j < |names| && names[i] == names[j];
        if j == n { assert names[..n][i] in names[..n] && names[n] in s'.variables; }
        else { assert names[..n][i] == names[..n][j]; }
      }
      BindTwice(names[..n], s');
    }
  }

  /** A function whose parameters do not all have different names cannot be called. */
  lemma RepeatedParameter(ctx: Context, redex: set<Name>, f: nat, s: State, tail: bool, t: State)
    requires Compiled(ctx) && f < |ctx.sources| && !Distinct(ctx.sources[f].params)
    ensures f < |ctx.program.functions| && !Ends(ctx, redex, f, s, tail, t)
  {
    EndsMeans(ctx, redex, f, s, tail, t);
    BindTwice(ctx.sources[f].params, Plain(s));
    hide Compiled, Ends, Bind, EvalList, Distinct;
  }

  lemma {:induction false} VarsOnly(scope: set<string>, names: seq<string>)
    ensures DeclareList(scope, Vars(names)) == scope
  {
    if names != [] {
      assert Vars(names)[0] == Var(names[0]) && Vars(names)[1..] == Vars(names[1..]);
      VarsOnly(scope, names[1..]);
    }
  }

  /** Names take the values on top, in order, and reading them in order puts them back. */
  lemma NamedAndRead(fuel: nat, ctx: Context, redex: set<Name>, params: seq<string>, target: Exp, h: nat,
          names: seq<string>, s: Store)
    requires Distinct(names) && IsFunction(ctx, params + names, target, h)
    requires forall n :: n in names ==> n !in s.variables
    ensures var scope, b := (set n | n in params + names), Bind(names, s);
            var e := if b.None? then None else Eval(fuel, ctx, redex, scope, Ap(target, Vars(names)), b.value);
            e == if fuel == 0 || |s.values| < |names| then None else Call(fuel - 1, ctx, redex, h, |names|, s)
  {
    var scope := set n | n in params + names;
    if |s.values| < |names| {
      BindShort(names, s);
      hide Eval;
    } else {
      var k := |s.values| - |names|;
      var below, values := s.values[..k], s.values[k..];
      assert s.values == below + values;
      BindAll(below, names, values, s);
      var b := s.(values := below, variables := s.variables + Bindings(names, values));
      forall i | 0 <= i < |names|
        ensures names[i] in scope && names[i] in b.variables && b.variables[names[i]] == values[i]
      {
        BoundAt(names, values, i);
        hide Bindings;
      }
      AppliesTo(fuel, ctx, redex, scope, params + names, target, h, names, values, b);
      BindingsKeys(names, values);
      assert b.variables - (set n | n in names) == s.variables;
      hide Bindings, Bind, Eval, Call;
    }
  }

  lemma {:induction false} BindingsKeys(names: seq<string>, values: seq<Value>)
    requires |names| == |values|
    ensures Bindings(names, values).Keys == set n | n in names
  {
    if names != [] {
      var n := |names| - 1;
      BindingsKeys(names[..n], values[..n]);
      assert names == names[..n] + [names[n]];
    }
  }

  lemma TwoExps(fuel: nat, ctx: Context, redex: set<Name>, scope: set<string>, a: Exp, b: Exp, s: Store)
    ensures var r := Eval(fuel, ctx, redex, scope, a, s);
            EvalList(fuel, ctx, redex, scope, [a, b], s)
              == if r.None? then None else Eval(fuel, ctx, redex, Declare(scope, a), b, r.value)
  {
    assert [a, b][1..] == [b];
    var r := Eval(fuel, ctx, redex, scope, a, s);
    if r.Some? { OneExp(fuel, ctx, redex, Declare(scope, a), b, r.value); }
    hide Eval;
  }

  lemma CallMono(fuel: nat, more: nat, ctx: Context, redex: set<Name>, f: nat, arity: nat, s: Store)
    requires fuel <= more && Call(fuel, ctx, redex, f, arity, s).Some?
    ensures Call(more, ctx, redex, f, arity, s) == Call(fuel, ctx, redex, f, arity, s)
  {
    var source := ctx.sources[f];
    var s1 := Bind(source.params, s.(variables := map[])).value;
    EvalListMono(fuel, more, ctx, redex, (set n | n in source.params), source.body, s1);
    hide EvalList, Bind;
  }

  /** The body names what `f` returns, and applies `h` to the names. */
  ghost predicate NamesResults(ctx: Context, g: nat, f: nat, h: nat, read: seq<string>, names: seq<string>) {
    && g < |ctx.sources| && f < |ctx.sources| && h < |ctx.sources|
    && |ctx.sources[g].body| == 2
    && var params, first, second := ctx.sources[g].params, ctx.sources[g].body[0], ctx.sources[g].body[1];
       && Distinct(params) && Distinct(read) && Distinct(names)
       && (forall n :: n in names && n in params ==> n in read)
       && first.Assign? && first.names == names && first.exp.Ap? && first.exp.args == Vars(read)
       && IsFunction(ctx, params, first.exp.target, f)
       && second.Ap? && second.args == Vars(names) && IsFunction(ctx, params + names, second.target, h)
  }

  lemma ScopeAfter(ctx: Context, params: seq<string>, names: seq<string>, target: Exp, f: nat, read: seq<string>)
    requires IsFunction(ctx, params, target, f)
    ensures Declare((set n | n in params), Assign(names, Ap(target, Vars(read)))) == set n | n in params + names
  {
    var scope := set n | n in params;
    VarsOnly(scope, read);
    assert Declare(scope, target) == scope;
    assert Declare(scope, Ap(target, Vars(read))) == scope;
  }

  /** The two expressions of the body, when the parameters are bound. */
  lemma BodyOnce(fuel: nat, ctx: Context, redex: set<Name>, g: nat, f: nat, h: nat, read: seq<string>,
          names: seq<string>, passed: seq<Value>, bound: Store, after: Store)
    requires NamesResults(ctx, g, f, h, read, names) && |read| == |passed|
    requires after == bound.(values := bound.values + passed, variables := bound.variables - set n | n in read)
    requires forall n :: n in bound.variables ==> n in ctx.sources[g].params
    requires forall i :: 0 <= i < |read| ==>
               && read[i] in ctx.sources[g].params && read[i] in bound.variables
               && bound.variables[read[i]] == passed[i]
    ensures var u := if fuel == 0 then None else Call(fuel - 1, ctx, redex, f, |read|, after);
            EvalList(fuel, ctx, redex, (set n | n in ctx.sources[g].params), ctx.sources[g].body, bound) ==
              if u.None? || |u.value.values| < |names| then None else Call(fuel - 1, ctx, redex, h, |names|, u.value)
  {
    var params, first, second := ctx.sources[g].params, ctx.sources[g].body[0], ctx.sources[g].body[1];
    var scope := set n | n in params;
    assert ctx.sources[g].body == [first, second];
    TwoExps(fuel, ctx, redex, scope, first, second, bound);
    AppliesTo(fuel, ctx, redex, scope, params, first.exp.target, f, read, passed, bound);
    ScopeAfter(ctx, params, names, first.exp.target, f, read);
    if fuel > 0 {
      var c := Call(fuel - 1, ctx, redex, f, |read|, after);
      if c.Some? {
        CallPlain(fuel - 1, ctx, redex, f, |read|, after, after.variables);
        NamedAndRead(fuel, ctx, redex, params, second.target, h, names, c.value);
      }
    }
    hide Call, Bind, IsFunction, Distinct, EvalList;
  }

  lemma NamesOnce(fuel: nat, ctx: Context, redex: set<Name>, g: nat, f: nat, h: nat, read: seq<string>,
          names: seq<string>, s: State, below: seq<Value>, args: seq<Value>, passed: seq<Value>)
    requires NamesResults(ctx, g, f, h, read, names)
    requires |args| == |ctx.sources[g].params| && s.values == below + args
    requires Selects(ctx.sources[g].params, args, read, passed)
    ensures var u := if fuel == 0 then None else
                Call(fuel - 1, ctx, redex, f, |read|, Plain(s.(values := below + passed)));
            Call(fuel, ctx, redex, g, |args|, Plain(s)) ==
              if u.None? || |u.value.values| < |names| then None
              else Call(fuel - 1, ctx, redex, h, |names|, u.value)
  {
    var params := ctx.sources[g].params;
    var bound := Store(below, Bindings(params, args), s.supply, s.effects);
    var after := bound.(values := below + passed, variables := bound.variables - set n | n in read);
    BoundOf(params, args, read, passed);
    CallIs(fuel, ctx, redex, g, s, below, args);
    BodyOnce(fuel, ctx, redex, g, f, h, read, names, passed, bound, after);
    if fuel > 0 {
      assert after.(variables := map[]) == Plain(s.(values := below + passed));
      CallPlain(fuel - 1, ctx, redex, f, |read|, after, map[]);
      var c := Call(fuel - 1, ctx, redex, f, |read|, after);
      if c.Some? { CallPlain(fuel - 1, ctx, redex, h, |names|, c.value, map[]); }
    }
    hide Call, Bindings, Selects, NamesResults, EvalList;
  }

  /** A function that names what one function returns and applies another to the names runs the
      one and then the other, on what the first leaves on the stack. */
  lemma RunsInTurn(ctx: Context, redex: set<Name>, g: nat, f: nat, h: nat, read: seq<string>,
          names: seq<string>, s: State, below: seq<Value>, args: seq<Value>, passed: seq<Value>, tail: bool, t: State)
    requires Compiled(ctx) && NamesResults(ctx, g, f, h, read, names)
    requires |args| == |ctx.sources[g].params| && s.values == below + args
    requires Selects(ctx.sources[g].params, args, read, passed)
    ensures |ctx.sources| == |ctx.program.functions|
    ensures Ends(ctx, redex, g, s, tail, t) <==>
              && |read| == |ctx.sources[f].params| && |names| == |ctx.sources[h].params|
              && exists u :: Ends(ctx, redex, f, s.(values := below + passed), tail, u)
                             && |names| <= |u.values| && Ends(ctx, redex, h, u, tail, t)
  {
    var s' := s.(values := below + passed);
    assert g < |ctx.sources| && f < |ctx.sources| && h < |ctx.sources|;
    hide Ends, Selects, NamesResults, CallEnds, Compiled;
    EndsMeans(ctx, redex, g, s, tail, t);
    if fuel: nat :| CallEnds(fuel, ctx, redex, g, s, t) {
      var u := EndsInTurn(fuel, ctx, redex, g, f, h, read, names, s, below, args, passed, t);
      EndsMeans(ctx, redex, f, s', tail, u);
      EndsMeans(ctx, redex, h, u, tail, t);
    }
    if |read| == |ctx.sources[f].params| && |names| == |ctx.sources[h].params| {
      if u :| Ends(ctx, redex, f, s', tail, u) && |names| <= |u.values| && Ends(ctx, redex, h, u, tail, t) {
        EndsMeans(ctx, redex, f, s', tail, u);
        EndsMeans(ctx, redex, h, u, tail, t);
        var m: nat :| CallEnds(m, ctx, redex, f, s', u);
        var n: nat :| CallEnds(n, ctx, redex, h, u, t);
        TurnsEnd(m, n, ctx, redex, g, f, h, read, names, s, below, args, passed, u, t);
      }
    }
  }

  lemma EndsInTurn(fuel: nat, ctx: Context, redex: set<Name>, g: nat, f: nat, h: nat, read: seq<string>,
          names: seq<string>, s: State, below: seq<Value>, args: seq<Value>, passed: seq<Value>, t: State)
    returns (u: State)
    requires NamesResults(ctx, g, f, h, read, names)
    requires |args| == |ctx.sources[g].params| && s.values == below + args
    requires Selects(ctx.sources[g].params, args, read, passed) && CallEnds(fuel, ctx, redex, g, s, t)
    ensures fuel > 0 && |read| == |ctx.sources[f].params| && |names| == |ctx.sources[h].params|
    ensures |names| <= |u.values|
    ensures CallEnds(fuel - 1, ctx, redex, f, s.(values := below + passed), u)
    ensures CallEnds(fuel - 1, ctx, redex, h, u, t)
  {
    NamesOnce(fuel, ctx, redex, g, f, h, read, names, s, below, args, passed);
    var c := Call(fuel - 1, ctx, redex, f, |read|, Plain(s.(values := below + passed))).value;
    u := AtRest(c);
    CallArity(fuel - 1, ctx, redex, f, |read|, Plain(s.(values := below + passed)));
    CallArity(fuel - 1, ctx, redex, h, |names|, c);
    hide Call, Selects, NamesResults;
    assert Plain(u) == c;
  }

  lemma CallArity(fuel: nat, ctx: Context, redex: set<Name>, f: nat, arity: nat, s: Store)
    requires Call(fuel, ctx, redex, f, arity, s).Some?
    ensures f < |ctx.sources| && arity == |ctx.sources[f].params|
    ensures Call(fuel, ctx, redex, f, arity, s).value.variables == s.variables
  {
    hide EvalList, Bind;
  }

  lemma TurnsEnd(m: nat, n: nat, ctx: Context, redex: set<Name>, g: nat, f: nat, h: nat, read: seq<string>,
          names: seq<string>, s: State, below: seq<Value>, args: seq<Value>, passed: seq<Value>, u: State, t: State)
    requires NamesResults(ctx, g, f, h, read, names)
    requires |args| == |ctx.sources[g].params| && s.values == below + args
    requires Selects(ctx.sources[g].params, args, read, passed)
    requires |read| == |ctx.sources[f].params| && |names| == |ctx.sources[h].params| && |names| <= |u.values|
    requires CallEnds(m, ctx, redex, f, s.(values := below + passed), u) && CallEnds(n, ctx, redex, h, u, t)
    ensures CallEnds(m + n + 1, ctx, redex, g, s, t)
  {
    var s' := Plain(s.(values := below + passed));
    CallArity(m, ctx, redex, f, |read|, s');
    CallMono(m, m + n, ctx, redex, f, |read|, s');
    CallMono(n, m + n, ctx, redex, h, |names|, Plain(u));
    NamesOnce(m + n + 1, ctx, redex, g, f, h, read, names, s, below, args, passed);
    hide Call, Selects, NamesResults;
  }

  // Names must be defined

  /** The names that an expression reads, and those it stores into. */
  function Read(exp: Exp): set<string>
    decreases exp, 1
  {
    match exp
    case Var(name) => {name}
    case Ap(target, args) => ReadAll(args) + Read(target)
    case Assign(_, e) => Read(e)
    case Lit(_) => {}
  }

  function ReadAll(exps: seq<Exp>): set<string>
    decreases exps, 0
  {
    if exps == [] then {} else Read(exps[0]) + ReadAll(exps[1..])
  }

  /** An expression compiles when every name it reads is local or global, and only when each is
      that or is stored into by the expression itself. */
  lemma {:induction false} CompilesWhenDefined(globals: map<string, Value>, locals: Locals, exp: Exp)
    ensures Read(exp) <= locals.Keys + globals.Keys ==> Compile(globals, locals, exp).Some?
    ensures Compile(globals, locals, exp).Some? ==> Read(exp) <= Declare(locals.Keys, exp) + globals.Keys
    ensures Compile(globals, locals, exp).Some? ==> locals.Keys <= Declare(locals.Keys, exp)
    decreases exp, 1
  {
    match exp
    case Var(_) =>
    case Lit(_) =>
    case Assign(_, e) => CompilesWhenDefined(globals, locals, e);
    case Ap(target, args) =>
      CompilesAllWhenDefined(globals, locals, args);
      var a := CompileList(globals, locals, args);
      if a.Some? {
        CompileListDeclares(globals, locals, args);
        CompilesWhenDefined(globals, a.value.locals, target);
      }
  }

  lemma {:induction false} CompilesAllWhenDefined(globals: map<string, Value>, locals: Locals, exps: seq<Exp>)
    ensures ReadAll(exps) <= locals.Keys + globals.Keys ==> CompileList(globals, locals, exps).Some?
    ensures CompileList(globals, locals, exps).Some? ==> ReadAll(exps) <= DeclareList(locals.Keys, exps) + globals.Keys
    ensures CompileList(globals, locals, exps).Some? ==> locals.Keys <= DeclareList(locals.Keys, exps)
    decreases exps, 0
  {
    if exps != [] {
      CompilesWhenDefined(globals, locals, exps[0]);
      var first := Compile(globals, locals, exps[0]);
      if first.Some? {
        CompileDeclares(globals, locals, exps[0]);
        CompilesAllWhenDefined(globals, first.value.locals, exps[1..]);
      }
    }
  }
}
