/** When a rule fires its body runs with each pattern variable bound to the value that sat
    at the variable's port, whichever of the two nodes came first. */
module RuleMeaning {
  import opened Values
  import opened Machine
  import opened Compiler
  import opened CompilerCorrect
  import opened Interaction
  import opened NetEnds
  import opened NetInvariant
  import opened NetSteps
  import opened RulePattern

  // Parameters take the values on the stack

  predicate Distinct(names: seq<string>) {
    forall i, j :: 0 <= i < j < |names| ==> names[i] != names[j]
  }

  function Bindings(names: seq<string>, values: seq<Value>): (b: map<string, Value>)
    requires |names| == |values|
    ensures forall x :: x in b ==> x in names
  {
    if names == [] then map[] else
    var n := |names| - 1;
    Bindings(names[..n], values[..n])[names[n] := values[n]]
  }

  lemma {:induction false} BoundAt(names: seq<string>, values: seq<Value>, i: nat)
    requires |names| == |values| && Distinct(names) && i < |names|
    ensures names[i] in Bindings(names, values) && Bindings(names, values)[names[i]] == values[i]
  {
    var n := |names| - 1;
    BindingsStep(names, values);
    if i < n {
      BoundAt(names[..n], values[..n], i);
      hide Bindings;
      assert names[..n][i] == names[i] != names[n] && values[..n][i] == values[i];
    }
  }

  lemma BindingsStep(names: seq<string>, values: seq<Value>)
    requires |names| == |values| > 0
    ensures var n := |names| - 1; Bindings(names, values) == Bindings(names[..n], values[..n])[names[n] := values[n]]
  {
  }

  lemma BindFirst(names: seq<string>, values: seq<Value>, variables: map<string, Value>)
    requires |names| == |values| > 0 && Distinct(names)
    ensures var n := |names| - 1;
            variables[names[n] := values[n]] + Bindings(names[..n], values[..n]) == variables + Bindings(names, values)
  {
    var n := |names| - 1;
    assert names[n] !in names[..n];
  }

  lemma {:induction false} BindAll(below: seq<Value>, names: seq<string>, values: seq<Value>, s: Store)
    requires |names| == |values| && s.values == below + values && Distinct(names)
    requires forall x :: x in names ==> x !in s.variables
    ensures Bind(names, s) == Some(s.(values := below, variables := s.variables + Bindings(names, values)))
    decreases |names|
  {
    if names == [] {
      assert s.variables + map[] == s.variables && below + values == below;
    } else {
      hide Bindings;
      var n := |names| - 1;
      var s' := BindOne(s, names[n]);
      assert s'.values == below + values[..n];
      assert forall x :: x in names[..n] ==> x in names && x != names[n];
      BindAll(below, names[..n], values[..n], s');
      BindFirst(names, values, s.variables);
    }
  }

  // The stack is filled from the ports

  /** The pattern names the principal ports of a constructor as principal, no others. */
  predicate Fits(kinds: seq<bool>, args: seq<string>) {
    |args| == |kinds| && forall i :: 0 <= i < |args| ==> (IsPrincipalName(args[i]) <==> kinds[i])
  }

  /** A pattern fits a constructor exactly when it has a name for each port and marks the names
      of those that are marked where the constructor is defined, as with the same names it does. */
  lemma FitsDefinition(kinds: seq<bool>, names: seq<string>, args: seq<string>)
    requires |kinds| == |names| && forall i :: 0 <= i < |names| ==> (kinds[i] <==> IsMarked(names[i]))
    ensures Fits(kinds, args) <==>
              |args| == |names| && forall i :: 0 <= i < |args| ==> (IsMarked(args[i]) <==> IsMarked(names[i]))
  {
    hide IsMarked;
    forall i | 0 <= i < |args| ensures IsPrincipalName(args[i]) <==> IsMarked(args[i]) { MarkedIsPrincipal(args[i]); }
  }

  lemma {:induction false} LocalCount(n: Name, kinds: seq<bool>, args: seq<string>, ports: seq<Value>)
    requires Fits(kinds, args) && |ports| == |args| && WellBuilt(n, kinds, ports, 0)
    ensures |LocalNames(args)| == |Auxiliary(ports)|
    decreases |args|
  {
    if args != [] {
      var k := |args| - 1;
      LocalCount(n, kinds[..k], args[..k], ports[..k]);
      assert kinds[0 + k] == ports[k].Principal?;
    }
  }

  /** The name and the value of a port that is not principal come at the same place. */
  lemma {:induction false} LocalAt(n: Name, kinds: seq<bool>, args: seq<string>, ports: seq<Value>, i: nat)
          returns (k: nat)
    requires Fits(kinds, args) && |ports| == |args| && WellBuilt(n, kinds, ports, 0)
    requires i < |args| && !kinds[i]
    ensures k < |LocalNames(args)| == |Auxiliary(ports)|
    ensures LocalNames(args)[k] == args[i] && Auxiliary(ports)[k] == ports[i]
    decreases |args|
  {
    var last := |args| - 1;
    LocalCount(n, kinds, args, ports);
    LocalCount(n, kinds[..last], args[..last], ports[..last]);
    if i < last {
      k := LocalAt(n, kinds[..last], args[..last], ports[..last], i);
    } else {
      k := |LocalNames(args[..last])|;
      assert kinds[0 + i] == ports[i].Principal?;
    }
  }

  ghost predicate IsBound(args: seq<string>, ports: seq<Value>, b: map<string, Value>) {
    && |args| == |ports|
    && forall i :: 0 <= i < |args| && !IsPrincipalName(args[i]) ==> args[i] in b && b[args[i]] == ports[i]
  }

  /** The names of one of the two patterns, among all the parameters, starting at `from`. */
  lemma PortsBound(n: Name, kinds: seq<bool>, args: seq<string>, ports: seq<Value>, names: seq<string>,
          values: seq<Value>, from: nat)
    requires Fits(kinds, args) && |ports| == |args| && WellBuilt(n, kinds, ports, 0)
    requires |names| == |values| && Distinct(names)
    requires from + |LocalNames(args)| <= |names| && |LocalNames(args)| == |Auxiliary(ports)|
    requires names[from..from + |LocalNames(args)|] == LocalNames(args)
    requires values[from..from + |LocalNames(args)|] == Auxiliary(ports)
    ensures IsBound(args, ports, Bindings(names, values))
  {
    hide LocalNames, Auxiliary, Bindings, WellBuilt;
    forall i | 0 <= i < |args| && !IsPrincipalName(args[i])
      ensures args[i] in Bindings(names, values) && Bindings(names, values)[args[i]] == ports[i]
    {
      var k := LocalAt(n, kinds, args, ports, i);
      BoundAt(names, values, from + k);
      assert names[from..from + |LocalNames(args)|][k] == names[from + k];
      assert values[from..from + |LocalNames(args)|][k] == values[from + k];
    }
  }

  lemma RuleBindings(l: Name, left: Node, leftKinds: seq<bool>, leftArgs: seq<string>,
                     r: Name, right: Node, rightKinds: seq<bool>, rightArgs: seq<string>)
                         returns (b: map<string, Value>)
    requires Fits(leftKinds, leftArgs) && |left.ports| == |leftArgs| && WellBuilt(l, leftKinds, left.ports, 0)
    requires Fits(rightKinds, rightArgs) && |right.ports| == |rightArgs| && WellBuilt(r, rightKinds, right.ports, 0)
    requires Distinct(LocalNames(leftArgs) + LocalNames(rightArgs))
    ensures IsBound(leftArgs, left.ports, b) && IsBound(rightArgs, right.ports, b)
    ensures var names := LocalNames(leftArgs) + LocalNames(rightArgs);
            var s := Store(Auxiliary(left.ports) + Auxiliary(right.ports), map[], 0, []);
            Bind(names, s) == Some(Store([], b, 0, []))
  {
    hide Fits, WellBuilt, LocalNames, Auxiliary, Bindings, IsBound, Bind, Distinct;
    var names := LocalNames(leftArgs) + LocalNames(rightArgs);
    var values := Auxiliary(left.ports) + Auxiliary(right.ports);
    LocalCount(l, leftKinds, leftArgs, left.ports);
    LocalCount(r, rightKinds, rightArgs, right.ports);
    b := Bindings(names, values);
    PortsBound(l, leftKinds, leftArgs, left.ports, names, values, 0);
    PortsBound(r, rightKinds, rightArgs, right.ports, names, values, |LocalNames(leftArgs)|);
    BindAll([], names, values, Store(values, map[], 0, []));
    assert map[] + b == b;
  }

  /** The nodes of a task fit the rule's sides, whichever came first; of two nodes of one
      constructor, the one whose port was on the left when they met is on the left. */
  lemma TaskFits(w: World, nodes: map<Name, Node>, u: Value, v: Value, t: Task)
    requires t in FindTask(w, nodes, u, v)
    ensures t.left in nodes && nodes[t.left].ctor == w.rules[t.rule].left
    ensures t.right in nodes && nodes[t.right].ctor == w.rules[t.rule].right
    ensures if w.rules[t.rule].left != w.rules[t.rule].right then t in FindTask(w, nodes, v, u) else t.left == u.node
  {
    FindRuleSwap(w.rules, nodes[u.node].ctor, nodes[v.node].ctor);
  }

  /** A rule whose patterns fit its constructors and have distinct names: from
      the start of its task the machine comes to rest in a state exactly when the body
      evaluates to it with every name bound to the value at its port. */
  lemma RuleMeansItsBody(ctx: Context, w: World, f: nat, leftArgs: seq<string>, rightArgs: seq<string>, body: seq<Exp>,
                         nodes: map<Name, Node>, u: Value, v: Value, t: Task, end: State, tail: bool)
                             returns (b: map<string, Value>)
    requires Compiled(ctx) && w.program == ctx.program && f < |ctx.sources|
    requires ctx.sources[f] == Source(LocalNames(leftArgs) + LocalNames(rightArgs), body)
    requires t in FindTask(w, nodes, u, v)
    requires f < |ctx.program.functions| && w.rules[t.rule].code == ctx.program.functions[f].opcodes
    requires t.left in nodes && t.right in nodes && IsNode(w, t.left, nodes[t.left])
    requires IsNode(w, t.right, nodes[t.right])
    requires w.rules[t.rule].left < |w.program.ctors| && Fits(w.program.ctors[w.rules[t.rule].left], leftArgs)
    requires w.rules[t.rule].right < |w.program.ctors| && Fits(w.program.ctors[w.rules[t.rule].right], rightArgs)
    requires Distinct(LocalNames(leftArgs) + LocalNames(rightArgs))
    ensures w.rules[t.rule].left != w.rules[t.rule].right ==> t in FindTask(w, nodes, v, u)
    ensures IsBound(leftArgs, nodes[t.left].ports, b) && IsBound(rightArgs, nodes[t.right].ports, b)
    ensures var key := {t.left, t.right};
            var start := Start(w.rules[t.rule].code, Auxiliary(nodes[t.left].ports) + Auxiliary(nodes[t.right].ports));
            var scope := set n | n in LocalNames(leftArgs) + LocalNames(rightArgs);
            Halts(ctx.program, key, start, tail, end) <==>
              exists fuel {:trigger EvalList(fuel, ctx, key, scope, body, Store([], b, 0, []))} ::
                var r := EvalList(fuel, ctx, key, scope, body, Store([], b, 0, []));
                r.Some? && end == AtRest(r.value)
  {
    hide Compiled, Halts, FindTask, Fits, LocalNames, Auxiliary, EvalList, WellBuilt, Distinct, IsBound;
    TaskFits(w, nodes, u, v, t);
    var left, right := nodes[t.left], nodes[t.right];
    FitsLength(w.program.ctors[left.ctor], leftArgs);
    FitsLength(w.program.ctors[right.ctor], rightArgs);
    b := RuleBindings(t.left, left, w.program.ctors[left.ctor], leftArgs, t.right, right, w.program.ctors[right.ctor],
        rightArgs);
    var s := Store(Auxiliary(left.ports) + Auxiliary(right.ports), map[], 0, []);
    var key := {t.left, t.right};
    CompiledFunctionMeansItsBody(ctx, key, f, s, end, tail);
    CallIsBody(ctx, key, f, s, b, end);
  }

  lemma FitsLength(kinds: seq<bool>, args: seq<string>)
    requires Fits(kinds, args)
    ensures |args| == |kinds|
  {
  }

  lemma CallIsBody(ctx: Context, key: set<Name>, f: nat, s: Store, b: map<string, Value>, end: State)
    requires f < |ctx.sources| && s.variables == map[] && Bind(ctx.sources[f].params, s) == Some(Store([], b, 0, []))
    ensures var source := ctx.sources[f];
            var scope := set n | n in source.params;
            (exists fuel {:trigger Call(fuel, ctx, key, f, |source.params|, s)} ::
               var r := Call(fuel, ctx, key, f, |source.params|, s);
               r.Some? && end == AtRest(r.value))
            <==>
            (exists fuel {:trigger EvalList(fuel, ctx, key, scope, source.body, Store([], b, 0, []))} ::
               var r := EvalList(fuel, ctx, key, scope, source.body, Store([], b, 0, []));
               r.Some? && end == AtRest(r.value))
  {
    var source := ctx.sources[f];
    var arity, scope, bound := |source.params|, (set n | n in source.params), Store([], b, 0, []);
    hide EvalList, Call, Bind;
    if fuel: nat :| Call(fuel, ctx, key, f, arity, s).Some? && end == AtRest(Call(fuel, ctx, key, f, arity, s).value) {
      CallEquals(fuel, ctx, key, f, s, b);
      assert var r := EvalList(fuel, ctx, key, scope, source.body, bound); r.Some? && end == AtRest(r.value);
    }
    if fuel: nat :|
      && EvalList(fuel, ctx, key, scope, source.body, bound).Some?
      && end == AtRest(EvalList(fuel, ctx, key, scope, source.body, bound).value)
    {
      CallEquals(fuel, ctx, key, f, s, b);
      assert var r := Call(fuel, ctx, key, f, arity, s); r.Some? && end == AtRest(r.value);
    }
  }

  lemma CallEquals(fuel: nat, ctx: Context, key: set<Name>, f: nat, s: Store, b: map<string, Value>)
    requires f < |ctx.sources| && s.variables == map[] && Bind(ctx.sources[f].params, s) == Some(Store([], b, 0, []))
    ensures var source := ctx.sources[f];
            var c := Call(fuel, ctx, key, f, |source.params|, s);
            var e := EvalList(fuel, ctx, key, (set n | n in source.params), source.body, Store([], b, 0, []));
            (c.Some? <==> e.Some?) && (c.Some? ==> AtRest(c.value) == AtRest(e.value))
  {
    assert s.(variables := map[]) == s;
    hide EvalList, Bind;
  }
}
