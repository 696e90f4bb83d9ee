/** The usual rule between two nodes of one constructor joins what was behind each port of the
    one to what was behind the same port of the other. It does the same whichever node came
    first. */
module Annihilation {
  import opened Values
  import opened Machine
  import opened Compiler
  import opened Interaction
  import opened NetInvariant
  import opened NetSteps
  import opened Confluence

  // The body

  /** One (connect a b) of the body: the variables of the `i`-th ports of the two nodes. */
  function Group(n: nat, connect: nat, i: nat): seq<Opcode>
    requires i < n
  {
    [GetVariable(2 * n - 1 - i), GetVariable(n - 1 - i), Literal(Primitive(connect)), Apply(2)]
  }

  function Groups(n: nat, connect: nat, i: nat): (code: seq<Opcode>)
    requires i <= n
    ensures |code| == 4 * (n - i)
    decreases n - i
  {
    if i == n then [] else Group(n, connect, i) + Groups(n, connect, i + 1)
  }

  function Stores(from: nat, until: nat): (code: seq<Opcode>)
    requires from <= until
    ensures |code| == until - from && forall i :: 0 <= i < |code| ==> code[i] == SetVariable(from + i)
    decreases until - from
  {
    if from == until then [] else [SetVariable(from)] + Stores(from + 1, until)
  }

  /** The body for nodes of `n` ports that are not principal: 2 * n variables are stored from
      the stack, the last first, and then joined in pairs. */
  function Body(n: nat, connect: nat): (code: seq<Opcode>)
    ensures |code| == 6 * n
  {
    Stores(0, 2 * n) + Groups(n, connect, 0)
  }

  lemma {:induction false} GroupsAt(n: nat, connect: nat, i: nat, j: nat, r: nat)
    requires i <= j < n && r < 4
    ensures Groups(n, connect, i)[4 * (j - i) + r] == Group(n, connect, j)[r]
    decreases n - i
  {
    if i < j { GroupsAt(n, connect, i + 1, j, r); }
  }

  lemma BodyAt(n: nat, connect: nat, i: nat, r: nat)
    requires i < n && r < 4
    ensures Body(n, connect)[2 * n + 4 * i + r] == Group(n, connect, i)[r]
  {
    GroupsAt(n, connect, 0, i, r);
  }

  // That is what the compiler makes of it

  /** (connect a b) for each two names at the same place. */
  function Joining(connect: string, names: seq<string>, n: nat, i: nat): seq<Exp>
    requires |names| == 2 * n && i <= n
    decreases n - i
  {
    if i == n then [] else [Ap(Var(connect), [Var(names[i]), Var(names[n + i])])] + Joining(connect, names, n, i + 1)
  }

  /** The locals when the names from `k` on have been numbered from the last. */
  predicate AreNumbered(locals: Locals, names: seq<string>, k: nat) {
    && k <= |names| && |locals| == |names| - k
    && (forall i :: k <= i < |names| ==> names[i] in locals && locals[names[i]] == |names| - 1 - i)
    && (forall x :: x in locals ==> x in names[k..])
  }

  lemma NumberOne(locals: Locals, names: seq<string>, k: nat)
    requires 0 < k && AreNumbered(locals, names, k) && forall i, j :: 0 <= i < j < |names| ==> names[i] != names[j]
    ensures var o := CompileSet(locals, names[k - 1]);
            o.code == [SetVariable(|names| - k)] && AreNumbered(o.locals, names, k - 1)
  {
    assert names[k - 1] !in names[k..] && names[k - 1] !in locals;
    assert names[k - 1..] == [names[k - 1]] + names[k..];
    var locals' := locals[names[k - 1] := |names| - k];
    assert CompileSet(locals, names[k - 1]) == Out(locals', [SetVariable(|names| - k)]);
    assert |locals'| == |locals| + 1;
    forall i | k - 1 <= i < |names| ensures names[i] in locals' && locals'[names[i]] == |names| - 1 - i {
      if i >= k { assert names[i] in locals && names[i] != names[k - 1]; }
    }
  }

  lemma {:induction false} SetsNumber(locals: Locals, names: seq<string>, k: nat)
    requires k <= |names| && AreNumbered(locals, names, k)
    requires forall i, j :: 0 <= i < j < |names| ==> names[i] != names[j]
    ensures var o := CompileSets(locals, names[..k]);
            AreNumbered(o.locals, names, 0) && o.code == Stores(|names| - k, |names|)
    decreases k
  {
    hide AreNumbered, CompileSet;
    if k > 0 {
      NumberOne(locals, names, k);
      assert names[..k][..k - 1] == names[..k - 1];
      SetsNumber(CompileSet(locals, names[k - 1]).locals, names, k - 1);
    }
  }

  lemma {:induction false} JoiningCompiles(globals: map<string, Value>, locals: Locals, connect: string, p: nat,
          names: seq<string>, n: nat, i: nat)
    requires |names| == 2 * n && i <= n && AreNumbered(locals, names, 0)
    requires connect in globals && globals[connect] == Primitive(p) && connect !in names
    ensures CompileList(globals, locals, Joining(connect, names, n, i)) == Some(Out(locals, Groups(n, p, i)))
    decreases n - i
  {
    if i < n {
      JoiningCompiles(globals, locals, connect, p, names, n, i + 1);
      GroupCompiles(globals, locals, connect, p, names, n, i);
      hide Compile, Group;
      var first := Ap(Var(connect), [Var(names[i]), Var(names[n + i])]);
      assert Joining(connect, names, n, i) == [first] + Joining(connect, names, n, i + 1);
    }
  }

  lemma GroupCompiles(globals: map<string, Value>, locals: Locals, connect: string, p: nat, names: seq<string>, n: nat,
          i: nat)
    requires |names| == 2 * n && i < n && AreNumbered(locals, names, 0)
    requires connect in globals && globals[connect] == Primitive(p) && connect !in names
    ensures Compile(globals, locals, Ap(Var(connect), [Var(names[i]), Var(names[n + i])]))
            == Some(Out(locals, Group(n, p, i)))
  {
    var a, b := Var(names[i]), Var(names[n + i]);
    assert connect !in locals && locals[names[i]] == 2 * n - 1 - i && locals[names[n + i]] == n - 1 - i;
    var x, y := [GetVariable(2 * n - 1 - i)], [GetVariable(n - 1 - i)];
    CompileTwo(globals, locals, a, b, x, y);
    assert Compile(globals, locals, Var(connect)) == Some(Out(locals, [Literal(Primitive(p))]));
    assert x + y + [Literal(Primitive(p))] + [Apply(2)] == Group(n, p, i);
    hide AreNumbered;
  }

  lemma CompileTwo(globals: map<string, Value>, locals: Locals, a: Exp, b: Exp, x: seq<Opcode>, y: seq<Opcode>)
    requires Compile(globals, locals, a) == Some(Out(locals, x)) && Compile(globals, locals, b) == Some(Out(locals, y))
    ensures CompileList(globals, locals, [a, b]) == Some(Out(locals, x + y))
  {
    hide Compile;
    var none: seq<Exp> := [];
    assert [b][1..] == none && [a, b][1..] == [b];
    assert CompileList(globals, locals, none) == Some(Out(locals, []));
    assert CompileList(globals, locals, [b]) == Some(Out(locals, y + []));
    assert y + [] == y;
  }

  /** For all distinct names: the rule whose parameters are the names of the one node's ports
      and of the other's, and whose body joins them in pairs, has this code. */
  lemma BodyIsCompiled(globals: map<string, Value>, connect: string, p: nat, names: seq<string>, n: nat)
    requires |names| == 2 * n && forall i, j :: 0 <= i < j < |names| ==> names[i] != names[j]
    requires connect in globals && globals[connect] == Primitive(p) && connect !in names
    ensures var o := CompileFunction(globals, Source(names, Joining(connect, names, n, 0)));
            o.Some? && o.value.code == Body(n, p)
  {
    hide CompileSets, CompileList, Stores, Groups, Joining;
    var none: Locals := map[];
    assert AreNumbered(none, names, |names|);
    hide AreNumbered;
    SetsNumber(none, names, |names|);
    assert names[..|names|] == names;
    JoiningCompiles(globals, CompileSets(none, names).locals, connect, p, names, n, 0);
  }

  // Where the course of the body is

  /** The `k`-th value from the top. */
  function FromTop(z: seq<Value>, k: nat): Value
    requires k < |z|
  {
    z[|z| - 1 - k]
  }

  function Stored(z: seq<Value>, m: nat): map<nat, Value>
    requires m <= |z|
  {
    map k: nat | k < m :: FromTop(z, k)
  }

  /** The variables when the first `i` pairs of ports have been joined. */
  function Unused(z: seq<Value>, n: nat, i: nat): map<nat, Value>
    requires |z| == 2 * n && i <= n
  {
    map k: nat | k < 2 * n && (k < n - i || n <= k < 2 * n - i) :: FromTop(z, k)
  }

  function Here(n: nat, connect: nat, cursor: nat, values: seq<Value>, variables: map<nat, Value>): State {
    State(values, [Frame(Body(n, connect), cursor, variables)], 0, [])
  }

  function RestState(): State { State([], [], 0, []) }

  /** Before the `i`-th pair is joined; after the last the frame is gone. */
  function BeforeGroup(n: nat, connect: nat, z: seq<Value>, i: nat): State
    requires |z| == 2 * n && i <= n
  {
    if i == n then RestState() else Here(n, connect, 2 * n + 4 * i, [], Unused(z, n, i))
  }

  /** The five points of the course that join the `i`-th pair. */
  function InGroup(n: nat, connect: nat, z: seq<Value>, i: nat, r: nat): Course
    requires |z| == 2 * n && i < n && r < 5
  {
    var x, y, rest := z[i], z[n + i], Unused(z, n, i);
    if r == 0 then Course(BeforeGroup(n, connect, z, i), [])
    else if r == 1 then Course(Here(n, connect, 2 * n + 4 * i + 1, [x], rest - {2 * n - 1 - i}), [])
    else if r == 2 then Course(Here(n, connect, 2 * n + 4 * i + 2, [x, y], Unused(z, n, i + 1)), [])
    else if r == 3 then Course(Here(n, connect, 2 * n + 4 * i + 3, [x, y, Primitive(connect)], Unused(z, n, i + 1)), [])
    else Course(BeforeGroup(n, connect, z, i + 1), [Pair(x, y)])
  }

  /** The `m`-th point of the course, started on the values `z`. */
  function Place(n: nat, connect: nat, z: seq<Value>, m: nat): Course
    requires |z| == 2 * n && m <= 7 * n
  {
    if m < 2 * n then Course(Here(n, connect, m, z[..2 * n - m], Stored(z, m)), [])
    else if m == 7 * n then Course(RestState(), [])
    else InGroup(n, connect, z, (m - 2 * n) / 5, (m - 2 * n) % 5)
  }

  // One step

  lemma OneFrame(p: Program, key: set<Name>, n: nat, connect: nat, values: seq<Value>, variables: map<nat, Value>,
          c: nat)
    requires c < 6 * n
    ensures Step(p, key, Here(n, connect, c, values, variables), true)
         == Execute(p, key, State(values, [], 0, []), Frame(Body(n, connect), c + 1, variables), Body(n, connect)[c],
             c + 1 < 6 * n)
    ensures forall f: Frame :: [] + [f] == [f]
  {
    hide Body;
    assert Here(n, connect, c, values, variables).frames[..0] == [];
  }

  lemma StoredMore(z: seq<Value>, m: nat)
    requires m < |z|
    ensures m !in Stored(z, m) && Stored(z, m)[m := FromTop(z, m)] == Stored(z, m + 1)
    ensures z[..|z| - m] != [] && z[..|z| - m][|z| - m - 1] == FromTop(z, m)
    ensures z[..|z| - m][..|z| - m - 1] == z[..|z| - (m + 1)]
  {
  }

  lemma StoresOne(w: World, key: set<Name>, n: nat, connect: nat, z: seq<Value>, m: nat)
    requires |z| == 2 * n && m < 2 * n
    ensures Step(w.program, key, Here(n, connect, m, z[..2 * n - m], Stored(z, m)), true)
         == Some(Here(n, connect, m + 1, z[..2 * n - (m + 1)], Stored(z, m + 1)))
  {
    OneFrame(w.program, key, n, connect, z[..2 * n - m], Stored(z, m), m);
    assert Body(n, connect)[m] == SetVariable(m);
    StoredMore(z, m);
    hide Step, Body, Stored, FromTop;
  }

  lemma LoadsOne(w: World, key: set<Name>, n: nat, connect: nat, c: nat, values: seq<Value>,
          variables: map<nat, Value>, k: nat)
    requires c + 1 < 6 * n && Body(n, connect)[c] == GetVariable(k) && k in variables
    ensures Step(w.program, key, Here(n, connect, c, values, variables), true)
         == Some(Here(n, connect, c + 1, values + [variables[k]], variables - {k}))
  {
    OneFrame(w.program, key, n, connect, values, variables, c);
    hide Step, Body;
  }

  lemma LoadsConnect(w: World, key: set<Name>, n: nat, connect: nat, c: nat, values: seq<Value>,
          variables: map<nat, Value>)
    requires c + 1 < 6 * n && Body(n, connect)[c] == Literal(Primitive(connect))
    ensures Step(w.program, key, Here(n, connect, c, values, variables), true)
         == Some(Here(n, connect, c + 1, values + [Primitive(connect)], variables))
  {
    OneFrame(w.program, key, n, connect, values, variables, c);
    hide Step, Body;
  }

  lemma ConnectsTwo(w: World, key: set<Name>, n: nat, connect: nat, c: nat, x: Value, y: Value,
          variables: map<nat, Value>)
    requires connect < |w.program.primitives| && w.program.primitives[connect] == Connect
    requires c < 6 * n && Body(n, connect)[c] == Apply(2)
    ensures Step(w.program, key, Here(n, connect, c, [x, y, Primitive(connect)], variables), true)
         == Some(State([], if c + 1 < 6 * n then [Frame(Body(n, connect), c + 1, variables)] else [], 0,
             [Joined(Pair(x, y))]))
  {
    OneFrame(w.program, key, n, connect, [x, y, Primitive(connect)], variables, c);
    hide Step, Body;
    assert [x, y, Primitive(connect)][..2] == [x, y] && [x, y][..0] == [];
    assert [] + [Joined(Pair(x, y))] == [Joined(Pair(x, y))];
    var none: seq<Frame> := [];
    assert none + [] == none;
  }

  lemma Connects(w: World, key: set<Name>, n: nat, connect: nat, z: seq<Value>, i: nat)
    requires connect < |w.program.primitives| && w.program.primitives[connect] == Connect && |z| == 2 * n && i < n
    ensures Step(w.program, key, InGroup(n, connect, z, i, 3).state, true)
         == Some(BeforeGroup(n, connect, z, i + 1).(effects := [Joined(Pair(z[i], z[n + i]))]))
  {
    hide Step, Body, Unused, BeforeGroup, Here;
    BodyAt(n, connect, i, 3);
    ConnectsTwo(w, key, n, connect, 2 * n + 4 * i + 3, z[i], z[n + i], Unused(z, n, i + 1));
    GroupEnds(n, connect, z, i, [Joined(Pair(z[i], z[n + i]))]);
  }

  lemma GroupEnds(n: nat, connect: nat, z: seq<Value>, i: nat, effects: seq<Effect>)
    requires |z| == 2 * n && i < n
    ensures var c := 2 * n + 4 * i + 4;
            State([], if c < 6 * n then [Frame(Body(n, connect), c, Unused(z, n, i + 1))] else [], 0, effects)
              == BeforeGroup(n, connect, z, i + 1).(effects := effects)
  {
    hide Body, Unused;
  }

  lemma UnusedLess(z: seq<Value>, n: nat, i: nat)
    requires |z| == 2 * n && i < n
    ensures 2 * n - 1 - i in Unused(z, n, i) && Unused(z, n, i)[2 * n - 1 - i] == z[i]
    ensures n - 1 - i in Unused(z, n, i) - {2 * n - 1 - i} && Unused(z, n, i)[n - 1 - i] == z[n + i]
    ensures Unused(z, n, i) - {2 * n - 1 - i} - {n - 1 - i} == Unused(z, n, i + 1)
  {
  }

  lemma GroupSteps(w: World, key: set<Name>, n: nat, connect: nat, z: seq<Value>, i: nat, r: nat)
    requires connect < |w.program.primitives| && w.program.primitives[connect] == Connect && |z| == 2 * n && i < n
    requires r < 4
    ensures InGroup(n, connect, z, i, r).joins == [] && InGroup(n, connect, z, i, r).state.frames != []
    ensures Step(w.program, key, InGroup(n, connect, z, i, r).state, true)
         == Some(InGroup(n, connect, z, i, r + 1).state.(effects :=
             if r == 3 then [Joined(Pair(z[i], z[n + i]))] else []))
  {
    hide Step, Body, Unused;
    var c := 2 * n + 4 * i + r;
    BodyAt(n, connect, i, r);
    UnusedLess(z, n, i);
    var x, y := z[i], z[n + i];
    var rest := Unused(z, n, i);
    var none: seq<Value> := [];
    assert none + [x] == [x] && [x] + [y] == [x, y] && [x, y] + [Primitive(connect)] == [x, y, Primitive(connect)];
    if r == 0 {
      LoadsOne(w, key, n, connect, c, [], rest, 2 * n - 1 - i);
    } else if r == 1 {
      LoadsOne(w, key, n, connect, c, [x], rest - {2 * n - 1 - i}, n - 1 - i);
    } else if r == 2 {
      LoadsConnect(w, key, n, connect, c, [x, y], Unused(z, n, i + 1));
    } else {
      Connects(w, key, n, connect, z, i);
    }
  }

  /** What the step from the `m`-th point comes to, if that is an opcode. */
  function EffectAt(n: nat, z: seq<Value>, m: nat): seq<Effect>
    requires |z| == 2 * n && m < 7 * n
  {
    var i, r := (m - 2 * n) / 5, (m - 2 * n) % 5;
    if m < 2 * n || r != 3 then [] else [Joined(Pair(z[i], z[n + i]))]
  }

  lemma PlaceNext(n: nat, connect: nat, z: seq<Value>, i: nat, r: nat)
    requires |z| == 2 * n && i < n && r < 5
    ensures var m := 2 * n + 5 * i + r;
            && m < 7 * n && Place(n, connect, z, m) == InGroup(n, connect, z, i, r)
            && (r < 4 ==> Place(n, connect, z, m + 1) == InGroup(n, connect, z, i, r + 1))
            && (r == 4 ==> Place(n, connect, z, m + 1) == Course(BeforeGroup(n, connect, z, i + 1), []))
            && (EffectAt(n, z, m) == if r == 3 then [Joined(Pair(z[i], z[n + i]))] else [])
  {
    hide Here, Unused, Stored;
    var m := 2 * n + 5 * i + r;
    assert (m - 2 * n) / 5 == i && (m - 2 * n) % 5 == r;
    if r < 4 {
      assert (m + 1 - 2 * n) / 5 == i && (m + 1 - 2 * n) % 5 == r + 1;
    } else if i + 1 < n {
      assert (m + 1 - 2 * n) / 5 == i + 1 && (m + 1 - 2 * n) % 5 == 0;
    }
  }

  /** What holds of the `m`-th point and the next. */
  ghost predicate StepsOn(w: World, key: set<Name>, n: nat, connect: nat, z: seq<Value>, m: nat)
    requires |z| == 2 * n && m < 7 * n
  {
    var c, d, e := Place(n, connect, z, m), Place(n, connect, z, m + 1), EffectAt(n, z, m);
    && (c.joins != [] ==> d == c.(joins := []) && |c.joins| == 1)
    && (c.joins == [] ==>
          && c.state.frames != []
          && Step(w.program, key, c.state, true) == Some(d.state.(effects := e))
          && d.joins == if e == [] then [] else JoinsOf(e[0]))
  }

  lemma StoreSteps(w: World, key: set<Name>, n: nat, connect: nat, z: seq<Value>, m: nat)
    requires |z| == 2 * n && m < 2 * n
    ensures StepsOn(w, key, n, connect, z, m)
  {
    hide Step, Body, Unused, Stored;
    StoresOne(w, key, n, connect, z, m);
    if m + 1 == 2 * n {
      StoredAll(z, n);
      PlaceNext(n, connect, z, 0, 0);
    }
  }

  lemma JoinSteps(w: World, key: set<Name>, n: nat, connect: nat, z: seq<Value>, i: nat, r: nat)
    requires connect < |w.program.primitives| && w.program.primitives[connect] == Connect && |z| == 2 * n && i < n
    requires r < 5
    ensures 2 * n + 5 * i + r < 7 * n && StepsOn(w, key, n, connect, z, 2 * n + 5 * i + r)
  {
    hide Step, Body, Unused, Stored, Place, EffectAt, Here, BeforeGroup;
    PlaceNext(n, connect, z, i, r);
    if r < 4 { GroupSteps(w, key, n, connect, z, i, r); }
  }

  lemma PlaceSteps(w: World, key: set<Name>, n: nat, connect: nat, z: seq<Value>, m: nat)
    requires connect < |w.program.primitives| && w.program.primitives[connect] == Connect && |z| == 2 * n && m < 7 * n
    ensures StepsOn(w, key, n, connect, z, m)
  {
    hide StepsOn;
    if m < 2 * n {
      StoreSteps(w, key, n, connect, z, m);
    } else {
      JoinSteps(w, key, n, connect, z, (m - 2 * n) / 5, (m - 2 * n) % 5);
    }
  }

  lemma StoredAll(z: seq<Value>, n: nat)
    requires |z| == 2 * n
    ensures Stored(z, 2 * n) == Unused(z, n, 0) && z[..0] == []
  {
  }

  lemma PlaceGoesOn(w: World, key: set<Name>, n: nat, connect: nat, z: seq<Value>, m: nat)
    requires connect < |w.program.primitives| && w.program.primitives[connect] == Connect && |z| == 2 * n && m < 7 * n
    ensures Next(w, key, Place(n, connect, z, m)) == Some(Place(n, connect, z, m + 1))
  {
    hide Step, Place, EffectAt;
    PlaceSteps(w, key, n, connect, z, m);
    PlaceIsClean(n, connect, z, m + 1);
    var c := Place(n, connect, z, m);
    if c.joins != [] { assert c.joins[1..] == []; }
  }

  lemma PlaceIsClean(n: nat, connect: nat, z: seq<Value>, m: nat)
    requires |z| == 2 * n && m <= 7 * n
    ensures Place(n, connect, z, m).state.effects == []
  {
    hide Body;
  }

  // The course

  lemma {:induction false} CourseReaches(w: World, key: set<Name>, n: nat, connect: nat, z: seq<Value>, m: nat)
    requires connect < |w.program.primitives| && w.program.primitives[connect] == Connect && |z| == 2 * n && 0 < n
    requires m <= 7 * n
    ensures Follow(w, key, Course(Start(Body(n, connect), z), []), m) == Some(Place(n, connect, z, m))
  {
    hide Next, Body;
    if m == 0 {
      assert z[..2 * n] == z && Stored(z, 0) == map[];
    } else {
      CourseReaches(w, key, n, connect, z, m - 1);
      PlaceGoesOn(w, key, n, connect, z, m - 1);
      hide Place;
    }
  }

  lemma CourseStops(w: World, key: set<Name>, n: nat, connect: nat, z: seq<Value>, m: nat)
    requires connect < |w.program.primitives| && w.program.primitives[connect] == Connect && |z| == 2 * n && 0 < n
    ensures Goes(w, key, Start(Body(n, connect), z), m) <==> m < 7 * n
    ensures Rests(w, key, Start(Body(n, connect), z), m) <==> m == 7 * n
  {
    hide Body, Step, Follow, Place;
    var s := Start(Body(n, connect), z);
    CourseReaches(w, key, n, connect, z, 7 * n);
    LastPlace(w, key, n, connect, z);
    if m > 7 * n {
      FollowStops(w, key, Course(s, []), 7 * n, m);
    } else if m < 7 * n {
      CourseReaches(w, key, n, connect, z, m);
      PlaceGoesOn(w, key, n, connect, z, m);
    }
  }

  lemma LastPlace(w: World, key: set<Name>, n: nat, connect: nat, z: seq<Value>)
    requires |z| == 2 * n
    ensures Place(n, connect, z, 7 * n) == Course(RestState(), []) || n == 0
    ensures Next(w, key, Course(RestState(), [])).None?
  {
  }

  /** The values of the two nodes in the other order. */
  function Swapped(z: seq<Value>, n: nat): (y: seq<Value>)
    requires |z| == 2 * n
    ensures |y| == 2 * n && forall i :: 0 <= i < n ==> y[i] == z[n + i] && y[n + i] == z[i]
  {
    z[n..] + z[..n]
  }

  lemma EffectMirrors(n: nat, z: seq<Value>, m: nat)
    requires |z| == 2 * n && m < 7 * n
    ensures var e, e' := EffectAt(n, z, m), EffectAt(n, Swapped(z, n), m);
            |e| == |e'| <= 1 && (e != [] ==> e[0].Joined? && e'[0].Joined? && SamePair(e[0].pair, e'[0].pair))
  {
  }

  lemma PlaceMirrors(w: World, key: set<Name>, n: nat, connect: nat, z: seq<Value>, m: nat)
    requires connect < |w.program.primitives| && w.program.primitives[connect] == Connect && |z| == 2 * n && m < 7 * n
    ensures SameFact(w, key, Place(n, connect, z, m), Place(n, connect, Swapped(z, n), m))
  {
    hide Step, Body, Unused, Stored, Here, Swapped, EffectAt;
    var y := Swapped(z, n);
    PlaceSteps(w, key, n, connect, z, m);
    PlaceSteps(w, key, n, connect, y, m);
    EffectMirrors(n, z, m);
    JoinsMirror(n, connect, z, m);
    hide Place;
  }

  lemma JoinsMirror(n: nat, connect: nat, z: seq<Value>, m: nat)
    requires |z| == 2 * n && m < 7 * n
    ensures var j, j' := Place(n, connect, z, m).joins, Place(n, connect, Swapped(z, n), m).joins;
            |j| == |j'| <= 1 && (j != [] ==> SamePair(j[0], j'[0]))
  {
    hide Body, Unused, Stored, Here;
  }

  lemma MirrorBody(w: World, key: set<Name>, n: nat, connect: nat, a: seq<Value>, b: seq<Value>)
    requires connect < |w.program.primitives| && w.program.primitives[connect] == Connect && |a| == |b| == n && 0 < n
    ensures Mirrors(w, key, Start(Body(n, connect), a + b), Start(Body(n, connect), b + a))
  {
    var z := a + b;
    var s, s' := Start(Body(n, connect), z), Start(Body(n, connect), b + a);
    assert Swapped(z, n) == b + a;
    hide Goes, SameFact, Rests, Place, Start, Body, Swapped;
    forall m | Goes(w, key, s, m) ensures HasFact(w, key, At(w, key, s, m), s') && Goes(w, key, s', m) {
      CourseStops(w, key, n, connect, z, m);
      CourseStops(w, key, n, connect, b + a, m);
      CourseReaches(w, key, n, connect, z, m);
      CourseReaches(w, key, n, connect, b + a, m);
      PlaceMirrors(w, key, n, connect, z, m);
      hide Follow;
      assert SameFact(w, key, At(w, key, s, m), At(w, key, s', m));
    }
    forall m | Rests(w, key, s, m) ensures Rests(w, key, s', m) {
      CourseStops(w, key, n, connect, z, m);
      CourseStops(w, key, n, connect, b + a, m);
    }
  }

  lemma MirrorsSelf(w: World, key: set<Name>, s: State)
    ensures Mirrors(w, key, s, s)
  {
    hide Step, Follow, SameFact;
    forall m | Goes(w, key, s, m) ensures HasFact(w, key, At(w, key, s, m), s) {
      SameFactSelf(w, key, At(w, key, s, m));
    }
  }

  /** Programs whose rules between equal constructors are all of this kind meet the
      condition under which complete runs agree. */
  lemma AnnihilationIsSymmetric(w: World, connect: nat)
    requires connect < |w.program.primitives| && w.program.primitives[connect] == Connect
    requires forall i :: 0 <= i < |w.rules| && w.rules[i].left == w.rules[i].right < |w.program.ctors| ==>
               w.rules[i].code == Body(Plain(w.program.ctors[w.rules[i].left]), connect)
    ensures Symmetric(w)
  {
    hide Mirrors, Body, Start;
    forall i: nat, key, a, b | SelfRule(w, i, a, b)
      ensures Mirrors(w, key, Start(w.rules[i].code, a + b), Start(w.rules[i].code, b + a))
    {
      if a == [] {
        assert a + b == b + a;
        MirrorsSelf(w, key, Start(w.rules[i].code, a + b));
      } else {
        MirrorBody(w, key, |a|, connect, a, b);
      }
    }
  }
}
