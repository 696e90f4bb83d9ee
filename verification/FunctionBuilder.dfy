/** The compiler as it works: opcodes are appended to a function, and names are given local
    indexes in a table, both in place. */
module FunctionBuilder {
  import opened Values
  import opened Machine
  import opened Compiler

  class Builder {
    const globals: map<string, Value>
    var opcodes: seq<Opcode>
    var locals: Locals

    constructor (globals: map<string, Value>)
      ensures this.globals == globals && opcodes == [] && locals == map[]
    {
      this.globals := globals;
      opcodes := [];
      locals := map[];
    }

    method AddOpcode(op: Opcode)
      modifies this`opcodes
      ensures opcodes == old(opcodes) + [op]
    {
      opcodes := opcodes + [op];
    }

    /** A name that is new to the table gets the next index. */
    method CompileSetVariable(name: string)
      modifies this`opcodes, this`locals
      ensures var o := CompileSet(old(locals), name); locals == o.locals && opcodes == old(opcodes) + o.code
    {
      var index := |locals|;
      if name in locals {
        AddOpcode(SetVariable(locals[name]));
      } else {
        locals := locals[name := index];
        AddOpcode(SetVariable(index));
      }
    }

    /** From the last name to the first. */
    method CompileSetVariableList(names: seq<string>)
      modifies this`opcodes, this`locals
      ensures var o := CompileSets(old(locals), names); locals == o.locals && opcodes == old(opcodes) + o.code
    {
      hide CompileSet, CompileSets;
      ghost var whole := After(opcodes, CompileSets(locals, names));
      var n := |names|;
      assert names[..n] == names;
      while n > 0
        invariant n <= |names|
        invariant whole == After(opcodes, CompileSets(locals, names[..n]))
      {
        SetsStep(locals, names, n, opcodes);
        CompileSetVariable(names[n - 1]);
        n := n - 1;
      }
      SetsEnd(locals, names[..0], opcodes);
    }

    /** What has been compiled of a list, and what is left of it. */
    method CompileExpList(exps: seq<Exp>) returns (ok: bool)
      modifies this`opcodes, this`locals
      ensures var o := CompileList(globals, old(locals), exps);
              ok == o.Some? && (ok ==> locals == o.value.locals && opcodes == old(opcodes) + o.value.code)
      decreases exps, 0
    {
      hide Compile;
      ghost var whole := CompileList(globals, locals, exps);
      assert exps[0..] == exps && opcodes[|opcodes|..] == [];
      PrependNothing(whole);
      for i := 0 to |exps|
        invariant |old(opcodes)| <= |opcodes| && opcodes[..|old(opcodes)|] == old(opcodes)
        invariant whole == Prepend(opcodes[|old(opcodes)|..], CompileList(globals, locals, exps[i..]))
      {
        ListStep(globals, locals, exps, i, opcodes[|old(opcodes)|..]);
        ghost var before := opcodes;
        ok := CompileExp(exps[i]);
        if !ok { return; }
        assert opcodes[|old(opcodes)|..] == before[|old(opcodes)|..] + opcodes[|before|..];
      }
      assert exps[|exps|..] == [];
      assert opcodes == old(opcodes) + opcodes[|old(opcodes)|..];
      assert opcodes[|old(opcodes)|..] + [] == opcodes[|old(opcodes)|..];
      ok := true;
    }

    method CompileExp(exp: Exp) returns (ok: bool)
      modifies this`opcodes, this`locals
      ensures var o := Compile(globals, old(locals), exp);
              ok == o.Some? && (ok ==> locals == o.value.locals && opcodes == old(opcodes) + o.value.code)
      decreases exp, 1
    {
      match exp
      case Var(name) =>
        if name in locals {
          AddOpcode(GetVariable(locals[name]));
          return true;
        }
        if name !in globals { return false; }
        AddOpcode(Literal(globals[name]));
        ok := true;
      case Ap(target, args) =>
        ghost var start, a := opcodes, CompileList(globals, locals, args);
        ok := CompileExpList(args);
        if !ok { return; }
        ghost var t := Compile(globals, locals, target);
        ok := CompileExp(target);
        if !ok { return; }
        AddOpcode(Machine.Apply(|args|));
        assert start + a.value.code + t.value.code + [Machine.Apply(|args|)]
            == start + (a.value.code + t.value.code + [Machine.Apply(|args|)]);
      case Assign(names, e) =>
        ghost var start, o := opcodes, Compile(globals, locals, e);
        ok := CompileExp(e);
        if !ok { return; }
        ghost var sets := CompileSets(locals, names);
        CompileSetVariableList(names);
        assert start + o.value.code + sets.code == start + (o.value.code + sets.code);
      case Lit(v) =>
        AddOpcode(Literal(v));
        ok := true;
    }
  }

  /** What is compiled after some code. */
  function After(code: seq<Opcode>, o: Out): Out { Out(o.locals, code + o.code) }

  lemma SetsStep(locals: Locals, names: seq<string>, n: nat, code: seq<Opcode>)
    requires 0 < n <= |names|
    ensures var first := CompileSet(locals, names[n - 1]);
            After(code, CompileSets(locals, names[..n]))
                == After(code + first.code, CompileSets(first.locals, names[..n - 1]))
  {
    var first := CompileSet(locals, names[n - 1]);
    var rest := CompileSets(first.locals, names[..n - 1]);
    assert names[..n][..n - 1] == names[..n - 1] && names[..n][n - 1] == names[n - 1];
    assert code + (first.code + rest.code) == code + first.code + rest.code;
  }

  lemma SetsEnd(locals: Locals, names: seq<string>, code: seq<Opcode>)
    requires names == []
    ensures After(code, CompileSets(locals, names)) == Out(locals, code)
  {
  }

  function Prepend(code: seq<Opcode>, o: Option<Out>): Option<Out> {
    if o.None? then None else Some(Out(o.value.locals, code + o.value.code))
  }

  lemma PrependNothing(o: Option<Out>)
    ensures Prepend([], o) == o
  {
    if o.Some? { assert [] + o.value.code == o.value.code; }
  }

  lemma ListStep(globals: map<string, Value>, locals: Locals, exps: seq<Exp>, i: nat, code: seq<Opcode>)
    requires i < |exps|
    ensures Compile(globals, locals, exps[i]).None? ==> Prepend(code, CompileList(globals, locals, exps[i..])).None?
    ensures Compile(globals, locals, exps[i]).Some? ==>
              var first := Compile(globals, locals, exps[i]).value;
              Prepend(code, CompileList(globals, locals, exps[i..]))
                == Prepend(code + first.code, CompileList(globals, first.locals, exps[i + 1..]))
  {
    hide Compile;
    assert exps[i..][0] == exps[i] && exps[i..][1..] == exps[i + 1..];
    if Compile(globals, locals, exps[i]).Some? {
      var first := Compile(globals, locals, exps[i]).value;
      var rest := CompileList(globals, first.locals, exps[i + 1..]);
      if rest.Some? { assert code + (first.code + rest.value.code) == code + first.code + rest.value.code; }
    }
  }

  /** Compiles a definition: the parameters are stored from the stack, then the body. */
  method CompileDefinition(globals: map<string, Value>, source: Source) returns (code: Option<seq<Opcode>>)
    ensures var o := CompileFunction(globals, source);
            code == if o.None? then None else Some(o.value.code)
  {
    var builder := new Builder(globals);
    builder.CompileSetVariableList(source.params);
    ghost var params := CompileSets(map[], source.params);
    assert builder.opcodes == params.code;
    var ok := builder.CompileExpList(source.body);
    code := if ok then Some(builder.opcodes) else None;
  }
}
