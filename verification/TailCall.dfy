/** Proper tail calls preserve meaning: the machine that drops a frame as soon as its last
    opcode is fetched and the one that keeps it until it is found finished come to the same
    end, in the same state or in the same error; and only the first runs a chain of calls
    in last position in constant depth. */
module TailCall {
  import opened Values
  import opened Machine

  /** The frames that still have something to do. */
  function Unfinished(frames: seq<Frame>): seq<Frame> {
    if frames == [] then [] else
    var n := |frames| - 1;
    Unfinished(frames[..n]) + if IsFinished(frames[n]) then [] else [frames[n]]
  }

  predicate Same(a: State, b: State) {
    && a.values == b.values && a.supply == b.supply && a.effects == b.effects
    && Unfinished(a.frames) == Unfinished(b.frames)
  }

  /** Frames that differ only in what is finished stay so when both are pushed upon. */
  lemma PushSame(a: seq<Frame>, b: seq<Frame>, f: Frame, keepA: bool, keepB: bool)
    requires Unfinished(a) == Unfinished(b) && (keepA || IsFinished(f)) && (keepB || IsFinished(f))
    ensures Unfinished(a + Back(f, keepA)) == Unfinished(b + Back(f, keepB))
  {
    assert a + [] == a && b + [] == b;
  }

  lemma ApplySame(p: Program, redex: set<Name>, a: State, b: State, target: Value, arity: nat)
    requires Same(a, b)
    ensures var x, y := ApplyValue(p, redex, a, target, arity), ApplyValue(p, redex, b, target, arity);
            if x.None? then y.None? else y.Some? && Same(x.value, y.value)
  {
  }

  /** An opcode does the same on both machines, whether its frame is kept or was finished. */
  lemma ExecuteSame(p: Program, redex: set<Name>, a: State, b: State, f: Frame, op: Opcode, keepA: bool, keepB: bool)
    requires Same(a, b) && (keepA || IsFinished(f)) && (keepB || IsFinished(f))
    ensures var x, y := Execute(p, redex, a, f, op, keepA), Execute(p, redex, b, f, op, keepB);
            if x.None? then y.None? else y.Some? && Same(x.value, y.value)
  {
    hide Unfinished, ApplyValue;
    forall g | IsFinished(g) == IsFinished(f)
      ensures Unfinished(a.frames + Back(g, keepA)) == Unfinished(b.frames + Back(g, keepB))
    {
      PushSame(a.frames, b.frames, g, keepA, keepB);
    }
    if op.Apply? && a.values != [] {
      var n := |a.values| - 1;
      ApplySame(p, redex,
        a.(values := a.values[..n], frames := a.frames + Back(f, keepA)),
        b.(values := b.values[..n], frames := b.frames + Back(f, keepB)), a.values[n], op.arity);
    }
  }

  function Top(s: State): Frame
    requires s.frames != []
  {
    s.frames[|s.frames| - 1]
  }

  function Drop(s: State): State
    requires s.frames != []
  {
    s.(frames := s.frames[..|s.frames| - 1])
  }

  lemma AppendInjective<T>(s: seq<T>, x: T, t: seq<T>, y: T)
    requires s + [x] == t + [y]
    ensures s == t && x == y
  {
    assert (s + [x])[..|s|] == s && (t + [y])[..|t|] == t;
    assert (s + [x])[|s|] == x && (t + [y])[|t|] == y;
  }

  lemma StepSame(p: Program, redex: set<Name>, a: State, b: State, tailA: bool, tailB: bool)
    requires Same(a, b) && a.frames != [] && b.frames != [] && !IsFinished(Top(a)) && !IsFinished(Top(b))
    ensures var x, y := Step(p, redex, a, tailA), Step(p, redex, b, tailB);
            if x.None? then y.None? else y.Some? && Same(x.value, y.value)
  {
    hide Execute;
    var f := Top(a);
    assert Unfinished(a.frames) == Unfinished(Drop(a).frames) + [f];
    assert Unfinished(b.frames) == Unfinished(Drop(b).frames) + [Top(b)];
    AppendInjective(Unfinished(Drop(a).frames), f, Unfinished(Drop(b).frames), Top(b));
    var f' := f.(cursor := f.cursor + 1);
    ExecuteSame(p, redex, Drop(a), Drop(b), f', f.opcodes[f.cursor],
      !tailA || !IsFinished(f'), !tailB || !IsFinished(f'));
  }

  /** If one machine comes to an end, at rest or in an error, so does the other. */
  lemma {:induction false} EndSame(p: Program, redex: set<Name>, a: State, b: State, tailA: bool, tailB: bool, n: nat)
          returns (m: nat)
    requires Same(a, b)
    requires Run(p, redex, a, tailA, n).Some? ==> Run(p, redex, a, tailA, n).value.frames == []
    ensures Run(p, redex, b, tailB, m) == Run(p, redex, a, tailA, n)
    decreases n, |b.frames|
  {
    hide Step;
    if b.frames != [] && IsFinished(Top(b)) {
      StepFinished(p, redex, b, tailB);
      m := EndSame(p, redex, a, Drop(b), tailA, tailB, n);
      m := m + 1;
    } else if a.frames == [] {
      m := 0;
    } else if IsFinished(Top(a)) {
      StepFinished(p, redex, a, tailA);
      m := EndSame(p, redex, Drop(a), b, tailA, tailB, n - 1);
    } else {
      assert Top(a) in Unfinished(a.frames);
      StepSame(p, redex, a, b, tailA, tailB);
      if Step(p, redex, a, tailA).None? {
        m := 1;
      } else {
        m := EndSame(p, redex, Step(p, redex, a, tailA).value, Step(p, redex, b, tailB).value, tailA, tailB, n - 1);
        m := m + 1;
      }
    }
  }

  lemma StepFinished(p: Program, redex: set<Name>, s: State, tail: bool)
    requires s.frames != [] && IsFinished(Top(s))
    ensures Step(p, redex, s, tail) == Some(Drop(s))
    ensures Unfinished(Drop(s).frames) == Unfinished(s.frames)
  {
  }

  ghost predicate Fails(p: Program, redex: set<Name>, s: State, tail: bool) {
    exists n :: Run(p, redex, s, tail, n) == None
  }

  /** The theorem: both machines come to rest in the same states, and fail together. */
  lemma TailCallsPreserveMeaning(p: Program, redex: set<Name>, s: State, t: State)
    ensures Halts(p, redex, s, true, t) <==> Halts(p, redex, s, false, t)
    ensures Fails(p, redex, s, true) <==> Fails(p, redex, s, false)
  {
    hide Run;
    forall tail: bool
      ensures Halts(p, redex, s, tail, t) ==> Halts(p, redex, s, !tail, t)
      ensures Fails(p, redex, s, tail) ==> Fails(p, redex, s, !tail)
    {
      if Halts(p, redex, s, tail, t) {
        var n :| Run(p, redex, s, tail, n) == Some(t);
        var m := EndSame(p, redex, s, s, tail, !tail, n);
      }
      if Fails(p, redex, s, tail) {
        var n :| Run(p, redex, s, tail, n) == None;
        var m := EndSame(p, redex, s, s, tail, !tail, n);
      }
    }
    assert !true == false && !false == true;
  }

  // Depth

  /** Every application that is not the last opcode is of a literal that is no function. */
  predicate InTailPosition(opcodes: seq<Opcode>) {
    forall i :: 0 <= i && i + 1 < |opcodes| && opcodes[i].Apply? ==>
      0 < i && opcodes[i - 1].Literal? && !opcodes[i - 1].value.Function?
  }

  /** At most one frame, and a literal just executed is on top of the value stack. */
  predicate Shallow(s: State) {
    && |s.frames| <= 1
    && (s.frames != [] ==>
          var f := Top(s);
          && InTailPosition(f.opcodes)
          && (0 < f.cursor <= |f.opcodes| && f.opcodes[f.cursor - 1].Literal? ==>
                s.values != [] && s.values[|s.values| - 1] == f.opcodes[f.cursor - 1].value))
  }

  lemma StepStaysShallow(p: Program, redex: set<Name>, s: State)
    requires s.frames != [] && Shallow(s) && Step(p, redex, s, true).Some?
    requires forall i :: 0 <= i < |p.functions| ==> InTailPosition(p.functions[i].opcodes)
    ensures Shallow(Step(p, redex, s, true).value)
  {
    hide Construct;
    var f := Top(s);
    assert Drop(s).frames == [];
  }

  /** A program whose functions are applied in last position only runs in one frame,
      however long it runs. */
  lemma {:induction false} TailCallsRunInOneFrame(p: Program, redex: set<Name>, s: State, n: nat)
    requires Shallow(s)
    requires forall i :: 0 <= i < |p.functions| ==> InTailPosition(p.functions[i].opcodes)
    ensures Run(p, redex, s, true, n).Some? ==> |Run(p, redex, s, true, n).value.frames| <= 1
    decreases n
  {
    hide Step, InTailPosition;
    if n > 0 && s.frames != [] {
      if Step(p, redex, s, true).Some? {
        StepStaysShallow(p, redex, s);
        TailCallsRunInOneFrame(p, redex, Step(p, redex, s, true).value, n - 1);
      }
    }
  }

  /** The step applies a function, so that a frame is pushed. */
  predicate AppliesFunction(s: State) {
    && s.frames != [] && !IsFinished(Top(s)) && Top(s).opcodes[Top(s).cursor].Apply?
    && s.values != [] && s.values[|s.values| - 1].Function?
  }

  /** How many of the next `m` steps apply a function, without proper tail calls. */
  function Calls(p: Program, redex: set<Name>, s: State, m: nat): nat
    decreases m
  {
    if m == 0 || s.frames == [] then 0 else
    var o := Step(p, redex, s, false);
    (if AppliesFunction(s) then 1 else 0) + if o.None? then 0 else Calls(p, redex, o.value, m - 1)
  }

  /** For `m` steps no frame is found finished: nothing that was applied has returned. */
  predicate NothingReturns(p: Program, redex: set<Name>, s: State, m: nat)
    decreases m
  {
    m == 0 ||
    (s.frames != [] && !IsFinished(Top(s)) && Step(p, redex, s, false).Some?
     && NothingReturns(p, redex, Step(p, redex, s, false).value, m - 1))
  }

  lemma KeptStepDepth(p: Program, redex: set<Name>, s: State)
    requires s.frames != [] && !IsFinished(Top(s)) && Step(p, redex, s, false).Some?
    ensures |Step(p, redex, s, false).value.frames| == |s.frames| + if AppliesFunction(s) then 1 else 0
  {
    hide Construct;
  }

  /** In any program, without proper tail calls: as long as nothing returns, which in a chain
      of last-position applications is until the chain ends, every function that is applied
      makes the return stack deeper by one. */
  lemma {:induction false} KeptFramesPileUp(p: Program, redex: set<Name>, s: State, m: nat)
    requires NothingReturns(p, redex, s, m)
    ensures var o := Run(p, redex, s, false, m);
            o.Some? && |o.value.frames| == |s.frames| + Calls(p, redex, s, m)
    decreases m
  {
    hide Step, AppliesFunction;
    if m > 0 {
      KeptStepDepth(p, redex, s);
      KeptFramesPileUp(p, redex, Step(p, redex, s, false).value, m - 1);
    }
  }

  /** A function that applies itself last. */
  const LOOP := Code(0, [Literal(Function(0)), Apply(0)])

  lemma LoopOnce(redex: set<Name>, s: State) returns (s1: State, s2: State)
    requires s.frames != [] && Top(s) == Frame(LOOP.opcodes, 0, map[])
    ensures var p := Program([], [LOOP], []);
            && Step(p, redex, s, false) == Some(s1)
            && s1.frames != [] && Step(p, redex, s1, false) == Some(s2)
            && s2.frames != [] && Top(s2) == Top(s) && |s2.frames| == |s.frames| + 1
  {
    var p := Program([], [LOOP], []);
    s1 := Step(p, redex, s, false).value;
    assert s1.values[|s.values|] == Function(0);
    s2 := Step(p, redex, s1, false).value;
  }

  /** Such chains have no end: the function gets one frame deeper with every call. */
  lemma {:induction false} LoopPilesUp(redex: set<Name>, s: State, n: nat)
    requires s.frames != [] && Top(s) == Frame(LOOP.opcodes, 0, map[])
    ensures var o := Run(Program([], [LOOP], []), redex, s, false, 2 * n);
            o.Some? && |o.value.frames| == |s.frames| + n
    decreases n
  {
    hide Step;
    if n > 0 {
      var p := Program([], [LOOP], []);
      var s1, s2 := LoopOnce(redex, s);
      assert Run(p, redex, s, false, 2 * n) == Run(p, redex, s1, false, 2 * n - 1)
          == Run(p, redex, s2, false, 2 * (n - 1));
      LoopPilesUp(redex, s2, n - 1);
    }
  }
}
