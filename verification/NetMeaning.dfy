/** What a net is: exactly what the effects of the rules' bodies make of it, and nothing else.
    A job's own course, opcode by opcode and join by join, is a run of the machine; the effects
    of that run are what the job does to the net. */
module NetMeaning {
  import opened Values
  import opened Wires
  import opened Machine
  import opened Compiler
  import opened CompilerCorrect
  import opened Interaction
  import opened NetEnds
  import opened NetInvariant
  import opened NetCounts
  import opened NetSteps
  import opened Confluence
  import opened Commutation
  import opened RulePattern
  import opened RuleMeaning

  // The effects and the joins of a course

  function EffectsAt(w: World, key: set<Name>, c: Course): seq<Effect> {
    if c.joins != [] || c.state.frames == [] then [] else
    var o := Step(w.program, key, c.state, true);
    if o.None? then [] else o.value.effects
  }

  /** The effects of the first `n` points of the course from `s`. */
  function EffectsOf(w: World, key: set<Name>, s: State, n: nat): seq<Effect> {
    if n == 0 then [] else
    var c := Follow(w, key, Course(s, []), n - 1);
    EffectsOf(w, key, s, n - 1) + if c.None? then [] else EffectsAt(w, key, c.value)
  }

  /** The joins that the first `n` points of the course have done. */
  function JoinsDone(w: World, key: set<Name>, s: State, n: nat): seq<Pair> {
    if n == 0 then [] else
    var c := Follow(w, key, Course(s, []), n - 1);
    JoinsDone(w, key, s, n - 1) + if c.None? || c.value.joins == [] then [] else [c.value.joins[0]]
  }

  function JoinsOfAll(effects: seq<Effect>): seq<Pair> {
    if effects == [] then [] else JoinsOfAll(effects[..|effects| - 1]) + JoinsOf(effects[|effects| - 1])
  }

  // A course is a run of the machine

  /** No step looks at the effects there are already. */
  lemma StepFramed(p: Program, key: set<Name>, s: State, before: seq<Effect>)
    requires s.frames != []
    ensures var o := Step(p, key, s, true);
            Step(p, key, s.(effects := before + s.effects), true)
              == if o.None? then None else Some(o.value.(effects := before + o.value.effects))
  {
    hide Construct;
    var n := |s.frames| - 1;
    var f := s.frames[n];
    if !IsFinished(f) {
      var f' := f.(cursor := f.cursor + 1);
      ExecuteFramed(p, key, s.(frames := s.frames[..n]), f', f.opcodes[f.cursor], !IsFinished(f'), before);
    }
    hide Execute;
  }

  lemma ExecuteFramed(p: Program, key: set<Name>, s: State, f: Frame, op: Opcode, keep: bool, before: seq<Effect>)
    ensures var o := Execute(p, key, s, f, op, keep);
            Execute(p, key, s.(effects := before + s.effects), f, op, keep)
              == if o.None? then None else Some(o.value.(effects := before + o.value.effects))
  {
    hide Construct;
    if op.Apply? && s.values != [] {
      var n := |s.values| - 1;
      ApplyFramed(p, key, s.(values := s.values[..n], frames := s.frames + Back(f, keep)), s.values[n], op.arity,
          before);
    }
    hide ApplyValue;
  }

  lemma ApplyFramed(p: Program, key: set<Name>, s: State, target: Value, arity: nat, before: seq<Effect>)
    ensures var o := ApplyValue(p, key, s, target, arity);
            ApplyValue(p, key, s.(effects := before + s.effects), target, arity)
              == if o.None? then None else Some(o.value.(effects := before + o.value.effects))
  {
    hide Construct;
    assert forall e: Effect :: before + s.effects + [e] == before + (s.effects + [e]);
  }

  lemma OneEffect(p: Program, key: set<Name>, s: State)
    requires s.effects == [] && s.frames != [] && Step(p, key, s, true).Some?
    ensures |Step(p, key, s, true).value.effects| <= 1
  {
    hide Construct;
  }

  lemma {:induction false} RunMore(p: Program, key: set<Name>, s: State, m: nat)
    requires Run(p, key, s, true, m).Some?
    ensures var t := Run(p, key, s, true, m).value;
            Run(p, key, s, true, m + 1) == if t.frames == [] then Some(t) else Step(p, key, t, true)
    decreases m
  {
    hide Step;
    if m > 0 && s.frames != [] { RunMore(p, key, Step(p, key, s, true).value, m - 1); }
  }

  /** The machine comes to every point of the course, with the effects so far; and these
      effects' joins are the ones done and the ones still to be done. */
  lemma {:induction false} CourseRuns(w: World, key: set<Name>, s: State, n: nat, c: Course) returns (k: nat)
    requires s.effects == [] && Follow(w, key, Course(s, []), n) == Some(c)
    ensures c.state.effects == []
    ensures Run(w.program, key, s, true, k) == Some(c.state.(effects := EffectsOf(w, key, s, n)))
    ensures JoinsDone(w, key, s, n) + c.joins == JoinsOfAll(EffectsOf(w, key, s, n))
    decreases n
  {
    hide Step, Run;
    if n == 0 {
      k := 0;
      RunNone(w.program, key, s);
    } else {
      var before := Follow(w, key, Course(s, []), n - 1).value;
      k := CourseRuns(w, key, s, n - 1, before);
      var effects := EffectsOf(w, key, s, n - 1);
      if before.joins != [] {
        assert effects + [] == effects;
        assert JoinsDone(w, key, s, n - 1) + before.joins
            == JoinsDone(w, key, s, n - 1) + [before.joins[0]] + before.joins[1..];
      } else {
        var o := Step(w.program, key, before.state, true);
        StepFramed(w.program, key, before.state, effects);
        assert effects + [] == effects;
        RunMore(w.program, key, s, k);
        k := k + 1;
        OneEffect(w.program, key, before.state);
        JoinsStep(effects, o.value.effects);
        assert JoinsDone(w, key, s, n - 1) + [] == JoinsDone(w, key, s, n - 1);
      }
    }
  }

  lemma RunNone(p: Program, key: set<Name>, s: State)
    ensures Run(p, key, s, true, 0) == Some(s)
  {
  }

  lemma JoinsStep(effects: seq<Effect>, more: seq<Effect>)
    requires |more| <= 1
    ensures JoinsOfAll(effects + more) == JoinsOfAll(effects) + if more == [] then [] else JoinsOf(more[0])
  {
    if more == [] { assert effects + more == effects; } else { assert (effects + more)[..|effects|] == effects; }
  }

  /** A job that is done has come to rest in its last state, with all its effects, and has done
      all their joins. */
  lemma DoneHalts(w: World, net: Net, key: set<Name>)
    requires InvJobs(net) && InvReplay(w, net) && key in net.jobs && IsDone(net.jobs[key])
    requires net.jobs[key].start.effects == []
    ensures var job := net.jobs[key];
            var effects := EffectsOf(w, key, job.start, job.steps);
            && Halts(w.program, key, job.start, true, job.state.(effects := effects))
            && JoinsDone(w, key, job.start, job.steps) == JoinsOfAll(effects)
  {
    hide Follow, Performed, EffectsOf, JoinsDone, JoinsOfAll, Run, InvJob;
    var job := net.jobs[key];
    assert Replays(w, net, key, job);
    var k := CourseRuns(w, key, job.start, job.steps, Course(job.state, job.joins));
    assert JoinsDone(w, key, job.start, job.steps) + [] == JoinsDone(w, key, job.start, job.steps);
  }

  // What the effects say has happened

  /** The wires and the node of the effect are there, with the values at its ports. */
  ghost predicate Happened(net: Net, e: Effect) {
    && (forall v :: v in ValuesOf(e) ==> v in net.wiring)
    && (forall n :: n in NodesOf(e) ==> n in net.created && net.created[n] == NodesOf(e)[n])
  }

  predicate Together(c: Wiring, p: Pair) { p.left in c && p.right in c && c[p.left] == c[p.right] }

  lemma PointHappened(w: World, key: set<Name>, net: Net, c: Course)
    requires Performed(w, key, net, c) && c.state.effects == []
    ensures forall e :: e in EffectsAt(w, key, c) ==> Happened(net, e)
    ensures c.joins != [] ==> Together(net.wiring, c.joins[0])
  {
    hide Step, ValuesOf, NodesOf;
    if c.joins == [] && c.state.frames != []
        && Step(w.program, key, c.state, true).Some? { OneEffect(w.program, key, c.state); }
  }

  lemma {:induction false} EffectsHappened(w: World, net: Net, key: set<Name>, job: Job, n: nat)
    requires Replays(w, net, key, job) && n <= job.steps && job.start.effects == []
    ensures forall e :: e in EffectsOf(w, key, job.start, n) ==> Happened(net, e)
    ensures forall p :: p in JoinsDone(w, key, job.start, n) ==> Together(net.wiring, p)
    decreases n
  {
    hide Follow, Performed, Happened, Together, EffectsOf, EffectsAt, JoinsDone;
    EffectsNext(w, key, job.start, n);
    if n > 0 {
      EffectsHappened(w, net, key, job, n - 1);
      var c := Follow(w, key, Course(job.start, []), n - 1);
      assert c.Some? && Performed(w, key, net, c.value);
      var k := CourseRuns(w, key, job.start, n - 1, c.value);
      PointHappened(w, key, net, c.value);
    }
  }

  /** The effects and the joins of one more point. */
  lemma EffectsNext(w: World, key: set<Name>, s: State, n: nat)
    ensures n == 0 ==> EffectsOf(w, key, s, n) == [] && JoinsDone(w, key, s, n) == []
    ensures n > 0 ==>
              var c := Follow(w, key, Course(s, []), n - 1);
              && (c.Some? ==> EffectsOf(w, key, s, n) == EffectsOf(w, key, s, n - 1) + EffectsAt(w, key, c.value))
              && (c.Some? && c.value.joins != []
                  ==> JoinsDone(w, key, s, n) == JoinsDone(w, key, s, n - 1) + [c.value.joins[0]])
              && (c.Some? && c.value.joins == [] ==> JoinsDone(w, key, s, n) == JoinsDone(w, key, s, n - 1))
  {
    hide Follow, EffectsAt;
    if n > 0 { assert JoinsDone(w, key, s, n - 1) + [] == JoinsDone(w, key, s, n - 1); }
  }

  // Nothing else has happened

  ghost predicate HasEffect(w: World, net: Net, key: set<Name>, e: Effect) {
    key in net.jobs && e in EffectsOf(w, key, net.jobs[key].start, net.jobs[key].steps)
  }

  ghost predicate HasDone(w: World, net: Net, key: set<Name>, p: Pair) {
    key in net.jobs && p in JoinsDone(w, key, net.jobs[key].start, net.jobs[key].steps)
  }

  ghost predicate MadeNode(w: World, net: Net, n: Name) {
    exists key, e :: HasEffect(w, net, key, e) && n in NodesOf(e)
  }

  ghost predicate MadeValue(w: World, net: Net, v: Value) {
    exists key, e :: HasEffect(w, net, key, e) && v in ValuesOf(e)
  }

  /** The partition has all that was made and puts together all that was joined. */
  ghost predicate Contains(w: World, net: Net, c: Wiring) {
    && IsPartition(c)
    && (forall v :: MadeValue(w, net, v) ==> v in c)
    && (forall key, p :: HasDone(w, net, key, p) ==> Together(c, p))
  }

  /** Every node and every value was made by some effect, and no values are together that
      need not be. */
  ghost predicate MadeOnly(w: World, net: Net) {
    && (forall n :: n in net.created ==> MadeNode(w, net, n))
    && (forall v :: v in net.wiring ==> MadeValue(w, net, v))
    && (forall c :: Contains(w, net, c) ==> Coarser(net.wiring, c))
  }

  /** What jobs have done only becomes more. */
  ghost predicate DoesMore(w: World, net: Net, net': Net) {
    && (forall key, e :: HasEffect(w, net, key, e) ==> HasEffect(w, net', key, e))
    && (forall key, p :: HasDone(w, net, key, p) ==> HasDone(w, net', key, p))
  }

  lemma MoreContains(w: World, net: Net, net': Net, c: Wiring)
    requires DoesMore(w, net, net') && Contains(w, net', c)
    ensures Contains(w, net, c)
  {
    hide HasEffect, HasDone, ValuesOf, IsPartition, Together;
    forall v | MadeValue(w, net, v) ensures v in c {
      var key, e :| HasEffect(w, net, key, e) && v in ValuesOf(e);
      assert HasEffect(w, net', key, e);
    }
  }

  lemma MoreMade(w: World, net: Net, net': Net)
    requires DoesMore(w, net, net')
    ensures forall n :: MadeNode(w, net, n) ==> MadeNode(w, net', n)
    ensures forall v :: MadeValue(w, net, v) ==> MadeValue(w, net', v)
  {
    hide HasEffect, HasDone, ValuesOf, NodesOf;
  }

  /** One job has gone one point further, or none; a job has begun, or none. */
  ghost predicate GoesFurther(w: World, net: Net, net': Net) {
    forall key :: key in net.jobs ==>
      && key in net'.jobs && net'.jobs[key].start == net.jobs[key].start
      && (net'.jobs[key].steps == net.jobs[key].steps || net'.jobs[key].steps == net.jobs[key].steps + 1)
  }

  lemma FurtherDoesMore(w: World, net: Net, net': Net)
    requires InvReplay(w, net) && GoesFurther(w, net, net')
    ensures DoesMore(w, net, net')
  {
    hide Follow, Performed, EffectsOf, EffectsAt, JoinsDone;
    forall key | key in net.jobs
      ensures forall e :: HasEffect(w, net, key, e) ==> HasEffect(w, net', key, e)
      ensures forall p :: HasDone(w, net, key, p) ==> HasDone(w, net', key, p)
    {
      assert Replays(w, net, key, net.jobs[key]);
      EffectsNext(w, key, net.jobs[key].start, net.jobs[key].steps + 1);
    }
  }

  lemma BeginMadeOnly(w: World, code: seq<Opcode>, net: Net, t: Task)
    requires WellFormed(w) && Inv(w, code, net) && MadeOnly(w, net) && Begin(w, net, t).Some?
    ensures MadeOnly(w, Begin(w, net, t).value)
  {
    hide WellFormed, InvHeap, InvCount, InvJobs, InvNames, InvNodes, InvTasks, InvFired, InvReplay, Contains, MadeNode,
        MadeValue, Coarser, Auxiliary;
    var net' := Begin(w, net, t).value;
    TaskIsFresh(w, net, t);
    FurtherDoesMore(w, net, net');
    MoreMade(w, net, net');
    forall c | Contains(w, net', c) ensures Coarser(net'.wiring, c) { MoreContains(w, net, net', c); }
  }

  lemma ComputeDoes(w: World, net: Net, key: set<Name>)
    requires InvReplay(w, net) && Compute(w, net, key).Some?
    ensures var net', s := Compute(w, net, key).value, Computed(w, key, net.jobs[key]).value;
            && GoesFurther(w, net, net') && DoesMore(w, net, net')
            && (s.effects != [] ==> HasEffect(w, net', key, s.effects[0]))
  {
    hide Follow, Performed, EffectsOf, JoinsDone, Step, NewNodes, NewValues, NewJoins, NewEnds, WireIds, Extend;
    ComputeIs(w, net, key);
    var job, net' := net.jobs[key], Compute(w, net, key).value;
    hide Compute;
    FurtherDoesMore(w, net, net');
    assert Replays(w, net, key, job);
    EffectsNext(w, key, job.start, job.steps + 1);
    assert net'.jobs[key].start == job.start && net'.jobs[key].steps == job.steps + 1;
  }

  lemma ComputeMadeOnly(w: World, code: seq<Opcode>, net: Net, key: set<Name>)
    requires WellFormed(w) && Inv(w, code, net) && MadeOnly(w, net) && Compute(w, net, key).Some?
    ensures MadeOnly(w, Compute(w, net, key).value)
  {
    hide WellFormed, InvHeap, InvCount, InvJobs, InvNames, InvNodes, InvTasks, InvFired, InvReplay, Contains, Coarser,
        Compute, HasEffect, HasDone, DoesMore, GoesFurther, IsPartition, Extend, WireIds, NewEnds, ValuesOf, NodesOf,
        Step;
    ComputeIs(w, net, key);
    var net', s := Compute(w, net, key).value, Computed(w, key, net.jobs[key]).value;
    ComputeDoes(w, net, key);
    MoreMade(w, net, net');
    ExtendCoarser(net.wiring, NewValues(s));
    HeapPartition(net);
    forall c | Contains(w, net', c) ensures Coarser(net'.wiring, c) {
      MoreContains(w, net, net', c);
      ContainsMade(w, net', c, NewValues(s));
      ExtendWithin(net.wiring, NewValues(s), c);
    }
  }

  lemma ContainsMade(w: World, net: Net, c: Wiring, values: set<Value>)
    requires Contains(w, net, c) && forall v :: v in values ==> MadeValue(w, net, v)
    ensures values <= c.Keys
  {
  }

  lemma MoveDoes(w: World, net: Net, key: set<Name>, net': Net)
    requires InvReplay(w, net) && MoveFacts(w, net, key, net')
    ensures GoesFurther(w, net, net') && DoesMore(w, net, net')
    ensures !Advance(net.heap, InHand(net.jobs[key]).left, InHand(net.jobs[key]).right).Again? ==>
              HasDone(w, net', key, net.jobs[key].joins[0])
  {
    hide Follow, Performed, EffectsOf, EffectsAt, JoinsDone, Advance, FindTask, Coarser, InHand;
    FurtherDoesMore(w, net, net');
    assert Replays(w, net, key, net.jobs[key]);
    EffectsNext(w, key, net.jobs[key].start, net.jobs[key].steps + 1);
  }

  lemma MoveMadeOnly(w: World, code: seq<Opcode>, net: Net, key: set<Name>)
    requires WellFormed(w) && Inv(w, code, net) && MadeOnly(w, net) && Move(w, net, key).Some?
    ensures MadeOnly(w, Move(w, net, key).value)
  {
    hide WellFormed, InvCount, InvJobs, InvNames, InvNodes, InvTasks, InvFired, InvReplay, Contains, Coarser, MadeNode,
        MadeValue, HasDone, DoesMore, GoesFurther, IsPartition, Advance, Merge, FindTask, InHand, Affine, Represents,
        MoveFacts;
    var net' := Move(w, net, key).value;
    MoveIs(w, net, key);
    MoveWiring(w, net, key);
    MoveDoes(w, net, key, net');
    MoreMade(w, net, net');
    HeapPartition(net);
    SameCreated(w, net, key, net');
    forall c | Contains(w, net', c) ensures Coarser(net'.wiring, c) {
      MoreContains(w, net, net', c);
      MoveContained(w, net, key, net', c);
    }
  }

  lemma SameCreated(w: World, net: Net, key: set<Name>, net': Net)
    requires MoveFacts(w, net, key, net')
    ensures net'.created == net.created && net'.wiring.Keys == net.wiring.Keys
  {
  }

  lemma MoveContained(w: World, net: Net, key: set<Name>, net': Net, c: Wiring)
    requires InvJobs(net) && IsPartition(net.wiring) && Coarser(net.wiring, c) && Contains(w, net', c)
    requires Move(w, net, key) == Some(net')
    requires !Advance(net.heap, InHand(net.jobs[key]).left, InHand(net.jobs[key]).right).Again? ==>
               HasDone(w, net', key, net.jobs[key].joins[0])
    ensures Coarser(net'.wiring, c)
  {
    hide IsPartition, Coarser, Merge, FindTask, HasDone, InHand;
    var job := net.jobs[key];
    assert InvJob(net.wiring, job);
    if !Advance(net.heap, InHand(job).left, InHand(job).right).Again? {
      assert Together(c, job.joins[0]);
      HandWithin(net.wiring, job, c);
      MergeWithin(net.wiring, InHand(job).left, InHand(job).right, c);
    }
  }

  lemma ActMadeOnly(w: World, code: seq<Opcode>, net: Net, a: Action)
    requires WellFormed(w) && Inv(w, code, net) && MadeOnly(w, net) && Act(w, net, a).Some?
    ensures MadeOnly(w, Act(w, net, a).value)
  {
    hide WellFormed, Inv, MadeOnly, Begin, Compute, Move;
    match a
    case Begins(t) => BeginMadeOnly(w, code, net, t);
    case Computes(key) => ComputeMadeOnly(w, code, net, key);
    case Moves(key) => MoveMadeOnly(w, code, net, key);
  }

  lemma {:induction false} RunMadeOnly(w: World, code: seq<Opcode>, run: seq<Net>, i: nat)
    requires WellFormed(w) && IsPure(code) && IsRun(w, code, run) && i < |run|
    ensures MadeOnly(w, run[i])
  {
    hide WellFormed, Inv, Act, IsPure, MadeNode, MadeValue, Contains;
    if i == 0 {
      forall c ensures Coarser(map[], c) { NothingCoarser(c); }
    } else {
      hide MadeOnly;
      RunMadeOnly(w, code, run, i - 1);
      RunKeeps(w, code, run, i - 1);
      assert CanAct(w, run[i - 1], run[i]);
      var a :| Act(w, run[i - 1], a) == Some(run[i]);
      ActMadeOnly(w, code, run[i - 1], a);
    }
  }

  lemma StartsClean(w: World, code: seq<Opcode>, net: Net, key: set<Name>)
    requires InvFired(w, code, net) && key in net.jobs
    ensures net.jobs[key].start.effects == []
  {
    hide ComesFrom, Auxiliary;
    if key != {} { assert Fired(w, net, key, net.jobs[key]); }
  }

  /** At every point of every run the net is exactly what the jobs have done: all the effects
      of their courses so far have happened, with the joins that were done, every node and
      every wire is of one of these effects, and no two ends are together but by these joins. */
  lemma NetIsItsEffects(w: World, code: seq<Opcode>, run: seq<Net>, i: nat)
    requires WellFormed(w) && IsPure(code) && IsRun(w, code, run) && i < |run|
    ensures forall key, e :: HasEffect(w, run[i], key, e) ==> Happened(run[i], e)
    ensures forall key, p :: HasDone(w, run[i], key, p) ==> Together(run[i].wiring, p)
    ensures MadeOnly(w, run[i])
  {
    hide WellFormed, IsPure, IsRun, InvHeap, InvCount, InvJobs, InvNames, InvNodes, InvTasks, InvFired, MadeOnly,
        Happened, Together, Replays, EffectsOf, JoinsDone;
    var net := run[i];
    RunKeeps(w, code, run, i);
    RunMadeOnly(w, code, run, i);
    forall key | key in net.jobs
      ensures forall e :: HasEffect(w, net, key, e) ==> Happened(net, e)
      ensures forall p :: HasDone(w, net, key, p) ==> Together(net.wiring, p)
    {
      StartsClean(w, code, net, key);
      EffectsHappened(w, net, key, net.jobs[key], net.jobs[key].steps);
    }
  }

  /** The rule's two patterns fit its constructors and have distinct names, and its code is
      compiled from the body. */
  ghost predicate IsRuleOf(ctx: Context, w: World, rule: nat, f: nat, leftArgs: seq<string>, rightArgs: seq<string>,
          body: seq<Exp>) {
    && rule < |w.rules|
    && f < |ctx.sources| && ctx.sources[f] == Source(LocalNames(leftArgs) + LocalNames(rightArgs), body)
    && f < |ctx.program.functions| && w.rules[rule].code == ctx.program.functions[f].opcodes
    && w.rules[rule].left < |w.program.ctors| && Fits(w.program.ctors[w.rules[rule].left], leftArgs)
    && w.rules[rule].right < |w.program.ctors| && Fits(w.program.ctors[w.rules[rule].right], rightArgs)
    && Distinct(LocalNames(leftArgs) + LocalNames(rightArgs))
  }

  /** Every job but the loader's was begun for a task of two ports that met. */
  lemma JobHasTask(w: World, code: seq<Opcode>, net: Net, key: set<Name>) returns (t: Task, u: Value, v: Value)
    requires InvFired(w, code, net) && key in net.jobs && key != {}
    ensures t in FindTask(w, net.created, u, v) && IsJobOf(w, net.created, key, net.jobs[key].start, t)
  {
    hide FindTask, IsJobOf;
    assert Fired(w, net, key, net.jobs[key]);
    t, u, v :| ComesFrom(w, net, t, u, v) && IsJobOf(w, net.created, key, net.jobs[key].start, t);
  }

  /** From the source to the net: when a job that was begun for a task is done, the body of the
      task's rule evaluates, with each pattern variable bound to the value that was at its
      port; the job's stack is what the evaluation leaves; and the effects of the evaluation
      are the job's effects, which have all happened to the net, their joins done. */
  lemma FiredRuleDoesItsBody(ctx: Context, w: World, code: seq<Opcode>, run: seq<Net>, i: nat, t: Task, u: Value,
          v: Value, f: nat, leftArgs: seq<string>, rightArgs: seq<string>, body: seq<Exp>)
    returns (b: map<string, Value>, fuel: nat)
    requires WellFormed(w) && IsPure(code) && IsRun(w, code, run) && i < |run|
    requires Compiled(ctx) && w.program == ctx.program && IsRuleOf(ctx, w, t.rule, f, leftArgs, rightArgs, body)
    requires t in FindTask(w, run[i].created, u, v) && KeyOf(t) in run[i].jobs && IsDone(run[i].jobs[KeyOf(t)])
    requires IsJobOf(w, run[i].created, KeyOf(t), run[i].jobs[KeyOf(t)].start, t)
    ensures IsBound(leftArgs, run[i].created[t.left].ports, b) && IsBound(rightArgs, run[i].created[t.right].ports, b)
    ensures var net, key := run[i], KeyOf(t);
            var scope := set n | n in LocalNames(leftArgs) + LocalNames(rightArgs);
            var r := EvalList(fuel, ctx, key, scope, body, Store([], b, 0, []));
            && r.Some? && r.value.values == net.jobs[key].state.values
            && r.value.effects == EffectsOf(w, key, net.jobs[key].start, net.jobs[key].steps)
            && (forall e :: e in r.value.effects ==> Happened(net, e))
            && (forall p :: p in JoinsOfAll(r.value.effects) ==> Together(net.wiring, p))
  {
    hide WellFormed, IsPure, IsRun, Inv, Compiled, FindTask, Fits, LocalNames, EvalList, IsBound, Distinct, Happened,
        Together, EffectsOf, JoinsDone, JoinsOfAll, Auxiliary, IsDone, Halts, WellBuilt;
    var net, key := run[i], KeyOf(t);
    RunKeeps(w, code, run, i);
    JobParts(w, code, net, t.left);
    JobParts(w, code, net, t.right);
    StartsClean(w, code, net, key);
    DoneHalts(w, net, key);
    NetIsItsEffects(w, code, run, i);
    var job := net.jobs[key];
    var end := job.state.(effects := EffectsOf(w, key, job.start, job.steps));
    b := RuleMeansItsBody(ctx, w, f, leftArgs, rightArgs, body, net.created, u, v, t, end, true);
    var scope := set n | n in LocalNames(leftArgs) + LocalNames(rightArgs);
    fuel :| var r := EvalList(fuel, ctx, key, scope, body, Store([], b, 0, [])); r.Some? && end == AtRest(r.value);
    forall e | e in end.effects ensures Happened(net, e) { assert HasEffect(w, net, key, e); }
    forall p | p in JoinsOfAll(end.effects) ensures Together(net.wiring, p) { assert HasDone(w, net, key, p); }
  }

  lemma JobParts(w: World, code: seq<Opcode>, net: Net, n: Name)
    requires Inv(w, code, net)
    ensures InvJobs(net) && InvReplay(w, net) && InvFired(w, code, net)
    ensures n in net.created ==> IsNode(w, n, net.created[n])
  {
    hide InvHeap, InvCount, InvJobs, InvNames, InvTasks, InvFired, InvReplay, IsNode, IsPort;
  }
}
