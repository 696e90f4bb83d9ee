/** The caching node allocator: a stack of free nodes behind a mutex, and for every thread
    a stack of its own that is filled from it and drained to it in batches. Any interleaving
    of threads; one step moves one node, or locks or unlocks the mutex.

    `place` is a history variable: where each node is. */
module Allocator {
  import opened Values

  datatype Place = Shared(index: nat) | Own(thread: nat, index: nat) | HandedOut | InTransit(thread: nat)

  /** What a thread is doing: looking for a node, filling its stack, making a batch of new
      nodes, or giving a node back, with its stack to be drained first or not. */
  datatype Phase =
    | Idle
    | WaitToFill
    | Fill(moved: nat)
    | WaitToMake
    | Make(made: nat)
    | WaitToDrain(node: nat)
    | Drain(node: nat, moved: nat)

  datatype Thread = Thread(stack: seq<nat>, phase: Phase)

  datatype World = World(
    cacheSize: nat,
    batchSize: nat,
    count: nat,
    shared: seq<nat>,
    mutex: Option<nat>,
    threads: seq<Thread>,
    place: map<nat, Place>
  )

  datatype Action = Allocate(thread: nat) | Free(thread: nat, node: nat) | Lock(thread: nat) | Continue(thread: nat)

  function Top(s: seq<nat>): nat
    requires s != []
  {
    s[|s| - 1]
  }

  function Pop(s: seq<nat>): seq<nat>
    requires s != []
  {
    s[..|s| - 1]
  }

  /** Hands out the top of a thread's own stack. */
  function HandOut(w: World, k: nat): World
    requires k < |w.threads| && w.threads[k].stack != []
  {
    var t := w.threads[k];
    w.(threads := w.threads[k := Thread(Pop(t.stack), Idle)], place := w.place[Top(t.stack) := HandedOut])
  }

  function PutBack(w: World, k: nat, node: nat): World
    requires k < |w.threads|
  {
    var t := w.threads[k];
    w.(threads := w.threads[k := Thread(t.stack + [node], Idle)], place := w.place[node := Own(k, |t.stack|)])
  }

  function SetPhase(w: World, k: nat, p: Phase): World
    requires k < |w.threads|
  {
    w.(threads := w.threads[k := w.threads[k].(phase := p)])
  }

  predicate IsWaiting(p: Phase) { p.WaitToFill? || p.WaitToMake? || p.WaitToDrain? }

  predicate IsInside(p: Phase) { p.Fill? || p.Make? || p.Drain? }

  function Enter(p: Phase): Phase
    requires IsWaiting(p)
  {
    match p case WaitToFill => Fill(0) case WaitToMake => Make(0) case WaitToDrain(n) => Drain(n, 0)
  }

  predicate IsEnabled(w: World, a: Action) {
    match a
    case Allocate(k) => k < |w.threads| && w.threads[k].phase.Idle?
    case Free(k, n) => k < |w.threads| && w.threads[k].phase.Idle? && n in w.place && w.place[n] == HandedOut
    case Lock(k) => k < |w.threads| && IsWaiting(w.threads[k].phase) && w.mutex.None?
    case Continue(k) =>
      && k < |w.threads| && IsInside(w.threads[k].phase)
      && (w.threads[k].phase.Drain? && w.threads[k].phase.moved < w.cacheSize ==> w.threads[k].stack != [])
  }

  function Inside(w: World, k: nat): World
    requires IsEnabled(w, Continue(k))
  {
    var t := w.threads[k];
    match t.phase
    case Fill(i) =>
      if i < w.cacheSize && w.shared != [] then
        var n := Top(w.shared);
        w.(shared := Pop(w.shared), threads := w.threads[k := Thread(t.stack + [n], Fill(i + 1))],
            place := w.place[n := Own(k, |t.stack|)])
      else
        var w' := w.(mutex := None);
        if t.stack != [] then HandOut(w', k) else SetPhase(w', k, WaitToMake)
    case Make(i) =>
      if i < w.batchSize then
        var n := w.count + 1;
        w.(count := n, shared := w.shared + [n], threads := w.threads[k := t.(phase := Make(i + 1))],
            place := w.place[n := Shared(|w.shared|)])
      else
        SetPhase(w.(mutex := None), k, WaitToFill)
    case Drain(node, i) =>
      if i < w.cacheSize then
        var n := Top(t.stack);
        w.(shared := w.shared + [n], threads := w.threads[k := Thread(Pop(t.stack), Drain(node, i + 1))],
            place := w.place[n := Shared(|w.shared|)])
      else
        PutBack(w.(mutex := None), k, node)
    case _ => w
  }

  function Act(w: World, a: Action): World
    requires IsEnabled(w, a)
  {
    match a
    case Allocate(k) =>
      if w.threads[k].stack != [] then HandOut(w, k) else SetPhase(w, k, WaitToFill)
    case Free(k, n) =>
      var w' := w.(place := w.place[n := InTransit(k)]);
      if |w.threads[k].stack| >= 2 * w.cacheSize then SetPhase(w', k, WaitToDrain(n)) else PutBack(w', k, n)
    case Lock(k) => SetPhase(w.(mutex := Some(k)), k, Enter(w.threads[k].phase))
    case Continue(k) => Inside(w, k)
  }

  // Every node is in one place

  predicate IsCarried(p: Phase, n: nat) { (p.WaitToDrain? || p.Drain?) && p.node == n }

  /** The place of a node is where it is. */
  predicate IsThere(w: World, n: nat, p: Place) {
    match p
    case Shared(i) => i < |w.shared| && w.shared[i] == n
    case Own(k, i) => k < |w.threads| && i < |w.threads[k].stack| && w.threads[k].stack[i] == n
    case HandedOut => true
    case InTransit(k) => k < |w.threads| && IsCarried(w.threads[k].phase, n)
  }

  ghost predicate InvPlaces(w: World) {
    && (forall n :: n in w.place <==> 1 <= n <= w.count)
    && (forall n :: n in w.place ==> IsThere(w, n, w.place[n]))
  }

  ghost predicate InvShared(w: World) {
    forall i :: 0 <= i < |w.shared| ==> w.shared[i] in w.place && w.place[w.shared[i]] == Shared(i)
  }

  ghost predicate InvStack(w: World, k: nat, t: Thread) {
    && (forall i :: 0 <= i < |t.stack| ==> t.stack[i] in w.place && w.place[t.stack[i]] == Own(k, i))
    && (t.phase.WaitToDrain? || t.phase.Drain? ==> t.phase.node in w.place && w.place[t.phase.node] == InTransit(k))
  }

  /** How much a thread's own stack may hold, at each point. */
  predicate IsBounded(cacheSize: nat, t: Thread) {
    match t.phase
    case Idle => |t.stack| <= 2 * cacheSize
    case WaitToFill => |t.stack| == 0
    case Fill(i) => |t.stack| == i <= cacheSize
    case WaitToMake => |t.stack| == 0
    case Make(_) => |t.stack| == 0
    case WaitToDrain(_) => |t.stack| == 2 * cacheSize
    case Drain(_, i) => |t.stack| + i == 2 * cacheSize && i <= cacheSize
  }

  ghost predicate InvMutex(w: World) {
    && (forall k :: 0 <= k < |w.threads| && IsInside(w.threads[k].phase) ==> w.mutex == Some(k))
    && (w.mutex.Some? ==> w.mutex.value < |w.threads| && IsInside(w.threads[w.mutex.value].phase))
  }

  ghost predicate Inv(w: World) {
    && w.cacheSize >= 1
    && InvPlaces(w) && InvShared(w) && InvMutex(w)
    && forall k :: 0 <= k < |w.threads| ==> InvStack(w, k, w.threads[k]) && IsBounded(w.cacheSize, w.threads[k])
  }

  /** Any number of nodes made so far, all on the shared stack. */
  ghost predicate Init(w: World) {
    && w.cacheSize >= 1 && w.mutex == None
    && |w.shared| == w.count && (forall i :: 0 <= i < w.count ==> w.shared[i] == i + 1)
    && (forall n :: n in w.place <==> 1 <= n <= w.count) && (forall n :: n in w.place ==> w.place[n] == Shared(n - 1))
    && forall k :: 0 <= k < |w.threads| ==> w.threads[k] == Thread([], Idle)
  }

  lemma InitHolds(w: World)
    requires Init(w)
    ensures Inv(w)
  {
  }

  // Steps

  /** A thread does not notice what happens to nodes that are not its own. */
  lemma OtherStack(w: World, w': World, k: nat, t: Thread, n: nat, p: Place)
    requires InvStack(w, k, t) && w'.place == w.place[n := p]
    requires n in w.place ==> !(w.place[n].Own? && w.place[n].thread == k) && w.place[n] != InTransit(k)
    ensures InvStack(w', k, t)
  {
  }

  /** Everything but the mutex, for all threads but one. */
  ghost predicate InvBut(w: World, k: nat) {
    && w.cacheSize >= 1 && InvPlaces(w) && InvShared(w)
    && forall j :: 0 <= j < |w.threads| && j != k ==>
         InvStack(w, j, w.threads[j]) && IsBounded(w.cacheSize, w.threads[j])
  }

  lemma WholeInv(w: World, k: nat)
    requires InvBut(w, k) && InvMutex(w) && k < |w.threads|
    requires InvStack(w, k, w.threads[k]) && IsBounded(w.cacheSize, w.threads[k])
    ensures Inv(w)
  {
  }

  /** A thread that hands out the top of its stack, whether it was full or just filled. */
  lemma HandOutKeeps(w: World, k: nat)
    requires InvBut(w, k) && k < |w.threads| && w.threads[k].stack != []
    requires InvStack(w, k, w.threads[k]) && |w.threads[k].stack| <= 2 * w.cacheSize
    requires (w.threads[k].phase.Idle? || w.threads[k].phase.Fill?)
    ensures var w' := HandOut(w, k);
            InvBut(w', k) && InvStack(w', k, w'.threads[k]) && IsBounded(w'.cacheSize, w'.threads[k])
  {
    var t, w' := w.threads[k], HandOut(w, k);
    var n := Top(t.stack);
    assert w.place[n] == Own(k, |t.stack| - 1);
    forall j | 0 <= j < |w.threads| && j != k
      ensures InvStack(w', j, w'.threads[j])
    {
      OtherStack(w, w', j, w.threads[j], n, HandedOut);
    }
    hide IsBounded;
    forall m | m in w'.place ensures IsThere(w', m, w'.place[m]) { assert IsThere(w, m, w.place[m]); }
    assert IsBounded(w'.cacheSize, w'.threads[k]) by { ShortIdle(w.cacheSize, w'.threads[k]); }
  }

  lemma ShortIdle(cacheSize: nat, t: Thread)
    requires t.phase.Idle? && |t.stack| <= 2 * cacheSize
    ensures IsBounded(cacheSize, t)
  {
  }

  lemma PutBackKeeps(w: World, k: nat, n: nat)
    requires InvBut(w, k) && k < |w.threads| && n in w.place && w.place[n] == InTransit(k)
    requires InvStack(w, k, w.threads[k]) && |w.threads[k].stack| < 2 * w.cacheSize
    requires forall m :: m in w.place && m != n ==> w.place[m] != InTransit(k)
    ensures var w' := PutBack(w, k, n);
            InvBut(w', k) && InvStack(w', k, w'.threads[k]) && IsBounded(w'.cacheSize, w'.threads[k])
  {
    var t, w' := w.threads[k], PutBack(w, k, n);
    forall j | 0 <= j < |w.threads| && j != k
      ensures InvStack(w', j, w'.threads[j])
    {
      OtherStack(w, w', j, w.threads[j], n, Own(k, |t.stack|));
    }
    forall m | m in w'.place ensures IsThere(w', m, w'.place[m]) { assert IsThere(w, m, w.place[m]); }
  }

  /** A phase that carries no node may be left for another such. */
  lemma PhaseKeeps(w: World, k: nat, p: Phase)
    requires InvBut(w, k) && k < |w.threads| && InvStack(w, k, w.threads[k])
    requires forall m :: m in w.place && w.place[m] == InTransit(k) ==> IsCarried(p, m)
    requires p.WaitToDrain? || p.Drain? ==> p.node in w.place && w.place[p.node] == InTransit(k)
    ensures var w' := SetPhase(w, k, p); InvBut(w', k) && InvStack(w', k, w'.threads[k])
  {
    var w' := SetPhase(w, k, p);
    forall m | m in w'.place ensures IsThere(w', m, w'.place[m]) { assert IsThere(w, m, w.place[m]); }
  }

  /** A thread that is not draining carries no node. */
  lemma CarriesNothing(w: World, k: nat)
    requires InvPlaces(w) && k < |w.threads| && !w.threads[k].phase.WaitToDrain? && !w.threads[k].phase.Drain?
    ensures forall m :: m in w.place ==> w.place[m] != InTransit(k)
  {
    forall m | m in w.place ensures w.place[m] != InTransit(k) { assert IsThere(w, m, w.place[m]); }
  }

  /** A thread that is draining carries the one node it has been given. */
  lemma CarriesOne(w: World, k: nat)
    requires InvPlaces(w) && k < |w.threads| && (w.threads[k].phase.WaitToDrain? || w.threads[k].phase.Drain?)
    ensures forall m :: m in w.place && m != w.threads[k].phase.node ==> w.place[m] != InTransit(k)
  {
    forall m | m in w.place && m != w.threads[k].phase.node
      ensures w.place[m] != InTransit(k)
    {
      assert IsThere(w, m, w.place[m]);
    }
  }

  lemma SameBut(w: World, w': World, k: nat)
    requires InvBut(w, k) && w' == w.(mutex := w'.mutex)
    ensures InvBut(w', k)
    ensures forall j, t :: InvStack(w, j, t) ==> InvStack(w', j, t)
  {
    forall m | m in w'.place ensures IsThere(w', m, w'.place[m]) { assert IsThere(w, m, w.place[m]); }
  }

  lemma AllocateKeeps(w: World, k: nat)
    requires Inv(w) && IsEnabled(w, Allocate(k))
    ensures Inv(Act(w, Allocate(k)))
  {
    hide InvPlaces, InvShared, InvStack;
    if w.threads[k].stack != [] {
      HandOutKeeps(w, k);
    } else {
      CarriesNothing(w, k);
      PhaseKeeps(w, k, WaitToFill);
    }
    WholeInv(Act(w, Allocate(k)), k);
  }

  lemma TakeBack(w: World, k: nat, n: nat)
    requires Inv(w) && k < |w.threads| && w.threads[k].phase.Idle? && n in w.place && w.place[n] == HandedOut
    ensures var w' := w.(place := w.place[n := InTransit(k)],
            threads := w.threads[k := w.threads[k].(phase := WaitToDrain(n))]);
            InvBut(w', k) && InvStack(w', k, w'.threads[k])
  {
    hide IsBounded;
    var w' := w.(place := w.place[n := InTransit(k)],
        threads := w.threads[k := w.threads[k].(phase := WaitToDrain(n))]);
    CarriesNothing(w, k);
    forall j | 0 <= j < |w.threads| && j != k
      ensures InvStack(w', j, w'.threads[j])
    {
      OtherStack(w, w', j, w.threads[j], n, InTransit(k));
    }
    forall m | m in w'.place ensures IsThere(w', m, w'.place[m]) { assert IsThere(w, m, w.place[m]); }
  }

  lemma FreeKeeps(w: World, k: nat, n: nat)
    requires Inv(w) && IsEnabled(w, Free(k, n))
    ensures Inv(Act(w, Free(k, n)))
  {
    hide InvPlaces, InvShared, InvStack;
    TakeBack(w, k, n);
    var w1 := w.(place := w.place[n := InTransit(k)],
        threads := w.threads[k := w.threads[k].(phase := WaitToDrain(n))]);
    if |w.threads[k].stack| < 2 * w.cacheSize {
      CarriesOne(w1, k);
      PutBackKeeps(w1, k, n);
      assert PutBack(w1, k, n) == Act(w, Free(k, n));
    } else {
      assert w1 == Act(w, Free(k, n));
    }
    WholeInv(Act(w, Free(k, n)), k);
  }

  lemma LockKeeps(w: World, k: nat)
    requires Inv(w) && IsEnabled(w, Lock(k))
    ensures Inv(Act(w, Lock(k)))
  {
    hide InvPlaces, InvShared, InvStack;
    var w1 := w.(mutex := Some(k));
    SameBut(w, w1, k);
    var p := w.threads[k].phase;
    if p.WaitToDrain? { CarriesOne(w1, k); NodeCarried(w1, k); } else { CarriesNothing(w1, k); }
    PhaseKeeps(w1, k, Enter(p));
    WholeInv(Act(w, Lock(k)), k);
  }

  lemma NodeCarried(w: World, k: nat)
    requires k < |w.threads| && InvStack(w, k, w.threads[k])
    ensures w.threads[k].phase.WaitToDrain? || w.threads[k].phase.Drain? ==>
              w.threads[k].phase.node in w.place && w.place[w.threads[k].phase.node] == InTransit(k)
  {
  }

  /** One node from the shared stack to the thread's own. */
  lemma FillOne(w: World, k: nat)
    requires Inv(w) && IsEnabled(w, Continue(k)) && w.threads[k].phase.Fill?
    requires w.threads[k].phase.moved < w.cacheSize && w.shared != []
    ensures var w' := Inside(w, k); InvBut(w', k) && InvStack(w', k, w'.threads[k])
  {
    hide IsBounded, InvMutex;
    var t, w', n := w.threads[k], Inside(w, k), Top(w.shared);
    assert w.place[n] == Shared(|w.shared| - 1);
    forall j | 0 <= j < |w.threads| && j != k
      ensures InvStack(w', j, w'.threads[j])
    {
      OtherStack(w, w', j, w.threads[j], n, Own(k, |t.stack|));
    }
    forall m | m in w'.place ensures IsThere(w', m, w'.place[m]) { assert IsThere(w, m, w.place[m]); }
  }

  /** One new node, with a number that no other has. */
  lemma MakeOne(w: World, k: nat)
    requires Inv(w) && IsEnabled(w, Continue(k)) && w.threads[k].phase.Make? && w.threads[k].phase.made < w.batchSize
    ensures var w' := Inside(w, k); InvBut(w', k) && InvStack(w', k, w'.threads[k])
  {
    hide IsBounded, InvMutex;
    var w', n := Inside(w, k), w.count + 1;
    assert n !in w.place;
    forall j | 0 <= j < |w.threads|
      ensures InvStack(w', j, w'.threads[j])
    {
      OtherStack(w, w', j, w.threads[j], n, Shared(|w.shared|));
    }
    forall m | m in w'.place ensures IsThere(w', m, w'.place[m]) {
      if m != n { assert IsThere(w, m, w.place[m]); }
    }
  }

  /** One node from the thread's own stack to the shared one. */
  lemma DrainOne(w: World, k: nat)
    requires Inv(w) && IsEnabled(w, Continue(k)) && w.threads[k].phase.Drain? && w.threads[k].phase.moved < w.cacheSize
    ensures var w' := Inside(w, k); InvBut(w', k) && InvStack(w', k, w'.threads[k])
  {
    hide IsBounded, InvMutex;
    var t, w' := w.threads[k], Inside(w, k);
    var n := Top(t.stack);
    assert w.place[n] == Own(k, |t.stack| - 1);
    forall j | 0 <= j < |w.threads| && j != k
      ensures InvStack(w', j, w'.threads[j])
    {
      OtherStack(w, w', j, w.threads[j], n, Shared(|w.shared|));
    }
    forall m | m in w'.place ensures IsThere(w', m, w'.place[m]) { assert IsThere(w, m, w.place[m]); }
  }

  lemma ContinueKeeps(w: World, k: nat)
    requires Inv(w) && IsEnabled(w, Continue(k))
    ensures Inv(Act(w, Continue(k)))
  {
    hide InvPlaces, InvShared, InvStack;
    var w' := Inside(w, k);
    var w1 := w.(mutex := None);
    SameBut(w, w1, k);
    match w.threads[k].phase {
      case Fill(i) =>
        if i < w.cacheSize && w.shared != [] {
          FillOne(w, k);
        } else if w.threads[k].stack != [] {
          HandOutKeeps(w1, k);
        } else {
          CarriesNothing(w1, k);
          PhaseKeeps(w1, k, WaitToMake);
        }
      case Make(i) =>
        if i < w.batchSize {
          MakeOne(w, k);
        } else {
          CarriesNothing(w1, k);
          PhaseKeeps(w1, k, WaitToFill);
        }
      case Drain(node, i) =>
        if i < w.cacheSize {
          DrainOne(w, k);
        } else {
          CarriesOne(w1, k);
          NodeCarried(w1, k);
          PutBackKeeps(w1, k, node);
        }
      case _ =>
    }
    WholeInv(w', k);
  }

  lemma StepKeeps(w: World, a: Action)
    requires Inv(w) && IsEnabled(w, a)
    ensures Inv(Act(w, a))
  {
    hide Inv, IsEnabled, Act;
    match a
    case Allocate(k) => AllocateKeeps(w, k);
    case Free(k, n) => FreeKeeps(w, k, n);
    case Lock(k) => LockKeeps(w, k);
    case Continue(k) => ContinueKeeps(w, k);
  }

  /** Whole batches are moved: when a thread leaves the mutex its stack has had a full cache from
      the shared stack or all there was, a full batch has been made, or exactly one cache has been
      given up, and the node that was freed is on top of what is left. */
  lemma BatchesAreWhole(w: World, k: nat)
    requires Inv(w) && IsEnabled(w, Continue(k)) && !IsInside(Act(w, Continue(k)).threads[k].phase)
    ensures var p, s, s' := w.threads[k].phase, w.threads[k].stack, Act(w, Continue(k)).threads[k].stack;
            match p
            case Fill(i) =>
              && |s| == i && (i == w.cacheSize || (i < w.cacheSize && w.shared == []))
              && if i == 0 then s' == [] && Act(w, Continue(k)).threads[k].phase.WaitToMake? else |s'| == i - 1
            case Make(i) => i >= w.batchSize && s' == []
            case Drain(n, i) => i == w.cacheSize && |s| == w.cacheSize && s' == s + [n]
            case _ => true
  {
    assert IsBounded(w.cacheSize, w.threads[k]);
    hide InvPlaces, InvShared, InvStack, InvMutex;
  }

  // What follows in every run

  ghost predicate IsStep(w: World, w': World) { exists a :: IsEnabled(w, a) && w' == Act(w, a) }

  ghost predicate IsRun(run: seq<World>) {
    && |run| > 0 && Init(run[0])
    && forall i :: 0 < i < |run| ==> IsStep(run[i - 1], run[i])
  }

  lemma {:induction false} RunKeeps(run: seq<World>, i: nat)
    requires IsRun(run) && i < |run|
    ensures Inv(run[i])
  {
    hide Inv, IsEnabled, Act, Init;
    if i == 0 {
      InitHolds(run[0]);
    } else {
      RunKeeps(run, i - 1);
      assert IsStep(run[i - 1], run[i]);
      var a :| IsEnabled(run[i - 1], a) && run[i] == Act(run[i - 1], a);
      StepKeeps(run[i - 1], a);
    }
  }

  /** The node with number `n` is on the shared stack. */
  predicate IsShared(w: World, n: nat) { n in w.shared }

  predicate HasNoDuplicates(s: seq<nat>) { forall i, j :: 0 <= i < j < |s| ==> s[i] != s[j] }

  predicate IsCached(w: World, k: nat, n: nat) { k < |w.threads| && n in w.threads[k].stack }

  /** In every interleaving each node ever made is in exactly one place and there once, and
      no thread's stack holds more than twice the cache size. */
  lemma NodesConserved(run: seq<World>, i: nat, n: nat)
    requires IsRun(run) && i < |run|
    ensures var w := run[i];
            && (1 <= n <= w.count <==> n in w.place)
            && (n in w.place ==>
                  && (IsShared(w, n) <==> w.place[n].Shared?)
                  && forall k: nat :: IsCached(w, k, n) <==> w.place[n].Own? && w.place[n].thread == k)
            && HasNoDuplicates(w.shared)
            && (forall k :: 0 <= k < |w.threads| ==> HasNoDuplicates(w.threads[k].stack))
            && (forall k :: 0 <= k < |w.threads| ==> |w.threads[k].stack| <= 2 * w.cacheSize)
  {
    RunKeeps(run, i);
    var w := run[i];
    forall k | 0 <= k < |w.threads| ensures HasNoDuplicates(w.threads[k].stack) {
      assert InvStack(w, k, w.threads[k]);
    }
    if n in w.place {
      assert IsThere(w, n, w.place[n]);
      forall k: nat ensures IsCached(w, k, n) <==> w.place[n].Own? && w.place[n].thread == k {
        if k < |w.threads| { assert InvStack(w, k, w.threads[k]); }
      }
    }
  }
}
