/** The parallel run: workers that pop their own queue, steal from each other, and
    leave on a sum of per-worker counters that is read one counter at a time. One step
    of the machine is one shared-memory access. */
module WorkStealing {
  import opened Bits
  import opened Values

  type Task = int

  const QUEUE_SIZE: nat := 1024 * 1024

  /** Where a worker is in its loop. `steal` tells the sum of the stealing loop from
      the sum of the main loop; `start` is the version at which a sum began, and `read`
      what it has read so far, both history variables. */
  datatype Phase =
    | Enter(steal: bool)
    | Summing(steal: bool, next: nat, total: nat, start: nat, read: seq<int>)
    | PopOwn
    | Offer
    | Handling(task: Task)
    | Pushed(task: Task)
    | AddLoaded(task: Task, count: int)
    | Finished
    | SubLoaded(count: int)
    | Left(start: nat)

  /** Queue operations are single steps because the ring queue is linearizable (module
      RingQueue). `version` counts counter writes, `writer` is the worker that wrote last;
      both are history variables that no branch of the code looks at. */
  datatype State = State(
    queues: seq<seq<Task>>,
    counters: seq<int>,
    phases: seq<Phase>,
    added: nat,
    done: seq<Task>,
    version: nat,
    writer: nat
  )

  /** What a step may choose: the victim of a steal, or what a running task does next. */
  datatype Choice = Victim(id: nat) | Spawn | Finish

  predicate Shaped(s: State) {
    && |s.queues| == |s.counters| == |s.phases|
    && 0 < |s.phases|
  }

  function To(s: State, w: nat, p: Phase): State
    requires w < |s.phases|
  {
    s.(phases := s.phases[w := p])
  }

  /** Pops queue `q` for worker `w`, or sends `w` to `empty` when nothing is there. */
  function PopInto(s: State, w: nat, q: nat, empty: Phase): State
    requires Shaped(s) && w < |s.phases| && q < |s.queues|
  {
    if s.queues[q] == [] then To(s, w, empty)
    else s.(queues := s.queues[q := s.queues[q][1..]], phases := s.phases[w := Handling(s.queues[q][0])])
  }

  function Write(s: State, w: nat, count: int, p: Phase): State
    requires Shaped(s) && w < |s.phases|
  {
    s.(counters := s.counters[w := count], phases := s.phases[w := p], version := s.version + 1, writer := w)
  }

  /** One step of worker `w`; None when the worker cannot take this step. */
  function Step(s: State, w: nat, c: Choice): Option<State>
    requires Shaped(s)
  {
    if w >= |s.phases| then None else
    match s.phases[w]
    case Enter(steal) => Some(To(s, w, Summing(steal, 0, 0, s.version, [])))
    case Summing(steal, i, total, start, read) =>
      if i < |s.counters| then
        Some(To(s, w, Summing(steal, i + 1, (total + s.counters[i]) % WORD, start, read + [s.counters[i]])))
      else if total == 0 then Some(To(s, w, Left(start)))
      else Some(To(s, w, if steal then Offer else PopOwn))
    case PopOwn => Some(PopInto(s, w, w, Enter(true)))
    case Offer =>
      if c.Victim? && c.id != w && c.id < |s.queues| then Some(PopInto(s, w, c.id, Enter(true))) else None
    case Handling(t) =>
      if c.Spawn? && |s.queues[w]| < QUEUE_SIZE then
        Some(s.(queues := s.queues[w := s.queues[w] + [s.added]], added := s.added + 1,
            phases := s.phases[w := Pushed(t)]))
      else if c.Finish? then Some(s.(done := s.done + [t], phases := s.phases[w := Finished]))
      else None
    case Pushed(t) => Some(To(s, w, AddLoaded(t, s.counters[w])))
    case AddLoaded(t, count) => Some(Write(s, w, count + 1, Handling(t)))
    case Finished => Some(To(s, w, SubLoaded(s.counters[w])))
    case SubLoaded(count) => Some(Write(s, w, count - 1, Enter(false)))
    case Left(_) => None
  }

  /** Totals over queues and phases are taken for a probe: the copies of one task, or
      the size, which is what the counters are meant to add up to. */
  datatype Probe = Size | Copies(of: Task)

  function InQueue(q: seq<Task>, probe: Probe): int {
    match probe
    case Size => |q|
    case Copies(t) => multiset(q)[t]
  }

  /** A task that is taken but not yet subtracted still counts; one that is pushed but
      not yet added is in the queue before it counts, which the pushing task makes up for. */
  function InHand(p: Phase, probe: Probe): int {
    match probe
    case Size => if p.Handling? || p.Finished? || p.SubLoaded? then 1 else 0
    case Copies(t) => if (p.Handling? || p.Pushed? || p.AddLoaded?) && p.task == t then 1 else 0
  }

  function Queued(queues: seq<seq<Task>>, probe: Probe): int {
    if queues == [] then 0 else Queued(queues[..|queues| - 1], probe) + InQueue(queues[|queues| - 1], probe)
  }

  function Held(phases: seq<Phase>, probe: Probe): int {
    if phases == [] then 0 else Held(phases[..|phases| - 1], probe) + InHand(phases[|phases| - 1], probe)
  }

  function Sum(counts: seq<int>): int {
    if counts == [] then 0 else Sum(counts[..|counts| - 1]) + counts[|counts| - 1]
  }

  /** Start of a run: the loader has dealt its tasks and counted them, nobody moved. */
  ghost predicate Init(s: State) {
    && Shaped(s) && |s.queues| * (QUEUE_SIZE + 1) < WORD
    && (forall i :: 0 <= i < |s.queues| ==> |s.queues[i]| <= QUEUE_SIZE && s.counters[i] == |s.queues[i]|)
    && (forall i :: 0 <= i < |s.phases| ==> s.phases[i] == Enter(false))
    && (forall t :: Queued(s.queues, Copies(t)) == if 0 <= t < s.added then 1 else 0)
    && s.done == [] && s.version == 0
  }

  ghost predicate CanStep(s: State, s': State)
    requires Shaped(s)
  {
    exists w, c {:trigger Step(s, w, c)} :: Step(s, w, c) == Some(s')
  }

  ghost predicate IsRun(run: seq<State>) {
    && 0 < |run| && Init(run[0])
    && (forall i :: 0 <= i < |run| ==> Shaped(run[i]))
    && (forall i :: 0 < i < |run| ==> CanStep(run[i - 1], run[i]))
  }

  /** Every task ever added is in exactly one queue, or held by exactly one worker, or
      done, once. Tasks are numbered as they come. */
  ghost predicate TasksConserved(s: State) {
    forall t: Task ::
      Queued(s.queues, Copies(t)) + Held(s.phases, Copies(t)) + multiset(s.done)[t] == if 0 <= t < s.added then 1 else 0
  }

  ghost predicate CountersBalanced(s: State) {
    Sum(s.counters) == Queued(s.queues, Size) + Held(s.phases, Size)
  }

  /** A sum is of what it has read; if nobody wrote a counter meanwhile, that is the counters
      as they are. */
  ghost predicate Faithful(p: Phase, own: int, counters: seq<int>, version: nat) {
    match p
    case Summing(_, i, total, start, read) =>
      && |read| == i <= |counters| && start <= version && total == Sum(read) % WORD
      && (start == version ==> read == counters[..i])
    case Left(start) => start <= version && (start == version ==> Sum(counters) % WORD == 0)
    case AddLoaded(_, count) => count == own
    case SubLoaded(count) => count == own
    case _ => true
  }

  ghost predicate SumsFaithful(s: State)
    requires Shaped(s)
  {
    forall w :: 0 <= w < |s.phases| ==> Faithful(s.phases[w], s.counters[w], s.counters, s.version)
  }

  /** The last writer has since begun its sum, if at all, from the current version. */
  ghost predicate WriterRecent(s: State) {
    s.version > 0 ==>
      && s.writer < |s.phases|
      && (s.phases[s.writer].Summing? ==> s.phases[s.writer].start == s.version)
      && (s.phases[s.writer].Left? ==> s.phases[s.writer].start == s.version)
  }

  ghost predicate Inv(s: State) {
    && Shaped(s) && |s.queues| * (QUEUE_SIZE + 1) < WORD
    && (forall i :: 0 <= i < |s.queues| ==> |s.queues[i]| <= QUEUE_SIZE)
    && TasksConserved(s) && CountersBalanced(s) && SumsFaithful(s) && WriterRecent(s)
  }

  // How the totals change when one entry changes

  lemma {:induction false} QueuedUpdate(queues: seq<seq<Task>>, i: nat, q: seq<Task>, probe: Probe)
    requires i < |queues|
    ensures Queued(queues[i := q], probe) == Queued(queues, probe) - InQueue(queues[i], probe) + InQueue(q, probe)
  {
    hide InQueue;
    var n := |queues| - 1;
    if i < n {
      QueuedUpdate(queues[..n], i, q, probe);
      assert queues[i := q][..n] == queues[..n][i := q];
    } else {
      assert queues[i := q][..n] == queues[..n];
    }
  }

  lemma {:induction false} HeldUpdate(phases: seq<Phase>, i: nat, p: Phase, probe: Probe)
    requires i < |phases|
    ensures Held(phases[i := p], probe) == Held(phases, probe) - InHand(phases[i], probe) + InHand(p, probe)
  {
    hide InHand;
    var n := |phases| - 1;
    if i < n {
      HeldUpdate(phases[..n], i, p, probe);
      assert phases[i := p][..n] == phases[..n][i := p];
    } else {
      assert phases[i := p][..n] == phases[..n];
    }
  }

  lemma {:induction false} SumUpdate(counts: seq<int>, i: nat, x: int)
    requires i < |counts|
    ensures Sum(counts[i := x]) == Sum(counts) - counts[i] + x
  {
    var n := |counts| - 1;
    if i < n {
      SumUpdate(counts[..n], i, x);
      assert counts[i := x][..n] == counts[..n][i := x];
    } else {
      assert counts[i := x][..n] == counts[..n];
    }
  }

  // One step, conservation by conservation

  /** What a step adds to queues and hands together. */
  function Gain(s: State, w: nat, c: Choice, probe: Probe): int
    requires w < |s.phases|
  {
    var p := s.phases[w];
    match probe
    case Size => if p.AddLoaded? then 1 else if p.SubLoaded? then -1 else 0
    case Copies(t) =>
      if p.Handling? && c.Spawn? && t == s.added then 1
      else if p.Handling? && c.Finish? && t == p.task then -1 else 0
  }

  lemma InQueueFirst(q: seq<Task>, probe: Probe)
    requires q != []
    ensures InQueue(q, probe) == InQueue(q[1..], probe) + InHand(Handling(q[0]), probe)
  {
    assert q == [q[0]] + q[1..];
  }

  lemma InQueueLast(q: seq<Task>, t: Task, probe: Probe)
    ensures InQueue(q + [t], probe) == InQueue(q, probe) + InHand(Handling(t), probe)
  {
  }

  /** A task that is popped goes from a queue into a hand that was empty. */
  lemma PopTotals(s: State, w: nat, q: nat, empty: Phase, probe: Probe)
    requires Shaped(s) && w < |s.phases| && q < |s.queues|
    requires InHand(s.phases[w], probe) == 0 && InHand(empty, probe) == 0
    ensures var s' := PopInto(s, w, q, empty);
            Queued(s'.queues, probe) + Held(s'.phases, probe) == Queued(s.queues, probe) + Held(s.phases, probe)
  {
    hide Queued, Held, InHand, InQueue;
    var s' := PopInto(s, w, q, empty);
    HeldUpdate(s.phases, w, s'.phases[w], probe);
    if s.queues[q] != [] {
      InQueueFirst(s.queues[q], probe);
      QueuedUpdate(s.queues, q, s.queues[q][1..], probe);
    }
  }

  lemma SpawnTotals(s: State, w: nat, p: Phase, probe: Probe)
    requires Shaped(s) && w < |s.phases|
    ensures Queued(s.queues[w := s.queues[w] + [s.added]], probe) + Held(s.phases[w := p], probe)
         == Queued(s.queues, probe) + Held(s.phases, probe) + InHand(Handling(s.added), probe)
             + InHand(p, probe) - InHand(s.phases[w], probe)
  {
    hide Queued, Held, InHand, InQueue;
    HeldUpdate(s.phases, w, p, probe);
    InQueueLast(s.queues[w], s.added, probe);
    QueuedUpdate(s.queues, w, s.queues[w] + [s.added], probe);
  }

  lemma StepTotals(s: State, w: nat, c: Choice, s': State, probe: Probe)
    requires Shaped(s) && Step(s, w, c) == Some(s')
    ensures Queued(s'.queues, probe) + Held(s'.phases, probe)
         == Queued(s.queues, probe) + Held(s.phases, probe) + Gain(s, w, c, probe)
  {
    hide Queued, Held, InQueue;
    var p := s.phases[w];
    if p.PopOwn? || p.Offer? {
      PopTotals(s, w, if p.PopOwn? then w else c.id, Enter(true), probe);
    } else if p.Handling? && c.Spawn? {
      SpawnTotals(s, w, Pushed(p.task), probe);
    } else {
      HeldUpdate(s.phases, w, s'.phases[w], probe);
    }
  }

  lemma StepConservesTasks(s: State, w: nat, c: Choice, s': State)
    requires Shaped(s) && TasksConserved(s) && Step(s, w, c) == Some(s')
    ensures TasksConserved(s')
  {
    hide Queued, Held;
    forall t: Task
      ensures Queued(s'.queues, Copies(t)) + Held(s'.phases, Copies(t)) + multiset(s'.done)[t] ==
              if 0 <= t < s'.added then 1 else 0
    {
      StepTotals(s, w, c, s', Copies(t));
    }
  }

  lemma StepBalances(s: State, w: nat, c: Choice, s': State)
    requires Shaped(s) && CountersBalanced(s) && SumsFaithful(s) && Step(s, w, c) == Some(s')
    ensures CountersBalanced(s')
  {
    hide Queued, Sum, Held;
    var p := s.phases[w];
    assert Faithful(p, s.counters[w], s.counters, s.version);
    StepTotals(s, w, c, s', Size);
    SumUpdate(s.counters, w, s'.counters[w]);
  }

  lemma OwnSumFaithful(s: State, w: nat, c: Choice, s': State)
    requires Shaped(s) && SumsFaithful(s) && Step(s, w, c) == Some(s')
    ensures Faithful(s'.phases[w], s'.counters[w], s'.counters, s'.version)
  {
    var p := s.phases[w];
    assert Faithful(p, s.counters[w], s.counters, s.version);
    if p.Summing? {
      if p.next < |s.counters| {
        assert (p.read + [s.counters[p.next]])[..p.next] == p.read;
        assert s.counters[..p.next + 1] == s.counters[..p.next] + [s.counters[p.next]];
      } else {
        assert s.counters[..p.next] == s.counters;
      }
    }
  }

  lemma StepKeepsSums(s: State, w: nat, c: Choice, s': State)
    requires Shaped(s) && SumsFaithful(s) && Step(s, w, c) == Some(s')
    ensures SumsFaithful(s')
  {
    hide Sum, Step;
    SameShape(s, w, c, s');
    OwnSumFaithful(s, w, c, s');
    forall v | 0 <= v < |s.phases| && v != w
      ensures Faithful(s'.phases[v], s'.counters[v], s'.counters, s'.version)
    {
      OtherSumFaithful(s, w, c, s', v);
    }
  }

  lemma SameShape(s: State, w: nat, c: Choice, s': State)
    requires Shaped(s) && Step(s, w, c) == Some(s')
    ensures w < |s.phases| && Shaped(s') && |s'.phases| == |s.phases|
  {
  }

  lemma OtherSumFaithful(s: State, w: nat, c: Choice, s': State, v: nat)
    requires Shaped(s) && SumsFaithful(s) && Step(s, w, c) == Some(s') && v < |s.phases| && v != w
    ensures Shaped(s') && |s'.phases| == |s.phases| && Faithful(s'.phases[v], s'.counters[v], s'.counters, s'.version)
  {
    hide Sum;
    assert Faithful(s.phases[v], s.counters[v], s.counters, s.version);
    assert s'.phases[v] == s.phases[v] && s'.counters[v] == s.counters[v];
    assert s'.counters == s.counters || s'.version == s.version + 1;
    hide Step;
  }

  lemma StepKeepsWriter(s: State, w: nat, c: Choice, s': State)
    requires Shaped(s) && WriterRecent(s) && Step(s, w, c) == Some(s')
    ensures WriterRecent(s')
  {
  }

  lemma StepKeepsInv(s: State, w: nat, c: Choice, s': State)
    requires Inv(s) && Step(s, w, c) == Some(s')
    ensures Inv(s')
  {
    hide Sum, Queued, Held, SumsFaithful, TasksConserved, CountersBalanced, WriterRecent;
    StepConservesTasks(s, w, c, s');
    StepBalances(s, w, c, s');
    StepKeepsSums(s, w, c, s');
    StepKeepsWriter(s, w, c, s');
  }

  lemma {:induction false} NothingHeld(phases: seq<Phase>, probe: Probe)
    requires forall w :: 0 <= w < |phases| ==> InHand(phases[w], probe) == 0
    ensures Held(phases, probe) == 0
  {
    if phases != [] { NothingHeld(phases[..|phases| - 1], probe); }
  }

  lemma {:induction false} QueuedZero(queues: seq<seq<Task>>, probe: Probe)
    ensures Queued(queues, probe) >= 0
    ensures Queued(queues, probe) == 0 <==> forall i :: 0 <= i < |queues| ==> InQueue(queues[i], probe) == 0
  {
    if queues != [] {
      var n := |queues| - 1;
      QueuedZero(queues[..n], probe);
      assert forall i :: 0 <= i < n ==> queues[..n][i] == queues[i];
    }
  }

  lemma {:induction false} QueuedBound(queues: seq<seq<Task>>)
    requires forall i :: 0 <= i < |queues| ==> |queues[i]| <= QUEUE_SIZE
    ensures Queued(queues, Size) <= |queues| * QUEUE_SIZE
  {
    if queues != [] { QueuedBound(queues[..|queues| - 1]); }
  }

  lemma {:induction false} QueueLengths(queues: seq<seq<Task>>, counters: seq<int>)
    requires |queues| == |counters|
    requires forall i :: 0 <= i < |queues| ==> counters[i] == |queues[i]|
    ensures Sum(counters) == Queued(queues, Size)
  {
    if queues != [] {
      var n := |queues| - 1;
      QueueLengths(queues[..n], counters[..n]);
    }
  }

  lemma InitInv(s: State)
    requires Init(s)
    ensures Inv(s)
  {
    hide Queued, Held, Sum;
    QueueLengths(s.queues, s.counters);
    forall probe ensures Held(s.phases, probe) == 0 { NothingHeld(s.phases, probe); }
  }

  lemma {:induction false} RunInv(run: seq<State>, k: nat)
    requires IsRun(run) && k < |run|
    ensures Inv(run[k])
  {
    hide Inv;
    if k == 0 {
      InitInv(run[0]);
    } else {
      RunInv(run, k - 1);
      var w, c :| Step(run[k - 1], w, c) == Some(run[k]);
      StepKeepsInv(run[k - 1], w, c, run[k]);
    }
  }

  /** The main theorem: whatever the interleaving, and although each worker leaves on a
      sum that is no snapshot, once all have left nothing is queued and every task ever
      added was handled exactly once. The worker that wrote a counter last began its last
      sum after that write, so that sum is exact. */
  lemma AllLeftAllDone(run: seq<State>, k: nat)
    requires IsRun(run) && k < |run|
    requires forall w :: 0 <= w < |run[k].phases| ==> run[k].phases[w].Left?
    ensures forall i :: 0 <= i < |run[k].queues| ==> run[k].queues[i] == []
    ensures forall t: Task :: multiset(run[k].done)[t] == if 0 <= t < run[k].added then 1 else 0
    ensures Sum(run[k].counters) == 0
  {
    hide Sum, Queued, Held;
    RunInv(run, k);
    var s := run[k];
    var last := if s.version == 0 then 0 else s.writer;
    assert s.phases[last].Left? && s.phases[last].start == s.version;
    forall probe ensures Held(s.phases, probe) == 0 { NothingHeld(s.phases, probe); }
    QueuedBound(s.queues);
    QueuedZero(s.queues, Size);
    forall t: Task ensures Queued(s.queues, Copies(t)) == 0 {
      QueuedZero(s.queues, Copies(t));
    }
  }

  /** Nothing is queued and no worker has a task or a count in its hands. */
  predicate Quiescent(s: State) {
    && (forall i :: 0 <= i < |s.queues| ==> s.queues[i] == [])
    && (forall w :: 0 <= w < |s.phases| ==>
         var p := s.phases[w]; p.Enter? || p.Summing? || p.PopOwn? || p.Offer? || p.Left?)
  }

  lemma QuiescentStable(s: State, w: nat, c: Choice, s': State)
    requires Shaped(s) && Quiescent(s) && Step(s, w, c) == Some(s')
    ensures Quiescent(s')
    ensures s'.(phases := s.phases) == s
  {
    assert s.phases[w].Enter? || s.phases[w].Summing? || s.phases[w].PopOwn? || s.phases[w].Offer?;
  }

  /** Nothing is queued, and whoever has a task in hand has just pushed another that it has
      not counted yet, and that was stolen and is done. */
  predicate NothingCounted(s: State) {
    && (forall i :: 0 <= i < |s.queues| ==> s.queues[i] == [])
    && (forall w :: 0 <= w < |s.phases| ==> InHand(s.phases[w], Size) == 0)
  }

  lemma {:induction false} HeldZero(phases: seq<Phase>)
    ensures 0 <= Held(phases, Size) <= |phases|
    ensures Held(phases, Size) == 0 <==> forall w :: 0 <= w < |phases| ==> InHand(phases[w], Size) == 0
  {
    if phases != [] {
      var n := |phases| - 1;
      HeldZero(phases[..n]);
      assert forall w :: 0 <= w < n ==> phases[..n][w] == phases[w];
    }
  }

  lemma SumIsZero(s: State)
    requires Inv(s)
    ensures 0 <= Sum(s.counters) < WORD
    ensures Sum(s.counters) == 0 <==> NothingCounted(s)
  {
    hide Held, Queued, Sum;
    HeldZero(s.phases);
    QueuedZero(s.queues, Size);
    QueuedBound(s.queues);
  }

  /** A worker at the end of a sum leaves exactly when the values that it read, at whatever
      moments, add up to zero in a machine word. */
  lemma LeavesIff(s: State, w: nat, c: Choice)
    requires Inv(s) && w < |s.phases| && s.phases[w].Summing? && s.phases[w].next == |s.counters|
    ensures var p := s.phases[w];
            Step(s, w, c) == Some(To(s, w, if Sum(p.read) % WORD == 0 then Left(p.start) else
                if p.steal then Offer else PopOwn))
  {
    hide Sum;
    assert Faithful(s.phases[w], s.counters[w], s.counters, s.version);
  }

  /** The worker has pushed a task that it has not counted yet. */
  predicate IsUncounted(p: Phase) { p.Pushed? || p.AddLoaded? }

  /** When a worker leaves, it leaves nothing behind exactly when what it read adds up to what
      the counters are now, and no task is pushed and not counted yet. */
  lemma LeavesNothing(s: State, w: nat)
    requires Inv(s) && w < |s.phases| && s.phases[w].Summing? && s.phases[w].next == |s.counters|
    requires Sum(s.phases[w].read) % WORD == 0
    ensures NothingCounted(s) <==> Sum(s.counters) % WORD == Sum(s.phases[w].read) % WORD
    ensures Quiescent(s) <==> NothingCounted(s) && forall v :: 0 <= v < |s.phases| ==> !IsUncounted(s.phases[v])
  {
    hide Held, Queued, Sum;
    SumIsZero(s);
    assert Sum(s.counters) % WORD == Sum(s.counters);
  }

  /** What a sum reads that was begun since the last write is what the counters are, so its
      worker leaves exactly when nothing that is counted is left; what it may leave behind is
      a task that was pushed and is not counted yet. */
  lemma CurrentSumLeaves(s: State, w: nat, c: Choice)
    requires Inv(s) && w < |s.phases| && s.phases[w].Summing? && s.phases[w].next == |s.counters|
    requires s.phases[w].start == s.version
    ensures s.phases[w].read == s.counters
    ensures Step(s, w, c) == Some(To(s, w, if NothingCounted(s) then Left(s.version) else
            if s.phases[w].steal then Offer else PopOwn))
    ensures NothingCounted(s) ==> (Quiescent(s) <==> forall v :: 0 <= v < |s.phases| ==> !IsUncounted(s.phases[v]))
  {
    hide Held, Queued, Sum;
    SumIsZero(s);
    assert Faithful(s.phases[w], s.counters[w], s.counters, s.version);
    assert s.counters[..|s.counters|] == s.counters;
  }

  // The run ends

  /** A single worker has nobody to steal from; it never comes to the point. */
  ghost predicate Alone(s: State)
    requires Shaped(s)
  {
    |s.phases| == 1 ==>
      match s.phases[0]
      case Enter(steal) => !steal
      case Summing(steal, _, _, _, _) => !steal
      case PopOwn => s.queues[0] != []
      case Offer => false
      case _ => true
  }

  lemma StepKeepsAlone(s: State, w: nat, c: Choice, s': State)
    requires Inv(s) && Alone(s) && Step(s, w, c) == Some(s')
    ensures Shaped(s') && Alone(s')
  {
    hide Held, Queued, Sum;
    if |s.phases| == 1 && s.phases[w].Summing? && s.phases[w].next == |s.counters| {
      assert Faithful(s.phases[w], s.counters[w], s.counters, s.version);
      CurrentSumLeaves(s, w, c);
      if s.phases[w].total != 0 { SumIsZero(s); }
    }
  }

  lemma {:induction false} RunAlone(run: seq<State>, k: nat)
    requires IsRun(run) && k < |run|
    ensures Alone(run[k])
  {
    hide Inv, Step;
    if k > 0 {
      RunAlone(run, k - 1);
      RunInv(run, k - 1);
      var w, c :| Step(run[k - 1], w, c) == Some(run[k]);
      StepKeepsAlone(run[k - 1], w, c, run[k]);
    }
  }

  /** Every worker that has not left can go on, at every point of every run. */
  lemma NobodyIsStuck(run: seq<State>, k: nat, w: nat)
    requires IsRun(run) && k < |run| && w < |run[k].phases|
    ensures (exists c :: Step(run[k], w, c).Some?) <==> !run[k].phases[w].Left?
  {
    RunAlone(run, k);
    if !run[k].phases[w].Left? {
      var c := if run[k].phases[w].Offer? then Victim(if w == 0 then 1 else 0) else Finish;
      assert Step(run[k], w, c).Some?;
    }
  }

  /** How many steps of its own a worker has at most, once nothing is queued or held, when
      there are `n` counters: a sum begun before the last write may send it around once more. */
  function StepsLeft(p: Phase, n: nat, version: nat): int {
    match p
    case Enter(_) => n + 2
    case Summing(_, next, _, start, _) => n + 1 - next + if start == version then 0 else n + 3
    case PopOwn => n + 3
    case Offer => n + 3
    case _ => 0
  }

  function AllStepsLeft(phases: seq<Phase>, n: nat, version: nat): int {
    if phases == [] then 0
    else AllStepsLeft(phases[..|phases| - 1], n, version) + StepsLeft(phases[|phases| - 1], n, version)
  }

  lemma {:induction false} StepsLeftUpdate(phases: seq<Phase>, i: nat, p: Phase, n: nat, version: nat)
    requires i < |phases|
    ensures AllStepsLeft(phases[i := p], n, version)
         == AllStepsLeft(phases, n, version) - StepsLeft(phases[i], n, version) + StepsLeft(p, n, version)
  {
    hide StepsLeft;
    var k := |phases| - 1;
    if i < k {
      StepsLeftUpdate(phases[..k], i, p, n, version);
      assert phases[i := p][..k] == phases[..k][i := p];
    } else {
      assert phases[i := p][..k] == phases[..k];
    }
  }

  lemma {:induction false} StepsLeftPositive(s: State, k: nat)
    requires Shaped(s) && SumsFaithful(s) && k <= |s.phases|
    ensures AllStepsLeft(s.phases[..k], |s.phases|, s.version) >= 0
  {
    if k > 0 {
      StepsLeftPositive(s, k - 1);
      assert s.phases[..k][..k - 1] == s.phases[..k - 1];
      assert Faithful(s.phases[k - 1], s.counters[k - 1], s.counters, s.version);
    }
  }

  lemma QuiescentGoesDown(s: State, w: nat, c: Choice, s': State)
    requires Inv(s) && Quiescent(s) && Step(s, w, c) == Some(s')
    ensures s'.version == s.version && |s'.phases| == |s.phases|
    ensures AllStepsLeft(s'.phases, |s.phases|, s.version) < AllStepsLeft(s.phases, |s.phases|, s.version)
  {
    hide AllStepsLeft;
    var p := s.phases[w];
    QuiescentStable(s, w, c, s');
    assert Faithful(p, s.counters[w], s.counters, s.version);
    if p.Summing? && p.next == |s.counters| && p.start == s.version { CurrentSumLeaves(s, w, c); }
    StepsLeftUpdate(s.phases, w, s'.phases[w], |s.phases|, s.version);
  }

  /** Once nothing is queued or held it stays so, no counter changes any more, and the run
      is over after so many more steps; then all workers have left. */
  lemma {:induction false} QuiescentRunEnds(run: seq<State>, k: nat, i: nat)
    requires IsRun(run) && k <= i < |run| && Quiescent(run[k])
    ensures Quiescent(run[i]) && run[i].(phases := run[k].phases) == run[k]
    ensures |run[i].phases| == |run[k].phases|
    ensures i - k + AllStepsLeft(run[i].phases, |run[i].phases|, run[i].version)
         <= AllStepsLeft(run[k].phases, |run[k].phases|, run[k].version)
    ensures i - k <= AllStepsLeft(run[k].phases, |run[k].phases|, run[k].version)
    decreases i
  {
    hide AllStepsLeft, Quiescent, Inv, Step;
    RunInv(run, i);
    if i > k {
      QuiescentRunEnds(run, k, i - 1);
      RunInv(run, i - 1);
      var w, c :| Step(run[i - 1], w, c) == Some(run[i]);
      QuiescentStable(run[i - 1], w, c, run[i]);
      QuiescentGoesDown(run[i - 1], w, c, run[i]);
    }
    assert SumsFaithful(run[i]) by { InvSums(run[i]); }
    StepsLeftPositive(run[i], |run[i].phases|);
    assert run[i].phases[..|run[i].phases|] == run[i].phases;
  }

  lemma InvSums(s: State)
    requires Inv(s)
    ensures Shaped(s) && SumsFaithful(s)
  {
  }

  // A single worker may leave too early

  function Last(run: seq<State>): State
    requires run != []
  {
    run[|run| - 1]
  }

  lemma Extend(run: seq<State>, w: nat, c: Choice) returns (longer: seq<State>)
    requires IsRun(run) && Shaped(Last(run)) && Step(Last(run), w, c).Some?
    ensures IsRun(longer) && longer != [] && Last(longer) == Step(Last(run), w, c).value
  {
    var s' := Step(Last(run), w, c).value;
    longer := run + [s'];
    assert CanStep(Last(run), s');
    forall i | 0 < i < |longer| ensures CanStep(longer[i - 1], longer[i]) {
      if i < |run| { assert longer[i - 1] == run[i - 1]; }
    }
  }

  /** One undisturbed sum over two counters. */
  lemma SumTwo(run: seq<State>, w: nat) returns (longer: seq<State>)
    requires IsRun(run) && Shaped(Last(run)) && |Last(run).phases| == 2 && w < 2 && Last(run).phases[w].Enter?
    ensures IsRun(longer) && longer != []
    ensures var s := Last(run);
            Last(longer) == To(s, w,
              if (s.counters[0] + s.counters[1]) % WORD == 0 then Left(s.version)
              else if s.phases[w].steal then Offer else PopOwn)
  {
    hide Init;
    longer := Extend(run, w, Finish);
    longer := Extend(longer, w, Finish);
    longer := Extend(longer, w, Finish);
    longer := Extend(longer, w, Finish);
  }

  lemma StartOfTwo() returns (run: seq<State>)
    ensures IsRun(run) && run != [] && Last(run) == State([[0], []], [1, 0], [Enter(false), Enter(false)], 1, [], 0, 0)
  {
    var s := State([[0], []], [1, 0], [Enter(false), Enter(false)], 1, [], 0, 0);
    forall t: Task ensures Queued(s.queues, Copies(t)) == if 0 <= t < 1 then 1 else 0 {
      assert s.queues[..1] == [[0]] && [[0]][..0] == [];
      assert Queued([[0]], Copies(t)) == multiset([0])[t];
    }
    run := [s];
  }

  lemma PushedUncounted() returns (run: seq<State>)
    ensures IsRun(run) && run != [] && Last(run) == State([[1], []], [1, 0], [Pushed(0), Enter(false)], 2, [], 0, 0)
  {
    hide Init, IsRun, Queued;
    run := StartOfTwo();
    run := SumTwo(run, 0);
    run := Extend(run, 0, Finish);
    assert Last(run).queues == [[], []] && Last(run).phases == [Handling(0), Enter(false)];
    var empty: seq<Task> := [];
    assert Last(run).queues[0] == empty && empty + [1] == [1];
    run := Extend(run, 0, Spawn);
    assert Last(run).queues == [[1], []] && Last(run).phases == [Pushed(0), Enter(false)];
  }

  /** The first worker still has an uncounted task; the second has stolen and finished it. */
  lemma StolenAndDone() returns (run: seq<State>)
    ensures IsRun(run) && run != [] && Last(run) == State([[], []], [1, -1], [Pushed(0), Enter(false)], 2, [1], 1, 1)
  {
    hide Init, IsRun, Queued;
    run := StealsLast();
    run := Extend(run, 1, Finish);
    run := Extend(run, 1, Finish);
    run := Extend(run, 1, Finish);
  }

  lemma StealsLast() returns (run: seq<State>)
    ensures IsRun(run) && run != [] && Last(run) == State([[], []], [1, 0], [Pushed(0), Handling(1)], 2, [], 0, 0)
  {
    hide Init, IsRun, Queued;
    run := PushedUncounted();
    run := SumTwo(run, 1);
    run := Extend(run, 1, Finish);
    run := SumTwo(run, 1);
    assert Last(run) == State([[1], []], [1, 0], [Pushed(0), Offer], 2, [], 0, 0);
    var single: seq<Task> := [1];
    assert Last(run).queues[0] == single && single[1..] == [];
    run := Extend(run, 1, Victim(0));
    assert Last(run).queues == [[], []] && Last(run).phases == [Pushed(0), Handling(1)];
  }

  /** With two workers: while the first has pushed a task it has not counted yet, the
      second steals that task, finishes it, and leaves; the first is still working. */
  lemma OneMayLeaveEarly() returns (run: seq<State>)
    ensures IsRun(run) && Last(run).phases == [Pushed(0), Left(1)] && Last(run).done == [1]
  {
    hide Init, IsRun, Queued;
    run := StolenAndDone();
    run := SumTwo(run, 1);
  }

  // The queues

  /** Who made a step, and what was chosen. */
  datatype Deed = Deed(worker: nat, choice: Choice)

  ghost predicate IsRunBy(run: seq<State>, deeds: seq<Deed>) {
    && IsRun(run) && |deeds| == |run| - 1
    && forall i :: 0 <= i < |deeds| ==> Step(run[i], deeds[i].worker, deeds[i].choice) == Some(run[i + 1])
  }

  /** The queue that a step of the worker turns to, its own or its victim's. */
  function TurnsTo(s: State, d: Deed): Option<nat> {
    if d.worker >= |s.phases| then None
    else if s.phases[d.worker].PopOwn? then Some(d.worker)
    else if s.phases[d.worker].Offer? && d.choice.Victim? && d.choice.id != d.worker then Some(d.choice.id)
    else None
  }

  /** What a step takes from queue `q`: what the worker that turned to it has in hand afterwards. */
  function TakenBy(s: State, d: Deed, s': State, q: nat): seq<Task> {
    if TurnsTo(s, d) == Some(q) && d.worker < |s'.phases| && s'.phases[d.worker].Handling?
    then [s'.phases[d.worker].task] else []
  }

  /** What a step pushes on queue `q`: the task spawned by the worker whose queue it is. */
  function PushedBy(s: State, d: Deed, s': State, q: nat): seq<Task> {
    if d.worker == q && s.added < s'.added then [s.added] else []
  }

  function Taken(run: seq<State>, deeds: seq<Deed>, q: nat, i: nat): seq<Task>
    requires i <= |deeds| == |run| - 1
  {
    if i == 0 then [] else Taken(run, deeds, q, i - 1) + TakenBy(run[i - 1], deeds[i - 1], run[i], q)
  }

  function PushedOn(run: seq<State>, deeds: seq<Deed>, q: nat, i: nat): seq<Task>
    requires i <= |deeds| == |run| - 1
  {
    if i == 0 then [] else PushedOn(run, deeds, q, i - 1) + PushedBy(run[i - 1], deeds[i - 1], run[i], q)
  }

  lemma StepOnQueue(s: State, d: Deed, s': State, q: nat)
    requires Shaped(s) && Shaped(s') && Step(s, d.worker, d.choice) == Some(s') && q < |s.queues|
    ensures |s'.queues| == |s.queues|
    ensures TakenBy(s, d, s', q) + s'.queues[q] == s.queues[q] + PushedBy(s, d, s', q)
  {
    var w := d.worker;
    assert s.queues[q] + [] == s.queues[q] && [] + s'.queues[q] == s'.queues[q];
    if TurnsTo(s, d) == Some(q) && s.queues[q] != [] { assert s.queues[q] == [s.queues[q][0]] + s.queues[q][1..]; }
  }

  /** Every queue is first in, first out, whoever takes from it: in every run, what has been taken
      and then what is still there is what was there at first and then what was pushed. */
  lemma {:induction false} QueuesAreFifo(run: seq<State>, deeds: seq<Deed>, q: nat, i: nat)
    requires IsRunBy(run, deeds) && i < |run| && q < |run[0].queues|
    ensures |run[i].queues| == |run[0].queues|
    ensures Taken(run, deeds, q, i) + run[i].queues[q] == run[0].queues[q] + PushedOn(run, deeds, q, i)
  {
    hide Init, Step, TakenBy, PushedBy;
    if i == 0 {
      assert [] + run[0].queues[q] == run[0].queues[q] + [];
    } else {
      QueuesAreFifo(run, deeds, q, i - 1);
      assert Step(run[i - 1], deeds[i - 1].worker, deeds[i - 1].choice) == Some(run[i - 1 + 1]);
      StepOnQueue(run[i - 1], deeds[i - 1], run[i], q);
      var taken, pushed := Taken(run, deeds, q, i - 1), PushedOn(run, deeds, q, i - 1);
      var more, last := TakenBy(run[i - 1], deeds[i - 1], run[i], q), PushedBy(run[i - 1], deeds[i - 1], run[i], q);
      assert taken + more + run[i].queues[q] == taken + (more + run[i].queues[q]);
      assert taken + (run[i - 1].queues[q] + last) == taken + run[i - 1].queues[q] + last;
      assert run[0].queues[q] + pushed + last == run[0].queues[q] + (pushed + last);
    }
  }

  /** A worker that turns to a queue comes away with a task exactly when there is one, and looks
      at the counters again when there is none. */
  lemma ComesAwayWith(s: State, d: Deed, s': State, q: nat)
    requires Shaped(s) && Step(s, d.worker, d.choice) == Some(s') && TurnsTo(s, d) == Some(q)
    ensures q < |s.queues| && d.worker < |s'.phases|
    ensures if s.queues[q] != [] then s'.phases[d.worker].Handling? else s'.phases[d.worker] == Enter(true)
  {
  }

  // A stale sum may leave counted tasks behind

  /** One undisturbed sum over three counters. */
  lemma SumThree(run: seq<State>, w: nat) returns (longer: seq<State>)
    requires IsRun(run) && Shaped(Last(run)) && |Last(run).phases| == 3 && w < 3 && Last(run).phases[w].Enter?
    ensures IsRun(longer) && longer != []
    ensures var s := Last(run);
            Last(longer) == To(s, w,
              if (s.counters[0] + s.counters[1] + s.counters[2]) % WORD == 0 then Left(s.version)
              else if s.phases[w].steal then Offer else PopOwn)
  {
    hide Init;
    longer := Extend(run, w, Finish);
    longer := Extend(longer, w, Finish);
    longer := Extend(longer, w, Finish);
    longer := Extend(longer, w, Finish);
    longer := Extend(longer, w, Finish);
  }

  lemma StartOfThree() returns (run: seq<State>)
    ensures IsRun(run) && run != []
    ensures Last(run) == State([[], [0], []], [0, 1, 0], [Enter(false), Enter(false), Enter(false)], 1, [], 0, 0)
  {
    var s := State([[], [0], []], [0, 1, 0], [Enter(false), Enter(false), Enter(false)], 1, [], 0, 0);
    forall t: Task ensures Queued(s.queues, Copies(t)) == if 0 <= t < 1 then 1 else 0 {
      assert s.queues[..2] == [[], [0]] && s.queues[..2][..1] == [[]] && s.queues[..2][..1][..0] == [];
      assert Queued([[]], Copies(t)) == 0 && Queued([[], [0]], Copies(t)) == multiset([0])[t];
    }
    run := [s];
  }

  /** A worker that finds its own queue empty and looks for a victim. */
  lemma GoesStealing(run: seq<State>, w: nat) returns (longer: seq<State>)
    requires IsRun(run) && Shaped(Last(run)) && |Last(run).phases| == 3 && w < 3 && Last(run).phases[w].Enter?
    requires !Last(run).phases[w].steal && Last(run).queues[w] == []
    requires (Last(run).counters[0] + Last(run).counters[1] + Last(run).counters[2]) % WORD != 0
    ensures IsRun(longer) && longer != [] && Last(longer) == To(Last(run), w, Offer)
  {
    hide Init, IsRun;
    longer := SumThree(run, w);
    longer := Extend(longer, w, Finish);
    longer := SumThree(longer, w);
  }

  /** The running task pushes another one and counts it. */
  lemma SpawnsOne(run: seq<State>, w: nat) returns (longer: seq<State>)
    requires IsRun(run) && Shaped(Last(run)) && w < |Last(run).phases| && Last(run).phases[w].Handling?
    requires |Last(run).queues[w]| < QUEUE_SIZE
    ensures IsRun(longer) && longer != []
    ensures var s := Last(run);
            Last(longer) == s.(queues := s.queues[w := s.queues[w] + [s.added]],
                counters := s.counters[w := s.counters[w] + 1],
                               added := s.added + 1, version := s.version + 1, writer := w)
  {
    hide Init;
    var s := Last(run);
    longer := Extend(run, w, Spawn);
    longer := Extend(longer, w, Finish);
    longer := Extend(longer, w, Finish);
    assert Last(longer).phases == s.phases;
  }

  /** The running task is finished and taken off the count. */
  lemma FinishesOne(run: seq<State>, w: nat) returns (longer: seq<State>)
    requires IsRun(run) && Shaped(Last(run)) && w < |Last(run).phases| && Last(run).phases[w].Handling?
    ensures IsRun(longer) && longer != []
    ensures var s := Last(run);
            Last(longer) == s.(counters := s.counters[w := s.counters[w] - 1], phases := s.phases[w := Enter(false)],
                               done := s.done + [s.phases[w].task], version := s.version + 1, writer := w)
  {
    hide Init, IsRun;
    longer := Extend(run, w, Finish);
    longer := Extend(longer, w, Finish);
    longer := Extend(longer, w, Finish);
  }

  /** The third worker has read the first counter; the first has then stolen the only task. */
  lemma FirstRead() returns (run: seq<State>)
    ensures IsRun(run) && run != []
    ensures Last(run) == State([[], [], []], [0, 1, 0],
                               [Handling(0), Enter(false), Summing(false, 1, 0, 0, [0])], 1, [], 0, 0)
  {
    hide Init, IsRun, Queued;
    run := StartOfThree();
    run := GoesStealing(run, 0);
    var single: seq<Task> := [0];
    assert Last(run).queues[1] == single && single[1..] == [];
    run := Extend(run, 0, Victim(1));
    run := Extend(run, 2, Finish);
    var none: seq<int> := [];
    assert none + [0] == [0];
    run := Extend(run, 2, Finish);
    assert Last(run).queues == [[], [], []];
    assert Last(run).phases == [Handling(0), Enter(false), Summing(false, 1, 0, 0, [0])];
  }

  /** That task has left two behind, and the second worker has done the first of them. */
  lemma TwoSpawnedOneDone() returns (run: seq<State>)
    ensures IsRun(run) && run != []
    ensures Last(run) == State([[2], [], []], [1, 0, 0],
                               [Enter(false), Enter(false), Summing(false, 1, 0, 0, [0])], 3, [0, 1], 4, 1)
  {
    hide Init, IsRun, Queued;
    run := FirstRead();
    run := SpawnsOne(run, 0);
    run := SpawnsOne(run, 0);
    var none: seq<Task> := [];
    assert none + [1] + [2] == [1, 2];
    run := FinishesOne(run, 0);
    assert none + [0] == [0];
    assert Last(run) == State([[1, 2], [], []], [1, 1, 0],
                              [Enter(false), Enter(false), Summing(false, 1, 0, 0, [0])], 3, [0], 3, 0);
    run := GoesStealing(run, 1);
    assert Last(run).queues[0][1..] == [2];
    run := Extend(run, 1, Victim(0));
    run := FinishesOne(run, 1);
    assert Last(run).queues == [[2], [], []] && Last(run).counters == [1, 0, 0];
  }

  /** With three workers: a sum that was begun before the last write reads zero everywhere,
      and its worker leaves, while a task is queued and counted. */
  lemma StaleSumLeavesEarly() returns (run: seq<State>)
    ensures IsRun(run) && run != []
    ensures Last(run) == State([[2], [], []], [1, 0, 0], [Enter(false), Enter(false), Left(0)], 3, [0, 1], 4, 1)
    ensures !NothingCounted(Last(run))
  {
    hide Init, IsRun, Queued;
    run := TwoSpawnedOneDone();
    run := Extend(run, 2, Finish);
    run := Extend(run, 2, Finish);
    run := Extend(run, 2, Finish);
    assert Last(run).phases == [Enter(false), Enter(false), Left(0)];
    assert |Last(run).queues[0]| == 1;
  }

  /** The per-thread counters, as an object: each thread writes its own, anybody sums. */
  class StatsCounter {
    var counters: array<int>

    constructor (size: nat)
      ensures fresh(counters) && counters.Length == size
      ensures forall i :: 0 <= i < size ==> counters[i] == 0
    {
      counters := new int[size](_ => 0);
    }

    method Add1(id: nat)
      requires id < counters.Length
      modifies counters
      ensures counters[..] == old(counters[..])[id := old(counters[id]) + 1]
    {
      var count := counters[id];
      counters[id] := count + 1;
    }

    method Sub1(id: nat)
      requires id < counters.Length
      modifies counters
      ensures counters[..] == old(counters[..])[id := old(counters[id]) - 1]
    {
      var count := counters[id];
      counters[id] := count - 1;
    }

    /** Read without interference, the total is the sum of the counters in a machine word. */
    method TotalIsZero() returns (zero: bool)
      ensures zero <==> Sum(counters[..]) % WORD == 0
    {
      var total := 0;
      for i := 0 to counters.Length
        invariant total == Sum(counters[..i]) % WORD
      {
        assert counters[..i + 1][..i] == counters[..i];
        total := (total + counters[i]) % WORD;
      }
      assert counters[..counters.Length] == counters[..];
      zero := total == 0;
    }
  }

  /** How many of the first `n` tasks worker `i` gets when they are dealt in turn. */
  function Share(n: nat, workers: nat, i: nat): nat
    requires 0 < workers
  {
    n / workers + if i < n % workers then 1 else 0
  }

  lemma ShareNext(n: nat, workers: nat, i: nat)
    requires i < workers
    ensures Share(n + 1, workers, i) == Share(n, workers, i) + if i == n % workers then 1 else 0
  {
    var k, r := n / workers, n % workers;
    assert n == k * workers + r;
    if r + 1 < workers {
      DivMod(n + 1, k, r + 1, workers);
    } else {
      assert n + 1 == (k + 1) * workers;
      DivMod(n + 1, k + 1, 0, workers);
    }
  }

  lemma Apart(k: nat, k': nat, workers: nat)
    requires k < k'
    ensures k * workers + workers <= k' * workers
  {
    assert k' * workers == k * workers + workers + (k' - k - 1) * workers;
  }

  lemma DivMod(n: nat, k: nat, r: nat, workers: nat)
    requires r < workers && n == k * workers + r
    ensures n / workers == k && n % workers == r
  {
    var k' := n / workers;
    assert n == k' * workers + n % workers;
    if k < k' { Apart(k, k', workers); }
    if k' < k { Apart(k', k, workers); }
  }

  lemma ShareBound(n: nat, workers: nat, i: nat, bound: nat)
    requires i < workers && n <= workers * bound
    ensures Share(n, workers, i) <= bound
  {
    var k, r := n / workers, n % workers;
    assert n == k * workers + r;
    if bound <= k {
      assert bound * workers <= k * workers;
      assert r == 0;
      DivMod(n, bound, 0, workers);
    }
  }

  /** The `c`-th task is where it is when they are dealt one by one in turn. */
  predicate InTurn(queues: seq<seq<Task>>, workers: nat, c: nat, t: Task)
    requires 0 < workers
  {
    var w, k := c % workers, c / workers;
    w < |queues| && k < |queues[w]| && queues[w][k] == t
  }

  lemma InTurnKept(queues: seq<seq<Task>>, workers: nat, c: nat, t: Task, index: nat, more: Task)
    requires 0 < workers && index < |queues| && InTurn(queues, workers, c, t)
    ensures InTurn(queues[index := queues[index] + [more]], workers, c, t)
  {
  }

  lemma InTurnNext(queues: seq<seq<Task>>, workers: nat, c: nat, t: Task)
    requires 0 < workers == |queues| && |queues[c % workers]| == Share(c, workers, c % workers)
    ensures var w := c % workers; InTurn(queues[w := queues[w] + [t]], workers, c, t)
  {
    assert Share(c, workers, c % workers) == c / workers;
  }

  /** The first `n` tasks have been dealt. */
  ghost predicate Dealt(queues: seq<seq<Task>>, loader: seq<Task>, workers: nat, n: nat) {
    && 0 < workers == |queues| && n <= |loader|
    && (forall i :: 0 <= i < workers ==> |queues[i]| == Share(n, workers, i))
    && (forall t: Task :: Queued(queues, Copies(t)) == multiset(loader[..n])[t])
    && (forall c :: 0 <= c < n ==> InTurn(queues, workers, c, loader[c]))
  }

  lemma DealtNone(queues: seq<seq<Task>>, loader: seq<Task>, workers: nat)
    requires 0 < workers == |queues| && forall i :: 0 <= i < workers ==> queues[i] == []
    ensures Dealt(queues, loader, workers, 0)
  {
    hide Share, Queued, InTurn;
    forall t: Task ensures Queued(queues, Copies(t)) == 0 { QueuedZero(queues, Copies(t)); }
    forall i | 0 <= i < workers ensures Share(0, workers, i) == 0 { ShareBound(0, workers, i, 0); }
  }

  lemma DealtNext(queues: seq<seq<Task>>, loader: seq<Task>, workers: nat, n: nat)
    requires Dealt(queues, loader, workers, n) && n < |loader|
    ensures n % workers < workers
    ensures var w := n % workers; Dealt(queues[w := queues[w] + [loader[n]]], loader, workers, n + 1)
  {
    hide Share, Queued, InTurn;
    var w := n % workers;
    var q := queues[w] + [loader[n]];
    forall t: Task ensures Queued(queues[w := q], Copies(t)) == multiset(loader[..n + 1])[t] {
      QueuedUpdate(queues, w, q, Copies(t));
      assert loader[..n + 1] == loader[..n] + [loader[n]];
    }
    forall i | 0 <= i < workers
      ensures Share(n + 1, workers, i) == Share(n, workers, i) + if i == w then 1 else 0
    {
      ShareNext(n, workers, i);
    }
    forall c | 0 <= c < n ensures InTurn(queues[w := q], workers, c, loader[c]) {
      InTurnKept(queues, workers, c, loader[c], w, loader[n]);
    }
    InTurnNext(queues, workers, n, loader[n]);
  }

  /** Deals the loader's tasks to the workers in turn and counts each for its worker. */
  method Deal(loader: seq<Task>, workers: nat) returns (queues: seq<seq<Task>>, counter: StatsCounter)
    requires 0 < workers && |loader| <= workers * QUEUE_SIZE && workers * (QUEUE_SIZE + 1) < WORD
    requires forall t: Task :: multiset(loader)[t] == if 0 <= t < |loader| then 1 else 0
    ensures fresh(counter) && fresh(counter.counters)
    ensures Init(State(queues, counter.counters[..], seq(workers, _ => Enter(false)), |loader|, [], 0, 0))
    ensures |queues| == workers && forall i :: 0 <= i < workers ==> |queues[i]| == Share(|loader|, workers, i)
    ensures forall c :: 0 <= c < |loader| ==> InTurn(queues, workers, c, loader[c])
  {
    hide Dealt, Queued, InTurn, Share;
    counter := new StatsCounter(workers);
    queues := seq(workers, _ => []);
    DealtNone(queues, loader, workers);
    for cursor := 0 to |loader|
      invariant fresh(counter) && fresh(counter.counters) && counter.counters.Length == workers == |queues|
      invariant forall i :: 0 <= i < workers ==> counter.counters[i] == |queues[i]|
      invariant Dealt(queues, loader, workers, cursor)
    {
      DealtNext(queues, loader, workers, cursor);
      var index := cursor % workers;
      queues := queues[index := queues[index] + [loader[cursor]]];
      counter.Add1(index);
    }
    DealtAll(queues, loader, workers);
  }

  lemma DealtAll(queues: seq<seq<Task>>, loader: seq<Task>, workers: nat)
    requires Dealt(queues, loader, workers, |loader|) && |loader| <= workers * QUEUE_SIZE
    ensures forall i :: 0 <= i < workers ==> |queues[i]| == Share(|loader|, workers, i) <= QUEUE_SIZE
    ensures forall t: Task :: Queued(queues, Copies(t)) == multiset(loader)[t]
    ensures forall c :: 0 <= c < |loader| ==> InTurn(queues, workers, c, loader[c])
  {
    hide Share, Queued, InTurn;
    assert loader[..|loader|] == loader;
    forall i | 0 <= i < workers ensures |queues[i]| <= QUEUE_SIZE { ShareBound(|loader|, workers, i, QUEUE_SIZE); }
  }
}
