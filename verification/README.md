# A verified model of inet-lisp

inet-lisp runs interaction nets. A Lisp-like source is compiled to a small stack machine,
which builds a graph of nodes joined by wires; when two principal ports meet and a rule is
defined for their nodes, the pair becomes a task, and any number of workers rewrite the net
task by task, stealing from each other. This project models that machinery in Dafny and
proves what it promises.

The main results, each for all programs, all runs and all interleavings:

- **Order does not matter** (`Confluence`, `Completion`, `Commutation`). Workers take tasks
  in any order and interleave their opcodes and compare-and-swaps in any way. All complete
  runs end in the same net, with the same values at the same ports, the same ends connected,
  after the same interactions. If one run completes, every run is bounded and none gets
  stuck, so every run completes. Any two ways of running the same tasks commute. Names stand
  for origin (the redex and the number of the allocation), so "the same" is equality.
- **The parallel run is safe** (`WorkStealing`). When all workers have left their loops nothing
  is queued and every task was handled exactly once, although each worker leaves on a sum of
  counters that is no snapshot. A single one leaves exactly when the values that it read, at
  whatever moments, add up to zero, which may be early: what it leaves behind then is said
  exactly, and a run shows each of the two ways, a task pushed and not yet counted, and a sum
  that was out of date. Nobody is ever stuck, and once nothing is left to do all leave.
- **Wires are linear** (`Wires`, `NetEnds`, `NetCounts`, `NetSteps`, `Linearity`, `Ownership`,
  `Partners`, `ActivePairs`, `Building`). `connect` joins what is at the far ends and nothing
  else; at every point of every run a live wire has exactly two ends, one once it is fuzed,
  and all of them are at ports, in jobs or in wires until a frame is dropped with a full
  variable; what two workers have in hand is disjoint and live; ports that meet belong to
  nodes that are still there; no port is joined to two other nodes.
- **The compiler is correct and tail calls are harmless** (`CompilerCorrect`, `TailCall`,
  `RuleMeaning`, `Applying`, `Calling`). Compiled code comes to rest in a state exactly when the
  source evaluates to it; the machine with proper tail calls and the one without come to the
  same ends; the body of a rule runs with each pattern variable bound to the value at its port.
  What applying a value does is said of the stack and the effects alone: which argument goes to
  which port, what comes back and in which order; and of compiled functions by what they
  return.
- **The net means what the source says** (`NetMeaning`). At every point of every run the net is
  exactly the effects of its jobs, and the effects of a job that is done are those of its
  rule's body evaluated from the source.
- **What is read is what is written** (`LexLaws`, `ParseLaws`, `SexpExact`). Each kind of text
  reads as it should, literal by literal; parsing is the only way to take the tokens to trees;
  and printed trees come back exactly when they can.
- **The structures underneath keep their word** (`RingQueue`, `HashTable`, `Traversal`,
  `Allocator`, `NodeLock`, `PrimitiveArgs`, `Path`).

How the parts fit: `Values` names what is allocated; `Wires` is the heap of wires and one
compare-and-swap on it; `Machine` executes opcodes and records what they do to the net as
effects, since no opcode looks at the net; `Interaction` is the state machine of nodes, tasks
and jobs, one opcode or one compare-and-swap a step; `NetInvariant` says what holds between
any two steps and `NetEnds`, `NetCounts` and `NetSteps` prove it. Where the program updates
things in place there are classes with the program's fields whose methods are proved against
these functions: `WireStore`, `WorkerObject`, `SequentialWorker`, `FunctionBuilder`,
`QueueClass`, `AllocatorClass`, and the classes of `HashTable`, `Lexing`, `Sexp`, `Traversal`,
`RulePattern`, `Path` and `WorkStealing`. Concurrency is sequentially consistent interleaving
of single shared accesses; variables that exist only for the proof are called history
variables where they are declared.

## Model

| member | source | states |
|---|---|---|
| WorkStealing.AllLeftAllDone | src/core/worker_work_parallelly.c:13-48 | In every interleaving of any number of workers, once all have left their loops every queue is empty, every task ever added was handled exactly once, and the counters add up to zero. |
| WorkStealing.OneMayLeaveEarly | src/core/worker_work_parallelly.c:30-48 | The same is false of a single worker: a run of two in which one leaves while the other has pushed a task and not counted it yet. |
| WorkStealing.StepConservesTasks | src/core/worker_add_task.c:3-10 | Each task is in exactly one queue, in the hands of exactly one worker, or done, once; every step keeps that. |
| WorkStealing.StepBalances | src/packages/std/counter/stats_counter.c:35-47 | The true sum of the counters stays queued plus taken-and-not-yet-subtracted, whichever of the loads, stores, pushes and pops comes next. |
| WorkStealing.StepKeepsInv | src/core/worker_work_parallelly.c:13-48 | Every step keeps the whole invariant, among it that a sum begun after the last counter write is the sum of the counters as they are, and that the last writer has begun its sum since. |
| WorkStealing.QuiescentRunEnds | src/core/worker_work_parallelly.c:13-48 | Once nothing is queued or held it stays so, no queue and no counter changes any more, and the run is over after a number of steps that is known then. |
| WorkStealing.NobodyIsStuck | src/core/worker_work_parallelly.c:13-48 | At every point of every run a worker can go on exactly when it has not left its loop; a single worker never comes to look for a victim. |
| WorkStealing.SumIsZero | src/packages/std/counter/stats_counter.c:49-64 | The counters add up to zero exactly when nothing is queued and no worker holds a task, but for workers that have pushed one they have not counted yet. |
| WorkStealing.CurrentSumLeaves | src/core/worker_work_parallelly.c:30-48 | A sum begun after the last counter write has read the counters as they are: its worker leaves exactly when nothing counted is queued or held, and then all is really done exactly when no worker has a task pushed and not yet counted. |
| WorkStealing.LeavesIff | src/packages/std/counter/stats_counter.c:49-64 | Whatever was written meanwhile, a worker leaves exactly when the values that it read add up to zero in a machine word; otherwise it goes on to steal or to its own queue. |
| WorkStealing.LeavesNothing | src/core/worker_work_parallelly.c:30-48 | A worker that leaves leaves no counted task behind exactly when what it read adds up to what the counters are now; all is really done exactly when moreover no task is pushed and not yet counted. |
| WorkStealing.StaleSumLeavesEarly | src/core/worker_work_parallelly.c:30-48 | A run of three workers in which one leaves on values that are out of date while a counted task is queued: without the condition on the sum the result above is false. |
| WorkStealing.Deal | src/core/worker_work_parallelly.c:50-61 | Dealing the loader's tasks in turn puts the c-th task where its turn is, and establishes the start of a run: each task in one queue, each counter equal to the length of its queue, the shares as even as can be. |
| WorkStealing.QueuesAreFifo | src/core/worker_offer_task.c:3-9 | In every run each queue is first in, first out, whoever takes from it: what its worker and the others have taken, then what is still there, is what was there at first, then what was pushed on it. |
| WorkStealing.ComesAwayWith | src/core/worker_work_parallelly.c:13-48 | A worker that turns to its own queue or to a victim's comes away with a task exactly when there is one; otherwise it looks at the counters again. |
| WorkStealing.StatsCounter.TotalIsZero | src/packages/std/counter/stats_counter.c:49-64 | Read without interference, the loop says zero exactly when the counters add up to zero in a machine word. |
| WorkStealing.StatsCounter.Add1 | src/packages/std/counter/stats_counter.c:35-40 | Adds one to the thread's own counter and touches no other. |
| WorkStealing.StatsCounter.Sub1 | src/packages/std/counter/stats_counter.c:42-47 | Takes one from the thread's own counter and touches no other. |
| RingQueue.AlwaysFifo | src/packages/std/queue/queue.c:111-174 | Under every interleaving of one producer and consumers that take turns by the lock: popped values are a prefix of pushed values, at most the size behind, the cached copies are in order with the cursors, and one consumer at most is inside. |
| RingQueue.StepKeeps | src/packages/std/queue/queue.c:146-174 | Every step of push and pop keeps the invariant, with cursors wrapping at 2^64. |
| RingQueue.StepActsAsQueue | src/packages/std/queue/queue.c:146-174 | Seen from outside, each step appends one value, takes the oldest, or changes nothing: the operations are atomic. |
| RingQueue.PushGivesUpWhenFull | src/packages/std/queue/queue.c:146-154 | A push fails exactly when the queue is full at the moment it reloads the front cursor. |
| RingQueue.PopGivesUpWhenEmpty | src/packages/std/queue/queue.c:161-169 | A pop fails exactly when the queue is empty at the moment it reloads the back cursor. |
| RingQueue.WriterApart | src/packages/std/queue/queue.c:111-119 | The slot being written is neither one still to be read nor the one being read. |
| RingQueue.ConsumerLock | src/packages/std/lock/fast_spinlock.h:10-41 | Load, exchange and store of the test-and-set lock keep one holder at most, and the flag set exactly while there is one. |
| Bits.AndMask | src/packages/std/queue/queue.c:111-114 | Masking a cursor with a power of two less one is its remainder. |
| Bits.PowerTest | src/packages/std/queue/queue.c:39-42 | The test `n & (n - 1) == 0` passes exactly the powers of two. |
| Bits.WrapKeepsIndex | src/packages/std/queue/queue.c:111-119 | Since the size divides 2^64, a cursor that has wrapped still indexes the same slot. |
| QueueClass.Queue.PushBack | src/packages/std/queue/queue.c:146-159 | Appends and succeeds unless the queue is full, in place, with the cached cursor. |
| QueueClass.Queue.PopFront | src/packages/std/queue/queue.c:161-174 | Gives and removes the oldest value unless the queue is empty. |
| QueueClass.Queue.constructor | src/packages/std/queue/queue.c:44-59 | Any size that passes the program's own test gives an empty, valid queue. |
| Wires.AdvanceBalances | src/core/connect.c:40-61 | One compare-and-swap takes from each value as many outstanding ends as it takes from its capacity: a wire is stored into once, and freed exactly when its second end arrives. |
| Wires.AdvanceLinear | src/core/connect.c:40-61 | With exact counts before, the counts are exact after: two ends of a live wire, one once it is fuzed. |
| Wires.AdvanceValid | src/core/connect.c:40-99 | Until the last step of its connect the pair in hand stays in the same two classes; the last step merges the two classes and no others. |
| Wires.ConnectValid | src/core/connect.c:40-99 | However long the chains, a whole connect merges exactly the two classes. |
| Wires.ConnectJoinsFarEnds | src/core/connect.c:40-99 | Afterwards two readable ends are connected exactly if they were, or one was connected to the left and the other to the right. |
| Wires.ConnectMeets | src/core/connect.c:79-99 | Two values meet exactly when there is one at the far end of either side; of the two, the one behind a wire on the right comes first, otherwise the one on the left. |
| Wires.WalkArrives | src/net/wire.c:28-39 | From an outstanding end the walk stays within its class and arrives at what can still be joined; it passes no wire twice. |
| Wires.ConnectedIffTogether | src/net/wire.c:65-77 | What the program reads as connected is what the wiring puts together. |
| Wires.MergeCommutes | src/core/connect.c:40-99 | Joins commute on the wiring. |
| Wires.BatchRuns | src/core/connect.c:40-61 | Any interleaving of a batch of connects ends within a bound and does all the joins of the batch. |
| Wires.BatchOrderIrrelevant | src/core/connect.c:40-99 | Two interleavings of a batch, run to the end, read the same everywhere. |
| Wires.BirthValid | src/prelude/net.c:14-20 | A new wire has both its ends outstanding, a new principal port its one. |
| WireStore.Store.Connect | src/core/connect.c:79-99 | The two mutually recursive operations, in place, do the sequence of compare-and-swaps and end. |
| WireStore.Store.Walk | src/net/wire.c:28-39 | The reading loop ends and returns the far end. |
| NetEnds.ConstructBuilds | src/core/worker_reconnect_node.c:3-31 | Building a node leaves each principal port with its own principal wire and no principal wire at any other port, and gives everything a name of its own. |
| NetEnds.ConstructConserves | src/core/worker_reconnect_node.c:3-66 | What building leaves on the stack, at the ports and to be joined is what it found, plus two ends for each new wire and one for each principal port. |
| NetEnds.StepConserves | src/core/worker_run_until.c:3-61 | No opcode copies a wire end; it has one effect on the net at most, freshly named. |
| NetCounts.HandIsHeld | src/core/connect.c:79-99 | The pair a worker is about to join is outstanding. |
| NetSteps.BeginKeeps | src/core/worker_handle_task.c:3-17 | Taking two nodes apart keeps the invariant of the net: the nodes are there, different, and in no other task. |
| NetSteps.ComputeKeeps | src/core/worker_run_until.c:3-61 | Executing one opcode of any job keeps it. |
| NetSteps.MoveKeeps | src/core/connect.c:40-99 | One compare-and-swap of any job keeps it: the pair in hand is advanced, and what was found goes to the tasks. |
| ActivePairs.MeetingMakesOneTask | src/core/connect.c:16-38 | Two principal ports that meet belong to two nodes neither of which has been taken apart; they make exactly one task, for these nodes, when a rule is defined for their constructors, with the node of the left port first if these are the same, and none when there is no rule; nothing else makes a task. |
| ActivePairs.TakenHasMet | src/core/worker_disconnect_node.c:24-40 | A node is taken apart only after its principal port has met another. |
| ActivePairs.MoveNeedsEndsOnly | src/core/connect.c:79-99 | Whether a compare-and-swap can be made depends on no history variable, only on there being a pair of ends in hand. |
| Building.BuilderFindsOneTask | src/core/worker_reconnect_node.c:57-66 | While an ordinary node is being built, and stays, as its lock makes sure, the joins of its ports find one task at most, whatever the other workers do in between: what the code asserts. |
| Linearity.RunLinear | src/core/connect.c:40-61 | At every point of every run each live wire has exactly two outstanding ends, or one once it is fuzed, and a freed one has none. |
| Linearity.EndsAreSomewhere | src/core/frame.c:84-110 | What is outstanding of any end is at ports and in jobs, all of it exactly as long as no frame has been dropped with a variable that holds it. |
| Linearity.WiresHaveTheirEnds | src/net/wire.c:28-39 | So in programs that drop no full variable the two ends of a live wire, or the one of a fuzed wire, are really at ports, in jobs and in wires. |
| NetSteps.RunKeeps | src/core/worker_handle_task.c:3-17 | The invariant holds at every point of every run. |
| NetSteps.TaskIsFresh | src/core/connect.c:16-38 | The two nodes of a task are different, and no job was ever begun for either of them: they have never been taken apart. |
| Ownership.HandsAreDisjoint | src/core/connect.c:40-61 | Two workers that bring ends at the same moment bring different ends. |
| Ownership.HandsAreLive | src/core/connect.c:40-61 | At every point of every run, with one worker or many, a wire in a worker's hand has not been freed. |
| Ownership.FullWiresAreExclusive | src/core/connect.c:40-61 | While a wire is full, which is when the worker that has it in hand frees it next, no other worker has it in hand: nobody touches it afterwards. |
| Partners.EndsOfOne | src/net/wire.c:28-39 | Ends that walk to one wire are two at most, to any other value one. |
| Partners.PortsHaveOnePartner | src/net/node_neighbor.c:3-24 | At every point of every run no port is joined to ports of two other nodes. |
| Confluence.CompleteRunsAgree | docs/articles/programming-with-interaction-nets.md:326-339 | Any two complete runs of a program come to the same nodes, the same interactions, the same stack of the loader, and the same ends connected. |
| Confluence.RunWithin | src/core/worker_handle_task.c:3-17 | What any run has made at any point, every complete run has made. |
| Confluence.NoRunDoesMore | docs/articles/programming-with-interaction-nets.md:326-339 | No run does an interaction that a complete run does not do. |
| Confluence.OrientationFollowsArrival | src/core/connect.c:3-14 | Which of two ports came first decides the order of a task's nodes exactly when their constructors are equal. |
| Annihilation.AnnihilationIsSymmetric | src/core/connect.c:3-14 | Programs whose rules between equal constructors, of any number of ports, join what is behind each port of the one to what is behind the same port of the other meet the condition of the results above. |
| Annihilation.BodyIsCompiled | src/lang/define.c:15-47 | For all distinct names, that code is what the compiler makes of a rule whose body connects the two names of each port. |
| Completion.EveryRunCompletes | docs/articles/programming-with-interaction-nets.md:326-339 | Once one run completes, every run is bounded, and at every point is complete or can go on. |
| Completion.NotStuck | src/core/worker_handle_task.c:3-17 | While a run is not complete some worker can make a step. |
| Completion.ActLess | src/core/connect.c:40-61 | Every step, of any worker, leaves less to do; going on from a full wire frees it. |
| Commutation.TasksCommute | src/core/worker_handle_task.c:3-17 | Any two ways of running the same queued tasks to their ends come to the same nodes, wiring and connections, to equal jobs, and leave the same tasks, up to the order of two nodes of one constructor. |
| Commutation.EveryOrderEnds | src/core/worker_handle_task.c:3-17 | If the tasks can be run to their ends in one way, then in whatever order they are run it takes a bounded number of steps, and there is a next step until all are done. |
| NetMeaning.NetIsItsEffects | src/core/worker_run_until.c:31-61 | At every point of every run all effects of the courses that the jobs have gone have happened to the net, with the joins done; every node and value was made by one of these effects, and no two ends are together but by these joins. |
| NetMeaning.FiredRuleDoesItsBody | src/core/worker_handle_task.c:3-17 | When the job of a fired rule is done, the rule's body evaluates from the source, each pattern variable bound to the value at its port; the evaluation leaves the job's stack, and its effects are exactly the job's, which have all happened to the net with their joins done. |
| SequentialWorker.Worker.WorkSequentially | src/core/worker_work_sequentially.c:3-11 | The single worker comes to an end if any run does, and to the net that any workers come to. |
| SequentialWorker.Worker.HandleJob | src/core/worker_handle_task.c:3-17 | Runs one job until it is done and touches no other. |
| TailCall.TailCallsPreserveMeaning | src/core/worker_run_until.c:31-61 | The machine that drops finished frames and the one that keeps them come to rest in the same states and fail on the same inputs. |
| TailCall.TailCallsRunInOneFrame | src/core/worker_run_until.c:45-50 | With proper tail calls a chain of last-position applications never deepens the return stack. |
| TailCall.KeptFramesPileUp | src/core/worker_run_until.c:43-44 | Without them, in any program and from any state, as long as nothing returns every function that is applied makes the return stack deeper by one. |
| TailCall.LoopPilesUp | src/core/worker_run_until.c:43-44 | Such chains have no end: a function that applies itself last is one frame deeper with every call. |
| Applying.ApplyMakesNode | src/core/worker_apply.c:3-39 | Applying a constructor, or a primitive with a node, to n arguments above anything succeeds exactly when it is defined and has n ports at least; argument k is at port k or to be joined to what is there, from the last to the first, and nothing else is joined; what is below stays, and the values of the other ports come on top, first to last. |
| Applying.ConstructAttaches | src/core/worker_reconnect_node.c:3-80 | The same of building a node: principal ports get principal wires of the node's own, an argument that is a principal wire is met by a new wire, and each output port by a new wire that is pushed. |
| Applying.ApplyCallsFunction | src/core/worker_apply.c:8-20 | Applying a function starts its code with no variable bound, on the stack as it is, exactly when the number of arguments is its own. |
| Applying.ApplyJoins | src/prelude/net.c:3-20 | `link` pushes both ends of one new wire; `connect` takes the two values on top, in order, which are to be joined; other numbers of arguments fail. |
| Calling.SelectsItsArgument | src/lang/compile.c:37-57 | A function whose body is its k-th parameter returns its k-th argument, whatever the name means globally, and leaves what is below alone. |
| Calling.PassesItsArguments | src/lang/compile.c:59-76 | A function that applies another to any of its parameters, in any order, does what the other does on the arguments at their places, and nothing when that takes another number. |
| Calling.RunsInTurn | src/lang/compile.c:78-82 | A function that names what one function returns and applies another to the names runs the one and then the other: names take results in order. |
| Calling.RepeatedParameter | src/core/frame.c:97-110 | A function with two parameters of one name cannot be called. |
| Calling.CompilesWhenDefined | src/lang/compile.c:46-68 | An expression compiles if every name that it reads is local or global, and only if each is that or is stored into by the expression itself. |
| CompilerCorrect.CompiledFunctionMeansItsBody | src/lang/compile.c:59-94 | For every function of every module: the machine comes to rest in a state exactly when the body evaluates to that state with linear variables, with proper tail calls or without. |
| CompilerCorrect.ExpRuns | src/lang/compile.c:59-94 | The code of an expression, wherever it stands, takes the machine to what the expression evaluates to: values, variables and effects. |
| CompilerCorrect.ExpEvals | src/lang/compile.c:59-94 | If the machine comes to rest through the code of an expression, the expression evaluates. |
| CompilerCorrect.SetsRun | src/lang/compile.c:17-26 | Storing a list of names binds the last to the top of the stack, and fails exactly when a name is full or the stack too short. |
| FunctionBuilder.Builder.CompileExp | src/lang/compile.c:59-94 | The compiler that appends opcodes and fills the index table in place emits the specified code, or fails on an undefined name. |
| FunctionBuilder.Builder.CompileSetVariableList | src/lang/compile.c:17-26 | From the last name to the first, reusing the index of a name that has one. |
| FunctionBuilder.Builder.CompileExpList | src/lang/compile.c:28-35 | Compiles a list in order. |
| FunctionBuilder.CompileDefinition | src/lang/execute.c:111-119 | A definition is compiled as its parameters stored from the stack, then its body. |
| WorkerObject.Worker.RunOneStep | src/core/worker_run_until.c:31-61 | One step on frame objects updated in place does what the machine does on values, for both settings of tail calls, and fails when it does. |
| WorkerObject.Worker.RunUntil | src/core/worker_run_until.c:79-96 | The loop runs until the return stack is down to any given base, to the end that the machine has on the frames above, and leaves those below alone. |
| WorkerObject.Worker.ExecuteOpcode | src/core/worker_run_until.c:3-29 | Each opcode, on a frame that is on the stack or has been dropped. |
| WorkerObject.Worker.Apply | src/core/worker_apply.c:3-39 | Applying a constructor, a function or a primitive; wrong arities and unknown targets fail. |
| WorkerObject.Worker.ReconnectNode | src/core/worker_reconnect_node.c:34-80 | The loops that pop inputs and push outputs build the specified node and leave the specified stack. |
| WorkerObject.Worker.DisconnectNode | src/core/worker_disconnect_node.c:27-41 | Pushes the values of all ports but the principal ones, in order. |
| WorkerObject.Worker.HandleActivePair | src/core/worker_handle_task.c:3-17 | Above whatever is on the two stacks, takes the left node apart, then the right, and runs the rule's body on what was at their ports; a body that is content with these values leaves those below alone. |
| WorkerObject.FrameObject.GetVariable | src/core/frame.c:84-95 | Reading a variable empties it; an empty one fails. |
| WorkerObject.FrameObject.SetVariable | src/core/frame.c:97-110 | Storing into a full variable fails. |
| RulePattern.TranslateTree | src/lang/execute.c:91-99 | The loops and recursion over a nested pattern give the specified list. |
| RulePattern.FlattenPair | src/lang/execute.c:54-99 | A pattern of two nodes becomes the outer node, with a principal port where the inner one was, and the inner node, with a principal port at its end; the names keep their places. |
| RulePattern.TwoNodes | src/lang/define.c:17 | A pattern passes the check for two node patterns exactly when it is of two nodes. |
| RulePattern.CollectLocalNames | src/lang/define.c:21-35 | The parameters are the names of the left pattern's other ports, then the right's. |
| RulePattern.LocalNamesEnd | src/lang/define.c:21-35 | A name that ends in an exclamation mark is left out, any other is kept in its place. |
| RulePattern.DefineNode | src/lang/define.c:49-65 | A port of a constructor is principal exactly when its name ends in an exclamation mark. |
| RuleMeaning.FitsDefinition | src/lang/execute.c:3-34 | A pattern fits a constructor exactly when it has a name for each port and marks those that are marked in the definition, so that it fits with the definition's own names. |
| RulePattern.FindsFirst | src/core/connect.c:21-35 | The rule that is found is the first one defined between the two constructors, in either order, and there is none only if none is defined. |
| RulePattern.DefineRule | src/lang/define.c:8-13 | A rule is added to the arrays of both constructors, which may be one. |
| RulePattern.ConnectActivePair | src/core/connect.c:16-38 | Scanning the rules of the left constructor, then of the right, finds the first rule defined for the two, in either order. |
| RulePattern.OwnRulesSuffice | src/core/connect.c:21-35 | Either array alone holds every rule that could match. |
| RuleMeaning.RuleMeansItsBody | src/lang/define.c:15-47 | When a rule fires, from the moment its nodes are taken apart, the machine comes to rest in a state exactly when the body evaluates to it with each pattern variable bound to the value at its port, whichever node came first. |
| RuleMeaning.TaskFits | src/core/connect.c:3-14 | The nodes of a task are in the order of the rule's constructors; if these differ, the task is the same whichever port came first, and if they are one, the node of the left port is on the left. |
| RuleMeaning.LocalAt | src/core/worker_disconnect_node.c:27-38 | The name and the value of a port come at the same place. |
| Traversal.ConnectedNodeArray | src/net/connected_node_iter.c:57-70 | Returns each node reachable from the root exactly once and nothing else, and ends on cyclic nets; from the root on each next node is found at the last port, of the last node before, that leads to one not yet returned. |
| Traversal.ConnectedNodeIter.Next | src/net/connected_node_iter.c:45-55 | Gives the next node depth first, which has not occurred yet, or nothing when none is pending. |
| Traversal.ConnectedNodeIter.TakeNode | src/net/connected_node_iter.c:26-37 | Marks the node and pends the nodes at the other ends of its ports. |
| Neighborhood.BuildTables | src/net/node_neighborhood.c:102-121 | The tables are closed, every entry is a node joined at that port, and if no port is joined to two nodes, the entries are exactly the nodes joined. |
| Neighborhood.FindPort | src/net/node_neighbor.c:3-24 | The first port of the one node that is joined to some port of the other. |
| PrimitiveArgs.ExactlyOneTask | src/core/connect.c:63-77 | Over every order and interleaving of its arguments a primitive node makes one task at most, exactly when all have arrived, and with every argument at its port. |
| PrimitiveArgs.BuilderFindsAtMostOne | src/core/worker_reconnect_node.c:57-66 | So whoever brings several of the arguments of a primitive node finds one task at most; Building says it of ordinary nodes. |
| PrimitiveArgs.PrincipalPortCount | src/net/node_ctor.c:68-79 | The loop counts the principal ports. |
| NodeLock.TakenApartComplete | src/core/worker_disconnect_node.c:24-40 | In every interleaving a node is taken apart only when its builder has set every port, and by a worker that alone holds its lock. |
| NodeLock.NoDeadlock | src/core/worker_reconnect_node.c:34-80 | Locks never nest, so a worker that has begun can go on, or the holder of the lock it waits for can. |
| NodeLock.NodesComeAndGo | src/core/worker_handle_task.c:10-11 | A node is there from the moment it is applied until the worker that popped its task has read it and releases it; each worker takes the two nodes of its task apart, the left one first, and no others. |
| NodeLock.StepKeeps | src/core/worker_reconnect_node.c:54-75 | Every step of building, meeting and taking apart keeps the invariant behind this. |
| HashTable.Hash.Set | src/packages/std/hash/hash.c:285-291 | Adds a key that is not there, rehashing first if overloaded, and leaves a key that is. |
| HashTable.Hash.Put | src/packages/std/hash/hash.c:293-308 | Binds the key, there or not. |
| HashTable.Hash.Get | src/packages/std/hash/hash.c:206-212 | The value of the key, if there is one. |
| HashTable.Hash.Delete | src/packages/std/hash/hash.c:269-276 | Removes the key and says whether it was there. |
| HashTable.Hash.DeleteEntry | src/packages/std/hash/hash.c:244-267 | Takes the entry out of its chain. The count of used buckets is, at every point, the number of used buckets less the number of entries deleted since the last rehash that were the first of a chain that went on, in a machine word. |
| HashTable.Hash.Rehash | src/packages/std/hash/hash.c:139-174 | Keeps the map, and clears both overload tests at once. |
| HashTable.Hash.Purge | src/packages/std/hash/hash.c:127-132 | Empties the table and shrinks it. |
| HashTable.Hash.ValueList | src/packages/std/hash/hash.c:345-355 | On an unchanged table iteration visits every entry exactly once. |
| HashTable.RehashClears | src/packages/std/hash/hash_primes.h:5-66 | What fills one size up to its bound is below both bounds of the next. |
| HashTable.BoundsAre | src/packages/std/hash/hash.c:278-283 | The two overload tests are at three quarters of the size for entries and at half of it for used buckets. |
| HashTable.RepresentsInsert | src/packages/std/hash/hash.c:217-242 | A new entry in front of its chain is the map with one more binding. |
| HashTable.RepresentsDelete | src/packages/std/hash/hash.c:244-267 | An entry taken out of its chain is the map without its key. |
| Lexing.StepAdvances | src/packages/std/lexer/lexer.c:255-263 | Every step of the tokeniser that does not stop the program moves the cursor forward. |
| Lexing.TextIsSliceUnlessEscaped | src/packages/std/lexer/lexer.c:201-218 | The positions of a string are right exactly when there is no escape in it. |
| Lexing.TokenIsSlice | src/packages/std/lexer/lexer.c:225-253 | The text of every other token is what the source has between its positions. |
| LexLaws.CommentIsSkipped | src/packages/std/lexer/lexer.c:109-131 | A comment goes to the end of its line, and the source goes on after it as if it began there; a comment on the last line ends the source. |
| LexLaws.SpaceIsSkipped | src/packages/std/lexer/lexer.c:90-107 | Each of the six space characters is skipped. |
| LexLaws.ParenthesisIsToken | src/packages/std/lexer/lexer.c:133-154 | Each parenthesis is a token of its own. |
| LexLaws.WordIsToken | src/packages/std/lexer/lexer.c:225-253 | Any other text is one token up to the next space, parenthesis or end, also with quotes and semicolons in it; of more than 1024 characters it stops the program. |
| LexLaws.StringIsToken | src/packages/std/lexer/lexer.c:164-223 | What stands between quotes reads as the text that it spells, up to the first zero character, if it has 1024 characters at most; otherwise it stops the program. |
| LexLaws.EscapesSpell | src/packages/std/lexer/lexer.c:187-194 | Each of the eight escapes, as a literal, in front of anything. |
| LexLaws.BadString | src/packages/std/lexer/lexer.c:175-195 | A string that does not close, ends in a backslash or has an unknown escape stops the program. |
| LexLaws.Spelling | src/packages/std/lexer/lexer.c:164-223 | Every text can be spelled. |
| LexLaws.LineAndColumn | src/packages/std/lexer/lexer.c:68-80 | Lines and columns count from one: one more line for each newline before, one more column for each character since. |
| LexLaws.TokensInPlace | src/packages/std/lexer/lexer.c:201-211 | Tokens come in the order of the source, each with the line and the column of its end, and a start that is its length before its end. |
| Lexing.Lexer.Run | src/packages/std/lexer/lexer.c:292-310 | The loop gives the tokens of the whole source, or stops where it cannot. |
| Lexing.Lexer.CollectString | src/packages/std/lexer/lexer.c:164-223 | Escapes are undone; an open string, an unknown escape or a text too long for the buffer stops the program. |
| Lexing.Lexer.CollectGeneric | src/packages/std/lexer/lexer.c:225-253 | Up to the next space, delimiter or end. |
| Lexing.Lexer.Step | src/packages/std/lexer/lexer.c:68-80 | Line and column stay those of the cursor. |
| Sexp.ParseString | src/packages/std/sexp/sexp.c:89-107 | The loops that shift tokens give the specified trees, or stop on a parenthesis too many. |
| ParseLaws.TextIsParsed | src/packages/std/sexp/sexp.c:89-107 | A text is parsed to some trees exactly when their tokens, parentheses and all, in order, are the tokens of the text; only the last list, and the last in that, may lack its end; a parenthesis too many stops the program. |
| ParseLaws.OnlyTrees | src/packages/std/sexp/sexp.c:63-87 | Any such trees are what their tokens are parsed to, with any rest that begins with a closing parenthesis. |
| ParseLaws.ParsesTrees | src/packages/std/sexp/sexp.c:63-87 | Any tokens are parsed to such trees and a rest, and no token is lost or moved. |
| Sexp.RunPrint | src/packages/std/sexp/sexp.c:137-165 | Items with one space between them. |
| SexpExact.ComesBackExactly | src/packages/std/sexp/sexp.c:63-165 | Parsing a printed tree gives one tree, the same, exactly when its generic atoms are one token each, its strings have no character that needs an escape and are no parenthesis, and none is too long; for all trees. |
| SexpRoundTrip.LoneParenthesis | src/packages/std/sexp/sexp.c:63-86 | A string that is an opening parenthesis comes back as an empty list and one that is a closing parenthesis stops the program: the condition is needed for both. |
| Allocator.NodesConserved | src/packages/std/allocator/allocator.c:24-69 | In every interleaving each node ever made is in exactly one place, there once, and no thread's stack holds more than twice the cache size. |
| Allocator.StepKeeps | src/net/node_allocator.c:3-15 | Every step keeps that, new nodes getting numbers no other has. |
| Allocator.BatchesAreWhole | src/packages/std/allocator/allocator.c:24-69 | When a thread leaves the mutex it has taken a full cache or all there was, or made a full batch, or given up exactly one cache, and the node that was freed is on top of what is left. |
| AllocatorClass.NodeAllocator.MaybeAllocate | src/packages/std/allocator/allocator.c:24-42 | Takes the top of the thread's own stack; if that is empty, first moves a whole cache or all there is from the top of the shared stack. Fails only when both are empty; no node is lost or doubled. |
| AllocatorClass.NodeAllocator.Allocate | src/net/node_allocator.c:42-52 | Always gives a node, as above, after one batch of new ones at most, which are pushed in the order of their numbers. |
| AllocatorClass.NodeAllocator.Recycle | src/packages/std/allocator/allocator.c:56-69 | Puts the node on the thread's own stack; if that held two caches, the upper one first goes to the shared stack. Keeps every node and the bound. |
| Path.RenderParses | src/packages/std/path/path.c:86-154 | Reading back the string of any path gives the path. |
| Path.ExecuteNormal | src/packages/std/path/path.c:122-141 | Every segment keeps the normal form: some `..`, then ordinary segments. |
| Path.Redundant | src/packages/std/path/path.c:122-141 | A dot or an empty segment anywhere changes nothing, and neither does an ordinary segment with two dots after it. |
| Path.RedundantText | src/packages/std/path/path.c:65-84 | The same in strings, wherever it stands: `./`, a slash too many, and a name with `/../` after it. |
| Path.Path.Join | src/packages/std/path/path.c:143-154 | Executes the segments of the string and keeps string and segments in step. |
| Path.Path.Resolve | src/packages/std/path/path.c:156-164 | Starts over at the root when the string is absolute. |
| Path.PathEqual | src/packages/std/path/path.c:54-57 | Comparing strings compares paths. |
| Path.PathRelative | src/packages/std/path/path.c:193-217 | The way up past what is shared, then down. |
| Path.FindRelativeIndex | src/packages/std/path/path.c:175-191 | The length of the longest shared prefix. |
| Path.RelativeLeadsThere | src/packages/std/path/path.c:193-217 | Joining a path with the way from it to another comes to the other exactly when the first has no `..` past what they share. |

## Left out

- Weak memory: all interleavings are sequentially consistent; the counters' relaxed loads are modelled as plain ones.
- Full task queues: the program ignores a failed push (src/core/worker_add_task.c:5), so a worker adds a task only while its queue has room.
- A machine with one processor gets no workers (src/core/worker_work_parallelly.c:65-66) and divides by zero when it deals a task; WorkStealing.Deal asks for one worker at least.
- Thread start: a worker's number is taken to be set from its first step (src/packages/std/thread/thread_pool.c:26-33).
- Counters as signed words: they are unbounded integers; only the total is taken modulo 2^64.
- Queue operations inside the parallel run are single steps, which is what RingQueue.StepActsAsQueue shows of them.
- `queue_get`, `queue_length` and the queue's destroy function.
- WorkerObject.Worker.Apply: targets are constructors, functions and primitives; applying a wire (src/core/worker_apply_wire.c:32-49), which looks through it and otherwise makes a node that waits for the target, fails here, and the net of the confluence results has none either.
- Values that are no ends (numbers, constructors, functions) in joins: the program stores such a value into a wire, or hands it to a primitive node's port; in the net of the confluence results a join with one is not done, its job does not finish, and the run is not complete. Primitive tasks are not in that net either; how arguments are collected is in PrimitiveArgs by itself.
- Primitives other than `link`, `connect` and those that go through a node.
- Modules that define a wire as a value and use it in code: literals are no wire ends, and nodes have one principal port at most, in the results about whole nets.
- The value stack below a job, in the results about nets: a job starts on its own values, so a rule body that pops more than it was given fails there and takes other values in the program. WorkerObject.Worker.HandleActivePair has whatever is below.
- Confluence.CompleteRunsAgree: rules between two nodes of one constructor are asked to do the same, by name, whichever node comes first, because which one does depends on the order of arrival; Commutation.TasksCommute asks nothing.
- Top-level expressions: the loader's whole code is one job; waiting for the net between two expressions is not modelled.
- The order of tasks in a queue matters to no result about nets, so tasks are a set there; the sequential worker keeps a queue.
- Building.BuilderFindsOneTask: asks that the node stays until its joins are done. The nets here have no locks, and joining happens after a node is built, one compare-and-swap a step; that the builder holds the lock meanwhile is in NodeLock, which leaves open where ends meet.
- Closed loops of wires: joining a wire's two ends to each other leaves a class without a terminal, which no result speaks about.
- Handling a primitive task while its node's outputs are still being set.
- `used_indexes_size` is not the number of used buckets: deleting the head of a chain lowers it even if the chain goes on (src/packages/std/hash/hash.c:257-260), it can go below zero and wrap, and then causes a rehash that is not needed; the map is not affected. HashTable.Hash.DeleteEntry says by how much it is off. Table sizes end where `limit * 75` would overflow.
- Keys of the hash table are compared by equality, and values are never null; destroy functions are not modelled.
- Int and float tokens: they are generic tokens here, told apart by their text later; positions of tokens are modelled, but a round trip keeps only kinds and texts.
- Printing of nets, files, loading and caching of modules, command line, timing, debug flags.
- Lists, arrays, stacks, sets and string helpers are sequences, maps and sets of Dafny.
