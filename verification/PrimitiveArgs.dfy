/** The arguments of a primitive node arrive one at each principal port, brought by any
    workers in any order. An arrival stores its argument and then counts itself with one
    atomic addition; whoever counts to the number of principal ports makes the task. */
module PrimitiveArgs {
  import opened Values

  datatype Arrival = Awaited | Stored | Counted

  /** `found` is a history variable: the ports whose arrivals made a task. */
  datatype State = State(principals: seq<bool>, args: map<nat, Value>, ports: map<nat, Option<Value>>,
                         arrivals: map<nat, Arrival>, count: nat, found: set<nat>)

  datatype Action = Store(port: nat) | CountUp(port: nat)

  predicate IsPrincipal(s: State, i: nat) { i < |s.principals| && s.principals[i] }

  function PrincipalPorts(principals: seq<bool>): set<nat> {
    set i | 0 <= i < |principals| && principals[i]
  }

  /** Each principal port of the constructor counts, one after the other. */
  method PrincipalPortCount(principals: seq<bool>) returns (count: nat)
    ensures count == |PrincipalPorts(principals)|
  {
    count := 0;
    assert PrincipalPorts(principals[..0]) == {};
    for i := 0 to |principals|
      invariant count == |PrincipalPorts(principals[..i])|
    {
      assert PrincipalPorts(principals[..i + 1]) == PrincipalPorts(principals[..i]) + if principals[i] then {i} else {};
      if principals[i] { count := count + 1; }
    }
    assert principals[..|principals|] == principals;
  }

  predicate IsEnabled(s: State, a: Action) {
    && IsPrincipal(s, a.port) && a.port in s.arrivals && a.port in s.args
    && s.arrivals[a.port] == if a.Store? then Awaited else Stored
  }

  function Act(s: State, a: Action): State
    requires IsEnabled(s, a)
  {
    match a
    case Store(i) =>
      s.(ports := s.ports[i := Some(s.args[i])], arrivals := s.arrivals[i := Stored])
    case CountUp(i) =>
      s.(arrivals := s.arrivals[i := Counted], count := s.count + 1,
         found := s.found + if s.count + 1 == |PrincipalPorts(s.principals)| then {i} else {})
  }

  ghost predicate Init(s: State) {
    && s.arrivals == (map i | i in PrincipalPorts(s.principals) :: Awaited)
    && s.args.Keys == PrincipalPorts(s.principals) && s.count == 0 && s.found == {}
  }

  function CountedPorts(s: State): set<nat> {
    set i | i in s.arrivals && s.arrivals[i] == Counted
  }

  predicate HasTask(s: State) { s.found != {} }

  /** A task is there exactly when every argument has been counted, and only one is. */
  ghost predicate Inv(s: State) {
    && s.arrivals.Keys == s.args.Keys == PrincipalPorts(s.principals)
    && s.count == |CountedPorts(s)|
    && |s.found| <= 1 && s.found <= CountedPorts(s)
    && (HasTask(s) <==> CountedPorts(s) == PrincipalPorts(s.principals) && CountedPorts(s) != {})
    && forall i :: i in s.arrivals && s.arrivals[i] != Awaited ==> i in s.ports && s.ports[i] == Some(s.args[i])
  }

  lemma InitHolds(s: State)
    requires Init(s)
    ensures Inv(s)
  {
  }

  lemma SmallerSize(a: set<nat>, b: set<nat>, i: nat)
    requires a <= b && i in b && i !in a
    ensures |a| < |b|
  {
    var rest := b - a;
    assert b == a + rest && i in rest;
  }

  lemma StoreKeeps(s: State, i: nat)
    requires Inv(s) && IsEnabled(s, Store(i))
    ensures Inv(Act(s, Store(i)))
  {
    assert CountedPorts(Act(s, Store(i))) == CountedPorts(s);
  }

  /** The sets of counted ports before and after one more is counted. */
  lemma CountedMore(s: State, i: nat)
    requires Inv(s) && IsEnabled(s, CountUp(i))
    ensures var s', all := Act(s, CountUp(i)), PrincipalPorts(s.principals);
            && i in all && i !in CountedPorts(s) && CountedPorts(s) <= all
            && CountedPorts(s') == CountedPorts(s) + {i} && |CountedPorts(s')| == |CountedPorts(s)| + 1
            && (CountedPorts(s') == all <==> s.count + 1 == |all|)
  {
    var s', all := Act(s, CountUp(i)), PrincipalPorts(s.principals);
    assert CountedPorts(s') == CountedPorts(s) + {i};
    assert i in all && i !in CountedPorts(s) && CountedPorts(s) <= all;
    hide CountedPorts, PrincipalPorts, Act, Inv, IsEnabled;
    SameOrSmaller(CountedPorts(s) + {i}, all);
  }

  lemma SameOrSmaller(a: set<nat>, b: set<nat>)
    requires a <= b
    ensures a == b <==> |a| == |b|
  {
    if a != b {
      var i :| i in b && i !in a;
      SmallerSize(a, b, i);
    }
  }

  lemma CountUpKeeps(s: State, i: nat)
    requires Inv(s) && IsEnabled(s, CountUp(i))
    ensures Inv(Act(s, CountUp(i)))
  {
    CountedMore(s, i);
    hide CountedPorts, PrincipalPorts;
    assert s.found == {};
  }

  /** A step keeps the invariant, and no task is made once there is one. */
  lemma StepKeeps(s: State, a: Action)
    requires Inv(s) && IsEnabled(s, a)
    ensures Inv(Act(s, a))
    ensures HasTask(s) ==> Act(s, a).found == s.found
  {
    if a.Store? {
      StoreKeeps(s, a.port);
    } else {
      CountedMore(s, a.port);
      CountUpKeeps(s, a.port);
    }
    hide Inv, CountedPorts, PrincipalPorts;
    assert a.CountUp? && HasTask(s) ==> false by { if a.CountUp? && HasTask(s) { } }
  }

  ghost predicate CanStep(s: State, s': State) { exists a :: IsEnabled(s, a) && s' == Act(s, a) }

  ghost predicate IsRun(run: seq<State>) {
    && |run| > 0 && Init(run[0])
    && forall i :: 0 < i < |run| ==> CanStep(run[i - 1], run[i])
  }

  lemma {:induction false} RunKeeps(run: seq<State>, i: nat)
    requires IsRun(run) && i < |run|
    ensures Inv(run[i])
    ensures run[i].args == run[0].args && run[i].principals == run[0].principals
  {
    hide Inv, Init;
    if i == 0 {
      InitHolds(run[0]);
    } else {
      RunKeeps(run, i - 1);
      assert CanStep(run[i - 1], run[i]);
      var a :| IsEnabled(run[i - 1], a) && run[i] == Act(run[i - 1], a);
      StepKeeps(run[i - 1], a);
    }
  }

  predicate AllArrived(s: State) { forall i :: i in s.arrivals ==> s.arrivals[i] == Counted }

  /** Over every order and interleaving of the arrivals there is at most one task; there is
      one exactly when all arguments have arrived; and then every one of them is at its port. */
  lemma ExactlyOneTask(run: seq<State>, i: nat)
    requires IsRun(run) && i < |run| && PrincipalPorts(run[0].principals) != {}
    ensures |run[i].found| <= 1
    ensures HasTask(run[i]) <==> AllArrived(run[i])
    ensures HasTask(run[i]) ==>
              forall p :: p in PrincipalPorts(run[0].principals) ==>
                p in run[i].ports && p in run[0].args && run[i].ports[p] == Some(run[0].args[p])
  {
    RunKeeps(run, i);
    var s := run[i];
    if AllArrived(s) {
      assert CountedPorts(s) == s.arrivals.Keys;
    }
    if HasTask(s) {
      forall p | p in s.arrivals ensures s.arrivals[p] == Counted { assert p in CountedPorts(s); }
    }
  }

  /** So whoever brings some of the arguments, as the builder of the node does one after
      the other, makes at most one task with all of them. */
  lemma BuilderFindsAtMostOne(run: seq<State>, i: nat, mine: set<nat>, p: nat, q: nat)
    requires IsRun(run) && i < |run| && p in run[i].found * mine && q in run[i].found * mine
    ensures p == q
  {
    RunKeeps(run, i);
    var found := run[i].found;
    if p != q { TwoIn(p, q, found); }
  }

  lemma TwoIn(p: nat, q: nat, found: set<nat>)
    requires p in found && q in found && p != q
    ensures |found| >= 2
  {
    var rest := found - {p};
    assert q in rest && found == rest + {p};
  }
}
