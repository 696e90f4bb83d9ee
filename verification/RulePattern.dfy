/** Defining rules: nested patterns are flattened to two node patterns, whose names become
    the parameters of the rule's function; and finding the rule for two nodes that met. */
module RulePattern {
  import opened Values
  import opened Machine
  import opened Interaction

  datatype Pattern = Var(name: string) | Ap(target: string, args: seq<Pattern>)

  /** A pattern of one node: a constructor and a name for each port. */
  datatype Flat = Flat(target: string, args: seq<string>)

  // Flattening

  datatype Flattened = Flattened(args: seq<string>, flats: seq<Flat>)

  /** A nested pattern is taken out and put in front, with one more port, a principal one,
      by which it hangs on the principal port that takes its place. */
  function FlattenArgs(args: seq<Pattern>, flats: seq<Flat>): (r: Flattened)
    ensures |r.args| == |args|
  {
    if args == [] then Flattened([], flats) else
    var n := |args| - 1;
    var before := FlattenArgs(args[..n], flats);
    match args[n]
    case Var(name) => Flattened(before.args + [name], before.flats)
    case Ap(_, _) => Flattened(before.args + ["!"], FlattenSub(args[n], before.flats))
  }

  function FlattenSub(p: Pattern, flats: seq<Flat>): seq<Flat>
    requires p.Ap?
  {
    var inner := FlattenArgs(p.args, flats);
    [Flat(p.target, inner.args + ["!"])] + inner.flats
  }

  function Flatten(p: Pattern): seq<Flat>
    requires p.Ap?
  {
    var inner := FlattenArgs(p.args, []);
    [Flat(p.target, inner.args)] + inner.flats
  }

  class PatternList {
    var items: seq<Flat>

    constructor ()
      ensures items == []
    {
      items := [];
    }

    method Unshift(flat: Flat)
      modifies this
      ensures items == [flat] + old(items)
    {
      items := [flat] + items;
    }
  }

  method TranslateArgs(args: seq<Pattern>, list: PatternList) returns (names: seq<string>)
    modifies list
    ensures names == FlattenArgs(args, old(list.items)).args && list.items == FlattenArgs(args, old(list.items)).flats
    decreases args
  {
    names := [];
    var i := 0;
    assert args[..0] == [];
    while i < |args|
      invariant i <= |args|
      invariant names == FlattenArgs(args[..i], old(list.items)).args
      invariant list.items == FlattenArgs(args[..i], old(list.items)).flats
    {
      assert args[..i + 1][..i] == args[..i] && args[..i + 1][i] == args[i];
      match args[i] {
        case Var(name) =>
          names := names + [name];
        case Ap(_, _) =>
          TranslateSub(args[i], list);
          names := names + ["!"];
      }
      i := i + 1;
    }
    assert args[..|args|] == args;
  }

  method TranslateSub(p: Pattern, list: PatternList)
    requires p.Ap?
    modifies list
    ensures list.items == FlattenSub(p, old(list.items))
    decreases p
  {
    var names := TranslateArgs(p.args, list);
    list.Unshift(Flat(p.target, names + ["!"]));
  }

  method TranslateTree(p: Pattern) returns (list: PatternList)
    requires p.Ap?
    ensures list.items == Flatten(p)
  {
    list := new PatternList();
    var names := TranslateArgs(p.args, list);
    list.Unshift(Flat(p.target, names));
  }

  /** How many nodes a pattern is of. */
  function Nodes(p: Pattern): nat {
    match p case Var(_) => 0 case Ap(_, args) => 1 + NodesOfAll(args)
  }

  function NodesOfAll(args: seq<Pattern>): nat {
    if args == [] then 0 else Nodes(args[|args| - 1]) + NodesOfAll(args[..|args| - 1])
  }

  function Named(names: seq<string>): (r: seq<Pattern>)
    ensures |r| == |names|
  {
    seq(|names|, i requires 0 <= i < |names| => Var(names[i]))
  }

  lemma {:induction false} FlattenNames(names: seq<string>, flats: seq<Flat>)
    ensures FlattenArgs(Named(names), flats) == Flattened(names, flats)
  {
    if names != [] {
      var n := |names| - 1;
      FlattenNames(names[..n], flats);
      assert Named(names)[..n] == Named(names[..n]);
      assert names == names[..n] + [names[n]];
    }
  }

  lemma {:induction false} FlattenMore(args: seq<Pattern>, names: seq<string>, flats: seq<Flat>)
    ensures FlattenArgs(args + Named(names), flats)
         == Flattened(FlattenArgs(args, flats).args + names, FlattenArgs(args, flats).flats)
    decreases |names|
  {
    if names == [] {
      assert args + Named(names) == args;
    } else {
      var n := |names| - 1;
      FlattenMore(args, names[..n], flats);
      assert (args + Named(names))[..|args| + n] == args + Named(names[..n]);
      assert FlattenArgs(args, flats).args + names == FlattenArgs(args, flats).args + names[..n] + [names[n]];
    }
  }

  /** A pattern of two nodes, one nested in the other, becomes the outer node with a
      principal port where the inner one was, and the inner node with a principal port at
      its end: the names keep their places. */
  lemma FlattenPair(outer: string, before: seq<string>, inner: string, args: seq<string>, after: seq<string>)
    ensures Flatten(Ap(outer, Named(before) + [Ap(inner, Named(args))] + Named(after)))
         == [Flat(outer, before + ["!"] + after), Flat(inner, args + ["!"])]
  {
    var sub := Ap(inner, Named(args));
    FlattenNames(before, []);
    FlattenNames(args, []);
    var some := Named(before) + [sub];
    assert some[..|some| - 1] == Named(before);
    FlattenMore(some, after, []);
  }

  /** The list has one node pattern for each node, the outermost first. */
  lemma {:induction false} FlattenCounts(args: seq<Pattern>, flats: seq<Flat>)
    ensures |FlattenArgs(args, flats).flats| == |flats| + NodesOfAll(args)
    decreases args
  {
    if args != [] {
      var n := |args| - 1;
      FlattenCounts(args[..n], flats);
      if args[n].Ap? { FlattenCounts(args[n].args, FlattenArgs(args[..n], flats).flats); }
    }
  }

  /** A pattern passes the check for two node patterns exactly when it is of two nodes. */
  lemma TwoNodes(p: Pattern)
    requires p.Ap?
    ensures |Flatten(p)| == 2 <==> Nodes(p) == 2
  {
    FlattenCounts(p.args, []);
  }

  // The parameters of a rule's function

  predicate IsPrincipalName(name: string) { |name| > 0 && name[|name| - 1] == '!' }

  /** The names of the ports that are not principal, in order. */
  function LocalNames(args: seq<string>): seq<string> {
    if args == [] then [] else
    var n := |args| - 1;
    LocalNames(args[..n]) + if IsPrincipalName(args[n]) then [] else [args[n]]
  }

  /** A name that ends in an exclamation mark is left out, any other is kept, in its place. */
  lemma LocalNamesEnd(args: seq<string>, name: string)
    ensures LocalNames(args + [name + "!"]) == LocalNames(args)
    ensures name == "" || name[|name| - 1] != '!' ==> LocalNames(args + [name]) == LocalNames(args) + [name]
  {
    assert (args + [name + "!"])[..|args|] == args && (args + [name])[..|args|] == args;
  }

  ghost predicate IsMarked(name: string) { exists stem :: name == stem + "!" }

  lemma MarkedIsPrincipal(name: string)
    ensures IsPrincipalName(name) <==> IsMarked(name)
  {
    if IsPrincipalName(name) { assert name == name[..|name| - 1] + "!"; }
  }

  /** Defining a node: a port is principal exactly when its name is marked. */
  method DefineNode(names: seq<string>) returns (kinds: seq<bool>)
    ensures |kinds| == |names| && forall i :: 0 <= i < |names| ==> (kinds[i] <==> IsMarked(names[i]))
  {
    hide IsMarked;
    kinds := [];
    for i := 0 to |names|
      invariant |kinds| == i && forall k :: 0 <= k < i ==> (kinds[k] <==> IsMarked(names[k]))
    {
      MarkedIsPrincipal(names[i]);
      kinds := kinds + [IsPrincipalName(names[i])];
    }
  }

  method CollectLocalNames(left: seq<string>, right: seq<string>) returns (names: seq<string>)
    ensures names == LocalNames(left) + LocalNames(right)
  {
    names := [];
    assert left[..0] == [];
    for i := 0 to |left|
      invariant names == LocalNames(left[..i])
    {
      assert left[..i + 1][..i] == left[..i];
      if !IsPrincipalName(left[i]) { names := names + [left[i]]; }
    }
    assert left[..|left|] == left && right[..0] == [];
    for i := 0 to |right|
      invariant names == LocalNames(left) + LocalNames(right[..i])
    {
      assert right[..i + 1][..i] == right[..i];
      if !IsPrincipalName(right[i]) { names := names + [right[i]]; }
    }
    assert right[..|right|] == right;
  }

  /** The rule that is found is the one defined first among those between the two constructors,
      in either order. */
  lemma {:induction false} FindsFirst(rules: seq<Rule>, left: nat, right: nat)
    ensures var r := FindRule(rules, left, right);
            && (r.Some? ==> r.value < |rules| && IsBetween(rules[r.value], left, right)
                            && forall i :: 0 <= i < r.value ==> !IsBetween(rules[i], left, right))
            && (r.None? ==> forall i :: 0 <= i < |rules| ==> !IsBetween(rules[i], left, right))
  {
    if rules != [] {
      var n := |rules| - 1;
      FindsFirst(rules[..n], left, right);
      BetweenMatches(rules[n], left, right);
      hide IsBetween, Matches;
      assert forall i :: 0 <= i < n ==> rules[..n][i] == rules[i];
    }
  }

  predicate IsBetween(rule: Rule, left: nat, right: nat) {
    multiset{rule.left, rule.right} == multiset{left, right}
  }

  lemma BetweenMatches(rule: Rule, left: nat, right: nat)
    ensures Matches(rule, left, right) <==> IsBetween(rule, left, right)
  {
    var m, n := multiset{rule.left, rule.right}, multiset{left, right};
    if IsBetween(rule, left, right) { assert m[rule.left] == n[rule.left] && m[rule.right] == n[rule.right]; }
  }

  // Rules are kept with the constructors they are about

  /** The rules about a constructor, in the order of their definition; a rule between two
      nodes of the constructor comes twice. */
  function RulesOf(rules: seq<Rule>, ctor: nat): (r: seq<nat>)
    ensures forall i :: 0 <= i < |r| ==> r[i] < |rules|
  {
    if rules == [] then [] else
    var n := |rules| - 1;
    RulesOf(rules[..n], ctor)
      + (if rules[n].left == ctor then [n] else [])
      + (if rules[n].right == ctor then [n] else [])
  }

  class NodeCtor {
    const id: nat
    var ruleArray: seq<nat>

    constructor (id: nat)
      ensures this.id == id && ruleArray == []
    {
      this.id := id;
      ruleArray := [];
    }
  }

  /** Adds a rule to both constructors, which may be one object. */
  method DefineRule(left: NodeCtor, right: NodeCtor, ghost rules: seq<Rule>, index: nat, rule: Rule)
    requires left.ruleArray == RulesOf(rules, left.id) && right.ruleArray == RulesOf(rules, right.id)
    requires index == |rules| && rule.left == left.id && rule.right == right.id
    requires (left.id == right.id ==> left == right)
    modifies left, right
    ensures left.ruleArray == RulesOf(rules + [rule], left.id) && right.ruleArray == RulesOf(rules + [rule], right.id)
  {
    assert (rules + [rule])[..|rules|] == rules;
    left.ruleArray := left.ruleArray + [index];
    right.ruleArray := right.ruleArray + [index];
  }

  /** The first of the indexes whose rule matches. */
  function FirstMatch(rules: seq<Rule>, indexes: seq<nat>, left: nat, right: nat): (r: Option<nat>)
    requires forall i :: 0 <= i < |indexes| ==> indexes[i] < |rules|
  {
    if indexes == [] then None else
    var n := |indexes| - 1;
    var earlier := FirstMatch(rules, indexes[..n], left, right);
    if earlier.Some? then earlier else if Matches(rules[indexes[n]], left, right) then Some(indexes[n]) else None
  }

  lemma {:induction false} FirstMatchStable(rules: seq<Rule>, more: seq<Rule>, indexes: seq<nat>, left: nat, right: nat)
    requires forall i :: 0 <= i < |indexes| ==> indexes[i] < |rules|
    ensures FirstMatch(rules + more, indexes, left, right) == FirstMatch(rules, indexes, left, right)
    decreases |indexes|
  {
    if indexes != [] { FirstMatchStable(rules, more, indexes[..|indexes| - 1], left, right); }
  }

  lemma FirstMatchAppend(rules: seq<Rule>, indexes: seq<nat>, n: nat, left: nat, right: nat)
    requires forall i :: 0 <= i < |indexes| ==> indexes[i] < |rules|
    requires n < |rules|
    ensures FirstMatch(rules, indexes + [n], left, right) ==
              var earlier := FirstMatch(rules, indexes, left, right);
              if earlier.Some? then earlier else if Matches(rules[n], left, right) then Some(n) else None
  {
  }

  function Times(n: nat, again: bool): seq<nat> { if again then [n] else [] }

  /** A rule that matches is found whether it is put once or twice at the end. */
  lemma FirstMatchLast(rules: seq<Rule>, indexes: seq<nat>, n: nat, once: bool, twice: bool, left: nat, right: nat)
    requires (forall i :: 0 <= i < |indexes| ==> indexes[i] < |rules|) && n < |rules|
    requires Matches(rules[n], left, right) ==> once || twice
    ensures FirstMatch(rules, indexes + Times(n, once) + Times(n, twice), left, right) ==
              var earlier := FirstMatch(rules, indexes, left, right);
              if earlier.Some? then earlier else if Matches(rules[n], left, right) then Some(n) else None
  {
    hide FirstMatch, Matches;
    FirstMatchAppend(rules, indexes, n, left, right);
    assert indexes + [] == indexes;
    var some := indexes + Times(n, once);
    FirstMatchAppend(rules, some, n, left, right);
    assert some + [] == some;
  }

  /** Looking among the rules of either constructor finds what looking among all would. */
  lemma {:induction false} OwnRulesSuffice(rules: seq<Rule>, left: nat, right: nat, ctor: nat)
    requires ctor == left || ctor == right
    ensures FirstMatch(rules, RulesOf(rules, ctor), left, right) == FindRule(rules, left, right)
  {
    if rules != [] {
      var n := |rules| - 1;
      var before := RulesOf(rules[..n], ctor);
      OwnRulesSuffice(rules[..n], left, right, ctor);
      assert rules[..n] + [rules[n]] == rules;
      FirstMatchStable(rules[..n], [rules[n]], before, left, right);
      FirstMatchLast(rules, before, n, rules[n].left == ctor, rules[n].right == ctor, left, right);
      hide FirstMatch;
    }
  }

  /** Scans the rules of the left constructor, then those of the right one. */
  method ConnectActivePair(rules: seq<Rule>, left: NodeCtor, right: NodeCtor) returns (rule: Option<nat>)
    requires left.ruleArray == RulesOf(rules, left.id) && right.ruleArray == RulesOf(rules, right.id)
    ensures rule == FindRule(rules, left.id, right.id)
  {
    OwnRulesSuffice(rules, left.id, right.id, left.id);
    OwnRulesSuffice(rules, left.id, right.id, right.id);
    rule := ScanRules(rules, left.ruleArray, left.id, right.id);
    if rule.None? { rule := ScanRules(rules, right.ruleArray, left.id, right.id); }
  }

  method ScanRules(rules: seq<Rule>, indexes: seq<nat>, left: nat, right: nat) returns (rule: Option<nat>)
    requires forall i :: 0 <= i < |indexes| ==> indexes[i] < |rules|
    ensures rule == FirstMatch(rules, indexes, left, right)
  {
    assert indexes[..0] == [];
    for i := 0 to |indexes|
      invariant FirstMatch(rules, indexes[..i], left, right) == None
    {
      assert indexes[..i + 1] == indexes[..i] + [indexes[i]];
      FirstMatchAppend(rules, indexes[..i], indexes[i], left, right);
      if Matches(rules[indexes[i]], left, right) {
        FirstMatchPrefix(rules, indexes, i + 1, left, right);
        return Some(indexes[i]);
      }
    }
    assert indexes[..|indexes|] == indexes;
    rule := None;
  }

  lemma {:induction false} FirstMatchPrefix(rules: seq<Rule>, indexes: seq<nat>, k: nat, left: nat, right: nat)
    requires forall i :: 0 <= i < |indexes| ==> indexes[i] < |rules|
    requires k <= |indexes| && FirstMatch(rules, indexes[..k], left, right).Some?
    ensures FirstMatch(rules, indexes, left, right) == FirstMatch(rules, indexes[..k], left, right)
    decreases |indexes|
  {
    if k == |indexes| {
      assert indexes[..k] == indexes;
    } else {
      var rest := indexes[..|indexes| - 1];
      assert rest[..k] == indexes[..k];
      FirstMatchPrefix(rules, rest, k, left, right);
    }
  }
}
