/** Parsing takes every token to its place in the trees, and is the only way to do so. */
module ParseLaws {
  import opened Values
  import opened Lexing
  import opened Sexp

  /** The tokens of a tree, in order. */
  function TokensOf(x: Sexp): seq<Token>
    decreases x, 0
  {
    match x
    case Atom(t) => [t]
    case List(start, end, items) => [start] + TokensOfAll(items) + if end.Some? then [end.value] else []
  }

  function TokensOfAll(items: seq<Sexp>): seq<Token>
    decreases items, 1
  {
    if items == [] then [] else TokensOf(items[0]) + TokensOfAll(items[1..])
  }

  /** Lists are from parenthesis to parenthesis, atoms are none. A list may lack its end, but
      only where there are no more tokens. */
  predicate IsTree(x: Sexp, isLast: bool)
    decreases x, 0
  {
    match x
    case Atom(t) => t.text != "(" && t.text != ")"
    case List(start, end, items) =>
      && start.text == "(" && AreTrees(items, isLast && end.None?)
      && if end.Some? then end.value.text == ")" else isLast
  }

  predicate AreTrees(items: seq<Sexp>, isLast: bool)
    decreases items, 1
  {
    items == [] || (IsTree(items[0], isLast && |items| == 1) && AreTrees(items[1..], isLast))
  }

  predicate Stops(rest: seq<Token>) { rest == [] || rest[0].text == ")" }

  // What is parsed is such trees

  lemma {:induction false} ParsesTree(tokens: seq<Token>)
    requires tokens != [] && tokens[0].text != ")"
    ensures var p := ParseSexp(tokens); TokensOf(p.sexp) + p.rest == tokens && IsTree(p.sexp, p.rest == [])
    decreases |tokens|, 0
  {
    hide ParseList, TokensOf, TokensOfAll, IsTree, AreTrees;
    if tokens[0].text == "(" {
      var inner := ParseList(tokens[1..]);
      ParsesTrees(tokens[1..]);
      assert tokens == [tokens[0]] + (TokensOfAll(inner.items) + inner.rest);
      ListIs(tokens[0], if inner.rest == [] then None else Some(inner.rest[0]), inner.items, inner.rest == []);
      if inner.rest != [] {
        assert inner.rest == [inner.rest[0]] + inner.rest[1..];
        ListIs(tokens[0], Some(inner.rest[0]), inner.items, inner.rest[1..] == []);
      }
    } else {
      AtomIs(tokens[0], tokens[1..] == []);
    }
  }

  lemma AtomIs(t: Token, isLast: bool)
    requires t.text != "(" && t.text != ")"
    ensures TokensOf(Atom(t)) == [t] && IsTree(Atom(t), isLast)
  {
  }

  lemma ListIs(start: Token, end: Option<Token>, items: seq<Sexp>, isLast: bool)
    requires start.text == "(" && AreTrees(items, isLast && end.None?)
    requires if end.Some? then end.value.text == ")" else isLast
    ensures IsTree(List(start, end, items), isLast)
    ensures TokensOf(List(start, end, items))
         == [start] + TokensOfAll(items) + if end.Some? then [end.value] else []
  {
    hide TokensOfAll, AreTrees;
  }

  /** The trees and what is left are exactly the tokens, and the rest starts with a parenthesis
      too many, if there is a rest. */
  lemma {:induction false} ParsesTrees(tokens: seq<Token>)
    ensures var p := ParseList(tokens);
            TokensOfAll(p.items) + p.rest == tokens && AreTrees(p.items, p.rest == []) && Stops(p.rest)
    decreases |tokens|, 1
  {
    hide ParseSexp, IsTree, TokensOf, TokensOfAll, AreTrees;
    if tokens == [] || tokens[0].text == ")" {
      NoTrees(tokens == []);
      assert [] + tokens == tokens;
    } else {
      var first := ParseSexp(tokens);
      var more := ParseList(first.rest);
      ParsesTree(tokens);
      ParsesTrees(first.rest);
      OnlyLast(first.sexp, first.rest, more);
      MoreTrees(first.sexp, more.items, more.rest == []);
      assert TokensOf(first.sexp) + TokensOfAll(more.items) + more.rest
          == TokensOf(first.sexp) + (TokensOfAll(more.items) + more.rest);
    }
  }

  lemma NoTrees(isLast: bool)
    ensures TokensOfAll([]) == [] && AreTrees([], isLast)
  {
  }

  lemma MoreTrees(x: Sexp, items: seq<Sexp>, isLast: bool)
    requires IsTree(x, isLast && items == []) && AreTrees(items, isLast)
    ensures TokensOfAll([x] + items) == TokensOf(x) + TokensOfAll(items) && AreTrees([x] + items, isLast)
  {
    assert ([x] + items)[1..] == items;
    hide TokensOf, IsTree;
  }

  lemma OnlyLast(x: Sexp, rest: seq<Token>, more: ParsedList)
    requires IsTree(x, rest == []) && more == ParseList(rest)
    ensures IsTree(x, more.rest == [] && more.items == [])
  {
  }

  // There are no others

  lemma {:induction false} TreeStarts(x: Sexp, isLast: bool)
    requires IsTree(x, isLast)
    ensures TokensOf(x) != [] && TokensOf(x)[0].text != ")"
  {
  }

  lemma {:induction false} OnlyTree(x: Sexp, rest: seq<Token>)
    requires IsTree(x, rest == [])
    ensures TokensOf(x) + rest != [] && ParseSexp(TokensOf(x) + rest) == Parsed(x, rest)
    decreases x, 0
  {
    match x
    case Atom(t) =>
      assert ([t] + rest)[1..] == rest;
    case List(start, end, items) =>
      var tail := (if end.Some? then [end.value] else []) + rest;
      OnlyTrees(items, tail);
      assert TokensOf(x) + rest == [start] + (TokensOfAll(items) + tail);
      assert ([start] + (TokensOfAll(items) + tail))[1..] == TokensOfAll(items) + tail;
      if end.Some? { assert tail[1..] == rest; }
  }

  /** Any trees, with any rest that begins with a closing parenthesis or is empty, are what
      their tokens are parsed to. */
  lemma {:induction false} OnlyTrees(items: seq<Sexp>, rest: seq<Token>)
    requires AreTrees(items, rest == []) && Stops(rest)
    ensures ParseList(TokensOfAll(items) + rest) == ParsedList(items, rest)
    decreases items, 1
  {
    if items == [] {
      assert [] + rest == rest;
    } else {
      var more := TokensOfAll(items[1..]) + rest;
      RestStarts(items, rest);
      OnlyTrees(items[1..], rest);
      OnlyTree(items[0], more);
      FirstParsed(items, rest);
      hide ParseSexp, ParseList, TokensOf, TokensOfAll, IsTree, AreTrees;
      assert items == [items[0]] + items[1..];
    }
  }

  /** What follows the first tree is empty only if nothing is left. */
  lemma RestStarts(items: seq<Sexp>, rest: seq<Token>)
    requires items != [] && AreTrees(items, rest == [])
    ensures TokensOf(items[0]) != [] && TokensOf(items[0])[0].text != ")"
    ensures TokensOfAll(items) + rest == TokensOf(items[0]) + (TokensOfAll(items[1..]) + rest)
    ensures IsTree(items[0], TokensOfAll(items[1..]) + rest == [])
  {
    hide TokensOf, IsTree;
    TreeStarts(items[0], rest == [] && |items| == 1);
    assert TokensOf(items[0]) + TokensOfAll(items[1..]) + rest == TokensOf(items[0]) + (TokensOfAll(items[1..]) + rest);
    if |items| > 1 {
      assert items[1..][0] == items[1];
      TreeStarts(items[1], rest == [] && |items| == 2);
      MoreTokens(items[1..]);
    } else {
      assert items[1..] == [];
    }
  }

  lemma MoreTokens(items: seq<Sexp>)
    requires items != [] && TokensOf(items[0]) != []
    ensures TokensOfAll(items) != []
  {
  }

  lemma FirstParsed(items: seq<Sexp>, rest: seq<Token>)
    requires items != []
    requires TokensOf(items[0]) != [] && TokensOf(items[0])[0].text != ")"
    requires TokensOfAll(items) + rest == TokensOf(items[0]) + (TokensOfAll(items[1..]) + rest)
    requires var more := TokensOfAll(items[1..]) + rest;
             TokensOf(items[0]) + more != [] && ParseSexp(TokensOf(items[0]) + more) == Parsed(items[0], more)
    ensures var p := ParseList(TokensOfAll(items[1..]) + rest);
            ParseList(TokensOfAll(items) + rest) == ParsedList([items[0]] + p.items, p.rest)
  {
    hide ParseSexp, TokensOf, TokensOfAll;
  }

  /** A text is parsed to these trees exactly when their tokens, in order, are the tokens of the
      text; there are no such trees, and it stops the program, if a parenthesis is too many. */
  lemma TextIsParsed(text: string, items: seq<Sexp>)
    ensures ParseText(text) == Some(items) <==> LexFrom(text, 0) == Some(TokensOfAll(items)) && AreTrees(items, true)
  {
    hide LexFrom, ParseList, TokensOfAll, AreTrees;
    var tokens := LexFrom(text, 0);
    if tokens.Some? {
      ParsesTrees(tokens.value);
      var p := ParseList(tokens.value);
      if p.rest == [] { assert TokensOfAll(p.items) + [] == TokensOfAll(p.items); }
      if tokens.value == TokensOfAll(items) && AreTrees(items, true) {
        OnlyTrees(items, []);
        assert TokensOfAll(items) + [] == TokensOfAll(items);
      }
    }
  }
}
