/** Parsing a token list to S-expressions, printing them, and the round trip. */
module Sexp {
  import opened Values
  import opened Lexing

  datatype Sexp =
    | Atom(token: Token)
    | List(start: Token, end: Option<Token>, items: seq<Sexp>)

  // Parsing, as functions of the token list

  datatype Parsed = Parsed(sexp: Sexp, rest: seq<Token>)

  datatype ParsedList = ParsedList(items: seq<Sexp>, rest: seq<Token>)

  /** Parentheses are known by their text alone, and a list that is not closed is none the
      less a list. */
  function ParseSexp(tokens: seq<Token>): (p: Parsed)
    requires tokens != []
    ensures |p.rest| < |tokens|
    decreases |tokens|, 0
  {
    if tokens[0].text == "(" then
      var inner := ParseList(tokens[1..]);
      if inner.rest == [] then Parsed(List(tokens[0], None, inner.items), [])
      else Parsed(List(tokens[0], Some(inner.rest[0]), inner.items), inner.rest[1..])
    else Parsed(Atom(tokens[0]), tokens[1..])
  }

  function ParseList(tokens: seq<Token>): (p: ParsedList)
    ensures |p.rest| <= |tokens|
    decreases |tokens|, 1
  {
    if tokens == [] || tokens[0].text == ")" then ParsedList([], tokens) else
    var first := ParseSexp(tokens);
    var more := ParseList(first.rest);
    ParsedList([first.sexp] + more.items, more.rest)
  }

  /** Fails where the program stops: in the tokeniser, or on a parenthesis too many. */
  function ParseText(text: string): Option<seq<Sexp>> {
    var tokens := LexFrom(text, 0);
    if tokens.None? then None else
    var p := ParseList(tokens.value);
    if p.rest != [] then None else Some(p.items)
  }

  class TokenList {
    var items: seq<Token>

    constructor (items: seq<Token>)
      ensures this.items == items
    {
      this.items := items;
    }

    method Shift() returns (token: Option<Token>)
      modifies this
      ensures old(items) == [] ==> token == None && items == []
      ensures old(items) != [] ==> token == Some(old(items)[0]) && items == old(items)[1..]
    {
      if items == [] { return None; }
      token := Some(items[0]);
      items := items[1..];
    }
  }

  method RunParseSexp(list: TokenList) returns (sexp: Sexp)
    requires list.items != []
    modifies list
    ensures sexp == ParseSexp(old(list.items)).sexp && list.items == ParseSexp(old(list.items)).rest
    decreases |list.items|, 0
  {
    var token := list.Shift();
    if token.value.text == "(" {
      var items := RunParseList(list);
      var end := list.Shift();
      sexp := List(token.value, end, items);
    } else {
      sexp := Atom(token.value);
    }
  }

  method RunParseList(list: TokenList) returns (items: seq<Sexp>)
    modifies list
    ensures items == ParseList(old(list.items)).items && list.items == ParseList(old(list.items)).rest
    decreases |list.items|, 1
  {
    items := [];
    while list.items != []
      invariant |list.items| <= |old(list.items)|
      invariant items + ParseList(list.items).items == ParseList(old(list.items)).items
      invariant ParseList(list.items).rest == ParseList(old(list.items)).rest
      decreases |list.items|
    {
      if list.items[0].text == ")" { break; }
      ghost var before := list.items;
      var sexp := RunParseSexp(list);
      assert ParseList(before).items == [sexp] + ParseList(list.items).items;
      assert items + ParseList(before).items == items + [sexp] + ParseList(list.items).items;
      items := items + [sexp];
    }
    assert items + [] == items;
  }

  method ParseString(text: string) returns (sexps: Option<seq<Sexp>>)
    ensures sexps == ParseText(text)
  {
    var lexer := new Lexer(text);
    var ok := lexer.Run();
    if !ok { return None; }
    var list := new TokenList(lexer.tokens);
    var items := RunParseList(list);
    sexps := if list.items == [] then Some(items) else None;
  }

  // Printing

  function PrintAtom(t: Token): string {
    if t.kind == Text then "\"" + t.text + "\"" else t.text
  }

  function Print(s: Sexp): string
    decreases s, 0
  {
    match s
    case Atom(token) => PrintAtom(token)
    case List(_, _, items) => "(" + PrintItems(items) + ")"
  }

  function PrintItems(items: seq<Sexp>): string
    decreases items, 1
  {
    if items == [] then "" else
    Print(items[0]) + (if |items| > 1 then " " else "") + PrintItems(items[1..])
  }

  method RunPrint(s: Sexp) returns (out: string)
    ensures out == Print(s)
    decreases s
  {
    match s
    case Atom(token) => out := PrintAtom(token);
    case List(_, _, items) =>
      out := "(";
      var count := 0;
      assert items[0..] == items;
      while count < |items|
        invariant count <= |items|
        invariant out + PrintItems(items[count..]) == "(" + PrintItems(items)
      {
        var text := RunPrint(items[count]);
        assert items[count..][0] == items[count] && items[count..][1..] == items[count + 1..];
        ghost var before := out;
        out := out + text;
        if count != |items| - 1 { out := out + " "; }
        assert before + PrintItems(items[count..]) == out + PrintItems(items[count + 1..]);
        count := count + 1;
      }
      assert PrintItems(items[count..]) == "";
      out := out + ")";
  }

  // What printing keeps: the tree of words

  datatype Tree = Word(kind: Kind, text: string) | Node(items: seq<Tree>)

  function TreeOf(s: Sexp): Tree {
    match s
    case Atom(token) => Word(token.kind, token.text)
    case List(_, _, items) => Node(TreesOf(items))
  }

  function TreesOf(items: seq<Sexp>): (r: seq<Tree>)
    ensures |r| == |items|
  {
    if items == [] then [] else [TreeOf(items[0])] + TreesOf(items[1..])
  }

  predicate IsPlain(text: string) {
    forall i :: 0 <= i < |text| ==> !IsSpace(text[i]) && !IsDelimiter(text[i])
  }

  predicate HasNoEscape(text: string) {
    forall i :: 0 <= i < |text| ==> text[i] != '\"' && text[i] != '\\' && text[i] != '\0'
  }

  /** An atom that is one token when printed, and not taken for a parenthesis. */
  predicate IsLexable(t: Token) {
    && |t.text| <= MAX_TOKEN_LENGTH
    && match t.kind
       case Generic => t.text != "" && IsPlain(t.text) && t.text[0] != ';' && t.text[0] != '\"'
       case Text => HasNoEscape(t.text) && t.text != "(" && t.text != ")"
       case Delimiter => false
  }

  predicate IsPrintable(s: Sexp)
    decreases s, 0
  {
    match s
    case Atom(token) => IsLexable(token)
    case List(_, _, items) => AllPrintable(items)
  }

  predicate AllPrintable(items: seq<Sexp>)
    decreases items, 1
  {
    items == [] || (IsPrintable(items[0]) && AllPrintable(items[1..]))
  }
}
