/** Parsing what was printed gives the same tree back.

    A tree is printed as a list of words: its atoms and parentheses, in order. The first half
    says that reading the printed text gives exactly these words, wherever the text stands,
    as long as an end or a space or a parenthesis follows: one lemma for each kind of atom,
    one for a space, one for a parenthesis, and two that go down the tree together. The second
    half says that parsing the words gives the tree, again by two lemmas that go down the
    tree together. Tokens also carry positions, which are not those of the original tree, so
    both halves look at kind and text only. */
module SexpRoundTrip {
  import opened Values
  import opened Lexing
  import opened Sexp

  // The words of a printed expression

  function WordsOf(x: Sexp): seq<Tree>
    decreases x, 0
  {
    match x
    case Atom(t) => [Word(t.kind, t.text)]
    case List(_, _, items) => [Word(Delimiter, "(")] + WordsOfAll(items) + [Word(Delimiter, ")")]
  }

  function WordsOfAll(items: seq<Sexp>): seq<Tree>
    decreases items, 1
  {
    if items == [] then [] else WordsOf(items[0]) + WordsOfAll(items[1..])
  }

  function Strip(tokens: seq<Token>): (r: seq<Tree>)
    ensures |r| == |tokens|
  {
    if tokens == [] then [] else [Word(tokens[0].kind, tokens[0].text)] + Strip(tokens[1..])
  }

  lemma {:induction false} StripAt(tokens: seq<Token>, k: nat)
    requires k < |tokens|
    ensures Strip(tokens)[k] == Word(tokens[k].kind, tokens[k].text)
  {
    if k > 0 { StripAt(tokens[1..], k - 1); }
  }

  lemma StripIs(tokens: seq<Token>)
    ensures forall k :: 0 <= k < |tokens| ==> Strip(tokens)[k] == Word(tokens[k].kind, tokens[k].text)
  {
    forall k | 0 <= k < |tokens|
      ensures Strip(tokens)[k] == Word(tokens[k].kind, tokens[k].text)
    {
      StripAt(tokens, k);
    }
  }

  lemma StripAppend(a: seq<Token>, b: seq<Token>)
    ensures Strip(a + b) == Strip(a) + Strip(b)
  {
    hide Strip;
    StripIs(a);
    StripIs(b);
    StripIs(a + b);
  }

  lemma StripSlice(tokens: seq<Token>, a: nat, b: nat)
    requires a <= b <= |tokens|
    ensures Strip(tokens[a..b]) == Strip(tokens)[a..b]
  {
    hide Strip;
    StripIs(tokens);
    StripIs(tokens[a..b]);
  }

  lemma StripSplit(tokens: seq<Token>, n: nat)
    requires n <= |tokens|
    ensures Strip(tokens[..n]) == Strip(tokens)[..n] && Strip(tokens[n..]) == Strip(tokens)[n..]
  {
    hide Strip;
    StripAppend(tokens[..n], tokens[n..]);
    assert tokens[..n] + tokens[n..] == tokens;
    assert |Strip(tokens[..n])| == n;
  }

  // One atom is one token

  predicate IsBoundary(s: string, j: nat) {
    j == |s| || (j < |s| && (IsSpace(s[j]) || IsDelimiter(s[j])))
  }

  predicate IsAt(s: string, i: nat, text: string) {
    i + |text| <= |s| && s[i..i + |text|] == text
  }

  lemma AtSplit(s: string, i: nat, a: string, b: string)
    requires IsAt(s, i, a + b)
    ensures IsAt(s, i, a) && IsAt(s, i + |a|, b)
  {
    assert (a + b)[..|a|] == a && (a + b)[|a|..] == b;
    assert s[i..i + |a + b|][..|a|] == s[i..i + |a|];
    assert s[i..i + |a + b|][|a|..] == s[i + |a|..i + |a + b|];
  }

  lemma AtChar(s: string, i: nat, text: string, k: nat)
    requires IsAt(s, i, text) && k < |text|
    ensures s[i + k] == text[k]
  {
    assert s[i..i + |text|][k] == s[i + k];
  }

  lemma {:induction false} GenericRun(s: string, i: nat, j: nat)
    requires i <= j <= |s| && IsBoundary(s, j)
    requires forall k :: i <= k < j ==> !IsSpace(s[k]) && !IsDelimiter(s[k])
    ensures GenericEnd(s, i) == j
    decreases j - i
  {
    if i < j { GenericRun(s, i + 1, j); }
  }

  lemma {:induction false} StringRun(s: string, i: nat, text: string)
    requires IsAt(s, i, text + "\"") && HasNoEscape(text)
    ensures StringFrom(s, i) == Some(Quoted(text, i + |text|))
    decreases |text|
  {
    AtChar(s, i, text + "\"", 0);
    if text != "" {
      assert text + "\"" == [text[0]] + (text[1..] + "\"");
      AtSplit(s, i, [text[0]], text[1..] + "\"");
      StringRun(s, i + 1, text[1..]);
      assert [text[0]] + text[1..] == text && s[i] == text[0];
    }
  }

  lemma {:induction false} NoZero(text: string)
    requires HasNoEscape(text)
    ensures Terminated(text) == text
  {
    if text != "" { NoZero(text[1..]); }
  }

  lemma LexGeneric(s: string, i: nat, t: Token)
    requires t.kind == Generic && IsLexable(t) && IsAt(s, i, t.text) && IsBoundary(s, i + |t.text|)
    ensures i < |s| && StepAt(s, i) == Made(MakeToken(s, Generic, t.text, i + |t.text|), i + |t.text|)
  {
    var j := i + |t.text|;
    forall k | i <= k < j ensures s[k] == t.text[k - i] { AtChar(s, i, t.text, k - i); }
    GenericRun(s, i, j);
    hide Line, Column;
  }

  lemma LexQuoted(s: string, i: nat, t: Token)
    requires t.kind == Text && IsLexable(t) && IsAt(s, i, "\"" + t.text + "\"")
    ensures i < |s| && StepAt(s, i) == Made(MakeToken(s, Text, t.text, i + |t.text| + 1), i + |t.text| + 2)
  {
    assert "\"" + t.text + "\"" == "\"" + (t.text + "\"");
    AtChar(s, i, "\"" + t.text + "\"", 0);
    AtSplit(s, i, "\"", t.text + "\"");
    StringRun(s, i + 1, t.text);
    NoZero(t.text);
    hide Line, Column, StringFrom, Terminated;
  }

  lemma LexAtom(s: string, i: nat, t: Token) returns (token: Token)
    requires IsLexable(t) && IsAt(s, i, PrintAtom(t)) && IsBoundary(s, i + |PrintAtom(t)|)
    ensures i < i + |PrintAtom(t)| <= |s| && Word(token.kind, token.text) == Word(t.kind, t.text)
    ensures LexFrom(s, i) == Prepend([token], LexFrom(s, i + |PrintAtom(t)|))
  {
    hide LexFrom, StepAt, Line, Column, IsSpace, IsDelimiter, IsPlain, HasNoEscape;
    var j := i + |PrintAtom(t)|;
    if t.kind == Generic {
      token := MakeToken(s, Generic, t.text, j);
      LexGeneric(s, i, t);
    } else {
      token := MakeToken(s, Text, t.text, j - 1);
      LexQuoted(s, i, t);
    }
    LexMade(s, i, token, j);
  }

  lemma LexMade(s: string, i: nat, token: Token, j: nat)
    requires i < j <= |s| && StepAt(s, i) == Made(token, j)
    ensures LexFrom(s, i) == Prepend([token], LexFrom(s, j))
  {
  }

  lemma LexParenthesis(s: string, i: nat) returns (token: Token)
    requires i < |s| && IsDelimiter(s[i])
    ensures token.kind == Delimiter && token.text == [s[i]]
    ensures LexFrom(s, i) == Prepend([token], LexFrom(s, i + 1))
  {
    hide Line, Column;
    token := MakeToken(s, Delimiter, [s[i]], i + 1);
    LexMade(s, i, token, i + 1);
  }

  lemma LexSpace(s: string, i: nat)
    requires i + 1 < |s| && s[i] == ' ' && !IsSpace(s[i + 1])
    ensures LexFrom(s, i) == LexFrom(s, i + 1)
  {
    assert SpaceEnd(s, i) == i + 1;
    assert StepAt(s, i) == Skipped(i + 1);
    var rest := LexFrom(s, i + 1);
    if rest.Some? { assert [] + rest.value == rest.value; }
    hide StepAt, SpaceEnd;
  }

  lemma PrependBoth(a: seq<Token>, b: seq<Token>, rest: Option<seq<Token>>)
    ensures Prepend(a, Prepend(b, rest)) == Prepend(a + b, rest)
  {
    if rest.Some? { assert a + (b + rest.value) == a + b + rest.value; }
  }

  // A whole expression

  lemma PrintStarts(x: Sexp)
    requires IsPrintable(x)
    ensures Print(x) != "" && !IsSpace(Print(x)[0])
  {
  }

  lemma {:induction false} LexSexp(s: string, i: nat, x: Sexp) returns (tokens: seq<Token>)
    requires IsPrintable(x) && IsAt(s, i, Print(x)) && IsBoundary(s, i + |Print(x)|)
    ensures Strip(tokens) == WordsOf(x)
    ensures LexFrom(s, i) == Prepend(tokens, LexFrom(s, i + |Print(x)|))
    decreases x, 0
  {
    hide LexFrom, IsLexable, PrintAtom, IsAt;
    match x
    case Atom(t) =>
      var token := LexAtom(s, i, t);
      tokens := [token];
      assert Strip(tokens) == [Word(token.kind, token.text)] + Strip([]);
    case List(_, _, items) =>
      var inner := PrintItems(items);
      var open := LexOpen(s, i, inner);
      var middle := LexItems(s, i + 1, items);
      var close := LexParenthesis(s, i + 1 + |inner|);
      tokens := [open] + (middle + [close]);
      PrependBoth(middle, [close], LexFrom(s, i + |Print(x)|));
      PrependBoth([open], middle + [close], LexFrom(s, i + |Print(x)|));
      StripAppend([open], middle + [close]);
      StripAppend(middle, [close]);
  }

  lemma LexOpen(s: string, i: nat, inner: string) returns (open: Token)
    requires IsAt(s, i, "(" + inner + ")")
    ensures i + 1 + |inner| < |s| && s[i + 1 + |inner|] == ')' && IsAt(s, i + 1, inner)
    ensures Word(open.kind, open.text) == Word(Delimiter, "(")
    ensures LexFrom(s, i) == Prepend([open], LexFrom(s, i + 1))
  {
    var text := "(" + inner + ")";
    AtChar(s, i, text, 0);
    AtChar(s, i, text, 1 + |inner|);
    assert text == "(" + (inner + ")");
    AtSplit(s, i, "(", inner + ")");
    AtSplit(s, i + 1, inner, ")");
    open := LexParenthesis(s, i);
  }

  lemma {:induction false} LexItems(s: string, i: nat, items: seq<Sexp>) returns (tokens: seq<Token>)
    requires AllPrintable(items) && IsAt(s, i, PrintItems(items))
    requires i + |PrintItems(items)| < |s| && s[i + |PrintItems(items)|] == ')'
    ensures Strip(tokens) == WordsOfAll(items)
    ensures LexFrom(s, i) == Prepend(tokens, LexFrom(s, i + |PrintItems(items)|))
    decreases items, 1
  {
    hide LexFrom, IsLexable, PrintAtom, IsAt;
    if items == [] {
      tokens := [];
      PrependNothing(LexFrom(s, i));
    } else {
      var first, gap, rest := Print(items[0]), if |items| > 1 then " " else "", PrintItems(items[1..]);
      var j := i + |first|;
      ItemsAt(s, i, first, gap, rest);
      if |items| == 1 { assert items[1..] == []; }
      var head := LexSexp(s, i, items[0]);
      if |items| > 1 {
        assert items[1..][0] == items[1];
        PrintStarts(items[1]);
        GapAt(s, j, Print(items[1]), rest);
        LexSpace(s, j);
      }
      var tail := LexItems(s, j + |gap|, items[1..]);
      tokens := head + tail;
      PrependBoth(head, tail, LexFrom(s, i + |PrintItems(items)|));
      StripAppend(head, tail);
    }
  }

  lemma ItemsAt(s: string, i: nat, first: string, gap: string, rest: string)
    requires IsAt(s, i, first + gap + rest)
    ensures IsAt(s, i, first) && IsAt(s, i + |first|, gap) && IsAt(s, i + |first| + |gap|, rest)
    ensures gap != "" ==> i + |first| < |s| && s[i + |first|] == gap[0]
  {
    AtSplit(s, i, first + gap, rest);
    AtSplit(s, i, first, gap);
    if gap != "" { AtChar(s, i + |first|, gap, 0); }
  }

  lemma GapAt(s: string, j: nat, next: string, rest: string)
    requires IsAt(s, j, " ") && IsAt(s, j + 1, rest) && next <= rest && next != ""
    ensures j + 1 < |s| && s[j] == ' ' && s[j + 1] == next[0]
  {
    AtChar(s, j, " ", 0);
    AtChar(s, j + 1, rest, 0);
  }

  // Parsing the words

  lemma StripHead(tokens: seq<Token>)
    requires tokens != []
    ensures Strip(tokens)[0] == Word(tokens[0].kind, tokens[0].text) && Strip(tokens)[1..] == Strip(tokens[1..])
  {
  }

  /** The tokens of a list are its parentheses and the tokens of its items. */
  lemma StripFrame(tokens: seq<Token>, words: seq<Tree>)
    requires Strip(tokens) == [Word(Delimiter, "(")] + words + [Word(Delimiter, ")")]
    ensures |tokens| >= 2 && tokens[0].text == "(" && tokens[|tokens| - 1].text == ")"
    ensures Strip(tokens[1..|tokens| - 1]) == words
  {
    hide Strip;
    var n := |tokens| - 1;
    StripAt(tokens, 0);
    StripAt(tokens, n);
    StripSlice(tokens, 1, n);
    assert Strip(tokens)[1..n] == words;
  }

  /** The tokens of a list's first item come first. */
  lemma StripItems(tokens: seq<Token>, items: seq<Sexp>) returns (n: nat)
    requires AllPrintable(items) && items != [] && Strip(tokens) == WordsOfAll(items)
    ensures n <= |tokens| && tokens != [] && tokens[0].text != ")"
    ensures Strip(tokens[..n]) == WordsOf(items[0]) && Strip(tokens[n..]) == WordsOfAll(items[1..])
  {
    n := |WordsOf(items[0])|;
    hide Strip, WordsOf, IsPrintable;
    StripSplit(tokens, n);
    StripAt(tokens, 0);
  }

  lemma {:induction false} ParseWords(tokens: seq<Token>, x: Sexp, rest: seq<Token>)
    requires IsPrintable(x) && Strip(tokens) == WordsOf(x)
    ensures tokens != []
    ensures var p := ParseSexp(tokens + rest); p.rest == rest && TreeOf(p.sexp) == TreeOf(x)
    decreases x, 0
  {
    match x
    case Atom(t) =>
      StripHead(tokens);
      assert tokens[1..] == [];
      assert (tokens + rest)[0] == tokens[0] && (tokens + rest)[1..] == rest;
    case List(_, _, items) =>
      StripFrame(tokens, WordsOfAll(items));
      var n := |tokens| - 1;
      var inner, close := tokens[1..n], tokens[n];
      hide Strip, ParseSexp, AllPrintable, WordsOfAll;
      ParseItems(inner, items, [close] + rest);
      var p := ParseList(inner + ([close] + rest));
      assert (tokens + rest)[1..] == inner + ([close] + rest);
      assert p == ParsedList(p.items, [close] + rest);
      hide ParseList;
  }

  lemma ItemsParsed(tokens: seq<Token>, items: seq<Sexp>)
    requires tokens != [] && tokens[0].text != ")" && items != []
    requires var first := ParseSexp(tokens);
             TreeOf(first.sexp) == TreeOf(items[0]) && TreesOf(ParseList(first.rest).items) == TreesOf(items[1..])
    ensures TreesOf(ParseList(tokens).items) == TreesOf(items)
    ensures ParseList(tokens).rest == ParseList(ParseSexp(tokens).rest).rest
  {
  }

  lemma ParseNothing(rest: seq<Token>)
    requires rest == [] || rest[0].text == ")"
    ensures ParseList(rest) == ParsedList([], rest) && TreesOf([]) == []
  {
  }

  lemma {:induction false} ParseItems(tokens: seq<Token>, items: seq<Sexp>, rest: seq<Token>)
    requires AllPrintable(items) && Strip(tokens) == WordsOfAll(items)
    requires rest == [] || rest[0].text == ")"
    ensures var p := ParseList(tokens + rest); p.rest == rest && TreesOf(p.items) == TreesOf(items)
    decreases items, 1
  {
    hide ParseSexp, ParseList, IsPrintable, TreeOf, TreesOf, WordsOf;
    if items == [] {
      assert tokens + rest == rest;
      ParseNothing(rest);
    } else {
      var n := StripItems(tokens, items);
      hide Strip, WordsOfAll;
      var more := tokens[n..] + rest;
      assert tokens + rest == tokens[..n] + more && (tokens + rest)[0] == tokens[0];
      ParseWords(tokens[..n], items[0], more);
      ParseItems(tokens[n..], items[1..], rest);
      ItemsParsed(tokens + rest, items);
    }
  }

  lemma ListStep(tokens: seq<Token>)
    requires tokens != [] && tokens[0].text != ")"
    ensures var first := ParseSexp(tokens);
            ParseList(tokens) == ParsedList([first.sexp] + ParseList(first.rest).items, ParseList(first.rest).rest)
  {
  }

  /** The text of every expression whose atoms can be told apart parses to that expression,
      up to where its tokens stood. */
  lemma PrintedParses(x: Sexp)
    requires IsPrintable(x)
    ensures var r := ParseText(Print(x)); r.Some? && |r.value| == 1 && TreeOf(r.value[0]) == TreeOf(x)
  {
    var s := Print(x);
    assert s[0..0 + |s|] == s;
    var tokens := LexSexp(s, 0, x);
    LexStops(s);
    hide LexFrom, Print, IsPrintable;
    assert tokens + [] == tokens;
    ParseOne(tokens, x);
  }

  lemma ParseOne(tokens: seq<Token>, x: Sexp)
    requires IsPrintable(x) && Strip(tokens) == WordsOf(x)
    ensures var p := ParseList(tokens); p.rest == [] && |p.items| == 1 && TreeOf(p.items[0]) == TreeOf(x)
  {
    ParseWords(tokens, x, []);
    assert tokens + [] == tokens;
    StripHead(tokens);
    ListStep(tokens);
  }

  /** A string that reads "(" or ")" is taken for a parenthesis: the one comes back as a list
      that is not closed, the other stops the program. */
  lemma LoneParenthesis(t: Token)
    requires t.kind == Text && (t.text == "(" || t.text == ")")
    ensures t.text == "(" ==> ParseText(Print(Atom(t))).Some? && |ParseText(Print(Atom(t))).value| == 1
    ensures t.text == "(" ==> TreeOf(ParseText(Print(Atom(t))).value[0]) == Node([]) != TreeOf(Atom(t))
    ensures t.text == ")" ==> ParseText(Print(Atom(t))).None?
  {
    var s := "\"" + t.text + "\"";
    assert Print(Atom(t)) == s;
    assert StringFrom(s, 2) == Some(Quoted("", 2));
    assert StringFrom(s, 1) == Some(Quoted([s[1]] + "", 2)) && [s[1]] == t.text;
    NoZero(t.text);
    var token := MakeToken(s, Text, t.text, 2);
    LexMade(s, 0, token, 3);
    LexStops(s);
    assert [token] + [] == [token] && [token][1..] == [];
    assert LexFrom(s, 0) == Some([token]);
    if t.text == "(" {
      assert ParseList([]) == ParsedList([], []);
      assert ParseSexp([token]) == Parsed(List(token, None, []), []);
      ListStep([token]);
    } else {
      ParseNothing([token]);
    }
    hide LexFrom, ParseList, ParseSexp;
  }
}
