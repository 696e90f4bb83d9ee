/** The converse of the round trip: a tree comes back only if its atoms can be told apart,
    so that the condition is exact. */
module SexpExact {
  import opened Values
  import opened Lexing
  import opened Sexp
  import opened SexpRoundTrip

  predicate ComesBack(x: Sexp) {
    var r := ParseText(Print(x));
    r.Some? && |r.value| == 1 && TreeOf(r.value[0]) == TreeOf(x)
  }

  // What the tokeniser and the parser can make at all

  predicate IsMade(kind: Kind, text: string) {
    && |text| <= MAX_TOKEN_LENGTH
    && match kind
       case Generic => text != "" && IsPlain(text) && text[0] != ';' && text[0] != '\"'
       case Text => true
       case Delimiter => text == "(" || text == ")"
  }

  predicate CanBe(t: Tree)
    decreases t, 0
  {
    match t
    case Word(kind, text) => IsMade(kind, text) && text != "(" && text != ")"
    case Node(items) => AllCanBe(items)
  }

  predicate AllCanBe(items: seq<Tree>)
    decreases items, 1
  {
    items == [] || (CanBe(items[0]) && AllCanBe(items[1..]))
  }

  ghost predicate AllMade(tokens: seq<Token>) {
    forall t :: t in tokens ==> IsMade(t.kind, t.text)
  }

  lemma {:induction false} GenericIsPlain(s: string, i: nat)
    requires i <= |s|
    ensures forall k :: i <= k < GenericEnd(s, i) ==> !IsSpace(s[k]) && !IsDelimiter(s[k])
    decreases |s| - i
  {
    if i < |s| { GenericIsPlain(s, i + 1); }
  }

  lemma {:induction false} TerminatedIsShorter(s: string)
    ensures |Terminated(s)| <= |s|
  {
    if s != "" { TerminatedIsShorter(s[1..]); }
  }

  lemma TokenIsMade(s: string, i: nat)
    requires i < |s| && StepAt(s, i).Made?
    ensures var t := StepAt(s, i).token; IsMade(t.kind, t.text)
  {
    hide Line, Column;
    if s[i] == '\"' {
      TerminatedIsShorter(StringFrom(s, i + 1).value.text);
    } else if !IsDelimiter(s[i]) {
      GenericIsPlain(s, i);
    }
  }

  lemma {:induction false} LexedAreMade(s: string, i: nat)
    requires i <= |s| && LexFrom(s, i).Some?
    ensures AllMade(LexFrom(s, i).value)
    decreases |s| - i
  {
    if i < |s| {
      if StepAt(s, i).Made? { TokenIsMade(s, i); }
      StepAdvances(s, i);
      hide StepAt;
      LexedAreMade(s, StepAt(s, i).next);
    }
  }

  lemma {:induction false} ParsedCanBe(tokens: seq<Token>)
    requires AllMade(tokens) && tokens != [] && tokens[0].text != ")"
    ensures CanBe(TreeOf(ParseSexp(tokens).sexp)) && AllMade(ParseSexp(tokens).rest)
    decreases |tokens|, 0
  {
    if tokens[0].text == "(" { ParsedAllCanBe(tokens[1..]); }
  }

  lemma {:induction false} ParsedAllCanBe(tokens: seq<Token>)
    requires AllMade(tokens)
    ensures AllCanBe(TreesOf(ParseList(tokens).items)) && AllMade(ParseList(tokens).rest)
    decreases |tokens|, 1
  {
    if tokens != [] && tokens[0].text != ")" {
      ParsedCanBe(tokens);
      ListStep(tokens);
      hide ParseSexp, ParseList;
      var more := ParseList(ParseSexp(tokens).rest).items;
      ParsedAllCanBe(ParseSexp(tokens).rest);
      assert ([ParseSexp(tokens).sexp] + more)[1..] == more;
    }
  }

  // A string with escapes never comes back

  /** Reading has fallen behind: what is left to read is `text[a..]`, but what is still to
      be made is `text[b..]`, which starts with the backslashes in between. Each two that
      are read make one, so it never catches up. */
  lemma {:induction false} NeverCatchesUp(s: string, i: nat, text: string, a: nat, b: nat)
    requires b < a <= |text| && IsAt(s, i, text[a..] + "\"")
    requires forall k :: b <= k < a ==> text[k] == '\\'
    requires StringFrom(s, i).Some?
    ensures Terminated(StringFrom(s, i).value.text) != text[b..]
    decreases |text| - a
  {
    hide StringFrom, Terminated, IsAt;
    var made := StringFrom(s, i).value.text;
    if Terminated(made) == text[b..] {
      assert text[b..][0] == text[b] && text[b..][1..] == text[b + 1..];
      FirstKept(made);
      BackslashMade(s, i);
      AtChar(s, i, text[a..] + "\"", 0);
      AtChar(s, i, text[a..] + "\"", 1);
      assert a + 1 < |text| && text[a..] + "\"" == text[a..a + 2] + (text[a + 2..] + "\"");
      AtSplit(s, i, text[a..a + 2], text[a + 2..] + "\"");
      NeverCatchesUp(s, i + 2, text, a + 2, b + 1);
    }
  }

  lemma FirstKept(made: string)
    requires Terminated(made) != ""
    ensures made != "" && Terminated(made) == [made[0]] + Terminated(made[1..])
  {
  }

  /** A backslash is only made from two. */
  lemma BackslashMade(s: string, i: nat)
    requires i <= |s| && StringFrom(s, i).Some?
    requires var made := StringFrom(s, i).value.text; made != "" && made[0] == '\\'
    ensures i + 1 < |s| && s[i] == '\\' && s[i + 1] == '\\'
    ensures StringFrom(s, i + 2).Some? && StringFrom(s, i).value.text[1..] == StringFrom(s, i + 2).value.text
  {
  }

  lemma {:induction false} StringBack(s: string, i: nat, text: string)
    requires IsAt(s, i, text + "\"") && StringFrom(s, i).Some?
    requires Terminated(StringFrom(s, i).value.text) == text
    ensures HasNoEscape(text)
    decreases |text|
  {
    if text != "" {
      var made := StringFrom(s, i).value.text;
      AtChar(s, i, text + "\"", 0);
      AtChar(s, i, text + "\"", 1);
      assert text == [text[0]] + text[1..];
      if s[i] == '\\' {
        assert s[i + 1] == '\\' && |text| > 1;
        assert text + "\"" == text[..2] + (text[2..] + "\"");
        AtSplit(s, i, text[..2], text[2..] + "\"");
        assert made[1..] == StringFrom(s, i + 2).value.text;
        NeverCatchesUp(s, i + 2, text, 2, 1);
      } else {
        assert text + "\"" == [text[0]] + (text[1..] + "\"");
        AtSplit(s, i, [text[0]], text[1..] + "\"");
        assert made[1..] == StringFrom(s, i + 1).value.text;
        StringBack(s, i + 1, text[1..]);
      }
    }
  }

  // Back through a whole expression

  lemma AtomBack(s: string, i: nat, t: Token, ts: seq<Token>)
    requires CanBe(Word(t.kind, t.text)) && IsAt(s, i, PrintAtom(t)) && LexFrom(s, i) == Some(ts) && ts != []
    requires TreeOf(ParseSexp(ts).sexp) == Word(t.kind, t.text)
    ensures IsLexable(t)
  {
    hide StringFrom, Terminated, GenericEnd, SpaceEnd, LineEnd, Line, Column;
    if t.kind == Text {
      assert PrintAtom(t) == "\"" + (t.text + "\"");
      AtChar(s, i, PrintAtom(t), 0);
      AtSplit(s, i, "\"", t.text + "\"");
      hide LexFrom;
      StringBack(s, i + 1, t.text);
    }
  }

  lemma {:induction false} SexpBack(s: string, i: nat, x: Sexp, ts: seq<Token>)
    requires CanBe(TreeOf(x)) && IsAt(s, i, Print(x)) && LexFrom(s, i) == Some(ts) && ts != []
    requires TreeOf(ParseSexp(ts).sexp) == TreeOf(x)
    ensures IsPrintable(x)
    decreases x, 0
  {
    hide LexFrom, IsLexable, PrintAtom, IsAt;
    match x
    case Atom(t) => AtomBack(s, i, t, ts);
    case List(_, _, items) =>
      var inner := PrintItems(items);
      var open := LexOpen(s, i, inner);
      var more := LexFrom(s, i + 1).value;
      assert ts == [open] + more && ts[1..] == more;
      ItemsBack(s, i + 1, items, more);
  }

  lemma PastItem(s: string, i: nat, x: Sexp, ts: seq<Token>)
    requires IsPrintable(x) && IsAt(s, i, Print(x)) && IsBoundary(s, i + |Print(x)|) && LexFrom(s, i) == Some(ts)
    ensures LexFrom(s, i + |Print(x)|).Some? && ts != [] && ParseSexp(ts).rest == LexFrom(s, i + |Print(x)|).value
  {
    var head := LexSexp(s, i, x);
    hide LexFrom, IsPrintable, WordsOf, ParseSexp, Strip;
    var more := LexFrom(s, i + |Print(x)|).value;
    assert ts == head + more;
    ParseWords(head, x, more);
  }

  lemma PastGap(s: string, j: nat, items: seq<Sexp>)
    requires items != [] && AllCanBe(TreesOf(items)) && IsAt(s, j, " ") && IsAt(s, j + 1, PrintItems(items))
    ensures j + 1 < |s| && LexFrom(s, j) == LexFrom(s, j + 1)
  {
    GapAt(s, j, Print(items[0]), PrintItems(items));
    LexSpace(s, j);
    hide LexFrom, IsAt;
  }

  lemma {:induction false} ItemsBack(s: string, i: nat, items: seq<Sexp>, ts: seq<Token>)
    requires AllCanBe(TreesOf(items)) && IsAt(s, i, PrintItems(items))
    requires i + |PrintItems(items)| < |s| && s[i + |PrintItems(items)|] == ')'
    requires LexFrom(s, i) == Some(ts) && TreesOf(ParseList(ts).items) == TreesOf(items)
    ensures AllPrintable(items)
    decreases items, 1
  {
    hide LexFrom, IsLexable, PrintAtom, IsAt;
    if items != [] {
      var first, gap, rest := Print(items[0]), if |items| > 1 then " " else "", PrintItems(items[1..]);
      var j := i + |first|;
      ItemsAt(s, i, first, gap, rest);
      if |items| == 1 { assert items[1..] == []; }
      FirstParsed(ts, items);
      SexpBack(s, i, items[0], ts);
      PastItem(s, i, items[0], ts);
      if |items| > 1 { PastGap(s, j, items[1..]); }
      ItemsBack(s, j + |gap|, items[1..], LexFrom(s, j).value);
    }
  }

  lemma {:induction false} FirstParsed(ts: seq<Token>, items: seq<Sexp>)
    requires items != [] && TreesOf(ParseList(ts).items) == TreesOf(items)
    ensures ts != [] && ts[0].text != ")"
    ensures TreeOf(ParseSexp(ts).sexp) == TreeOf(items[0])
    ensures TreesOf(ParseList(ParseSexp(ts).rest).items) == TreesOf(items[1..])
  {
    ListStep(ts);
    hide ParseList, ParseSexp, TreeOf;
    var tail := ParseList(ParseSexp(ts).rest).items;
    TreesSplit(ParseSexp(ts).sexp, tail);
    TreesSplit(items[0], items[1..]);
    assert [items[0]] + items[1..] == items;
  }

  lemma TreesSplit(x: Sexp, more: seq<Sexp>)
    ensures TreesOf([x] + more)[0] == TreeOf(x) && TreesOf([x] + more)[1..] == TreesOf(more)
  {
  }

  /** A tree comes back from its printed text exactly when each of its atoms is one token
      when printed and not taken for a parenthesis. */
  lemma ComesBackExactly(x: Sexp)
    ensures ComesBack(x) <==> IsPrintable(x)
  {
    if IsPrintable(x) {
      PrintedParses(x);
    } else if ComesBack(x) {
      var s := Print(x);
      assert s[0..0 + |s|] == s;
      var ts := LexFrom(s, 0).value;
      LexedAreMade(s, 0);
      ParsedAllCanBe(ts);
      hide LexFrom, Print, IsPrintable, ParseSexp, AllMade;
      var items := ParseList(ts).items;
      assert items == [items[0]] && ts != [] && ts[0].text != ")";
      ListStep(ts);
      assert items[0] == ParseSexp(ts).sexp && TreesOf(items) == [TreeOf(x)] + TreesOf(items[1..]);
      SexpBack(s, 0, x, ts);
    }
  }
}
