/** What a source reads as, character by character and literal by literal. */
module LexLaws {
  import opened Values
  import opened Lexing
  import opened Sexp
  import opened SexpRoundTrip

  /** The kinds and texts of the tokens from `i` on, if the tokeniser does not stop. */
  function Words(s: string, i: nat): Option<seq<Tree>>
    requires i <= |s|
  {
    var tokens := LexFrom(s, i);
    if tokens.None? then None else Some(Strip(tokens.value))
  }

  function Then(word: Tree, rest: Option<seq<Tree>>): Option<seq<Tree>> {
    if rest.None? then None else Some([word] + rest.value)
  }

  /** The six space characters. */
  predicate IsBlank(c: char) {
    c == ' ' || c == '\t' || c == '\n' || c == '\U{000B}' || c == '\U{000C}' || c == '\r'
  }

  predicate IsParenthesis(c: char) { c == '(' || c == ')' }

  lemma WordsMade(s: string, i: nat, token: Token, j: nat)
    requires i < j <= |s| && StepAt(s, i) == Made(token, j)
    ensures Words(s, i) == Then(Word(token.kind, token.text), Words(s, j))
  {
    LexMade(s, i, token, j);
    var rest := LexFrom(s, j);
    if rest.Some? {
      StripAppend([token], rest.value);
      assert Strip([token]) == [Word(token.kind, token.text)] + Strip([]);
    }
    hide LexFrom, Strip;
  }

  lemma WordsSkipped(s: string, i: nat, j: nat)
    requires i < j <= |s| && StepAt(s, i) == Skipped(j)
    ensures Words(s, i) == Words(s, j)
  {
    var rest := LexFrom(s, j);
    if rest.Some? { assert [] + rest.value == rest.value; }
    hide StepAt, Strip;
  }

  lemma WordsFailed(s: string, i: nat)
    requires i < |s| && StepAt(s, i).Failed?
    ensures Words(s, i) == None
  {
  }

  // Words do not depend on what was before

  lemma {:induction false} EndsLater(p: string, s: string, i: nat)
    requires i <= |s|
    ensures SpaceEnd(p + s, |p| + i) == |p| + SpaceEnd(s, i)
    ensures LineEnd(p + s, |p| + i) == |p| + LineEnd(s, i)
    ensures GenericEnd(p + s, |p| + i) == |p| + GenericEnd(s, i)
    decreases |s| - i
  {
    if i < |s| { EndsLater(p, s, i + 1); }
  }

  lemma {:induction false} StringLater(p: string, s: string, i: nat)
    requires i <= |s|
    ensures var q, r := StringFrom(s, i), StringFrom(p + s, |p| + i);
            r == if q.None? then None else Some(Quoted(q.value.text, |p| + q.value.close))
    decreases |s| - i
  {
    if i < |s| {
      hide Unescape;
      assert (p + s)[|p| + i] == s[i];
      if s[i] != '\\' {
        StringLater(p, s, i + 1);
      } else if i + 1 < |s| {
        assert (p + s)[|p| + i + 1] == s[i + 1];
        StringLater(p, s, i + 2);
      }
    }
  }

  /** The same outcome at a later place. */
  predicate IsLater(o: Outcome, q: Outcome, n: nat) {
    match o
    case Failed => q.Failed?
    case Skipped(j) => q == Skipped(n + j)
    case Made(t, j) => q.Made? && q.next == n + j && q.token.kind == t.kind && q.token.text == t.text
  }

  lemma StringStepLater(p: string, s: string, i: nat)
    requires i < |s| && s[i] == '\"'
    ensures IsLater(StepAt(s, i), StepAt(p + s, |p| + i), |p|)
  {
    StringLater(p, s, i + 1);
    assert (p + s)[|p| + i] == s[i];
    hide Line, Column, SpaceEnd, LineEnd, GenericEnd, StringFrom, Terminated;
  }

  lemma GenericStepLater(p: string, s: string, i: nat)
    requires i < |s| && s[i] != '\"' && s[i] != ';' && !IsSpace(s[i]) && !IsDelimiter(s[i])
    ensures IsLater(StepAt(s, i), StepAt(p + s, |p| + i), |p|)
  {
    EndsLater(p, s, i);
    assert (p + s)[|p| + i] == s[i];
    assert (p + s)[|p| + i..|p| + GenericEnd(s, i)] == s[i..GenericEnd(s, i)];
    hide Line, Column, SpaceEnd, LineEnd, GenericEnd, StringFrom, Terminated;
  }

  lemma StepLater(p: string, s: string, i: nat)
    requires i < |s|
    ensures IsLater(StepAt(s, i), StepAt(p + s, |p| + i), |p|)
  {
    hide Line, Column, SpaceEnd, LineEnd, GenericEnd, StringFrom, Terminated;
    if s[i] == '\"' {
      StringStepLater(p, s, i);
    } else if s[i] == ';' || IsSpace(s[i]) || IsDelimiter(s[i]) {
      EndsLater(p, s, i);
      EndsLater(p, s, i + 1);
      assert (p + s)[|p| + i] == s[i];
    } else {
      GenericStepLater(p, s, i);
    }
  }

  lemma {:induction false} WordsLater(p: string, s: string, i: nat)
    requires i <= |s|
    ensures Words(p + s, |p| + i) == Words(s, i)
    decreases |s| - i
  {
    hide Words, StepAt;
    if i < |s| {
      StepLater(p, s, i);
      match StepAt(s, i)
      case Failed =>
        WordsFailed(s, i);
        WordsFailed(p + s, |p| + i);
      case Skipped(j) =>
        StepAdvances(s, i);
        WordsSkipped(s, i, j);
        WordsSkipped(p + s, |p| + i, |p| + j);
        WordsLater(p, s, j);
      case Made(t, j) =>
        StepAdvances(s, i);
        WordsMade(s, i, t, j);
        WordsMade(p + s, |p| + i, StepAt(p + s, |p| + i).token, |p| + j);
        WordsLater(p, s, j);
    } else {
      WordsEnd(s);
      WordsEnd(p + s);
    }
  }

  lemma WordsEnd(s: string)
    ensures Words(s, |s|) == Some([])
  {
  }

  lemma RestOf(p: string, s: string)
    ensures Words(p + s, |p|) == Words(s, 0)
  {
    WordsLater(p, s, 0);
  }

  // Comments and spaces

  lemma {:induction false} LineEndAt(s: string, i: nat, j: nat)
    requires i <= j <= |s| && (forall k :: i <= k < j ==> s[k] != '\n') && (j < |s| ==> s[j] == '\n')
    ensures LineEnd(s, i) == if j < |s| then j + 1 else j
    decreases j - i
  {
    if i < j { LineEndAt(s, i + 1, j); }
  }

  /** A comment goes to the end of its line, and the source goes on after it. */
  lemma CommentIsSkipped(text: string, s: string)
    requires '\n' !in text
    ensures Words(";" + text + "\n" + s, 0) == Words(s, 0)
    ensures Words(";" + text, 0) == Some([])
  {
    var p, n := ";" + text + "\n", |text| + 1;
    var whole := p + s;
    assert whole[0] == ';' && whole[n] == '\n' && forall k :: 1 <= k < n ==> whole[k] == text[k - 1];
    LineEndAt(whole, 1, n);
    assert StepAt(whole, 0) == Skipped(|p|);
    WordsSkipped(whole, 0, |p|);
    RestOf(p, s);
    var last := ";" + text;
    assert last[0] == ';' && forall k :: 1 <= k < n ==> last[k] == text[k - 1];
    LineEndAt(last, 1, n);
    assert StepAt(last, 0) == Skipped(n);
    WordsSkipped(last, 0, n);
    WordsEnd(last);
    hide StepAt, Words, LineEnd;
  }

  lemma SpacesSkipped(s: string, i: nat)
    requires i <= |s|
    ensures Words(s, SpaceEnd(s, i)) == Words(s, i)
  {
    hide Words;
    var j := SpaceEnd(s, i);
    if i < j {
      assert StepAt(s, i) == Skipped(j);
      WordsSkipped(s, i, j);
    }
  }

  /** Each of the six is skipped wherever a token could start. */
  lemma SpaceIsSkipped(s: string)
    ensures Words(" " + s, 0) == Words(s, 0) && Words("\t" + s, 0) == Words(s, 0)
    ensures Words("\n" + s, 0) == Words(s, 0) && Words("\U{000B}" + s, 0) == Words(s, 0)
    ensures Words("\U{000C}" + s, 0) == Words(s, 0) && Words("\r" + s, 0) == Words(s, 0)
  {
    hide Words;
    BlankIsSkipped(' ', s);
    BlankIsSkipped('\t', s);
    BlankIsSkipped('\n', s);
    BlankIsSkipped('\U{000B}', s);
    BlankIsSkipped('\U{000C}', s);
    BlankIsSkipped('\r', s);
  }

  lemma BlankIsSkipped(c: char, s: string)
    requires IsSpace(c)
    ensures Words([c] + s, 0) == Words(s, 0)
  {
    hide Words;
    var whole := [c] + s;
    assert SpaceEnd(whole, 0) == SpaceEnd(whole, 1);
    SpacesSkipped(whole, 0);
    SpacesSkipped(whole, 1);
    RestOf([c], s);
  }

  // Parentheses and generic tokens

  lemma ParenthesisIsToken(s: string)
    ensures Words("(" + s, 0) == Then(Word(Delimiter, "("), Words(s, 0))
    ensures Words(")" + s, 0) == Then(Word(Delimiter, ")"), Words(s, 0))
  {
    hide Words, Line, Column;
    var open, close := "(" + s, ")" + s;
    WordsMade(open, 0, MakeToken(open, Delimiter, "(", 1), 1);
    WordsMade(close, 0, MakeToken(close, Delimiter, ")", 1), 1);
    RestOf("(", s);
    RestOf(")", s);
  }

  /** Any other text is one token up to the next space or parenthesis, also with quotes and
      semicolons in it, but not of more than 1024 characters. */
  lemma WordIsToken(text: string, s: string)
    requires text != "" && text[0] != ';' && text[0] != '\"'
    requires forall k :: 0 <= k < |text| ==> !IsBlank(text[k]) && !IsParenthesis(text[k])
    requires s == "" || IsBlank(s[0]) || IsParenthesis(s[0])
    ensures Words(text + s, 0) == if |text| <= 1024 then Then(Word(Generic, text), Words(s, 0)) else None
  {
    hide Words, Line, Column;
    var whole := text + s;
    assert forall k :: 0 <= k < |text| ==> whole[k] == text[k];
    assert s != "" ==> whole[|text|] == s[0];
    GenericRun(whole, 0, |text|);
    assert whole[0..|text|] == text;
    if |text| <= 1024 {
      WordsMade(whole, 0, MakeToken(whole, Generic, text, |text|), |text|);
      RestOf(text, s);
    } else {
      WordsFailed(whole, 0);
    }
  }

  // Strings

  predicate IsEscape(c: char, e: char) {
    || (c == 'n' && e == '\n') || (c == 't' && e == '\t') || (c == 'b' && e == '\U{0008}')
    || (c == 'f' && e == '\U{000C}') || (c == 'r' && e == '\r') || (c == '0' && e == '\0')
    || (c == '\"' && e == '\"') || (c == '\\' && e == '\\')
  }

  /** What stands between the quotes, and the text that it means. */
  predicate Spells(body: string, text: string)
    decreases |body|
  {
    if body == "" || text == "" then body == text
    else if body[0] == '\\' then |body| >= 2 && IsEscape(body[1], text[0]) && Spells(body[2..], text[1..])
    else body[0] != '\"' && body[0] == text[0] && Spells(body[1..], text[1..])
  }

  /** Each escape, literal by literal, before anything else. */
  lemma EscapesSpell(body: string, text: string)
    requires Spells(body, text)
    ensures Spells("\\n" + body, "\n" + text) && Spells("\\t" + body, "\t" + text)
    ensures Spells("\\b" + body, "\U{0008}" + text) && Spells("\\f" + body, "\U{000C}" + text)
    ensures Spells("\\r" + body, "\r" + text) && Spells("\\0" + body, "\0" + text)
    ensures Spells("\\\"" + body, "\"" + text) && Spells("\\\\" + body, "\\" + text)
  {
    assert forall c: char, d: char {:trigger [c, d] + body} :: ([c, d] + body)[2..] == body;
    assert forall c: char {:trigger [c] + text} :: ([c] + text)[1..] == text;
  }

  /** Reading what spells a text goes on with what follows it. */
  lemma {:induction false} StringGoesOn(body: string, text: string, tail: string)
    requires Spells(body, text)
    ensures var q, r := StringFrom(tail, 0), StringFrom(body + tail, 0);
            r == if q.None? then None else Some(Quoted(text + q.value.text, |body| + q.value.close))
    decreases |body|
  {
    hide StringFrom, Spells, IsEscape, BeginsWith, Unescape;
    if body == "" {
      NothingSpells(text, tail);
    } else {
      var whole, n := body + tail, if body[0] == '\\' then 2 else 1;
      SpellsFirst(body, text);
      BeginsLonger(body, tail, n, text[0]);
      StringFirst(whole, n, text[0]);
      assert whole == body[..n] + (body[n..] + tail);
      StringLater(body[..n], body[n..] + tail, 0);
      StringGoesOn(body[n..], text[1..], tail);
      PrependText(text, tail);
    }
  }

  lemma NothingSpells(text: string, tail: string)
    requires Spells("", text)
    ensures text == "" && "" + tail == tail
    ensures StringFrom(tail, 0).Some? ==> "" + StringFrom(tail, 0).value.text == StringFrom(tail, 0).value.text
  {
  }

  lemma BeginsLonger(body: string, tail: string, n: nat, e: char)
    requires BeginsWith(body, n, e)
    ensures BeginsWith(body + tail, n, e)
  {
  }

  lemma PrependText(text: string, tail: string)
    requires text != ""
    ensures var q := StringFrom(tail, 0);
            q.Some? ==> [text[0]] + (text[1..] + q.value.text) == text + q.value.text
  {
    assert text == [text[0]] + text[1..];
  }

  /** The string begins with a character that stands for `e`, by itself or escaped. */
  predicate BeginsWith(s: string, n: nat, e: char) {
    if n == 1 then s != "" && s[0] != '\\' && s[0] != '\"' && s[0] == e
    else n == 2 && |s| >= 2 && s[0] == '\\' && IsEscape(s[1], e)
  }

  lemma SpellsFirst(body: string, text: string)
    requires body != "" && Spells(body, text)
    ensures var n := if body[0] == '\\' then 2 else 1;
            text != "" && BeginsWith(body, n, text[0]) && n <= |body| && Spells(body[n..], text[1..])
  {
    hide IsEscape;
  }

  lemma EscapeKnown(c: char, e: char)
    requires IsEscape(c, e)
    ensures Unescape(c) == Some(e)
  {
  }

  lemma StringFirst(s: string, n: nat, e: char)
    requires BeginsWith(s, n, e)
    ensures n <= |s|
    ensures var q := StringFrom(s, n);
            StringFrom(s, 0) == if q.None? then None else Some(Quoted([e] + q.value.text, q.value.close))
  {
    if n == 2 { EscapeKnown(s[1], e); }
    hide IsEscape, Unescape;
  }

  /** A string reads as the text that it spells, of 1024 characters at most, up to the first
      zero character in it. */
  lemma StringIsToken(body: string, text: string, s: string)
    requires Spells(body, text)
    ensures Words("\"" + body + "\"" + s, 0)
         == if |text| <= 1024 then Then(Word(Text, Terminated(text)), Words(s, 0)) else None
  {
    hide Words, Line, Column, Spells, Terminated;
    var p := "\"" + body + "\"";
    var whole := p + s;
    assert whole == "\"" + (body + ("\"" + s));
    StringLater("\"", body + ("\"" + s), 0);
    StringGoesOn(body, text, "\"" + s);
    assert StringFrom("\"" + s, 0) == Some(Quoted("", 0));
    assert text + "" == text;
    assert StringFrom(whole, 1) == Some(Quoted(text, |body| + 1));
    hide StringFrom;
    if |text| <= 1024 {
      WordsMade(whole, 0, MakeToken(whole, Text, Terminated(text), |body| + 1), |p|);
      RestOf(p, s);
    } else {
      WordsFailed(whole, 0);
    }
  }

  lemma {:induction false} ZeroEnds(a: string, b: string)
    requires '\0' !in a
    ensures Terminated(a) == a && Terminated(a + "\0" + b) == a
  {
    if a != "" {
      ZeroEnds(a[1..], b);
      assert a + "\0" + b == [a[0]] + (a[1..] + "\0" + b);
      assert a == [a[0]] + a[1..];
    }
  }

  /** A string that does not close stops the program, and so does a backslash at the end or
      before a character that is none of the eight. */
  lemma BadString(body: string, text: string, c: char, s: string)
    requires Spells(body, text)
    ensures Words("\"" + body, 0) == None && Words("\"" + body + "\\", 0) == None
    ensures c !in "ntbfr0\"\\" ==> Words("\"" + body + "\\" + [c] + s, 0) == None
  {
    hide Words, Spells;
    var tail := "\\" + [c] + s;
    StringGoesOn(body, text, "");
    StringGoesOn(body, text, "\\");
    StringGoesOn(body, text, tail);
    StringLater("\"", body + "", 0);
    StringLater("\"", body + "\\", 0);
    StringLater("\"", body + tail, 0);
    assert body + "" == body;
    assert "\"" + body + "\\" == "\"" + (body + "\\");
    assert "\"" + body + "\\" + [c] + s == "\"" + (body + tail);
    assert tail[0] == '\\' && tail[1] == c;
    var known := "ntbfr0\"\\";
    assert known[0] == 'n' && known[1] == 't' && known[2] == 'b' && known[3] == 'f';
    assert known[4] == 'r' && known[5] == '0' && known[6] == '\"' && known[7] == '\\';
    assert StringFrom("", 0) == None && StringFrom("\\", 0) == None;
    assert c !in known ==> StringFrom(tail, 0) == None;
    hide StringFrom;
    WordsFailed("\"" + body, 0);
    WordsFailed("\"" + body + "\\", 0);
    if c !in known { WordsFailed("\"" + body + "\\" + [c] + s, 0); }
  }

  /** Every text can be written as a string. */
  lemma {:induction false} Spelling(text: string) returns (body: string)
    ensures Spells(body, text)
  {
    if text == "" {
      body := "";
    } else {
      body := Spelling(text[1..]);
      EscapesSpell(body, text[1..]);
      assert text == [text[0]] + text[1..];
      if text[0] == '\"' {
        body := "\\\"" + body;
      } else if text[0] == '\\' {
        body := "\\\\" + body;
      } else {
        assert ([text[0]] + body)[1..] == body;
        body := [text[0]] + body;
      }
    }
  }

  // Positions

  /** Lines and columns count from one: one more line for each newline before, and in its line
      one more column for each character. */
  lemma {:induction false} LineAndColumn(before: string, line: string)
    requires '\n' !in line
    ensures Line(line) == 1 && Column(line) == |line| + 1
    ensures Line(before + "\n" + line) == Line(before) + 1 && Column(before + "\n" + line) == |line| + 1
    decreases |line|
  {
    var whole := before + "\n" + line;
    if line == "" {
      assert whole[..|whole| - 1] == before;
    } else {
      var n := |line| - 1;
      LineAndColumn(before, line[..n]);
      assert whole[..|whole| - 1] == before + "\n" + line[..n];
    }
  }

  /** Tokens come in the order of the source, and each has the line and the column of its end. */
  lemma {:induction false} TokensInPlace(s: string, i: nat, k: nat)
    requires i <= |s| && LexFrom(s, i).Some? && k < |LexFrom(s, i).value|
    ensures var t := LexFrom(s, i).value[k];
            && i < t.end <= |s| && t.start == t.end - |t.text|
            && t.line == Line(s[..t.end]) && t.column == Column(s[..t.end])
    ensures k + 1 < |LexFrom(s, i).value| ==> LexFrom(s, i).value[k].end < LexFrom(s, i).value[k + 1].end
    decreases |s| - i
  {
    hide Line, Column;
    var o := StepAt(s, i);
    StepAdvances(s, i);
    if o.Made? {
      StepEnds(s, i);
      var rest := LexFrom(s, o.next).value;
      if k > 0 { TokensInPlace(s, o.next, k - 1); }
      if k + 1 <= |rest| { TokensInPlace(s, o.next, 0); }
    } else {
      assert [] + LexFrom(s, o.next).value == LexFrom(s, o.next).value;
      TokensInPlace(s, o.next, k);
    }
    hide StepAt;
  }

  lemma StepEnds(s: string, i: nat)
    requires i < |s| && StepAt(s, i).Made?
    ensures var o := StepAt(s, i);
            && i < o.token.end <= o.next && o.token.start == o.token.end - |o.token.text|
            && o.token.line == Line(s[..o.token.end]) && o.token.column == Column(s[..o.token.end])
  {
    hide Line, Column;
  }
}
