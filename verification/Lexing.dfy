/** The tokeniser, as the S-expression parser sets it up: `;` starts a comment to the end
    of the line, parentheses are delimiters, and double quotes make strings. */
module Lexing {
  import opened Values

  const MAX_TOKEN_LENGTH: nat := 1024

  datatype Kind = Generic | Text | Delimiter

  /** `line` and `column` are those of the end of the token. */
  datatype Token = Token(kind: Kind, text: string, start: int, end: nat, line: nat, column: nat)

  predicate IsSpace(c: char) { c == ' ' || '\t' <= c <= '\r' }

  predicate IsDelimiter(c: char) { c == '(' || c == ')' }

  // Positions

  function Line(s: string): nat {
    if s == "" then 1 else Line(s[..|s| - 1]) + if s[|s| - 1] == '\n' then 1 else 0
  }

  function Column(s: string): nat {
    if s == "" || s[|s| - 1] == '\n' then 1 else Column(s[..|s| - 1]) + 1
  }

  /** A string of the program ends at its first zero character. */
  function Terminated(s: string): string {
    if s == "" || s[0] == '\0' then "" else [s[0]] + Terminated(s[1..])
  }

  function MakeToken(s: string, kind: Kind, text: string, end: nat): Token
    requires end <= |s|
  {
    Token(kind, text, end - |text|, end, Line(s[..end]), Column(s[..end]))
  }

  // One step, as a function of the cursor

  function SpaceEnd(s: string, i: nat): (j: nat)
    requires i <= |s|
    ensures i <= j <= |s|
    decreases |s| - i
  {
    if i < |s| && IsSpace(s[i]) then SpaceEnd(s, i + 1) else i
  }

  function LineEnd(s: string, i: nat): (j: nat)
    requires i <= |s|
    ensures i <= j <= |s|
    decreases |s| - i
  {
    if i == |s| then i else if s[i] == '\n' then i + 1 else LineEnd(s, i + 1)
  }

  function GenericEnd(s: string, i: nat): (j: nat)
    requires i <= |s|
    ensures i <= j <= |s|
    decreases |s| - i
  {
    if i == |s| || IsSpace(s[i]) || IsDelimiter(s[i]) then i else GenericEnd(s, i + 1)
  }

  function Unescape(c: char): Option<char> {
    if c == 'n' then Some('\n') else if c == 't' then Some('\t') else if c == 'b' then Some('\U{0008}')
    else if c == 'f' then Some('\U{000C}') else if c == 'r' then Some('\r') else if c == '0' then Some('\0')
    else if c == '\"' then Some('\"') else if c == '\\' then Some('\\') else None
  }

  /** What is between the quotes, and where the closing one is. */
  datatype Quoted = Quoted(text: string, close: nat)

  function StringFrom(s: string, i: nat): (q: Option<Quoted>)
    requires i <= |s|
    ensures q.Some? ==> i <= q.value.close < |s|
    decreases |s| - i
  {
    if i == |s| then None
    else if s[i] == '\\' then
      if i + 1 == |s| || Unescape(s[i + 1]).None? then None else
      var rest := StringFrom(s, i + 2);
      if rest.None? then None else Some(Quoted([Unescape(s[i + 1]).value] + rest.value.text, rest.value.close))
    else if s[i] == '\"' then Some(Quoted("", i))
    else
      var rest := StringFrom(s, i + 1);
      if rest.None? then None else Some(Quoted([s[i]] + rest.value.text, rest.value.close))
  }

  datatype Outcome = Skipped(next: nat) | Made(token: Token, next: nat) | Failed

  /** Fails where the program stops: on a string that does not close, an escape it does
      not know, or a token that is too long for its buffer. */
  function StepAt(s: string, i: nat): Outcome
    requires i < |s|
  {
    if IsSpace(s[i]) then Skipped(SpaceEnd(s, i))
    else if s[i] == ';' then Skipped(LineEnd(s, i + 1))
    else if IsDelimiter(s[i]) then Made(MakeToken(s, Delimiter, [s[i]], i + 1), i + 1)
    else if s[i] == '\"' then
      var q := StringFrom(s, i + 1);
      if q.None? || |q.value.text| > MAX_TOKEN_LENGTH then Failed
      else Made(MakeToken(s, Text, Terminated(q.value.text), q.value.close), q.value.close + 1)
    else
      var end := GenericEnd(s, i);
      if end - i > MAX_TOKEN_LENGTH then Failed
      else Made(MakeToken(s, Generic, s[i..end], end), end)
  }

  /** Every step that does not fail moves the cursor forward. */
  lemma StepAdvances(s: string, i: nat)
    requires i < |s| && !StepAt(s, i).Failed?
    ensures i < StepAt(s, i).next <= |s|
  {
  }

  /** The text of a token that is no string is what the source has between its positions. */
  lemma TokenIsSlice(s: string, i: nat)
    requires i < |s| && StepAt(s, i).Made? && StepAt(s, i).token.kind != Text
    ensures var t := StepAt(s, i).token;
            t.start == i && t.end == StepAt(s, i).next && s[t.start..t.end] == t.text
  {
  }

  lemma {:induction false} StringLength(s: string, i: nat)
    requires i <= |s| && StringFrom(s, i).Some?
    ensures var q := StringFrom(s, i).value;
            && |q.text| <= q.close - i
            && (|q.text| == q.close - i <==> forall k :: i <= k < q.close ==> s[k] != '\\')
            && (|q.text| == q.close - i ==> q.text == s[i..q.close])
    decreases |s| - i
  {
    if i < |s| && s[i] == '\\' {
      StringLength(s, i + 2);
    } else if i < |s| && s[i] != '\"' {
      StringLength(s, i + 1);
      assert s[i..StringFrom(s, i).value.close] == [s[i]] + s[i + 1..StringFrom(s, i).value.close];
    }
  }

  lemma {:induction false} TerminatedLength(s: string)
    ensures |Terminated(s)| <= |s|
    ensures |Terminated(s)| == |s| <==> '\0' !in s
    ensures |Terminated(s)| == |s| ==> Terminated(s) == s
  {
    if s != "" {
      TerminatedLength(s[1..]);
      assert s == [s[0]] + s[1..];
    }
  }

  /** The positions of a string are counted back from its end, as if each of its characters
      had been one in the source: they are right exactly when there is no escape in it. */
  lemma TextIsSliceUnlessEscaped(s: string, i: nat)
    requires i < |s| && StepAt(s, i).Made? && StepAt(s, i).token.kind == Text
    ensures var t := StepAt(s, i).token;
            && t.end + 1 == StepAt(s, i).next
            && (t.start == i + 1 <==> forall k :: i < k < t.end ==> s[k] != '\\' && s[k] != '\0')
            && (t.start == i + 1 ==> s[t.start..t.end] == t.text)
  {
    hide StringFrom, Terminated, Line, Column, SpaceEnd, LineEnd, GenericEnd;
    var q := StringFrom(s, i + 1).value;
    StringLength(s, i + 1);
    TerminatedLength(q.text);
    if |q.text| == q.close - (i + 1) {
      assert forall k :: i < k < q.close ==> q.text[k - (i + 1)] == s[k];
    }
  }

  function LexFrom(s: string, i: nat): Option<seq<Token>>
    requires i <= |s|
    decreases |s| - i
  {
    if i == |s| then Some([]) else
    var o := StepAt(s, i);
    if o.Failed? then None else
    StepAdvances(s, i);
    var rest := LexFrom(s, o.next);
    if rest.None? then None else Some((if o.Made? then [o.token] else []) + rest.value)
  }

  // The tokeniser itself

  class Lexer {
    const source: string
    var cursor: nat
    var lineno: nat
    var column: nat
    var buffer: string
    var tokens: seq<Token>

    ghost predicate Valid()
      reads this
    {
      cursor <= |source| && lineno == Line(source[..cursor]) && column == Column(source[..cursor])
    }

    constructor (source: string)
      ensures Valid() && this.source == source && cursor == 0 && tokens == []
    {
      this.source := source;
      cursor := 0;
      lineno := 1;
      column := 1;
      buffer := "";
      tokens := [];
    }

    method Step()
      requires Valid() && cursor < |source|
      modifies this`cursor, this`lineno, this`column
      ensures Valid() && cursor == old(cursor) + 1
    {
      assert source[..cursor + 1][..cursor] == source[..cursor];
      if source[cursor] == '\n' {
        lineno := lineno + 1;
        column := 1;
      } else {
        column := column + 1;
      }
      cursor := cursor + 1;
    }

    method IgnoreSpace() returns (done: bool)
      requires Valid() && cursor < |source|
      modifies this`cursor, this`lineno, this`column
      ensures Valid() && done == IsSpace(source[old(cursor)])
      ensures cursor == if done then SpaceEnd(source, old(cursor)) else old(cursor)
    {
      if !IsSpace(source[cursor]) { return false; }
      while cursor < |source|
        invariant Valid() && SpaceEnd(source, cursor) == SpaceEnd(source, old(cursor))
        decreases |source| - cursor
      {
        if !IsSpace(source[cursor]) { break; }
        Step();
      }
      done := true;
    }

    method IgnoreComment() returns (done: bool)
      requires Valid() && cursor < |source|
      modifies this`cursor, this`lineno, this`column
      ensures Valid() && done == (source[old(cursor)] == ';')
      ensures cursor == if done then LineEnd(source, old(cursor) + 1) else old(cursor)
    {
      if source[cursor] != ';' { return false; }
      Step();
      while cursor < |source|
        invariant Valid() && LineEnd(source, cursor) == LineEnd(source, old(cursor) + 1)
        decreases |source| - cursor
      {
        var c := source[cursor];
        Step();
        if c == '\n' { return true; }
      }
      done := true;
    }

    method CollectDelimiter() returns (done: bool)
      requires Valid() && cursor < |source|
      modifies this`cursor, this`lineno, this`column, this`tokens
      ensures Valid() && done == IsDelimiter(source[old(cursor)])
      ensures cursor == old(cursor) + if done then 1 else 0
      ensures tokens == old(tokens) + if done then [MakeToken(source, Delimiter, [source[old(cursor)]], cursor)] else []
    {
      if !IsDelimiter(source[cursor]) { return false; }
      var text := [source[cursor]];
      Step();
      tokens := tokens + [Token(Delimiter, text, cursor - 1, cursor, lineno, column)];
      done := true;
    }

    /** The buffer has room for a limited number of characters. */
    method CollectChar(c: char) returns (ok: bool)
      modifies this`buffer
      ensures buffer == old(buffer) + [c] && ok == (|buffer| <= MAX_TOKEN_LENGTH)
    {
      buffer := buffer + [c];
      ok := |buffer| <= MAX_TOKEN_LENGTH;
    }

    method CollectString() returns (done: bool, ok: bool)
      requires Valid() && cursor < |source|
      modifies this`cursor, this`lineno, this`column, this`buffer, this`tokens
      ensures Valid() && done == (source[old(cursor)] == '\"')
      ensures !done ==> ok && cursor == old(cursor) && tokens == old(tokens)
      ensures done ==>
                var q := StringFrom(source, old(cursor) + 1);
                && ok == (q.Some? && |q.value.text| <= MAX_TOKEN_LENGTH)
                && (ok ==> cursor == q.value.close + 1
                           && tokens == old(tokens)
                               + [MakeToken(source, Text, Terminated(q.value.text), q.value.close)])
    {
      hide Continues, StringFrom, Line, Column, Terminated, Unescape;
      if source[cursor] != '\"' { return false, true; }
      done := true;
      buffer := "";
      Step();
      ghost var start := cursor;
      ContinuesStart(source, start);
      while true
        invariant Valid() && start <= cursor && tokens == old(tokens) && |buffer| <= MAX_TOKEN_LENGTH
        invariant Continues(source, start, cursor, buffer)
        decreases |source| - cursor
      {
        if cursor == |source| {
          ContinuesStop(source, start, cursor, buffer);
          return true, false;
        }
        var c := source[cursor];
        if c == '\\' {
          ContinuesStop(source, start, cursor, buffer);
          Step();
          if cursor == |source| { return true, false; }
          var e := Unescape(source[cursor]);
          if e.None? { return true, false; }
          ContinuesOne(source, start, cursor - 1, buffer);
          ok := CollectChar(e.value);
          if !ok {
            return;
          }
          Step();
          continue;
        }
        if c == '\"' {
          var text := Terminated(buffer);
          tokens := tokens + [Token(Text, text, cursor - |text|, cursor, lineno, column)];
          ContinuesEnd(source, start, cursor, buffer);
          buffer := "";
          Step();
          return true, true;
        }
        ContinuesOne(source, start, cursor, buffer);
        ok := CollectChar(c);
        if !ok {
          return;
        }
        Step();
      }
    }

    method CollectGeneric() returns (ok: bool)
      requires Valid() && cursor < |source|
      modifies this`cursor, this`lineno, this`column, this`buffer, this`tokens
      ensures Valid()
      ensures var end := GenericEnd(source, old(cursor));
              && ok == (end - old(cursor) <= MAX_TOKEN_LENGTH)
              && (ok ==>
                    && cursor == end
                    && tokens == old(tokens) + [MakeToken(source, Generic, source[old(cursor)..end], end)])
    {
      buffer := "";
      ghost var start := cursor;
      while cursor < |source| && !IsSpace(source[cursor]) && !IsDelimiter(source[cursor])
        invariant Valid() && start <= cursor && tokens == old(tokens) && |buffer| <= MAX_TOKEN_LENGTH
        invariant buffer == source[start..cursor] && GenericEnd(source, cursor) == GenericEnd(source, start)
        decreases |source| - cursor
      {
        ok := CollectChar(source[cursor]);
        if !ok { return; }
        Step();
      }
      tokens := tokens + [Token(Generic, buffer, cursor - |buffer|, cursor, lineno, column)];
      buffer := "";
      ok := true;
    }

    /** Tries the kinds of tokens in turn. */
    method LexerStep() returns (ok: bool)
      requires Valid() && cursor < |source|
      modifies this`cursor, this`lineno, this`column, this`buffer, this`tokens
      ensures Valid()
      ensures ok == !StepAt(source, old(cursor)).Failed?
      ensures ok ==> cursor == StepAt(source, old(cursor)).next > old(cursor)
      ensures ok ==>
                var o := StepAt(source, old(cursor));
                tokens == old(tokens) + if o.Made? then [o.token] else []
    {
      hide Line, Column, Terminated, Unescape;
      ok := true;
      var done := IgnoreSpace();
      if done { return; }
      done := IgnoreComment();
      if done { return; }
      done := CollectDelimiter();
      if done { return; }
      done, ok := CollectString();
      if done { return; }
      ok := CollectGeneric();
    }

    method Run() returns (ok: bool)
      requires Valid() && cursor == 0 && tokens == []
      modifies this
      ensures LexFrom(source, 0) == if ok then Some(tokens) else None
    {
      hide StepAt, Line, Column, LexFrom;
      PrependNothing(LexFrom(source, 0));
      while cursor < |source|
        invariant Valid() && LexFrom(source, 0) == Prepend(tokens, LexFrom(source, cursor))
        decreases |source| - cursor
      {
        LexNext(source, cursor, tokens);
        ok := LexerStep();
        if !ok { return; }
      }
      LexStops(source);
      assert tokens + [] == tokens;
      ok := true;
    }
  }

  function Prepend(tokens: seq<Token>, rest: Option<seq<Token>>): Option<seq<Token>> {
    if rest.None? then None else Some(tokens + rest.value)
  }

  lemma LexNext(s: string, i: nat, tokens: seq<Token>)
    requires i < |s|
    ensures var o := StepAt(s, i);
            if o.Failed? then LexFrom(s, i).None?
            else
              && i < o.next <= |s|
              && Prepend(tokens, LexFrom(s, i))
                == Prepend(tokens + (if o.Made? then [o.token] else []), LexFrom(s, o.next))
  {
    hide Line, Column;
    var o := StepAt(s, i);
    if !o.Failed? {
      StepAdvances(s, i);
      var rest := LexFrom(s, o.next);
      var made := if o.Made? then [o.token] else [];
      if rest.Some? { assert tokens + (made + rest.value) == tokens + made + rest.value; }
    }
    hide StepAt;
  }

  lemma PrependNothing(rest: Option<seq<Token>>)
    ensures Prepend([], rest) == rest
  {
    if rest.Some? { assert [] + rest.value == rest.value; }
  }

  lemma LexStops(s: string)
    ensures LexFrom(s, |s|) == Some([])
  {
  }

  /** What has been collected from `start` to `i` is the beginning of the string. */
  ghost predicate Continues(s: string, start: nat, i: nat, buffer: string)
    requires start <= i <= |s|
  {
    var whole, rest := StringFrom(s, start), StringFrom(s, i);
    if rest.None? then whole.None?
    else whole == Some(Quoted(buffer + rest.value.text, rest.value.close))
  }

  lemma ContinuesOne(s: string, start: nat, i: nat, buffer: string)
    requires start <= i < |s| && s[i] != '\"' && Continues(s, start, i, buffer)
    ensures s[i] != '\\' ==> Continues(s, start, i + 1, buffer + [s[i]])
    ensures s[i] == '\\' && i + 1 < |s| && Unescape(s[i + 1]).Some?
            ==> Continues(s, start, i + 2, buffer + [Unescape(s[i + 1]).value])
  {
    var rest := StringFrom(s, i);
    if s[i] != '\\' {
      var next := StringFrom(s, i + 1);
      if next.Some? { assert buffer + ([s[i]] + next.value.text) == buffer + [s[i]] + next.value.text; }
    } else if i + 1 < |s| && Unescape(s[i + 1]).Some? {
      var next := StringFrom(s, i + 2);
      var c := [Unescape(s[i + 1]).value];
      if next.Some? { assert buffer + (c + next.value.text) == buffer + c + next.value.text; }
    }
  }

  lemma ContinuesStart(s: string, i: nat)
    requires i <= |s|
    ensures Continues(s, i, i, "")
  {
    var q := StringFrom(s, i);
    if q.Some? { assert "" + q.value.text == q.value.text; }
  }

  /** Where the program stops, there is no string. */
  lemma ContinuesStop(s: string, start: nat, i: nat, buffer: string)
    requires start <= i <= |s| && Continues(s, start, i, buffer)
    ensures i == |s| || (s[i] == '\\' && (i + 1 == |s| || Unescape(s[i + 1]).None?)) ==> StringFrom(s, start).None?
  {
  }

  lemma ContinuesEnd(s: string, start: nat, i: nat, buffer: string)
    requires start <= i < |s| && s[i] == '\"' && Continues(s, start, i, buffer)
    ensures StringFrom(s, start) == Some(Quoted(buffer, i))
  {
    assert buffer + "" == buffer;
  }

}
