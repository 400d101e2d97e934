/** shellWords of internal/cmd/raw_guard.go against the quoting rules of the shell.

    `MarkAt` reads a line byte by byte as sections 2.2 and 2.3 of the POSIX.1-2017 Shell Command
    Language do: every byte is blank between words, part of the quoting, kept as a literal byte, or
    active, which means the shell would do more than pass it on. `Fields` are the words after the
    quote removal of section 2.6.7. */
module ShellWords {
  import opened Text

  // ------------------------------------------------ the shell's reading

  datatype State = Plain | Escaped | Single | Double | DoubleEscaped

  datatype Mark = Blank | Quoting | Kept | Active

  predicate IsBlank(c: char) {
    c == ' ' || c == '\t'
  }

  /** Operators, expansions, braces and newlines, active wherever they are not quoted. */
  predicate IsSyntax(c: char) {
    c in {';', '&', '|', '<', '>', '(', ')', '$', '`', '{', '}', '\n'}
  }

  predicate IsGlob(c: char) {
    c == '*' || c == '?' || c == '['
  }

  /** The bytes a backslash escapes inside double quotes. */
  predicate EscapesInDouble(c: char) {
    c == '$' || c == '`' || c == '"' || c == '\\'
  }

  /** How the byte at `i` is quoted. */
  function StateAt(line: string, i: nat): State
    requires i <= |line|
  {
    if i == 0 then Plain
    else
      var c := line[i - 1];
      match StateAt(line, i - 1)
      case Plain => if c == '\'' then Single else if c == '"' then Double else if c == '\\' then Escaped else Plain
      case Escaped => Plain
      case Single => if c == '\'' then Plain else Single
      case Double =>
        if c == '"' then Plain
        else if c == '\\' && i < |line| && EscapesInDouble(line[i]) then DoubleEscaped
        else Double
      case DoubleEscaped => Double
  }

  predicate StartsWord(line: string, i: nat)
    requires i < |line|
  {
    i == 0 || (StateAt(line, i - 1).Plain? && IsBlank(line[i - 1]))
  }

  function MarkAt(line: string, i: nat): Mark
    requires i < |line|
  {
    var c := line[i];
    match StateAt(line, i)
    case Plain =>
      if IsBlank(c) then Blank
      else if c == '\'' || c == '"' || c == '\\' then Quoting
      else if IsSyntax(c) || IsGlob(c) then Active
      else if c == '#' && StartsWord(line, i) then Active
      else if c == '~' && (StartsWord(line, i) || line[i - 1] == '=' || line[i - 1] == ':') then Active
      else Kept
    case Escaped => if c == '\n' then Active else Kept
    case Single => if c == '\'' then Quoting else Kept
    case Double =>
      if c == '"' then Quoting
      else if c == '$' || c == '`' then Active
      else if c == '\\' && i + 1 < |line| && line[i + 1] == '\n' then Active
      else if c == '\\' && i + 1 < |line| && EscapesInDouble(line[i + 1]) then Quoting
      else Kept
    case DoubleEscaped => Kept
  }

  /** Every quote is closed and nothing is active: the shell passes literal words and nothing more. */
  predicate IsLiteral(line: string) {
    StateAt(line, |line|).Plain? && forall i :: 0 <= i < |line| ==> MarkAt(line, i) != Active
  }

  /** The end of the run of bytes without blanks at `i`. */
  function FieldEnd(line: string, i: nat): (e: nat)
    requires i <= |line|
    ensures i <= e <= |line|
    ensures forall k :: i <= k < e ==> MarkAt(line, k) != Blank
    ensures e < |line| ==> MarkAt(line, e) == Blank
    decreases |line| - i
  {
    if i < |line| && MarkAt(line, i) != Blank then FieldEnd(line, i + 1) else i
  }

  /** line[i..e] after quote removal. */
  function Unquote(line: string, i: nat, e: nat): string
    requires i <= e <= |line|
    decreases e
  {
    if i == e then "" else Unquote(line, i, e - 1) + if MarkAt(line, e - 1) == Kept then [line[e - 1]] else ""
  }

  /** The fields of the line from `i`, each after quote removal. */
  function Fields(line: string, i: nat): seq<string>
    requires i <= |line|
    decreases |line| - i
  {
    if i == |line| then []
    else if MarkAt(line, i) == Blank then Fields(line, i + 1)
    else
      var e := FieldEnd(line, i);
      assert e > i;
      [Unquote(line, i, e)] + Fields(line, e)
  }

  /** The words of a literal line. */
  function Words(line: string): Option<seq<string>> {
    if IsLiteral(line) then Some(Fields(line, 0)) else None
  }

  // ----------------------------------------------------------- the loop

  /** What the splitter holds at `i`: the words that ended, and the one being read since `a`. */
  ghost predicate Split(line: string, i: nat, words: seq<string>, inWord: bool, a: nat, cur: string)
    requires i <= |line|
  {
    if inWord then
      && a < i && cur == Unquote(line, a, i) && (forall k :: a <= k < i ==> MarkAt(line, k) != Blank)
      && Fields(line, 0) == words + Fields(line, a)
    else cur == "" && Fields(line, 0) == words + Fields(line, i) && (i == 0 || MarkAt(line, i - 1) == Blank)
  }

  predicate NoneActive(line: string, i: nat)
    requires i <= |line|
  {
    forall k :: 0 <= k < i ==> MarkAt(line, k) != Active
  }

  lemma {:induction false} FieldEndIs(line: string, i: nat, e: nat)
    requires i <= e <= |line| && (forall k :: i <= k < e ==> MarkAt(line, k) != Blank) && (e < |line| ==> MarkAt(line, e) == Blank)
    ensures FieldEnd(line, i) == e
    decreases e - i
  {
    if i < e {
      FieldEndIs(line, i + 1, e);
    }
  }

  /** A blank, or the end of the line, ends the word being read. */
  lemma EndsWord(line: string, i: nat, words: seq<string>, a: nat, cur: string)
    requires i <= |line| && Split(line, i, words, true, a, cur) && (i < |line| ==> MarkAt(line, i) == Blank)
    ensures Fields(line, 0) == words + [cur] + Fields(line, i)
  {
    FieldEndIs(line, a, i);
    assert Fields(line, a) == [cur] + Fields(line, i);
  }

  /** The next byte joins the word being read, or starts one. */
  lemma ReadsByte(line: string, i: nat, words: seq<string>, inWord: bool, a: nat, cur: string)
    requires i < |line| && Split(line, i, words, inWord, a, cur) && MarkAt(line, i) != Blank
    ensures Split(line, i + 1, words, true, if inWord then a else i,
                  cur + if MarkAt(line, i) == Kept then [line[i]] else "")
  {
    if !inWord {
      assert Unquote(line, i, i) == "";
    }
  }

  lemma SingleByte(line: string, i: nat)
    requires i < |line| && StateAt(line, i).Single? && line[i] != '\''
    ensures StateAt(line, i + 1).Single? && MarkAt(line, i) == Kept
  {
  }

  /** Inside single quotes everything up to the closing quote is kept. */
  lemma {:induction false} SingleQuoted(line: string, i: nat, e: nat)
    requires i <= e <= |line| && StateAt(line, i).Single? && forall k :: i <= k < e ==> line[k] != '\''
    ensures StateAt(line, e).Single? && Unquote(line, i, e) == line[i..e]
    ensures forall k :: i <= k < e ==> MarkAt(line, k) == Kept
    decreases e
  {
    hide StateAt, MarkAt;
    if i < e {
      SingleQuoted(line, i, e - 1);
      SingleByte(line, e - 1);
      assert line[i..e] == line[i..e - 1] + [line[e - 1]];
    }
  }

  lemma {:induction false} UnquoteJoins(line: string, a: nat, b: nat, c: nat)
    requires a <= b <= c <= |line|
    ensures Unquote(line, a, c) == Unquote(line, a, b) + Unquote(line, b, c)
    decreases c
  {
    if b < c {
      UnquoteJoins(line, a, b, c - 1);
    }
  }

  lemma NotLiteral(line: string, k: nat)
    requires k < |line| && MarkAt(line, k) == Active
    ensures Words(line) == None
  {
  }

  /** The state inside a quote that never closes. */
  lemma {:induction false} NeverCloses(line: string, i: nat)
    requires 0 < i <= |line| && StateAt(line, i).Single? && forall k :: i <= k < |line| ==> line[k] != '\''
    ensures Words(line) == None
  {
    SingleQuoted(line, i, |line|);
  }

  /** The single-quoted text after the quote at `i`: the position of the closing quote, or None. */
  method SingleText(line: string, i: nat, ghost words: seq<string>, ghost inWord: bool, ghost a: nat, cur: string)
    returns (end: Option<nat>, text: string)
    requires i < |line| && StateAt(line, i).Plain? && line[i] == '\'' && NoneActive(line, i)
    requires Split(line, i, words, inWord, a, cur)
    ensures end == None ==> Words(line) == None
    ensures end.Some? ==>
              && i < end.value < |line| && StateAt(line, end.value + 1).Plain? && NoneActive(line, end.value + 1)
              && Split(line, end.value + 1, words, true, if inWord then a else i, cur + text)
  {
    hide IsSyntax, IsGlob, StartsWord, EscapesInDouble, FieldEnd, Fields, Split, Unquote, Words;
    var n := IndexOf(line[i + 1..], '\'');
    QuoteEnd(line, i, n);
    ReadsByte(line, i, words, inWord, a, cur);
    if n == |line| - i - 1 {
      NeverCloses(line, i + 1);
      return None, "";
    }
    var e := i + 1 + n;
    text := line[i + 1..e];
    SingleQuoted(line, i + 1, e);
    ghost var b := if inWord then a else i;
    assert cur + "" == cur;
    ReadsRun(line, i + 1, e, words, b, cur);
    ReadsByte(line, e, words, true, b, cur + text);
    assert cur + text + "" == cur + text;
    end := Some(e);
  }

  lemma ReadsRun(line: string, i: nat, e: nat, words: seq<string>, a: nat, cur: string)
    requires i <= e <= |line| && Split(line, i, words, true, a, cur) && forall k :: i <= k < e ==> MarkAt(line, k) == Kept
    ensures Split(line, e, words, true, a, cur + Unquote(line, i, e))
  {
    hide Fields, MarkAt;
    UnquoteJoins(line, a, i, e);
  }

  lemma QuoteEnd(line: string, i: nat, n: nat)
    requires i < |line| && n == IndexOf(line[i + 1..], '\'')
    ensures i + 1 + n <= |line| && (forall k :: i + 1 <= k < i + 1 + n ==> line[k] != '\'')
    ensures i + 1 + n < |line| ==> line[i + 1 + n] == '\''
  {
    var rest := line[i + 1..];
    forall k | i + 1 <= k < i + 1 + n ensures line[k] != '\'' {
      assert rest[..n][k - i - 1] == rest[k - i - 1] == line[k];
    }
  }

  /** The double-quoted text after the quote at `i`: the position of the closing quote, or None. */
  method DoubleText(line: string, i: nat, ghost words: seq<string>, ghost inWord: bool, ghost a: nat, cur: string)
    returns (end: Option<nat>, text: string)
    requires i < |line| && StateAt(line, i).Plain? && line[i] == '"' && NoneActive(line, i)
    requires Split(line, i, words, inWord, a, cur)
    ensures end == None ==> Words(line) == None
    ensures end.Some? ==>
              && i < end.value < |line| && StateAt(line, end.value + 1).Plain? && NoneActive(line, end.value + 1)
              && Split(line, end.value + 1, words, true, if inWord then a else i, text)
  {
    hide IsSyntax, IsGlob, StartsWord, FieldEnd, Fields, Split, Words;
    ghost var b := if inWord then a else i;
    ReadsByte(line, i, words, inWord, a, cur);
    text := cur;
    assert cur + "" == cur;
    var k := i + 1;
    while true
      invariant i < k <= |line| && StateAt(line, k).Double? && NoneActive(line, k)
      invariant Split(line, k, words, true, b, text)
      decreases |line| - k
    {
      if k >= |line| {
        OpenAtEnd(line);
        return None, "";
      }
      var c := line[k];
      ReadsByte(line, k, words, true, b, text);
      assert text + "" == text;
      if c == '"' {
        return Some(k), text;
      }
      if c == '$' || c == '`' || (c == '\\' && k + 1 < |line| && line[k + 1] == '\n') {
        NotLiteral(line, k);
        return None, "";
      }
      if c == '\\' && k + 1 < |line| && line[k + 1] in "$`\"\\" {
        k := k + 1;
        c := line[k];
        ReadsByte(line, k, words, true, b, text);
      }
      text := text + [c];
      k := k + 1;
    }
  }

  lemma OpenAtEnd(line: string)
    requires !StateAt(line, |line|).Plain?
    ensures Words(line) == None
  {
  }

  /** Splits a line into the words the shell would pass to a command. */
  method ShellWords(line: string) returns (r: Option<seq<string>>)
    ensures r == Words(line)
  {
    hide FieldEnd, Fields, Words, Split;
    var words: seq<string> := [];
    var cur := "";
    var inWord := false;
    ghost var a := 0;
    Starts(line);
    var i := 0;
    while i < |line|
      invariant i <= |line| && StateAt(line, i).Plain? && NoneActive(line, i)
      invariant Split(line, i, words, inWord, a, cur)
    {
      var c := line[i];
      WordStarts(line, i, words, inWord, a, cur);
      if c == ' ' || c == '\t' {
        BlankByte(line, i, words, inWord, a, cur);
        if inWord {
          words, cur, inWord := words + [cur], "", false;
        }
        i := i + 1;
      } else if c == '\'' {
        var end, text := SingleText(line, i, words, inWord, a, cur);
        if end == None {
          return None;
        }
        a := if inWord then a else i;
        i, cur, inWord := end.value + 1, cur + text, true;
      } else if c == '"' {
        var end, text := DoubleText(line, i, words, inWord, a, cur);
        if end == None {
          return None;
        }
        a := if inWord then a else i;
        i, cur, inWord := end.value + 1, text, true;
      } else if c == '\\' {
        if i + 1 >= |line| {
          OpenAtEnd(line);
          return None;
        }
        if line[i + 1] == '\n' {
          NotLiteral(line, i + 1);
          return None;
        }
        ReadsByte(line, i, words, inWord, a, cur);
        assert cur + "" == cur;
        a := if inWord then a else i;
        ReadsByte(line, i + 1, words, true, a, cur);
        i, cur, inWord := i + 2, cur + [line[i + 1]], true;
      } else if (c == '#' && !inWord) || c in "*?[" || (c == '~' && (!inWord || line[i - 1] == '=' || line[i - 1] == ':'))
                || c in ";&|<>()$`{}\n" {
        NotLiteral(line, i);
        return None;
      } else {
        ReadsByte(line, i, words, inWord, a, cur);
        a := if inWord then a else i;
        i, cur, inWord := i + 1, cur + [c], true;
      }
    }
    AtEnd(line, words, inWord, a, cur);
    if inWord {
      words := words + [cur];
    }
    r := Some(words);
  }

  lemma Starts(line: string)
    ensures Split(line, 0, [], false, 0, "")
  {
  }

  /** The splitter is outside words exactly where a word may start. */
  lemma WordStarts(line: string, i: nat, words: seq<string>, inWord: bool, a: nat, cur: string)
    requires i < |line| && StateAt(line, i).Plain? && Split(line, i, words, inWord, a, cur)
    ensures inWord == !StartsWord(line, i) && (inWord ==> i > 0) && (!inWord ==> cur == "")
  {
    hide FieldEnd, Fields, Unquote, IsSyntax, IsGlob;
    if i > 0 {
      assert (MarkAt(line, i - 1) == Blank) == (StateAt(line, i - 1).Plain? && IsBlank(line[i - 1]));
    }
  }

  lemma BlankByte(line: string, i: nat, words: seq<string>, inWord: bool, a: nat, cur: string)
    requires i < |line| && Split(line, i, words, inWord, a, cur) && MarkAt(line, i) == Blank
    ensures Split(line, i + 1, if inWord then words + [cur] else words, false, a, "")
  {
    hide FieldEnd, Unquote, MarkAt;
    if inWord {
      EndsWord(line, i, words, a, cur);
    }
  }

  lemma AtEnd(line: string, words: seq<string>, inWord: bool, a: nat, cur: string)
    requires StateAt(line, |line|).Plain? && NoneActive(line, |line|) && Split(line, |line|, words, inWord, a, cur)
    ensures Words(line) == Some(if inWord then words + [cur] else words)
  {
    hide FieldEnd, Unquote, MarkAt;
    assert Fields(line, |line|) == [] && words + [] == words && words + [cur] + [] == words + [cur];
    if inWord {
      EndsWord(line, |line|, words, a, cur);
    }
  }
}
