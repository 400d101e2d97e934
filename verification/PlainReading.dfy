/** How the text of a dump is read, byte by byte, and that the scan reads it so.

    `PlaceAt` follows the mysql client's reading one byte at a time, without knowing the scan's steps:
    strings with backslash escapes, names in backticks, the three kinds of comments, versioned comments
    whose body is code, and lines the client takes for itself. Wherever the scan of a text stands, its
    mode is the place of that position. */
module PlainReading {
  import opened Text
  import opened SqlChecks
  import S = Statements
  import opened DumpLexer
  import R = ScanRuns
  import opened LineStarts

  /** Whether the byte is in a versioned comment, and in one of the version no server has. */
  datatype Version = Outside | Live | Dead

  datatype Place =
    | AtStart(v: Version)           // code, behind a newline
    | InCode(v: Version)
    | Mark(v: Version)                // behind a backslash in code
    | Closing                         // at the / that ends a versioned comment
    | InQuote(q: char, v: Version)
    | Escaped(q: char, v: Version)    // behind a backslash in a string
    | InLine(v: Version)              // a comment to the end of the line
    | Opening(v: Version)             // at the * that opens a comment
    | InBlock(v: Version)
    | Starred(v: Version)             // in a comment, behind a *
    | OfClient(v: Version)            // a line the client takes for itself

  /** The line at `k` is one the client takes for itself. */
  ghost predicate ClientLine(text: string, k: nat) {
    !DroppedLine(text, k) && exists b: nat, e: nat ::
      FirstWord(text, k, b, e) &&
      (Spells(text[b..e], "USE") || (Spells(text[b..e], "DELIMITER") && e < |text| && text[e] != '\n' && IsSpace(text[e])))
  }

  /** The version of a versioned comment whose digits start at `i`. */
  function VersionAt(text: string, i: nat): Version {
    if At(text, i, '9') && At(text, i + 1, '9') && At(text, i + 2, '9') && At(text, i + 3, '9') && At(text, i + 4, '9') && At(text, i + 5, '9')
    then Dead else Live
  }

  /** The place behind the byte of code at `i`. */
  function Behind(text: string, i: nat, v: Version): Place
    requires i < |text|
  {
    var c := text[i];
    if c == '\n' then AtStart(v)
    else if c == '\'' || c == '"' || c == '`' then InQuote(c, v)
    else if c == '\\' then Mark(v)
    else if DroppedLine(text, i) then InLine(v)
    else if c == '/' && At(text, i + 1, '*') then
      if At(text, i + 2, '!') then InCode(VersionAt(text, i + 3))
      else if At(text, i + 2, 'M') && At(text, i + 3, '!') then InCode(VersionAt(text, i + 4))
      else Opening(v)
    else if c == '*' && At(text, i + 1, '/') && v != Outside then Closing
    else InCode(v)
  }

  /** The place of the byte at `i`. */
  ghost function PlaceAt(text: string, i: nat): Place
    requires i <= |text|
  {
    if i == 0 then AtStart(Outside)
    else
      var c := text[i - 1];
      match PlaceAt(text, i - 1)
      case AtStart(v) => if c != '\n' && ClientLine(text, i - 1) then OfClient(v) else Behind(text, i - 1, v)
      case InCode(v) => Behind(text, i - 1, v)
      case Mark(v) => InCode(v)
      case Closing => InCode(Outside)
      case InQuote(q, v) => if c == q then InCode(v) else if c == '\\' && q != '`' then Escaped(q, v) else InQuote(q, v)
      case Escaped(q, v) => InQuote(q, v)
      case InLine(v) => if c == '\n' then AtStart(v) else InLine(v)
      case Opening(v) => InBlock(v)
      case InBlock(v) => if c == '*' then Starred(v) else InBlock(v)
      case Starred(v) => if c == '/' then InCode(v) else if c == '*' then Starred(v) else InBlock(v)
      case OfClient(v) => if c == '\n' then AtStart(v) else OfClient(v)
  }

  // ---------------------------------------------------------- the scan's mode

  function VersionOf(x: Lex): Version {
    if !x.cond then Outside else if x.dead then Dead else Live
  }

  predicate Flags(x: Lex) {
    x.dead ==> x.cond
  }

  /** The scan in mode `x` stands at a byte of this place. */
  ghost predicate Agrees(text: string, k: nat, x: Lex)
    requires k < |text|
  {
    && Flags(x) && PlainDelimiter(x.delim)
    && match x.mode
       case Code =>
         if x.bol then PlaceAt(text, k) == AtStart(VersionOf(x))
         else
           || PlaceAt(text, k) == InCode(VersionOf(x))
           || (PlaceAt(text, k) == AtStart(VersionOf(x)) && (text[k] != '\n' ==> !ClientLine(text, k)))
           || (PlaceAt(text, k) == InLine(VersionOf(x)) && text[k] == '\n')
       case Quote(q) => PlaceAt(text, k) == InQuote(q, VersionOf(x))
       case Comment =>
         PlaceAt(text, k) == InBlock(VersionOf(x)) || (PlaceAt(text, k) == Starred(VersionOf(x)) && text[k] != '/')
  }

  /** A byte that leaves code code. */
  predicate Neutral(c: char) {
    c != '\n' && c != '\'' && c != '"' && c != '`' && c != '\\' && c != '#' && c != '-' && c != '/' && c != '*'
  }

  lemma {:induction false} CodeRun(text: string, i: nat, j: nat, v: Version)
    requires i <= j <= |text| && (forall k :: i <= k < j ==> Neutral(text[k]))
    requires PlaceAt(text, i) == InCode(v) || (i < j && PlaceAt(text, i) == AtStart(v) && !ClientLine(text, i))
    ensures PlaceAt(text, j) == InCode(v)
    decreases j - i
  {
    hide ClientLine;
    if i < j {
      assert Behind(text, i, v) == InCode(v);
      assert PlaceAt(text, i + 1) == InCode(v);
      hide PlaceAt;
      CodeRun(text, i + 1, j, v);
    }
  }

  lemma {:induction false} LineRun(text: string, i: nat, j: nat)
    requires i <= j <= |text| && (forall k :: i <= k < j ==> text[k] != '\n') && (PlaceAt(text, i).InLine? || PlaceAt(text, i).OfClient?)
    ensures PlaceAt(text, j) == PlaceAt(text, i)
    decreases j - i
  {
    hide ClientLine, Behind;
    if i < j {
      assert PlaceAt(text, i + 1) == PlaceAt(text, i);
      hide PlaceAt;
      LineRun(text, i + 1, j);
    }
  }

  // ------------------------------------------------------ one step of the scan

  lemma QuoteAgrees(text: string, i: nat, x: Lex)
    requires i < |text| && ValidLex(x) && x.mode.Quote? && Agrees(text, i, x) && QuoteStep(text, i, x).Some?
    requires QuoteStep(text, i, x).value.next < |text| && x.mode.q in {'\'', '"', '`'}
    ensures Agrees(text, QuoteStep(text, i, x).value.next, QuoteStep(text, i, x).value.lex)
  {
    hide ClientLine, DroppedLine, PlainDelimiter;
    var (q, v) := (x.mode.q, VersionOf(x));
    var n := QuoteStep(text, i, x).value.next;
    assert PlaceAt(text, i + 1) == if text[i] == q then InCode(v) else if text[i] == '\\' && q != '`' then Escaped(q, v) else InQuote(q, v);
    if n == i + 2 {
      assert PlaceAt(text, i + 2) == InQuote(q, v);
    }
  }

  lemma CommentAgrees(text: string, i: nat, x: Lex)
    requires i < |text| && ValidLex(x) && x.mode.Comment? && Agrees(text, i, x) && CommentStep(text, i, x).next < |text|
    ensures Agrees(text, CommentStep(text, i, x).next, CommentStep(text, i, x).lex)
  {
    hide ClientLine, DroppedLine, PlainDelimiter, Behind;
    var v := VersionOf(x);
    if StarSlash(text, i) {
      assert PlaceAt(text, i + 1) == Starred(v);
      assert PlaceAt(text, i + 2) == InCode(v);
    } else {
      assert PlaceAt(text, i + 1) == if text[i] == '*' then Starred(v) else InBlock(v);
    }
  }

  // The line starts.

  lemma WordSpells(text: string, i: nat, word: string)
    requires i <= |text| && LineWord(text, i) == word && word != ""
    ensures i + |word| <= |text| && Spells(text[i..i + |word|], word) && (forall k :: i <= k < i + |word| ==> IsWordByte(text[k]))
    ensures i + |word| < |text| ==> !IsWordByte(text[i + |word|])
  {
    SpellsUpper(text[i..i + |word|], word);
  }

  lemma TakenByClient(text: string, i: nat, word: string)
    requires i <= |text| && !DroppedLine(text, i) && LineWord(text, BlanksEnd(text, i)) == word
    requires word == "USE" || (word == "DELIMITER" && var k := BlanksEnd(text, i) + 9; k < |text| && IsLineSpace(text[k]))
    ensures ClientLine(text, i)
  {
    hide LineWord, BlanksEnd, Spells, DroppedLine;
    var b := BlanksEnd(text, i);
    WordSpells(text, b, word);
    var e := b + |word|;
    assert FirstWord(text, i, b, e);
  }

  lemma LeftByClient(text: string, i: nat)
    requires i < |text| && !DroppedLine(text, i)
    requires var w := LineWord(text, BlanksEnd(text, i));
             w != "USE" && (w == "DELIMITER" ==> var k := BlanksEnd(text, i) + 9; k < |text| ==> !IsLineSpace(text[k]))
    ensures !ClientLine(text, i)
  {
    hide LineWord, BlanksEnd, Spells, DroppedLine;
    if ClientLine(text, i) {
      var b: nat, e: nat :| FirstWord(text, i, b, e) &&
        (Spells(text[b..e], "USE") || (Spells(text[b..e], "DELIMITER") && e < |text| && text[e] != '\n' && IsSpace(text[e])));
      WordFits(text, i, b, e);
      FirstWordIs(text, i, b, e);
      SpellsUpper(text[b..e], "USE");
      SpellsUpper(text[b..e], "DELIMITER");
    }
  }

  lemma WordFits(text: string, i: nat, b: nat, e: nat)
    requires FirstWord(text, i, b, e) && (Spells(text[b..e], "USE") || Spells(text[b..e], "DELIMITER"))
    ensures e - b == 3 || e - b == 9
    ensures Spells(text[b..e], "DELIMITER") ==> e == b + 9
  {
  }

  lemma LineAgrees(text: string, i: nat, x: Lex)
    requires i < |text| && ValidLex(x) && x.bol && x.mode.Code? && Agrees(text, i, x) && LineStart(text, i, x).Some?
    requires LineStart(text, i, x).value.next < |text|
    ensures PlainDelimiter(LineStart(text, i, x).value.lex.delim) ==>
              Agrees(text, LineStart(text, i, x).value.next, LineStart(text, i, x).value.lex)
  {
    var out := LineStart(text, i, x).value;
    if CommentLine(text, i) {
      DroppedAgrees(text, i, x);
    } else {
      OpenLineAgrees(text, i, x);
    }
  }

  lemma DroppedAgrees(text: string, i: nat, x: Lex)
    requires i < |text| && ValidLex(x) && x.bol && x.mode.Code? && Agrees(text, i, x) && CommentLine(text, i) && !x.cond
    requires NextLine(text, i) < |text|
    ensures Agrees(text, NextLine(text, i), x)
  {
    hide PlainDelimiter;
    var e := LineEnd(text, i);
    assert PlaceAt(text, i + 1) == InLine(Outside) by {
      hide FirstWord;
    }
    if e < |text| {
      hide PlaceAt, ClientLine;
      LineRun(text, i + 1, e);
      BehindNewline(text, e);
    } else {
      hide PlaceAt, ClientLine;
    }
  }

  lemma BehindNewline(text: string, e: nat)
    requires e < |text| && text[e] == '\n' && (PlaceAt(text, e).InLine? || PlaceAt(text, e).OfClient?)
    ensures PlaceAt(text, e + 1) == AtStart(PlaceAt(text, e).v)
  {
    hide ClientLine;
  }

  lemma OpenLineAgrees(text: string, i: nat, x: Lex)
    requires i < |text| && ValidLex(x) && x.bol && x.mode.Code? && Agrees(text, i, x) && !CommentLine(text, i)
    requires LineCommand(text, BlanksEnd(text, i), x).Some? && LineCommand(text, BlanksEnd(text, i), x).value.next < |text|
    ensures var out := LineCommand(text, BlanksEnd(text, i), x).value; PlainDelimiter(out.lex.delim) ==> Agrees(text, out.next, out.lex)
  {
    hide PlainDelimiter, ClientLine, LineWord, TrimSpace, DelimiterOk, IsClientCommand, LineEnd;
    var j := BlanksEnd(text, i);
    var out := LineCommand(text, j, x).value;
    SameDropped(text, i);
    if out.event.Skip? {
      assert !ClientLine(text, i) by {
        LeftByClient(text, i);
      }
      if i < j {
        CodeRun(text, i, j, VersionOf(x));
      }
    } else {
      var k := j + |LineWord(text, j)|;
      assert LineWord(text, j) == "USE" || LineWord(text, j) == "DELIMITER";
      assert LineWord(text, j) == "DELIMITER" ==> |LineWord(text, j)| == 9;
      assert LineWord(text, j) == "DELIMITER" ==> k < |text| && IsLineSpace(text[k]);
      WordSpells(text, j, LineWord(text, j));
      assert forall m :: i <= m < k ==> text[m] != '\n';
      TakenByClient(text, i, LineWord(text, j));
      LineIsClients(text, i, k, VersionOf(x));
    }
  }

  lemma LineIsClients(text: string, i: nat, k: nat, v: Version)
    requires i < k <= |text| && PlaceAt(text, i) == AtStart(v) && ClientLine(text, i) && (forall m :: i <= m < k ==> text[m] != '\n')
    requires NextLine(text, k) < |text|
    ensures PlaceAt(text, NextLine(text, k)) == AtStart(v)
  {
    hide ClientLine, Behind;
    var e := LineEnd(text, k);
    assert PlaceAt(text, i + 1) == OfClient(v);
    hide PlaceAt;
    LineRun(text, i + 1, e);
    BehindNewline(text, e);
  }

  // Code.

  lemma CodeByteAgrees(text: string, i: nat, x: Lex)
    requires i < |text| && x.mode.Code? && !x.bol && Agrees(text, i, x)
    ensures PlaceAt(text, i + 1) == if PlaceAt(text, i).InLine? then AtStart(VersionOf(x)) else Behind(text, i, VersionOf(x))
  {
    hide ClientLine, Behind, PlainDelimiter;
    assert text[i] == '\n' ==> Behind(text, i, VersionOf(x)) == AtStart(VersionOf(x)) by {
      if text[i] == '\n' {
        NewlineStarts(text, i, VersionOf(x));
      }
    }
  }

  lemma NewlineStarts(text: string, i: nat, v: Version)
    requires i < |text| && text[i] == '\n'
    ensures Behind(text, i, v) == AtStart(v)
  {
  }

  lemma DelimiterAgrees(text: string, i: nat, x: Lex)
    requires i < |text| && ValidLex(x) && x.mode.Code? && !x.bol && Agrees(text, i, x) && DelimiterAt(text, i, x.delim)
    requires i + |x.delim| < |text|
    ensures PlaceAt(text, i + |x.delim|) == InCode(VersionOf(x))
  {
    var e := i + |x.delim|;
    forall k | i <= k < e ensures Neutral(text[k]) {
      assert text[i..e][k - i] == text[k] && DelimiterByte(x.delim[k - i]);
    }
    hide ClientLine, Behind;
    CodeRun(text, i, e, VersionOf(x));
  }

  /** The byte that opens a quote, starts a line or is only itself. */
  lemma OneByteAgrees(text: string, i: nat, x: Lex)
    requires i + 1 < |text| && ValidLex(x) && x.mode.Code? && !x.bol && Agrees(text, i, x) && !DelimiterAt(text, i, x.delim)
    requires CodeStep(text, i, x).Some? && CodeStep(text, i, x).value.next == i + 1 && !CodeStep(text, i, x).value.event.LineComment?
    ensures Agrees(text, i + 1, CodeStep(text, i, x).value.lex)
  {
    CodeByteAgrees(text, i, x);
    SameDropped(text, i);
    hide ClientLine, PlainDelimiter, PlaceAt, CommentLine, DroppedLine, VersionEnd, NeverRun, LineEnd, VersionAt, DelimiterAt;
  }

  lemma LineCommentAgrees(text: string, i: nat, x: Lex)
    requires i < |text| && ValidLex(x) && x.mode.Code? && !x.bol && Agrees(text, i, x) && CommentLine(text, i) && text[i] != '\n'
    requires LineEnd(text, i + 1) < |text|
    ensures Agrees(text, LineEnd(text, i + 1), x)
  {
    CodeByteAgrees(text, i, x);
    hide ClientLine, PlainDelimiter, PlaceAt;
    SameDropped(text, i);
    assert PlaceAt(text, i + 1) == InLine(VersionOf(x));
    LineRun(text, i + 1, LineEnd(text, i + 1));
  }

  lemma OpenerAgrees(text: string, i: nat, x: Lex)
    requires i < |text| && ValidLex(x) && x.mode.Code? && !x.bol && Agrees(text, i, x) && At(text, i, '/') && At(text, i + 1, '*')
    requires OpenStep(text, i, x).Some? && OpenStep(text, i, x).value.next < |text|
    ensures Agrees(text, OpenStep(text, i, x).value.next, OpenStep(text, i, x).value.lex)
  {
    hide ClientLine, PlainDelimiter, PlaceAt, VersionEnd, NeverRun, CondOpener, Behind, VersionAt;
    CodeByteAgrees(text, i, x);
    NoNewline(text, i, x);
    OpenerIs(text, i, VersionOf(x));
    var n := CondOpener(text, i);
    if n > 0 {
      VersionAgrees(text, i, n);
    } else {
      BlockOpens(text, i, VersionOf(x));
    }
  }

  lemma NoNewline(text: string, i: nat, x: Lex)
    requires i < |text| && Agrees(text, i, x) && At(text, i, '/') && x.mode.Code? && !x.bol
    ensures !PlaceAt(text, i).InLine?
  {
    hide ClientLine, PlainDelimiter, PlaceAt;
  }

  lemma OpenerIs(text: string, i: nat, v: Version)
    requires At(text, i, '/') && At(text, i + 1, '*')
    ensures var n := CondOpener(text, i); Behind(text, i, v) == if n > 0 then InCode(VersionAt(text, i + n)) else Opening(v)
  {
    hide VersionAt;
  }

  lemma BlockOpens(text: string, i: nat, v: Version)
    requires i + 1 < |text| && PlaceAt(text, i + 1) == Opening(v)
    ensures PlaceAt(text, i + 2) == InBlock(v)
  {
    hide ClientLine, Behind;
  }

  lemma DigitsAre(text: string, i: nat)
    requires i <= |text|
    ensures (VersionAt(text, i) == Dead) == NeverRun(text, i)
  {
    if VersionAt(text, i) == Dead {
      SixDigits(text, i);
    }
    if NeverRun(text, i) {
      NinesAre(text, i);
    }
  }

  lemma NinesAre(text: string, i: nat)
    requires i <= |text| && NeverRun(text, i)
    ensures VersionAt(text, i) == Dead
  {
    var w := text[i..VersionEnd(text, i)];
    assert |w| == 6 && VersionEnd(text, i) == i + 6;
    assert w[0] == text[i] && w[1] == text[i + 1] && w[2] == text[i + 2];
    assert w[3] == text[i + 3] && w[4] == text[i + 4] && w[5] == text[i + 5];
  }

  lemma SixDigits(text: string, i: nat)
    requires VersionAt(text, i) == Dead
    ensures i + 6 <= |text| && VersionEnd(text, i) == i + 6 && text[i..i + 6] == "999999"
  {
    DigitsRun(text, i, 6, 6);
  }

  lemma {:induction false} DigitsRun(text: string, i: nat, n: nat, max: nat)
    requires n <= max && i + n <= |text| && forall k :: i <= k < i + n ==> IsDigit(text[k])
    ensures DigitsLength(text, i, max) >= n
    decreases n
  {
    if n > 0 {
      DigitsRun(text, i + 1, n - 1, max - 1);
    }
  }

  /** Behind the opener and the digits of a versioned comment. */
  lemma VersionAgrees(text: string, i: nat, n: nat)
    requires i < |text| && n == CondOpener(text, i) > 0 && VersionEnd(text, i + n) < |text|
    requires PlaceAt(text, i + 1) == InCode(VersionAt(text, i + n))
    ensures PlaceAt(text, VersionEnd(text, i + n)) == InCode(if NeverRun(text, i + n) then Dead else Live)
  {
    DigitsAre(text, i + n);
    var v := VersionAt(text, i + n);
    hide VersionAt, NeverRun, ClientLine, DroppedLine;
    assert v == if NeverRun(text, i + n) then Dead else Live;
    assert PlaceAt(text, i + 2) == Behind(text, i + 1, v) == InCode(v);
    CodeRun(text, i + 2, VersionEnd(text, i + n), v);
  }

  lemma EndsAgree(text: string, i: nat, x: Lex)
    requires i < |text| && ValidLex(x) && x.mode.Code? && !x.bol && Agrees(text, i, x) && text[i] != '\n' && DelimiterAt(text, i, x.delim)
    requires CodeStep(text, i, x).Some? && CodeStep(text, i, x).value.next < |text|
    ensures Agrees(text, CodeStep(text, i, x).value.next, CodeStep(text, i, x).value.lex)
  {
    hide ClientLine, PlainDelimiter, PlaceAt, DelimiterAt, PunctuationStep;
    DelimiterAgrees(text, i, x);
  }

  lemma MarkAgrees(text: string, i: nat, x: Lex)
    requires i < |text| && ValidLex(x) && x.mode.Code? && !x.bol && Agrees(text, i, x) && !DelimiterAt(text, i, x.delim)
    requires CodeStep(text, i, x).Some? && CodeStep(text, i, x).value.event.Sandbox? && CodeStep(text, i, x).value.next < |text|
    ensures Agrees(text, CodeStep(text, i, x).value.next, CodeStep(text, i, x).value.lex)
  {
    CodeByteAgrees(text, i, x);
    hide ClientLine, PlainDelimiter, DelimiterAt, OpenStep, DroppedLine, CommentLine;
    assert text[i] == '\\';
    assert PlaceAt(text, i + 1) == Mark(VersionOf(x));
    assert PlaceAt(text, i + 2) == InCode(VersionOf(x));
  }

  lemma CloseAgrees(text: string, i: nat, x: Lex)
    requires i < |text| && ValidLex(x) && x.mode.Code? && !x.bol && Agrees(text, i, x) && !DelimiterAt(text, i, x.delim)
    requires CodeStep(text, i, x).Some? && CodeStep(text, i, x).value.event.CloseCond? && CodeStep(text, i, x).value.next < |text|
    ensures Agrees(text, CodeStep(text, i, x).value.next, CodeStep(text, i, x).value.lex)
  {
    CodeByteAgrees(text, i, x);
    ClosesAt(text, i, x);
    hide ClientLine, PlainDelimiter, DelimiterAt, CodeStep, DroppedLine;
    assert !DroppedLine(text, i) by {
      NoDrop(text, i);
    }
    assert PlaceAt(text, i + 1) == Closing;
    assert PlaceAt(text, i + 2) == InCode(Outside);
  }

  lemma NoDrop(text: string, i: nat)
    requires At(text, i, '*')
    ensures !DroppedLine(text, i)
  {
  }

  lemma ClosesAt(text: string, i: nat, x: Lex)
    requires i < |text| && ValidLex(x) && x.mode.Code? && !x.bol && CodeStep(text, i, x).Some?
    requires CodeStep(text, i, x).value.event.CloseCond?
    ensures x.cond && StarSlash(text, i) && CodeStep(text, i, x).value == LexOut(i + 2, x.(cond := false, dead := false), CloseCond)
  {
    hide DelimiterAt, CommentLine, NeverRun, VersionEnd, LineEnd;
  }

  lemma OpensAgree(text: string, i: nat, x: Lex)
    requires i < |text| && ValidLex(x) && x.mode.Code? && !x.bol && Agrees(text, i, x) && !DelimiterAt(text, i, x.delim)
    requires At(text, i, '/') && At(text, i + 1, '*') && CodeStep(text, i, x).Some? && CodeStep(text, i, x).value.next < |text|
    ensures Agrees(text, CodeStep(text, i, x).value.next, CodeStep(text, i, x).value.lex)
  {
    assert CodeStep(text, i, x) == OpenStep(text, i, x) by {
      hide DelimiterAt, OpenStep, Agrees;
    }
    hide CodeStep, Agrees, OpenStep, DelimiterAt;
    OpenerAgrees(text, i, x);
  }

  lemma StepsOne(text: string, i: nat, x: Lex)
    requires i < |text| && ValidLex(x) && x.mode.Code? && !x.bol && CodeStep(text, i, x).Some?
    requires text[i] == '\n' || !DelimiterAt(text, i, x.delim)
    requires var e := CodeStep(text, i, x).value.event; !e.LineComment? && !e.Sandbox? && !e.CloseCond?
    requires !(text[i] == '/' && At(text, i + 1, '*'))
    ensures CodeStep(text, i, x).value.next == i + 1
  {
    hide DelimiterAt, CommentLine, OpenStep, LineEnd;
  }

  /** A newline is no delimiter. */
  lemma NewlineIsNoDelimiter(text: string, i: nat, x: Lex)
    requires i < |text| && ValidLex(x) && PlainDelimiter(x.delim)
    ensures DelimiterAt(text, i, x.delim) ==> text[i] != '\n'
  {
    if DelimiterAt(text, i, x.delim) {
      assert text[i] == x.delim[0] && DelimiterByte(x.delim[0]);
    }
  }

  lemma AgreesKnows(text: string, i: nat, x: Lex)
    requires i < |text| && Agrees(text, i, x)
    ensures PlainDelimiter(x.delim)
  {
  }

  lemma CommentIsLine(text: string, i: nat, x: Lex)
    requires i < |text| && ValidLex(x) && x.mode.Code? && !x.bol && CodeStep(text, i, x).Some?
    requires CodeStep(text, i, x).value.event.LineComment?
    ensures CommentLine(text, i) && text[i] != '\n' && CodeStep(text, i, x).value == LexOut(LineEnd(text, i + 1), x, LineComment)
  {
    hide DelimiterAt, CommentLine, NeverRun, VersionEnd, LineEnd;
  }

  lemma CodeAgrees(text: string, i: nat, x: Lex)
    requires i < |text| && ValidLex(x) && x.mode.Code? && !x.bol && Agrees(text, i, x) && CodeStep(text, i, x).Some?
    requires CodeStep(text, i, x).value.next < |text|
    ensures Agrees(text, CodeStep(text, i, x).value.next, CodeStep(text, i, x).value.lex)
  {
    AgreesKnows(text, i, x);
    hide Agrees, DelimiterAt, CommentLine, OpenStep, LineEnd, PlainDelimiter;
    NewlineIsNoDelimiter(text, i, x);
    var out := CodeStep(text, i, x).value;
    if DelimiterAt(text, i, x.delim) {
      EndsAgree(text, i, x);
    } else if out.event.LineComment? {
      CommentIsLine(text, i, x);
      LineCommentAgrees(text, i, x);
    } else if out.event.Sandbox? {
      MarkAgrees(text, i, x);
    } else if out.event.CloseCond? {
      CloseAgrees(text, i, x);
    } else if text[i] == '/' && At(text, i + 1, '*') {
      OpensAgree(text, i, x);
    } else {
      StepsOne(text, i, x);
      OneByteAgrees(text, i, x);
    }
  }

  // ------------------------------------------------------------ whole scans

  lemma StepAgrees(text: string, i: nat, x: Lex)
    requires i < |text| && ValidLex(x) && Agrees(text, i, x) && LexStep(text, i, x).Some? && LexStep(text, i, x).value.next < |text|
    requires x.mode.Quote? ==> x.mode.q in {'\'', '"', '`'}
    ensures Agrees(text, LexStep(text, i, x).value.next, LexStep(text, i, x).value.lex)
  {
    AgreesKnows(text, i, x);
    DelimiterStaysPlain(text, i, x);
    hide Agrees, LineStart, CodeStep, QuoteStep, CommentStep, PlainDelimiter;
    match x.mode
    case Quote(_) => QuoteAgrees(text, i, x);
    case Comment => CommentAgrees(text, i, x);
    case Code => if x.bol { LineAgrees(text, i, x); } else { CodeAgrees(text, i, x); }
  }

  predicate QuoteIsOne(x: Lex) {
    x.mode.Quote? ==> x.mode.q in {'\'', '"', '`'}
  }

  lemma QuoteStaysOne(text: string, i: nat, x: Lex)
    requires i < |text| && ValidLex(x) && QuoteIsOne(x) && LexStep(text, i, x).Some?
    ensures QuoteIsOne(LexStep(text, i, x).value.lex)
  {
    hide LineEnd, VersionEnd, NeverRun, BlanksEnd, LineWord, TrimSpace, DelimiterOk, IsClientCommand;
  }

  lemma {:induction false} RunAgrees(order: S.Order, text: string, i: nat, s: Scan, n: nat)
    requires i <= |text| && Valid(s) && R.After(order, text, i, s, n).Some? && QuoteIsOne(s.lex) && (i < |text| ==> Agrees(text, i, s.lex))
    ensures var (j, t) := R.After(order, text, i, s, n).value; j < |text| ==> Agrees(text, j, t.lex)
    decreases n
  {
    hide LexStep, Step, Agrees, R.After, QuoteIsOne;
    R.AfterFirst(order, text, i, s, n);
    if n > 0 {
      var x := Step(order, text, i, s).value;
      QuoteStaysOne(text, i, s.lex);
      if x.0 < |text| {
        OneOfThree(s.lex);
        StepAgrees(text, i, s.lex);
      }
      RunAgrees(order, text, x.0, x.1, n - 1);
    }
  }

  lemma OneOfThree(x: Lex)
    requires QuoteIsOne(x)
    ensures x.mode.Quote? ==> x.mode.q in {'\'', '"', '`'}
  {
  }

  lemma StartAgrees(text: string)
    ensures text != "" ==> Agrees(text, 0, START)
    ensures QuoteIsOne(START)
  {
    hide ClientLine;
  }

  /** Main result: wherever the scan of a text stands, before anything is refused, it is in the mode of
      the client's reading at that byte. */
  lemma ScanReadsAsClient(order: S.Order, text: string, database: string, n: nat)
    requires R.After(order, text, 0, Begin(database), n).Some?
    ensures var (k, s) := R.After(order, text, 0, Begin(database), n).value; k < |text| ==> Agrees(text, k, s.lex)
  {
    hide Agrees, R.After, QuoteIsOne;
    StartAgrees(text);
    RunAgrees(order, text, 0, Begin(database), n);
  }
}
