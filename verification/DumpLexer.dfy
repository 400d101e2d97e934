/** A pure lexer of dump text, and the whole check of a dump as a function of its text.

    `LexStep` reads one step of the text: what it consumes depends on the text alone, never on
    how the text was split across reads. `Step` adds the checks of internal/cmd/dumpscan.go to
    each lexical step, and `Accepts` is the verdict of scanDump. */
module DumpLexer {
  import opened Text
  import opened SqlChecks
  import S = Statements

  datatype Mode = Code | Quote(q: char) | Comment

  /** `bol` is set at the start of a line read in code mode, where the client looks for its own
      commands. `cond` is set inside a versioned comment and `dead` inside one no server runs. */
  datatype Lex = Lex(mode: Mode, bol: bool, cond: bool, dead: bool, delim: string)

  datatype Event =
    | Skip                        // nothing a statement can see
    | Newline                     // the end of a line in code mode
    | Byte(c: char)               // a byte of code
    | OpenQuote(q: char)
    | QuoteText(bs: string)
    | CloseQuote(q: char)
    | LineComment
    | OpenComment
    | CloseComment
    | OpenCond(dead: bool)
    | CloseCond
    | Sandbox                     // \-
    | EndStatement
    | UseCommand(arg: string)
    | DelimiterCommand(arg: string)

  datatype LexOut = LexOut(next: nat, lex: Lex, event: Event)

  // ------------------------------------------------------- runs of bytes

  /** The position of the first newline at or after `i`, or |text|. */
  function LineEnd(text: string, i: nat): (e: nat)
    requires i <= |text|
    ensures i <= e <= |text|
    ensures forall k :: i <= k < e ==> text[k] != '\n'
    ensures e < |text| ==> text[e] == '\n'
    decreases |text| - i
  {
    if i == |text| || text[i] == '\n' then i else LineEnd(text, i + 1)
  }

  lemma {:induction false} LineEndSkips(text: string, i: nat, j: nat)
    requires i <= j <= |text| && forall k :: i <= k < j ==> text[k] != '\n'
    ensures LineEnd(text, i) == LineEnd(text, j)
    decreases j - i
  {
    if i < j {
      LineEndSkips(text, i + 1, j);
    }
  }

  lemma {:induction false} LineEndIs(text: string, i: nat, e: nat)
    requires i <= e <= |text| && (forall k :: i <= k < e ==> text[k] != '\n') && (e < |text| ==> text[e] == '\n')
    ensures LineEnd(text, i) == e
    decreases e - i
  {
    if i < e {
      LineEndIs(text, i + 1, e);
    }
  }

  /** The position after the line that `i` is on. */
  function NextLine(text: string, i: nat): (e: nat)
    requires i <= |text|
    ensures i <= e <= |text|
    ensures i < |text| ==> i < e
  {
    var e := LineEnd(text, i);
    if e < |text| then e + 1 else e
  }

  function BlanksEnd(text: string, i: nat): (e: nat)
    requires i <= |text|
    ensures i <= e <= |text|
    ensures forall k :: i <= k < e ==> IsLineSpace(text[k])
    ensures e < |text| ==> !IsLineSpace(text[e])
    decreases |text| - i
  {
    if i < |text| && IsLineSpace(text[i]) then BlanksEnd(text, i + 1) else i
  }

  /** The length of the run of word bytes at `i`, counted up to `max`. */
  function WordLength(text: string, i: nat, max: nat): (n: nat)
    requires i <= |text|
    ensures n <= max && i + n <= |text|
    ensures forall k :: i <= k < i + n ==> IsWordByte(text[k])
    ensures n < max && i + n < |text| ==> !IsWordByte(text[i + n])
    decreases max
  {
    if max > 0 && i < |text| && IsWordByte(text[i]) then 1 + WordLength(text, i + 1, max - 1) else 0
  }

  lemma {:induction false} WordLengthIs(text: string, i: nat, n: nat, max: nat)
    requires n <= max && i + n <= |text| && (forall k :: i <= k < i + n ==> IsWordByte(text[k]))
    requires n < max && i + n < |text| ==> !IsWordByte(text[i + n])
    ensures WordLength(text, i, max) == n
    decreases n
  {
    if n > 0 {
      WordLengthIs(text, i + 1, n - 1, max - 1);
    }
  }

  function DigitsLength(text: string, i: nat, max: nat): (n: nat)
    requires i <= |text|
    ensures n <= max && i + n <= |text|
    ensures forall k :: i <= k < i + n ==> IsDigit(text[k])
    ensures n < max && i + n < |text| ==> !IsDigit(text[i + n])
    decreases max
  {
    if max > 0 && i < |text| && IsDigit(text[i]) then 1 + DigitsLength(text, i + 1, max - 1) else 0
  }

  // ------------------------------------------------------------ line start

  const MAX_COMMAND_LINE := 1024

  predicate IsClientCommand(word: string) {
    word in {"SYSTEM", "SOURCE", "CONNECT", "TEE", "PAGER", "EDIT", "CHARSET"}
  }

  predicate CommentLine(text: string, i: nat) {
    At(text, i, '#') ||
    (At(text, i, '-') && At(text, i + 1, '-') && (i + 2 >= |text| || IsSpace(text[i + 2])))
  }

  /** The word a line starts with, upper case; "" when there is none to look at. */
  function LineWord(text: string, i: nat): (w: string)
    requires i <= |text|
    ensures |w| <= 32 && i + |w| <= |text|
  {
    var n := WordLength(text, i, 33);
    if n > 32 then "" else Upper(text[i..i + n])
  }

  /** What the first word of a line means to the client; `j` is after the leading blanks. */
  function LineCommand(text: string, j: nat, x: Lex): (r: Option<LexOut>)
    requires j <= |text| && x.mode.Code? && x.bol
    ensures r.Some? ==> j <= r.value.next <= |text| && r.value.lex.mode.Code?
    ensures r.Some? ==> r.value.event.Skip? || r.value.event.UseCommand? || r.value.event.DelimiterCommand?
    ensures r.Some? && x.delim != "" ==> r.value.lex.delim != ""
    ensures r.Some? ==> if r.value.event.Skip? then r.value.next == j && !r.value.lex.bol else r.value.next > j
    ensures r.Some? && r.value.event.UseCommand? ==> r.value.lex == x
  {
    var word := LineWord(text, j);
    var k := j + |word|;
    if IsClientCommand(word) then None
    else if word == "USE" then
      var arg := text[k..LineEnd(text, k)];
      if |arg| > MAX_COMMAND_LINE then None else Some(LexOut(NextLine(text, k), x, UseCommand(arg)))
    else if word == "DELIMITER" && k < |text| && IsLineSpace(text[k]) then
      var arg := text[k..LineEnd(text, k)];
      if x.cond || |arg| > MAX_COMMAND_LINE || !DelimiterOk(arg) then None
      else Some(LexOut(NextLine(text, k), x.(delim := TrimSpace(arg)), DelimiterCommand(arg)))
    else Some(LexOut(j, x.(bol := false), Skip))
  }

  function LineStart(text: string, i: nat, x: Lex): (r: Option<LexOut>)
    requires i <= |text| && x.mode.Code? && x.bol
    ensures r.Some? ==> i <= r.value.next <= |text| && r.value.lex.mode.Code?
    ensures r.Some? ==> r.value.event.Skip? || r.value.event.UseCommand? || r.value.event.DelimiterCommand?
    ensures r.Some? && x.delim != "" ==> r.value.lex.delim != ""
    ensures r.Some? && r.value.next == i < |text| ==> !r.value.lex.bol
    ensures r.Some? && r.value.event.UseCommand? ==> r.value.lex == x
  {
    if CommentLine(text, i) then
      if x.cond then None else Some(LexOut(NextLine(text, i), x, Skip))
    else LineCommand(text, BlanksEnd(text, i), x)
  }

  // ------------------------------------------------------------- one step

  function QuoteStep(text: string, i: nat, x: Lex): (r: Option<LexOut>)
    requires i < |text| && x.mode.Quote?
    ensures r.Some? ==> i < r.value.next <= |text|
    ensures r.Some? ==> (r.value.event.Skip? || r.value.event.QuoteText? || r.value.event == CloseQuote(text[i]))
  {
    var c := text[i];
    var q := x.mode.q;
    if c == '\n' then Some(LexOut(i + 1, x, Skip))
    else if c == '\\' && q == '`' then None
    else if x.cond && StarSlash(text, i) then None
    else if c == '\\' then
      if i + 1 == |text| then Some(LexOut(i + 1, x, Skip))
      else if x.cond && StarSlash(text, i + 1) then None
      else Some(LexOut(i + 2, x, QuoteText([c, text[i + 1]])))
    else if c == q && At(text, i + 1, q) then
      if q == '`' then None else Some(LexOut(i + 2, x, QuoteText([c, c])))
    else if c == q then Some(LexOut(i + 1, x.(mode := Code), CloseQuote(q)))
    else Some(LexOut(i + 1, x, QuoteText([c])))
  }

  function CommentStep(text: string, i: nat, x: Lex): (r: LexOut)
    requires i < |text| && x.mode.Comment?
    ensures i < r.next <= |text|
  {
    if StarSlash(text, i) then LexOut(i + 2, x.(mode := Code), CloseComment) else LexOut(i + 1, x, Skip)
  }

  /** The length of the opener of a versioned comment at `i`, without its version; 0 if none. */
  function CondOpener(text: string, i: nat): (n: nat)
    ensures i + n <= |text| || n == 0
  {
    if At(text, i, '/') && At(text, i + 1, '*') then
      if At(text, i + 2, '!') then 3
      else if At(text, i + 2, 'M') && At(text, i + 3, '!') then 4
      else 0
    else 0
  }

  /** The position after the version of a versioned comment. */
  function VersionEnd(text: string, i: nat): (e: nat)
    requires i <= |text|
    ensures i <= e <= |text|
    ensures forall k :: i <= k < e ==> IsDigit(text[k])
  {
    i + DigitsLength(text, i, 6)
  }

  /** The version that no server has. */
  predicate NeverRun(text: string, i: nat)
    requires i <= |text|
  {
    text[i..VersionEnd(text, i)] == "999999"
  }

  function OpenStep(text: string, i: nat, x: Lex): (r: Option<LexOut>)
    requires At(text, i, '/') && At(text, i + 1, '*') && x.mode.Code?
    ensures r.Some? ==> i < r.value.next <= |text| && !r.value.event.Byte?
  {
    var n := CondOpener(text, i);
    if x.cond then None
    else if n > 0 then
      var dead := NeverRun(text, i + n);
      Some(LexOut(VersionEnd(text, i + n), x.(cond := true, dead := dead), OpenCond(dead)))
    else if At(text, i + 2, '+') then None
    else Some(LexOut(i + 2, x.(mode := Comment), OpenComment))
  }

  predicate DelimiterAt(text: string, i: nat, delim: string) {
    i + |delim| <= |text| && text[i..i + |delim|] == delim
  }

  /** Comments, and the end of a versioned comment. */
  function PunctuationStep(text: string, i: nat, x: Lex): (r: Option<LexOut>)
    requires i < |text| && x.mode.Code?
    ensures r.Some? ==> i < r.value.next <= |text|
    ensures r.Some? && r.value.event.Byte? ==> r.value == LexOut(i + 1, x, Byte(text[i]))
  {
    if CommentLine(text, i) then
      if x.cond then None else Some(LexOut(LineEnd(text, i + 1), x, LineComment))
    else if At(text, i, '/') && At(text, i + 1, '*') then OpenStep(text, i, x)
    else if x.cond && StarSlash(text, i) then Some(LexOut(i + 2, x.(cond := false, dead := false), CloseCond))
    else Some(LexOut(i + 1, x, Byte(text[i])))
  }

  function CodeStep(text: string, i: nat, x: Lex): (r: Option<LexOut>)
    requires i < |text| && x.mode.Code? && !x.bol && x.delim != ""
    ensures r.Some? ==> i < r.value.next <= |text|
    ensures r.Some? && r.value.event.Byte? ==> r.value == LexOut(i + 1, x, Byte(text[i]))
  {
    var c := text[i];
    if c == '\n' then Some(LexOut(i + 1, x.(bol := true), Newline))
    else if DelimiterAt(text, i, x.delim) then
      if x.cond then None else Some(LexOut(i + |x.delim|, x, EndStatement))
    else if c == ':' && !x.dead && At(text, i + 1, '=') then None
    else if c == '\'' || c == '"' || c == '`' then Some(LexOut(i + 1, x.(mode := Quote(c)), OpenQuote(c)))
    else if c == '\\' then
      if At(text, i + 1, '-') then Some(LexOut(i + 2, x, Sandbox)) else None
    else PunctuationStep(text, i, x)
  }

  predicate ValidLex(x: Lex) {
    x.delim != "" && (x.bol ==> x.mode.Code?)
  }

  /** One lexical step; `None` when no dump may hold this text. */
  function LexStep(text: string, i: nat, x: Lex): (r: Option<LexOut>)
    requires i < |text| && ValidLex(x)
    ensures r.Some? ==> i <= r.value.next <= |text| && ValidLex(r.value.lex)
    ensures r.Some? && r.value.next == i ==> x.bol && !r.value.lex.bol
  {
    match x.mode
    case Quote(_) => QuoteStep(text, i, x)
    case Comment => Some(CommentStep(text, i, x))
    case Code => if x.bol then LineStart(text, i, x) else CodeStep(text, i, x)
  }

  /** Only a delimiter command changes the delimiter. */
  lemma DelimiterChanges(text: string, i: nat, x: Lex)
    requires i < |text| && ValidLex(x) && LexStep(text, i, x).Some?
    ensures var out := LexStep(text, i, x).value;
            out.lex.delim == x.delim ||
            (out.event.DelimiterCommand? && DelimiterOk(out.event.arg) && out.lex.delim == TrimSpace(out.event.arg))
  {
    match x.mode
    case Quote(_) => hide TrimSpace, DelimiterOk;
    case Comment =>
    case Code =>
      if x.bol {
        hide CommentLine, BlanksEnd, LineEnd, LineWord, IsClientCommand, TrimSpace, DelimiterOk;
      } else {
        CodeKeepsDelimiter(text, i, x);
        hide CodeStep;
      }
  }

  lemma CodeKeepsDelimiter(text: string, i: nat, x: Lex)
    requires i < |text| && x.mode.Code? && !x.bol && x.delim != "" && CodeStep(text, i, x).Some?
    ensures CodeStep(text, i, x).value.lex.delim == x.delim
  {
    hide VersionEnd, NeverRun, LineEnd, CommentLine, DelimiterAt;
  }

  lemma DelimiterStaysPlain(text: string, i: nat, x: Lex)
    requires i < |text| && ValidLex(x) && PlainDelimiter(x.delim) && LexStep(text, i, x).Some?
    ensures PlainDelimiter(LexStep(text, i, x).value.lex.delim)
  {
    hide LexStep, TrimSpace, PlainDelimiter;
    DelimiterChanges(text, i, x);
  }

  predicate OfLine(e: Event) {
    e.Skip? || e.QuoteText? || e.CloseQuote? || e.CloseComment? || e.UseCommand? || e.DelimiterCommand?
  }

  /** Which events are of code, outside quotes, comments and line starts. */
  lemma CodeEvents(text: string, i: nat, x: Lex)
    requires i < |text| && ValidLex(x) && LexStep(text, i, x).Some?
    ensures var e := LexStep(text, i, x).value.event;
            && (OfLine(e) <==> !x.mode.Code? || x.bol)
            && (e.Newline? <==> x.mode.Code? && !x.bol && text[i] == '\n')
  {
    hide LineEnd, VersionEnd, NeverRun, BlanksEnd, LineWord, TrimSpace, DelimiterOk, IsClientCommand;
  }

  lemma ByteIsOneStep(text: string, i: nat, x: Lex)
    requires i < |text| && ValidLex(x) && LexStep(text, i, x).Some?
    ensures var out := LexStep(text, i, x).value;
            out.event.Byte? ==> out == LexOut(i + 1, x, Byte(text[i])) && x.mode.Code? && !x.bol && text[i] != '\n'
  {
    hide LineEnd, VersionEnd, NeverRun, BlanksEnd, LineWord, TrimSpace, DelimiterOk;
  }

  /** Only bytes of code are word bytes: punctuation that means something never is, nor part of a name. */
  lemma PunctuationIsNoWord(text: string, i: nat, x: Lex)
    requires i < |text| && ValidLex(x) && x.mode.Code? && !x.bol && PlainDelimiter(x.delim) && LexStep(text, i, x).Some?
    ensures LexStep(text, i, x).value.event.Byte? || (!IsWordByte(text[i]) && text[i] != '.' && text[i] != '@')
  {
    hide VersionEnd, NeverRun, LineEnd;
    if DelimiterAt(text, i, x.delim) {
      assert text[i] == x.delim[0];
    }
  }

  const START := Lex(Code, true, false, false, ";")

  // ----------------------------------------------------- checks on events

  datatype Scan = Scan(
    lex: Lex,
    prev: char,
    word: string, wordLong: bool,
    inVar: bool, varLong: bool, varName: string,
    stmt: S.Stmt)

  predicate Valid(s: Scan) {
    ValidLex(s.lex)
  }

  function Begin(database: string): Scan {
    Scan(START, ' ', "", false, false, false, "", S.Fresh(database, S.Tracked(map[], {}), 0))
  }

  predicate IsFileWord(w: string) {
    Upper(w) == "OUTFILE" || Upper(w) == "DUMPFILE"
  }

  /** The code word just finished. */
  function EndWord(s: Scan): (r: Option<Scan>)
    ensures r.Some? ==> r.value.lex == s.lex
  {
    if !s.wordLong && IsFileWord(s.word) then None else Some(s.(word := "", wordLong := false))
  }

  /** The name under which a user variable is tracked; "" for one that cannot be named. */
  function VarKey(name: string, long: bool): string {
    if long || exists k :: 0 <= k < |name| && name[k] as int >= 0x80 then "" else "@" + Upper(name)
  }

  function EndVar(s: Scan): Scan {
    if s.inVar then s.(inVar := false, stmt := S.UserVar(s.stmt, VarKey(s.varName, s.varLong))) else s
  }

  datatype VarKind = NoVar | Named | Nameless

  /** What the `@` at position `i` starts, after the code byte `prev`. */
  function VarStart(text: string, i: nat, prev: char): VarKind {
    if prev == '@' || prev == '\'' || prev == '"' || prev == '`' then NoVar
    else if At(text, i + 1, '@') then NoVar
    else if i + 1 < |text| && IsWordByte(text[i + 1]) then Named
    else Nameless
  }

  function StartVar(text: string, i: nat, s: Scan, prev: char): Scan {
    match VarStart(text, i, prev)
    case NoVar => s
    case Named => s.(inVar := true, varLong := false, varName := "")
    case Nameless => s.(stmt := S.UserVar(s.stmt, ""))
  }

  function VarByte(s: Scan, c: char): Scan {
    if |s.varName| < 64 then s.(varName := s.varName + [c]) else s.(varLong := true)
  }

  function WordByte(s: Scan, c: char): Scan {
    if !IsWordByte(c) then s
    else if |s.word| < 16 then s.(word := s.word + [c])
    else s.(wordLong := true)
  }

  function WithStmt(s: Scan, st: Option<S.Stmt>): Option<Scan> {
    match st
    case None => None
    case Some(x) => Some(s.(stmt := x))
  }

  /** What a byte of code outside words ends. */
  function Prelude(s: Scan, c: char): (r: Option<Scan>)
    ensures r.Some? ==> r.value.lex == s.lex && r.value.prev == s.prev
  {
    if IsWordByte(c) then Some(s)
    else
      match EndWord(s)
      case None => None
      case Some(w) => Some(if c == '.' then w else EndVar(w))
  }

  /** The user variable a byte of code belongs to. */
  function TrackVar(text: string, i: nat, s: Scan, prev: char, c: char): Scan {
    if s.lex.dead then s
    else if c == '@' then StartVar(text, i, s, prev)
    else if c != ':' && s.inVar then VarByte(s, c)
    else s
  }

  /** What a piece of punctuation in code mode means for the statement. */
  function Punctuate(order: S.Order, st: S.Stmt, event: Event, dead: bool): Option<S.Stmt> {
    match event
    case EndStatement => S.End(order, st)
    case OpenQuote(q) => S.StartQuote(st, q, dead)
    case LineComment => S.Space(st)
    case OpenComment => S.Space(st)
    case OpenCond(d) => Started(S.Space(st), d)
    case CloseCond => S.Space(st)
    case _ => Some(st)
  }

  function PrevAfter(event: Event, c: char): char {
    if event.OpenComment? || event.OpenCond? || event.CloseCond? then ' ' else c
  }

  /** A byte of code: part of a word, of a user variable's name and of the statement. */
  function PlainByte(text: string, i: nat, s: Scan, c: char): (r: Option<Scan>)
    ensures r.Some? ==> r.value.lex == s.lex
  {
    var w := WordByte(TrackVar(text, i, s.(prev := c), s.prev, c), c);
    if s.lex.dead then Some(w) else WithStmt(w, S.CodeByte(w.stmt, c))
  }

  /** What was read at text[i] in code mode, applied to the state with its word and variable ended. */
  function Apply(order: S.Order, text: string, i: nat, s: Scan, event: Event, wasDead: bool): (r: Option<Scan>)
    requires i < |text|
    ensures r.Some? ==> r.value.lex == s.lex
  {
    if event.Byte? then PlainByte(text, i, s, text[i])
    else WithStmt(s.(prev := PrevAfter(event, text[i])), Punctuate(order, s.stmt, event, wasDead))
  }

  /** The check of one step in code mode, at the byte text[i]. `s.lex` is still the state before it. */
  function CheckCode(order: S.Order, text: string, i: nat, s: Scan, out: LexOut): (r: Option<Scan>)
    requires i < |text|
    ensures r.Some? ==> r.value.lex == out.lex
  {
    match Prelude(s, text[i])
    case None => None
    case Some(p) => Apply(order, text, i, p.(lex := out.lex), out.event, s.lex.dead)
  }

  function Started(st: Option<S.Stmt>, dead: bool): Option<S.Stmt> {
    match st
    case None => None
    case Some(x) => Some(x.(started := x.started || !dead))
  }

  /** The end of a line of code. */
  function LineEnded(s: Scan): (r: Option<Scan>)
    ensures r.Some? ==> r.value.lex == s.lex
  {
    var v := EndVar(s.(prev := ' '));
    match S.Space(v.stmt)
    case None => None
    case Some(x) => EndWord(v.(stmt := x))
  }

  /** The check of one step. */
  function Check(order: S.Order, text: string, i: nat, s: Scan, out: LexOut): (r: Option<Scan>)
    requires i < |text|
    ensures r.Some? ==> r.value.lex == out.lex
  {
    var n := s.(lex := out.lex);
    match out.event
    case Skip => Some(n)
    case Newline => LineEnded(n)
    case QuoteText(bs) => WithStmt(n, S.QuoteText(n.stmt, bs))
    case CloseQuote(q) => WithStmt(n.(prev := q), S.EndQuote(n.stmt))
    case CloseComment => Some(n.(prev := ' '))
    case UseCommand(arg) => if UseOk(arg, s.lex.delim, s.stmt.database) then Some(n) else None
    case DelimiterCommand(_) => if s.stmt.started then None else Some(n)
    case _ => CheckCode(order, text, i, s, out)
  }

  /** One step of the scan of `text`, at position `i`. */
  function Step(order: S.Order, text: string, i: nat, s: Scan): (r: Option<(nat, Scan)>)
    requires i < |text| && Valid(s)
    ensures r.Some? ==> i <= r.value.0 <= |text| && Valid(r.value.1)
    ensures r.Some? && r.value.0 == i ==> s.lex.bol && !r.value.1.lex.bol
    ensures r.Some? ==> LexStep(text, i, s.lex).Some? &&
                        r.value.0 == LexStep(text, i, s.lex).value.next && r.value.1.lex == LexStep(text, i, s.lex).value.lex
  {
    match LexStep(text, i, s.lex)
    case None => None
    case Some(out) =>
      match Check(order, text, i, s, out)
      case None => None
      case Some(n) => Some((out.next, n))
  }

  /** The end of the text: the client sends a statement left open. */
  predicate Finish(order: S.Order, s: Scan) {
    match EndWord(EndVar(s))
    case None => false
    case Some(e) => S.End(order, e.stmt).Some?
  }

  predicate Run(order: S.Order, text: string, i: nat, s: Scan)
    requires i <= |text| && Valid(s)
    decreases |text| - i, if s.lex.bol then 1 else 0
  {
    if i == |text| then Finish(order, s)
    else
      match Step(order, text, i, s)
      case None => false
      case Some((j, n)) => Run(order, text, j, n)
  }

  /** The verdict on a whole dump. */
  predicate Accepts(order: S.Order, text: string, database: string) {
    Run(order, text, 0, Begin(database))
  }
}
