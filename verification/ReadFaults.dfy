/** Reads that fail at the end of a dump, and which of them the scanner notices.

    What the reader delivered is `text`; after it `faults` reads fail before the end is reported.
    The scanner ignores the error of a look-ahead, and bufio forgets an error once it has reported
    it: a look-ahead past the end swallows one failed read. Only a byte or a line read at the end
    reports one. */
module ReadFaults {
  import opened Text
  import opened SqlChecks
  import S = Statements
  import opened DumpLexer
  import R = ScanRuns

  /** One look-ahead of `n` bytes at `i`: 1 when it reaches past the end. */
  function Past(text: string, i: nat, n: nat): nat {
    if i + n > |text| then 1 else 0
  }

  function Less(faults: nat, n: nat): nat {
    if n <= faults then faults - n else 0
  }

  // ------------------------------------------------ look-aheads of one step

  function LinePeeks(text: string, i: nat): nat
    requires i <= |text|
  {
    Past(text, i, 3) + if CommentLine(text, i) then 0 else WordPeeks(text, BlanksEnd(text, i))
  }

  /** At the end of the leading blanks: for another blank, and for the first word. */
  function WordPeeks(text: string, j: nat): nat {
    Past(text, j, 1) + Past(text, j, 33)
  }

  function QuotePeeks(text: string, i: nat, x: Lex): nat
    requires i < |text| && x.mode.Quote?
  {
    var c := text[i];
    (if c == '*' && x.cond then Past(text, i + 1, 1) else 0) +
    if c == '\\' then if At(text, i + 1, '*') && x.cond then Past(text, i + 2, 1) else 0
    else if c == x.mode.q then Past(text, i + 1, 1)
    else 0
  }

  function DelimiterPeeks(text: string, i: nat, delim: string): nat
    requires i < |text| && delim != ""
  {
    if text[i] == delim[0] then Past(text, i + 1, |delim| - 1) else 0
  }

  /** After the two bytes that open a comment: for what makes it a versioned one, and its version. */
  function OpenPeeks(text: string, i: nat): nat {
    var n := CondOpener(text, i);
    Past(text, i + 2, 2) + if n > 0 then Past(text, i + n, 6) else 0
  }

  function PunctuationPeeks(text: string, i: nat, x: Lex): nat
    requires i < |text|
  {
    var c := text[i];
    if c == '-' || c == '#' then
      (if c == '-' then Past(text, i + 1, 2) else 0) +
      if CommentLine(text, i) then Past(text, LineEnd(text, i + 1), 1) else 0
    else if c == '/' then Past(text, i + 1, 1) + if At(text, i + 1, '*') then OpenPeeks(text, i) else 0
    else if c == '*' && x.cond then Past(text, i + 1, 1)
    else 0
  }

  function EventPeeks(text: string, i: nat, x: Lex): nat
    requires i < |text| && x.delim != ""
  {
    var c := text[i];
    DelimiterPeeks(text, i, x.delim) +
    if DelimiterAt(text, i, x.delim) || c == '\'' || c == '"' || c == '`' then 0
    else if c == '\\' then Past(text, i + 1, 1)
    else (if c == ':' && !x.dead then Past(text, i + 1, 1) else 0) + PunctuationPeeks(text, i, x)
  }

  function VarPeeks(text: string, i: nat, prev: char): nat {
    if prev == '@' || prev == '\'' || prev == '"' || prev == '`' then 0 else Past(text, i + 1, 1)
  }

  function BytePeeks(text: string, i: nat, dead: bool, prev: char): nat
    requires i < |text|
  {
    if text[i] == '@' && !dead then VarPeeks(text, i, prev) else 0
  }

  function CodePeeks(text: string, i: nat, x: Lex, prev: char): nat
    requires i < |text| && x.mode.Code? && !x.bol && x.delim != ""
  {
    EventPeeks(text, i, x) +
    if CodeStep(text, i, x).Some? && CodeStep(text, i, x).value.event.Byte? then BytePeeks(text, i, x.dead, prev) else 0
  }

  /** How many look-aheads of the step at `i` reach past the end. */
  function Peeks(text: string, i: nat, x: Lex, prev: char): nat
    requires i < |text| && ValidLex(x)
  {
    if x.bol then LinePeeks(text, i)
    else if text[i] == '\n' then 0
    else
      match x.mode
      case Quote(_) => QuotePeeks(text, i, x)
      case Comment => if text[i] == '*' then Past(text, i + 1, 1) else 0
      case Code => CodePeeks(text, i, x, prev)
  }

  /** The step at `i` reads, as a byte or as a line, at the end of the text. */
  predicate ReadsEnd(text: string, i: nat, x: Lex)
    requires i < |text| && ValidLex(x)
  {
    if x.bol then
      LineStart(text, i, x).Some? && LineStart(text, i, x).value.lex.bol &&
      LineStart(text, i, x).value.next == |text| && text[|text| - 1] != '\n'
    else x.mode.Quote? && text[i] == '\\' && i + 1 == |text|
  }

  // ------------------------------------------------------------ whole scans

  /** One step, with the failed reads still ahead; `None` also when the step reports one. */
  function Step(order: S.Order, text: string, i: nat, s: Scan, faults: nat): (r: Option<(nat, Scan, nat)>)
    requires i < |text| && Valid(s)
    ensures match r
            case None => true
            case Some((j, t, left)) => DumpLexer.Step(order, text, i, s) == Some((j, t))
  {
    match DumpLexer.Step(order, text, i, s)
    case None => None
    case Some((j, t)) =>
      var left := Less(faults, Peeks(text, i, s.lex, s.prev));
      if ReadsEnd(text, i, s.lex) && left > 0 then None else Some((j, t, left))
  }

  /** The look-aheads past the end when the scan is at it. */
  function EndPeeks(x: Lex): nat {
    if x.bol then 3 else 0
  }

  predicate Run(order: S.Order, text: string, i: nat, s: Scan, faults: nat)
    requires i <= |text| && Valid(s)
    decreases |text| - i, if s.lex.bol then 1 else 0
  {
    if i == |text| then faults <= EndPeeks(s.lex) && Finish(order, s)
    else
      match Step(order, text, i, s, faults)
      case None => false
      case Some((j, t, left)) => Run(order, text, j, t, left)
  }

  /** The verdict on a dump whose text is followed by `faults` failing reads. */
  predicate Accepts(order: S.Order, text: string, database: string, faults: nat) {
    Run(order, text, 0, Begin(database), faults)
  }

  /** How many failed reads the look-aheads past the end swallow before one is reported. */
  function Swallowed(order: S.Order, text: string, i: nat, s: Scan): nat
    requires i <= |text| && Valid(s)
    decreases |text| - i, if s.lex.bol then 1 else 0
  {
    if i == |text| then EndPeeks(s.lex)
    else
      match DumpLexer.Step(order, text, i, s)
      case None => 0
      case Some((j, t)) =>
        Peeks(text, i, s.lex, s.prev) + if ReadsEnd(text, i, s.lex) then 0 else Swallowed(order, text, j, t)
  }

  lemma {:induction false} RunSwallows(order: S.Order, text: string, i: nat, s: Scan, faults: nat)
    requires i <= |text| && Valid(s)
    ensures Run(order, text, i, s, faults) <==> DumpLexer.Run(order, text, i, s) && faults <= Swallowed(order, text, i, s)
    decreases |text| - i, if s.lex.bol then 1 else 0
  {
    hide DumpLexer.Step, Peeks, ReadsEnd, Finish;
    if i < |text| && DumpLexer.Step(order, text, i, s).Some? {
      var (j, t) := DumpLexer.Step(order, text, i, s).value;
      RunSwallows(order, text, j, t, Less(faults, Peeks(text, i, s.lex, s.prev)));
    }
  }

  /** Main result: failed reads after the text are noticed exactly when there are more of them than
      look-aheads past the end before the first byte or line read there. */
  lemma FaultsSurface(order: S.Order, text: string, database: string, faults: nat)
    ensures Accepts(order, text, database, faults) <==>
              DumpLexer.Accepts(order, text, database) && faults <= Swallowed(order, text, 0, Begin(database))
  {
    RunSwallows(order, text, 0, Begin(database), faults);
  }

  lemma NothingReadsEnd(text: string, i: nat, x: Lex)
    requires i < |text| && ValidLex(x) && text[|text| - 1] == '\n'
    ensures !ReadsEnd(text, i, x)
  {
    hide LineStart;
  }

  lemma SwallowsNext(order: S.Order, text: string, i: nat, s: Scan)
    requires i < |text| && Valid(s) && DumpLexer.Step(order, text, i, s).Some? && !ReadsEnd(text, i, s.lex)
    ensures var (j, t) := DumpLexer.Step(order, text, i, s).value; Swallowed(order, text, i, s) >= Swallowed(order, text, j, t)
  {
    hide DumpLexer.Step, Peeks, ReadsEnd;
  }

  lemma {:induction false} LineBreakSwallows(order: S.Order, text: string, i: nat, s: Scan, n: nat)
    requires i <= |text| && Valid(s) && (text != "" ==> text[|text| - 1] == '\n') && AtLineStart(order, text, i, s, n)
    ensures Swallowed(order, text, i, s) >= 3
    decreases n
  {
    hide DumpLexer.Step, ReadsEnd, R.After, Swallowed;
    R.AfterFirst(order, text, i, s, n);
    if n > 0 {
      NothingReadsEnd(text, i, s.lex);
      SwallowsNext(order, text, i, s);
      var (j, t) := DumpLexer.Step(order, text, i, s).value;
      LineBreakSwallows(order, text, j, t, n - 1);
    } else {
      AtEndSwallows(order, text, s);
    }
  }

  lemma AtEndSwallows(order: S.Order, text: string, s: Scan)
    requires Valid(s)
    ensures Swallowed(order, text, |text|, s) == EndPeeks(s.lex)
  {
  }

  /** After `n` steps the scan has used up the text and is at the start of a line of code. */
  predicate AtLineStart(order: S.Order, text: string, i: nat, s: Scan, n: nat)
    requires i <= |text| && Valid(s)
  {
    match R.After(order, text, i, s, n)
    case None => false
    case Some((j, t)) => j == |text| && t.lex.bol
  }

  /** A dump cut off at the end of a line of code is accepted like a whole one, though up to three
      reads fail after the cut. */
  lemma CutsAtLinesAreMissed(order: S.Order, text: string, database: string, n: nat, faults: nat)
    requires DumpLexer.Accepts(order, text, database) && faults <= 3
    requires (text != "" ==> text[|text| - 1] == '\n') && AtLineStart(order, text, 0, Begin(database), n)
    ensures Accepts(order, text, database, faults)
  {
    hide DumpLexer.Accepts, Accepts, AtLineStart, Swallowed;
    FaultsSurface(order, text, database, faults);
    LineBreakSwallows(order, text, 0, Begin(database), n);
  }

  // ------------------------------------------------ only the end matters

  /** The furthest a step looks ahead of where the next one starts. */
  const REACH := 33

  lemma LineLooksAhead(text: string, i: nat, x: Lex)
    requires i < |text| && ValidLex(x) && x.bol && LineStart(text, i, x).Some?
    requires LineStart(text, i, x).value.next + REACH <= |text|
    ensures LinePeeks(text, i) == 0
  {
    hide LineCommand;
    if !CommentLine(text, i) {
      assert LineCommand(text, BlanksEnd(text, i), x) == LineStart(text, i, x);
    }
  }

  lemma QuoteLooksAhead(text: string, i: nat, x: Lex)
    requires i < |text| && x.mode.Quote? && QuoteStep(text, i, x).Some? && QuoteStep(text, i, x).value.next + REACH <= |text|
    ensures QuotePeeks(text, i, x) == 0
  {
  }

  lemma PunctuationLooksAhead(text: string, i: nat, x: Lex)
    requires i < |text| && x.mode.Code? && PunctuationStep(text, i, x).Some? && PunctuationStep(text, i, x).value.next + REACH <= |text|
    ensures PunctuationPeeks(text, i, x) == 0
  {
  }

  lemma CodeLooksAhead(text: string, i: nat, x: Lex, prev: char)
    requires i < |text| && ValidLex(x) && x.mode.Code? && !x.bol && |x.delim| <= 16 && CodeStep(text, i, x).Some?
    requires CodeStep(text, i, x).value.next + REACH <= |text| && text[i] != '\n'
    ensures CodePeeks(text, i, x, prev) == 0
  {
    hide PunctuationStep, PunctuationPeeks;
    if PunctuationStep(text, i, x).Some? && PunctuationStep(text, i, x).value.next + REACH <= |text| {
      PunctuationLooksAhead(text, i, x);
    }
  }

  /** A step whose next one starts far enough before the end swallows nothing. */
  lemma StepLooksAhead(text: string, i: nat, x: Lex, prev: char)
    requires i < |text| && ValidLex(x) && |x.delim| <= 16 && LexStep(text, i, x).Some?
    requires LexStep(text, i, x).value.next + REACH <= |text|
    ensures Peeks(text, i, x, prev) == 0 && !ReadsEnd(text, i, x)
  {
    hide LineStart, LinePeeks, QuoteStep, QuotePeeks, CodeStep, CodePeeks;
    if x.bol {
      LineLooksAhead(text, i, x);
    } else if x.mode.Quote? {
      QuoteLooksAhead(text, i, x);
    } else if x.mode.Code? && text[i] != '\n' {
      CodeLooksAhead(text, i, x, prev);
    }
  }

  lemma DelimiterStaysShort(text: string, i: nat, x: Lex)
    requires i < |text| && ValidLex(x) && |x.delim| <= 16 && LexStep(text, i, x).Some?
    ensures |LexStep(text, i, x).value.lex.delim| <= 16
  {
    hide LexStep, TrimSpace, PlainDelimiter;
    DelimiterChanges(text, i, x);
  }

  lemma {:induction false} AfterMoves(order: S.Order, text: string, i: nat, s: Scan, n: nat)
    requires i <= |text| && Valid(s) && R.After(order, text, i, s, n).Some?
    ensures i <= R.After(order, text, i, s, n).value.0
    decreases n
  {
    hide DumpLexer.Step, R.After;
    R.AfterFirst(order, text, i, s, n);
    if n > 0 {
      var x := DumpLexer.Step(order, text, i, s).value;
      AfterMoves(order, text, x.0, x.1, n - 1);
    }
  }

  /** Which failures a scan notices shows in the last 33 bytes and the state in which it reaches them. */
  lemma {:induction false} OnlyTheEndSwallows(order: S.Order, text: string, i: nat, s: Scan, n: nat)
    requires i <= |text| && Valid(s) && |s.lex.delim| <= 16 && R.After(order, text, i, s, n).Some?
    requires R.After(order, text, i, s, n).value.0 + REACH <= |text|
    ensures var (j, t) := R.After(order, text, i, s, n).value;
            Swallowed(order, text, i, s) == Swallowed(order, text, j, t) && |t.lex.delim| <= 16
    decreases n
  {
    hide DumpLexer.Step, R.After, Peeks, ReadsEnd, LexStep;
    R.AfterFirst(order, text, i, s, n);
    if n > 0 {
      var x := DumpLexer.Step(order, text, i, s).value;
      AfterMoves(order, text, x.0, x.1, n - 1);
      StepLooksAhead(text, i, s.lex, s.prev);
      DelimiterStaysShort(text, i, s.lex);
      OnlyTheEndSwallows(order, text, x.0, x.1, n - 1);
    }
  }

  // -------------------------------------------- what the scanner needs of it

  /** One step of a run keeps its verdict. */
  lemma RunStep(order: S.Order, text: string, i: nat, s: Scan, faults: nat)
    requires i < |text| && R.Inv(s)
    ensures match Step(order, text, i, s, faults)
            case None => !Run(order, text, i, s, faults)
            case Some((j, t, left)) => R.Inv(t) && Run(order, text, i, s, faults) == Run(order, text, j, t, left)
  {
    if DumpLexer.Step(order, text, i, s).Some? {
      R.StepKeepsInv(order, text, i, s);
    }
    hide DumpLexer.Step, R.Inv, Peeks, ReadsEnd;
  }

  /** A step inside a quote that ends no line, in terms of what the quote lexer reads. */
  lemma StepInQuote(order: S.Order, text: string, i: nat, s: Scan, faults: nat)
    requires i < |text| && Valid(s) && s.lex.mode.Quote? && text[i] != '\n'
    ensures Step(order, text, i, s, faults) ==
            match QuoteStep(text, i, s.lex)
            case None => None
            case Some(out) =>
              var left := Less(faults, QuotePeeks(text, i, s.lex));
              if text[i] == '\\' && i + 1 == |text| && left > 0 then None
              else if out.event.Skip? then Some((out.next, s.(lex := out.lex), left))
              else
                var st := if out.event.QuoteText? then S.QuoteText(s.stmt, out.event.bs) else S.EndQuote(s.stmt);
                if st.None? then None
                else
                  var prev := if out.event.CloseQuote? then text[i] else s.prev;
                  Some((out.next, s.(lex := out.lex, stmt := st.value, prev := prev), left))
  {
    hide DumpLexer.Step, S.QuoteText, S.EndQuote, QuoteStep, QuotePeeks;
    R.StepInQuote(order, text, i, s);
  }

  /** A step on a byte of code other than a newline, in terms of what the code lexer reads. */
  lemma StepInCode(order: S.Order, text: string, i: nat, s: Scan, faults: nat)
    requires i < |text| && Valid(s) && s.lex.mode.Code? && !s.lex.bol && text[i] != '\n'
    ensures Step(order, text, i, s, faults) ==
            match CodeStep(text, i, s.lex)
            case None => None
            case Some(out) =>
              match CheckCode(order, text, i, s, out)
              case None => None
              case Some(n) => Some((out.next, n, Less(faults, CodePeeks(text, i, s.lex, s.prev))))
    ensures CodeStep(text, i, s.lex).Some? ==> !CodeStep(text, i, s.lex).value.lex.bol
  {
    hide DumpLexer.Step, CheckCode, CodeStep, CodePeeks;
    R.StepInCode(order, text, i, s);
  }

  lemma QuotedPeeks(text: string, i: nat, x: Lex, prev: char)
    requires i < |text| && ValidLex(x) && x.mode.Quote? && R.PlainInQuote(text[i], x.mode.q, x.cond)
    ensures Peeks(text, i, x, prev) == 0 && !ReadsEnd(text, i, x)
  {
  }

  /** A run of plain quoted bytes, read one at a time, does what its text does read at once. */
  lemma {:induction false} QuotedRun(order: S.Order, text: string, i: nat, s: Scan, e: nat, faults: nat)
    requires R.Inv(s) && s.lex.mode.Quote? && i <= e <= |text|
    requires forall k :: i <= k < e ==> R.PlainInQuote(text[k], s.lex.mode.q, s.lex.cond)
    ensures Run(order, text, i, s, faults) ==
            match S.QuoteText(s.stmt, text[i..e])
            case None => false
            case Some(st) => Run(order, text, e, s.(stmt := st), faults)
    decreases e - i
  {
    if i == e {
      assert text[i..i] == "";
      R.NoQuotedText(s.stmt);
      hide S.QuoteText, Run;
    } else {
      assert text[i..e] == [text[i]] + text[i + 1..e];
      R.B.QuoteTextSplits(s.stmt, [text[i]], text[i + 1..e]);
      R.QuotedStep(order, text, i, s);
      QuotedPeeks(text, i, s.lex, s.prev);
      hide S.QuoteText, DumpLexer.Step, Peeks, ReadsEnd, R.PlainInQuote;
      var st := S.QuoteText(s.stmt, [text[i]]);
      if st.Some? {
        QuotedRun(order, text, i + 1, s.(stmt := st.value), e, faults);
      }
    }
  }
}
