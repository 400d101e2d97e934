/** Runs of the pure scan: its invariant over every run, and what skipping quoted text does. */
module ScanRuns {
  import opened Text
  import opened SqlChecks
  import S = Statements
  import B = StatementBounds
  import opened DumpLexer

  const MAX_CODE_WORD := 16
  const MAX_VAR_NAME := 64

  ghost predicate Inv(s: Scan) {
    Valid(s) && B.Inv(s.stmt) && |s.word| <= MAX_CODE_WORD && |s.varName| <= MAX_VAR_NAME
  }

  lemma StartsBounded(database: string)
    ensures Inv(Begin(database))
  {
  }

  lemma EndVarKeepsInv(s: Scan)
    requires Inv(s)
    ensures Inv(EndVar(s))
  {
    if s.inVar {
      B.UserVarKeepsInv(s.stmt, VarKey(s.varName, s.varLong));
      hide S.UserVar;
    }
  }

  lemma TrackVarKeepsInv(text: string, i: nat, s: Scan, prev: char, c: char)
    requires Inv(s)
    ensures Inv(TrackVar(text, i, s, prev, c))
  {
    B.UserVarKeepsInv(s.stmt, "");
    hide S.UserVar;
  }

  lemma PreludeKeepsInv(s: Scan, c: char)
    requires Inv(s) && Prelude(s, c).Some?
    ensures Inv(Prelude(s, c).value)
  {
    if !IsWordByte(c) {
      EndVarKeepsInv(EndWord(s).value);
      hide EndVar;
    }
  }

  lemma PlainByteKeepsInv(text: string, i: nat, p: Scan, c: char)
    requires Inv(p) && PlainByte(text, i, p, c).Some?
    ensures Inv(PlainByte(text, i, p, c).value)
  {
    TrackVarKeepsInv(text, i, p.(prev := c), p.prev, c);
    hide TrackVar, S.CodeByte;
    var w := WordByte(TrackVar(text, i, p.(prev := c), p.prev, c), c);
    if !p.lex.dead {
      B.CodeByteKeepsInv(w.stmt, c);
    }
  }

  lemma PunctuateKeepsInv(order: S.Order, st: S.Stmt, event: Event, dead: bool)
    requires B.Inv(st) && Punctuate(order, st, event, dead).Some?
    ensures B.Inv(Punctuate(order, st, event, dead).value)
  {
    hide S.End, S.StartQuote, S.Space;
    match event
    case EndStatement => B.EndKeepsInv(order, st);
    case OpenQuote(q) => B.StartQuoteKeepsInv(st, q, dead);
    case LineComment => B.SpaceKeepsInv(st);
    case OpenComment => B.SpaceKeepsInv(st);
    case OpenCond(_) => B.SpaceKeepsInv(st);
    case CloseCond => B.SpaceKeepsInv(st);
    case _ =>
  }

  lemma CheckCodeKeepsInv(order: S.Order, text: string, i: nat, s: Scan, out: LexOut)
    requires i < |text| && Inv(s) && ValidLex(out.lex) && CheckCode(order, text, i, s, out).Some?
    ensures Inv(CheckCode(order, text, i, s, out).value)
  {
    var c := text[i];
    PreludeKeepsInv(s, c);
    hide Prelude, PlainByte, Punctuate;
    var p := Prelude(s, c).value.(lex := out.lex);
    if out.event.Byte? {
      PlainByteKeepsInv(text, i, p, c);
    } else {
      PunctuateKeepsInv(order, p.stmt, out.event, s.lex.dead);
    }
  }

  lemma StepKeepsInv(order: S.Order, text: string, i: nat, s: Scan)
    requires i < |text| && Inv(s) && Step(order, text, i, s).Some?
    ensures Inv(Step(order, text, i, s).value.1)
  {
    var out := LexStep(text, i, s.lex).value;
    hide LexStep;
    var n := s.(lex := out.lex);
    match out.event
    case Skip =>
    case Newline =>
      var v := n.(prev := ' ');
      EndVarKeepsInv(v);
      hide EndVar, S.Space;
      B.SpaceKeepsInv(EndVar(v).stmt);
    case QuoteText(bs) =>
      B.QuoteTextKeepsInv(n.stmt, bs);
      hide S.QuoteText;
    case CloseQuote(q) =>
      B.EndQuoteKeepsInv(n.stmt);
      hide S.EndQuote;
    case CloseComment =>
    case UseCommand(arg) =>
    case DelimiterCommand(_) =>
    case _ =>
      hide CheckCode;
      CheckCodeKeepsInv(order, text, i, s, out);
  }

  /** The scan after `n` steps, or `None` once it refused or the text is used up. */
  function After(order: S.Order, text: string, i: nat, s: Scan, n: nat): (r: Option<(nat, Scan)>)
    requires i <= |text| && Valid(s)
    ensures r.Some? ==> r.value.0 <= |text| && Valid(r.value.1)
    decreases n
  {
    if n == 0 then Some((i, s))
    else if i == |text| then None
    else
      match Step(order, text, i, s)
      case None => None
      case Some((j, t)) => After(order, text, j, t, n - 1)
  }

  lemma {:induction false} RunKeepsInv(order: S.Order, text: string, i: nat, s: Scan, n: nat)
    requires i <= |text| && Valid(s) && After(order, text, i, s, n).Some?
    requires Inv(s)
    ensures Inv(After(order, text, i, s, n).value.1)
    decreases n
  {
    hide Step, Inv, Valid, After;
    AfterFirst(order, text, i, s, n);
    if n > 0 {
      StepKeepsInv(order, text, i, s);
      var x := Step(order, text, i, s).value;
      RunKeepsInv(order, text, x.0, x.1, n - 1);
    }
  }

  lemma AfterIsValid(order: S.Order, text: string, i: nat, s: Scan, n: nat)
    requires i <= |text| && Valid(s) && After(order, text, i, s, n).Some?
    ensures Valid(After(order, text, i, s, n).value.1)
  {
  }

  /** The first step of a run. */
  lemma AfterFirst(order: S.Order, text: string, i: nat, s: Scan, n: nat)
    requires i <= |text| && Valid(s)
    ensures After(order, text, i, s, 0) == Some((i, s))
    ensures n > 0 && After(order, text, i, s, n).Some? ==> i < |text| && Step(order, text, i, s).Some?
    ensures n > 0 && i < |text| && Step(order, text, i, s).Some? ==>
              var x := Step(order, text, i, s).value; After(order, text, i, s, n) == After(order, text, x.0, x.1, n - 1)
  {
    hide Step, Valid;
  }

  /** Runs follow each other. */
  lemma {:induction false} AfterAdds(order: S.Order, text: string, i: nat, s: Scan, n: nat, m: nat)
    requires i <= |text| && Valid(s) && After(order, text, i, s, n).Some?
    ensures var x := After(order, text, i, s, n).value;
            After(order, text, i, s, n + m) == After(order, text, x.0, x.1, m)
    decreases n
  {
    hide Step, Valid, After;
    AfterFirst(order, text, i, s, n);
    AfterFirst(order, text, i, s, n + m);
    if n > 0 {
      var x := Step(order, text, i, s).value;
      AfterAdds(order, text, x.0, x.1, n - 1, m);
      assert n - 1 + m == n + m - 1;
    }
  }

  lemma AfterOne(order: S.Order, text: string, i: nat, s: Scan)
    requires i < |text| && Valid(s)
    ensures After(order, text, i, s, 1) == Step(order, text, i, s)
  {
    hide Step, Valid;
    if Step(order, text, i, s).Some? {
      var (j, t) := Step(order, text, i, s).value;
      assert After(order, text, j, t, 0) == Some((j, t));
    }
  }

  lemma {:induction false} AfterKeepsVerdict(order: S.Order, text: string, i: nat, s: Scan, n: nat)
    requires i <= |text| && Valid(s) && After(order, text, i, s, n).Some?
    ensures var x := After(order, text, i, s, n).value; Run(order, text, i, s) == Run(order, text, x.0, x.1)
    decreases n
  {
    hide Step, After;
    AfterFirst(order, text, i, s, n);
    if n > 0 {
      var x := Step(order, text, i, s).value;
      AfterKeepsVerdict(order, text, x.0, x.1, n - 1);
    }
  }

  /** Main result on memory: in every run over every text, while nothing is refused, what is kept
      of the current statement, token, word and names stays bounded. */
  lemma RetainedStateIsBounded(order: S.Order, text: string, database: string, n: nat)
    requires After(order, text, 0, Begin(database), n).Some?
    ensures var s := After(order, text, 0, Begin(database), n).value.1;
            var (st, vars) := (s.stmt, s.stmt.vars);
            && B.TextSize(st.tokens) <= 65536 && |st.cur| <= 65536 && (|st.tokens| <= 48 || st.tokens[0].Is("SET"))
            && |st.varRefs| <= 48 && (vars.Tracked? ==> |vars.saved| <= 48 && |vars.poisoned| <= 48)
            && (st.values.Some? ==> |st.values.value.word| <= 128) && |s.word| <= 16 && |s.varName| <= 64
  {
    hide After, Begin;
    StartsBounded(database);
    RunKeepsInv(order, text, 0, Begin(database), n);
  }

  // ------------------------------------------------ skipping quoted text

  /** A byte inside a quote at which the buffered scanner never stops. */
  predicate PlainInQuote(c: char, q: char, cond: bool) {
    c != q && c != '\\' && c != '\n' && (cond ==> c != '*')
  }

  lemma NoQuotedText(st: S.Stmt)
    requires B.Inv(st)
    ensures S.QuoteText(st, "") == Some(st)
  {
    assert st.cur + "" == st.cur;
  }

  lemma QuotedStep(order: S.Order, text: string, i: nat, s: Scan)
    requires i < |text| && Inv(s) && s.lex.mode.Quote? && PlainInQuote(text[i], s.lex.mode.q, s.lex.cond)
    ensures Step(order, text, i, s) ==
            match S.QuoteText(s.stmt, [text[i]])
            case None => None
            case Some(st) => Some((i + 1, s.(stmt := st)))
    ensures S.QuoteText(s.stmt, [text[i]]).Some? ==> B.Inv(S.QuoteText(s.stmt, [text[i]]).value)
  {
    assert LexStep(text, i, s.lex) == Some(LexOut(i + 1, s.lex, QuoteText([text[i]])));
    if S.QuoteText(s.stmt, [text[i]]).Some? {
      B.QuoteTextKeepsInv(s.stmt, [text[i]]);
    }
    hide LexStep, S.QuoteText;
  }

  /** A run of plain quoted bytes is as many steps as it has bytes. */
  lemma {:induction false} QuotedSteps(order: S.Order, text: string, i: nat, s: Scan, e: nat)
    requires Inv(s) && s.lex.mode.Quote? && i <= e <= |text|
    requires forall k :: i <= k < e ==> PlainInQuote(text[k], s.lex.mode.q, s.lex.cond)
    requires S.QuoteText(s.stmt, text[i..e]).Some?
    ensures After(order, text, i, s, e - i) == Some((e, s.(stmt := S.QuoteText(s.stmt, text[i..e]).value)))
    decreases e - i
  {
    if i == e {
      assert text[i..i] == "";
      NoQuotedText(s.stmt);
      hide S.QuoteText;
    } else {
      assert text[i..e] == [text[i]] + text[i + 1..e];
      B.QuoteTextSplits(s.stmt, [text[i]], text[i + 1..e]);
      QuotedStep(order, text, i, s);
      hide Step, S.QuoteText;
      QuotedSteps(order, text, i + 1, s.(stmt := S.QuoteText(s.stmt, [text[i]]).value), e);
    }
  }

  /** A step inside a quote, in terms of what the quote lexer reads. */
  lemma StepInQuote(order: S.Order, text: string, i: nat, s: Scan)
    requires i < |text| && Valid(s) && s.lex.mode.Quote?
    ensures Step(order, text, i, s) ==
            match QuoteStep(text, i, s.lex)
            case None => None
            case Some(out) =>
              if out.event.Skip? then Some((out.next, s.(lex := out.lex)))
              else
                var st := if out.event.QuoteText? then S.QuoteText(s.stmt, out.event.bs) else S.EndQuote(s.stmt);
                if st.None? then None
                else
                  var prev := if out.event.CloseQuote? then text[i] else s.prev;
                  Some((out.next, s.(lex := out.lex, stmt := st.value, prev := prev)))
  {
    hide S.QuoteText, S.EndQuote, QuoteStep;
  }

  /** A step on a byte of code other than a newline, in terms of what the code lexer reads. */
  lemma StepInCode(order: S.Order, text: string, i: nat, s: Scan)
    requires i < |text| && Valid(s) && s.lex.mode.Code? && !s.lex.bol && text[i] != '\n'
    ensures Step(order, text, i, s) ==
            match CodeStep(text, i, s.lex)
            case None => None
            case Some(out) =>
              match CheckCode(order, text, i, s, out)
              case None => None
              case Some(n) => Some((out.next, n))
    ensures CodeStep(text, i, s.lex).Some? ==> !CodeStep(text, i, s.lex).value.lex.bol
  {
    hide CheckCode;
  }

  /** A newline is a step of its own in every mode. */
  lemma StepAtNewline(order: S.Order, text: string, i: nat, s: Scan)
    requires i < |text| && Valid(s) && !s.lex.bol && text[i] == '\n'
    ensures Step(order, text, i, s) ==
            if s.lex.mode.Code? then
              match LineEnded(s.(lex := s.lex.(bol := true)))
              case None => None
              case Some(n) => Some((i + 1, n))
            else Some((i + 1, s))
  {
    hide LineEnded;
  }

  /** A step inside a comment. */
  lemma StepInComment(order: S.Order, text: string, i: nat, s: Scan)
    requires i < |text| && Valid(s) && s.lex.mode.Comment?
    ensures Step(order, text, i, s) ==
            if StarSlash(text, i) then Some((i + 2, s.(lex := s.lex.(mode := Code), prev := ' ')))
            else Some((i + 1, s))
  {
    hide LineEnded;
  }

  /** A step at the start of a line. */
  lemma StepAtLineStart(order: S.Order, text: string, i: nat, s: Scan)
    requires i < |text| && Valid(s) && s.lex.bol
    ensures Step(order, text, i, s) ==
            match LineStart(text, i, s.lex)
            case None => None
            case Some(out) =>
              if out.event.UseCommand? && !UseOk(out.event.arg, s.lex.delim, s.stmt.database) then None
              else if out.event.DelimiterCommand? && s.stmt.started then None
              else Some((out.next, s.(lex := out.lex)))
    ensures LineStart(text, i, s.lex).Some? ==> ValidLex(LineStart(text, i, s.lex).value.lex)
  {
    hide LineStart, UseOk;
  }

  /** The end of the text is the same at a line start and within a line. */
  lemma FinishIgnoresLineStart(order: S.Order, s: Scan, x: Lex)
    ensures Finish(order, s) == Finish(order, s.(lex := x))
  {
    hide S.End, S.UserVar, VarKey, IsFileWord;
  }
}
