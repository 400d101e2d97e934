/** The statements of a dump, as what each shows: its bytes of code, its gaps and its quoted text.

    `Sentences` takes the steps of the lexer and cuts the text at its delimiters; what a step shows is
    read off the text. `SentenceKept` says that the scanner follows every statement of an accepted dump
    from its start to its end, whatever it keeps of it. */
module Sentences {
  import opened Text
  import opened SqlChecks
  import S = Statements
  import V = ValuesAutomaton
  import VG = ValuesGrammar
  import opened T = StatementTokens
  import SR = StatementReading
  import F = InsertFeeding
  import SF = StatementFrames
  import IH = InsertHeads
  import opened IB = InsertBodies
  import opened DumpLexer
  import R = ScanRuns
  import opened LineStarts

  type Shown = seq<VG.Event>

  function Codes(bs: string): Shown {
    seq(|bs|, k requires 0 <= k < |bs| => VG.Code(bs[k]))
  }

  /** What a statement shows in text[i..j], read in code outside the start of a line. */
  function CodeShown(text: string, i: nat, j: nat, x: Lex): Shown
    requires i < j <= |text|
  {
    var c := text[i];
    if c == '\n' then [VG.Gap]
    else if c == '\'' || c == '"' || c == '`' then if x.dead then [] else [VG.Open(c)]
    else if c == '\\' then []
    else if DroppedLine(text, i) || (c == '/' && At(text, i + 1, '*')) || (c == '*' && At(text, i + 1, '/') && x.cond) then [VG.Gap]
    else if x.dead then []
    else Codes(text[i..j])
  }

  /** What it shows in text[i..j] inside quotes. */
  function QuoteShown(text: string, i: nat, j: nat, q: char, dead: bool): Shown
    requires i < j <= |text|
  {
    if dead || text[i] == '\n' || (text[i] == '\\' && j == i + 1) then []
    else if text[i] == q && j == i + 1 then [VG.Close]
    else [VG.Bytes(text[i..j])]
  }

  /** What it shows in text[i..j], which is one step of the lexer in mode `x`. */
  function StepShown(text: string, i: nat, j: nat, x: Lex): Shown
    requires i <= j <= |text| && (i == j ==> x.bol) && (x.bol ==> x.mode.Code?)
  {
    match x.mode
    case Comment => []
    case Quote(q) => QuoteShown(text, i, j, q, x.dead)
    case Code => if x.bol then [] else CodeShown(text, i, j, x)
  }

  /** A statement ends here. */
  predicate EndsHere(text: string, i: nat, x: Lex)
    requires i < |text|
  {
    x.mode.Code? && !x.bol && text[i] != '\n' && DelimiterAt(text, i, x.delim)
  }

  /** What the statements show that end from `i` on, the one being read having shown `es`. The end of
      a statement is a gap; the last one ends with the text. */
  function SentencesFrom(text: string, i: nat, x: Lex, es: Shown): seq<Shown>
    requires i <= |text| && ValidLex(x)
    decreases |text| - i, if x.bol then 1 else 0
  {
    if i == |text| then [es + [VG.Gap]]
    else
      match LexStep(text, i, x)
      case None => []
      case Some(out) =>
        if EndsHere(text, i, x) then [es + [VG.Gap]] + SentencesFrom(text, out.next, out.lex, [])
        else SentencesFrom(text, out.next, out.lex, es + StepShown(text, i, out.next, x))
  }

  function Sentences(text: string): seq<Shown> {
    SentencesFrom(text, 0, START, [])
  }

  // ------------------------------------------------------------ one step

  /** A quote is open and counts. */
  predicate Live(x: Lex) {
    x.mode.Quote? && !x.dead
  }

  ghost predicate Hears(s: Scan, es: Shown) {
    && Valid(s) && InQuote(es) == Some(Live(s.lex)) && Kept(s.stmt, es)
    && (s.lex.dead ==> s.lex.cond && ReadAll(es).kind == NUL)
    && (s.lex.mode.Quote? ==> VG.IsQuote(s.lex.mode.q))
  }

  /** Only the variables and whether it has started differ. */
  predicate SameRest(a: S.Stmt, b: S.Stmt) {
    b == a.(vars := b.vars, varRefs := b.varRefs, started := b.started)
  }

  lemma KeptIgnores(a: S.Stmt, b: S.Stmt, es: Shown)
    requires Kept(a, es) && SameRest(a, b)
    ensures Kept(b, es)
  {
    hide SR.Reads, ReadAll, InQuote, NamesSome, IsDropped;
    if SR.Reads(a, ReadAll(es)) {
      ReadsIgnores(a, b, ReadAll(es));
    } else {
      var h, dropped :| Filling(a, es, h, dropped);
      assert Filling(b, es, h, dropped);
    }
  }

  /** Nothing is being read behind a gap. */
  lemma KeptKind(st: S.Stmt, es: Shown)
    requires Kept(st, es) && ReadAll(es).kind == NUL
    ensures st.curKind == S.NONE
  {
    hide ReadAll, InQuote, NamesSome, IsDropped, SR.Lets, SR.Waits;
    if SR.Reads(st, ReadAll(es)) {
      ReadsNoBody(st, ReadAll(es));
    }
  }

  lemma KeptQuote(st: S.Stmt, es: Shown)
    requires Kept(st, es) && InQuote(es) == Some(false) && S.InBody(st)
    ensures st.values.value.quote == V.NUL
  {
    hide ReadAll, NamesSome, IsDropped, SR.Lets, SR.Waits;
  }

  /** A step that shows one event to the statement. */
  lemma Shows(s: Scan, st: S.Stmt, es: Shown, e: VG.Event, t: Scan)
    requires Hears(s, es) && SameRest(s.stmt, st) && Valid(t)
    requires Take(st, e).Some? && SameRest(Take(st, e).value, t.stmt)
    requires QuoteAfter(Live(s.lex), e) == Some(Live(t.lex)) && (t.lex.mode.Quote? ==> VG.IsQuote(t.lex.mode.q))
    requires t.lex.dead ==> t.lex.cond && e.Gap?
    ensures Hears(t, es + [e]) && t.stmt.database == s.stmt.database
  {
    hide Kept, Take, InQuote, ReadAll;
    KeptIgnores(s.stmt, st, es);
    KeepsUp(st, es, e);
    KeptIgnores(Take(st, e).value, t.stmt, es + [e]);
    QuotesNext(es, e);
    ReadsNext(es, e);
  }

  /** A step that shows nothing. */
  lemma ShowsNothing(s: Scan, es: Shown, t: Scan)
    requires Hears(s, es) && SameRest(s.stmt, t.stmt) && Valid(t)
    requires Live(t.lex) == Live(s.lex) && (t.lex.dead ==> s.lex.dead && t.lex.cond) && (t.lex.mode.Quote? ==> VG.IsQuote(t.lex.mode.q))
    ensures Hears(t, es + []) && t.stmt.database == s.stmt.database
  {
    hide Kept, InQuote, ReadAll;
    KeptIgnores(s.stmt, t.stmt, es);
    assert es + [] == es;
  }

  lemma QuoteSeen(order: S.Order, text: string, i: nat, s: Scan, es: Shown)
    requires i < |text| && Hears(s, es) && s.lex.mode.Quote? && Step(order, text, i, s).Some?
    ensures var (j, t) := Step(order, text, i, s).value;
            i < j && Hears(t, es + QuoteShown(text, i, j, s.lex.mode.q, s.lex.dead)) && t.stmt.database == s.stmt.database
  {
    hide Step, Take, S.QuoteText, S.EndQuote, Kept;
    R.StepInQuote(order, text, i, s);
    var (j, t) := Step(order, text, i, s).value;
    var out := QuoteStep(text, i, s.lex).value;
    if s.lex.dead {
      DeadQuote(s, es, out);
      ShowsNothing(s, es, t);
    } else if out.event.Skip? {
      ShowsNothing(s, es, t);
    } else {
      var e := if out.event.QuoteText? then VG.Bytes(out.event.bs) else VG.Close;
      LiveQuote(text, i, s.lex);
      TakeQuoted(s.stmt, e);
      Shows(s, s.stmt, es, e, t);
    }
  }

  lemma TakeQuoted(st: S.Stmt, e: VG.Event)
    ensures e.Bytes? ==> Take(st, e) == S.QuoteText(st, e.bs)
    ensures e.Close? ==> Take(st, e) == S.EndQuote(st)
    ensures e.Gap? ==> Take(st, e) == S.Space(st)
    ensures e.Open? ==> Take(st, e) == S.StartQuote(st, e.q, false)
    ensures e.Code? ==> Take(st, e) == S.CodeByte(st, e.b)
  {
    hide S.QuoteText, S.EndQuote, S.Space, S.StartQuote, S.CodeByte;
  }

  lemma LiveQuote(text: string, i: nat, x: Lex)
    requires i < |text| && x.mode.Quote? && VG.IsQuote(x.mode.q) && !x.dead && QuoteStep(text, i, x).Some?
    ensures var out := QuoteStep(text, i, x).value;
            && QuoteShown(text, i, out.next, x.mode.q, false) ==
               (match out.event case QuoteText(bs) => [VG.Bytes(bs)] case CloseQuote(_) => [VG.Close] case _ => [])
            && out.lex.dead == x.dead && out.lex.cond == x.cond
            && out.lex.mode == (if out.event.CloseQuote? then Mode.Code else x.mode)
  {
    assert text[i..i + 1] == [text[i]];
    if i + 1 < |text| {
      assert text[i..i + 2] == [text[i], text[i + 1]];
    }
  }

  /** In a comment that is never run quoted text changes nothing, and inside an INSERT body a string
      cannot end there. */
  lemma DeadQuote(s: Scan, es: Shown, out: LexOut)
    requires Hears(s, es) && s.lex.dead
    ensures var q := S.QuoteText(s.stmt, if out.event.QuoteText? then out.event.bs else ""); q.Some? ==> SameRest(s.stmt, q.value)
    ensures S.EndQuote(s.stmt).Some? ==> SameRest(s.stmt, S.EndQuote(s.stmt).value)
  {
    hide Kept, ReadAll, InQuote;
    KeptKind(s.stmt, es);
    if S.InBody(s.stmt) {
      KeptQuote(s.stmt, es);
    }
  }

  // ------------------------------------------------------------ in code

  lemma VarsOnly(s: Scan, c: char)
    ensures Prelude(s, c).Some? ==> SameRest(s.stmt, Prelude(s, c).value.stmt)
    ensures SameRest(s.stmt, EndVar(s).stmt)
    ensures EndWord(s).Some? ==> EndWord(s).value.stmt == s.stmt
    ensures WordByte(s, c).stmt == s.stmt
  {
    hide VarKey, IsFileWord;
  }

  lemma TrackOnly(text: string, i: nat, s: Scan, prev: char, c: char)
    ensures SameRest(s.stmt, TrackVar(text, i, s, prev, c).stmt)
  {
    hide VarKey;
  }

  lemma NewlineSeen(order: S.Order, text: string, i: nat, s: Scan, es: Shown)
    requires i < |text| && Hears(s, es) && s.lex.mode.Code? && !s.lex.bol && text[i] == '\n' && Step(order, text, i, s).Some?
    ensures var (j, t) := Step(order, text, i, s).value; Hears(t, es + [VG.Gap]) && t.stmt.database == s.stmt.database
  {
    hide Step, S.Space, Kept, EndVar, EndWord, ReadAll, InQuote;
    R.StepAtNewline(order, text, i, s);
    var (j, t) := Step(order, text, i, s).value;
    var n := s.(lex := s.lex.(bol := true), prev := ' ');
    VarsOnly(n, ' ');
    var v := EndVar(n);
    VarsOnly(v.(stmt := S.Space(v.stmt).value), ' ');
    TakeQuoted(v.stmt, VG.Gap);
    Shows(s, v.stmt, es, VG.Gap, t);
  }

  /** What the lexer reads at a byte of code, in the statement's terms. */
  lemma CodeEvent(text: string, i: nat, x: Lex)
    requires i < |text| && x.mode.Code? && !x.bol && x.delim != "" && text[i] != '\n' && CodeStep(text, i, x).Some?
    requires !DelimiterAt(text, i, x.delim) && (x.dead ==> x.cond)
    ensures var out := CodeStep(text, i, x).value;
            match out.event
            case Byte(c) => c == text[i] && out == LexOut(i + 1, x, Byte(c)) && CodeShown(text, i, out.next, x) == (if x.dead then [] else [VG.Code(c)])
            case OpenQuote(q) => q == text[i] && VG.IsQuote(q) && CodeShown(text, i, out.next, x) == (if x.dead then [] else [VG.Open(q)]) && out.lex == x.(mode := Quote(q))
            case Sandbox => CodeShown(text, i, out.next, x) == [] && out.lex == x
            case LineComment => CodeShown(text, i, out.next, x) == [VG.Gap] && out.lex == x
            case OpenComment => CodeShown(text, i, out.next, x) == [VG.Gap] && out.lex == x.(mode := Comment) && !x.dead
            case OpenCond(d) => CodeShown(text, i, out.next, x) == [VG.Gap] && out.lex == x.(cond := true, dead := d) && !x.dead
            case CloseCond => CodeShown(text, i, out.next, x) == [VG.Gap] && out.lex == x.(cond := false, dead := false)
            case _ => false
  {
    assert text[i..i + 1] == [text[i]];
    assert CommentLine(text, i) == DroppedLine(text, i);
    hide VersionEnd, NeverRun, LineEnd, DelimiterAt;
  }

  lemma GapSeen(order: S.Order, text: string, i: nat, s: Scan, es: Shown, out: LexOut)
    requires i < |text| && Hears(s, es) && s.lex.mode.Code? && ValidLex(out.lex) && CheckCode(order, text, i, s, out).Some?
    requires out.event.LineComment? || out.event.OpenComment? || out.event.OpenCond? || out.event.CloseCond?
    requires !out.lex.mode.Quote? && (out.lex.dead ==> out.lex.cond)
    ensures var t := CheckCode(order, text, i, s, out).value; Hears(t, es + [VG.Gap]) && t.stmt.database == s.stmt.database
  {
    hide Take, Prelude, S.Space, S.End, S.StartQuote, Kept, ReadAll, InQuote;
    VarsOnly(s, text[i]);
    var p := Prelude(s, text[i]).value;
    var t := CheckCode(order, text, i, s, out).value;
    TakeQuoted(p.stmt, VG.Gap);
    Shows(s, p.stmt, es, VG.Gap, t);
  }

  lemma OpenSeen(order: S.Order, text: string, i: nat, s: Scan, es: Shown, out: LexOut, q: char)
    requires i < |text| && Hears(s, es) && s.lex.mode.Code? && ValidLex(out.lex) && CheckCode(order, text, i, s, out).Some?
    requires out.event == OpenQuote(q) && out.lex == s.lex.(mode := Quote(q)) && VG.IsQuote(q)
    ensures var t := CheckCode(order, text, i, s, out).value;
            Hears(t, es + (if s.lex.dead then [] else [VG.Open(q)])) && t.stmt.database == s.stmt.database
  {
    hide Take, Prelude, S.Space, S.End, S.StartQuote, Kept, ReadAll, InQuote;
    VarsOnly(s, text[i]);
    var p := Prelude(s, text[i]).value;
    var t := CheckCode(order, text, i, s, out).value;
    if s.lex.dead {
      KeptIgnores(s.stmt, p.stmt, es);
      KeptKind(p.stmt, es);
      DeadOpen(p.stmt, q);
      ShowsNothing(s, es, t);
    } else {
      TakeQuoted(p.stmt, VG.Open(q));
      Shows(s, p.stmt, es, VG.Open(q), t);
    }
  }

  lemma DeadOpen(st: S.Stmt, q: char)
    requires st.curKind == S.NONE
    ensures S.StartQuote(st, q, true) == Some(st)
  {
  }

  lemma ByteSeen(order: S.Order, text: string, i: nat, s: Scan, es: Shown, out: LexOut)
    requires i < |text| && Hears(s, es) && s.lex.mode.Code? && CheckCode(order, text, i, s, out).Some?
    requires out == LexOut(i + 1, s.lex, Byte(text[i]))
    ensures var t := CheckCode(order, text, i, s, out).value;
            Hears(t, es + (if s.lex.dead then [] else [VG.Code(text[i])])) && t.stmt.database == s.stmt.database
  {
    hide Take, Prelude, TrackVar, WordByte, S.CodeByte, Kept, ReadAll, InQuote;
    VarsOnly(s, text[i]);
    var c := text[i];
    var p := Prelude(s, c).value.(lex := out.lex);
    TrackOnly(text, i, p.(prev := c), p.prev, c);
    var v := TrackVar(text, i, p.(prev := c), p.prev, c);
    VarsOnly(v, c);
    var t := CheckCode(order, text, i, s, out).value;
    if s.lex.dead {
      ShowsNothing(s, es, t);
    } else {
      TakeQuoted(v.stmt, VG.Code(c));
      Shows(s, v.stmt, es, VG.Code(c), t);
    }
  }

  lemma NothingSeen(order: S.Order, text: string, i: nat, s: Scan, es: Shown, out: LexOut)
    requires i < |text| && Hears(s, es) && s.lex.mode.Code? && CheckCode(order, text, i, s, out).Some?
    requires out.event == Sandbox && out.lex == s.lex
    ensures var t := CheckCode(order, text, i, s, out).value; Hears(t, es + []) && t.stmt.database == s.stmt.database
  {
    hide Prelude, S.CodeByte, Kept, ReadAll, InQuote;
    VarsOnly(s, text[i]);
    ShowsNothing(s, es, CheckCode(order, text, i, s, out).value);
  }

  lemma CodeSeen(order: S.Order, text: string, i: nat, s: Scan, es: Shown)
    requires i < |text| && Hears(s, es) && s.lex.mode.Code? && !s.lex.bol && !EndsHere(text, i, s.lex) && Step(order, text, i, s).Some?
    ensures var (j, t) := Step(order, text, i, s).value;
            i < j && Hears(t, es + CodeShown(text, i, j, s.lex)) && t.stmt.database == s.stmt.database
  {
    hide Step, Hears, CodeShown, CheckCode, CodeStep;
    assert Valid(s) && (s.lex.dead ==> s.lex.cond) by {
      HearsFlags(s, es);
    }
    if text[i] == '\n' {
      NewlineSeen(order, text, i, s, es);
      R.StepAtNewline(order, text, i, s);
      GapAtNewline(text, i, s.lex);
    } else {
      R.StepInCode(order, text, i, s);
      CodeEvent(text, i, s.lex);
      var out := CodeStep(text, i, s.lex).value;
      match out.event
      case Byte(_) => ByteSeen(order, text, i, s, es, out);
      case OpenQuote(q) => OpenSeen(order, text, i, s, es, out, q);
      case Sandbox => NothingSeen(order, text, i, s, es, out);
      case _ => GapSeen(order, text, i, s, es, out);
    }
  }

  lemma HearsFlags(s: Scan, es: Shown)
    requires Hears(s, es)
    ensures Valid(s) && (s.lex.dead ==> s.lex.cond)
  {
    hide Kept, ReadAll, InQuote;
  }

  lemma GapAtNewline(text: string, i: nat, x: Lex)
    requires i < |text| && text[i] == '\n'
    ensures CodeShown(text, i, i + 1, x) == [VG.Gap]
  {
  }

  /** One step that ends no statement. */
  lemma StepSeen(order: S.Order, text: string, i: nat, s: Scan, es: Shown)
    requires i < |text| && Hears(s, es) && !EndsHere(text, i, s.lex) && Step(order, text, i, s).Some?
    ensures var (j, t) := Step(order, text, i, s).value;
            Hears(t, es + StepShown(text, i, j, s.lex)) && t.stmt.database == s.stmt.database
  {
    hide Step, Kept, ReadAll, InQuote, CodeShown, QuoteShown, EndsHere, LineStart, UseOk;
    match s.lex.mode
    case Quote(_) => QuoteSeen(order, text, i, s, es);
    case Comment =>
      R.StepInComment(order, text, i, s);
      ShowsNothing(s, es, Step(order, text, i, s).value.1);
    case Code =>
      if s.lex.bol {
        R.StepAtLineStart(order, text, i, s);
        LineFlags(text, i, s.lex);
        ShowsNothing(s, es, Step(order, text, i, s).value.1);
      } else {
        CodeSeen(order, text, i, s, es);
      }
  }

  lemma LineFlags(text: string, i: nat, x: Lex)
    requires i < |text| && x.mode.Code? && x.bol && LineStart(text, i, x).Some?
    ensures var y := LineStart(text, i, x).value.lex; y.mode.Code? && y.cond == x.cond && y.dead == x.dead
  {
    hide LineWord, LineEnd, TrimSpace, DelimiterOk, BlanksEnd, IsClientCommand, CommentLine;
  }

  // ------------------------------------------------------- ends of statements

  /** A statement that showed `es` to its end and was let through. */
  ghost predicate Ends(database: string, es: Shown) {
    && ReadAll(es).kind == NUL && F.AreTokens(ReadAll(es).done)
    && exists x: S.Stmt :: x.database == database && S.Closing(x).Some? && Kept(x, es) && (InQuote(es) == Some(false) || SR.Reads(x, ReadAll(es)))
  }

  /** No head is allowed at a string that is left open. */
  lemma OpenStringStops(x: S.Stmt, es: Shown)
    requires InQuote(es) == Some(true) && SR.Landed(x, Flushed(ReadAll(es)))
    ensures S.Closing(x).None?
  {
    hide SR.Lets, ReadAll, InQuote, V.Token;
    KindIs(es);
    F.TokensAreTokens(es);
    StringLands(x.database, TokensOf(es), x.values);
  }

  lemma StringLands(database: string, t: seq<Token>, values: Option<V.Values>)
    requires SR.Lets(database, t, S.NO_TAIL, values) && values.Some? && F.AreTokens(t) && VG.IsQuote(t[|t| - 1].kind)
    ensures !V.End(values.value)
  {
    hide SR.Lets, SkipInsertModifiers, NameEnd, V.Token, S.FeedTokens;
    IH.BodyStarts(database, t, S.NO_TAIL, values);
    IH.AtMostTwo(database, t, S.NO_TAIL, values);
    var b := t[IH.BodyAt(t)..];
    if |b| == 1 {
      assert b == [b[0]];
      F.FedOne(V.INIT, b[0]);
      F.TokenFed(V.Head, b[0]);
    } else {
      assert b == [b[0]] + [b[1]];
      F.FeedsNext(V.INIT, [b[0]], b[1]);
      F.FedOne(V.INIT, b[0]);
      F.TokenFed(V.Head, b[0]);
      StringFed(V.Token(V.INIT, b[0].kind, b[0].text).value.state, b[1]);
    }
  }

  lemma StringFed(s: V.State, t: Token)
    requires (s == V.Tuple || s == V.Column) && VG.IsQuote(t.kind)
    ensures V.Token(VG.Settled(s), t.kind, t.text).Some? ==> !V.End(V.Token(VG.Settled(s), t.kind, t.text).value)
  {
  }

  lemma EndKept(st: S.Stmt, es: Shown)
    requires Kept(st, es) && InQuote(es).Some? && S.Space(st).Some? && S.Closing(S.Space(st).value).Some?
    ensures Ends(st.database, es + [VG.Gap])
  {
    F.TokensAreTokens(es);
    ReadsNext(es, VG.Gap);
    hide S.Space, S.Closing, Kept, ReadAll, InQuote, Take, F.IsToken;
    var x := S.Space(st).value;
    assert InQuote(es) == Some(InQuote(es).value);
    if !InQuote(es).value {
      TakeQuoted(st, VG.Gap);
      KeepsUp(st, es, VG.Gap);
      QuotesNext(es, VG.Gap);
    } else {
      EndsInString(st, es);
      assert Kept(x, es + [VG.Gap]) by {
        ReadsAreKept(x, es + [VG.Gap]);
      }
    }
  }

  lemma ReadsAreKept(st: S.Stmt, es: Shown)
    requires SR.Reads(st, ReadAll(es))
    ensures Kept(st, es)
  {
  }

  lemma EndsInString(st: S.Stmt, es: Shown)
    requires Kept(st, es) && InQuote(es) == Some(true) && S.Space(st).Some? && S.Closing(S.Space(st).value).Some?
    ensures var x := S.Space(st).value; x.database == st.database && SR.Reads(x, ReadAll(es + [VG.Gap]))
  {
    hide SR.Lets, SR.Waits, ReadAll, InQuote, S.Flush, NamesSome, IsDropped, VG.Fed, S.FinalHead, SR.Passing, SR.Waiting;
    if SR.Reads(st, ReadAll(es)) {
      hide SR.Reads, SR.Landed, S.Closing;
      ReadsFits(st, es);
      ReadsNoBody(st, ReadAll(es));
      SR.FlushReads(st, ReadAll(es));
      ReadsNext(es, VG.Gap);
      if SR.Landed(S.Flush(st).value, Flushed(ReadAll(es))) {
        OpenStringStops(S.Flush(st).value, es);
      }
    } else {
      BodyInString(st, es);
      assert false;
    }
  }

  lemma BodyInString(st: S.Stmt, es: Shown)
    requires InQuote(es) == Some(true) && exists h, dropped :: Filling(st, es, h, dropped)
    ensures S.Space(st).Some? ==> S.Closing(S.Space(st).value).None?
  {
    hide ReadAll, InQuote, NamesSome, IsDropped, VG.Fed, V.Space;
    var h, dropped :| Filling(st, es, h, dropped);
    var v := st.values.value;
    if V.Space(v).Some? {
      StepQuotes(v, VG.Gap);
      var u := V.Space(v).value;
      if V.Space(u).Some? {
        StepQuotes(u, VG.Gap);
      }
    }
  }

  lemma StartsHeard(database: string)
    ensures Hears(Begin(database), []) && Begin(database).stmt.database == database
  {
  }

  lemma FreshHears(s: Scan, t: Scan, vars: S.Vars, count: nat)
    requires Valid(t) && !t.lex.mode.Quote? && (t.lex.dead ==> t.lex.cond) && t.stmt == S.Fresh(s.stmt.database, vars, count)
    ensures Hears(t, [])
  {
    assert SR.Waiting(t.stmt, NOTHING);
  }

  /** A step that ends a statement. */
  lemma EndSeen(order: S.Order, text: string, i: nat, s: Scan, es: Shown)
    requires i < |text| && Hears(s, es) && EndsHere(text, i, s.lex) && Step(order, text, i, s).Some?
    ensures Ends(s.stmt.database, es + [VG.Gap])
    ensures var (j, t) := Step(order, text, i, s).value; Hears(t, []) && t.stmt.database == s.stmt.database
  {
    hide Step, S.Space, S.Closing, Kept, ReadAll, InQuote, Prelude, S.Poison, Ends, DelimiterAt;
    R.StepInCode(order, text, i, s);
    VarsOnly(s, text[i]);
    var p := Prelude(s, text[i]).value.stmt;
    var t := Step(order, text, i, s).value.1;
    KeptIgnores(s.stmt, p, es);
    EndKept(p, es);
    DatabaseKept(order, p);
    assert t.stmt == S.End(order, p).value;
    FreshHears(s, t, t.stmt.vars, t.stmt.count);
  }

  lemma DatabaseKept(order: S.Order, st: S.Stmt)
    requires S.End(order, st).Some?
    ensures var n := S.End(order, st).value; n == S.Fresh(st.database, n.vars, n.count)
    ensures S.Space(st).Some? && S.Closing(S.Space(st).value).Some?
  {
    SF.EndKeepsPlace(order, st);
    hide S.Space, S.Closing, S.Poison;
  }

  lemma FinishSeen(order: S.Order, s: Scan, es: Shown)
    requires Hears(s, es) && Finish(order, s)
    ensures Ends(s.stmt.database, es + [VG.Gap])
  {
    hide S.End, Kept, ReadAll, InQuote, Ends, EndVar, EndWord, S.Space, S.Closing;
    VarsOnly(s, ' ');
    VarsOnly(EndVar(s), ' ');
    var e := EndWord(EndVar(s)).value.stmt;
    KeptIgnores(s.stmt, e, es);
    DatabaseKept(order, e);
    EndKept(e, es);
  }

  /** Every statement from here on is let through as what it showed. */
  lemma {:induction false} RunEnds(order: S.Order, text: string, i: nat, s: Scan, es: Shown, k: nat)
    requires i <= |text| && Valid(s) && Hears(s, es) && Run(order, text, i, s)
    requires k < |SentencesFrom(text, i, s.lex, es)|
    ensures Ends(s.stmt.database, SentencesFrom(text, i, s.lex, es)[k])
    decreases |text| - i, if s.lex.bol then 1 else 0
  {
    hide Step, LexStep, Hears, Finish, Ends, EndsHere, StepShown;
    if i == |text| {
      FinishSeen(order, s, es);
    } else {
      var (j, t) := Step(order, text, i, s).value;
      if EndsHere(text, i, s.lex) {
        EndSeen(order, text, i, s, es);
        if k > 0 {
          RunEnds(order, text, j, t, [], k - 1);
        }
      } else {
        StepSeen(order, text, i, s, es);
        RunEnds(order, text, j, t, es + StepShown(text, i, j, s.lex), k);
      }
    }
  }

  /** Main result here: every statement of an accepted dump was let through as what it showed. */
  lemma SentencesEnd(order: S.Order, text: string, database: string, k: nat)
    requires Accepts(order, text, database) && k < |Sentences(text)|
    ensures Ends(database, Sentences(text)[k])
  {
    hide Run, Ends, Hears, SentencesFrom;
    StartsHeard(database);
    RunEnds(order, text, 0, Begin(database), [], k);
  }
}
