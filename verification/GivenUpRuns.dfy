/** The scan after every user variable is given up.

    Giving all variables up changes nothing the scan does, except that a SET statement that puts a
    user variable back is refused. So the verdict on a text read with no variable trusted depends on
    its SET statements alone, not on the order of the checker's maps. */
module GivenUpRuns {
  import opened Text
  import V = ValuesAutomaton
  import opened SqlChecks
  import S = Statements
  import PO = PoisonOrder
  import opened DumpLexer
  import opened Mentions
  import opened SessionModel
  import opened SessionSafety

  function GiveUp(st: S.Stmt): S.Stmt {
    st.(vars := S.Untrusted)
  }

  function GivenUp(st: Option<S.Stmt>): Option<S.Stmt> {
    match st
    case None => None
    case Some(x) => Some(GiveUp(x))
  }

  function Lost(s: Scan): Scan {
    s.(stmt := GiveUp(s.stmt))
  }

  // --------------------------------------------- SET statements that need trust

  predicate AnyPutBack(parts: seq<seq<Token>>) {
    parts != [] && (PutBack(parts[0]).Some? || AnyPutBack(parts[1..]))
  }

  /** The statement puts a user variable back. */
  predicate NeedsTrust(tokens: seq<Token>) {
    AnyPutBack(Ended(tokens, {}).Parts())
  }

  predicate AnyNeedsTrust(log: seq<Ended>) {
    exists k :: 0 <= k < |log| && NeedsTrust(log[k].tokens)
  }

  lemma AssignmentGivenUp(st: S.Stmt, a: seq<Token>)
    ensures S.CheckAssignment(GiveUp(st), a) == if PutBack(a).Some? then None else GivenUp(S.CheckAssignment(st, a))
  {
    hide IsNames, ClientCharsetOk, SQLModeOk, Target, SavedFrom, Upper, NamesIndex, IsLexical, IsUserVar, EqualsIndex;
  }

  lemma {:induction false} AssignmentsGivenUp(st: S.Stmt, parts: seq<seq<Token>>)
    ensures S.CheckAssignments(GiveUp(st), parts) == if AnyPutBack(parts) then None else GivenUp(S.CheckAssignments(st, parts))
    decreases |parts|
  {
    hide S.CheckAssignment, PutBack;
    if parts != [] {
      AssignmentGivenUp(st, parts[0]);
      if S.CheckAssignment(st, parts[0]).Some? {
        AssignmentsGivenUp(S.CheckAssignment(st, parts[0]).value, parts[1..]);
      }
    }
  }

  lemma SetGivenUp(st: S.Stmt, t: seq<Token>)
    ensures S.CheckSet(GiveUp(st), t) ==
              if AnyPutBack(SplitAssignments(t, 0, [])) then None else GivenUp(S.CheckSet(st, t))
  {
    hide S.CheckAssignments, AnyPutBack, S.NamesUnsafeCharset, SplitAssignments;
    AssignmentsGivenUp(st.(setVars := {}), SplitAssignments(t, 0, []));
  }

  // ------------------------------------------------- steps of the checker

  function HeadGivenUp(h: S.Head): S.Head {
    match h
    case Refused => S.Refused
    case NeedsMore => S.NeedsMore
    case Allowed(x) => S.Allowed(GiveUp(x))
  }

  lemma CheckHeadGivenUp(st: S.Stmt, final: bool)
    requires st.tokens != [] && !(final && st.tokens[0].Is("SET"))
    ensures S.CheckHead(GiveUp(st), final) == HeadGivenUp(S.CheckHead(st, final))
  {
    hide S.FeedTokens, S.CheckTails, ObjectName, AllNamesOk, TriggerTable, AlterTable, DatabaseName, NameOk, Token.Is, S.CheckSet, NameEnd,
         SkipExists, SkipInsertModifiers, KindIndex, IsDDLObject, Upper;
  }

  lemma PushGivenUp(st: S.Stmt, t: Token)
    ensures S.Push(GiveUp(st), t) == GivenUp(S.Push(st, t))
  {
    hide S.CheckTail, S.CheckHead, Token.Is;
    if !st.accepted {
      CheckHeadGivenUp(st.(tokens := st.tokens + [t], size := st.size + |t.text|), false);
    }
  }

  lemma FlushGivenUp(st: S.Stmt)
    ensures S.Flush(GiveUp(st)) == GivenUp(S.Flush(st))
  {
    hide S.Push;
    PushGivenUp(st.(curKind := S.NONE, cur := ""), Token(st.curKind, st.cur));
  }

  lemma SpaceGivenUp(st: S.Stmt)
    ensures S.Space(GiveUp(st)) == GivenUp(S.Space(st))
  {
    hide S.Flush, V.Space;
    FlushGivenUp(st);
  }

  lemma HeadByteGivenUp(st: S.Stmt, b: char)
    ensures S.HeadByte(GiveUp(st), b) == GivenUp(S.HeadByte(st, b))
  {
    hide S.Flush, S.Push, IsWordByte;
    FlushGivenUp(st);
    if S.Flush(st).Some? {
      PushGivenUp(S.Flush(st).value, Token('p', [b]));
    }
  }

  lemma CodeByteGivenUp(st: S.Stmt, b: char)
    ensures S.CodeByte(GiveUp(st), b) == GivenUp(S.CodeByte(st, b))
  {
    hide S.Space, S.HeadByte, V.CodeByte, IsSpace;
    SpaceGivenUp(st);
    HeadByteGivenUp(st.(started := true), b);
  }

  lemma StartQuoteGivenUp(st: S.Stmt, q: char, dead: bool)
    ensures S.StartQuote(GiveUp(st), q, dead) == GivenUp(S.StartQuote(st, q, dead))
  {
    hide S.Flush, V.StartQuote;
    FlushGivenUp(st);
  }

  lemma QuoteTextGivenUp(st: S.Stmt, bs: string)
    ensures S.QuoteText(GiveUp(st), bs) == GivenUp(S.QuoteText(st, bs))
  {
    hide V.QuoteText;
  }

  lemma EndQuoteGivenUp(st: S.Stmt)
    ensures S.EndQuote(GiveUp(st)) == GivenUp(S.EndQuote(st))
  {
    hide S.Flush, V.EndQuote;
    FlushGivenUp(st);
  }

  // -------------------------------------------------- ends of statements

  lemma HeadTokensGivenUp(st: S.Stmt)
    ensures HeadTokens(GiveUp(st)) == HeadTokens(st)
  {
    hide S.Space;
    SpaceGivenUp(st);
  }

  lemma FinalGivenUp(x: S.Stmt)
    ensures S.FinalHead(GiveUp(x)) == if NeedsTrust(if x.accepted then [] else x.tokens) then None else GivenUp(S.FinalHead(x))
  {
    hide S.CheckHead, AnyPutBack, SplitAssignments, Token.Is;
    NothingPutBack();
    if !x.accepted && x.tokens != [] {
      if x.tokens[0].Is("SET") {
        SetGivenUp(x, x.tokens[1..]);
        SetIsChecked(x);
        SetIsChecked(GiveUp(x));
        hide S.CheckSet;
      } else {
        CheckHeadGivenUp(x, true);
      }
    }
  }

  lemma NothingPutBack()
    ensures !AnyPutBack([])
  {
  }

  lemma SetIsChecked(x: S.Stmt)
    requires x.tokens != [] && x.tokens[0].Is("SET")
    ensures S.CheckHead(x, true) == match S.CheckSet(x, x.tokens[1..]) case None => S.Refused case Some(s) => S.Allowed(s)
  {
    hide S.CheckSet;
  }

  lemma ClosingGivenUp(x: S.Stmt)
    ensures S.Closing(GiveUp(x)) == if NeedsTrust(if x.accepted then [] else x.tokens) then None else GivenUp(S.Closing(x))
  {
    hide S.FinalHead, NeedsTrust, V.End;
    FinalGivenUp(x);
  }

  /** The end of a statement, in two orders: with every variable given up it refuses the statements
      that need trust, and nothing else is different. */
  lemma EndGivenUp(a: S.Order, b: S.Order, st: S.Stmt)
    ensures S.End(b, GiveUp(st)) == if NeedsTrust(HeadTokens(st)) then None else GivenUp(S.End(a, st))
  {
    hide S.Space, S.Closing, NeedsTrust, S.Poison;
    SpaceGivenUp(st);
    if S.Space(st).Some? {
      var x := S.Space(st).value;
      ClosingGivenUp(x);
      if S.Closing(x).Some? {
        var f := S.Closing(x).value;
        PO.UntrustedStays(b(f.count, f.varRefs), f.setVars);
      }
    } else {
      NothingNeedsNoTrust();
    }
  }

  lemma NothingNeedsNoTrust()
    ensures !NeedsTrust([])
  {
  }

  // ---------------------------------------------------- steps of the scan

  function LostStep(r: Option<(nat, Scan)>): Option<(nat, Scan)> {
    match r
    case None => None
    case Some((j, t)) => Some((j, Lost(t)))
  }

  function LostScan(r: Option<Scan>): Option<Scan> {
    match r
    case None => None
    case Some(t) => Some(Lost(t))
  }

  lemma EndVarLost(s: Scan)
    ensures EndVar(Lost(s)) == Lost(EndVar(s))
  {
    hide VarKey;
  }

  lemma PreludeLost(s: Scan, c: char)
    ensures Prelude(Lost(s), c) == LostScan(Prelude(s, c))
  {
    hide EndVar, IsFileWord, IsWordByte;
    if EndWord(s).Some? {
      EndVarLost(EndWord(s).value);
    }
  }

  lemma TrackVarLost(text: string, i: nat, s: Scan, prev: char, c: char)
    ensures TrackVar(text, i, Lost(s), prev, c) == Lost(TrackVar(text, i, s, prev, c))
  {
    hide VarStart;
  }

  lemma PlainByteLost(text: string, i: nat, s: Scan, c: char)
    ensures PlainByte(text, i, Lost(s), c) == LostScan(PlainByte(text, i, s, c))
  {
    hide TrackVar, S.CodeByte, WordByte;
    TrackVarLost(text, i, s.(prev := c), s.prev, c);
    var v := TrackVar(text, i, s.(prev := c), s.prev, c);
    WordByteLost(v, c);
    CodeByteGivenUp(WordByte(v, c).stmt, c);
  }

  lemma WordByteLost(s: Scan, c: char)
    ensures WordByte(Lost(s), c) == Lost(WordByte(s, c))
  {
  }

  lemma PunctuateLost(a: S.Order, b: S.Order, st: S.Stmt, event: Event, dead: bool)
    requires !event.EndStatement?
    ensures Punctuate(b, GiveUp(st), event, dead) == GivenUp(Punctuate(a, st, event, dead))
  {
    hide S.Space, S.StartQuote, S.End;
    SpaceGivenUp(st);
    if event.OpenQuote? {
      StartQuoteGivenUp(st, event.q, dead);
    }
  }

  lemma CheckCodeLost(a: S.Order, b: S.Order, text: string, i: nat, s: Scan, out: LexOut)
    requires i < |text| && !out.event.EndStatement?
    ensures CheckCode(b, text, i, Lost(s), out) == LostScan(CheckCode(a, text, i, s, out))
  {
    hide Prelude, PlainByte, Punctuate, PrevAfter;
    PreludeLost(s, text[i]);
    if Prelude(s, text[i]).Some? {
      var p := Prelude(s, text[i]).value.(lex := out.lex);
      PlainByteLost(text, i, p, text[i]);
      PunctuateLost(a, b, p.stmt, out.event, s.lex.dead);
    }
  }

  lemma LineEndedLost(s: Scan)
    ensures LineEnded(Lost(s)) == LostScan(LineEnded(s))
  {
    hide EndVar, S.Space, IsFileWord;
    EndVarLost(s.(prev := ' '));
    SpaceGivenUp(EndVar(s.(prev := ' ')).stmt);
  }

  lemma CheckLost(a: S.Order, b: S.Order, text: string, i: nat, s: Scan, out: LexOut)
    requires i < |text| && !out.event.EndStatement?
    ensures Check(b, text, i, Lost(s), out) == LostScan(Check(a, text, i, s, out))
  {
    hide CheckCode, LineEnded, S.QuoteText, S.EndQuote, UseOk;
    var n := s.(lex := out.lex);
    match out.event
    case Newline => LineEndedLost(n);
    case QuoteText(bs) => QuoteTextGivenUp(n.stmt, bs);
    case CloseQuote(q) => EndQuoteGivenUp(n.stmt);
    case Skip =>
    case CloseComment =>
    case UseCommand(_) =>
    case DelimiterCommand(_) =>
    case _ => CheckCodeLost(a, b, text, i, s, out);
  }

  /** A step within a statement. */
  lemma StepLost(a: S.Order, b: S.Order, text: string, i: nat, s: Scan)
    requires i < |text| && Valid(s) && (LexStep(text, i, s.lex).Some? ==> !LexStep(text, i, s.lex).value.event.EndStatement?)
    ensures Step(b, text, i, Lost(s)) == LostStep(Step(a, text, i, s))
  {
    hide LexStep, Check;
    if LexStep(text, i, s.lex).Some? {
      CheckLost(a, b, text, i, s, LexStep(text, i, s.lex).value);
    }
  }

  /** What the step at the end of a statement is. */
  lemma EndStep(order: S.Order, text: string, i: nat, s: Scan)
    requires i < |text| && Valid(s) && LexStep(text, i, s.lex).Some? && LexStep(text, i, s.lex).value.event.EndStatement?
    ensures var out := LexStep(text, i, s.lex).value;
            Step(order, text, i, s) ==
              match Prelude(s, text[i])
              case None => None
              case Some(p) =>
                match S.End(order, p.stmt)
                case None => None
                case Some(st) => Some((out.next, p.(lex := out.lex, prev := text[i], stmt := st)))
  {
    hide LexStep, Prelude, S.End;
  }

  /** A step that ends a statement. */
  lemma EndStepLost(a: S.Order, b: S.Order, text: string, i: nat, s: Scan)
    requires i < |text| && Valid(s) && LexStep(text, i, s.lex).Some? && LexStep(text, i, s.lex).value.event.EndStatement?
    ensures Step(b, text, i, Lost(s)) ==
              if Prelude(s, text[i]).Some? && NeedsTrust(HeadTokens(Prelude(s, text[i]).value.stmt)) then None
              else LostStep(Step(a, text, i, s))
  {
    hide LexStep, Prelude, S.End, NeedsTrust, HeadTokens;
    EndStep(a, text, i, s);
    EndStep(b, text, i, Lost(s));
    PreludeLost(s, text[i]);
    if Prelude(s, text[i]).Some? {
      EndGivenUp(a, b, Prelude(s, text[i]).value.stmt);
    }
  }

  lemma FinishLost(a: S.Order, b: S.Order, s: Scan)
    ensures Finish(b, Lost(s)) <==> Finish(a, s) && !NeedsTrust(HeadTokens(EndVar(s).stmt))
  {
    hide EndVar, S.End, IsFileWord, NeedsTrust, HeadTokens;
    EndVarLost(s);
    EndGivenUp(a, b, EndVar(s).stmt);
  }

  lemma Prepended(e: Ended, log: seq<Ended>)
    ensures AnyNeedsTrust([e] + log) <==> NeedsTrust(e.tokens) || AnyNeedsTrust(log)
  {
    hide NeedsTrust;
    if AnyNeedsTrust(log) {
      var k :| 0 <= k < |log| && NeedsTrust(log[k].tokens);
      assert ([e] + log)[k + 1] == log[k];
    }
    if NeedsTrust(e.tokens) {
      assert ([e] + log)[0] == e;
    }
  }

  /** Main result: with every variable given up, and in whatever order, the rest of a text is accepted
      exactly when it was accepted before and none of its statements needs trust. */
  lemma {:induction false} RunLost(a: S.Order, b: S.Order, text: string, i: nat, s: Scan, mentioned: set<string>)
    requires i <= |text| && Valid(s)
    ensures Run(b, text, i, Lost(s)) <==> Run(a, text, i, s) && !AnyNeedsTrust(Log(a, text, i, s, mentioned))
    decreases |text| - i, if s.lex.bol then 1 else 0
  {
    hide LexStep, Step, Prelude, NeedsTrust, AnyNeedsTrust, HeadTokens, Finish, StepMentions, EndVar;
    Nothing();
    if i == |text| {
      FinishLost(a, b, s);
      var e := Ended(HeadTokens(EndVar(s).stmt), mentioned);
      Prepended(e, []);
      assert [e] + [] == [e];
    } else if LexStep(text, i, s.lex).Some? && LexStep(text, i, s.lex).value.event.EndStatement? {
      EndStepLost(a, b, text, i, s);
      EndNeedsPrelude(a, text, i, s);
      if Step(a, text, i, s).Some? {
        var (j, t) := Step(a, text, i, s).value;
        Prepended(Ended(HeadTokens(Prelude(s, text[i]).value.stmt), mentioned), Log(a, text, j, t, {}));
        RunLost(a, b, text, j, t, {});
      }
    } else {
      StepLost(a, b, text, i, s);
      if Step(a, text, i, s).Some? {
        var (j, t) := Step(a, text, i, s).value;
        RunLost(a, b, text, j, t, mentioned + StepMentions(text, i, s.lex));
      }
    }
  }

  lemma Nothing()
    ensures !AnyNeedsTrust([])
  {
  }

  lemma EndNeedsPrelude(order: S.Order, text: string, i: nat, s: Scan)
    requires i < |text| && Valid(s) && LexStep(text, i, s.lex).Some? && LexStep(text, i, s.lex).value.event.EndStatement?
    ensures Step(order, text, i, s).Some? ==> Prelude(s, text[i]).Some?
  {
    hide LexStep, Prelude, S.End;
    EndStep(order, text, i, s);
  }
}
