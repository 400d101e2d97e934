/** The user variables a dump mentions, as positions of its text, and the names the scanner reports
    for the current statement. */
module Mentions {
  import opened Text
  import opened SqlChecks
  import S = Statements
  import F = StatementFrames
  import opened DumpLexer

  predicate IsNameByte(c: char) {
    IsWordByte(c) || c == '.'
  }

  /** The end of the run of name bytes at `i`. */
  function NameRunEnd(text: string, i: nat): (e: nat)
    requires i <= |text|
    ensures i <= e <= |text|
    ensures forall k :: i <= k < e ==> IsNameByte(text[k])
    ensures e < |text| ==> !IsNameByte(text[e])
    decreases |text| - i
  {
    if i < |text| && IsNameByte(text[i]) then NameRunEnd(text, i + 1) else i
  }

  lemma {:induction false} NameRunEndIs(text: string, i: nat, e: nat)
    requires i <= e <= |text| && (forall k :: i <= k < e ==> IsNameByte(text[k])) && (e < |text| ==> !IsNameByte(text[e]))
    ensures NameRunEnd(text, i) == e
    decreases e - i
  {
    if i < e {
      NameRunEndIs(text, i + 1, e);
    }
  }

  /** The name that text[i..e] gives a user variable: at most 64 bytes, or none. */
  function NameKey(text: string, i: nat, e: nat): string
    requires i <= e <= |text|
  {
    if e > i + 64 || exists k :: i <= k < e && text[k] as int >= 0x80 then "" else "@" + Upper(text[i..e])
  }

  lemma KeyIs(text: string, i: nat, e: nat)
    requires i <= e <= |text|
    ensures NameKey(text, i, e) == VarKey(text[i..if e <= i + 64 then e else i + 64], e > i + 64)
  {
    if e <= i + 64 {
      var n := text[i..e];
      if k :| i <= k < e && text[k] as int >= 0x80 {
        assert n[k - i] == text[k];
      }
    }
  }

  /** The user variable the `@` at position `p` of code mentions: its name, "" when it cannot be
      named, or nothing for `@@name`, the second `@` of it and the host of a quoted account. */
  function MentionAt(text: string, p: nat): set<string>
    requires p < |text|
  {
    if At(text, p + 1, '@') || (p > 0 && (text[p - 1] == '@' || text[p - 1] == '\'' || text[p - 1] == '"' || text[p - 1] == '`')) then {}
    else if p + 1 < |text| && IsWordByte(text[p + 1]) then {NameKey(text, p + 1, NameRunEnd(text, p + 1))}
    else {""}
  }

  /** What the step at `i` mentions, by the lexer alone. */
  function StepMentions(text: string, i: nat, x: Lex): set<string>
    requires i < |text| && ValidLex(x)
  {
    if x.mode.Code? && !x.bol && !x.dead && text[i] == '@' && LexStep(text, i, x).Some? && LexStep(text, i, x).value.event.Byte?
    then MentionAt(text, i) else {}
  }

  // ------------------------------------------- what the scanner reports

  /** The scanner is inside the name that starts at `p`, and has read it up to `i`. */
  predicate InName(text: string, i: nat, s: Scan, p: nat)
    requires i <= |text|
  {
    && p < i && (forall k :: p < k < i ==> IsNameByte(text[k]))
    && s.varName == text[p + 1..if i <= p + 65 then i else p + 65] && s.varLong == (i > p + 65)
  }

  /** Names mentioned but not yet reported. */
  function Pending(text: string, s: Scan, p: nat): set<string>
  {
    if s.inVar && p < |text| then {NameKey(text, p + 1, NameRunEnd(text, p + 1))} else {}
  }

  /** Every mention is reported or pending, unless the checker gave up on all variables. */
  predicate Reported(st: S.Stmt, mentioned: set<string>, pending: set<string>) {
    st.vars.Untrusted? || mentioned == st.varRefs + pending
  }

  predicate IsBreaker(c: char) {
    c == '@' || c == '\'' || c == '"' || c == '`'
  }

  predicate BreakerBefore(text: string, i: nat)
    requires i <= |text|
  {
    i > 0 && IsBreaker(text[i - 1])
  }

  /** What the scanner remembers of the byte before `i` decides the same about an `@` there. */
  predicate PrevInv(text: string, i: nat, s: Scan)
    requires i <= |text|
  {
    && Valid(s) && PlainDelimiter(s.lex.delim)
    && (s.lex.mode.Code? && i < |text| && text[i] != '\n' ==> IsBreaker(s.prev) == BreakerBefore(text, i))
    && (s.lex.bol ==> !IsBreaker(s.prev) && (i < |text| ==> !BreakerBefore(text, i)))
  }

  predicate NameInv(text: string, i: nat, s: Scan, p: nat)
    requires i <= |text|
  {
    PrevInv(text, i, s) && (s.inVar ==> s.lex.mode.Code? && !s.lex.bol && !s.lex.dead && InName(text, i, s, p))
  }

  // ------------------------------------------------------- lexical facts

  /** Where a step at a line start, in a quote or in a comment ends. */
  lemma LineStepEnds(text: string, i: nat, x: Lex)
    requires i < |text| && ValidLex(x) && x.bol && LexStep(text, i, x).Some?
    ensures var out := LexStep(text, i, x).value;
            && (out.event.Skip? || out.event.UseCommand? || out.event.DelimiterCommand?)
            && out.lex.mode.Code? && out.lex.dead == x.dead && (out.next == |text| || out.next == i || !IsBreaker(text[out.next - 1]))
  {
    hide TrimSpace, DelimiterOk, IsClientCommand, LineWord;
  }

  lemma CommentStepEnds(text: string, i: nat, x: Lex)
    requires i < |text| && ValidLex(x) && x.mode.Comment?
    ensures var out := LexStep(text, i, x).value;
            if out.event.CloseComment? then !out.lex.bol && !IsBreaker(text[out.next - 1]) else out.event.Skip? && out.lex == x
  {
  }

  lemma QuoteStepEnds(text: string, i: nat, x: Lex)
    requires i < |text| && ValidLex(x) && x.mode.Quote? && LexStep(text, i, x).Some?
    ensures var out := LexStep(text, i, x).value;
            if out.event.CloseQuote? then out.next == i + 1 && out.event.q == text[i] && !out.lex.bol
            else (out.event.Skip? || out.event.QuoteText?) && out.lex == x
  {
  }

  lemma PunctuationEnds(text: string, i: nat, x: Lex)
    requires i < |text| && ValidLex(x) && x.mode.Code? && !x.bol && PlainDelimiter(x.delim) && LexStep(text, i, x).Some?
    ensures var out := LexStep(text, i, x).value;
            !out.event.Byte? && !out.event.Newline? ==>
              && !out.lex.bol
              && (out.lex.mode.Code? && out.next < |text| && text[out.next] != '\n' ==>
                    !IsBreaker(PrevAfter(out.event, text[i])) && !IsBreaker(text[out.next - 1]))
  {
    hide LineEnd, NeverRun, VersionEnd, DelimiterAt, PlainDelimiter;
    DelimiterEdges(text, i, x.delim);
  }

  lemma DelimiterEdges(text: string, i: nat, delim: string)
    requires i < |text| && delim != "" && PlainDelimiter(delim)
    ensures DelimiterAt(text, i, delim) ==> i + |delim| <= |text| && !IsBreaker(text[i]) && !IsBreaker(text[i + |delim| - 1])
  {
    if DelimiterAt(text, i, delim) {
      assert text[i] == delim[0] && text[i + |delim| - 1] == delim[|delim| - 1];
      assert DelimiterByte(delim[0]) && DelimiterByte(delim[|delim| - 1]);
    }
  }

  // ------------------------------------------------- what a step reports

  /** Within a statement the tracked variables stay as they are or are given up. */
  predicate KeepsVars(a: S.Stmt, b: S.Stmt) {
    (b.vars == a.vars || b.vars.Untrusted?) && b.setVars == a.setVars
  }

  lemma UserVarReports(st: S.Stmt, mentioned: set<string>, name: string)
    requires Reported(st, mentioned, {name})
    ensures Reported(S.UserVar(st, name), mentioned, {}) && KeepsVars(st, S.UserVar(st, name))
  {
  }

  /** A byte that is no part of a name reports the name read before it. */
  lemma EndVarReports(text: string, i: nat, s: Scan, mentioned: set<string>, p: nat)
    requires i <= |text| && (s.inVar ==> InName(text, i, s, p)) && (i < |text| ==> !IsNameByte(text[i]))
    requires Reported(s.stmt, mentioned, Pending(text, s, p))
    ensures var e := EndVar(s); Reported(e.stmt, mentioned, {}) && KeepsVars(s.stmt, e.stmt) && !e.inVar
  {
    hide S.UserVar, VarKey, NameKey;
    if s.inVar {
      NameRunEndIs(text, p + 1, i);
      KeyIs(text, p + 1, i);
      UserVarReports(s.stmt, mentioned, NameKey(text, p + 1, i));
    }
  }

  lemma PreludeReports(text: string, i: nat, s: Scan, mentioned: set<string>, p: nat)
    requires i < |text| && (s.inVar ==> InName(text, i, s, p))
    requires Reported(s.stmt, mentioned, Pending(text, s, p)) && Prelude(s, text[i]).Some?
    ensures var e := Prelude(s, text[i]).value;
            && Reported(e.stmt, mentioned, Pending(text, e, p)) && KeepsVars(s.stmt, e.stmt)
            && (e.inVar ==> s.inVar && IsNameByte(text[i]) && InName(text, i, e, p)) && e.prev == s.prev
  {
    hide IsFileWord, NameRunEnd, NameKey, EndVar;
    if !IsNameByte(text[i]) {
      EndVarReports(text, i, EndWord(s).value, mentioned, p);
      EndVarKeepsPrev(EndWord(s).value);
    }
  }

  lemma EndVarKeepsPrev(s: Scan)
    ensures EndVar(s).prev == s.prev
  {
    hide S.UserVar, VarKey;
  }

  lemma MentionIs(text: string, p: nat)
    requires p < |text|
    ensures MentionAt(text, p) ==
            match VarStart(text, p, if p == 0 then ' ' else text[p - 1])
            case NoVar => {}
            case Named => {NameKey(text, p + 1, NameRunEnd(text, p + 1))}
            case Nameless => {""}
  {
    hide NameKey, NameRunEnd;
  }

  /** What VarStart sees of the byte before it is only whether it is a breaker. */
  lemma SameStart(text: string, p: nat, a: char, b: char)
    requires IsBreaker(a) == IsBreaker(b)
    ensures VarStart(text, p, a) == VarStart(text, p, b)
  {
  }

  lemma TrackVarReports(text: string, i: nat, s: Scan, prev: char, mentioned: set<string>, p: nat) returns (q: nat)
    requires i < |text| && !s.lex.dead && (s.inVar ==> IsNameByte(text[i]) && InName(text, i, s, p))
    requires IsBreaker(prev) == BreakerBefore(text, i) && Reported(s.stmt, mentioned, Pending(text, s, p))
    ensures var t := TrackVar(text, i, s, prev, text[i]);
            && Reported(t.stmt, mentioned + (if text[i] == '@' then MentionAt(text, i) else {}), Pending(text, t, q))
            && KeepsVars(s.stmt, t.stmt) && (t.inVar ==> InName(text, i + 1, t, q))
  {
    hide S.UserVar, NameRunEnd, NameKey, VarStart, MentionAt;
    q := p;
    if text[i] == '@' {
      MentionIs(text, i);
      SameStart(text, i, prev, if i == 0 then ' ' else text[i - 1]);
      match VarStart(text, i, prev) {
        case NoVar =>
        case Named =>
          q := i;
        case Nameless =>
          UserVarReports(s.stmt, mentioned + {""}, "");
      }
    }
  }

  lemma ByteReports(text: string, i: nat, s: Scan, mentioned: set<string>, p: nat) returns (q: nat)
    requires i < |text| && (s.inVar ==> !s.lex.dead && IsNameByte(text[i]) && InName(text, i, s, p))
    requires IsBreaker(s.prev) == BreakerBefore(text, i) && Reported(s.stmt, mentioned, Pending(text, s, p))
    requires PlainByte(text, i, s, text[i]).Some?
    ensures var t := PlainByte(text, i, s, text[i]).value;
            && Reported(t.stmt, mentioned + (if text[i] == '@' && !s.lex.dead then MentionAt(text, i) else {}), Pending(text, t, q))
            && KeepsVars(s.stmt, t.stmt) && (t.inVar ==> !s.lex.dead && InName(text, i + 1, t, q)) && t.prev == text[i]
  {
    hide S.CodeByte, NameRunEnd, NameKey, MentionAt, VarStart, S.UserVar;
    q := p;
    if !s.lex.dead {
      q := TrackVarReports(text, i, s.(prev := text[i]), s.prev, mentioned, p);
      var w := WordByte(TrackVar(text, i, s.(prev := text[i]), s.prev, text[i]), text[i]);
      F.CodeByteKeepsSession(w.stmt, text[i]);
    }
  }

  lemma PunctuateReports(order: S.Order, st: S.Stmt, event: Event, dead: bool)
    requires !event.EndStatement? && Punctuate(order, st, event, dead).Some?
    ensures F.SameSession(st, Punctuate(order, st, event, dead).value)
  {
    hide S.Space, S.StartQuote;
    match event
    case OpenQuote(q) => F.StartQuoteKeepsSession(st, q, dead);
    case LineComment => F.SpaceKeepsSession(st);
    case OpenComment => F.SpaceKeepsSession(st);
    case OpenCond(_) => F.SpaceKeepsSession(st);
    case CloseCond => F.SpaceKeepsSession(st);
    case _ =>
  }

  // --------------------------------------------------------- whole steps

  lemma LineReports(order: S.Order, text: string, i: nat, s: Scan, mentioned: set<string>, p: nat)
    requires i < |text| && NameInv(text, i, s, p) && (!s.lex.mode.Code? || s.lex.bol)
    requires Reported(s.stmt, mentioned, {}) && Step(order, text, i, s).Some?
    ensures var (j, t) := Step(order, text, i, s).value;
            NameInv(text, j, t, p) && !t.inVar && Reported(t.stmt, mentioned, {}) && KeepsVars(s.stmt, t.stmt)
  {
    hide LexStep, S.QuoteText, S.EndQuote, UseOk, PlainDelimiter;
    CodeEvents(text, i, s.lex);
    DelimiterStaysPlain(text, i, s.lex);
    var out := LexStep(text, i, s.lex).value;
    if s.lex.bol {
      LineStepEnds(text, i, s.lex);
    } else if s.lex.mode.Comment? {
      CommentStepEnds(text, i, s.lex);
    } else {
      QuoteStepEnds(text, i, s.lex);
      if out.event.QuoteText? {
        F.QuoteTextKeepsSession(s.stmt, out.event.bs);
      } else if out.event.CloseQuote? {
        F.EndQuoteKeepsSession(s.stmt);
      }
    }
  }

  lemma NewlineReports(order: S.Order, text: string, i: nat, s: Scan, mentioned: set<string>, p: nat)
    requires i < |text| && NameInv(text, i, s, p) && s.lex.mode.Code? && !s.lex.bol && text[i] == '\n'
    requires Reported(s.stmt, mentioned, Pending(text, s, p)) && Step(order, text, i, s).Some?
    ensures var (j, t) := Step(order, text, i, s).value;
            NameInv(text, j, t, p) && !t.inVar && Reported(t.stmt, mentioned, {}) && KeepsVars(s.stmt, t.stmt)
  {
    hide S.Space, IsFileWord, EndVar, NameRunEnd, NameKey;
    assert LexStep(text, i, s.lex) == Some(LexOut(i + 1, s.lex.(bol := true), Newline));
    var n := s.(lex := s.lex.(bol := true), prev := ' ');
    EndVarReports(text, i, n, mentioned, p);
    EndVarKeepsPrev(n);
    EndVarKeepsLex(n);
    F.SpaceKeepsSession(EndVar(n).stmt);
  }

  lemma EndVarKeepsLex(s: Scan)
    ensures EndVar(s).lex == s.lex
  {
    hide S.UserVar, VarKey;
  }

  lemma ByteStepReports(order: S.Order, text: string, i: nat, s: Scan, mentioned: set<string>, p: nat) returns (q: nat)
    requires i < |text| && NameInv(text, i, s, p) && s.lex.mode.Code? && !s.lex.bol
    requires Reported(s.stmt, mentioned, Pending(text, s, p)) && Step(order, text, i, s).Some?
    requires LexStep(text, i, s.lex).value.event.Byte?
    ensures var (j, t) := Step(order, text, i, s).value;
            && NameInv(text, j, t, q) && KeepsVars(s.stmt, t.stmt)
            && Reported(t.stmt, mentioned + StepMentions(text, i, s.lex), Pending(text, t, q))
  {
    hide LexStep, PlainByte, Prelude, NameRunEnd, NameKey, MentionAt, PlainDelimiter;
    ByteIsOneStep(text, i, s.lex);
    PunctuationIsNoWord(text, i, s.lex);
    PreludeReports(text, i, s, mentioned, p);
    q := ByteReports(text, i, Prelude(s, text[i]).value, mentioned, p);
  }

  lemma PunctuationReports(order: S.Order, text: string, i: nat, s: Scan, mentioned: set<string>, p: nat)
    requires i < |text| && NameInv(text, i, s, p) && s.lex.mode.Code? && !s.lex.bol && text[i] != '\n'
    requires Reported(s.stmt, mentioned, Pending(text, s, p)) && Step(order, text, i, s).Some?
    requires !LexStep(text, i, s.lex).value.event.Byte?
    ensures var (j, t) := Step(order, text, i, s).value;
            NameInv(text, j, t, p) && !t.inVar
    ensures Prelude(s, text[i]).Some?
    ensures var e := Prelude(s, text[i]).value;
            var t := Step(order, text, i, s).value.1;
            && Reported(e.stmt, mentioned, {}) && KeepsVars(s.stmt, e.stmt)
            && if LexStep(text, i, s.lex).value.event.EndStatement?
               then S.End(order, e.stmt) == Some(t.stmt)
               else Reported(t.stmt, mentioned, {}) && KeepsVars(s.stmt, t.stmt)
  {
    hide LexStep, PlainByte, Prelude, NameRunEnd, NameKey, PlainDelimiter, Punctuate, PrevAfter, S.End;
    PunctuationEnds(text, i, s.lex);
    PunctuationIsNoWord(text, i, s.lex);
    CodeEvents(text, i, s.lex);
    DelimiterStaysPlain(text, i, s.lex);
    PreludeReports(text, i, s, mentioned, p);
    var event := LexStep(text, i, s.lex).value.event;
    var e := Prelude(s, text[i]).value;
    if event.EndStatement? {
      EndIsPunctuation(order, e.stmt, event, s.lex.dead);
    } else {
      PunctuateReports(order, e.stmt, event, s.lex.dead);
    }
  }

  lemma EndIsPunctuation(order: S.Order, st: S.Stmt, event: Event, dead: bool)
    requires event.EndStatement?
    ensures Punctuate(order, st, event, dead) == S.End(order, st)
  {
  }

  lemma InVarIsInCode(text: string, i: nat, s: Scan, p: nat)
    requires i <= |text| && NameInv(text, i, s, p)
    ensures Valid(s) && (s.inVar ==> s.lex.mode.Code? && !s.lex.bol && InName(text, i, s, p))
  {
  }

  lemma EndsInCode(text: string, i: nat, x: Lex)
    requires i < |text| && ValidLex(x) && LexStep(text, i, x).Some? && LexStep(text, i, x).value.event.EndStatement?
    ensures x.mode.Code? && !x.bol && text[i] != '\n'
  {
    hide LineEnd, BlanksEnd, LineWord, TrimSpace, DelimiterOk;
  }

  /** A step within a statement: what it mentions is reported or pending. */
  lemma StepReports(order: S.Order, text: string, i: nat, s: Scan, mentioned: set<string>, p: nat) returns (q: nat)
    requires i < |text| && NameInv(text, i, s, p) && Valid(s) && Reported(s.stmt, mentioned, Pending(text, s, p))
    requires Step(order, text, i, s).Some? && !LexStep(text, i, s.lex).value.event.EndStatement?
    ensures var (j, t) := Step(order, text, i, s).value;
            && NameInv(text, j, t, q) && KeepsVars(s.stmt, t.stmt)
            && Reported(t.stmt, mentioned + StepMentions(text, i, s.lex), Pending(text, t, q))
  {
    hide LexStep, Step, NameInv, Reported;
    q := p;
    InVarIsInCode(text, i, s, p);
    if !s.lex.mode.Code? || s.lex.bol {
      LineReports(order, text, i, s, mentioned, p);
    } else if text[i] == '\n' {
      NewlineReports(order, text, i, s, mentioned, p);
    } else if LexStep(text, i, s.lex).value.event.Byte? {
      q := ByteStepReports(order, text, i, s, mentioned, p);
    } else {
      PunctuationReports(order, text, i, s, mentioned, p);
    }
    assert StepMentions(text, i, s.lex) == {} || LexStep(text, i, s.lex).value.event.Byte?;
    assert mentioned + {} == mentioned;
  }
}
