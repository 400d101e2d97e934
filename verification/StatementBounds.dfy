/** The memory the statement checker keeps is bounded, whatever text it is fed. */
module StatementBounds {
  import opened Text
  import V = ValuesAutomaton
  import opened SqlChecks
  import opened Statements

  function TextSize(t: seq<Token>): nat {
    if t == [] then 0 else TextSize(t[..|t| - 1]) + |t[|t| - 1].text|
  }

  predicate VarsBounded(vars: Vars) {
    vars.Tracked? ==> |vars.saved| <= MAX_TOKENS && |vars.poisoned| <= MAX_TOKENS
  }

  predicate IsQuoteKind(k: char) {
    k != NONE && k != 'w'
  }

  /** Kept text stays within 64 KiB, the current token too, a head other than SET keeps at most 48
      tokens, and every collection of variable names at most 48 names. */
  predicate Bounded(st: Stmt) {
    && st.size <= MAX_HEAD && TextSize(st.tokens) <= st.size
    && |st.cur| <= MAX_HEAD && (IsQuoteKind(st.curKind) ==> st.size + |st.cur| <= MAX_HEAD)
    && (|st.tokens| <= MAX_TOKENS || st.tokens[0].Is("SET"))
    && |st.varRefs| <= MAX_TOKENS && VarsBounded(st.vars)
    && (st.values.Some? ==> st.accepted && V.Bounded(st.values.value))
  }

  lemma TextSizeAppend(t: seq<Token>, x: Token)
    ensures TextSize(t + [x]) == TextSize(t) + |x.text|
  {
    assert (t + [x])[..|t|] == t;
  }

  lemma SaveStaysBounded(vars: Vars, name: string, sysvar: string)
    requires VarsBounded(vars)
    ensures VarsBounded(SaveVar(vars, name, sysvar))
  {
    if vars.Tracked? {
      var m := vars.saved;
      assert m[name := sysvar].Keys == m.Keys + {name};
      assert |m| == |m.Keys| && |m[name := sysvar]| == |m[name := sysvar].Keys|;
      if name in m {
        assert m.Keys + {name} == m.Keys;
      }
    }
  }

  lemma {:induction false} PoisonStaysBounded(vars: Vars, names: seq<string>, accounted: set<string>)
    requires VarsBounded(vars)
    ensures VarsBounded(Poison(vars, names, accounted))
    decreases |names|
  {
    if names != [] {
      PoisonStaysBounded(PoisonOne(vars, names[0], accounted), names[1..], accounted);
    }
  }

  lemma {:induction false} AssignmentsStayBounded(st: Stmt, parts: seq<seq<Token>>)
    requires VarsBounded(st.vars) && CheckAssignments(st, parts).Some?
    ensures var s := CheckAssignments(st, parts).value;
            VarsBounded(s.vars) && s == st.(vars := s.vars, setVars := s.setVars)
    decreases |parts|
  {
    if parts != [] {
      AssignmentStaysBounded(st, parts[0]);
      AssignmentsStayBounded(CheckAssignment(st, parts[0]).value, parts[1..]);
    }
  }

  lemma AssignmentStaysBounded(st: Stmt, a: seq<Token>)
    requires VarsBounded(st.vars) && CheckAssignment(st, a).Some?
    ensures var s := CheckAssignment(st, a).value;
            VarsBounded(s.vars) && s == st.(vars := s.vars, setVars := s.setVars)
  {
    hide IsNames, ClientCharsetOk, SQLModeOk, Target, SavedFrom, SaveVar;
    if a != [] && !IsNames(a[0]) && EqualsIndex(a) < |a| {
      var saved := SavedFrom(a[EqualsIndex(a) + 1..]);
      if saved.Some? {
        SaveStaysBounded(st.vars, Target(a), saved.value);
      }
    }
  }

  lemma {:induction false} BytesStayBounded(v: V.Values, bs: string)
    requires V.Bounded(v) && V.CodeBytes(v, bs).Some?
    ensures V.Bounded(V.CodeBytes(v, bs).value)
    decreases |bs|
  {
    if bs != "" {
      V.StepsStayBounded(v, bs[0], "");
      hide V.CodeByte;
      BytesStayBounded(V.CodeByte(v, bs[0]).value, bs[1..]);
    }
  }

  lemma TokenStaysBounded(v: V.Values, t: Token)
    requires V.Bounded(v) && V.Token(v, t.kind, t.text).Some?
    ensures V.Bounded(V.Token(v, t.kind, t.text).value)
  {
    if t.kind == '\'' || t.kind == '"' || t.kind == '`' {
      V.StepsStayBounded(v, t.kind, "");
      var u := V.StartQuote(v, t.kind).value;
      V.StepsStayBounded(u, t.kind, t.text);
    } else {
      BytesStayBounded(v, t.text);
      V.StepsStayBounded(V.CodeBytes(v, t.text).value, 'w', "");
    }
  }

  lemma {:induction false} FeedStaysBounded(v: V.Values, t: seq<Token>)
    requires V.Bounded(v) && FeedTokens(v, t).Some?
    ensures V.Bounded(FeedTokens(v, t).value)
    decreases |t|
  {
    if t != [] {
      TokenStaysBounded(v, t[0]);
      hide V.Token;
      FeedStaysBounded(V.Token(v, t[0].kind, t[0].text).value, t[1..]);
    }
  }

  /** Allowing a head changes nothing but what it is meant to. */
  lemma HeadStaysBounded(st: Stmt, final: bool)
    requires st.tokens != [] && VarsBounded(st.vars) && st.values.None? && CheckHead(st, final).Allowed?
    ensures var s := CheckHead(st, final).st;
            && VarsBounded(s.vars) && (s.values.Some? ==> V.Bounded(s.values.value))
            && s == st.(vars := s.vars, setVars := s.setVars, values := s.values, tail := s.tail)
  {
    var t := st.tokens;
    hide FeedTokens, CheckTails, ObjectName, AllNamesOk, TriggerTable, AlterTable, DatabaseName, NameOk, Token.Is;
    if t[0].Is("COMMIT") {
    } else if t[0].Is("INSERT") || t[0].Is("REPLACE") {
      var i := SkipInsertModifiers(t, 1);
      FeedStaysBounded(V.INIT, t[NameEnd(t, i)..]);
    } else if t[0].Is("SET") && !(t[0].Is("LOCK") || t[0].Is("UNLOCK")) {
      AssignmentsStayBounded(st.(setVars := {}), SplitAssignments(t[1..], 0, []));
    }
  }

  lemma KeepStaysBounded(st: Stmt, t: Token)
    requires Bounded(st) && !st.accepted && st.curKind == NONE && st.cur == "" && Keep(st, t).Some?
    ensures Bounded(Keep(st, t).value)
  {
    hide CheckHead;
    TextSizeAppend(st.tokens, t);
    var s := st.(tokens := st.tokens + [t], size := st.size + |t.text|);
    if CheckHead(s, false).Allowed? {
      HeadStaysBounded(s, false);
    }
  }

  lemma PushStaysBounded(st: Stmt, t: Token)
    requires Bounded(st) && st.curKind == NONE && st.cur == "" && Push(st, t).Some?
    ensures Bounded(Push(st, t).value)
  {
    hide CheckTail, Keep;
    if !st.accepted {
      KeepStaysBounded(st, t);
    }
  }

  /** Nothing pending: no token in progress. */
  predicate Idle(st: Stmt) {
    st.curKind == NONE && st.cur == ""
  }

  lemma FlushStaysBounded(st: Stmt)
    requires Bounded(st) && (st.curKind == NONE ==> st.cur == "") && Flush(st).Some?
    ensures Bounded(Flush(st).value) && Idle(Flush(st).value)
  {
    hide Push;
    if st.curKind != NONE {
      PushStaysBounded(st.(curKind := NONE, cur := ""), Token(st.curKind, st.cur));
      PushKeepsIdle(st.(curKind := NONE, cur := ""), Token(st.curKind, st.cur));
    }
  }

  lemma PushKeepsIdle(st: Stmt, t: Token)
    requires Bounded(st) && Idle(st) && Push(st, t).Some?
    ensures Idle(Push(st, t).value)
  {
    hide CheckTail, CheckHead;
    if !st.accepted {
      var s := st.(tokens := st.tokens + [t], size := st.size + |t.text|);
      if CheckHead(s, false).Allowed? {
        HeadStaysBounded(s, false);
      }
    }
  }

  /** The invariant of the statement checker. */
  predicate Inv(st: Stmt) {
    Bounded(st) && (st.curKind == NONE ==> st.cur == "")
  }

  lemma SpaceKeepsInv(st: Stmt)
    requires Inv(st) && Space(st).Some?
    ensures Inv(Space(st).value)
  {
    if InBody(st) {
      V.StepsStayBounded(st.values.value, ' ', "");
      hide V.Space;
    } else {
      FlushStaysBounded(st);
    }
  }

  lemma HeadByteKeepsInv(st: Stmt, b: char)
    requires Inv(st) && HeadByte(st, b).Some?
    ensures Inv(HeadByte(st, b).value)
  {
    hide Flush, Push;
    if Flush(st).Some? {
      FlushStaysBounded(st);
      var f := Flush(st).value;
      if Push(f, Token('p', [b])).Some? {
        PushStaysBounded(f, Token('p', [b]));
        PushKeepsIdle(f, Token('p', [b]));
      }
    }
  }

  lemma CodeByteKeepsInv(st: Stmt, b: char)
    requires Inv(st) && CodeByte(st, b).Some?
    ensures Inv(CodeByte(st, b).value)
  {
    hide Space, HeadByte;
    if IsSpace(b) {
      SpaceKeepsInv(st);
    } else if InBody(st) {
      V.StepsStayBounded(st.values.value, b, "");
      hide V.CodeByte;
    } else {
      HeadByteKeepsInv(st.(started := true), b);
    }
  }

  lemma StartQuoteKeepsInv(st: Stmt, q: char, dead: bool)
    requires Inv(st) && StartQuote(st, q, dead).Some?
    ensures Inv(StartQuote(st, q, dead).value)
  {
    FlushStaysBounded(st);
    hide Flush;
    var f := Flush(st).value;
    if InBody(f) {
      V.StepsStayBounded(f.values.value, q, "");
      hide V.StartQuote;
    }
  }

  lemma QuoteTextKeepsInv(st: Stmt, bs: string)
    requires Inv(st) && QuoteText(st, bs).Some?
    ensures Inv(QuoteText(st, bs).value)
  {
  }

  lemma EndQuoteKeepsInv(st: Stmt)
    requires Inv(st) && EndQuote(st).Some?
    ensures Inv(EndQuote(st).value)
  {
    if !InBody(st) {
      FlushStaysBounded(st);
    }
  }

  lemma UserVarKeepsInv(st: Stmt, name: string)
    requires Inv(st)
    ensures Inv(UserVar(st, name))
  {
  }

  lemma ClosingStaysBounded(st: Stmt)
    requires Inv(st) && Closing(st).Some?
    ensures VarsBounded(Closing(st).value.vars)
  {
    hide CheckHead, V.End;
    if !st.accepted && st.tokens != [] && CheckHead(st, true).Allowed? {
      HeadStaysBounded(st, true);
    }
  }

  lemma EndKeepsInv(order: Order, st: Stmt)
    requires Inv(st) && End(order, st).Some?
    ensures Inv(End(order, st).value)
  {
    SpaceKeepsInv(st);
    var s := Space(st).value;
    ClosingStaysBounded(s);
    var f := Closing(s).value;
    hide Space, Closing;
    PoisonStaysBounded(f.vars, order(f.count, f.varRefs), f.setVars);
  }

  /** Splitting quoted text between calls does not matter. */
  lemma QuoteTextSplits(st: Stmt, a: string, b: string)
    ensures QuoteText(st, a + b) == match QuoteText(st, a) case None => None case Some(s) => QuoteText(s, b)
  {
    if InBody(st) {
      V.QuoteTextSplits(st.values.value, a, b);
    } else {
      assert st.cur + (a + b) == st.cur + a + b;
    }
  }
}
