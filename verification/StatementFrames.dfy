/** What a step inside a statement leaves alone: the database, the user variables and the names the
    statement mentions or accounts for. Only the end of a statement changes those. */
module StatementFrames {
  import opened Text
  import V = ValuesAutomaton
  import opened SqlChecks
  import opened Statements

  predicate SameSession(a: Stmt, b: Stmt) {
    && a.database == b.database && a.vars == b.vars && a.count == b.count
    && a.varRefs == b.varRefs && a.setVars == b.setVars
  }

  lemma HeadKeepsSession(st: Stmt)
    requires st.tokens != [] && CheckHead(st, false).Allowed?
    ensures SameSession(st, CheckHead(st, false).st)
  {
    hide FeedTokens, CheckTails, ObjectName, AllNamesOk, TriggerTable, AlterTable, DatabaseName, NameOk, Token.Is, CheckSet;
  }

  lemma PushKeepsSession(st: Stmt, t: Token)
    requires Push(st, t).Some?
    ensures SameSession(st, Push(st, t).value)
  {
    hide CheckTail, CheckHead, Token.Is;
    if !st.accepted {
      var s := st.(tokens := st.tokens + [t], size := st.size + |t.text|);
      if CheckHead(s, false).Allowed? {
        HeadKeepsSession(s);
      }
    }
  }

  lemma FlushKeepsSession(st: Stmt)
    requires Flush(st).Some?
    ensures SameSession(st, Flush(st).value)
  {
    hide Push;
    if st.curKind != NONE {
      PushKeepsSession(st.(curKind := NONE, cur := ""), Token(st.curKind, st.cur));
    }
  }

  lemma SpaceKeepsSession(st: Stmt)
    requires Space(st).Some?
    ensures SameSession(st, Space(st).value)
  {
    hide Flush, V.Space;
    if !InBody(st) {
      FlushKeepsSession(st);
    }
  }

  lemma CodeByteKeepsSession(st: Stmt, b: char)
    requires CodeByte(st, b).Some?
    ensures SameSession(st, CodeByte(st, b).value)
  {
    hide Flush, Push, Space, V.CodeByte, IsWordByte, IsSpace;
    if IsSpace(b) {
      SpaceKeepsSession(st);
    } else {
      var s := st.(started := true);
      if !InBody(s) && Flush(s).Some? {
        FlushKeepsSession(s);
        if Push(Flush(s).value, Token('p', [b])).Some? {
          PushKeepsSession(Flush(s).value, Token('p', [b]));
        }
      }
    }
  }

  lemma StartQuoteKeepsSession(st: Stmt, q: char, dead: bool)
    requires StartQuote(st, q, dead).Some?
    ensures SameSession(st, StartQuote(st, q, dead).value)
  {
    FlushKeepsSession(st);
    hide Flush, V.StartQuote;
  }

  lemma EndQuoteKeepsSession(st: Stmt)
    requires EndQuote(st).Some?
    ensures SameSession(st, EndQuote(st).value)
  {
    hide Flush, V.EndQuote;
    if !InBody(st) {
      FlushKeepsSession(st);
    }
  }

  lemma QuoteTextKeepsSession(st: Stmt, bs: string)
    requires QuoteText(st, bs).Some?
    ensures SameSession(st, QuoteText(st, bs).value)
  {
    hide V.QuoteText;
  }

  /** The final check changes the session only for SET. */
  lemma FinalHeadKeepsSession(st: Stmt)
    requires FinalHead(st).Some? && !(!st.accepted && st.tokens != [] && st.tokens[0].Is("SET"))
    ensures SameSession(st, FinalHead(st).value)
  {
    hide FeedTokens, CheckTails, ObjectName, AllNamesOk, TriggerTable, AlterTable, DatabaseName, NameOk, Token.Is, CheckSet;
  }

  lemma {:induction false} AssignmentsKeepRest(st: Stmt, parts: seq<seq<Token>>)
    requires CheckAssignments(st, parts).Some?
    ensures var s := CheckAssignments(st, parts).value; s == st.(vars := s.vars, setVars := s.setVars)
    decreases |parts|
  {
    if parts != [] {
      hide IsNames, ClientCharsetOk, SQLModeOk, Target, SavedFrom, SaveVar, IsLexical;
      AssignmentsKeepRest(CheckAssignment(st, parts[0]).value, parts[1..]);
    }
  }

  /** What SET does: only the tracked variables and the names accounted for change. */
  lemma FinalSet(st: Stmt)
    requires !st.accepted && st.tokens != [] && st.tokens[0].Is("SET")
    ensures FinalHead(st) == CheckSet(st, st.tokens[1..])
    ensures FinalHead(st).Some? ==> var s := FinalHead(st).value; s == st.(vars := s.vars, setVars := s.setVars)
  {
    hide CheckAssignments, NamesUnsafeCharset;
    var t := st.tokens[1..];
    if CheckSet(st, t).Some? {
      AssignmentsKeepRest(st.(setVars := {}), SplitAssignments(t, 0, []));
    }
  }

  lemma EndKeepsPlace(order: Order, st: Stmt)
    requires End(order, st).Some?
    ensures End(order, st).value.database == st.database && End(order, st).value.count == st.count + 1
  {
    SpaceKeepsSession(st);
    var x := Space(st).value;
    if !x.accepted && x.tokens != [] && x.tokens[0].Is("SET") {
      FinalSet(x);
    } else {
      FinalHeadKeepsSession(x);
    }
    hide Space, FinalHead, Poison;
  }
}
