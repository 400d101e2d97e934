/** What a dump's statements may be and may name: only the statements dumps hold, and only objects of
    the target database. */
module StatementNames {
  import opened Text
  import opened SqlChecks
  import opened Statements
  import V = ValuesAutomaton
  import L = DumpLexer
  import R = ScanRuns

  // --------------------------------------------------------------- verbs

  predicate IsDumpVerb(t: Token) {
    t.kind == 'w' && Upper(t.text) in {
      "COMMIT", "INSERT", "REPLACE", "LOCK", "UNLOCK", "SET", "USE", "CREATE", "DROP", "ALTER"}
  }

  /** A head of any other statement is refused at its first token. */
  lemma OtherVerbsAreRefused(st: Stmt, final: bool)
    requires st.tokens != [] && !IsDumpVerb(st.tokens[0])
    ensures CheckHead(st, final).Refused?
  {
    hide CheckInsert, CheckLock, CheckDDL, CheckSet, NameOk;
  }

  /** Every kept head starts with a verb of a dump. */
  predicate VerbOk(st: Stmt) {
    st.tokens != [] ==> IsDumpVerb(st.tokens[0])
  }

  lemma PushKeepsVerb(st: Stmt, t: Token)
    requires VerbOk(st) && Push(st, t).Some?
    ensures VerbOk(Push(st, t).value)
    ensures !st.accepted ==> IsDumpVerb((st.tokens + [t])[0])
  {
    hide CheckTail, CheckHead, IsDumpVerb;
    if !st.accepted {
      var s := st.(tokens := st.tokens + [t], size := st.size + |t.text|);
      if !IsDumpVerb(s.tokens[0]) {
        OtherVerbsAreRefused(s, false);
      }
    }
  }

  lemma FlushKeepsVerb(st: Stmt)
    requires VerbOk(st) && Flush(st).Some?
    ensures VerbOk(Flush(st).value)
  {
    hide Push, IsDumpVerb;
    if st.curKind != NONE {
      PushKeepsVerb(st.(curKind := NONE, cur := ""), Token(st.curKind, st.cur));
    }
  }

  lemma CodeByteKeepsVerb(st: Stmt, b: char)
    requires VerbOk(st) && CodeByte(st, b).Some?
    ensures VerbOk(CodeByte(st, b).value)
  {
    hide Flush, Push, V.CodeByte, V.Space, IsWordByte, IsSpace, IsDumpVerb;
    var s := if IsSpace(b) then st else st.(started := true);
    if !InBody(s) && Flush(s).Some? {
      FlushKeepsVerb(s);
      if Push(Flush(s).value, Token('p', [b])).Some? {
        PushKeepsVerb(Flush(s).value, Token('p', [b]));
      }
    }
  }

  lemma SpaceKeepsVerb(st: Stmt)
    requires VerbOk(st) && Space(st).Some?
    ensures VerbOk(Space(st).value)
  {
    hide Flush, V.Space, IsDumpVerb;
    if !InBody(st) {
      FlushKeepsVerb(st);
    }
  }

  lemma EndQuoteKeepsVerb(st: Stmt)
    requires VerbOk(st) && EndQuote(st).Some?
    ensures VerbOk(EndQuote(st).value)
  {
    hide Flush, V.EndQuote, IsDumpVerb;
    if !InBody(st) {
      FlushKeepsVerb(st);
    }
  }

  lemma StartQuoteKeepsVerb(st: Stmt, q: char, dead: bool)
    requires VerbOk(st) && StartQuote(st, q, dead).Some?
    ensures VerbOk(StartQuote(st, q, dead).value)
  {
    hide Flush, V.StartQuote, IsDumpVerb;
    FlushKeepsVerb(st);
  }

  lemma PunctuateKeepsVerb(order: Order, st: Stmt, event: L.Event, dead: bool)
    requires VerbOk(st) && L.Punctuate(order, st, event, dead).Some?
    ensures VerbOk(L.Punctuate(order, st, event, dead).value)
  {
    hide Space, StartQuote, Closing, IsDumpVerb;
    match event
    case OpenQuote(q) => StartQuoteKeepsVerb(st, q, dead);
    case LineComment => SpaceKeepsVerb(st);
    case OpenComment => SpaceKeepsVerb(st);
    case OpenCond(_) => SpaceKeepsVerb(st);
    case CloseCond => SpaceKeepsVerb(st);
    case _ =>
  }

  lemma VarsKeepTokens(text: string, i: nat, s: L.Scan, prev: char, c: char)
    ensures L.EndVar(s).stmt.tokens == s.stmt.tokens && L.TrackVar(text, i, s, prev, c).stmt.tokens == s.stmt.tokens
    ensures L.Prelude(s, c).Some? ==> L.Prelude(s, c).value.stmt.tokens == s.stmt.tokens
    ensures L.WordByte(s, c).stmt == s.stmt
  {
    hide L.VarKey, L.VarStart, L.IsFileWord;
  }

  lemma CheckCodeKeepsVerb(order: Order, text: string, i: nat, s: L.Scan, out: L.LexOut)
    requires i < |text| && VerbOk(s.stmt) && L.CheckCode(order, text, i, s, out).Some?
    ensures VerbOk(L.CheckCode(order, text, i, s, out).value.stmt)
  {
    hide L.Prelude, L.TrackVar, L.WordByte, L.Punctuate, CodeByte, IsDumpVerb;
    var c := text[i];
    VarsKeepTokens(text, i, s, ' ', c);
    var p := L.Prelude(s, c).value.(lex := out.lex);
    if out.event.Byte? {
      var v := L.TrackVar(text, i, p.(prev := c), p.prev, c);
      VarsKeepTokens(text, i, p.(prev := c), p.prev, c);
      VarsKeepTokens(text, i, v, ' ', c);
      if !p.lex.dead {
        CodeByteKeepsVerb(v.stmt, c);
      }
    } else {
      PunctuateKeepsVerb(order, p.stmt, out.event, s.lex.dead);
    }
  }

  lemma StepKeepsVerb(order: Order, text: string, i: nat, s: L.Scan)
    requires i < |text| && L.Valid(s) && VerbOk(s.stmt) && L.Step(order, text, i, s).Some?
    ensures VerbOk(L.Step(order, text, i, s).value.1.stmt)
  {
    hide L.LexStep, L.CheckCode, L.EndVar, L.EndWord, Space, QuoteText, EndQuote, UseOk, IsDumpVerb;
    var out := L.LexStep(text, i, s.lex).value;
    var n := s.(lex := out.lex);
    match out.event
    case Skip =>
    case Newline =>
      VarsKeepTokens(text, i, n.(prev := ' '), ' ', ' ');
      SpaceKeepsVerb(L.EndVar(n.(prev := ' ')).stmt);
      EndWordKeepsStmt(L.EndVar(n.(prev := ' ')).(stmt := Space(L.EndVar(n.(prev := ' ')).stmt).value));
    case QuoteText(bs) => QuoteTextKeepsTokens(n.stmt, bs);
    case CloseQuote(q) => EndQuoteKeepsVerb(n.stmt);
    case CloseComment =>
    case UseCommand(_) =>
    case DelimiterCommand(_) =>
    case _ => CheckCodeKeepsVerb(order, text, i, s, out);
  }

  lemma EndWordKeepsStmt(s: L.Scan)
    ensures L.EndWord(s).Some? ==> L.EndWord(s).value.stmt == s.stmt
  {
    hide L.IsFileWord;
  }

  lemma QuoteTextKeepsTokens(st: Stmt, bs: string)
    ensures QuoteText(st, bs).Some? ==> QuoteText(st, bs).value.tokens == st.tokens
  {
    hide V.QuoteText;
  }

  lemma {:induction false} RunKeepsVerb(order: Order, text: string, i: nat, s: L.Scan, n: nat)
    requires i <= |text| && L.Valid(s) && VerbOk(s.stmt) && R.After(order, text, i, s, n).Some?
    ensures VerbOk(R.After(order, text, i, s, n).value.1.stmt)
    decreases n
  {
    hide L.Step, VerbOk;
    if n > 0 && i < |text| {
      StepKeepsVerb(order, text, i, s);
      var (j, t) := L.Step(order, text, i, s).value;
      RunKeepsVerb(order, text, j, t, n - 1);
    }
  }

  /** Main result: in every run over every text, a head that is kept starts with a verb of a dump.
      Any other statement is refused at its first token. */
  lemma OnlyDumpStatements(order: Order, text: string, database: string, n: nat)
    requires R.After(order, text, 0, L.Begin(database), n).Some?
    ensures var tokens := R.After(order, text, 0, L.Begin(database), n).value.1.stmt.tokens;
            tokens != [] ==> IsDumpVerb(tokens[0])
  {
    hide R.After, IsDumpVerb;
    RunKeepsVerb(order, text, 0, L.Begin(database), n);
  }

  // --------------------------------------------------------------- names

  /** Tokens put together as the name they spell. */
  function Spelling(t: seq<Token>): string {
    if t == [] then "" else t[0].text + Spelling(t[1..])
  }

  /** A name is unqualified, or the part before its first dot is the target database. A quoted first
      part may hold dots itself. */
  predicate InDatabase(database: string, first: Token, name: string) {
    if first.kind == 'w' then
      '.' in name ==> database != "" && name[..IndexOf(name, '.')] == database
    else
      first.text < name && name[|first.text|] == '.' ==> database != "" && first.text == database
  }

  lemma {:induction false} IndexInPrefix(a: string, b: string, c: char)
    ensures c in a ==> IndexOf(a + b, c) == IndexOf(a, c) < |a|
    ensures c !in a && b != "" && b[0] == c ==> IndexOf(a + b, c) == |a|
  {
    if a == "" {
      assert a + b == b;
    } else {
      assert (a + b)[1..] == a[1..] + b;
      assert (a + b)[0] == a[0];
      IndexInPrefix(a[1..], b, c);
      assert a == [a[0]] + a[1..];
    }
  }

  lemma SpellsOne(t: seq<Token>)
    requires |t| == 1
    ensures Spelling(t) == t[0].text
  {
    assert t[1..] == [];
    assert t[0].text + "" == t[0].text;
  }

  lemma SpellsMore(t: seq<Token>)
    requires |t| > 1 && t[1].text != ""
    ensures Spelling(t) == t[0].text + Spelling(t[1..]) && Spelling(t[1..]) != "" && Spelling(t[1..])[0] == t[1].text[0]
  {
    assert t[1..][0] == t[1];
    assert Spelling(t[1..]) == t[1].text + Spelling(t[1..][1..]);
  }

  /** Main result on names: the name ObjectName passes, of what CREATE, INSERT and REPLACE name and of a
      trigger's table, put together from all its tokens, stays in the target database. */
  lemma NamesStayInDatabase(database: string, t: seq<Token>, i: nat, final: bool)
    requires ObjectName(database, t, i, final) == Accept
    ensures var j := SkipExists(t, i);
            InDatabase(database, t[j], Spelling(t[j..NameEnd(t, j)]))
  {
    var j := SkipExists(t, i);
    var e := NameEnd(t, j);
    NameStaysInDatabase(database, t, j, e);
  }

  lemma NameStaysInDatabase(database: string, t: seq<Token>, j: nat, e: nat)
    requires j < |t| && e == NameEnd(t, j) <= |t| && QualifierOk(database, t[j..])
    ensures InDatabase(database, t[j], Spelling(t[j..e]))
  {
    hide IndexOf, Spelling;
    DotAtEnd(t[j].text);
    var q := t[j..e];
    assert t[j..][0] == q[0] == t[j];
    if |t[j..]| > 1 {
      assert t[j..][1] == t[j + 1];
    }
    if |q| == 1 {
      SpellsOne(q);
    } else {
      assert q[1] == t[j + 1];
      if t[j].kind == 'w' && '.' in t[j].text {
        SpellsFirst(q);
        IndexInPrefix(t[j].text, Spelling(q[1..]), '.');
        PrefixOfSum(t[j].text, Spelling(q[1..]), IndexOf(t[j].text, '.'));
      } else {
        assert HasPrefix(t[j + 1].text, ".") && t[j + 1].kind == 'w';
        assert t[j + 1].text[0] == '.';
        SpellsMore(q);
        IndexInPrefix(t[j].text, Spelling(q[1..]), '.');
        PrefixOfSum(t[j].text, Spelling(q[1..]), |t[j].text|);
      }
    }
  }

  lemma DotAtEnd(s: string)
    ensures HasSuffix(s, ".") ==> '.' in s
  {
    if HasSuffix(s, ".") {
      assert s[|s| - 1] == s[|s| - 1..][0];
    }
  }

  lemma SpellsFirst(t: seq<Token>)
    requires t != []
    ensures Spelling(t) == t[0].text + Spelling(t[1..])
  {
  }

  lemma PrefixOfSum(a: string, b: string, n: nat)
    requires n <= |a|
    ensures (a + b)[..n] == a[..n]
  {
  }
}
