/** A dump whose INSERT is no statement: the comma right behind VALUES is taken for white space. */
module DroppedBytes {
  import opened Text
  import opened SqlChecks
  import S = Statements
  import V = ValuesAutomaton
  import VG = ValuesGrammar
  import opened DumpLexer
  import R = ScanRuns
  import T = TokenRuns
  import FH = FinalHeads

  const DROPPING := "INSERT INTO t VALUES,(1)"

  const HEAD := [T.Word("INSERT"), T.Word("INTO"), T.Word("t")]

  lemma Advances(order: S.Order, text: string, i: nat, s: Scan)
    requires i < |text| && s.lex == T.CALM && !s.inVar && (s.wordLong || !IsFileWord(s.word))
    requires T.PlainCode(text[i]) && text[i] != '@' && (IsWordByte(text[i]) ==> s.word == "" && !s.wordLong)
    requires S.CodeByte(s.stmt, text[i]).Some?
    ensures Step(order, text, i, s).Some?
    ensures var (j, t) := Step(order, text, i, s).value;
            && j == i + 1 && t.lex == T.CALM && !t.inVar && !t.wordLong && |t.word| <= 1
            && t.stmt == S.CodeByte(s.stmt, text[i]).value
    ensures !IsWordByte(text[i]) ==> Step(order, text, i, s).value.1.word == ""
  {
    T.PlainStep(order, text, i, s);
    hide S.CodeByte, Step, IsFileWord;
  }

  lemma ShortIsNoFile(w: string)
    requires |w| <= 1
    ensures !IsFileWord(w)
  {
  }

  // ----------------------------------------------------------- the statement

  lemma Uppers()
    ensures Upper("VALUES") == "VALUES" && Upper("t") == "T"
  {
  }

  lemma TableIsNoModifier()
    ensures !IsInsertModifier(T.Word("t")) && !IsExistsWord(T.Word("t"))
  {
    Uppers();
    hide Upper;
  }

  lemma HeadFacts()
    ensures |HEAD| == 3 && HEAD == FH.OPENING + [T.Word("t")]
    ensures forall k :: 0 <= k < 3 ==> T.Writable(HEAD[k]) && T.Sigils(HEAD[k]) == 0
    ensures T.Writable(T.Word("VALUES")) && T.Sigils(T.Word("VALUES")) == 0
    ensures !IsInsertModifier(HEAD[2]) && !IsExistsWord(HEAD[2])
    ensures T.PlainLineWord("INSERT") && Upper("VALUES") == "VALUES" && Upper("t") == "T"
  {
    T.PlainWord("INSERT");
    T.PlainWord("INTO");
    T.PlainWord("t");
    T.PlainWord("VALUES");
    Uppers();
    TableIsNoModifier();
    hide T.Writable, Upper, IsInsertModifier, IsExistsWord;
  }

  lemma PushThree(st: S.Stmt, ts: seq<Token>, t: Token, st2: S.Stmt, st3: S.Stmt)
    requires |ts| == 2 && T.PushAll(st, ts) == Some(st2) && T.Pushed(st2, t) == Some(st3) && T.Resting(st3)
    ensures T.PushAll(st, ts + [t]) == Some(st3)
  {
    hide T.Pushed, T.Resting;
    var all := ts + [t];
    var st1 := T.Pushed(st, ts[0]).value;
    assert all[1..] == [ts[1], t] && ts[1..] == [ts[1]] && [ts[1], t][1..] == [t] && [ts[1]][1..] == [] && [t][1..] == [];
    assert T.PushAll(st1, [ts[1]]) == Some(st2);
    assert T.PushAll(st2, []) == Some(st2) && T.PushAll(st3, []) == Some(st3);
    assert T.PushAll(st2, [t]) == Some(st3);
    assert T.PushAll(st1, [ts[1], t]) == Some(st3);
  }

  /** The statement behind `INSERT INTO t `. */
  function Named(st: S.Stmt): S.Stmt {
    st.(started := true, tokens := HEAD, size := 11)
  }

  lemma HeadIsPushed(st: S.Stmt)
    requires st == S.Fresh(st.database, S.Tracked(map[], {}), 0)
    ensures T.PushAll(st, HEAD) == Some(Named(st))
  {
    hide T.PushAll, T.Pushed, HEAD, T.Writable, IsInsertModifier, IsExistsWord, FH.OPENING;
    HeadFacts();
    var st2 := st.(started := true, tokens := FH.OPENING, size := 10);
    FH.Opens(st, T.Word("t"));
    PushThree(st, FH.OPENING, T.Word("t"), st2, Named(st));
  }

  /** The statement behind VALUES: the head is allowed and a tuple must follow. */
  function Opened(st: S.Stmt): S.Stmt {
    Named(st).(accepted := true, tokens := [], size := 17, values := Some(VG.Settled(V.Tuple)))
  }

  lemma ValuesFed()
    ensures S.FeedTokens(V.INIT, [T.Word("VALUES")]) == Some(VG.Settled(V.Tuple))
  {
    var w := "VALUES";
    HeadFacts();
    VG.LettersAreAtoms(w);
    VG.PlainWord(V.Head, w);
    assert [T.Word(w)][1..] == [];
    assert S.FeedTokens(VG.Settled(V.Tuple), []) == Some(VG.Settled(V.Tuple));
  }

  lemma HeadIsAllowed(s: S.Stmt)
    requires s.tokens == HEAD + [T.Word("VALUES")]
    ensures S.CheckHead(s, false) == S.Allowed(s.(values := Some(VG.Settled(V.Tuple))))
  {
    InsertIsJudged(s);
    HeadFacts();
    ValuesFed();
    hide S.FeedTokens, S.CheckHead, T.Writable, IsExistsWord, IsInsertModifier, Upper;
    var t := s.tokens;
    assert t[1] == T.Word("INTO") && t[2] == T.Word("t") && t[3] == T.Word("VALUES");
    ModifiersEnd(t);
    TableIsNamed(s.database, t);
    hide SkipInsertModifiers, SkipExists, ObjectName, NameEnd;
    assert t[3..] == [T.Word("VALUES")];
  }

  lemma InsertIsJudged(s: S.Stmt)
    requires s.tokens != [] && s.tokens[0] == T.Word("INSERT")
    ensures S.CheckHead(s, false) == S.CheckInsert(s, false)
  {
    assert Upper("INSERT") == "INSERT" && "INSERT" != "COMMIT";
    hide S.CheckInsert, Upper;
  }

  /** The name ends before VALUES, and is not qualified. */
  lemma TableIsNamed(database: string, t: seq<Token>)
    requires |t| == 4 && t[2] == T.Word("t") && t[3] == T.Word("VALUES") && SkipExists(t, 2) == 2
    ensures ObjectName(database, t, 2, false) == Accept && NameEnd(t, 2) == 3
  {
    hide SkipExists;
    assert t[2..][0] == t[2] && t[2..][1] == t[3];
    assert "VALUES"[0] == 'V';
  }

  lemma ModifiersEnd(t: seq<Token>)
    requires |t| == 4 && t[1] == T.Word("INTO") && !IsInsertModifier(t[2]) && !IsExistsWord(t[2])
    ensures SkipInsertModifiers(t, 1) == 2 && SkipExists(t, 2) == 2
  {
    assert Upper("INTO") == "INTO";
    assert IsInsertModifier(t[1]);
    hide IsInsertModifier, IsExistsWord;
    assert SkipInsertModifiers(t, 2) == 2;
  }

  lemma ValuesArePushed(st: S.Stmt)
    requires st == S.Fresh(st.database, S.Tracked(map[], {}), 0)
    ensures S.Push(Named(st), T.Word("VALUES")) == Some(Opened(st))
  {
    var s := Named(st).(tokens := HEAD + [T.Word("VALUES")], size := 17);
    HeadIsAllowed(s);
    hide S.CheckHead, HEAD;
  }

  /** A byte of punctuation behind a word at which the head is allowed. */
  lemma PunctDropped(st: S.Stmt, b: char, f: S.Stmt)
    requires st.started && st.curKind == 'w' && !S.InBody(st) && !IsSpace(b) && !IsWordByte(b) && b != '@' && b != '.'
    requires S.Push(st.(curKind := S.NONE, cur := ""), Token('w', st.cur)) == Some(f) && f.accepted && f.tail == S.NO_TAIL
    ensures S.CodeByte(st, b) == Some(f)
  {
    assert st.(started := true) == st;
    assert S.Flush(st) == Some(f) by { hide S.Push; }
    assert S.Push(f, Token('p', [b])) == Some(f);
    hide S.Push, S.Flush, S.Space;
  }

  /** The comma behind VALUES. */
  lemma CommaIsDropped(st: S.Stmt)
    requires st == S.Fresh(st.database, S.Tracked(map[], {}), 0)
    ensures S.CodeByte(Named(st).(curKind := 'w', cur := "VALUES"), ',') == Some(Opened(st))
  {
    hide S.Push, HEAD;
    ValuesArePushed(st);
    var s := Named(st).(curKind := 'w', cur := "VALUES");
    assert s.(curKind := S.NONE, cur := "") == Named(st);
    PunctDropped(s, ',', Opened(st));
  }

  lemma One()
    ensures V.IsNumber("1")
  {
    assert V.DigitsEnd("1", 1) == 1 && V.DigitsEnd("1", 0) == 1;
  }

  /** The tuple behind it. */
  lemma BracketIsRead(st: S.Stmt)
    requires S.InBody(st) && st.started && st.values.value == VG.Settled(V.Tuple)
    ensures S.CodeByte(st, '(') == Some(st.(values := Some(VG.Settled(V.Literal))))
  {
    assert st.(started := true) == st;
    hide V.IsNumber;
  }

  lemma OneIsRead(st: S.Stmt)
    requires S.InBody(st) && st.started && st.values.value == VG.Settled(V.Literal)
    ensures S.CodeByte(st, '1') == Some(st.(values := Some(VG.Settled(V.Literal).(word := "1"))))
  {
    assert "" + ['1'] == "1";
    assert st.(started := true) == st;
    hide V.IsNumber, Upper;
  }

  lemma EndIsRead(st: S.Stmt)
    requires S.InBody(st) && st.started && st.values.value == VG.Settled(V.Literal).(word := "1")
    ensures S.CodeByte(st, ')') == Some(st.(values := Some(VG.Settled(V.TupleSep))))
  {
    One();
    assert Upper("1")[0] == '1';
    assert st.(started := true) == st;
    hide V.IsNumber, Upper;
  }

  lemma TupleIsRead(st: S.Stmt)
    requires S.InBody(st) && st.started && st.values.value == VG.Settled(V.Tuple)
    ensures S.CodeByte(st, '(') == Some(st.(values := Some(VG.Settled(V.Literal))))
    ensures S.CodeByte(st.(values := Some(VG.Settled(V.Literal))), '1') == Some(st.(values := Some(VG.Settled(V.Literal).(word := "1"))))
    ensures S.CodeByte(st.(values := Some(VG.Settled(V.Literal).(word := "1"))), ')') == Some(st.(values := Some(VG.Settled(V.TupleSep))))
  {
    hide S.CodeByte;
    BracketIsRead(st);
    OneIsRead(st.(values := Some(VG.Settled(V.Literal))));
    EndIsRead(st.(values := Some(VG.Settled(V.Literal).(word := "1"))));
  }

  // ------------------------------------------------------------- the dump

  lemma TextOfIt()
    ensures |DROPPING| == 24 && DROPPING[0..20] == T.Written(HEAD) + "VALUES" && |T.Written(HEAD)| == 14
    ensures DROPPING[20] == ',' && DROPPING[21] == '(' && DROPPING[22] == '1' && DROPPING[23] == ')'
    ensures T.OpensLine(DROPPING, 0, "INSERT")
  {
    HeadFacts();
    hide T.Writable, T.PlainLineWord;
    assert HEAD[1..] == [T.Word("INTO"), T.Word("t")] && [T.Word("INTO"), T.Word("t")][1..] == [T.Word("t")] && [T.Word("t")][1..] == [];
    assert T.Written([]) == "" && T.Written([T.Word("t")]) == "t" + " " + "";
    assert T.Written([T.Word("INTO"), T.Word("t")]) == "INTO" + " " + ("t" + " " + "");
    assert DROPPING[0..6] == "INSERT";
  }

  lemma ReadsOn(order: S.Order, text: string, i: nat, s: Scan, t: Scan)
    requires i < |text| && Valid(s) && Step(order, text, i, s) == Some((i + 1, t))
    ensures Run(order, text, i, s) == Run(order, text, i + 1, t)
  {
    hide Step;
  }

  lemma ReadsTuple(order: S.Order, s: Scan, st: S.Stmt)
    requires s.lex == T.CALM && !s.inVar && !s.wordLong && |s.word| <= 1 && s.stmt == st && S.InBody(st) && st.started
    requires st.values.value == VG.Settled(V.Tuple) && st.curKind == S.NONE && st.accepted
    ensures Run(order, DROPPING, 21, s)
  {
    hide Step, Run, S.CodeByte, DROPPING;
    TextOfIt();
    TupleIsRead(st);
    ShortIsNoFile(s.word);
    Advances(order, DROPPING, 21, s);
    var s1 := Step(order, DROPPING, 21, s).value.1;
    ReadsOn(order, DROPPING, 21, s, s1);
    ShortIsNoFile(s1.word);
    Advances(order, DROPPING, 22, s1);
    var s2 := Step(order, DROPPING, 22, s1).value.1;
    ReadsOn(order, DROPPING, 22, s1, s2);
    ShortIsNoFile(s2.word);
    Advances(order, DROPPING, 23, s2);
    var s3 := Step(order, DROPPING, 23, s2).value.1;
    ReadsOn(order, DROPPING, 23, s2, s3);
    ShortIsNoFile(s3.word);
    T.RunsOut(order, DROPPING, s3);
    BodyFinishes(order, s3);
  }

  lemma BodyFinishes(order: S.Order, s: Scan)
    requires !s.inVar && !IsFileWord(s.word) && S.InBody(s.stmt) && s.stmt.values.value == VG.Settled(V.TupleSep)
    ensures Finish(order, s)
  {
    hide IsFileWord, S.Next, S.CheckHead;
  }

  /** `INSERT INTO t VALUES,(1)` is accepted for every database. */
  lemma CommaIsAccepted(order: S.Order, database: string)
    ensures DROPPING == "INSERT INTO t VALUES,(1)" && Accepts(order, DROPPING, database)
  {
    var begin := Begin(database);
    var s := begin.(lex := T.CALM);
    T.StartsIdle(database);
    HeadFacts();
    TextOfIt();
    hide Step, Run, R.After, T.Read, T.Written, T.PushAll, T.Writable, T.Idle, Begin, T.PlainLineWord, IsWordByte, HEAD, DROPPING, S.CodeByte, IsFileWord;
    HeadIsPushed(begin.stmt);
    T.LineOpens(order, DROPPING, 0, begin, "INSERT");
    var s2, u := T.ReadSentence(order, DROPPING, 0, s, HEAD, T.Word("VALUES"));
    R.AfterKeepsVerdict(order, DROPPING, 0, s, 20);
    T.RunsOpen(order, DROPPING, 0, begin, s);
    CommaIsRead(order, begin.stmt, s2, u);
    DroppingIs();
  }

  lemma DroppingIs()
    ensures DROPPING == "INSERT INTO t VALUES,(1)"
  {
  }

  lemma ReadIs(s: Scan, t: Token, u: Scan)
    requires T.Read(s, t, u)
    ensures u.stmt == s.stmt.(started := true, curKind := 'w', cur := t.text) && u.lex == T.CALM && (u.wordLong || !IsFileWord(u.word))
    ensures u.inVar <==> T.Sigils(t) == 1
  {
    hide IsFileWord, S.InBody;
  }

  lemma OpenedIs(st: S.Stmt)
    requires st == S.Fresh(st.database, S.Tracked(map[], {}), 0)
    ensures var o := Opened(st); S.InBody(o) && o.started && o.accepted && o.values.value == VG.Settled(V.Tuple) && o.curKind == S.NONE
    ensures Named(st).started
  {
  }

  lemma CommaIsRead(order: S.Order, st: S.Stmt, s2: Scan, u: Scan)
    requires st == S.Fresh(st.database, S.Tracked(map[], {}), 0) && s2.stmt == Named(st) && T.Read(s2, T.Word("VALUES"), u) && Valid(u)
    ensures Run(order, DROPPING, 20, u)
  {
    TextOfIt();
    HeadFacts();
    hide Step, Run, HEAD, DROPPING, S.CodeByte, IsFileWord, T.Read, Named, Opened, T.Writable, T.Written;
    CommaIsDropped(st);
    ReadIs(s2, T.Word("VALUES"), u);
    OpenedIs(st);
    assert u.stmt == Named(st).(curKind := 'w', cur := "VALUES");
    Advances(order, DROPPING, 20, u);
    var t := Step(order, DROPPING, 20, u).value.1;
    ReadsOn(order, DROPPING, 20, u, t);
    ReadsTuple(order, t, Opened(st));
  }
}
