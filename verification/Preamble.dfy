/** The two statements the import sends before a dump, and the session they leave. */
module Preamble {
  import opened Text
  import V = ValuesAutomaton
  import opened SqlChecks
  import S = Statements
  import T = TokenRuns
  import SR = SetRuns
  import opened DumpLexer
  import R = ScanRuns
  import opened SessionModel
  import opened SetStatements
  import opened SessionSafety
  import opened SessionReading
  import opened LogRuns
  import FM = ForgivenMentions
  import F = StatementFrames
  import opened Mentions
  import RestoreDb

  const MODE := RestoreDb.IMPORT_MODE

  /** `SESSION sql_mode='NO_AUTO_VALUE_ON_ZERO'` */
  const SET_MODE := [Word("SESSION"), Word("sql_mode"), Punct("="), Token('\'', MODE)]

  /** `NAMES utf8mb4` */
  const UTF8 := Word("utf8mb4")

  const SET_NAMES := [Word("NAMES"), UTF8]

  const FIRST := [Word("SET")] + SET_MODE

  const SECOND := [Word("SET")] + SET_NAMES

  const STATEMENTS := [Ended(FIRST, {}), Ended(SECOND, {})]

  // ------------------------------------------------------ executing them

  /** A list of tokens without commas and parentheses is one assignment. */
  lemma OneAssignment(a: seq<Token>)
    requires forall i :: 0 <= i < |a| ==> !a[i].IsPunct("(") && !a[i].IsPunct(")") && !a[i].IsPunct(",")
    ensures SplitAssignments(a, 0, []) == [a]
  {
    SplitSkips(a, [], []);
    assert a + [] == a && [] + a == a;
    assert SplitAssignments([], 0, a) == [a];
  }

  lemma ModeTokens()
    ensures |SET_MODE| == 4 && IsScopeWord(SET_MODE[0]) && !IsScopeWord(SET_MODE[1]) && Upper(SET_MODE[1].text) == SQL_MODE
    ensures SET_MODE[0].kind == 'w' && SET_MODE[1].kind == 'w' && SET_MODE[2] == Punct("=") && SET_MODE[3] == Token('\'', MODE)
    ensures !IsNames(SET_MODE[0])
  {
    assert |Upper("SESSION")| == 7 && Upper("SESSION") == "SESSION" && Upper("sql_mode") == SQL_MODE;
    hide Upper, MODE;
  }

  lemma ModeTarget()
    ensures EqualsIndex(SET_MODE) == 2 && Target(SET_MODE) == SQL_MODE
  {
    hide SET_MODE, Upper, IsScopeWord, MODE, TrimScope;
    ModeTokens();
    var a := SET_MODE;
    assert a[1..][1..][0] == Punct("=") && a[1..][0] == a[1];
    assert EqualsIndex(a[1..][1..]) == 0;
    assert EqualsIndex(a[1..]) == 1;
    JoinsTwo(a[..2]);
    SessionName();
  }

  lemma JoinsTwo(t: seq<Token>)
    requires |t| == 2 && IsScopeWord(t[0]) && !IsScopeWord(t[1])
    ensures JoinName(t) == Upper(t[1].text)
  {
    hide Upper, IsScopeWord;
    assert t[1..] == [t[1]];
    JoinsOne(t[1]);
    assert "" + Upper(t[1].text) == Upper(t[1].text);
  }

  lemma SessionName()
    ensures TrimScope(SQL_MODE) == SQL_MODE
  {
    NoPrefix(SQL_MODE, "@@SESSION.", 0);
    NoPrefix(SQL_MODE, "@@LOCAL.", 0);
    NoPrefix(SQL_MODE, "@@", 0);
  }

  lemma ModeParts()
    ensures Ended(FIRST, {}).Parts() == [SET_MODE] && EqualsIndex(SET_MODE) == 2 && Target(SET_MODE) == SQL_MODE
    ensures !IsNames(SET_MODE[0]) && Value(SET_MODE) == [Token('\'', MODE)]
  {
    hide SET_MODE, Target, IsNames, MODE, EqualsIndex;
    ModeTarget();
    ModeTokens();
    OneAssignment(SET_MODE);
    assert FIRST[1..] == SET_MODE;
    FM.SetToken();
    assert SET_MODE[3..] == [Token('\'', MODE)];
  }

  lemma NotElsewhere()
    ensures !SetsElsewhere([SET_MODE]) && !SetsElsewhere([SET_NAMES])
  {
    assert |Upper("SESSION")| == 7 && Upper("SESSION")[0] == 'S' && |Upper("sql_mode")| == 8;
    assert |Upper("NAMES")| == 5 && |Upper("utf8mb4")| == 7 && Upper("utf8mb4")[0] == 'U';
    hide Upper;
  }

  lemma NamesParts()
    ensures Ended(SECOND, {}).Parts() == [SET_NAMES] && IsNames(SET_NAMES[0]) && Value(SET_NAMES) == [UTF8] && PlainName(UTF8)
  {
    NamesTokens();
    hide SET_NAMES, IsNames, UTF8, PlainName;
    OneAssignment(SET_NAMES);
    assert SECOND[1..] == SET_NAMES;
    FM.SetToken();
  }

  lemma NamesTokens()
    ensures |SET_NAMES| == 2 && SET_NAMES[0].kind == 'w' && SET_NAMES[1] == UTF8 && UTF8.kind == 'w' && PlainName(UTF8)
    ensures IsNames(SET_NAMES[0]) && NamesIndex(SET_NAMES) == 1 && !SET_NAMES[0].Is("STATEMENT")
  {
    assert Upper("NAMES") == "NAMES" && |Upper("utf8mb4")| == 7 && Upper("utf8mb4")[0] == 'U';
    hide Upper;
  }

  /** One statement of one assignment gives its value to a system variable of the session. */
  lemma SetsSession(a: seq<Token>, t: Token, dirty: set<string>, w: World, ws: seq<World>)
    requires a != [] && Value(a) == [t] && (PlainText(t) || PlainName(t)) && (IsNames(a[0]) || !IsUserVar(Assigned(a)))
    requires !SetsElsewhere([a]) && Executes([a], dirty, w, ws)
    ensures |ws| == 2 && ws[1].sys(Assigned(a)) == t.text && forall n: string :: n != Assigned(a) ==> ws[1].sys(n) == w.sys(n)
  {
    hide Value, Assigned, SetsElsewhere, PlainText, PlainName, IsNames, IsUserVar;
    assert TimedAssigns([a][0], false, dirty, ws[0], ws[1]);
  }

  /** Main result: whatever the session was, after the two statements sql_mode and the client character
      set are the ones the scanner assumes. */
  lemma PreambleSetsSession(how: Accounting, w: World, tr: seq<seq<World>>)
    requires Traces(how, STATEMENTS, {}, w, tr)
    ensures AfterPreamble(LastWorld(tr, w))
  {
    hide SET_MODE, SET_NAMES, FIRST, SECOND, Ended.Dirtied, Target, Value, Executes, SetsElsewhere, MODE, IsNames, EqualsIndex, PlainName, IsUserVar;
    ModeParts();
    NamesParts();
    NotElsewhere();
    ModeIsText();
    assert STATEMENTS[1..] == [Ended(SECOND, {})];
    var (first, second) := (Ended(FIRST, {}), Ended(SECOND, {}));
    assert Executes(first.Parts(), {}, w, tr[0]);
    ExecutesSome(first.Parts(), {}, w, tr[0]);
    var w1 := tr[0][|tr[0]| - 1];
    assert Traces(how, STATEMENTS[1..], {} + first.Dirtied(how), w1, tr[1..]);
    assert tr[1..][0] == tr[1];
    assert Executes(second.Parts(), {} + first.Dirtied(how), w1, tr[1]);
    SetsSession(SET_MODE, Token('\'', MODE), {}, w, tr[0]);
    SetsSession(SET_NAMES, UTF8, {} + first.Dirtied(how), w1, tr[1]);
  }

  lemma ModeIsText()
    ensures PlainText(Token('\'', MODE)) && MODE == "NO_AUTO_VALUE_ON_ZERO" && !IsUserVar(SQL_MODE) && SET_MODE != [] && SET_NAMES != []
    ensures SQL_MODE != CLIENT_CHARSET
  {
    NoPrefix(SQL_MODE, "@", 0);
  }

  // --------------------------------------------------------- reading them

  const TEXT := RestoreDb.IMPORT_PREAMBLE

  const OPENING := [Word("SET"), Word("SESSION")]

  lemma TextParts()
    ensures |TEXT| == 65 && TEXT[..20] == "SET SESSION sql_mode" && TEXT[20] == '=' && TEXT[21] == '\'' && TEXT[22..43] == MODE && |MODE| == 21
    ensures TEXT[43] == '\'' && TEXT[44] == ';' && TEXT[45] == '\n' && TEXT[46..] == "SET NAMES utf8mb4;\n"
  {
    var head := "SET SESSION sql_mode='";
    assert head[..20] == "SET SESSION sql_mode";
    Slices(head, MODE, "';\n", "SET NAMES utf8mb4;\n");
  }

  lemma Slices(a: string, b: string, c: string, d: string)
    requires |a| == 22 && |b| == 21 && |c| == 3
    ensures var t := a + b + c + d;
            && t[..20] == a[..20] && t[20] == a[20] && t[21] == a[21] && t[22..43] == b && t[46..] == d
            && t[43] == c[0] && t[44] == c[1] && t[45] == c[2] && |t| == 46 + |d|
  {
  }

  /** The first statement after its opening words, and whole. */
  function Opened(d: string): S.Stmt {
    S.Fresh(d, S.Tracked(map[], {}), 0).(started := true, tokens := OPENING, size := 10)
  }

  function Whole(d: string): S.Stmt {
    S.Fresh(d, S.Tracked(map[], {}), 0).(started := true, tokens := FIRST, size := 40)
  }

  lemma WordsAreWritable()
    ensures T.Writable(OPENING[0]) && T.Writable(OPENING[1]) && T.Writable(Word("sql_mode"))
    ensures T.Sigils(OPENING[0]) == 0 && T.Sigils(OPENING[1]) == 0 && T.Sigils(Word("sql_mode")) == 0
    ensures |OPENING[0].text| == 3 && |OPENING[1].text| == 7 && OPENING[0].Is("SET") && T.PlainLineWord("SET")
  {
    hide T.Writable, T.Sigils, IsFileWord;
    T.ShortWord("SET");
    NoFileWords();
    T.PlainWord("SET");
    T.PlainWord("SESSION");
    T.PlainWord("sql_mode");
    Uppers();
  }

  lemma NoFileWords()
    ensures !IsFileWord("SESSION") && !IsFileWord("sql_mode") && !IsFileWord("utf8mb4")
  {
    assert Upper("SESSION")[0] == 'S' && Upper("sql_mode")[0] == 'S' && Upper("utf8mb4")[0] == 'U';
    hide Upper;
  }

  lemma OpensStatement(d: string)
    ensures T.PushAll(S.Fresh(d, S.Tracked(map[], {}), 0), OPENING) == Some(Opened(d)) && SR.InSet(Opened(d))
  {
    hide T.PushAll, T.Writable, T.Sigils, OPENING, Token.Is, T.Pushed;
    WordsAreWritable();
    OpeningIsTwo();
    var st := S.Fresh(d, S.Tracked(map[], {}), 0);
    var st1 := st.(started := true, tokens := [OPENING[0]], size := 3);
    assert [] + [OPENING[0]] == [OPENING[0]] && [OPENING[0]] + [OPENING[1]] == OPENING;
    SR.PushesOne(st, OPENING[0]);
    SR.PushesOne(st1, OPENING[1]);
    T.PushTwo(st, OPENING, st1, Opened(d));
  }

  lemma OpeningIsTwo()
    ensures |OPENING| == 2 && OPENING[0].kind == 'w' && OPENING[1].kind == 'w' && T.Written(OPENING) == "SET SESSION "
    ensures FIRST == OPENING + [Word("sql_mode")] + [Punct("=")] + [Token('\'', MODE)]
  {
    assert OPENING[1..] == [Word("SESSION")] && [Word("SESSION")][1..] == [];
    assert T.Written([]) == "";
    assert T.Written([Word("SESSION")]) == "SESSION" + " " + "";
    assert "SET" + " " + ("SESSION" + " ") == "SET SESSION ";
  }

  /** What the rest of the first statement pushes. */
  lemma PushesRest(d: string)
    ensures var st3 := Opened(d).(tokens := OPENING + [Word("sql_mode")], size := 18);
            var st4 := st3.(tokens := st3.tokens + [Punct("=")], size := 19);
            && T.Pushed(Opened(d), Word("sql_mode")) == Some(st3) && S.Push(st3, Token('p', "=")) == Some(st4) && T.Resting(st4)
            && S.Push(st4, Token('\'', MODE)) == Some(Whole(d)) && SR.InSet(Whole(d))
  {
    hide T.PushAll, T.Writable, T.Sigils, OPENING, FIRST, Token.Is, T.Pushed, MODE;
    WordsAreWritable();
    OpeningIsTwo();
    OpensStatement(d);
    TextParts();
    var st3 := Opened(d).(tokens := OPENING + [Word("sql_mode")], size := 18);
    var st4 := st3.(tokens := st3.tokens + [Punct("=")], size := 19);
    SR.PushesOne(Opened(d), Word("sql_mode"));
    SR.SetKeeps(st3, Punct("="));
    SR.SetKeeps(st4, Token('\'', MODE));
  }

  lemma ModeIsAccepted(st: S.Stmt)
    ensures S.CheckSet(st, SET_MODE) == Some(st.(setVars := {}))
  {
    ModeParts();
    ModeIsText();
    NotElsewhere();
    PreambleModeIsSafe();
    NothingUnsafeHere();
    hide SplitAssignments, Target, EqualsIndex, IsNames, S.NamesUnsafeCharset, SET_MODE, Upper, SafeModeList, SavedFrom, ClientCharsetOk, MODE, PlainText;
    var s := st.(setVars := {});
    ModeRest();
    assert S.CheckAssignment(s, SET_MODE) == Some(s);
    assert [SET_MODE][1..] == [];
    assert S.CheckAssignments(s, []) == Some(s);
  }

  lemma ModeRest()
    ensures |SET_MODE| == 4 && SET_MODE[3..] == [Token('\'', MODE)] && '\\' !in MODE && !SET_MODE[0].Is("STATEMENT")
  {
    assert |Upper("SESSION")| == 7;
  }

  lemma NothingUnsafeHere()
    ensures !S.NamesUnsafeCharset(SET_MODE) && !S.NamesUnsafeCharset(SET_NAMES)
  {
    hide V.UnsafeCharset;
    FM.SafeStarts("SESSION");
    FM.SafeStarts("sql_mode");
    FM.SafeStarts(MODE);
    FM.SafeStarts("NAMES");
    FM.SafeStarts("utf8mb4");
  }

  // The first line.

  lemma Then(order: S.Order, text: string, i: nat, s: Scan, n: nat, j: nat, t: Scan, m: nat, r: Option<(nat, Scan)>)
    requires i <= |text| && Valid(s) && R.After(order, text, i, s, n) == Some((j, t)) && j <= |text| && Valid(t)
    requires R.After(order, text, j, t, m) == r
    ensures R.After(order, text, i, s, n + m) == r
  {
    hide R.After;
    R.AfterAdds(order, text, i, s, n, m);
  }

  lemma QuietPrelude(u: Scan, c: char)
    requires u.word == "" && !u.wordLong && !u.inVar
    ensures Prelude(u, c) == Some(u)
  {
    T.NoFileWord();
    hide IsFileWord;
  }

  /** Up to the mark. */
  lemma NameIsRead(order: S.Order, d: string) returns (v: Scan)
    ensures R.After(order, TEXT, 0, Begin(d), 22) == Some((21, v))
    ensures T.Idle(v.(prev := ' ')) && Valid(v)
    ensures v.stmt == Opened(d).(tokens := OPENING + [Word("sql_mode")] + [Punct("=")], size := 19)
  {
    var s := Begin(d).(lex := T.CALM);
    T.StartsIdle(d);
    hide IsWordByte, Upper, Step, R.After, T.PushAll, T.Pushed, T.Writable, T.Read, TEXT, OPENING, T.Idle, T.Resting, S.Push, Begin, T.PlainLineWord, T.Written, Opened, MODE;
    TextParts();
    OpeningIsTwo();
    WordsAreWritable();
    OpensStatement(d);
    PushesRest(d);
    FirstOpens();
    T.LineOpens(order, TEXT, 0, Begin(d), "SET");
    T.IdleIsValid(s);
    FirstWords();
    var s2, u := T.ReadSentence(order, TEXT, 0, s, OPENING, Word("sql_mode"));
    MarkText();
    v := T.MarkBehindWord(order, TEXT, 20, s2, Word("sql_mode"), u, '=');
    IdleValid(v);
    R.AfterFirst(order, TEXT, 0, Begin(d), 21);
    R.AfterOne(order, TEXT, 20, u);
    Then(order, TEXT, 0, Begin(d), 21, 20, u, 1, Some((21, v)));
  }

  lemma MarkText()
    ensures ['='] == "=" && T.IsMark('=')
  {
  }

  lemma IdleValid(v: Scan)
    requires T.Idle(v.(prev := ' '))
    ensures Valid(v)
  {
  }

  lemma FirstOpens()
    ensures T.OpensLine(TEXT, 0, "SET")
  {
    TextParts();
    Uppers();
    hide TEXT, MODE;
    var head := "SET SESSION sql_mode";
    assert head[0..3] == "SET" && head[3] == ' ';
    assert TEXT[0..3] == TEXT[..20][0..3] && TEXT[3] == TEXT[..20][3];
  }

  lemma FirstWords()
    ensures T.Written(OPENING) + "sql_mode" == "SET SESSION sql_mode" && |T.Written(OPENING)| == 12
    ensures TEXT[0..20] == T.Written(OPENING) + "sql_mode"
  {
    TextParts();
    OpeningIsTwo();
    hide TEXT, MODE, T.Written;
    assert "SET SESSION " + "sql_mode" == "SET SESSION sql_mode";
    assert TEXT[0..20] == TEXT[..20];
  }

  lemma ModeIsPlain(k: nat)
    requires 22 <= k < 43
    ensures R.PlainInQuote(TEXT[k], '\'', false)
  {
    hide TEXT;
    TextParts();
    assert TEXT[k] == TEXT[22..43][k - 22];
    ModeByte(k - 22);
  }

  lemma ModeByte(k: nat)
    requires k < |MODE|
    ensures MODE[k] != '\'' && MODE[k] != '\\' && MODE[k] != '\n'
  {
  }

  /** The text inside the quotes. */
  lemma ModeIsRead(order: S.Order, s: Scan)
    requires R.Inv(s) && s.lex == T.CALM.(mode := Quote('\'')) && s.stmt.curKind == '\'' && s.stmt.cur == "" && !s.stmt.accepted && s.stmt.size == 19
    ensures R.After(order, TEXT, 22, s, 21) == Some((43, s.(stmt := s.stmt.(cur := MODE))))
  {
    hide TEXT, R.After, R.Inv, MODE, R.PlainInQuote;
    TextParts();
    forall k | 22 <= k < 43 ensures R.PlainInQuote(TEXT[k], '\'', false) {
      ModeIsPlain(k);
    }
    assert "" + MODE == MODE;
    assert S.QuoteText(s.stmt, MODE) == Some(s.stmt.(cur := MODE));
    R.QuotedSteps(order, TEXT, 22, s, 43);
  }

  lemma InvOfRun(order: S.Order, d: string, n: nat, i: nat, s: Scan)
    requires R.After(order, TEXT, 0, Begin(d), n) == Some((i, s))
    ensures R.Inv(s)
  {
    hide R.After, TEXT, Begin, R.Inv;
    R.StartsBounded(d);
    R.RunKeepsInv(order, TEXT, 0, Begin(d), n);
  }

  /** The whole first statement. */
  lemma FirstIsRead(order: S.Order, d: string) returns (u: Scan)
    ensures R.After(order, TEXT, 0, Begin(d), 45) == Some((44, u)) && Valid(u)
    ensures u.lex == T.CALM && T.Idle(u.(prev := ' ')) && u.stmt == Whole(d)
  {
    hide TEXT, R.After, Step, R.Inv, T.Idle, OPENING, FIRST, S.Push, Begin, MODE, T.Resting, T.Pushed;
    T.StartsIdle(d);
    var v := NameIsRead(order, d);
    TextParts();
    PushesRest(d);
    var a := v.(lex := T.CALM.(mode := Quote('\'')), prev := '\'', stmt := v.stmt.(started := true, curKind := '\'', cur := ""));
    T.QuoteOpens(order, TEXT, 21, v, '\'');
    R.AfterOne(order, TEXT, 21, v);
    Then(order, TEXT, 0, Begin(d), 22, 21, v, 1, Some((22, a)));
    InvOfRun(order, d, 23, 22, a);
    ModeIsRead(order, a);
    var b := a.(stmt := a.stmt.(cur := MODE));
    Then(order, TEXT, 0, Begin(d), 23, 22, a, 21, Some((43, b)));
    u := b.(lex := T.CALM, prev := '\'', stmt := Whole(d));
    BackToMode(v, d, b);
    T.QuoteCloses(order, TEXT, 43, b, '\'');
    R.AfterOne(order, TEXT, 43, b);
    Then(order, TEXT, 0, Begin(d), 44, 43, b, 1, Some((44, u)));
    WholeIsIdle(v, u, d);
  }

  lemma BackToMode(v: Scan, d: string, b: Scan)
    requires v.stmt == Opened(d).(tokens := OPENING + [Word("sql_mode")] + [Punct("=")], size := 19)
    requires b.stmt == v.stmt.(started := true, curKind := '\'', cur := MODE)
    ensures b.stmt.(curKind := S.NONE, cur := "") == v.stmt && !S.InBody(b.stmt)
  {
    hide OPENING, MODE;
  }

  lemma WholeIsIdle(v: Scan, u: Scan, d: string)
    requires T.Idle(v.(prev := ' ')) && u == v.(lex := T.CALM, prev := '\'', stmt := Whole(d))
    ensures T.Idle(u.(prev := ' ')) && Valid(u)
  {
    hide FIRST;
  }

  lemma WholeEnds(order: S.Order, d: string)
    requires S.IsOrder(order)
    ensures S.End(order, Whole(d)) == Some(S.Fresh(d, S.Tracked(map[], {}), 1)) && HeadTokens(Whole(d)) == FIRST
  {
    hide SET_MODE, S.CheckSet, S.IsOrder, S.Poison, Token.Is;
    FirstIsSet();
    ModeIsAccepted(Whole(d));
    F.FinalSet(Whole(d));
    FM.EndOfKept(order, Whole(d));
    NothingToPoison(order, 0);
  }

  lemma FirstIsSet()
    ensures FIRST != [] && FIRST[0].Is("SET") && FIRST[1..] == SET_MODE && SECOND != [] && SECOND[0].Is("SET") && SECOND[1..] == SET_NAMES
  {
    Uppers();
  }

  lemma NothingToPoison(order: S.Order, n: nat)
    requires S.IsOrder(order)
    ensures S.Poison(S.Tracked(map[], {}), order(n, {}), {}) == S.Tracked(map[], {})
  {
    hide S.Poison;
    assert S.Enumerates(order(n, {}), {});
    FM.PoisonsNothing(S.Tracked(map[], {}), order(n, {}), {});
  }

  /** The end of the first line. */
  lemma FirstEnds(order: S.Order, d: string) returns (u: Scan, v: Scan)
    requires S.IsOrder(order)
    ensures R.After(order, TEXT, 0, Begin(d), 45) == Some((44, u)) && Valid(u) && u.stmt == Whole(d)
    ensures Prelude(u, ';') == Some(u) && LexStep(TEXT, 44, u.lex) == Some(LexOut(45, T.CALM, EndStatement)) && |TEXT| == 65 && TEXT[44] == ';'
    ensures R.After(order, TEXT, 0, Begin(d), 47) == Some((46, v)) && T.AtLine(v) && v.stmt == S.Fresh(d, S.Tracked(map[], {}), 1)
  {
    hide TEXT, R.After, Step, T.Idle, Whole, S.End, Begin, S.IsOrder, Prelude, LexStep, T.AtLine, HeadTokens;
    T.StartsIdle(d);
    u := FirstIsRead(order, d);
    TextParts();
    WholeEnds(order, d);
    IsQuiet(u);
    QuietPrelude(u, ';');
    var st := S.Fresh(d, S.Tracked(map[], {}), 1);
    FreshIsIdle(u, d);
    T.SemicolonStep(order, TEXT, 44, u, u);
    T.StatementLineEnds(order, TEXT, 44, u, u, st);
    v := u.(lex := T.CALM.(bol := true), prev := ' ', stmt := st);
    Then(order, TEXT, 0, Begin(d), 45, 44, u, 2, Some((46, v)));
  }

  lemma IsQuiet(u: Scan)
    requires T.Idle(u.(prev := ' '))
    ensures u.word == "" && !u.wordLong && !u.inVar
  {
  }

  lemma FreshIsIdle(u: Scan, d: string)
    requires T.Idle(u.(prev := ' '))
    ensures T.Idle(u.(prev := ' ', stmt := S.Fresh(d, S.Tracked(map[], {}), 1)))
  {
  }

  // The second line.

  const OPENING2 := [Word("SET"), Word("NAMES")]

  lemma Opening2()
    ensures |OPENING2| == 2 && OPENING2[0].kind == 'w' && OPENING2[1].kind == 'w' && T.Written(OPENING2) + "utf8mb4" + ";\n" == "SET NAMES utf8mb4;\n"
    ensures |T.Written(OPENING2)| == 10 && SECOND == OPENING2 + [UTF8] && OPENING2[0].Is("SET")
    ensures |OPENING2[0].text| == 3 && |OPENING2[1].text| == 5
  {
    assert OPENING2[1..] == [Word("NAMES")] && [Word("NAMES")][1..] == [];
    assert T.Written([]) == "";
    assert T.Written([Word("NAMES")]) == "NAMES" + " " + "";
    assert T.Written(OPENING2) == "SET" + " " + T.Written([Word("NAMES")]);
    Uppers();
  }

  lemma Words2()
    ensures T.Writable(OPENING2[0]) && T.Writable(OPENING2[1]) && T.Writable(UTF8)
    ensures T.Sigils(OPENING2[0]) == 0 && T.Sigils(OPENING2[1]) == 0 && T.Sigils(UTF8) == 0
  {
    hide T.Writable, T.Sigils, IsFileWord;
    T.ShortWord("SET");
    T.ShortWord("NAMES");
    NoFileWords();
    T.PlainWord("SET");
    T.PlainWord("NAMES");
    T.PlainWord("utf8mb4");
  }

  function Named(d: string): S.Stmt {
    S.Fresh(d, S.Tracked(map[], {}), 1).(started := true, tokens := SECOND, size := 15)
  }

  lemma NamesIsPushed(d: string)
    ensures T.PushAll(S.Fresh(d, S.Tracked(map[], {}), 1), OPENING2).Some?
    ensures T.Pushed(T.PushAll(S.Fresh(d, S.Tracked(map[], {}), 1), OPENING2).value, UTF8) == Some(Named(d))
    ensures SR.InSet(Named(d))
  {
    hide T.PushAll, T.Writable, T.Sigils, OPENING2, Token.Is, T.Pushed, SECOND;
    Opening2();
    Words2();
    var st := S.Fresh(d, S.Tracked(map[], {}), 1);
    var st1 := st.(started := true, tokens := [OPENING2[0]], size := 3);
    var st2 := st.(started := true, tokens := OPENING2, size := 8);
    assert [] + [OPENING2[0]] == [OPENING2[0]] && [OPENING2[0]] + [OPENING2[1]] == OPENING2;
    SR.PushesOne(st, OPENING2[0]);
    SR.PushesOne(st1, OPENING2[1]);
    SR.PushesOne(st2, UTF8);
    T.PushTwo(st, OPENING2, st1, st2);
  }

  lemma NamesIsAccepted(st: S.Stmt)
    ensures S.CheckSet(st, SET_NAMES) == Some(st.(setVars := {}))
  {
    NamesParts();
    NamesTokens();
    NothingUnsafeHere();
    NamesCharset();
    hide UTF8, SplitAssignments, IsNames, S.NamesUnsafeCharset, SET_NAMES, Upper, ClientCharsetOk, PlainName;
    var s := st.(setVars := {});
    assert S.CheckAssignment(s, SET_NAMES) == Some(s);
    assert [SET_NAMES][1..] == [];
    assert S.CheckAssignments(s, []) == Some(s);
  }

  lemma NamesCharset()
    ensures ClientCharsetOk(UTF8)
  {
    PreambleCharsetIsSafe();
    assert |Upper("utf8mb4")| == 7 && Upper("utf8mb4")[0] == 'U';
    hide V.UnsafeCharset, Upper;
  }

  lemma NamedEnds(order: S.Order, d: string)
    requires S.IsOrder(order)
    ensures S.Closing(Named(d)) == Some(Named(d)) && S.Next(order, Named(d)) == S.Fresh(d, S.Tracked(map[], {}), 2)
  {
    hide SET_NAMES, S.CheckSet, S.IsOrder, S.Poison, Token.Is;
    FirstIsSet();
    NamesIsAccepted(Named(d));
    F.FinalSet(Named(d));
    NothingToPoison(order, 1);
  }

  /** The second line, up to its delimiter and behind it. */
  lemma SecondIsRead(order: S.Order, d: string, v: Scan) returns (u: Scan, z: Scan)
    requires S.IsOrder(order) && T.AtLine(v) && v.stmt == S.Fresh(d, S.Tracked(map[], {}), 1)
    ensures Valid(v) && Valid(u) && |TEXT| == 65 && TEXT[63] == ';'
    ensures R.After(order, TEXT, 46, v, 18) == Some((63, u)) && u.stmt.count == 1
    ensures LexStep(TEXT, 63, u.lex) == Some(LexOut(64, T.CALM, EndStatement))
    ensures Prelude(u, ';').Some? && var e := Prelude(u, ';').value.stmt; HeadTokens(e) == SECOND && e.varRefs == {} && e.vars == S.Tracked(map[], {})
    ensures R.After(order, TEXT, 46, v, 20) == Some((65, z)) && T.AtLine(z) && z.stmt == S.Fresh(d, S.Tracked(map[], {}), 2)
  {
    AtLineIsIdle(v);
    hide TEXT, R.After, Step, LexStep, Prelude, SECOND, T.Idle, T.AtLine, S.IsOrder, HeadTokens, T.Settled, S.Space, Named;
    TextParts();
    SecondOpens();
    T.LineOpens(order, TEXT, 46, v, "SET");
    u, z := NamesIsRead(order, d, v.(lex := T.CALM));
    R.AfterFirst(order, TEXT, 46, v, 18);
    R.AfterFirst(order, TEXT, 46, v, 20);
    NamedSpace(T.Settled(u).stmt, d);
    SettlesCount(u);
  }

  lemma NamesReady(order: S.Order, d: string, st: S.Stmt)
    requires S.IsOrder(order) && st == S.Fresh(d, S.Tracked(map[], {}), 1)
    ensures T.PushAll(st, OPENING2).Some? && T.Pushed(T.PushAll(st, OPENING2).value, UTF8) == Some(Named(d))
    ensures S.Closing(Named(d)).Some? && S.Next(order, S.Closing(Named(d)).value) == S.Fresh(d, S.Tracked(map[], {}), 2)
  {
    hide T.PushAll, T.Pushed, OPENING2, S.Closing, S.Next, S.IsOrder, Named, UTF8;
    NamesIsPushed(d);
    NamedEnds(order, d);
  }

  lemma NamesIsRead(order: S.Order, d: string, s: Scan) returns (u: Scan, z: Scan)
    requires S.IsOrder(order) && T.Idle(s) && s.stmt == S.Fresh(d, S.Tracked(map[], {}), 1)
    ensures Valid(s) && Valid(u) && |TEXT| == 65 && TEXT[63] == ';'
    ensures R.After(order, TEXT, 46, s, 17) == Some((63, u)) && LexStep(TEXT, 63, u.lex) == Some(LexOut(64, T.CALM, EndStatement))
    ensures Prelude(u, ';') == Some(T.Settled(u)) && S.Space(T.Settled(u).stmt) == Some(Named(d))
    ensures R.After(order, TEXT, 46, s, 19) == Some((65, z)) && T.AtLine(z) && z.stmt == S.Fresh(d, S.Tracked(map[], {}), 2)
  {
    T.IdleIsValid(s);
    hide UTF8, TEXT, R.After, LexStep, Prelude, T.PushAll, T.Pushed, T.Writable, OPENING2, T.Written, S.Closing, S.Next, T.Idle, T.AtLine, S.IsOrder,
         T.Settled, S.Space, Named, Valid;
    SecondText();
    Words2();
    NamesReady(order, d, s.stmt);
    assert forall k :: 0 <= k < |OPENING2| ==> T.Writable(OPENING2[k]);
    u, z := T.SentenceLine(order, TEXT, 46, s, OPENING2, UTF8);
    assert |T.Written(OPENING2)| + |UTF8.text| == 17;
  }

  lemma SecondText()
    ensures |TEXT| == 65 && TEXT[63] == ';' && |T.Written(OPENING2)| == 10 && |UTF8.text| == 7 && |OPENING2| == 2 && UTF8.kind == 'w'
    ensures TEXT[46..46 + |T.Written(OPENING2)| + |UTF8.text| + 2] == T.Written(OPENING2) + UTF8.text + ";\n"
  {
    hide TEXT, T.Written, OPENING2;
    TextParts();
    Opening2();
    var line := "SET NAMES utf8mb4;\n";
    assert line[17] == ';';
    assert TEXT[46..65] == TEXT[46..] && TEXT[63] == TEXT[46..][17];
  }

  lemma AtLineIsIdle(v: Scan)
    requires T.AtLine(v)
    ensures Valid(v) && T.Idle(v.(lex := T.CALM)) && v.lex == T.CALM.(bol := true)
  {
  }

  lemma SecondOpens()
    ensures T.OpensLine(TEXT, 46, "SET")
  {
    TextParts();
    Uppers();
    hide TEXT, MODE;
    var line := "SET NAMES utf8mb4;\n";
    assert line[0..3] == "SET" && line[3] == ' ';
    assert TEXT[46..49] == TEXT[46..][0..3] && TEXT[49] == TEXT[46..][3];
  }

  lemma NamedSpace(e: S.Stmt, d: string)
    requires S.Space(e) == Some(Named(d))
    ensures HeadTokens(e) == SECOND && e.varRefs == {} && e.vars == S.Tracked(map[], {}) && e.count == 1
  {
    hide S.Space, SECOND;
    F.SpaceKeepsSession(e);
  }

  lemma SettlesCount(u: Scan)
    ensures T.Settled(u).stmt.count == u.stmt.count
  {
    hide VarKey;
  }

  /** Main result: the scan of the preamble reads exactly the two statements, and an empty one behind. */
  lemma PreambleIsRead(order: S.Order, d: string)
    requires S.IsOrder(order)
    ensures Log(order, RestoreDb.IMPORT_PREAMBLE, 0, Begin(d), {}) == STATEMENTS + [Ended([], {})]
    ensures Accepts(order, RestoreDb.IMPORT_PREAMBLE, d)
  {
    hide TEXT, R.After, Step, LexStep, Prelude, T.AtLine, S.IsOrder, FIRST, SECOND, Whole, NameInv, Reported, Pending, Begin, HeadTokens, Logged, Log, S.End, Finish;
    SameText();
    T.StartsIdle(d);
    BeginCounts(d);
    WholeCounts(d);
    var u, v := FirstEnds(order, d);
    var u2, z := SecondIsRead(order, d, v);
    WholeEnds(order, d);
    FM.StartsKnown(TEXT, d);
    LineIsLogged(order, TEXT, 0, Begin(d), {}, 0, 45);
    var left := Logged(order, TEXT, 0, Begin(d), {}, 47).1;
    var q := LoggedReports(order, TEXT, 0, Begin(d), {}, 0, 47);
    LogSplits(order, TEXT, 0, Begin(d), {}, 47);
    LineIsLogged(order, TEXT, 46, v, left, q, 18);
    var last := Logged(order, TEXT, 46, v, left, 20).1;
    var p := LoggedReports(order, TEXT, 46, v, left, q, 20);
    LogSplits(order, TEXT, 46, v, left, 20);
    NothingAfter(order, TEXT, z, d, last, p);
    R.AfterKeepsVerdict(order, TEXT, 0, Begin(d), 47);
    R.AfterKeepsVerdict(order, TEXT, 46, v, 20);
    T.RunsOut(order, TEXT, z);
    assert [Ended(FIRST, {})] + ([Ended(SECOND, {})] + [Ended([], {})]) == STATEMENTS + [Ended([], {})];
  }

  lemma BeginCounts(d: string)
    ensures Begin(d).stmt.count == 0
  {
  }

  lemma WholeCounts(d: string)
    ensures Whole(d).count == 0 && Whole(d).varRefs == {} && Whole(d).vars == S.Tracked(map[], {})
  {
  }

  lemma NothingAfter(order: S.Order, text: string, z: Scan, d: string, last: set<string>, p: nat)
    requires T.AtLine(z) && z.stmt == S.Fresh(d, S.Tracked(map[], {}), 2) && Reported(z.stmt, last, Pending(text, z, p))
    ensures Valid(z) && Finish(order, z) && Log(order, text, |text|, z, last) == [Ended([], {})]
  {
    T.BetweenStatements(order, z);
    hide Finish;
    assert S.Space(z.stmt) == Some(z.stmt) by {
      hide S.Push;
    }
    hide S.Space;
    AllReported(z.stmt, last);
  }

  lemma SameText()
    ensures TEXT == RestoreDb.IMPORT_PREAMBLE
  {
  }

  /** Main result for an import: whatever the session was, the preamble and then every statement of the
      dump that ends before anything is refused leave it safe. */
  lemma ImportStaysSafe(order: S.Order, text: string, database: string, w: World, before: seq<seq<World>>, tr: seq<seq<World>>)
    requires S.IsOrder(order) && Traces(ByStatement, STATEMENTS, {}, w, before)
    requires Traces(ByStatement, Log(order, text, 0, Begin(database), {}), {}, LastWorld(before, w), tr)
    ensures AllSafe(tr)
  {
    hide Traces, Log, AllSafe;
    PreambleSetsSession(ByStatement, w, before);
    SessionStaysSafe(order, text, database, LastWorld(before, w), tr);
  }
}
