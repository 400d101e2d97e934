/** What accounting for user variables by statement misses.

    By mention, a variable that a SET statement saves or restores and also mentions elsewhere stays
    open to later writes; the checker goes on trusting it. Dumps without such a mention keep the
    session safe by mention too. After one, the variable can be put back into sql_mode or the client
    character set by a statement the checker accepts, with whatever it holds by then. */
module ForgivenMentions {
  import opened Text
  import V = ValuesAutomaton
  import opened SqlChecks
  import S = Statements
  import T = TokenRuns
  import opened DumpLexer
  import R = ScanRuns
  import opened Mentions
  import opened SessionModel
  import opened SessionSafety
  import opened OpenSessions
  import opened SessionReading
  import opened LogRuns
  import opened SpokenNames
  import SR = SetRuns
  import F = StatementFrames

  // ------------------------------------------- dumps that forgive nothing

  predicate NothingForgiven(log: seq<Ended>) {
    forall k :: 0 <= k < |log| ==> log[k].Forgiven() == {}
  }

  lemma {:induction false} SameExposed(log: seq<Ended>, dirty: set<string>)
    requires NothingForgiven(log)
    ensures Exposed(ByMention, log, dirty) == Exposed(ByStatement, log, dirty)
    decreases |log|
  {
    hide AnyPutsOpen, Ended.Forgiven, Ended.Parts;
    if log != [] {
      assert log[0].Forgiven() == {};
      var left := log[0].mentioned - TrackedNames(log[0].Parts());
      assert left + {} == left;
      assert NothingForgiven(log[1..]);
      SameExposed(log[1..], dirty + log[0].Dirtied(ByStatement));
    }
  }

  /** By mention too every session is safe when no SET statement of the dump mentions a variable it
      saves or restores anywhere else. */
  lemma SessionStaysSafeByMention(order: S.Order, text: string, database: string, w: World, tr: seq<seq<World>>)
    requires S.IsOrder(order) && AfterPreamble(w)
    requires NothingForgiven(Log(order, text, 0, Begin(database), {}))
    requires Traces(ByMention, Log(order, text, 0, Begin(database), {}), {}, w, tr)
    ensures AllSafe(tr)
  {
    hide Traces, Log, AllSafe, NothingForgiven, Exposed;
    SameExposed(Log(order, text, 0, Begin(database), {}), {});
    NothingIsExposed(order, text, database);
    SessionIsSafeExactly(order, text, database, ByMention, w);
  }

  /** All that a list of statements leaves open. */
  function AllDirtied(how: Accounting, log: seq<Ended>): set<string> {
    if log == [] then {} else log[0].Dirtied(how) + AllDirtied(how, log[1..])
  }

  // ------------------------------------ putting a variable back

  /** The assignment `name = v`. */
  function Restoring(name: string, v: string): seq<Token> {
    [Word(name), Punct("="), Word(v)]
  }

  function RestoreTokens(name: string, v: string): seq<Token> {
    [Word("SET")] + Restoring(name, v)
  }

  lemma LexicalUpper(name: string)
    requires IsLexical(name)
    ensures Upper(name) == name && (|name| == 8 || |name| == 20)
    ensures (name[0] == 'S' && name[1] == 'Q') || (name[0] == 'C' && name[1] == 'H')
  {
    assert Upper(SQL_MODE) == SQL_MODE && Upper(CLIENT_CHARSET) == CLIENT_CHARSET;
  }

  lemma LexicalName(name: string)
    requires IsLexical(name)
    ensures Upper(name) == name && !IsNames(Word(name)) && !IsUserVar(name) && TrimScope(name) == name && !IsScopeWord(Word(name))
    ensures !V.UnsafeCharset(name)
  {
    hide V.UnsafeCharset, IsLexical, Upper;
    LexicalUpper(name);
    NoPrefix(name, "@@SESSION.", 0);
    NoPrefix(name, "@@LOCAL.", 0);
    NoPrefix(name, "@@", 0);
    NoPrefix(name, "@", 0);
    assert Upper(name)[0] == name[0] && Upper(name)[1] == name[1];
    SafeStarts(name);
  }

  predicate UnsafeStart(a: char, b: char) {
    (a == 'B' && b == 'I') || (a == 'C' && b == 'P') || (a == 'G' && b == 'B') || (a == 'S' && b == 'J')
  }

  /** Every unsafe character set starts with one of four pairs of letters. */
  lemma SafeStarts(name: string)
    requires |name| > 1 && !UnsafeStart(UpperChar(name[0]), UpperChar(name[1]))
    ensures !V.UnsafeCharset(name)
  {
    var n := Upper(name);
    forall k | 0 <= k < |V.UNSAFE_CHARSETS| ensures n != V.UNSAFE_CHARSETS[k] && !HasPrefix(n, V.UNSAFE_CHARSETS[k] + "_") {
      var u := V.UNSAFE_CHARSETS[k];
      assert |u| > 1 && UnsafeStart(u[0], u[1]);
      assert (u + "_")[0] == u[0] && (u + "_")[1] == u[1];
    }
  }

  lemma RestoreParts(name: string, v: string)
    requires IsLexical(name)
    ensures SplitAssignments(Restoring(name, v), 0, []) == [Restoring(name, v)]
    ensures EqualsIndex(Restoring(name, v)) == 1 && Target(Restoring(name, v)) == name && Restoring(name, v)[2..] == [Word(v)]
    ensures RestoreTokens(name, v)[1..] == Restoring(name, v)
  {
    LexicalName(name);
    var a := Restoring(name, v);
    assert a[1..][0] == Punct("=");
    assert EqualsIndex(a[1..]) == 0;
    assert a[..1] == [Word(name)];
    JoinsOne(Word(name));
    SplitSkips(a, [], []);
    assert a + [] == a && [] + a == a;
    assert SplitAssignments([], 0, a) == [a];
  }

  lemma SpeakableIsUserVar(v: string)
    requires Speakable(v)
    ensures IsUserVar(v) && Upper(v) == v && !V.UnsafeCharset(v) && T.Sigils(Word(v)) == 1 && T.Writable(Word(v))
    ensures T.Name(Word(v)) == v[1..] && VarKey(v[1..], false) == v
  {
    hide T.Sayable, V.UnsafeCharset;
    assert T.Sayable(v[1..]) && v[1..][0] == v[1];
    assert v[1] != '@' by {
      FirstIsWordByte(v[1..]);
    }
    if V.UnsafeCharset(v) {
      UnsafeIsWord(v);
      assert false;
    }
    assert Upper(v)[1..] == Upper(v[1..]);
    assert "@" + v[1..] == v;
  }

  lemma FirstIsWordByte(w: string)
    requires T.Sayable(w)
    ensures IsWordByte(w[0])
  {
  }

  /** The checker accepts it while it trusts the variable. */
  lemma RestoreIsAccepted(st: S.Stmt, name: string, v: string)
    requires IsLexical(name) && Speakable(v) && st.vars.Trusted(v, name)
    ensures S.CheckSet(st, Restoring(name, v)).Some?
  {
    LexicalName(name);
    RestoreParts(name, v);
    SpeakableIsUserVar(v);
    hide SplitAssignments, Target, EqualsIndex, IsNames, Upper, IsUserVar, V.UnsafeCharset, Speakable, SQLModeOk, ClientCharsetOk, SavedFrom;
    var a := Restoring(name, v);
    var s := st.(setVars := {});
    assert S.CheckAssignment(s, a).Some?;
    assert [a][1..] == [];
    assert S.CheckAssignments(S.CheckAssignment(s, a).value, []).Some?;
  }

  lemma SetToken()
    ensures Word("SET").Is("SET")
  {
    Uppers();
  }

  // ------------------------------------------------- the dump that does it

  /** Between statements, at the start of a line, outside comments. */
  predicate Paused(s: Scan) {
    && s.lex == T.CALM.(bol := true, delim := s.lex.delim) && ValidLex(s.lex) && T.Idle(s.(lex := T.CALM))
    && s.stmt == S.Fresh(s.stmt.database, s.stmt.vars, s.stmt.count)
  }

  const RESET := "delimiter ;\n"

  /** The lines that put `v` back into `name`. */
  function Putting(name: string, v: string): string {
    RESET + T.Written(RestoreTokens(name, v))
  }

  lemma ResetLine(text: string, i: nat, x: Lex)
    requires i + 12 <= |text| && text[i..i + 12] == RESET && x.mode.Code? && x.bol && !x.cond
    ensures LineStart(text, i, x) == Some(LexOut(i + 12, x.(delim := ";"), DelimiterCommand(" ;")))
  {
    hide Upper, IsClientCommand, LineWord, LineEnd, BlanksEnd, TrimSpace, CommentLine, IsWordByte, RESET, DelimiterOk, LineCommand;
    ResetBytes(text, i);
    T.LineWordIs(text, i, "delimiter");
    ResetCommand(text, i, x);
  }

  lemma ResetCommand(text: string, i: nat, x: Lex)
    requires i + 12 <= |text| && text[i + 9..i + 11] == " ;" && text[i + 9] == ' ' && text[i + 10] == ';' && text[i + 11] == '\n'
    requires LineWord(text, i) == Upper("delimiter") && x.mode.Code? && x.bol && !x.cond
    ensures LineCommand(text, i, x) == Some(LexOut(i + 12, x.(delim := ";"), DelimiterCommand(" ;")))
  {
    hide Upper, IsClientCommand, LineWord, LineEnd, TrimSpace, DelimiterOk;
    ResetUpper();
    LineEndIs(text, i + 9, i + 11);
    ResetArgument();
  }

  lemma ResetBytes(text: string, i: nat)
    requires i + 12 <= |text| && text[i..i + 12] == RESET
    ensures text[i..i + 9] == "delimiter" && text[i + 9..i + 11] == " ;" && text[i + 9] == ' ' && text[i + 10] == ';' && text[i + 11] == '\n'
    ensures !IsWordByte(text[i + 9]) && forall k :: 0 <= k < 9 ==> IsWordByte("delimiter"[k])
  {
    var all := text[i..i + 12];
    assert all[..9] == "delimiter" && all[9..11] == " ;" && all[9] == ' ' && all[10] == ';' && all[11] == '\n';
  }

  lemma ResetUpper()
    ensures Upper("delimiter") == "DELIMITER" && !IsClientCommand("DELIMITER")
  {
  }

  lemma ResetArgument()
    ensures TrimSpace(" ;") == ";" && DelimiterOk(" ;")
  {
    TrimsBlank();
    hide TrimSpace;
  }

  lemma TrimsBlank()
    ensures TrimSpace(" ;") == ";"
  {
    hide TrimLeft, TrimRight;
    SkipsBlank(" ;");
    assert " ;"[1..] == ";";
    StopsAtOnce(";");
  }

  lemma SkipsBlank(s: string)
    requires s != "" && IsSpace(s[0])
    ensures TrimLeft(s) == TrimLeft(s[1..])
  {
  }

  lemma ResetStep(order: S.Order, text: string, i: nat, s: Scan)
    requires Paused(s) && i + 12 <= |text| && text[i..i + 12] == RESET
    ensures Step(order, text, i, s) == Some((i + 12, s.(lex := T.CALM.(bol := true))))
    ensures LexStep(text, i, s.lex).Some? && !LexStep(text, i, s.lex).value.event.EndStatement?
  {
    hide RESET, LineStart, T.Idle;
    ResetLine(text, i, s.lex);
    R.StepAtLineStart(order, text, i, s);
  }

  /** The statement that puts the variable back, as it is kept. */
  lemma RestoreIsKept(st: S.Stmt, name: string, v: string)
    requires st == S.Fresh(st.database, st.vars, st.count) && IsLexical(name) && Speakable(v) && st.vars.Trusted(v, name)
    ensures T.PushAll(st, RestoreTokens(name, v)).Some?
    ensures var u := T.PushAll(st, RestoreTokens(name, v)).value;
            && SR.InSet(u) && u.tokens == RestoreTokens(name, v) && u.count == st.count && u.values.None?
            && u.vars == st.vars && S.Closing(u).Some?
  {
    hide T.PushAll, T.Written, Speakable, S.CheckSet, VarKey, IsLexical;
    var ts := RestoreTokens(name, v);
    SetToken();
    WrittenLength(name, v);
    assert st.tokens + ts == ts;
    SR.PushesSet(st, ts);
    RefersRestore(st, name, v);
    var u := T.PushAll(st, ts).value;
    RestoreParts(name, v);
    RestoreIsAccepted(u, name, v);
    SetCloses(u);
  }

  lemma SetCloses(u: S.Stmt)
    requires !u.accepted && u.tokens != [] && u.tokens[0].Is("SET") && u.values.None? && S.CheckSet(u, u.tokens[1..]).Some?
    ensures S.Closing(u).Some?
  {
    hide S.CheckSet;
    F.FinalSet(u);
    hide S.FinalHead;
  }

  lemma WrittenLength(name: string, v: string)
    requires IsLexical(name) && Speakable(v)
    ensures T.Written(RestoreTokens(name, v)) == "SET " + (name + " = " + v + " ")
    ensures |T.Written(RestoreTokens(name, v))| <= 100
  {
    hide T.Sayable;
    var ts := RestoreTokens(name, v);
    assert ts[1..] == Restoring(name, v) && ts[1..][1..] == [Punct("="), Word(v)];
    assert [Punct("="), Word(v)][1..] == [Word(v)] && [Word(v)][1..] == [];
    assert T.Written([]) == "";
    assert T.Written([Word(v)]) == v + " " + "";
    assert T.Written([Punct("="), Word(v)]) == "=" + " " + T.Written([Word(v)]);
    assert T.Written(Restoring(name, v)) == name + " " + T.Written([Punct("="), Word(v)]);
    assert T.Written(ts) == "SET" + " " + T.Written(Restoring(name, v));
  }

  lemma RefersRestore(st: S.Stmt, name: string, v: string)
    requires IsLexical(name) && Speakable(v) && st.varRefs == {}
    ensures SR.RefersAll(st, RestoreTokens(name, v)) == st.(varRefs := {v})
  {
    hide Speakable, VarKey;
    SpeakableIsUserVar(v);
    NoSigils(name);
    var ts := RestoreTokens(name, v);
    assert ts[1..] == Restoring(name, v) && ts[1..][1..] == [Punct("="), Word(v)];
    assert [Punct("="), Word(v)][1..] == [Word(v)] && [Word(v)][1..] == [];
    assert {} + {v} == {v};
    var t := st.(varRefs := {v});
    assert T.Refers(st, Word(v)) == t;
    assert SR.RefersAll(t, []) == t;
    assert SR.RefersAll(st, [Word(v)]) == t;
    assert SR.RefersAll(st, [Punct("="), Word(v)]) == t;
  }

  lemma NoSigils(name: string)
    requires IsLexical(name)
    ensures T.Sigils(Word(name)) == 0 && T.Sigils(Word("SET")) == 0
    ensures T.Writable(Word(name)) && T.Writable(Word("SET")) && T.Writable(Punct("="))
  {
    hide T.Writable, T.Sigils, IsLexical;
    SetIsWritable();
    MarkIsWritable();
    LexicalIsWritable(name);
  }

  lemma SetIsWritable()
    ensures T.Writable(Word("SET")) && T.Sigils(Word("SET")) == 0
  {
    T.PlainWord("SET");
    hide T.Writable;
  }

  lemma MarkIsWritable()
    ensures T.Writable(Punct("="))
  {
    hide T.Sayable;
  }

  lemma LexicalIsWritable(name: string)
    requires IsLexical(name)
    ensures T.Writable(Word(name)) && T.Sigils(Word(name)) == 0
  {
    hide IsLexical, Upper, T.Sayable;
    LexicalUpper(name);
    NoPrefix(name, "@@", 0);
    NoPrefix(name, "@", 0);
    hide HasPrefix;
    LexicalIsSayable(name);
    assert name[0..] == name;
  }

  lemma LexicalIsSayable(name: string)
    requires IsLexical(name)
    ensures T.Sayable(name)
  {
    LexicalUpper(name);
    LexicalBytes(name);
    hide IsFileWord, IsLexical, Upper, T.Spoken, IsWordByte;
    if |name| == 8 {
      T.PlainSpoken("", name);
      assert "" + name == name;
      NoFileStart(name);
    } else {
      T.LongWord("", name);
    }
  }

  lemma LexicalBytes(name: string)
    requires IsLexical(name)
    ensures forall k :: 0 <= k < |name| ==> IsWordByte(name[k])
  {
  }

  lemma NoFileStart(name: string)
    requires Upper(name) == name && |name| > 0 && name[0] != 'O' && name[0] != 'D'
    ensures !IsFileWord(name)
  {
  }

  lemma PuttingParts(text: string, i: nat, name: string, v: string)
    requires i <= |text| && text[i..] == Putting(name, v) && IsLexical(name) && Speakable(v)
    ensures var w := T.Written(RestoreTokens(name, v));
            && i + 12 < i + 12 + |w| == |text| && text[i..i + 12] == RESET && text[i + 12..] == w
            && T.OpensLine(text, i + 12, "SET")
  {
    hide T.Written, IsLexical, Speakable, T.PlainLineWord;
    WrittenLength(name, v);
    var w := T.Written(RestoreTokens(name, v));
    var all := text[i..];
    assert |RESET| == 12;
    assert all[..12] == RESET && all[12..] == w;
    SetOpens(w, name + " = " + v + " ");
    assert text[i + 12..i + 15] == all[12..15] && all[15] == w[3];
    assert all[12..15] == w[..3];
  }

  lemma SetOpens(w: string, rest: string)
    requires w == "SET " + rest
    ensures |w| >= 4 && w[..3] == "SET" && w[3] == ' ' && T.PlainLineWord("SET")
  {
    Uppers();
  }

  /** Reading the first line, up to the first word of the second. */
  lemma PuttingOpens(order: S.Order, text: string, i: nat, s: Scan, n: nat)
    requires i + 12 < |text| && Valid(s) && Paused(s) && text[i..i + 12] == RESET && T.OpensLine(text, i + 12, "SET")
    ensures Valid(s.(lex := T.CALM)) && T.Idle(s.(lex := T.CALM))
    ensures R.After(order, text, i, s, 2 + n) == R.After(order, text, i + 12, s.(lex := T.CALM), n)
  {
    hide Valid, Step, R.After, Paused, T.Idle, RESET, T.OpensLine, LexStep;
    PausedIsIdle(s);
    var s1, s2 := s.(lex := T.CALM.(bol := true)), s.(lex := T.CALM);
    T.IdleIsValid(s2);
    ResetStep(order, text, i, s);
    PutOpens(order, text, i + 12, s1);
    TwoSteps(order, text, i, s, i + 12, s1, s2, n);
  }

  /** Reading the two lines. */
  lemma PuttingIsRead(order: S.Order, text: string, i: nat, s: Scan, name: string, v: string) returns (u: Scan)
    requires i <= |text| && Valid(s) && Paused(s) && IsLexical(name) && Speakable(v) && s.stmt.vars.Trusted(v, name)
    requires text[i..] == Putting(name, v)
    ensures R.After(order, text, i, s, 2 + |T.Written(RestoreTokens(name, v))|) == Some((|text|, u))
    ensures T.Idle(u) && T.PushAll(s.stmt, RestoreTokens(name, v)) == Some(u.stmt)
  {
    hide Valid, R.After, T.PushAll, T.Written, Speakable, Paused, IsLexical, T.Writable, T.Idle, RESET, T.OpensLine, S.Closing, SR.InSet,
         Putting;
    var ts := RestoreTokens(name, v);
    PausedIsIdle(s);
    PuttingParts(text, i, name, v);
    PuttingOpens(order, text, i, s, |T.Written(ts)|);
    RestoreIsKept(s.stmt, name, v);
    AllWritable(name, v);
    u := T.ReadToEnd(order, text, i + 12, s.(lex := T.CALM), ts);
  }

  lemma TwoSteps(order: S.Order, text: string, i: nat, s: Scan, j: nat, s1: Scan, s2: Scan, n: nat)
    requires i < |text| && j < |text| && Valid(s) && Valid(s1) && Valid(s2)
    requires Step(order, text, i, s) == Some((j, s1)) && Step(order, text, j, s1) == Some((j, s2))
    ensures R.After(order, text, i, s, 2 + n) == R.After(order, text, j, s2, n)
  {
    hide Step, R.After;
    R.AfterFirst(order, text, i, s, 2 + n);
    R.AfterFirst(order, text, j, s1, 1 + n);
  }

  lemma PausedIsIdle(s: Scan)
    requires Paused(s)
    ensures Valid(s) && Valid(s.(lex := T.CALM.(bol := true))) && T.Idle(s.(lex := T.CALM))
    ensures s.stmt == S.Fresh(s.stmt.database, s.stmt.vars, s.stmt.count)
  {
  }

  lemma PutOpens(order: S.Order, text: string, i: nat, s: Scan)
    requires s.lex == T.CALM.(bol := true) && T.OpensLine(text, i, "SET")
    ensures i < |text| && Step(order, text, i, s) == Some((i, s.(lex := T.CALM)))
  {
    T.LineOpens(order, text, i, s, "SET");
    hide Step;
  }

  lemma AllWritable(name: string, v: string)
    requires IsLexical(name) && Speakable(v)
    ensures forall k :: 0 <= k < |RestoreTokens(name, v)| ==> T.Writable(RestoreTokens(name, v)[k])
  {
    hide T.Writable, IsLexical, Speakable, T.Sigils;
    NoSigils(name);
    SpeakableIsUserVar(v);
  }

  lemma IdleEnds(order: S.Order, st: S.Stmt)
    requires SR.InSet(st) && S.Closing(st).Some?
    ensures S.End(order, st).Some? && HeadTokens(st) == st.tokens
  {
    hide S.Closing, S.Poison;
  }

  /** At the end of the two lines the statement ends, and is all there is to log. */
  lemma PutEnds(order: S.Order, text: string, u: Scan, tokens: seq<Token>, mentioned: set<string>)
    requires T.Idle(u) && Valid(u) && SR.InSet(u.stmt) && u.stmt.tokens == tokens && S.Closing(u.stmt).Some?
    ensures Run(order, text, |text|, u)
    ensures Log(order, text, |text|, u, mentioned) == [Ended(tokens, mentioned)]
  {
    hide T.Idle, Run, S.Closing, SR.InSet, S.End, HeadTokens, Finish;
    IdleEnds(order, u.stmt);
    T.IdleFinishes(order, u);
    T.RunsOut(order, text, u);
    NoVarAtEnd(u);
  }

  /** The two lines are accepted, and end one statement. */
  lemma PuttingIsAccepted(order: S.Order, text: string, i: nat, s: Scan, name: string, v: string, mentioned: set<string>) returns (e: Ended)
    requires i <= |text| && Valid(s) && Paused(s) && IsLexical(name) && Speakable(v) && s.stmt.vars.Trusted(v, name)
    requires text[i..] == Putting(name, v)
    ensures Run(order, text, i, s)
    ensures e.tokens == RestoreTokens(name, v) && Log(order, text, i, s, mentioned) == [e]
  {
    hide Valid, Step, R.After, T.PushAll, T.Written, Speakable, Paused, IsLexical, T.Idle, Run, S.Closing, SR.InSet, Logged, Log, Putting;
    var u := PuttingIsRead(order, text, i, s, name, v);
    var n := 2 + |T.Written(RestoreTokens(name, v))|;
    PausedIsIdle(s);
    RestoreIsKept(s.stmt, name, v);
    T.IdleIsValid(u);
    LogSplits(order, text, i, s, mentioned, n);
    LogIsCounted(order, text, i, s, mentioned, n);
    var (log, left) := Logged(order, text, i, s, mentioned, n);
    e := Ended(RestoreTokens(name, v), left);
    PutEnds(order, text, u, e.tokens, left);
    R.AfterKeepsVerdict(order, text, i, s, n);
    assert log + [e] == [e];
  }

  lemma NoVarAtEnd(u: Scan)
    requires T.Idle(u)
    ensures EndVar(u) == u
  {
  }

  lemma StartsKnown(text: string, database: string)
    ensures var s := Begin(database);
            NameInv(text, 0, s, 0) && Valid(s) && SayInv(text, 0, s) && Reported(s.stmt, {}, Pending(text, s, 0)) && PlainDelimiter(s.lex.delim)
  {
  }

  lemma {:induction false} DirtiedIsMentioned(how: Accounting, log: seq<Ended>, v: string)
    requires v in AllDirtied(how, log) && AllKnown(log)
    ensures v == "" || Speakable(v)
    decreases |log|
  {
    hide Speakable, Ended.Parts, TrackedNames, LooseNames;
    assert Known(log[0].mentioned);
    if v in log[0].Dirtied(how) {
      assert v in log[0].mentioned;
    } else {
      assert AllKnown(log[1..]);
      DirtiedIsMentioned(how, log[1..], v);
    }
  }

  lemma RestorePutsBack(name: string, v: string, mentioned: set<string>)
    requires IsLexical(name) && Speakable(v)
    ensures var parts := Ended(RestoreTokens(name, v), mentioned).Parts(); |parts| == 1 && PutBack(parts[0]) == Some(v) && Target(parts[0]) == name
  {
    hide Target, EqualsIndex, IsNames, SplitAssignments, Speakable, V.UnsafeCharset, JoinName, Upper, IsLexical;
    LexicalName(name);
    RestoreParts(name, v);
    SpeakableIsUserVar(v);
    SetToken();
  }

  /** Statements that leave `v` open, and then the one that puts it back. */
  lemma {:induction false} PutBackIsExposed(log: seq<Ended>, dirty: set<string>, e: Ended, name: string, v: string)
    requires IsLexical(name) && Speakable(v) && e.tokens == RestoreTokens(name, v) && v in dirty + AllDirtied(ByMention, log)
    ensures Exposed(ByMention, log + [e], dirty)
    decreases |log|
  {
    hide Speakable, IsLexical, RestoreTokens, Ended.Parts, Ended.Dirtied, PutBack;
    if log == [] {
      RestorePutsBack(name, v, e.mentioned);
      assert e == Ended(RestoreTokens(name, v), e.mentioned);
      assert PutsOpen(e.Parts()[0], dirty);
      assert ([] + [e])[0] == e;
    } else {
      assert (log + [e])[1..] == log[1..] + [e];
      PutBackIsExposed(log[1..], dirty + log[0].Dirtied(ByMention), e, name, v);
    }
  }

  ghost predicate TurnsUnsafe(log: seq<Ended>, w: World) {
    exists tr :: Traces(ByMention, log, {}, w, tr) && !AllSafe(tr)
  }

  /** In whatever session the statements start, they can end in an unsafe one. */
  ghost predicate CanTurnUnsafe(log: seq<Ended>) {
    forall w: World :: TurnsUnsafe(log, w)
  }

  /** Main result on what is missed: let a dump up to the end of a line be read without a refusal, and
      a variable saved from sql_mode or the client character set still be trusted although, by mention,
      it is open to other writes. Then two more lines make a whole dump that is accepted and can end in
      an unsafe session. */
  lemma ForgivenIsExploitable(order: S.Order, p: string, database: string, n: nat, s: Scan, name: string, v: string)
    requires IsLexical(name) && v != "" && (p != "" ==> p[|p| - 1] == '\n')
    requires R.After(order, p, 0, Begin(database), n) == Some((|p|, s)) && Paused(s)
    requires v in AllDirtied(ByMention, Logged(order, p, 0, Begin(database), {}, n).0) && s.stmt.vars.Trusted(v, name)
    ensures Accepts(order, p + Putting(name, v), database)
    ensures CanTurnUnsafe(Log(order, p + Putting(name, v), 0, Begin(database), {}))
  {
    var text := p + Putting(name, v);
    StartsKnown(p, database);
    hide R.After, Logged, Log, Run, Paused, AllDirtied, Speakable, IsLexical, Putting, Begin, NameInv, SayInv, Pending, Reported, PlainDelimiter,
         RestoreTokens, Traces, AllSafe, AllKnown;
    var (log, left) := Logged(order, p, 0, Begin(database), {}, n);
    MentionsAreSpeakable(order, p, 0, Begin(database), {}, 0, n);
    DirtiedIsMentioned(ByMention, log, v);
    SameRun(order, p, Putting(name, v), 0, Begin(database), {}, n);
    assert text[|p|..] == Putting(name, v);
    var e := PuttingIsAccepted(order, text, |p|, s, name, v, left);
    R.AfterKeepsVerdict(order, text, 0, Begin(database), n);
    LogSplits(order, text, 0, Begin(database), {}, n);
    PutBackIsExposed(log, {}, e, name, v);
    forall w: World ensures TurnsUnsafe(log + [e], w) {
      var tr := ExposedHarms(ByMention, log + [e], {}, w);
    }
  }

  // --------------------------------------------------------- one such dump

  /** A line that saves sql_mode in `@m` and mentions `@m` once more. */
  const SAVING := "SET @m = @@sql_mode , x = ( @m ) ;\n"

  /** One more token in front. */
  lemma WritesBefore(t: Token, ts: seq<Token>, rest: string)
    requires T.Written(ts) == rest
    ensures T.Written([t] + ts) == t.text + " " + rest
  {
    assert ([t] + ts)[1..] == ts;
  }

  lemma MentionIsWritten()
    ensures T.Written([Punct(",")] + MENTION) == ", x = ( @m ) "
  {
    assert T.Written([]) == "";
    hide T.Written;
    WritesBefore(Punct(")"), [], "");
    WritesBefore(Word("@m"), [Punct(")")], ") ");
    WritesBefore(Punct("("), [Word("@m"), Punct(")")], "@m ) ");
    WritesBefore(Punct("="), [Punct("("), Word("@m"), Punct(")")], "( @m ) ");
    WritesBefore(Word("x"), [Punct("="), Punct("("), Word("@m"), Punct(")")], "= ( @m ) ");
    WritesBefore(Punct(","), MENTION, "x = ( @m ) ");
  }

  lemma SaveIsWritten(rest: seq<Token>, tail: string)
    requires T.Written(rest) == tail
    ensures T.Written(SET_TOKENS[..4] + rest) == "SET @m = @@sql_mode " + tail
  {
    hide T.Written;
    var t := SET_TOKENS;
    var (w1, w2, w3) := ("@@sql_mode" + " " + tail, "=" + " " + ("@@sql_mode" + " " + tail), "@m" + " " + ("=" + " " + ("@@sql_mode" + " " + tail)));
    WritesBefore(t[3], rest, tail);
    WritesBefore(t[2], [t[3]] + rest, w1);
    WritesBefore(t[1], [t[2]] + ([t[3]] + rest), w2);
    WritesBefore(t[0], [t[1]] + ([t[2]] + ([t[3]] + rest)), w3);
    assert t[..4] + rest == [t[0]] + ([t[1]] + ([t[2]] + ([t[3]] + rest)));
    Joined(tail);
  }

  lemma Joined(tail: string)
    ensures "SET" + " " + ("@m" + " " + ("=" + " " + ("@@sql_mode" + " " + tail))) == "SET @m = @@sql_mode " + tail
  {
    assert "SET" + " " + "@m" + " " + "=" + " " + "@@sql_mode" + " " == "SET @m = @@sql_mode ";
  }

  lemma SavingIsWritten()
    ensures SAVING == T.Written(SET_TOKENS) + ";\n"
  {
    hide T.Written;
    MentionIsWritten();
    SaveIsWritten([Punct(",")] + MENTION, ", x = ( @m ) ");
    TokensInTwo();
    assert "SET @m = @@sql_mode " + ", x = ( @m ) " + ";\n" == SAVING;
  }

  lemma TokensInTwo()
    ensures SET_TOKENS == SET_TOKENS[..4] + ([Punct(",")] + MENTION)
  {
  }

  lemma TokensListed()
    ensures SET_TOKENS == [Word("SET"), Word("@m"), Punct("="), Word("@@sql_mode"), Punct(","),
                           Word("x"), Punct("="), Punct("("), Word("@m"), Punct(")")]
  {
  }

  /** A token that is written, and whether it is the user variable. */
  predicate IsWritten(t: Token, refers: bool) {
    T.Writable(t) && ((t.kind == 'w' && T.Sigils(t) == 1) <==> refers)
  }

  lemma MarksAreWritten()
    ensures IsWritten(Punct("="), false) && IsWritten(Punct(","), false) && IsWritten(Punct("("), false) && IsWritten(Punct(")"), false)
  {
    hide T.Sayable;
  }

  lemma WordsAreWritten()
    ensures IsWritten(Word("SET"), false) && IsWritten(Word("x"), false) && IsWritten(Word("@m"), true) && IsWritten(Word("@@sql_mode"), false)
  {
    hide T.Writable, T.Sigils, IsFileWord, T.Name;
    assert "@" + "m" == "@m" && "@@" + "sql_mode" == "@@sql_mode";
    T.ShortWord("m");
    T.ShortWord("SET");
    T.ShortWord("x");
    SmallNoFile();
    T.PlainVar("m");
    T.PlainVar("sql_mode");
    T.PlainWord("SET");
    T.PlainWord("x");
  }

  lemma SavingTokens()
    ensures |SET_TOKENS| == 10 && forall k :: 0 <= k < 10 ==> IsWritten(SET_TOKENS[k], k == 1 || k == 8)
    ensures SET_TOKENS[1] == Word("@m") && SET_TOKENS[8] == Word("@m") && SET_TOKENS[0] == Word("SET")
  {
    hide SET_TOKENS, IsWritten;
    TokensListed();
    MarksAreWritten();
    WordsAreWritten();
  }

  lemma SmallNoFile()
    ensures !IsFileWord("sql_mode")
  {
    assert Upper("sql_mode")[0] == 'S';
  }

  lemma SavingRefers(st: S.Stmt)
    requires st.varRefs == {}
    ensures SR.RefersAll(st, SET_TOKENS) == st.(varRefs := {"@M"})
  {
    SavingTokens();
    Uppers();
    ShortKey();
    hide VarKey, SET_TOKENS, T.Sigils, T.Writable;
    var t := SET_TOKENS;
    assert forall k :: 0 <= k < 10 && k != 1 && k != 8 ==> IsWritten(t[k], false);
    assert t == t[..1] + ([t[1]] + (t[2..8] + ([t[8]] + t[9..])));
    var v := st.(varRefs := {"@M"});
    assert {} + {"@M"} == {"@M"};
    assert T.Refers(st, t[1]) == v && T.Refers(v, t[8]) == v;
    SR.RefersAdds(st, t[..1], [t[1]] + (t[2..8] + ([t[8]] + t[9..])));
    SR.RefersToNone(st, t[..1]);
    assert ([t[1]] + (t[2..8] + ([t[8]] + t[9..])))[1..] == t[2..8] + ([t[8]] + t[9..]);
    SR.RefersAdds(v, t[2..8], [t[8]] + t[9..]);
    SR.RefersToNone(v, t[2..8]);
    assert ([t[8]] + t[9..])[1..] == t[9..];
    SR.RefersToNone(v, t[9..]);
  }

  lemma ShortKey()
    ensures T.Sigils(Word("@m")) == 1 && T.Name(Word("@m")) == "m" && VarKey("m", false) == "@M"
  {
    assert "@" + "m" == "@m";
    T.PlainVar("m");
    assert "m"[0] as int < 0x80;
    assert Upper("m") == "M" && "@" + "M" == "@M";
  }

  /** The statement as it is kept, and the state after it. */
  function Kept(d: string, size: nat): S.Stmt {
    S.Fresh(d, S.Tracked(map[], {}), 0).(started := true, tokens := SET_TOKENS, size := size, varRefs := {"@M"})
  }

  function Saved(d: string): S.Stmt {
    S.Fresh(d, S.Tracked(map["@M" := "SQL_MODE"], {}), 1)
  }

  lemma SavingIsKept(d: string) returns (size: nat)
    ensures T.PushAll(S.Fresh(d, S.Tracked(map[], {}), 0), SET_TOKENS) == Some(Kept(d, size))
    ensures T.Resting(Kept(d, size))
  {
    hide SET_TOKENS, T.PushAll, T.Written, IsWritten;
    var st := S.Fresh(d, S.Tracked(map[], {}), 0);
    SavingTokens();
    SetToken();
    SavingLength();
    assert st.tokens + SET_TOKENS == SET_TOKENS;
    SR.PushesSet(st, SET_TOKENS);
    SavingRefers(st);
    size := T.PushAll(st, SET_TOKENS).value.size;
  }

  lemma SavingLength()
    ensures |T.Written(SET_TOKENS)| == 33 && |SAVING| == 35
  {
    hide T.Written, SET_TOKENS;
    SavingIsWritten();
  }

  lemma {:induction false} PoisonsNothing(vars: S.Vars, names: seq<string>, accounted: set<string>)
    requires forall n :: n in names ==> n in accounted
    ensures S.Poison(vars, names, accounted) == vars
    decreases |names|
  {
    if names != [] {
      PoisonsNothing(vars, names[1..], accounted);
    }
  }

  lemma SavingEnds(order: S.Order, d: string, size: nat)
    requires S.IsOrder(order)
    ensures S.End(order, Kept(d, size)) == Some(Saved(d)) && HeadTokens(Kept(d, size)) == SET_TOKENS
  {
    hide SET_TOKENS, S.CheckSet, S.IsOrder, S.Poison;
    var u := Kept(d, size);
    SavingTokens();
    SetToken();
    MentionInTrackedStatementIsForgiven(u);
    F.FinalSet(u);
    EndOfKept(order, u);
    OrderOfOne(order, "@M");
    PoisonsNothing(S.Tracked(map["@M" := "SQL_MODE"], {}), order(0, {"@M"}), {"@M"});
  }

  lemma OrderOfOne(order: S.Order, n: string)
    requires S.IsOrder(order)
    ensures forall x :: x in order(0, {n}) ==> x in {n}
  {
    assert S.Enumerates(order(0, {n}), {n});
  }

  lemma EndOfKept(order: S.Order, u: S.Stmt)
    requires T.Resting(u) && !u.accepted && u.tokens != [] && S.FinalHead(u).Some? && S.FinalHead(u).value.values.None?
    ensures S.End(order, u) == Some(S.Next(order, S.FinalHead(u).value)) && HeadTokens(u) == u.tokens
  {
    hide S.FinalHead, S.Next, S.Push;
  }

  lemma SavingOpens()
    ensures var n := |T.Written(SET_TOKENS)|;
            && T.OpensLine(SAVING, 0, "SET") && n + 2 == |SAVING| && SAVING[..n] == T.Written(SET_TOKENS)
            && SAVING[n] == ';' && SAVING[n + 1] == '\n'
  {
    SavingIsWritten();
    SavingLength();
    hide T.Written, SET_TOKENS;
    assert SAVING[0..3] == "SET";
    Uppers();
  }

  /** The scan of that line, up to its delimiter and behind it. */
  lemma SavingIsRead(order: S.Order, d: string) returns (u: Scan, size: nat, v: Scan)
    requires S.IsOrder(order)
    ensures R.After(order, SAVING, 0, Begin(d), 34) == Some((33, u)) && T.Idle(u) && u.stmt == Kept(d, size)
    ensures Valid(u) && R.After(order, SAVING, 33, u, 2) == Some((35, v)) && Paused(v) && v.stmt == Saved(d)
    ensures R.After(order, SAVING, 0, Begin(d), 36) == Some((35, v)) && |SAVING| == 35
  {
    hide SET_TOKENS, SAVING, T.Written, R.After, T.PushAll, T.Writable, T.OpensLine, S.IsOrder, S.End, Kept, Saved, T.Idle, T.Resting, HeadTokens, Begin,
         Prelude, Paused;
    SavingOpens();
    SavingLength();
    AllAreWritable();
    size := SavingIsKept(d);
    u := T.ReadFirst(order, SAVING, d, "SET", SET_TOKENS);
    T.IdleIsValid(u);
    SavingEnds(order, d, size);
    T.IdlePrelude(u, ';');
    SavedIsIdle(u, d);
    T.StatementLineEnds(order, SAVING, 33, u, u, Saved(d));
    v := u.(lex := T.CALM.(bol := true), prev := ' ', stmt := Saved(d));
    T.StartsIdle(d);
    R.AfterAdds(order, SAVING, 0, Begin(d), 34, 2);
  }

  lemma AllAreWritable()
    ensures forall k :: 0 <= k < |SET_TOKENS| ==> T.Writable(SET_TOKENS[k])
  {
    hide SET_TOKENS, T.Writable, T.Sigils;
    SavingTokens();
    assert forall k :: 0 <= k < 10 ==> IsWritten(SET_TOKENS[k], k == 1 || k == 8);
  }

  lemma SavedIsIdle(u: Scan, d: string)
    requires T.Idle(u)
    ensures u.lex == T.CALM && T.Idle(u.(prev := ' ', stmt := Saved(d)))
    ensures Paused(u.(lex := T.CALM.(bol := true), prev := ' ', stmt := Saved(d)))
  {
  }

  /** What is logged of it: the statement, and the variable it mentions. */
  lemma SavingIsLogged(order: S.Order, d: string)
    requires S.IsOrder(order)
    ensures Logged(order, SAVING, 0, Begin(d), {}, 36).0 == [Ended(SET_TOKENS, {"@M"})]
  {
    hide SET_TOKENS, SAVING, R.After, S.IsOrder, S.End, T.Resting, HeadTokens, Prelude, NameInv, Reported, Pending, Step, LexStep, Logged;
    var u, size, v := SavingIsRead(order, d);
    StartsKnown(SAVING, d);
    SavingEnds(order, d, size);
    SavingOpens();
    T.IdlePrelude(u, ';');
    CalmIdle(u);
    T.SemicolonStep(order, SAVING, 33, u, u);
    LineIsLogged(order, SAVING, 0, Begin(d), {}, 0, 34);
  }

  lemma CalmIdle(u: Scan)
    requires T.Idle(u)
    ensures u.lex == T.CALM
  {
  }

  /** By mention, the line leaves `@M` open. */
  lemma SavingIsForgiven()
    ensures "@M" in Ended(SET_TOKENS, {"@M"}).Forgiven()
  {
    SplitsInTwo();
    SaveTarget();
    MentionTarget();
    NotNames();
    Uppers();
    MentionIsLoose();
    hide SplitAssignments, Target, EqualsIndex, IsNames, TokenNames, IsUserVar, Upper;
    assert SET_TOKENS[1..] == SAVE + [Punct(",")] + MENTION;
    assert SET_TOKENS[0].Is("SET") by {
      SetToken();
    }
    assert [SAVE, MENTION][1..] == [MENTION] && [MENTION][1..] == [];
    assert TrackedName(SAVE) == {"@M"};
    assert TrackedName(MENTION) == {};
    assert TrackedNames([MENTION]) == {} + TrackedNames([]);
    assert "@M" in TrackedNames([SAVE, MENTION]);
    assert LooseNames([MENTION]) == TokenNames(MENTION) + {};
    assert "@M" in LooseNames([SAVE, MENTION]);
  }

  lemma MentionIsLoose()
    ensures "@M" in TokenNames(MENTION)
  {
    ShortKey();
    var w := "@m";
    NameRunEndIs(w, 1, 2);
    assert w[1..2] == "m";
    assert "@M" in NamesIn(w, 0) by {
      hide VarKey;
      assert MentionAt(w, 0) == {NameKey(w, 1, 2)};
    }
    assert MENTION[1..][1..] == MENTION[2..] && MENTION[2..][1..] == MENTION[3..];
    assert MENTION[3..][0] == Word("@m");
    assert "@M" in TokenNames(MENTION[3..]);
    assert "@M" in TokenNames(MENTION[2..]);
    assert "@M" in TokenNames(MENTION[1..]);
  }

  /** Such a dump for every database: it saves sql_mode in `@m` and mentions `@m` once more, then sets
      sql_mode to `@m`. It is accepted, and in every session it can turn sql_mode unsafe. */
  lemma ForgivenDump(order: S.Order, d: string)
    requires S.IsOrder(order)
    ensures var text := SAVING + Putting(SQL_MODE, "@M");
            Accepts(order, text, d) && CanTurnUnsafe(Log(order, text, 0, Begin(d), {}))
    ensures Putting(SQL_MODE, "@M") == "delimiter ;\n" + ("SET " + ("SQL_MODE" + " = " + "@M" + " "))
  {
    hide R.After, S.IsOrder, Paused, SET_TOKENS, Begin, Putting, Accepts, CanTurnUnsafe, Log, Ended.Forgiven, Ended.Parts, TrackedNames, Logged, SAVING;
    var u, size, v := SavingIsRead(order, d);
    SavingIsLogged(order, d);
    SavingIsForgiven();
    var log := [Ended(SET_TOKENS, {"@M"})];
    assert "@M" in AllDirtied(ByMention, log);
    SavingTrusts(d);
    SavingEndsLine();
    ForgivenIsExploitable(order, SAVING, d, 36, v, SQL_MODE, "@M");
    PuttingText();
  }

  lemma SavingTrusts(d: string)
    ensures Saved(d).vars.Trusted("@M", SQL_MODE)
  {
  }

  lemma SavingEndsLine()
    ensures SAVING != "" && SAVING[|SAVING| - 1] == '\n'
  {
  }

  lemma PuttingText()
    ensures Speakable("@M") && Putting(SQL_MODE, "@M") == "delimiter ;\n" + ("SET " + ("SQL_MODE" + " = " + "@M" + " "))
  {
    MIsSpeakable();
    hide T.Written, Speakable;
    WrittenLength(SQL_MODE, "@M");
  }

  lemma MIsSpeakable()
    ensures Speakable("@M")
  {
    T.ShortWord("M");
    hide IsFileWord;
    T.PlainSpoken("", "M");
    assert "" + "M" == "M";
    assert "@M"[1..] == "M" && Upper("@M") == "@M";
  }
}
