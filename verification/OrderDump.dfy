/** A dump that one order of the checker's maps lets through and another does not.

    It saves sql_mode in `@m`, leaves 47 other variables open, then one of them again and one more, and
    puts `@m` back. Ranging over the last two, Go may come to the new name first: then 48 names are
    poisoned when the old one is reported, every variable is given up and `@m` with them. */
module OrderDump {
  import opened Text
  import V = ValuesAutomaton
  import opened SqlChecks
  import S = Statements
  import F = StatementFrames
  import T = TokenRuns
  import SR = SetRuns
  import opened DumpLexer
  import R = ScanRuns
  import PO = PoisonOrder
  import opened Mentions
  import opened SessionModel
  import opened SessionSafety
  import opened SessionReading
  import opened LogRuns
  import opened SpokenNames
  import FM = ForgivenMentions
  import G = GivenUpRuns
  import OV = OrderVerdicts

  // ------------------------------------------------------------ names

  function Letters(k: nat): (s: string)
    ensures |s| == k && forall i :: 0 <= i < k ==> s[i] == 'A'
  {
    if k == 0 then "" else Letters(k - 1) + "A"
  }

  /** `@A`, `@AA` and so on. */
  function Name(k: nat): string {
    "@" + Letters(k)
  }

  function Names(n: nat): set<string> {
    if n == 0 then {} else Names(n - 1) + {Name(n)}
  }

  function NameTokens(n: nat): seq<Token> {
    if n == 0 then [] else NameTokens(n - 1) + [Word(Name(n))]
  }

  lemma {:induction false} NamesAre(n: nat)
    ensures |Names(n)| == n && forall v :: v in Names(n) ==> 1 < |v| <= n + 1 && v[0] == '@' && v[1] == 'A'
    ensures forall k :: 1 <= k <= n ==> Name(k) in Names(n)
  {
    if n > 0 {
      NamesAre(n - 1);
      assert Name(n)[1] == Letters(n)[0];
      assert |Name(n)| == n + 1;
      assert Name(n) !in Names(n - 1);
    }
  }

  lemma LettersAreUpper(k: nat)
    ensures Upper(Letters(k)) == Letters(k) && Upper(Name(k)) == Name(k)
  {
    var w := Name(k);
    assert forall i :: 0 <= i < |w| ==> UpperChar(w[i]) == w[i];
  }

  lemma LettersAreSayable(k: nat)
    requires 0 < k
    ensures T.Sayable(Letters(k))
  {
    var w := Letters(k);
    hide IsFileWord, T.Spoken, Letters;
    if k <= 16 {
      T.PlainSpoken("", w);
      assert "" + w == w;
      NoFileName(w);
    } else {
      T.LongWord("", w);
    }
  }

  lemma NoFileName(w: string)
    requires w != "" && w[0] == 'A'
    ensures !IsFileWord(w)
  {
    assert Upper(w)[0] == 'A';
  }

  /** A written variable. */
  predicate IsVariable(t: Token, v: string) {
    T.Writable(t) && t.kind == 'w' && T.Sigils(t) == 1 && VarKey(T.Name(t), false) == v
  }

  lemma NameIsVariable(k: nat)
    requires 0 < k <= 48
    ensures IsVariable(Word(Name(k)), Name(k)) && !V.UnsafeCharset(Name(k))
  {
    var w := Name(k);
    LettersAreSayable(k);
    LettersAreUpper(k);
    hide T.Sayable, V.UnsafeCharset, Upper;
    assert w[0] == '@' && w[1] == Letters(k)[0] && w[1..] == Letters(k);
    assert T.Name(Word(w)) == Letters(k);
    if V.UnsafeCharset(w) {
      UnsafeIsWord(w);
    }
  }

  // ------------------------------------------------------------ statements

  const SAVING := [Word("SET")] + SAVE

  /** `SET x = @A @AA` up to 47 letters */
  const OPENING := [Word("SET"), Word("x"), Punct("=")] + NameTokens(47)

  const LAST_TOKENS := [Word(Name(1)), Word(Name(48))]

  /** `SET x = @A` and a variable of 48 letters */
  const AGAIN := [Word("SET"), Word("x"), Punct("=")] + LAST_TOKENS

  function Line(ts: seq<Token>): string {
    T.Written(ts) + ";\n"
  }

  function Dump(): string {
    Line(SAVING) + Line(OPENING) + Line(AGAIN) + FM.Putting(SQL_MODE, "@M")
  }

  /** The statement as it is kept. */
  function Held(st: S.Stmt, ts: seq<Token>, refs: set<string>, size: nat): S.Stmt {
    st.(started := true, tokens := ts, size := size, varRefs := refs)
  }

  predicate IsSetLine(ts: seq<Token>) {
    && ts != [] && ts[0] == Word("SET") && |T.Written(ts)| <= MAX_HEAD
    && forall k :: 0 <= k < |ts| ==> T.Writable(ts[k])
  }

  /** What the checker makes of it: the variables it leaves tracked, and those it accounts for. */
  ghost predicate Checks(st: S.Stmt, ts: seq<Token>, refs: set<string>, vars: S.Vars, accounted: set<string>)
    requires ts != []
  {
    && SR.RefersAll(st, ts) == st.(varRefs := refs)
    && forall size: nat :: S.CheckSet(Held(st, ts, refs, size), ts[1..]) ==
                             Some(Held(st, ts, refs, size).(vars := vars, setVars := accounted))
  }

  lemma HeldEnds(order: S.Order, st: S.Stmt, ts: seq<Token>, refs: set<string>, size: nat, vars: S.Vars, accounted: set<string>)
    requires st == S.Fresh(st.database, st.vars, st.count) && ts != [] && ts[0] == Word("SET") && Checks(st, ts, refs, vars, accounted)
    ensures var u := Held(st, ts, refs, size);
            && S.End(order, u) == Some(S.Fresh(st.database, S.Poison(vars, order(st.count, refs), accounted), st.count + 1))
            && (OV.EndSettled(u) <==> (vars.Tracked? ==> PO.Settled(vars.poisoned, refs - accounted)))
  {
    hide S.CheckSet, S.Poison, PO.Settled;
    var u := Held(st, ts, refs, size);
    FM.SetToken();
    F.FinalSet(u);
    assert S.CheckSet(u, ts[1..]) == Some(u.(vars := vars, setVars := accounted));
    assert S.FinalHead(u) == Some(u.(vars := vars, setVars := accounted));
    RestsAtEnd(u);
    hide S.FinalHead;
    FM.EndOfKept(order, u);
  }

  lemma RestsAtEnd(u: S.Stmt)
    requires u.curKind == S.NONE && u.cur == "" && u.values.None?
    ensures T.Resting(u) && S.Space(u) == Some(u)
  {
    hide S.Push;
  }

  lemma LineParts(text: string, i: nat, ts: seq<Token>)
    requires i + |Line(ts)| <= |text| && text[i..i + |Line(ts)|] == Line(ts) && ts != [] && ts[0] == Word("SET")
    ensures var n := |T.Written(ts)|;
            && text[i..i + n] == T.Written(ts) && text[i + n] == ';' && text[i + n + 1] == '\n' && T.OpensLine(text, i, "SET")
  {
    var w := T.Written(ts);
    var all := text[i..i + |Line(ts)|];
    assert w == "SET" + " " + T.Written(ts[1..]);
    hide T.Written;
    assert all[..|w|] == w && all[|w|] == ';' && all[|w| + 1] == '\n';
    assert text[i..i + 3] == all[..3] == w[..3] && text[i + 3] == all[3] == w[3];
    Uppers();
  }

  /** Such a line is read: the scan at its delimiter, and at the start of the next line. */
  lemma SetLine(order: S.Order, text: string, i: nat, s: Scan, ts: seq<Token>, refs: set<string>, vars: S.Vars, accounted: set<string>)
    returns (u: Scan, v: Scan, size: nat)
    requires i + |Line(ts)| <= |text| && text[i..i + |Line(ts)|] == Line(ts) && IsSetLine(ts)
    requires T.AtLine(s) && s.stmt == S.Fresh(s.stmt.database, s.stmt.vars, s.stmt.count) && Checks(s.stmt, ts, refs, vars, accounted)
    ensures var n := |T.Written(ts)|;
            && Valid(s) && R.After(order, text, i, s, 1 + n) == Some((i + n, u)) && Valid(u)
            && text[i + n] == ';' && LexStep(text, i + n, u.lex) == Some(LexOut(i + n + 1, T.CALM, EndStatement))
            && Prelude(u, ';') == Some(u) && u.stmt == Held(s.stmt, ts, refs, size)
            && R.After(order, text, i + n, u, 2) == Some((i + n + 2, v))
            && R.After(order, text, i, s, 3 + n) == Some((i + n + 2, v))
    ensures T.AtLine(v)
    ensures v.stmt == S.Fresh(s.stmt.database, S.Poison(vars, order(s.stmt.count, refs), accounted), s.stmt.count + 1)
  {
    hide Step, R.After, T.Written, T.PushAll, T.Writable, T.OpensLine, S.End, T.Idle, T.Resting, Prelude, Valid, S.Poison, LexStep, Checks;
    var n := |T.Written(ts)|;
    LineParts(text, i, ts);
    AtLineIsIdle(s);
    var s1 := s.(lex := T.CALM);
    T.IdleIsValid(s1);
    Opens(order, text, i, s);
    size := IsHeld(s.stmt, ts, refs, vars, accounted);
    assert text[i..i + n] == T.Written(ts);
    T.ReadTokens(order, text, i, s1, ts);
    u :| R.After(order, text, i, s1, n) == Some((i + n, u)) && T.Between(u, T.PushAll(s.stmt, ts).value);
    R.AfterFirst(order, text, i, s, 1 + n);
    T.IdleIsValid(u);
    T.IdlePrelude(u, ';');
    HeldEnds(order, s.stmt, ts, refs, size, vars, accounted);
    var st := S.End(order, u.stmt).value;
    EndedIsIdle(u, st);
    SemicolonIsRead(text, i + n);
    T.StatementLineEnds(order, text, i + n, u, u, st);
    v := u.(lex := T.CALM.(bol := true), prev := ' ', stmt := st);
    R.AfterAdds(order, text, i, s, 1 + n, 2);
  }

  lemma SemicolonIsRead(text: string, i: nat)
    requires i < |text| && text[i] == ';'
    ensures LexStep(text, i, T.CALM) == Some(LexOut(i + 1, T.CALM, EndStatement))
  {
    T.SemicolonEnds(text, i);
    hide CodeStep;
  }

  lemma AtLineIsIdle(s: Scan)
    requires T.AtLine(s)
    ensures Valid(s) && s.lex.bol && T.Idle(s.(lex := T.CALM)) && s.(lex := s.lex.(bol := false)) == s.(lex := T.CALM)
  {
  }

  lemma Opens(order: S.Order, text: string, i: nat, s: Scan)
    requires Valid(s) && s.lex.bol && T.OpensLine(text, i, "SET")
    ensures i < |text| && Step(order, text, i, s) == Some((i, s.(lex := s.lex.(bol := false))))
  {
    hide Step;
    T.LineOpens(order, text, i, s, "SET");
  }

  lemma IsHeld(st: S.Stmt, ts: seq<Token>, refs: set<string>, vars: S.Vars, accounted: set<string>) returns (size: nat)
    requires st == S.Fresh(st.database, st.vars, st.count) && IsSetLine(ts) && Checks(st, ts, refs, vars, accounted)
    ensures T.PushAll(st, ts) == Some(Held(st, ts, refs, size))
  {
    hide T.PushAll, T.Written, S.CheckSet, T.Writable;
    FM.SetToken();
    assert st.tokens + ts == ts;
    SR.PushesSet(st, ts);
    size := T.PushAll(st, ts).value.size;
  }

  lemma EndedIsIdle(u: Scan, st: S.Stmt)
    requires T.Idle(u) && st == S.Fresh(st.database, st.vars, st.count)
    ensures u.lex == T.CALM && T.Idle(u.(prev := ' ', stmt := st))
  {
  }

  // ------------------------------------------ what the checker makes of them

  lemma RefersFirst(st: S.Stmt, t: Token, rest: seq<Token>)
    ensures SR.RefersAll(st, [t] + rest) == SR.RefersAll(T.Refers(st, t), rest)
  {
    hide T.Refers;
    assert ([t] + rest)[1..] == rest;
  }

  lemma SavingRefers(st: S.Stmt)
    requires st.varRefs == {}
    ensures SR.RefersAll(st, SAVING) == st.(varRefs := {"@M"})
  {
    FM.WordsAreWritten();
    FM.ShortKey();
    hide T.Sigils, T.Writable, VarKey;
    var u := st.(varRefs := {"@M"});
    assert {} + {"@M"} == {"@M"};
    assert T.Refers(st, Word("@m")) == u;
    RefersFirst(st, Word("SET"), SAVE);
    assert SAVE == [Word("@m")] + ([Punct("=")] + ([Word("@@sql_mode")] + []));
    RefersFirst(st, Word("@m"), [Punct("=")] + ([Word("@@sql_mode")] + []));
    RefersFirst(u, Punct("="), [Word("@@sql_mode")] + []);
    RefersFirst(u, Word("@@sql_mode"), []);
  }

  function SavedMode(): map<string, string> {
    map["@M" := "SQL_MODE"]
  }

  lemma SavingChecks(st: S.Stmt)
    requires st.vars == S.Tracked(map[], {}) && st.varRefs == {}
    ensures Checks(st, SAVING, {"@M"}, S.Tracked(SavedMode(), {}), {"@M"})
  {
    SavingRefers(st);
    hide S.CheckSet;
    assert SAVING[1..] == SAVE;
    forall size: nat ensures
      S.CheckSet(Held(st, SAVING, {"@M"}, size), SAVE) ==
        Some(Held(st, SAVING, {"@M"}, size).(vars := S.Tracked(SavedMode(), {}), setVars := {"@M"}))
    {
      SaveIsChecked(Held(st, SAVING, {"@M"}, size));
    }
  }

  lemma SaveIsChecked(st: S.Stmt)
    requires st.vars == S.Tracked(map[], {})
    ensures S.CheckSet(st, SAVE) == Some(st.(vars := S.Tracked(SavedMode(), {}), setVars := {"@M"}))
  {
    SaveTarget();
    SaveSource();
    NotNames();
    Uppers();
    NoCharset(SAVE);
    hide Target, EqualsIndex, SavedFrom, IsNames, V.UnsafeCharset, S.NamesUnsafeCharset, Upper, IsUserVar;
    SplitSkips(SAVE, [], []);
    assert SAVE + [] == SAVE && [] + SAVE == SAVE;
    assert SplitAssignments([], 0, SAVE) == [SAVE];
    hide SplitAssignments;
    var s := st.(setVars := {});
    var saved := s.(vars := S.Tracked(SavedMode(), {}), setVars := s.setVars + {"@M"});
    assert S.CheckAssignment(s, SAVE) == Some(saved);
    assert [SAVE][1..] == [];
    assert S.CheckAssignments(saved, []) == Some(saved);
  }

  /** None of these tokens names an unsafe character set. */
  lemma NoCharset(t: seq<Token>)
    requires forall k :: 0 <= k < |t| ==> |t[k].text| < 3 || t[k].text[0] == '@'
    ensures !S.NamesUnsafeCharset(t)
  {
    hide V.UnsafeCharset;
    forall k | 0 <= k < |t| && t[k].kind != 'p' ensures !V.UnsafeCharset(t[k].text) {
      if V.UnsafeCharset(t[k].text) {
        UnsafeIsWord(t[k].text);
      }
    }
  }

  /** A variable named by a token of its own. */
  predicate IsMentioned(t: Token) {
    t.kind == 'w' && |t.text| > 1 && t.text[0] == '@'
  }

  /** An assignment to `x` of more than one token is not looked into. */
  lemma MentionIsChecked(st: S.Stmt, vs: seq<Token>)
    requires |vs| >= 2 && forall k :: 0 <= k < |vs| ==> IsMentioned(vs[k])
    ensures S.CheckSet(st, [Word("x"), Punct("=")] + vs) == Some(st.(setVars := {}))
  {
    var a := [Word("x"), Punct("=")] + vs;
    NotNames();
    Uppers();
    assert forall k :: 0 <= k < |a| ==> a[k] == Word("x") || a[k] == Punct("=") || IsMentioned(a[k]);
    NoCharset(a);
    TargetOfX(vs);
    hide Target, EqualsIndex, SavedFrom, IsNames, V.UnsafeCharset, S.NamesUnsafeCharset, Upper, IsUserVar, IsMentioned;
    SplitOfX(vs);
    hide SplitAssignments;
    var s := st.(setVars := {});
    assert a[2..] == vs;
    assert S.CheckAssignment(s, a) == Some(s);
    assert [a][1..] == [];
    assert S.CheckAssignments(s, []) == Some(s);
  }

  lemma SplitOfX(vs: seq<Token>)
    requires forall k :: 0 <= k < |vs| ==> IsMentioned(vs[k])
    ensures SplitAssignments([Word("x"), Punct("=")] + vs, 0, []) == [[Word("x"), Punct("=")] + vs]
  {
    var a := [Word("x"), Punct("=")] + vs;
    SplitSkips(a, [], []);
    assert a + [] == a && [] + a == a;
    assert SplitAssignments([], 0, a) == [a];
  }

  lemma TargetOfX(vs: seq<Token>)
    ensures var a := [Word("x"), Punct("=")] + vs; EqualsIndex(a) == 1 && Target(a) == "X"
  {
    var a := [Word("x"), Punct("=")] + vs;
    MentionTarget();
    assert MENTION[..1] == a[..1];
    assert a[1..][0] == Punct("=");
    assert EqualsIndex(a[1..]) == 0;
  }

  lemma MentionRefers(st: S.Stmt, vs: seq<Token>)
    ensures SR.RefersAll(st, [Word("SET"), Word("x"), Punct("=")] + vs) == SR.RefersAll(st, vs)
  {
    FM.WordsAreWritten();
    hide T.Sigils, T.Writable, SR.RefersAll;
    assert [Word("SET"), Word("x"), Punct("=")] + vs == [Word("SET")] + ([Word("x")] + ([Punct("=")] + vs));
    RefersFirst(st, Word("SET"), [Word("x")] + ([Punct("=")] + vs));
    RefersFirst(st, Word("x"), [Punct("=")] + vs);
    RefersFirst(st, Punct("="), vs);
  }

  lemma MentionChecks(st: S.Stmt, vs: seq<Token>, refs: set<string>)
    requires |vs| >= 2 && (forall k :: 0 <= k < |vs| ==> IsMentioned(vs[k])) && SR.RefersAll(st, vs) == st.(varRefs := refs)
    ensures Checks(st, [Word("SET"), Word("x"), Punct("=")] + vs, refs, st.vars, {})
  {
    hide S.CheckSet, SR.RefersAll, IsMentioned;
    var ts := [Word("SET"), Word("x"), Punct("=")] + vs;
    MentionRefers(st, vs);
    assert ts[1..] == [Word("x"), Punct("=")] + vs;
    forall size: nat ensures
      S.CheckSet(Held(st, ts, refs, size), ts[1..]) == Some(Held(st, ts, refs, size).(vars := st.vars, setVars := {}))
    {
      MentionIsChecked(Held(st, ts, refs, size), vs);
    }
  }

  lemma {:induction false} NamesRefer(st: S.Stmt, n: nat)
    requires st.varRefs == {} && n <= 48
    ensures SR.RefersAll(st, NameTokens(n)) == st.(varRefs := Names(n))
    decreases n
  {
    hide T.Refers, Names;
    if n == 0 {
      NoNames(st);
    } else {
      NamesRefer(st, n - 1);
      var t := Word(Name(n));
      SR.RefersAdds(st, NameTokens(n - 1), [t]);
      var u := st.(varRefs := Names(n - 1));
      NameRefers(u, n);
      RefersFirst(u, t, []);
      assert [t] + [] == [t];
    }
  }

  lemma NoNames(st: S.Stmt)
    requires st.varRefs == {}
    ensures st == st.(varRefs := Names(0))
  {
  }

  lemma NameRefers(st: S.Stmt, n: nat)
    requires 0 < n <= 48 && st.varRefs == Names(n - 1)
    ensures T.Refers(st, Word(Name(n))) == st.(varRefs := Names(n))
  {
    NamesAre(n - 1);
    NameIsVariable(n);
    assert |Name(n)| == n + 1;
    hide T.Sigils, VarKey, T.Writable, Name, V.UnsafeCharset, T.Name;
  }

  lemma {:induction false} NamesAreMentioned(n: nat)
    requires n <= 48
    ensures |NameTokens(n)| == n
    ensures forall k :: 0 <= k < n ==> IsMentioned(NameTokens(n)[k]) && T.Writable(NameTokens(n)[k])
    ensures |T.Written(NameTokens(n))| <= n * 50
    decreases n
  {
    hide T.Writable, T.Sigils, VarKey, V.UnsafeCharset;
    if n > 0 {
      NamesAreMentioned(n - 1);
      NameIsVariable(n);
      var t := Word(Name(n));
      assert |Name(n)| == n + 1;
      WrittenAdds(NameTokens(n - 1), [t]);
      assert T.Written([t]) == t.text + " " + T.Written([]);
    }
  }

  lemma {:induction false} WrittenAdds(a: seq<Token>, b: seq<Token>)
    ensures T.Written(a + b) == T.Written(a) + T.Written(b)
    decreases |a|
  {
    if a == [] {
      assert a + b == b;
    } else {
      assert (a + b)[1..] == a[1..] + b;
      WrittenAdds(a[1..], b);
    }
  }

  // ------------------------------------------------------ the three lines

  /** The two variables of the third line: one left open before, one new. */
  function LastNames(): set<string> {
    {Name(1), Name(48)}
  }

  lemma SavingIsLine()
    ensures IsSetLine(SAVING)
  {
    FM.WordsAreWritten();
    FM.MarksAreWritten();
    hide T.Writable, T.Sigils;
    assert SAVING == [Word("SET"), Word("@m"), Punct("="), Word("@@sql_mode")];
    assert T.Written([]) == "";
    hide T.Written;
    FM.SaveIsWritten([], "");
    assert SET_TOKENS[..4] + [] == SAVING;
  }

  /** `SET x =` in front of variables. */
  lemma MentionIsLine(vs: seq<Token>)
    requires (forall k :: 0 <= k < |vs| ==> T.Writable(vs[k])) && |T.Written(vs)| <= 2400
    ensures IsSetLine([Word("SET"), Word("x"), Punct("=")] + vs)
  {
    FM.WordsAreWritten();
    FM.MarksAreWritten();
    hide T.Writable, T.Sigils, T.Written;
    var ts := [Word("SET"), Word("x"), Punct("=")] + vs;
    assert ts == [Word("SET")] + ([Word("x")] + ([Punct("=")] + vs));
    FM.WritesBefore(Punct("="), vs, T.Written(vs));
    FM.WritesBefore(Word("x"), [Punct("=")] + vs, T.Written([Punct("=")] + vs));
    FM.WritesBefore(Word("SET"), [Word("x")] + ([Punct("=")] + vs), T.Written([Word("x")] + ([Punct("=")] + vs)));
    assert forall k :: 0 <= k < |ts| ==> T.Writable(ts[k]);
  }

  lemma LastAreMentioned()
    ensures |LAST_TOKENS| == 2 && forall k :: 0 <= k < 2 ==> IsMentioned(LAST_TOKENS[k]) && T.Writable(LAST_TOKENS[k])
    ensures |T.Written(LAST_TOKENS)| <= 100
  {
    NameIsVariable(1);
    NameIsVariable(48);
    assert |Name(1)| == 2 && |Name(48)| == 49;
    assert T.Written([]) == "";
    hide T.Writable, T.Sigils, VarKey, V.UnsafeCharset, T.Written;
    assert LAST_TOKENS == [Word(Name(1))] + ([Word(Name(48))] + []);
    FM.WritesBefore(Word(Name(48)), [], "");
    FM.WritesBefore(Word(Name(1)), [Word(Name(48))] + [], T.Written([Word(Name(48))] + []));
  }

  lemma LastRefer(st: S.Stmt)
    requires st.varRefs == {}
    ensures SR.RefersAll(st, LAST_TOKENS) == st.(varRefs := LastNames())
  {
    NameIsVariable(1);
    NameIsVariable(48);
    assert |Name(1)| == 2 && |Name(48)| == 49;
    hide T.Sigils, VarKey, T.Writable, Name, V.UnsafeCharset, T.Name;
    assert LAST_TOKENS == [Word(Name(1))] + ([Word(Name(48))] + []);
    var u := st.(varRefs := {Name(1)});
    assert {} + {Name(1)} == {Name(1)} && {Name(1)} + {Name(48)} == LastNames();
    assert T.Refers(st, Word(Name(1))) == u;
    RefersFirst(st, Word(Name(1)), [Word(Name(48))] + []);
    RefersFirst(u, Word(Name(48)), []);
  }

  /** Leaving the 47 names open poisons them, in whatever order. */
  lemma OpensAll(order: S.Order, saved: map<string, string>)
    requires S.IsOrder(order)
    ensures S.Poison(S.Tracked(saved, {}), order(1, Names(47)), {}) == S.Tracked(saved, Names(47))
  {
    NamesAre(47);
    hide Names, S.Poison;
    assert S.Enumerates(order(1, Names(47)), Names(47));
    NewNamesArePoisoned(saved, Names(47), order(1, Names(47)));
  }

  lemma NewNamesArePoisoned(saved: map<string, string>, n: set<string>, q: seq<string>)
    requires S.Enumerates(q, n) && 0 < |n| <= MAX_TOKENS && "" !in n
    ensures S.Poison(S.Tracked(saved, {}), q, {}) == S.Tracked(saved, n)
  {
    hide S.Poison, PO.Loose, PO.Distinct;
    PO.EnumerationIsDistinct(q, n);
    PO.LooseOf(q, n, {});
    assert n - {} == n && {} + n == n && n * {} == {};
    hide S.Enumerates;
    PO.SettledOutcome(saved, {}, q, {});
  }

  /** The third line is not settled. */
  lemma LastIsUnsettled()
    ensures !PO.Settled(Names(47), LastNames() - {}) && Names(47) + LastNames() == Names(48) && "@M" !in Names(48)
  {
    NamesAre(47);
    NamesAre(48);
    assert Name(1) in Names(47) && Name(1) in (LastNames() - {}) * Names(47);
    assert Names(47) + LastNames() == Names(48);
    assert Names(47) + (LastNames() - {}) == Names(48);
    assert |Name(48)| == 49 && |Name(1)| == 2;
  }

  // -------------------------------------------------------- the whole dump

  lemma FourParts(a: string, b: string, c: string, p: string)
    ensures var t := a + b + c + p;
            var (i, j, k) := (|a|, |a| + |b|, |a| + |b| + |c|);
            && |t| == k + |p| && t[0..0 + i] == a && t[i..i + |b|] == b && t[j..j + |c|] == c && t[k..] == p
  {
    var t := a + b + c + p;
    assert t[0..|a|] == a;
  }

  /** Where the lines of the dump start. */
  function At(n: nat): nat {
    if n == 0 then 0
    else if n == 1 then |Line(SAVING)|
    else if n == 2 then |Line(SAVING)| + |Line(OPENING)|
    else |Line(SAVING)| + |Line(OPENING)| + |Line(AGAIN)|
  }

  lemma Parts()
    ensures At(3) <= |Dump()| && At(1) == At(0) + |Line(SAVING)| && At(2) == At(1) + |Line(OPENING)| && At(3) == At(2) + |Line(AGAIN)|
    ensures Dump()[At(0)..At(1)] == Line(SAVING) && Dump()[At(1)..At(2)] == Line(OPENING)
    ensures Dump()[At(2)..At(3)] == Line(AGAIN) && Dump()[At(3)..] == FM.Putting(SQL_MODE, "@M")
  {
    hide Line, FM.Putting, SAVING, OPENING, AGAIN;
    FourParts(Line(SAVING), Line(OPENING), Line(AGAIN), FM.Putting(SQL_MODE, "@M"));
  }

  function Kept(d: string, n: nat, poisoned: set<string>): S.Stmt {
    S.Fresh(d, S.Tracked(SavedMode(), poisoned), n)
  }

  /** The first line saves sql_mode. */
  lemma FirstLine(order: S.Order, d: string) returns (v: Scan, n: nat)
    requires S.IsOrder(order)
    ensures At(1) <= |Dump()| && R.After(order, Dump(), 0, Begin(d), n) == Some((At(1), v)) && T.AtLine(v) && v.stmt == Kept(d, 1, {})
  {
    hide SAVING, OPENING, AGAIN, FM.Putting, Dump, T.Written, T.AtLine, IsSetLine, Checks, R.After, Begin, S.Poison, S.IsOrder, LexStep, Prelude, Line,
         Valid, SavedMode;
    Parts();
    StartsAtLine(d);
    SavingIsLine();
    var s := Begin(d);
    SavingChecks(s.stmt);
    FM.OrderOfOne(order, "@M");
    FM.PoisonsNothing(S.Tracked(SavedMode(), {}), order(0, {"@M"}), {"@M"});
    BeginIsValid(d);
    LineLength(SAVING);
    var u, size;
    u, v, size := SetLine(order, Dump(), 0, s, SAVING, {"@M"}, S.Tracked(SavedMode(), {}), {"@M"});
    n := 3 + |T.Written(SAVING)|;
  }

  lemma LineLength(ts: seq<Token>)
    ensures |Line(ts)| == |T.Written(ts)| + 2
  {
  }

  lemma StartsAtLine(d: string)
    ensures var s := Begin(d); T.AtLine(s) && s.stmt == S.Fresh(d, S.Tracked(map[], {}), 0)
  {
    T.StartsIdle(d);
  }

  /** The second leaves the 47 names open. */
  lemma SecondLine(order: S.Order, d: string) returns (v: Scan, n: nat)
    requires S.IsOrder(order)
    ensures At(2) <= |Dump()| && R.After(order, Dump(), 0, Begin(d), n) == Some((At(2), v)) && T.AtLine(v) && v.stmt == Kept(d, 2, Names(47))
  {
    hide SAVING, OPENING, AGAIN, FM.Putting, Dump, T.Written, T.AtLine, IsSetLine, Checks, R.After, Begin, S.Poison, S.IsOrder, LexStep, Prelude, Line,
         Names, Valid;
    var s, m := FirstLine(order, d);
    Parts();
    OpeningChecks(s.stmt);
    OpensAll(order, SavedMode());
    BeginIsValid(d);
    LineLength(OPENING);
    var u, size;
    u, v, size := SetLine(order, Dump(), At(1), s, OPENING, Names(47), S.Tracked(SavedMode(), {}), {});
    R.AfterAdds(order, Dump(), 0, Begin(d), m, 3 + |T.Written(OPENING)|);
    n := m + (3 + |T.Written(OPENING)|);
  }

  lemma OpeningChecks(st: S.Stmt)
    requires st.varRefs == {}
    ensures IsSetLine(OPENING) && Checks(st, OPENING, Names(47), st.vars, {})
  {
    hide T.Written, IsSetLine, Checks, SR.RefersAll, IsMentioned, T.Writable, NameTokens, Names;
    NamesAreMentioned(47);
    MentionIsLine(NameTokens(47));
    NamesRefer(st, 47);
    MentionChecks(st, NameTokens(47), Names(47));
  }

  lemma AgainChecks(st: S.Stmt)
    requires st.varRefs == {}
    ensures IsSetLine(AGAIN) && AGAIN != [] && AGAIN[0] == Word("SET") && Checks(st, AGAIN, LastNames(), st.vars, {})
  {
    hide T.Written, IsSetLine, Checks, SR.RefersAll, IsMentioned, T.Writable, LAST_TOKENS, LastNames;
    LastAreMentioned();
    MentionIsLine(LAST_TOKENS);
    LastRefer(st);
    MentionChecks(st, LAST_TOKENS, LastNames());
  }

  lemma BeginIsValid(d: string)
    ensures Valid(Begin(d))
  {
  }

  /** The third brings the poisoned names to 48 and mentions one of them. */
  lemma ThirdLine(order: S.Order, d: string) returns (u: Scan, v: Scan, n: nat, k: nat)
    requires S.IsOrder(order)
    requires S.Poison(S.Tracked(SavedMode(), Names(47)), order(2, LastNames()), {}) == S.Tracked(SavedMode(), Names(48))
    ensures At(3) <= |Dump()| && k + 2 == At(3) && R.After(order, Dump(), 0, Begin(d), n) == Some((k, u)) && Valid(u)
    ensures LexStep(Dump(), k, u.lex) == Some(LexOut(k + 1, T.CALM, EndStatement)) && Dump()[k] == ';' && Prelude(u, ';') == Some(u)
    ensures !OV.EndSettled(u.stmt) && R.After(order, Dump(), k, u, 2) == Some((At(3), v))
    ensures T.AtLine(v) && v.stmt == Kept(d, 3, Names(48))
  {
    hide SAVING, OPENING, AGAIN, FM.Putting, Dump, T.Written, T.AtLine, IsSetLine, Checks, R.After, Begin, S.Poison, S.IsOrder, LexStep, Prelude,
         Line, Names, LastNames, OV.EndSettled, PO.Settled, Valid;
    var s, m := SecondLine(order, d);
    Parts();
    AgainChecks(s.stmt);
    LastIsUnsettled();
    BeginIsValid(d);
    LineLength(AGAIN);
    var size;
    u, v, size := SetLine(order, Dump(), At(2), s, AGAIN, LastNames(), S.Tracked(SavedMode(), Names(47)), {});
    HeldEnds(order, s.stmt, AGAIN, LastNames(), size, S.Tracked(SavedMode(), Names(47)), {});
    R.AfterAdds(order, Dump(), 0, Begin(d), m, 1 + |T.Written(AGAIN)|);
    n := m + (1 + |T.Written(AGAIN)|);
    k := At(2) + |T.Written(AGAIN)|;
  }

  lemma {:induction false} DecidesLater(order: S.Order, text: string, i: nat, s: Scan, n: nat)
    requires i <= |text| && Valid(s) && R.After(order, text, i, s, n).Some?
    requires var (j, t) := R.After(order, text, i, s, n).value; OV.Deciding(order, text, j, t)
    ensures OV.Deciding(order, text, i, s)
    decreases n
  {
    hide Step, R.After, OV.Unsettled, G.AnyNeedsTrust, Log;
    R.AfterFirst(order, text, i, s, n);
    if n > 0 {
      var x := Step(order, text, i, s).value;
      DecidesLater(order, text, x.0, x.1, n - 1);
    }
  }

  lemma IsPaused(v: Scan)
    requires T.AtLine(v) && v.stmt == S.Fresh(v.stmt.database, v.stmt.vars, v.stmt.count)
    ensures FM.Paused(v) && Valid(v)
  {
  }

  lemma StillTrusted(d: string, n: nat)
    ensures Kept(d, n, Names(48)).vars.Trusted("@M", SQL_MODE)
  {
    LastIsUnsettled();
    hide Names;
  }

  lemma PuttingNeedsTrust(e: Ended)
    requires e.tokens == FM.RestoreTokens(SQL_MODE, "@M")
    ensures G.AnyNeedsTrust([e])
  {
    FM.MIsSpeakable();
    hide Speakable, FM.RestoreTokens, SplitAssignments, PutBack;
    FM.RestorePutsBack(SQL_MODE, "@M", {});
    assert G.NeedsTrust(e.tokens) && [e][0] == e;
  }

  /** The dump is accepted in such an order, and what it decides at its third line matters later. */
  lemma DumpIsAccepted(order: S.Order, d: string)
    requires S.IsOrder(order)
    requires S.Poison(S.Tracked(SavedMode(), Names(47)), order(2, LastNames()), {}) == S.Tracked(SavedMode(), Names(48))
    ensures Accepts(order, Dump(), d) && OV.Deciding(order, Dump(), 0, Begin(d))
  {
    var u, v, n, k := ThirdLine(order, d);
    Parts();
    IsPaused(v);
    StillTrusted(d, 3);
    FM.MIsSpeakable();
    BeginIsValid(d);
    hide Dump, Names, LastNames, T.AtLine, R.After, Begin, S.Poison, S.IsOrder, LexStep, Prelude, OV.EndSettled, Step, Run, Log, Speakable, FM.Paused,
         FM.Putting, Valid, Kept, G.AnyNeedsTrust, FM.RestoreTokens, OV.Deciding, StepMentions;
    R.AfterKeepsVerdict(order, Dump(), 0, Begin(d), n);
    R.AfterKeepsVerdict(order, Dump(), k, u, 2);
    R.AfterFirst(order, Dump(), k, u, 2);
    var (j, t) := Step(order, Dump(), k, u).value;
    var (log, left) := Logged(order, Dump(), j, t, {}, 1);
    LogSplits(order, Dump(), j, t, {}, 1);
    var e := FM.PuttingIsAccepted(order, Dump(), At(3), v, SQL_MODE, "@M", left);
    PuttingNeedsTrust(e);
    TrustAtLast(log, [e]);
    Decides(order, Dump(), k, u);
    DecidesLater(order, Dump(), 0, Begin(d), n);
  }

  lemma TrustAtLast(a: seq<Ended>, b: seq<Ended>)
    requires G.AnyNeedsTrust(b)
    ensures G.AnyNeedsTrust(a + b)
  {
    hide G.NeedsTrust;
    var k :| 0 <= k < |b| && G.NeedsTrust(b[k].tokens);
    assert (a + b)[|a| + k] == b[k];
  }

  lemma Decides(order: S.Order, text: string, k: nat, u: Scan)
    requires k < |text| && Valid(u) && Step(order, text, k, u).Some? && Prelude(u, text[k]) == Some(u) && !OV.EndSettled(u.stmt)
    requires LexStep(text, k, u.lex).Some? && LexStep(text, k, u.lex).value.event.EndStatement?
    requires var (j, t) := Step(order, text, k, u).value; G.AnyNeedsTrust(Log(order, text, j, t, {}))
    ensures OV.Deciding(order, text, k, u)
  {
    hide LexStep, Prelude, OV.EndSettled, Step, G.AnyNeedsTrust, Log;
  }

  // ------------------------------------------------------------ some order

  ghost function Listed(s: set<string>): (q: seq<string>)
    ensures S.Enumerates(q, s)
  {
    assert exists q :: S.Enumerates(q, s) by {
      var q := PO.SomeOrder(s);
    }
    var q :| S.Enumerates(q, s);
    q
  }

  lemma SomeOrderExists() returns (order: S.Order)
    ensures S.IsOrder(order)
  {
    hide S.Enumerates;
    order := (n: nat, s: set<string>) => Listed(s);
    assert forall n: nat, s: set<string> :: order(n, s) == Listed(s);
  }

  /** Main result: for every database the dump is accepted in one order and refused in another. */
  lemma OrderDecidesDump(d: string)
    ensures exists a: S.Order, b: S.Order :: S.IsOrder(a) && S.IsOrder(b) && Accepts(a, Dump(), d) && !Accepts(b, Dump(), d)
  {
    LastIsUnsettled();
    hide Dump, Names, LastNames, S.Poison, S.IsOrder, OV.Deciding, PO.Settled, S.Enumerates, Accepts, Begin;
    var base := SomeOrderExists();
    OV.UnsettledIsNotFull(Names(47), LastNames() - {});
    var q := PO.OldFirst(SavedMode(), Names(47), LastNames(), {});
    assert LastNames() - {} == LastNames();
    OV.RedirectedIsOrder(base, 2, LastNames(), q);
    var a := OV.Redirected(base, 2, LastNames(), q);
    assert a(2, LastNames()) == q;
    DumpIsAccepted(a, d);
    OV.VerdictIsOrderFree(a, Dump(), d);
    var b: S.Order :| S.IsOrder(b) && !Accepts(b, Dump(), d);
  }
}
