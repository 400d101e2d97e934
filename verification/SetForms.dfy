/** The SET statements of an accepted dump, assignment by assignment.

    A SET statement is cut at its commas outside parentheses. What an assignment may give sql_mode, the
    client character set and user variables is said here in the words of the statement. */
module SetForms {
  import opened Text
  import opened SqlChecks
  import S = Statements
  import opened T = StatementTokens
  import F = InsertFeeding
  import opened LineStarts
  import opened InsertHeads
  import M = ReadingModes
  import SR = StatementReading
  import IB = InsertBodies
  import SF = StatementForms
  import SFr = StatementFrames
  import L = DumpLexer
  import opened Sentences

  // -------------------------------------------------------------- the law

  /** How many parentheses are open before t[i], behind the word SET. */
  function Depth(t: seq<Token>, i: nat): int
    requires 1 <= i <= |t|
  {
    if i == 1 then 0
    else Depth(t, i - 1) + (if t[i - 1] == Token('p', "(") then 1 else if t[i - 1] == Token('p', ")") then -1 else 0)
  }

  /** The comma at `i` stands between assignments. */
  predicate Cuts(t: seq<Token>, i: nat) {
    1 <= i < |t| && t[i] == Token('p', ",") && Depth(t, i) == 0
  }

  predicate IsAssignment(t: seq<Token>, b: nat, e: nat) {
    && 1 <= b <= e <= |t| && (b == 1 || Cuts(t, b - 1)) && (e == |t| || Cuts(t, e))
    && forall i :: b <= i < e ==> !Cuts(t, i)
  }

  /** The `=` of an assignment. */
  predicate EqualsAt(a: seq<Token>, eq: nat) {
    eq < |a| && a[eq] == Token('p', "=") && forall i :: 0 <= i < eq ==> a[i] != Token('p', "=")
  }

  predicate IsScope(t: Token) {
    IsWord(t, "GLOBAL") || IsWord(t, "SESSION") || IsWord(t, "LOCAL") || IsWord(t, "PERSIST") || IsWord(t, "PERSIST_ONLY")
  }

  /** The name the tokens spell, words of scope left out. */
  function NameText(ts: seq<Token>): string {
    if ts == [] then "" else (if IsScope(ts[0]) then "" else ts[0].text) + NameText(ts[1..])
  }

  /** The session's system variable `name`, with or without a scope of the session. */
  predicate NamesVariable(w: string, name: string) {
    Spells(w, name) || Spells(w, "@@" + name) || Spells(w, "@@SESSION." + name) || Spells(w, "@@LOCAL." + name)
  }

  predicate IsUserVariable(w: string) {
    w != "" && w[0] == '@' && (|w| == 1 || w[1] != '@')
  }

  /** One quoted list of modes that leave the reading alone. */
  ghost predicate IsPlainModes(v: seq<Token>) {
    |v| == 1 && (v[0].kind == '\'' || v[0].kind == '"') && '\\' !in v[0].text && M.ReadsPlainly(v[0].text)
  }

  /** A character set by its name, in which a backslash is a backslash. */
  predicate IsPlainCharset(t: Token) {
    && (t.kind == 'w' || t.kind == '\'' || t.kind == '"') && t.text != "" && !Spells(t.text, "DEFAULT")
    && ('a' <= t.text[0] <= 'z' || 'A' <= t.text[0] <= 'Z')
    && (forall i :: 0 <= i < |t.text| ==> 'a' <= t.text[i] <= 'z' || 'A' <= t.text[i] <= 'Z' || '0' <= t.text[i] <= '9' || t.text[i] == '_')
    && !M.HidesBackslash(t.text)
  }

  /** One system variable of the session, with or without its scope. */
  ghost predicate IsSystemVariable(v: seq<Token>) {
    |v| == 1 && v[0].kind == 'w' && exists n: string ::
      n != "" && '.' !in n && '@' !in n && (Spells(v[0].text, "@@" + n) || Spells(v[0].text, "@@SESSION." + n) || Spells(v[0].text, "@@LOCAL." + n))
  }

  predicate PutsUserVariable(v: seq<Token>) {
    |v| == 1 && v[0].kind == 'w' && IsUserVariable(v[0].text)
  }

  /** What an assignment of a SET statement may be. */
  ghost predicate MayAssign(a: seq<Token>) {
    if a == [] then true
    else if IsWord(a[0], "NAMES") || IsWord(a[0], "CHARSET") then |a| > 1 && IsPlainCharset(a[1])
    else if IsWord(a[0], "CHARACTER") then |a| > 2 && IsPlainCharset(a[2])
    else
      && (forall eq: nat :: EqualsAt(a, eq) ==> MayGive(NameText(a[..eq]), a[eq + 1..]))
      && ((forall eq: nat :: !EqualsAt(a, eq)) ==>
            !NamesVariable(NameText(a), "SQL_MODE") && !NamesVariable(NameText(a), "CHARACTER_SET_CLIENT") && !IsUserVariable(NameText(a)))
  }

  /** What may be given to what is called `w`. */
  ghost predicate MayGive(w: string, v: seq<Token>) {
    if IsUserVariable(w) then IsSystemVariable(v)
    else
      && (NamesVariable(w, "SQL_MODE") ==> PutsUserVariable(v) || IsPlainModes(v))
      && (NamesVariable(w, "CHARACTER_SET_CLIENT") ==> PutsUserVariable(v) || (|v| == 1 && IsPlainCharset(v[0])))
  }

  /** A SET statement. */
  ghost predicate MaySet(t: seq<Token>)
    requires t != []
  {
    && (|t| > 1 ==> !IsWord(t[1], "STATEMENT"))
    && (forall i :: 1 <= i < |t| && t[i].kind != 'p' ==> !M.HidesBackslash(t[i].text))
    && (forall b: nat, e: nat :: IsAssignment(t, b, e) ==> MayAssign(t[b..e]))
  }

  // ------------------------------------------------------------ the parts

  lemma SplitNext(t: seq<Token>, i: nat, s: nat)
    requires 1 <= s <= i < |t|
    ensures SplitAssignments(t[i..], Depth(t, i), t[s..i]) ==
            if Cuts(t, i) then [t[s..i]] + SplitAssignments(t[i + 1..], Depth(t, i + 1), [])
            else SplitAssignments(t[i + 1..], Depth(t, i + 1), t[s..i + 1])
  {
    var u := t[i..];
    assert u[0] == t[i] && u[1..] == t[i + 1..] && t[s..i + 1] == t[s..i] + [u[0]];
    assert t[i] == Token(t[i].kind, t[i].text);
  }

  /** Where an assignment may lie. */
  lemma PartStarts(t: seq<Token>, i: nat, s: nat, b: nat, e: nat)
    requires 1 <= s <= i <= |t| && (forall j :: s <= j < i ==> !Cuts(t, j)) && s <= b && IsAssignment(t, b, e)
    ensures b > i || b == s
    ensures b == s && (i == |t| || Cuts(t, i)) ==> e == i
  {
    hide Depth;
    if b == s {
      assert e < i ==> !Cuts(t, e);
    } else {
      assert Cuts(t, b - 1);
    }
  }

  lemma FirstPart(t: seq<Token>, i: nat, s: nat)
    requires 1 <= s <= i <= |t| && (i == |t| || Cuts(t, i))
    ensures SplitAssignments(t[i..], Depth(t, i), t[s..i])[0] == t[s..i]
  {
    if i < |t| {
      SplitNext(t, i, s);
      hide SplitAssignments, Depth, Cuts;
    }
  }

  /** Each assignment is one of the parts. */
  lemma {:induction false} PartIs(t: seq<Token>, i: nat, s: nat, b: nat, e: nat) returns (k: nat)
    requires 1 <= s <= i <= |t| && (forall j :: s <= j < i ==> !Cuts(t, j))
    requires s <= b && IsAssignment(t, b, e)
    ensures k < |SplitAssignments(t[i..], Depth(t, i), t[s..i])| && SplitAssignments(t[i..], Depth(t, i), t[s..i])[k] == t[b..e]
    decreases |t| - i
  {
    PartStarts(t, i, s, b, e);
    hide SplitAssignments, Depth, Cuts, IsAssignment;
    if b == s && (i == |t| || Cuts(t, i)) {
      FirstPart(t, i, s);
      k := 0;
    } else if Cuts(t, i) {
      SplitNext(t, i, s);
      assert t[i + 1..i + 1] == [];
      var m := PartIs(t, i + 1, i + 1, b, e);
      k := m + 1;
    } else {
      SplitNext(t, i, s);
      k := PartIs(t, i + 1, s, b, e);
    }
  }

  lemma {:induction false} PartIsChecked(st: S.Stmt, parts: seq<seq<Token>>, k: nat) returns (s: S.Stmt)
    requires S.CheckAssignments(st, parts).Some? && k < |parts|
    ensures S.CheckAssignment(s, parts[k]).Some?
    decreases k
  {
    hide S.CheckAssignment;
    if k == 0 {
      s := st;
    } else {
      s := PartIsChecked(S.CheckAssignment(st, parts[0]).value, parts[1..], k - 1);
    }
  }

  // ------------------------------------------------------------ the words

  lemma ScopeIs(t: Token)
    ensures IsScopeWord(t) == IsScope(t)
  {
    hide IsWord, Token.Is;
    IsIsWord(t, "GLOBAL");
    IsIsWord(t, "SESSION");
    IsIsWord(t, "LOCAL");
    IsIsWord(t, "PERSIST");
    IsIsWord(t, "PERSIST_ONLY");
  }

  lemma UpperJoins(a: string, b: string)
    ensures Upper(a + b) == Upper(a) + Upper(b)
  {
  }

  lemma {:induction false} JoinedIs(ts: seq<Token>)
    ensures JoinName(ts) == Upper(NameText(ts))
    decreases |ts|
  {
    hide IsScopeWord, IsScope, Upper;
    if ts == [] {
      assert Upper("") == "";
    } else {
      ScopeIs(ts[0]);
      JoinedIs(ts[1..]);
      UpperJoins(ts[0].text, NameText(ts[1..]));
      assert "" + JoinName(ts[1..]) == JoinName(ts[1..]) && "" + NameText(ts[1..]) == NameText(ts[1..]);
    }
  }

  /** Names without a scope in them. */
  predicate IsPlainName(n: string) {
    |n| > 1 && n[0] != '@' && n[0] != 'L' && n[1] != 'E'
  }

  lemma PlainTrims(n: string)
    requires IsPlainName(n)
    ensures TrimScope(n) == n && TrimScope("@@" + n) == n
  {
    var s := "@@" + n;
    assert s[2..] == n && s[2] == n[0] && s[3] == n[1];
    assert "@@SESSION."[3] == 'E' && "@@LOCAL."[2] == 'L' && "@@"[0] == '@' && "@@SESSION."[0] == '@' && "@@LOCAL."[0] == '@';
  }

  lemma SessionTrims(n: string)
    ensures TrimScope("@@SESSION." + n) == n
  {
    var s := "@@SESSION." + n;
    assert HasPrefix(s, "@@SESSION.") && s[10..] == n;
  }

  lemma LocalTrims(n: string)
    ensures TrimScope("@@LOCAL." + n) == n
  {
    var s := "@@LOCAL." + n;
    assert s[2] == 'L' && "@@SESSION."[2] == 'S';
    assert HasPrefix(s, "@@LOCAL.") && s[8..] == n;
  }

  lemma VariableIs(w: string, n: string)
    requires NamesVariable(w, n) && IsPlainName(n)
    ensures TrimScope(Upper(w)) == n
  {
    hide TrimScope, Spells, Upper;
    PlainTrims(n);
    SessionTrims(n);
    LocalTrims(n);
    SpellsUpper(w, n);
    SpellsUpper(w, "@@" + n);
    SpellsUpper(w, "@@SESSION." + n);
    SpellsUpper(w, "@@LOCAL." + n);
  }

  lemma UserVariableIs(w: string)
    requires IsUserVariable(w)
    ensures TrimScope(Upper(w)) == Upper(w) && IsUserVar(Upper(w)) && HasPrefix(Upper(w), "@") && !IsLexical(Upper(w))
    ensures IsUserVar(w)
  {
    assert Upper(w)[0] == '@';
    assert |w| > 1 ==> Upper(w)[1] == UpperChar(w[1]) != '@';
  }

  lemma UserVarIs(w: string)
    ensures IsUserVar(w) <==> IsUserVariable(w)
  {
    if IsUserVar(w) {
      assert w[0] == '@';
      assert |w| > 1 ==> w[..2] == [w[0], w[1]];
    }
  }

  lemma PlainCharset(t: Token)
    requires ClientCharsetOk(t)
    ensures IsPlainCharset(t)
  {
    SpellsUpper(t.text, "DEFAULT");
    M.UnsafeCharsetIs(t.text);
    hide Upper, Spells, M.HidesBackslash;
    assert IsLetter(t.text[0]);
  }

  lemma PlainModes(v: seq<Token>)
    requires SQLModeOk(v)
    ensures IsPlainModes(v)
  {
    M.SafeListReadsPlainly(v[0].text);
    hide SafeModeList, M.ReadsPlainly;
  }

  lemma SystemVariable(v: seq<Token>)
    requires SavedFrom(v).Some?
    ensures IsSystemVariable(v)
  {
    var (n, w) := (SavedFrom(v).value, v[0].text);
    SpellsUpper(w, "@@" + n);
    SpellsUpper(w, "@@SESSION." + n);
    SpellsUpper(w, "@@LOCAL." + n);
    var u := Upper(w);
    assert u[0] == '@' && u[1] == '@';
    if HasPrefix(u, "@@SESSION.") {
      assert u == "@@SESSION." + u[10..];
    } else if HasPrefix(u, "@@LOCAL.") {
      assert u == "@@LOCAL." + u[8..];
    } else {
      assert u == "@@" + u[2..];
    }
    hide Upper, Spells;
  }

  lemma {:induction false} EqualsIs(a: seq<Token>)
    ensures EqualsIndex(a) < |a| ==> EqualsAt(a, EqualsIndex(a))
    ensures EqualsIndex(a) == |a| ==> forall i :: 0 <= i < |a| ==> a[i] != Token('p', "=")
    decreases |a|
  {
    if a != [] && !a[0].IsPunct("=") {
      EqualsIs(a[1..]);
      var eq := EqualsIndex(a);
      assert forall i :: 1 <= i < |a| ==> a[i] == a[1..][i - 1];
    } else if a != [] {
      assert a[0] == Token(a[0].kind, a[0].text);
    }
  }

  lemma NamesIs(t: Token)
    ensures IsNames(t) == (IsWord(t, "NAMES") || IsWord(t, "CHARSET") || IsWord(t, "CHARACTER"))
    ensures t.Is("CHARACTER") == IsWord(t, "CHARACTER")
    ensures IsWord(t, "CHARACTER") ==> !IsWord(t, "NAMES") && !IsWord(t, "CHARSET")
  {
    hide Token.Is;
    IsIsWord(t, "NAMES");
    IsIsWord(t, "CHARSET");
    IsIsWord(t, "CHARACTER");
  }

  // -------------------------------------------------------- one assignment

  lemma LexicalNames()
    ensures IsPlainName("SQL_MODE") && IsPlainName("CHARACTER_SET_CLIENT")
  {
  }

  lemma Given(st: S.Stmt, a: seq<Token>, eq: nat)
    requires a != [] && !IsNames(a[0]) && S.CheckAssignment(st, a).Some? && EqualsAt(a, eq)
    ensures MayGive(NameText(a[..eq]), a[eq + 1..])
  {
    EqualsIs(a);
    assert eq == EqualsIndex(a);
    var (w, v) := (NameText(a[..eq]), a[eq + 1..]);
    JoinedIs(a[..eq]);
    hide EqualsIndex, JoinName, TrimScope, IsNames, SQLModeOk, ClientCharsetOk, SavedFrom, NamesVariable, IsSystemVariable, IsPlainModes, IsPlainCharset,
         IsUserVar, IsUserVariable, Upper, EqualsAt, NameText;
    LexicalNames();
    if |v| == 1 {
      UserVarIs(v[0].text);
    }
    if IsUserVariable(w) {
      UserVariableIs(w);
      SystemVariable(v);
    } else {
      GivenLexical(st, a, w, v);
    }
  }

  lemma GivenLexical(st: S.Stmt, a: seq<Token>, w: string, v: seq<Token>)
    requires a != [] && !IsNames(a[0]) && S.CheckAssignment(st, a).Some? && EqualsIndex(a) < |a|
    requires Target(a) == TrimScope(Upper(w)) && v == a[EqualsIndex(a) + 1..] && !IsUserVariable(w)
    ensures MayGive(w, v)
  {
    hide EqualsIndex, JoinName, TrimScope, IsNames, SQLModeOk, ClientCharsetOk, SavedFrom, NamesVariable, IsSystemVariable, IsPlainModes, IsPlainCharset,
         IsUserVariable, Upper, NameText, Target;
    LexicalNames();
    if |v| == 1 {
      UserVarIs(v[0].text);
    }
    if NamesVariable(w, "SQL_MODE") {
      VariableIs(w, "SQL_MODE");
      if SQLModeOk(v) {
        PlainModes(v);
      }
    }
    if NamesVariable(w, "CHARACTER_SET_CLIENT") {
      VariableIs(w, "CHARACTER_SET_CLIENT");
      if |v| == 1 && ClientCharsetOk(v[0]) {
        PlainCharset(v[0]);
      }
    }
  }

  lemma NotGiven(st: S.Stmt, a: seq<Token>)
    requires a != [] && !IsNames(a[0]) && S.CheckAssignment(st, a).Some? && forall eq: nat :: !EqualsAt(a, eq)
    ensures !NamesVariable(NameText(a), "SQL_MODE") && !NamesVariable(NameText(a), "CHARACTER_SET_CLIENT") && !IsUserVariable(NameText(a))
  {
    EqualsIs(a);
    assert !EqualsAt(a, EqualsIndex(a));
    assert EqualsIndex(a) == |a| && a[..|a|] == a;
    JoinedIs(a);
    LexicalNames();
    var w := NameText(a);
    hide EqualsIndex, JoinName, TrimScope, IsNames, SQLModeOk, ClientCharsetOk, SavedFrom, NamesVariable, IsUserVar, IsUserVariable, Upper, NameText, EqualsAt;
    if NamesVariable(w, "SQL_MODE") {
      VariableIs(w, "SQL_MODE");
    }
    if NamesVariable(w, "CHARACTER_SET_CLIENT") {
      VariableIs(w, "CHARACTER_SET_CLIENT");
    }
    if IsUserVariable(w) {
      UserVariableIs(w);
    }
  }

  lemma Assigned(st: S.Stmt, a: seq<Token>)
    requires S.CheckAssignment(st, a).Some?
    ensures MayAssign(a)
  {
    if a != [] {
      NamesIs(a[0]);
      hide IsWord, IsPlainCharset, MayGive, EqualsAt, NameText, NamesVariable, IsUserVariable, ClientCharsetOk, Token.Is;
      if IsNames(a[0]) {
        NamesChecked(st, a);
        PlainCharset(a[NamesIndex(a)]);
      } else {
        forall eq: nat | EqualsAt(a, eq) ensures MayGive(NameText(a[..eq]), a[eq + 1..]) {
          Given(st, a, eq);
        }
        if forall eq: nat :: !EqualsAt(a, eq) {
          NotGiven(st, a);
        }
      }
    }
  }

  lemma NamesChecked(st: S.Stmt, a: seq<Token>)
    requires a != [] && IsNames(a[0]) && S.CheckAssignment(st, a).Some?
    ensures NamesIndex(a) < |a| && ClientCharsetOk(a[NamesIndex(a)])
  {
    hide IsNames, ClientCharsetOk, NamesIndex;
  }

  // ------------------------------------------------------------ whole dumps

  lemma SetChecked(st: S.Stmt, t: seq<Token>)
    requires t != [] && S.CheckSet(st, t[1..]).Some?
    ensures MaySet(t)
  {
    hide S.CheckAssignments, SplitAssignments, S.NamesUnsafeCharset, IsWord, MayAssign, Cuts, Depth, M.HidesBackslash, Token.Is;
    if |t| > 1 {
      IsIsWord(t[1], "STATEMENT");
    }
    forall i | 1 <= i < |t| && t[i].kind != 'p' ensures !M.HidesBackslash(t[i].text) {
      NoUnsafe(t, i);
    }
    var parts := SplitAssignments(t[1..], 0, []);
    forall b: nat, e: nat | IsAssignment(t, b, e) ensures MayAssign(t[b..e]) {
      assert t[1..1] == [];
      StartsBehindSet(t, b, e);
      var k := PartIs(t, 1, 1, b, e);
      var s := PartIsChecked(st.(setVars := {}), parts, k);
      Assigned(s, t[b..e]);
    }
  }

  lemma StartsBehindSet(t: seq<Token>, b: nat, e: nat)
    requires IsAssignment(t, b, e)
    ensures 1 <= b <= e <= |t| && Depth(t, 1) == 0
  {
  }

  lemma NoUnsafe(t: seq<Token>, i: nat)
    requires 1 <= i < |t| && t[i].kind != 'p' && !S.NamesUnsafeCharset(t[1..])
    ensures !M.HidesBackslash(t[i].text)
  {
    assert t[1..][i - 1] == t[i];
    M.UnsafeCharsetIs(t[i].text);
    hide M.HidesBackslash, S.V.UnsafeCharset;
  }

  lemma SetIsFinal(x: S.Stmt, t: seq<Token>)
    requires !x.accepted && x.tokens == t && t != [] && IsWord(t[0], "SET") && S.Closing(x).Some?
    ensures S.CheckSet(x, t[1..]).Some?
  {
    IsIsWord(t[0], "SET");
    hide IsWord, S.CheckSet, S.V.End;
    SFr.FinalSet(x);
  }

  /** SET is never allowed before its end. */
  lemma SetWaits(database: string, t: seq<Token>, tail: S.Tail, values: Option<S.V.Values>)
    requires SR.Lets(database, t, tail, values)
    ensures t != [] && !IsWord(t[0], "SET")
  {
    hide SR.Waits;
    IsIsWord(t[0], "SET");
    hide S.CheckInsert, S.CheckDDL, S.CheckLock, S.CheckSet, IsWord;
  }

  lemma NoSet(t: Token)
    requires IsInsertVerb(t)
    ensures !IsWord(t, "SET")
  {
  }

  lemma OneSet(database: string, es: Shown)
    requires Ends(database, es) && TokensOf(es) != [] && IsWord(TokensOf(es)[0], "SET")
    ensures MaySet(TokensOf(es))
  {
    hide IB.Filling, S.Closing, SR.Lets, InQuote, ReadAll, IsInsertVerb, F.IsToken, S.CheckTails, IsWord, MaySet, SR.Waits, S.CheckSet;
    var x: S.Stmt :| x.database == database && S.Closing(x).Some? && IB.Kept(x, es) && (InQuote(es) == Some(false) || SR.Reads(x, ReadAll(es)));
    var t := ReadAll(es).done;
    assert TokensOf(es) == t;
    if SR.Waiting(x, ReadAll(es)) {
      SetIsFinal(x, t);
      SetChecked(x, t);
    } else if SR.Reads(x, ReadAll(es)) {
      var n: nat, tail :| SR.Passing(x, ReadAll(es), n, tail);
      SetWaits(x.database, t[..n], tail, None);
      assert false;
    } else {
      SF.FilledFirst(x, es);
      NoSet(t[0]);
      assert false;
    }
  }

  /** Main result: every SET statement of an accepted dump gives sql_mode, the client character set and
      user variables only what leaves the reading of quotes and backslashes alone, or what was saved. */
  lemma SetsAreHarmless(order: S.Order, text: string, database: string, k: nat)
    requires L.Accepts(order, text, database) && k < |Sentences.Sentences(text)|
    requires var t := TokensOf(Sentences.Sentences(text)[k]); t != [] && IsWord(t[0], "SET")
    ensures MaySet(TokensOf(Sentences.Sentences(text)[k]))
  {
    hide L.Accepts, Sentences.Sentences, Ends, TokensOf, IsWord, MaySet;
    SentencesEnd(order, text, database, k);
    OneSet(database, Sentences.Sentences(text)[k]);
  }
}
