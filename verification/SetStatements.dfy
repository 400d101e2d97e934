/** SET statements the checker lets through keep the session safe, whatever the open user variables
    become, unless they put one of them into sql_mode or the client character set. They put none
    back that the checker does not trust. */
module SetStatements {
  import opened Text
  import V = ValuesAutomaton
  import opened SqlChecks
  import opened Statements
  import opened SessionModel
  import M = ReadingModes

  /** The tracked variables agree with the session: a variable the checker trusts and that is not open
      holds a value that is safe for the system variable it was saved from. */
  ghost predicate Agrees(vars: Vars, dirty: set<string>, w: World) {
    && SafeWorld(w)
    && (vars.Tracked? ==>
          forall v: string :: v in vars.saved && v !in vars.poisoned && !IsOpen(v, dirty) ==> SafeValue(vars.saved[v], w.user(v)))
  }

  /** The checker trusts no variable that is open. */
  predicate Covers(vars: Vars, dirty: set<string>) {
    vars.Tracked? ==> "" !in dirty && dirty <= vars.poisoned
  }

  lemma ElapsingAgrees(vars: Vars, dirty: set<string>, w: World, u: World)
    requires Agrees(vars, dirty, w) && Elapses(dirty, w, u)
    ensures Agrees(vars, dirty, u)
  {
    hide SafeValue;
    forall n: string ensures SafeValue(n, u.sys(n)) {
      assert SafeValue(n, w.sys(n));
    }
  }

  /** The value of what the checker lets SET give a lexical variable is safe. */
  lemma LexicalValueIsSafe(st: Stmt, a: seq<Token>, dirty: set<string>, w: World, v: string)
    requires a != [] && CheckAssignment(st, a).Some? && Agrees(st.vars, dirty, w) && MayBe(Value(a), w, v)
    requires (IsNames(a[0]) || !IsUserVar(Target(a))) && !PutsOpen(a, dirty)
    ensures SafeValue(Assigned(a), v)
  {
    hide SafeModeList, M.ReadsPlainly, M.HidesBackslash, V.UnsafeCharset, Upper, IsNames, Target, IsUserVar, TrimScope;
    if IsNames(a[0]) {
      ClientCharsetIsPlain(a[NamesIndex(a)]);
    } else if IsLexical(Target(a)) {
      var rhs := a[EqualsIndex(a) + 1..];
      if |rhs| == 1 && rhs[0].kind == 'w' && IsUserVar(rhs[0].text) {
        TrustedValueIsSafe(st.vars, dirty, w, rhs[0], Target(a));
        UserVarIsNotPlain(rhs[0]);
      } else if Target(a) == SQL_MODE {
        ModeListIsPlain(rhs[0]);
      } else {
        ClientCharsetIsPlain(rhs[0]);
      }
    }
  }

  lemma ClientCharsetIsPlain(t: Token)
    requires ClientCharsetOk(t)
    ensures (PlainText(t) || PlainName(t)) && !M.HidesBackslash(t.text)
  {
    M.UnsafeCharsetIs(t.text);
    hide V.UnsafeCharset, M.HidesBackslash;
  }

  lemma ModeListIsPlain(t: Token)
    requires SQLModeOk([t])
    ensures M.ReadsPlainly(t.text) && PlainText(t)
  {
    hide SafeModeList, M.ReadsPlainly;
    M.SafeListReadsPlainly(t.text);
    ModeListHoldsNoQuote(t.text, t.kind);
  }

  // A list of safe modes holds no quotes, so its text is its value.

  /** The part of a split list that holds a byte of it. */
  lemma {:induction false} SplitKeepsByte(s: string, c: char, q: char) returns (k: nat)
    requires q in s && q != c
    ensures k < |Split(s, c)| && q in Split(s, c)[k]
  {
    hide IndexOf;
    var i := IndexOf(s, c);
    if i == |s| {
      k := 0;
    } else if q in s[..i] {
      k := 0;
    } else {
      RestHolds(s, i, q);
      k := SplitKeepsByte(s[i + 1..], c, q);
      k := k + 1;
    }
  }

  lemma RestHolds(s: string, i: nat, q: char)
    requires i < |s| && q in s && q !in s[..i] && q != s[i]
    ensures q in s[i + 1..]
  {
    assert s == s[..i] + [s[i]] + s[i + 1..];
  }

  lemma {:induction false} TrimLeftKeepsByte(s: string, q: char)
    requires q in s && !IsSpace(q)
    ensures q in TrimLeft(s)
  {
    if IsSpace(s[0]) {
      assert s == [s[0]] + s[1..];
      TrimLeftKeepsByte(s[1..], q);
    }
  }

  lemma {:induction false} TrimRightKeepsByte(s: string, q: char)
    requires q in s && !IsSpace(q)
    ensures q in TrimRight(s)
  {
    if IsSpace(s[|s| - 1]) {
      assert s == s[..|s| - 1] + [s[|s| - 1]];
      TrimRightKeepsByte(s[..|s| - 1], q);
    }
  }

  predicate IsModeByte(c: char) {
    'A' <= c <= 'Z' || c == '_'
  }

  lemma NoModeIsWord(m: string, i: nat)
    requires SafeNoMode(m) && i < |m|
    ensures IsModeByte(m[i])
  {
  }

  lemma StrictModeIsWord(m: string, i: nat)
    requires SafeStrictMode(m) && i < |m|
    ensures IsModeByte(m[i])
  {
    hide IsModeByte;
    if m in {"STRICT_ALL_TABLES", "STRICT_TRANS_TABLES", "TRADITIONAL"} {
      StrictIsWord(m, i);
    } else {
      ErrorOrTimeIsWord(m, i);
    }
  }

  lemma StrictIsWord(m: string, i: nat)
    requires m in {"STRICT_ALL_TABLES", "STRICT_TRANS_TABLES", "TRADITIONAL"} && i < |m|
    ensures IsModeByte(m[i])
  {
  }

  lemma ErrorOrTimeIsWord(m: string, i: nat)
    requires m in {"ALLOW_INVALID_DATES", "ERROR_FOR_DIVISION_BY_ZERO", "TIME_ROUND_FRACTIONAL", "TIME_TRUNCATE_FRACTIONAL"} && i < |m|
    ensures IsModeByte(m[i])
  {
  }

  lemma ReadingModeIsWord(m: string, i: nat)
    requires SafeReadingMode(m) && i < |m|
    ensures IsModeByte(m[i])
  {
    hide IsModeByte;
    if m in {"EMPTY_STRING_IS_NULL", "HIGH_NOT_PRECEDENCE", "IGNORE_BAD_TABLE_OPTIONS"} {
      NullOrNotIsWord(m, i);
    } else if m in {"IGNORE_SPACE", "ONLY_FULL_GROUP_BY", "PAD_CHAR_TO_FULL_LENGTH"} {
      SpaceOrPadIsWord(m, i);
    } else {
      PipesOrRealIsWord(m, i);
    }
  }

  lemma NullOrNotIsWord(m: string, i: nat)
    requires m in {"EMPTY_STRING_IS_NULL", "HIGH_NOT_PRECEDENCE", "IGNORE_BAD_TABLE_OPTIONS"} && i < |m|
    ensures IsModeByte(m[i])
  {
  }

  lemma SpaceOrPadIsWord(m: string, i: nat)
    requires m in {"IGNORE_SPACE", "ONLY_FULL_GROUP_BY", "PAD_CHAR_TO_FULL_LENGTH"} && i < |m|
    ensures IsModeByte(m[i])
  {
  }

  lemma PipesOrRealIsWord(m: string, i: nat)
    requires m in {"PIPES_AS_CONCAT", "REAL_AS_FLOAT", "SIMULTANEOUS_ASSIGNMENT"} && i < |m|
    ensures IsModeByte(m[i])
  {
  }

  lemma SafeModeIsWord(m: string, i: nat)
    requires SafeMode(m) && i < |m|
    ensures IsModeByte(m[i])
  {
    hide SafeNoMode, SafeStrictMode, SafeReadingMode, IsModeByte;
    if SafeNoMode(m) {
      NoModeIsWord(m, i);
    } else if SafeStrictMode(m) {
      StrictModeIsWord(m, i);
    } else {
      ReadingModeIsWord(m, i);
    }
  }

  lemma TrimKeepsByte(s: string, q: char)
    requires q in s && !IsSpace(q)
    ensures q in TrimSpace(s)
  {
    hide TrimLeft, TrimRight;
    TrimLeftKeepsByte(s, q);
    TrimRightKeepsByte(TrimLeft(s), q);
  }

  lemma SafeModeHoldsNoQuote(m: string, q: char)
    requires SafeMode(Upper(TrimSpace(m))) && (q == '\'' || q == '"')
    ensures q !in m
  {
    hide SafeMode, TrimSpace;
    if q in m {
      TrimKeepsByte(m, q);
      var i :| 0 <= i < |TrimSpace(m)| && TrimSpace(m)[i] == q;
      SafeModeIsWord(Upper(TrimSpace(m)), i);
    }
  }

  lemma ModeListHoldsNoQuote(s: string, q: char)
    requires SafeModeList(s) && (q == '\'' || q == '"')
    ensures q !in s
  {
    hide SafeMode, TrimSpace, Split, Upper;
    if q in s {
      var k := SplitKeepsByte(s, ',', q);
      SafeModeHoldsNoQuote(Split(s, ',')[k], q);
    }
  }

  lemma UserVarIsNotPlain(t: Token)
    requires t.kind == 'w' && IsUserVar(t.text)
    ensures !PlainText(t) && !PlainName(t) && SavedFrom([t]).None?
  {
  }

  lemma TrustedValueIsSafe(vars: Vars, dirty: set<string>, w: World, t: Token, name: string)
    requires Agrees(vars, dirty, w) && vars.Trusted(Upper(t.text), name) && IsLexical(name) && !IsOpen(Upper(t.text), dirty)
    ensures SafeValue(name, w.user(Upper(t.text)))
  {
    hide SafeValue;
  }

  // ------------------------------------------------------ one assignment

  lemma SavingAgrees(vars: Vars, dirty: set<string>, w: World, name: string, sysvar: string, v: string, z: World)
    requires Agrees(vars, dirty, w) && SameSys(w, z) && Puts(w.user, name, v, z.user) && SafeValue(sysvar, v)
    ensures Agrees(SaveVar(vars, name, sysvar), dirty, z)
  {
    hide SafeValue;
    SameSysIsSafe(w, z);
  }

  lemma SameSysIsSafe(w: World, z: World)
    requires SafeWorld(w) && SameSys(w, z)
    ensures SafeWorld(z)
  {
    forall n: string ensures SafeValue(n, z.sys(n)) {
      assert SafeValue(n, w.sys(n));
    }
  }

  lemma SettingAgrees(vars: Vars, dirty: set<string>, w: World, name: string, v: string, z: World)
    requires Agrees(vars, dirty, w) && SafeValue(name, v)
    requires (forall u: string :: w.user(u) == z.user(u)) && (SameSys(w, z) || Puts(w.sys, name, v, z.sys))
    ensures Agrees(vars, dirty, z)
  {
    hide SafeValue;
    forall n: string ensures SafeValue(n, z.sys(n)) {
      assert SafeValue(n, w.sys(n));
    }
  }

  /** A user variable is only ever given the value of a system variable. */
  lemma SavedValueIsSafe(rhs: seq<Token>, w: World, v: string)
    requires SafeWorld(w) && SavedFrom(rhs).Some? && MayBe(rhs, w, v)
    ensures SafeValue(SavedFrom(rhs).value, v)
  {
    hide SafeValue, Upper, TrimScope;
    assert rhs[0].text[0] == '@';
    var n := SavedFrom(rhs).value;
    assert SafeValue(n, w.sys(n));
  }

  lemma AssignmentAgrees(st: Stmt, a: seq<Token>, elsewhere: bool, dirty: set<string>, w: World, z: World)
    requires CheckAssignment(st, a).Some? && Agrees(st.vars, dirty, w) && Assigns(a, elsewhere, w, z) && !PutsOpen(a, dirty)
    ensures Agrees(CheckAssignment(st, a).value.vars, dirty, z)
  {
    AssignmentTracks(st, a);
    hide CheckAssignment, IsNames, Target, MayBe, Agrees, SafeValue, IsUserVar, TrackedName, PutsOpen;
    var vars := CheckAssignment(st, a).value.vars;
    if a == [] {
      EmptyAssignment(st.vars, dirty, w, z);
    } else {
      var v :| MayBe(Value(a), w, v) && Gives(a, elsewhere, w, v, z);
      if IsUserVar(Assigned(a)) && !IsNames(a[0]) {
        assert SafeWorld(w) by {
          AgreesIsSafe(st.vars, dirty, w);
        }
        SavedValueIsSafe(Value(a), w, v);
        SavingAgrees(st.vars, dirty, w, Target(a), SavedFrom(Value(a)).value, v, z);
      } else {
        LexicalValueIsSafe(st, a, dirty, w, v);
        SettingAgrees(st.vars, dirty, w, Assigned(a), v, z);
      }
    }
  }

  lemma AgreesIsSafe(vars: Vars, dirty: set<string>, w: World)
    requires Agrees(vars, dirty, w)
    ensures SafeWorld(w)
  {
  }

  lemma EmptyAssignment(vars: Vars, dirty: set<string>, w: World, z: World)
    requires Agrees(vars, dirty, w) && SameSys(w, z) && forall v: string :: w.user(v) == z.user(v)
    ensures Agrees(vars, dirty, z)
  {
    hide SafeValue;
    SameSysIsSafe(w, z);
  }

  lemma UserVarHasPrefix(name: string)
    ensures IsUserVar(name) ==> HasPrefix(name, "@")
  {
  }

  /** What the checker does to the tracked variables at one assignment. */
  lemma AssignmentTracks(st: Stmt, a: seq<Token>)
    requires CheckAssignment(st, a).Some?
    ensures var s := CheckAssignment(st, a).value;
            && s.setVars == st.setVars + TrackedName(a)
            && (if a != [] && !IsNames(a[0]) && IsUserVar(Target(a))
                then SavedFrom(Value(a)).Some? && s.vars == SaveVar(st.vars, Target(a), SavedFrom(Value(a)).value)
                else s.vars == st.vars)
  {
    hide IsNames, ClientCharsetOk, SQLModeOk, Target, SavedFrom, SaveVar, IsLexical, Upper;
    UserVarHasPrefix(Target(a));
  }

  /** A variable the checker lets SET put back is not open while its variables cover the open ones. */
  lemma AssignmentCovers(st: Stmt, a: seq<Token>, dirty: set<string>)
    requires CheckAssignment(st, a).Some? && Covers(st.vars, dirty)
    ensures !PutsOpen(a, dirty) && Covers(CheckAssignment(st, a).value.vars, dirty)
    ensures CheckAssignment(st, a).value.setVars == st.setVars + TrackedName(a)
  {
    AssignmentTracks(st, a);
    PutBackIsTrusted(st, a);
    hide CheckAssignment, IsNames, Target, IsUserVar, TrackedName, PutBack, SavedFrom;
  }

  lemma PutBackIsTrusted(st: Stmt, a: seq<Token>)
    requires CheckAssignment(st, a).Some?
    ensures PutBack(a).Some? ==> st.vars.Trusted(PutBack(a).value, Target(a))
  {
    hide IsNames, ClientCharsetOk, SQLModeOk, Target, SavedFrom, SaveVar, Upper, NamesIndex;
  }

  // ------------------------------------------------------ a whole statement

  lemma {:induction false} AssignmentsCover(st: Stmt, parts: seq<seq<Token>>, dirty: set<string>)
    requires CheckAssignments(st, parts).Some? && Covers(st.vars, dirty)
    ensures var s := CheckAssignments(st, parts).value; Covers(s.vars, dirty) && s.setVars == st.setVars + TrackedNames(parts)
    ensures !AnyPutsOpen(parts, dirty)
    decreases |parts|
  {
    hide CheckAssignment, TrackedName, PutsOpen, Covers;
    if parts != [] {
      AssignmentCovers(st, parts[0], dirty);
      AssignmentsCover(CheckAssignment(st, parts[0]).value, parts[1..], dirty);
      forall k | 0 <= k < |parts| ensures !PutsOpen(parts[k], dirty) {
        assert k > 0 ==> parts[1..][k - 1] == parts[k];
      }
    }
  }

  /** Every world a checked SET statement goes through is safe, and the tracked variables agree
      with the last, when it puts no open variable back. */
  lemma {:induction false} AssignmentsAgree(st: Stmt, parts: seq<seq<Token>>, elsewhere: bool, dirty: set<string>, w: World, ws: seq<World>)
    requires CheckAssignments(st, parts).Some? && Agrees(st.vars, dirty, w) && Performs(parts, elsewhere, dirty, w, ws)
    requires !AnyPutsOpen(parts, dirty)
    ensures Agrees(CheckAssignments(st, parts).value.vars, dirty, ws[|parts|])
    ensures forall k :: 0 <= k < |ws| ==> SafeWorld(ws[k])
    decreases |parts|
  {
    hide CheckAssignment, Agrees, SafeWorld, PutsOpen, Elapses, Assigns;
    ElapsingAgrees(st.vars, dirty, w, ws[0]);
    AgreesIsSafe(st.vars, dirty, ws[0]);
    if parts != [] {
      assert TimedAssigns(parts[0], elsewhere, dirty, ws[0], ws[1]);
      var u :| Elapses(dirty, ws[0], u) && Assigns(parts[0], elsewhere, u, ws[1]);
      ElapsingAgrees(st.vars, dirty, ws[0], u);
      assert !PutsOpen(parts[0], dirty);
      AssignmentAgrees(st, parts[0], elsewhere, dirty, u, ws[1]);
      assert !AnyPutsOpen(parts[1..], dirty) by {
        assert forall k :: 0 <= k < |parts| - 1 ==> parts[1..][k] == parts[k + 1];
      }
      var s := CheckAssignment(st, parts[0]).value;
      NothingElapses(dirty, ws[1]);
      assert Performs(parts[1..], elsewhere, dirty, ws[1], ws[1..]) by {
        forall k | 0 <= k < |parts| - 1 ensures TimedAssigns(parts[1..][k], elsewhere, dirty, ws[1..][k], ws[1..][k + 1]) {
          assert TimedAssigns(parts[k + 1], elsewhere, dirty, ws[k + 1], ws[k + 2]);
        }
      }
      AssignmentsAgree(s, parts[1..], elsewhere, dirty, ws[1], ws[1..]);
      forall k | 0 <= k < |ws| ensures SafeWorld(ws[k]) {
        assert k > 0 ==> ws[1..][k - 1] == ws[k];
      }
    }
  }

  lemma NothingElapses(dirty: set<string>, w: World)
    ensures Elapses(dirty, w, w)
  {
  }

  lemma ExecutesSome(parts: seq<seq<Token>>, dirty: set<string>, w: World, ws: seq<World>)
    requires Executes(parts, dirty, w, ws)
    ensures ws != []
  {
  }
}
