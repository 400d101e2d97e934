/** Every statement of a dump the scanner lets through leaves the session safe. */
module SessionSafety {
  import opened Text
  import opened SqlChecks
  import S = Statements
  import F = StatementFrames
  import opened DumpLexer
  import opened SessionModel
  import opened SetStatements
  import opened Mentions

  /** The tokens of a statement whose head is kept to its end; none for one allowed earlier. */
  function HeadTokens(st: S.Stmt): seq<Token> {
    match S.Space(st)
    case None => []
    case Some(x) => if x.accepted then [] else x.tokens
  }

  /** The statements of the text that end before anything is refused, in order. `mentioned` are
      the variables mentioned since the last end. */
  function Log(order: S.Order, text: string, i: nat, s: Scan, mentioned: set<string>): seq<Ended>
    requires i <= |text| && Valid(s)
    decreases |text| - i, if s.lex.bol then 1 else 0
  {
    if i == |text| then if Finish(order, s) then [Ended(HeadTokens(EndVar(s).stmt), mentioned)] else []
    else
      match Step(order, text, i, s)
      case None => []
      case Some((j, t)) =>
        if LexStep(text, i, s.lex).value.event.EndStatement? && Prelude(s, text[i]).Some? then
          [Ended(HeadTokens(Prelude(s, text[i]).value.stmt), mentioned)] + Log(order, text, j, t, {})
        else Log(order, text, j, t, mentioned + StepMentions(text, i, s.lex))
  }

  /** SET is judged whole: no token of it allows or refuses the rest. */
  lemma SetIsJudgedWhole(st: S.Stmt)
    requires st.tokens != [] && st.tokens[0].Is("SET")
    ensures S.CheckHead(st, false) == S.NeedsMore
  {
    hide S.CheckInsert, S.CheckLock, S.CheckDDL, S.CheckSet;
  }

  lemma {:induction false} PoisonCovers(vars: S.Vars, names: seq<string>, accounted: set<string>)
    ensures var v := S.Poison(vars, names, accounted);
            v.Tracked? ==>
              && vars.Tracked? && v.saved == vars.saved && vars.poisoned <= v.poisoned
              && forall n :: n in names && n !in accounted ==> n != "" && n in v.poisoned
    decreases |names|
  {
    if names != [] {
      PoisonCovers(S.PoisonOne(vars, names[0], accounted), names[1..], accounted);
    }
  }

  lemma PoisonKeepsAgrees(vars: S.Vars, names: seq<string>, accounted: set<string>, dirty: set<string>, more: set<string>, w: World)
    requires Agrees(vars, dirty, w)
    ensures Agrees(S.Poison(vars, names, accounted), dirty + more, w)
  {
    hide S.Poison, SafeValue;
    PoisonCovers(vars, names, accounted);
  }

  lemma PoisonKeepsCovers(vars: S.Vars, names: seq<string>, accounted: set<string>, dirty: set<string>, more: set<string>)
    requires Covers(vars, dirty) && (vars.Tracked? ==> forall n :: n in more ==> n in names && n !in accounted)
    ensures Covers(S.Poison(vars, names, accounted), dirty + more)
  {
    hide S.Poison;
    PoisonCovers(vars, names, accounted);
  }

  /** The final check of a statement, and what executing it does. */
  lemma FinalAgrees(x: S.Stmt, mentioned: set<string>, dirty: set<string>, w: World, ws: seq<World>)
    requires S.FinalHead(x).Some? && Agrees(x.vars, dirty, w)
    requires var e := Ended(if x.accepted then [] else x.tokens, mentioned);
             Executes(e.Parts(), dirty, w, ws) && !AnyPutsOpen(e.Parts(), dirty)
    ensures forall k :: 0 <= k < |ws| ==> SafeWorld(ws[k])
    ensures Agrees(S.FinalHead(x).value.vars, dirty, ws[|ws| - 1])
  {
    hide S.FinalHead, S.CheckAssignments, Agrees, SafeWorld, AnyPutsOpen, TimedAssigns, Elapses, SplitAssignments, S.NamesUnsafeCharset;
    var e := Ended(if x.accepted then [] else x.tokens, mentioned);
    if e.IsSet() {
      F.FinalSet(x);
      AssignmentsAgree(x.(setVars := {}), e.Parts(), SetsElsewhere(e.Parts()), dirty, w, ws);
    } else {
      F.FinalHeadKeepsSession(x);
      ElapsingAgrees(x.vars, dirty, w, ws[0]);
      AgreesIsSafe(x.vars, dirty, ws[0]);
    }
  }

  /** The final check of a statement lets it put no open variable back. */
  lemma FinalCovers(x: S.Stmt, mentioned: set<string>, dirty: set<string>)
    requires S.FinalHead(x).Some? && x.setVars == {} && Covers(x.vars, dirty)
    ensures var f := S.FinalHead(x).value;
            var e := Ended(if x.accepted then [] else x.tokens, mentioned);
            && Covers(f.vars, dirty) && f.varRefs == x.varRefs && f.count == x.count
            && f.setVars == TrackedNames(e.Parts()) && !AnyPutsOpen(e.Parts(), dirty)
  {
    hide S.FinalHead, S.CheckAssignments, Covers, PutsOpen, TrackedName, SplitAssignments, S.NamesUnsafeCharset;
    var e := Ended(if x.accepted then [] else x.tokens, mentioned);
    if e.IsSet() {
      F.FinalSet(x);
      AssignmentsCover(x.(setVars := {}), e.Parts(), dirty);
    } else {
      F.FinalHeadKeepsSession(x);
    }
  }

  /** A statement that ends and puts no open variable back leaves the tracked variables in agreement
      with the session, whatever it leaves open. */
  lemma EndAgrees(order: S.Order, st: S.Stmt, mentioned: set<string>, dirty: set<string>, more: set<string>, w: World, ws: seq<World>)
    requires S.End(order, st).Some? && Agrees(st.vars, dirty, w)
    requires var e := Ended(HeadTokens(st), mentioned); Executes(e.Parts(), dirty, w, ws) && !AnyPutsOpen(e.Parts(), dirty)
    ensures forall k :: 0 <= k < |ws| ==> SafeWorld(ws[k])
    ensures Agrees(S.End(order, st).value.vars, dirty + more, ws[|ws| - 1])
  {
    hide S.Space, S.FinalHead, Agrees, SafeWorld, Ended.Parts, TimedAssigns, Elapses, S.Poison, AnyPutsOpen;
    F.SpaceKeepsSession(st);
    var x := S.Space(st).value;
    FinalAgrees(x, mentioned, dirty, w, ws);
    var f := S.FinalHead(x).value;
    PoisonKeepsAgrees(f.vars, order(f.count, f.varRefs), f.setVars, dirty, more, ws[|ws| - 1]);
  }

  /** By statement, a statement that ends puts no open variable back and leaves none trusted. */
  lemma EndCovers(order: S.Order, st: S.Stmt, mentioned: set<string>, dirty: set<string>)
    requires S.IsOrder(order) && S.End(order, st).Some? && st.setVars == {}
    requires Covers(st.vars, dirty) && Reported(st, mentioned, {})
    ensures var t := S.End(order, st).value;
            var e := Ended(HeadTokens(st), mentioned);
            && !AnyPutsOpen(e.Parts(), dirty) && Covers(t.vars, dirty + e.Dirtied(ByStatement)) && t.setVars == {} && t.varRefs == {}
  {
    hide S.Space, S.FinalHead, Covers, AnyPutsOpen, Ended.Parts, S.Poison, TrackedNames;
    F.SpaceKeepsSession(st);
    var x := S.Space(st).value;
    FinalCovers(x, mentioned, dirty);
    var f := S.FinalHead(x).value;
    var names := order(f.count, f.varRefs);
    assert S.Enumerates(names, f.varRefs);
    var e := Ended(HeadTokens(st), mentioned);
    if x.vars.Untrusted? {
      VarsStayUntrusted(x);
    }
    PoisonKeepsCovers(f.vars, names, f.setVars, dirty, e.Dirtied(ByStatement));
  }

  lemma {:induction false} AssignmentsStayUntrusted(st: S.Stmt, parts: seq<seq<Token>>)
    requires st.vars.Untrusted? && S.CheckAssignments(st, parts).Some?
    ensures S.CheckAssignments(st, parts).value.vars.Untrusted?
    decreases |parts|
  {
    hide IsNames, ClientCharsetOk, SQLModeOk, Target, SavedFrom, IsLexical, Upper;
    if parts != [] {
      AssignmentsStayUntrusted(S.CheckAssignment(st, parts[0]).value, parts[1..]);
    }
  }

  lemma VarsStayUntrusted(x: S.Stmt)
    requires S.FinalHead(x).Some? && x.vars.Untrusted?
    ensures S.FinalHead(x).value.vars.Untrusted?
  {
    hide S.FinalHead, S.CheckAssignments, SplitAssignments, S.NamesUnsafeCharset;
    if !x.accepted && x.tokens != [] && x.tokens[0].Is("SET") {
      F.FinalSet(x);
      AssignmentsStayUntrusted(x.(setVars := {}), SplitAssignments(x.tokens[1..], 0, []));
    } else {
      F.FinalHeadKeepsSession(x);
    }
  }

  // ------------------------------------------------------------ whole runs

  /** What holds between steps of what was mentioned. */
  ghost predicate MentionInv(text: string, i: nat, s: Scan, p: nat, mentioned: set<string>)
    requires i <= |text|
  {
    NameInv(text, i, s, p) && Valid(s) && Reported(s.stmt, mentioned, Pending(text, s, p)) && s.stmt.setVars == {}
  }

  lemma MentionsAreValid(text: string, i: nat, s: Scan, p: nat, mentioned: set<string>)
    requires i <= |text| && MentionInv(text, i, s, p, mentioned)
    ensures Valid(s)
  {
  }

  lemma KeptVarsAgree(a: S.Stmt, b: S.Stmt, dirty: set<string>, w: World)
    requires KeepsVars(a, b) && Agrees(a.vars, dirty, w)
    ensures Agrees(b.vars, dirty, w)
  {
  }

  /** A step within a statement. */
  lemma StepKeepsInv(order: S.Order, text: string, i: nat, s: Scan, p: nat, mentioned: set<string>) returns (q: nat)
    requires i < |text| && MentionInv(text, i, s, p, mentioned) && Step(order, text, i, s).Some?
    requires !LexStep(text, i, s.lex).value.event.EndStatement?
    ensures var (j, t) := Step(order, text, i, s).value;
            MentionInv(text, j, t, q, mentioned + StepMentions(text, i, s.lex)) && KeepsVars(s.stmt, t.stmt)
  {
    hide LexStep, Step, NameInv, Reported, StepMentions;
    q := StepReports(order, text, i, s, mentioned, p);
  }

  /** A step that ends a statement. */
  lemma EndKeepsInv(order: S.Order, text: string, i: nat, s: Scan, p: nat, mentioned: set<string>)
    requires i < |text| && MentionInv(text, i, s, p, mentioned) && Step(order, text, i, s).Some?
    requires LexStep(text, i, s.lex).value.event.EndStatement?
    ensures Prelude(s, text[i]).Some?
    ensures var st := Prelude(s, text[i]).value.stmt;
            var (j, t) := Step(order, text, i, s).value;
            && KeepsVars(s.stmt, st) && Reported(st, mentioned, {}) && st.setVars == {}
            && S.End(order, st) == Some(t.stmt) && MentionInv(text, j, t, p, {})
  {
    hide LexStep, Step, NameInv, Prelude, HeadTokens, S.Space, S.Closing, S.Poison;
    InVarIsInCode(text, i, s, p);
    EndsInCode(text, i, s.lex);
    PunctuationReports(order, text, i, s, mentioned, p);
  }

  /** The end of the text ends the last statement. */
  lemma FinishEnds(order: S.Order, text: string, s: Scan, p: nat, mentioned: set<string>)
    requires MentionInv(text, |text|, s, p, mentioned) && Finish(order, s)
    ensures var st := EndVar(s).stmt;
            KeepsVars(s.stmt, st) && Reported(st, mentioned, {}) && st.setVars == {} && S.End(order, st).Some?
  {
    hide NameInv, HeadTokens, S.End, EndVar, IsFileWord;
    InVarIsInCode(text, |text|, s, p);
    EndVarReports(text, |text|, s, mentioned, p);
  }

  /** However variables are accounted for, a run that puts no open variable back keeps the session
      safe. */
  lemma {:induction false} RunIsSafe(order: S.Order, text: string, i: nat, s: Scan, p: nat, mentioned: set<string>, how: Accounting,
                                     dirty: set<string>, w: World, tr: seq<seq<World>>)
    requires i <= |text| && MentionInv(text, i, s, p, mentioned) && Agrees(s.stmt.vars, dirty, w)
    requires Traces(how, Log(order, text, i, s, mentioned), dirty, w, tr) && !Exposed(how, Log(order, text, i, s, mentioned), dirty)
    ensures AllSafe(tr)
    decreases |text| - i, if s.lex.bol then 1 else 0
  {
    hide Step, LexStep, MentionInv, Agrees, Finish, S.End, TimedAssigns, Elapses, SafeWorld, Ended.Parts, Ended.Dirtied, Prelude,
         StepMentions, HeadTokens, EndVar, AnyPutsOpen, KeepsVars;
    MentionsAreValid(text, i, s, p, mentioned);
    if i == |text| {
      if Finish(order, s) {
        FinishEnds(order, text, s, p, mentioned);
        KeptVarsAgree(s.stmt, EndVar(s).stmt, dirty, w);
        EndAgrees(order, EndVar(s).stmt, mentioned, dirty, {}, w, tr[0]);
      }
    } else if Step(order, text, i, s).Some? {
      var (j, t) := Step(order, text, i, s).value;
      if LexStep(text, i, s.lex).value.event.EndStatement? {
        EndKeepsInv(order, text, i, s, p, mentioned);
        var st := Prelude(s, text[i]).value.stmt;
        var e := Ended(HeadTokens(st), mentioned);
        var log := [e] + Log(order, text, j, t, {});
        assert log[0] == e && log[1..] == Log(order, text, j, t, {});
        KeptVarsAgree(s.stmt, st, dirty, w);
        EndAgrees(order, st, mentioned, dirty, e.Dirtied(how), w, tr[0]);
        RunIsSafe(order, text, j, t, p, {}, how, dirty + e.Dirtied(how), tr[0][|tr[0]| - 1], tr[1..]);
        forall m, k | 0 <= m < |tr| && 0 <= k < |tr[m]| ensures SafeWorld(tr[m][k]) {
          assert m > 0 ==> tr[1..][m - 1] == tr[m];
        }
      } else {
        var q := StepKeepsInv(order, text, i, s, p, mentioned);
        KeptVarsAgree(s.stmt, t.stmt, dirty, w);
        RunIsSafe(order, text, j, t, q, mentioned + StepMentions(text, i, s.lex), how, dirty, w, tr);
      }
    }
  }

  /** By statement, as the checker accounts for variables, no run puts an open variable back. */
  lemma {:induction false} RunCovers(order: S.Order, text: string, i: nat, s: Scan, p: nat, mentioned: set<string>, dirty: set<string>)
    requires S.IsOrder(order) && i <= |text| && MentionInv(text, i, s, p, mentioned) && Covers(s.stmt.vars, dirty)
    ensures !Exposed(ByStatement, Log(order, text, i, s, mentioned), dirty)
    decreases |text| - i, if s.lex.bol then 1 else 0
  {
    hide Step, LexStep, MentionInv, Finish, S.End, S.IsOrder, Ended.Parts, Ended.Dirtied, Prelude, StepMentions, HeadTokens, EndVar,
         AnyPutsOpen;
    MentionsAreValid(text, i, s, p, mentioned);
    if i == |text| {
      if Finish(order, s) {
        FinishEnds(order, text, s, p, mentioned);
        EndCovers(order, EndVar(s).stmt, mentioned, dirty);
      }
    } else if Step(order, text, i, s).Some? {
      var (j, t) := Step(order, text, i, s).value;
      if LexStep(text, i, s.lex).value.event.EndStatement? {
        EndKeepsInv(order, text, i, s, p, mentioned);
        var st := Prelude(s, text[i]).value.stmt;
        var e := Ended(HeadTokens(st), mentioned);
        var log := [e] + Log(order, text, j, t, {});
        assert log[0] == e && log[1..] == Log(order, text, j, t, {});
        EndCovers(order, st, mentioned, dirty);
        RunCovers(order, text, j, t, p, {}, dirty + e.Dirtied(ByStatement));
      } else {
        var q := StepKeepsInv(order, text, i, s, p, mentioned);
        RunCovers(order, text, j, t, q, mentioned + StepMentions(text, i, s.lex), dirty);
      }
    }
  }

  lemma StartsCovered(text: string, database: string)
    ensures MentionInv(text, 0, Begin(database), 0, {}) && Begin(database).stmt.vars == S.Tracked(map[], {})
  {
  }

  /** No statement of an accepted dump puts back a variable that, by statement, is open. */
  lemma NothingIsExposed(order: S.Order, text: string, database: string)
    requires S.IsOrder(order)
    ensures !Exposed(ByStatement, Log(order, text, 0, Begin(database), {}), {})
  {
    hide Log, Exposed, MentionInv;
    StartsCovered(text, database);
    RunCovers(order, text, 0, Begin(database), 0, {}, {});
  }

  /** Main result: start in the session the preamble sets up and execute, in order, every statement
      that ends before anything is refused, so every statement of an accepted dump. Whatever the
      variables that statements leave open become, and in whatever order the checker's maps are
      ranged over, sql_mode only ever holds safe modes and the client character set is never an
      unsafe one. */
  lemma SessionStaysSafe(order: S.Order, text: string, database: string, w: World, tr: seq<seq<World>>)
    requires S.IsOrder(order) && AfterPreamble(w)
    requires Traces(ByStatement, Log(order, text, 0, Begin(database), {}), {}, w, tr)
    ensures AllSafe(tr)
  {
    hide Traces, Log, SafeWorld, AllSafe, Exposed, MentionInv;
    PreambleIsSafe(w);
    StartsCovered(text, database);
    NothingIsExposed(order, text, database);
    RunIsSafe(order, text, 0, Begin(database), 0, {}, ByStatement, {}, w, tr);
  }
}
