/** What the order in which Go ranges over a statement's variables can change: the verdict on a later
    SET, and nothing while every statement's end is settled. */
module OrderVerdicts {
  import opened Text
  import opened SqlChecks
  import S = Statements
  import B = StatementBounds
  import opened DumpLexer
  import R = ScanRuns
  import opened PoisonOrder
  import opened SpokenNames
  import FM = ForgivenMentions
  import F = StatementFrames
  import LR = LogRuns
  import opened SessionSafety
  import opened G = GivenUpRuns

  // ------------------------------------------------------- a later verdict

  /** SET name = @v is accepted exactly when the variable is trusted. */
  lemma RestoreNeedsTrust(st: S.Stmt, name: string, v: string)
    requires IsLexical(name) && Speakable(v)
    ensures S.CheckSet(st, FM.Restoring(name, v)).Some? <==> st.vars.Trusted(v, name)
  {
    if st.vars.Trusted(v, name) {
      FM.RestoreIsAccepted(st, name, v);
      hide S.CheckSet;
    } else {
      RestoreIsRefused(st, name, v);
      hide S.CheckSet;
    }
  }

  lemma RestoreIsRefused(st: S.Stmt, name: string, v: string)
    requires IsLexical(name) && Speakable(v) && !st.vars.Trusted(v, name)
    ensures S.CheckSet(st, FM.Restoring(name, v)).None?
  {
    FM.LexicalName(name);
    FM.RestoreParts(name, v);
    FM.SpeakableIsUserVar(v);
    hide SplitAssignments, Target, EqualsIndex, IsNames, Upper, IsUserVar, Speakable, SQLModeOk, ClientCharsetOk, SavedFrom, S.NamesUnsafeCharset;
    assert S.CheckAssignment(st.(setVars := {}), FM.Restoring(name, v)).None?;
  }

  /** The statement `SET name = @v` passes with the variables `vars`. */
  predicate Restores(vars: S.Vars, name: string, v: string) {
    S.CheckSet(S.Fresh("", vars, 0), FM.Restoring(name, v)).Some?
  }

  /** Main result: where the end of a statement is not settled, the order decides whether a variable
      that is neither poisoned nor left over may be put back. */
  lemma OrderDecidesVerdict(saved: map<string, string>, p: set<string>, s: set<string>, accounted: set<string>, v: string)
    requires |p| <= MAX_TOKENS && !Settled(p, s - accounted)
    requires v in saved && v !in p && v !in s - accounted && Speakable(v) && IsLexical(saved[v])
    ensures exists a, b :: S.Enumerates(a, s) && S.Enumerates(b, s) &&
              Restores(S.Poison(S.Tracked(saved, p), a, accounted), saved[v], v) &&
              !Restores(S.Poison(S.Tracked(saved, p), b, accounted), saved[v], v)
  {
    hide S.Enumerates, S.Poison, Speakable, IsLexical, S.CheckSet;
    var a := OldFirst(saved, p, s, accounted);
    var b := OldLast(saved, p, s, accounted);
    RestoreNeedsTrust(S.Fresh("", S.Poison(S.Tracked(saved, p), a, accounted), 0), saved[v], v);
    RestoreNeedsTrust(S.Fresh("", S.Poison(S.Tracked(saved, p), b, accounted), 0), saved[v], v);
  }

  // ------------------------------------------------------------ whole dumps

  /** The end of this statement gives the same variables in every order. */
  predicate EndSettled(st: S.Stmt) {
    match S.Space(st)
    case None => true
    case Some(x) =>
      match S.Closing(x)
      case None => true
      case Some(f) => f.vars.Tracked? ==> Settled(f.vars.poisoned, f.varRefs - f.setVars)
  }

  predicate AllSettled(order: S.Order, text: string, i: nat, s: Scan)
    requires i <= |text| && Valid(s)
    decreases |text| - i, if s.lex.bol then 1 else 0
  {
    i < |text| ==>
      match Step(order, text, i, s)
      case None => true
      case Some((j, t)) =>
        && (LexStep(text, i, s.lex).value.event.EndStatement? && Prelude(s, text[i]).Some? ==> EndSettled(Prelude(s, text[i]).value.stmt))
        && AllSettled(order, text, j, t)
  }

  lemma SamePoison(a: S.Order, b: S.Order, f: S.Stmt)
    requires S.IsOrder(a) && S.IsOrder(b) && B.VarsBounded(f.vars)
    requires f.vars.Tracked? ==> Settled(f.vars.poisoned, f.varRefs - f.setVars)
    ensures S.Next(a, f) == S.Next(b, f)
  {
    hide Settled, S.Poison;
    var (qa, qb) := (a(f.count, f.varRefs), b(f.count, f.varRefs));
    if f.vars.Untrusted? {
      UntrustedStays(qa, f.setVars);
      UntrustedStays(qb, f.setVars);
    } else {
      OutcomeOf(f, qa);
      OutcomeOf(f, qb);
    }
  }

  lemma OutcomeOf(f: S.Stmt, q: seq<string>)
    requires S.Enumerates(q, f.varRefs) && B.VarsBounded(f.vars) && f.vars.Tracked?
    requires Settled(f.vars.poisoned, f.varRefs - f.setVars)
    ensures S.Poison(f.vars, q, f.setVars) == Outcome(f.vars.saved, f.vars.poisoned, f.varRefs - f.setVars)
  {
    hide Settled, S.Poison, Outcome;
    EnumerationIsDistinct(q, f.varRefs);
    LooseOf(q, f.varRefs, f.setVars);
    SettledOutcome(f.vars.saved, f.vars.poisoned, q, f.setVars);
  }

  lemma SameEnd(a: S.Order, b: S.Order, st: S.Stmt)
    requires S.IsOrder(a) && S.IsOrder(b) && B.Inv(st)
    ensures S.End(a, st).Some? == S.End(b, st).Some?
    ensures EndSettled(st) ==> S.End(a, st) == S.End(b, st)
  {
    hide S.Space, S.Closing, S.IsOrder, Settled, S.Next, B.Inv;
    if S.Space(st).Some? {
      B.SpaceKeepsInv(st);
      var x := S.Space(st).value;
      if S.Closing(x).Some? && EndSettled(st) {
        B.ClosingStaysBounded(x);
        SamePoison(a, b, S.Closing(x).value);
      }
    }
  }

  lemma SameStep(a: S.Order, b: S.Order, text: string, i: nat, s: Scan)
    requires S.IsOrder(a) && S.IsOrder(b) && i < |text| && R.Inv(s)
    requires LexStep(text, i, s.lex).Some? && LexStep(text, i, s.lex).value.event.EndStatement? && Prelude(s, text[i]).Some? ==>
               EndSettled(Prelude(s, text[i]).value.stmt)
    ensures Step(a, text, i, s) == Step(b, text, i, s)
  {
    hide LexStep, Prelude, S.End, S.IsOrder, EndSettled, B.Inv, PlainByte, LineEnded, S.QuoteText, S.EndQuote, UseOk, S.Space, S.StartQuote;
    if LexStep(text, i, s.lex).Some? && LexStep(text, i, s.lex).value.event.EndStatement? && Prelude(s, text[i]).Some? {
      R.PreludeKeepsInv(s, text[i]);
      SameEnd(a, b, Prelude(s, text[i]).value.stmt);
    }
  }

  lemma SameFinish(a: S.Order, b: S.Order, s: Scan)
    requires S.IsOrder(a) && S.IsOrder(b) && R.Inv(s)
    ensures Finish(a, s) == Finish(b, s)
  {
    hide S.End, S.IsOrder, EndSettled, IsFileWord, EndVar, B.Inv;
    R.EndVarKeepsInv(s);
    SameEnd(a, b, EndVar(s).stmt);
    EndWordKeepsStmt(EndVar(s));
  }

  lemma EndWordKeepsStmt(s: Scan)
    ensures EndWord(s).Some? ==> EndWord(s).value.stmt == s.stmt
  {
    hide IsFileWord;
  }

  lemma {:induction false} SameRun(a: S.Order, b: S.Order, text: string, i: nat, s: Scan)
    requires S.IsOrder(a) && S.IsOrder(b) && i <= |text| && R.Inv(s) && AllSettled(a, text, i, s)
    ensures Run(a, text, i, s) == Run(b, text, i, s) && AllSettled(b, text, i, s)
    decreases |text| - i, if s.lex.bol then 1 else 0
  {
    hide LexStep, Prelude, Step, S.IsOrder, EndSettled, B.Inv, Finish;
    if i == |text| {
      SameFinish(a, b, s);
    } else if Step(a, text, i, s).Some? {
      SameStep(a, b, text, i, s);
      R.StepKeepsInv(a, text, i, s);
      var (j, t) := Step(a, text, i, s).value;
      SameRun(a, b, text, j, t);
    } else {
      RefusedAlike(a, b, text, i, s);
    }
  }

  /** A step refused in one order is refused in every order. */
  lemma RefusedAlike(a: S.Order, b: S.Order, text: string, i: nat, s: Scan)
    requires S.IsOrder(a) && S.IsOrder(b) && i < |text| && R.Inv(s) && Step(a, text, i, s).None?
    ensures Step(b, text, i, s).None?
  {
    hide LexStep, Prelude, S.End, S.IsOrder, EndSettled, B.Inv, PlainByte, LineEnded, S.QuoteText, S.EndQuote, UseOk, S.Space, S.StartQuote;
    if LexStep(text, i, s.lex).Some? && LexStep(text, i, s.lex).value.event.EndStatement? && Prelude(s, text[i]).Some? {
      R.PreludeKeepsInv(s, text[i]);
      SameEnd(a, b, Prelude(s, text[i]).value.stmt);
    }
  }

  /** Main result: when the end of every statement of a dump is settled, the verdict on the dump is the
      same in every order. */
  lemma SettledDumpsHaveOneVerdict(a: S.Order, b: S.Order, text: string, database: string)
    requires S.IsOrder(a) && S.IsOrder(b) && AllSettled(a, text, 0, Begin(database))
    ensures Accepts(a, text, database) == Accepts(b, text, database)
  {
    hide Run, AllSettled, S.IsOrder, B.Inv;
    R.StartsBounded(database);
    SameRun(a, b, text, 0, Begin(database));
  }

  // ------------------------------------------- exactly when orders matter

  /** A statement's end is not settled, and a statement that needs trust follows it. */
  predicate Deciding(order: S.Order, text: string, i: nat, s: Scan)
    requires i <= |text| && Valid(s)
    decreases |text| - i, if s.lex.bol then 1 else 0
  {
    i < |text| &&
    match Step(order, text, i, s)
    case None => false
    case Some((j, t)) =>
      || (Unsettled(text, i, s) && AnyNeedsTrust(Log(order, text, j, t, {})))
      || Deciding(order, text, j, t)
  }

  predicate Ends(text: string, i: nat, s: Scan)
    requires i < |text| && Valid(s)
  {
    LexStep(text, i, s.lex).Some? && LexStep(text, i, s.lex).value.event.EndStatement? && Prelude(s, text[i]).Some?
  }

  /** The step ends a statement whose end is not settled. */
  predicate Unsettled(text: string, i: nat, s: Scan)
    requires i < |text| && Valid(s)
  {
    Ends(text, i, s) && !EndSettled(Prelude(s, text[i]).value.stmt)
  }

  lemma SettledStepIsSame(a: S.Order, b: S.Order, text: string, i: nat, s: Scan)
    requires S.IsOrder(a) && S.IsOrder(b) && i < |text| && R.Inv(s) && !Unsettled(text, i, s)
    ensures Step(a, text, i, s) == Step(b, text, i, s)
  {
    hide LexStep, Prelude, EndSettled, Step, S.IsOrder, B.Inv;
    SameStep(a, b, text, i, s);
  }

  /** Two orders take an end, settled or not, to states that differ in their variables only. */
  lemma EndsAlike(a: S.Order, b: S.Order, text: string, i: nat, s: Scan)
    requires i < |text| && Valid(s) && Ends(text, i, s) && Step(a, text, i, s).Some?
    ensures Step(b, text, i, s).Some?
    ensures var (j, t) := Step(a, text, i, s).value;
            var (k, u) := Step(b, text, i, s).value;
            j == k && G.Lost(t) == G.Lost(u)
  {
    hide LexStep, Prelude, S.Space, S.Closing, S.Poison;
    G.EndStep(a, text, i, s);
    G.EndStep(b, text, i, s);
  }

  /** No statement that needs trust follows an end that is not settled: accepted in one order is
      accepted in every other. */
  lemma {:induction false} AcceptedAlike(a: S.Order, b: S.Order, text: string, i: nat, s: Scan)
    requires S.IsOrder(a) && S.IsOrder(b) && i <= |text| && R.Inv(s) && Run(a, text, i, s) && !Deciding(a, text, i, s)
    ensures Run(b, text, i, s)
    decreases |text| - i, if s.lex.bol then 1 else 0
  {
    hide LexStep, Prelude, Step, S.IsOrder, EndSettled, B.Inv, Finish, AnyNeedsTrust, Log, Unsettled, Ends;
    if i == |text| {
      SameFinish(a, b, s);
    } else {
      var (j, t) := Step(a, text, i, s).value;
      if Unsettled(text, i, s) {
        UnsettledEnds(text, i, s);
        EndsAlike(a, b, text, i, s);
        var (k, u) := Step(b, text, i, s).value;
        G.RunLost(a, b, text, j, t, {});
        G.RunLost(b, b, text, j, u, {});
      } else {
        SettledStepIsSame(a, b, text, i, s);
        R.StepKeepsInv(a, text, i, s);
        AcceptedAlike(a, b, text, j, t);
      }
    }
  }

  lemma UnsettledEnds(text: string, i: nat, s: Scan)
    requires i < |text| && Valid(s) && Unsettled(text, i, s)
    ensures Ends(text, i, s)
  {
    hide Ends, EndSettled;
  }

  // The other half: an order that gives the variables up at such an end refuses the text.

  /** The order `a`, except at the n-th statement with the variables `r`. */
  function Redirected(a: S.Order, n: nat, r: set<string>, q: seq<string>): S.Order {
    (m: nat, s: set<string>) => if m == n && s == r then q else a(m, s)
  }

  lemma RedirectedIsOrder(a: S.Order, n: nat, r: set<string>, q: seq<string>)
    requires S.IsOrder(a) && S.Enumerates(q, r)
    ensures S.IsOrder(Redirected(a, n, r, q))
  {
    hide S.Enumerates;
    forall m: nat, s: set<string> ensures S.Enumerates(Redirected(a, n, r, q)(m, s), s) {
      assert S.Enumerates(a(m, s), s);
    }
  }

  /** An end that is not settled gives every variable up in some order. */
  lemma EndGivesUp(a: S.Order, st: S.Stmt) returns (b: S.Order)
    requires S.IsOrder(a) && !EndSettled(st) && S.End(a, st).Some?
    ensures S.IsOrder(b) && S.End(b, st) == Some(G.GiveUp(S.End(a, st).value))
    ensures forall m: nat, r: set<string> :: m != st.count ==> b(m, r) == a(m, r)
  {
    hide S.Space, S.Closing, S.Poison, S.IsOrder, Settled, S.Enumerates;
    var x := S.Space(st).value;
    F.SpaceKeepsSession(st);
    var f := S.Closing(x).value;
    ClosingKeepsCount(x);
    UnsettledIsNotFull(f.vars.poisoned, f.varRefs - f.setVars);
    var q := OldLast(f.vars.saved, f.vars.poisoned, f.varRefs, f.setVars);
    RedirectedIsOrder(a, f.count, f.varRefs, q);
    b := Redirected(a, f.count, f.varRefs, q);
  }

  lemma UnsettledIsNotFull(p: set<string>, n: set<string>)
    requires !Settled(p, n)
    ensures |p| < MAX_TOKENS
  {
  }

  lemma ClosingKeepsCount(x: S.Stmt)
    requires S.Closing(x).Some?
    ensures S.Closing(x).value.count == x.count
  {
    if !x.accepted && x.tokens != [] && x.tokens[0].Is("SET") {
      F.FinalSet(x);
    } else {
      F.FinalHeadKeepsSession(x);
    }
    hide S.FinalHead;
  }

  lemma SameEndAt(a: S.Order, b: S.Order, st: S.Stmt)
    requires forall r: set<string> :: b(st.count, r) == a(st.count, r)
    ensures S.End(b, st) == S.End(a, st)
  {
    hide S.Space, S.Closing, S.Poison;
    if S.Space(st).Some? {
      F.SpaceKeepsSession(st);
      if S.Closing(S.Space(st).value).Some? {
        ClosingKeepsCount(S.Space(st).value);
      }
    }
  }

  lemma PreludeKeepsCount(s: Scan, c: char)
    requires Prelude(s, c).Some?
    ensures Prelude(s, c).value.stmt.count == s.stmt.count
  {
  }

  /** Orders that agree on this statement take the same step. */
  lemma SameStepAt(a: S.Order, b: S.Order, text: string, i: nat, s: Scan)
    requires i < |text| && Valid(s) && forall r: set<string> :: b(s.stmt.count, r) == a(s.stmt.count, r)
    ensures Step(b, text, i, s) == Step(a, text, i, s)
  {
    hide LexStep, Prelude, S.End, PlainByte, LineEnded, S.QuoteText, S.EndQuote, UseOk, S.Space, S.StartQuote;
    if LexStep(text, i, s.lex).Some? && LexStep(text, i, s.lex).value.event.EndStatement? {
      G.EndStep(a, text, i, s);
      G.EndStep(b, text, i, s);
      if Prelude(s, text[i]).Some? {
        PreludeKeepsCount(s, text[i]);
        SameEndAt(a, b, Prelude(s, text[i]).value.stmt);
      }
    }
  }

  /** Where an end decides, some order refuses the rest of the text. */
  lemma GivingUpRefuses(a: S.Order, text: string, i: nat, s: Scan) returns (b: S.Order)
    requires S.IsOrder(a) && i < |text| && Valid(s) && Unsettled(text, i, s) && Step(a, text, i, s).Some?
    requires var (j, t) := Step(a, text, i, s).value; AnyNeedsTrust(Log(a, text, j, t, {}))
    ensures S.IsOrder(b) && !Run(b, text, i, s)
    ensures forall m: nat, r: set<string> :: m < s.stmt.count ==> b(m, r) == a(m, r)
  {
    hide LexStep, Prelude, S.End, S.IsOrder, EndSettled, AnyNeedsTrust, Log, Step;
    var (j, t) := Step(a, text, i, s).value;
    G.EndStep(a, text, i, s);
    var st := Prelude(s, text[i]).value.stmt;
    PreludeKeepsCount(s, text[i]);
    b := EndGivesUp(a, st);
    G.EndStep(b, text, i, s);
    assert Step(b, text, i, s) == Some((j, G.Lost(t)));
    G.RunLost(a, b, text, j, t, {});
  }

  lemma {:induction false} SomeOrderRefuses(a: S.Order, text: string, i: nat, s: Scan) returns (b: S.Order)
    requires S.IsOrder(a) && i <= |text| && Valid(s) && Deciding(a, text, i, s)
    ensures S.IsOrder(b) && !Run(b, text, i, s)
    ensures forall m: nat, r: set<string> :: m < s.stmt.count ==> b(m, r) == a(m, r)
    decreases |text| - i, if s.lex.bol then 1 else 0
  {
    hide LexStep, Prelude, Step, S.IsOrder, AnyNeedsTrust, Log, Unsettled;
    var (j, t) := Step(a, text, i, s).value;
    if Unsettled(text, i, s) && AnyNeedsTrust(Log(a, text, j, t, {})) {
      b := GivingUpRefuses(a, text, i, s);
    } else {
      b := SomeOrderRefuses(a, text, j, t);
      LR.StepCounts(a, text, i, s);
      if LexStep(text, i, s.lex).value.event.EndStatement? {
        SameStepAt(a, b, text, i, s);
      } else {
        PlainStep(a, b, text, i, s);
      }
    }
  }

  /** A step within a statement asks for no order. */
  lemma PlainStep(a: S.Order, b: S.Order, text: string, i: nat, s: Scan)
    requires i < |text| && Valid(s) && LexStep(text, i, s.lex).Some? && !LexStep(text, i, s.lex).value.event.EndStatement?
    ensures Step(b, text, i, s) == Step(a, text, i, s)
  {
    hide LexStep, Prelude, S.End, PlainByte, LineEnded, S.QuoteText, S.EndQuote, UseOk, S.Space, S.StartQuote;
  }

  /** Main result: a dump accepted in one order is accepted in every order exactly when, read in it, no
      SET statement that puts a user variable back follows an end that is not settled. */
  lemma VerdictIsOrderFree(a: S.Order, text: string, database: string)
    requires S.IsOrder(a) && Accepts(a, text, database)
    ensures (forall b: S.Order :: S.IsOrder(b) ==> Accepts(b, text, database)) <==> !Deciding(a, text, 0, Begin(database))
  {
    hide Run, Deciding, S.IsOrder, B.Inv;
    R.StartsBounded(database);
    if Deciding(a, text, 0, Begin(database)) {
      var b := SomeOrderRefuses(a, text, 0, Begin(database));
      assert !Accepts(b, text, database);
    } else {
      forall b: S.Order | S.IsOrder(b) ensures Accepts(b, text, database) {
        AcceptedAlike(a, b, text, 0, Begin(database));
      }
    }
  }

  /** So the verdict on a text is one for all orders exactly when no order that accepts it reads a
      deciding end. */
  lemma OneVerdictExactly(text: string, database: string)
    ensures (forall a: S.Order, b: S.Order :: S.IsOrder(a) && S.IsOrder(b) ==> Accepts(a, text, database) == Accepts(b, text, database))
            <==> (forall a: S.Order :: S.IsOrder(a) && Accepts(a, text, database) ==> !Deciding(a, text, 0, Begin(database)))
  {
    hide Accepts, Deciding, S.IsOrder;
    forall a: S.Order | S.IsOrder(a) && Accepts(a, text, database)
      ensures (forall b: S.Order :: S.IsOrder(b) ==> Accepts(b, text, database)) <==> !Deciding(a, text, 0, Begin(database))
    {
      VerdictIsOrderFree(a, text, database);
    }
  }
}
