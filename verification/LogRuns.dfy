/** The statements a scan has read after some of its steps, and that what follows a line does not
    change them. */
module LogRuns {
  import opened Text
  import opened SqlChecks
  import S = Statements
  import F = StatementFrames
  import opened DumpLexer
  import R = ScanRuns
  import P = DumpPrefixes
  import VC = VersionedComments
  import PO = PoisonOrder
  import opened Mentions
  import opened SessionModel
  import opened SessionSafety

  /** The statements that end in the first `n` steps, and the variables mentioned since the last end. */
  function Logged(order: S.Order, text: string, i: nat, s: Scan, mentioned: set<string>, n: nat): (seq<Ended>, set<string>)
    requires i <= |text| && Valid(s)
    decreases n
  {
    if n == 0 || i == |text| then ([], mentioned)
    else
      match Step(order, text, i, s)
      case None => ([], mentioned)
      case Some((j, t)) =>
        if LexStep(text, i, s.lex).value.event.EndStatement? && Prelude(s, text[i]).Some? then
          var (log, left) := Logged(order, text, j, t, {}, n - 1);
          ([Ended(HeadTokens(Prelude(s, text[i]).value.stmt), mentioned)] + log, left)
        else Logged(order, text, j, t, mentioned + StepMentions(text, i, s.lex), n - 1)
  }

  /** The log of a run is the log of its first steps and of the rest. */
  lemma {:induction false} LogSplits(order: S.Order, text: string, i: nat, s: Scan, mentioned: set<string>, n: nat)
    requires i <= |text| && Valid(s) && R.After(order, text, i, s, n).Some?
    ensures var (j, t) := R.After(order, text, i, s, n).value;
            var (log, left) := Logged(order, text, i, s, mentioned, n);
            Log(order, text, i, s, mentioned) == log + Log(order, text, j, t, left)
    decreases n
  {
    hide Step, LexStep, R.After, Prelude, StepMentions, HeadTokens, Finish;
    R.AfterFirst(order, text, i, s, n);
    if n == 0 {
      assert [] + Log(order, text, i, s, mentioned) == Log(order, text, i, s, mentioned);
    } else {
      var (j, t) := Step(order, text, i, s).value;
      if LexStep(text, i, s.lex).value.event.EndStatement? && Prelude(s, text[i]).Some? {
        LogSplits(order, text, j, t, {}, n - 1);
      } else {
        LogSplits(order, text, j, t, mentioned + StepMentions(text, i, s.lex), n - 1);
      }
    }
  }

  lemma StepCounts(order: S.Order, text: string, i: nat, s: Scan)
    requires i < |text| && Valid(s) && Step(order, text, i, s).Some?
    ensures var ends := LexStep(text, i, s.lex).value.event.EndStatement?;
            && Step(order, text, i, s).value.1.stmt.count == s.stmt.count + (if ends then 1 else 0)
            && (ends ==> Prelude(s, text[i]).Some?)
  {
    hide LexStep, Apply, Prelude, S.QuoteText, S.EndQuote, LineEnded, UseOk;
    VC.CheckKeepsPlace(order, text, i, s, LexStep(text, i, s.lex).value);
  }

  /** The statements that ended are those counted. */
  lemma {:induction false} LogIsCounted(order: S.Order, text: string, i: nat, s: Scan, mentioned: set<string>, n: nat)
    requires i <= |text| && Valid(s) && R.After(order, text, i, s, n).Some?
    ensures |Logged(order, text, i, s, mentioned, n).0| == R.After(order, text, i, s, n).value.1.stmt.count - s.stmt.count
    decreases n
  {
    hide Step, LexStep, R.After, Prelude, StepMentions, HeadTokens;
    R.AfterFirst(order, text, i, s, n);
    if n > 0 {
      StepCounts(order, text, i, s);
      var (j, t) := Step(order, text, i, s).value;
      LogIsCounted(order, text, j, t, {}, n - 1);
      LogIsCounted(order, text, j, t, mentioned + StepMentions(text, i, s.lex), n - 1);
    }
  }

  /** Steps before the end of `p`, a line, are the same whatever follows. */
  lemma {:induction false} SameRun(order: S.Order, p: string, q: string, i: nat, s: Scan, mentioned: set<string>, n: nat)
    requires i <= |p| && (p != "" ==> p[|p| - 1] == '\n') && Valid(s) && PlainDelimiter(s.lex.delim)
    requires R.After(order, p, i, s, n).Some?
    ensures R.After(order, p + q, i, s, n) == R.After(order, p, i, s, n)
    ensures Logged(order, p + q, i, s, mentioned, n) == Logged(order, p, i, s, mentioned, n)
    decreases n
  {
    hide Step, LexStep, R.After, Prelude, StepMentions, HeadTokens, PlainDelimiter;
    R.AfterFirst(order, p, i, s, n);
    R.AfterFirst(order, p + q, i, s, n);
    if n > 0 {
      P.SameStep(order, p, q, i, s);
      P.SameLexStep(p, q, i, s.lex);
      P.SameByte(p, q, i);
      P.SameMentions(p, q, i, s.lex);
      DelimiterStaysPlain(p, i, s.lex);
      var (j, t) := Step(order, p, i, s).value;
      SameRun(order, p, q, j, t, {}, n - 1);
      SameRun(order, p, q, j, t, mentioned + StepMentions(p, i, s.lex), n - 1);
    }
  }

  // ------------------------------------------- what every entry mentions

  lemma EndStaysUntrusted(order: S.Order, st: S.Stmt)
    requires st.vars.Untrusted? && S.End(order, st).Some?
    ensures S.End(order, st).value.vars.Untrusted?
  {
    hide S.Space, S.FinalHead, S.Poison;
    F.SpaceKeepsSession(st);
    var x := S.Space(st).value;
    VarsStayUntrusted(x);
    var f := S.FinalHead(x).value;
    PO.UntrustedStays(order(f.count, f.varRefs), f.setVars);
  }

  /** A step that ends a statement, without the worlds. */
  lemma EndReports(order: S.Order, text: string, i: nat, s: Scan, mentioned: set<string>, p: nat)
    requires i < |text| && NameInv(text, i, s, p) && Valid(s) && Reported(s.stmt, mentioned, Pending(text, s, p))
    requires Step(order, text, i, s).Some? && LexStep(text, i, s.lex).value.event.EndStatement?
    ensures Prelude(s, text[i]).Some?
    ensures var e := Prelude(s, text[i]).value.stmt;
            var (j, t) := Step(order, text, i, s).value;
            && Reported(e, mentioned, {}) && KeepsVars(s.stmt, e)
            && S.End(order, e) == Some(t.stmt)
            && NameInv(text, j, t, p) && Reported(t.stmt, {}, Pending(text, t, p))
            && (s.stmt.vars.Untrusted? ==> t.stmt.vars.Untrusted?)
  {
    hide LexStep, Step, NameInv, Prelude, S.Space, S.Closing, S.Poison;
    InVarIsInCode(text, i, s, p);
    EndsInCode(text, i, s.lex);
    PunctuationReports(order, text, i, s, mentioned, p);
    var e := Prelude(s, text[i]).value.stmt;
    if e.vars.Untrusted? {
      EndStaysUntrusted(order, e);
    }
  }

  /** Variables given up stay given up. */
  lemma {:induction false} RunStaysUntrusted(order: S.Order, text: string, i: nat, s: Scan, mentioned: set<string>, p: nat, n: nat)
    requires i <= |text| && Valid(s) && NameInv(text, i, s, p) && Reported(s.stmt, mentioned, Pending(text, s, p))
    requires R.After(order, text, i, s, n).Some? && s.stmt.vars.Untrusted?
    ensures R.After(order, text, i, s, n).value.1.stmt.vars.Untrusted?
    decreases n
  {
    hide LexStep, Step, NameInv, Prelude, R.After, Reported, Pending, StepMentions, S.End;
    R.AfterFirst(order, text, i, s, n);
    if n > 0 {
      var (j, t) := Step(order, text, i, s).value;
      if LexStep(text, i, s.lex).value.event.EndStatement? {
        EndReports(order, text, i, s, mentioned, p);
        RunStaysUntrusted(order, text, j, t, {}, p, n - 1);
      } else {
        var q := StepReports(order, text, i, s, mentioned, p);
        RunStaysUntrusted(order, text, j, t, mentioned + StepMentions(text, i, s.lex), q, n - 1);
      }
    }
  }

  /** What is logged in some steps and then in more. */
  lemma {:induction false} LoggedAdds(order: S.Order, text: string, i: nat, s: Scan, mentioned: set<string>, n: nat, m: nat)
    requires i <= |text| && Valid(s) && R.After(order, text, i, s, n).Some?
    ensures var (j, t) := R.After(order, text, i, s, n).value;
            var (log, left) := Logged(order, text, i, s, mentioned, n);
            var (rest, last) := Logged(order, text, j, t, left, m);
            Logged(order, text, i, s, mentioned, n + m) == (log + rest, last)
    decreases n
  {
    hide Step, LexStep, R.After, Prelude, StepMentions, HeadTokens;
    R.AfterFirst(order, text, i, s, n);
    if n == 0 {
      var r := Logged(order, text, i, s, mentioned, m);
      assert [] + r.0 == r.0;
    } else {
      var (j, t) := Step(order, text, i, s).value;
      assert n - 1 + m == n + m - 1;
      if LexStep(text, i, s.lex).value.event.EndStatement? && Prelude(s, text[i]).Some? {
        LoggedAdds(order, text, j, t, {}, n - 1, m);
        var (k, u) := R.After(order, text, i, s, n).value;
        var (log, left) := Logged(order, text, j, t, {}, n - 1);
        var e := [Ended(HeadTokens(Prelude(s, text[i]).value.stmt), mentioned)];
        assert e + (log + Logged(order, text, k, u, left, m).0) == e + log + Logged(order, text, k, u, left, m).0;
      } else {
        LoggedAdds(order, text, j, t, mentioned + StepMentions(text, i, s.lex), n - 1, m);
      }
    }
  }

  /** Every mention since the last end is reported or pending, in every run. */
  lemma {:induction false} LoggedReports(order: S.Order, text: string, i: nat, s: Scan, mentioned: set<string>, p: nat, n: nat) returns (q: nat)
    requires i <= |text| && Valid(s) && NameInv(text, i, s, p) && Reported(s.stmt, mentioned, Pending(text, s, p))
    requires R.After(order, text, i, s, n).Some?
    ensures var (j, t) := R.After(order, text, i, s, n).value;
            NameInv(text, j, t, q) && Reported(t.stmt, Logged(order, text, i, s, mentioned, n).1, Pending(text, t, q))
    decreases n
  {
    hide LexStep, Step, NameInv, Prelude, R.After, Reported, Pending, StepMentions, S.End, HeadTokens;
    R.AfterFirst(order, text, i, s, n);
    q := p;
    if n > 0 {
      var (j, t) := Step(order, text, i, s).value;
      if LexStep(text, i, s.lex).value.event.EndStatement? {
        EndReports(order, text, i, s, mentioned, p);
        q := LoggedReports(order, text, j, t, {}, p, n - 1);
      } else {
        q := StepReports(order, text, i, s, mentioned, p);
        q := LoggedReports(order, text, j, t, mentioned + StepMentions(text, i, s.lex), q, n - 1);
      }
    }
  }

  /** Steps that end one statement, the last but one of them: what they log. */
  lemma LineIsLogged(order: S.Order, text: string, i: nat, s: Scan, mentioned: set<string>, p: nat, n: nat)
    requires i <= |text| && Valid(s) && NameInv(text, i, s, p) && Reported(s.stmt, mentioned, Pending(text, s, p))
    requires R.After(order, text, i, s, n).Some? && R.After(order, text, i, s, n + 2).Some?
    requires R.After(order, text, i, s, n).value.1.stmt.count == s.stmt.count
    requires R.After(order, text, i, s, n + 2).value.1.stmt.count == s.stmt.count + 1
    requires var (k, u) := R.After(order, text, i, s, n).value;
             && k < |text| && LexStep(text, k, u.lex).Some? && LexStep(text, k, u.lex).value.event.EndStatement?
             && (Prelude(u, text[k]).Some? ==> Prelude(u, text[k]).value.stmt.vars.Tracked?)
    ensures var (k, u) := R.After(order, text, i, s, n).value;
            && Prelude(u, text[k]).Some?
            && var e := Prelude(u, text[k]).value.stmt;
               Logged(order, text, i, s, mentioned, n + 2).0 == [Ended(HeadTokens(e), e.varRefs)]
  {
    hide R.After, NameInv, Reported, Pending, Step, LexStep, Prelude, HeadTokens, Logged;
    var (k, u) := R.After(order, text, i, s, n).value;
    var (log, left) := Logged(order, text, i, s, mentioned, n);
    LogIsCounted(order, text, i, s, mentioned, n);
    LogIsCounted(order, text, i, s, mentioned, n + 2);
    LoggedAdds(order, text, i, s, mentioned, n, 2);
    R.AfterAdds(order, text, i, s, n, 2);
    var q := LoggedReports(order, text, i, s, mentioned, p, n);
    EndIsLogged(order, text, k, u, left, q);
    assert log == [];
    var rest := Logged(order, text, k, u, left, 2).0;
    assert [] + rest == rest && rest == [rest[0]];
  }

  /** The step that ends a statement, and one more. */
  lemma EndIsLogged(order: S.Order, text: string, k: nat, u: Scan, left: set<string>, q: nat)
    requires k < |text| && Valid(u) && NameInv(text, k, u, q) && Reported(u.stmt, left, Pending(text, u, q))
    requires R.After(order, text, k, u, 2).Some?
    requires LexStep(text, k, u.lex).Some? && LexStep(text, k, u.lex).value.event.EndStatement?
    requires Prelude(u, text[k]).Some? ==> Prelude(u, text[k]).value.stmt.vars.Tracked?
    ensures Prelude(u, text[k]).Some?
    ensures var log := Logged(order, text, k, u, left, 2).0;
            log != [] && log[0] == Ended(HeadTokens(Prelude(u, text[k]).value.stmt), Prelude(u, text[k]).value.stmt.varRefs)
  {
    hide R.After, NameInv, Reported, Pending, Step, LexStep, Prelude, HeadTokens, Logged;
    R.AfterFirst(order, text, k, u, 2);
    EndReports(order, text, k, u, left, q);
    AllReported(Prelude(u, text[k]).value.stmt, left);
    LogsFirst(order, text, k, u, left, 1);
  }

  lemma AllReported(st: S.Stmt, mentioned: set<string>)
    requires Reported(st, mentioned, {}) && st.vars.Tracked?
    ensures mentioned == st.varRefs
  {
    assert st.varRefs + {} == st.varRefs;
  }

  lemma LogsFirst(order: S.Order, text: string, i: nat, s: Scan, mentioned: set<string>, n: nat)
    requires i < |text| && Valid(s) && Step(order, text, i, s).Some? && Prelude(s, text[i]).Some?
    requires LexStep(text, i, s.lex).value.event.EndStatement?
    ensures var log := Logged(order, text, i, s, mentioned, n + 1).0;
            log != [] && log[0] == Ended(HeadTokens(Prelude(s, text[i]).value.stmt), mentioned)
  {
    hide Step, LexStep, Prelude, HeadTokens;
  }
}
