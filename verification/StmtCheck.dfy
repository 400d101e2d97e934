/** stmtCheck and userVars of internal/cmd/dumpscan.go, updated in place.

    `State()` is the checker's state as a value. Every method does to it what the function of
    the same name in Statements says, or sets `err` when that function refuses. */
module StmtChecker {
  import opened Text
  import V = ValuesAutomaton
  import opened SqlChecks
  import S = Statements

  class UserVars {
    var saved: map<string, string>
    var poisoned: set<string>
    var all: bool

    ghost function View(): S.Vars
      reads this
    {
      if all then S.Untrusted else S.Tracked(saved, poisoned)
    }

    /** At most 48 names are kept in each collection. */
    ghost predicate Bounded()
      reads this
    {
      |saved| <= MAX_TOKENS && |poisoned| <= MAX_TOKENS
    }

    constructor ()
      ensures View() == S.Tracked(map[], {}) && Bounded()
    {
      saved, poisoned, all := map[], {}, false;
    }

    method Trusted(name: string, sysvar: string) returns (ok: bool)
      ensures ok == View().Trusted(name, sysvar)
    {
      ok := !all && name !in poisoned && (if name in saved then saved[name] else "") == sysvar;
    }

    method Save(name: string, sysvar: string)
      requires Bounded()
      modifies this
      ensures Bounded() && View() == S.SaveVar(old(View()), name, sysvar)
    {
      if |saved| >= MAX_TOKENS && (name !in saved || saved[name] == "") {
        all := true;
      } else {
        assert |saved[name := sysvar]| <= MAX_TOKENS by {
          MapUpdateSize(saved, name, sysvar);
        }
        saved := saved[name := sysvar];
      }
    }

    method Poison(names: seq<string>, accounted: set<string>)
      requires Bounded()
      modifies this
      ensures Bounded() && View() == S.Poison(old(View()), names, accounted)
    {
      for i := 0 to |names|
        invariant Bounded()
        invariant S.Poison(old(View()), names, accounted) == S.Poison(View(), names[i..], accounted)
      {
        var name := names[i];
        if name in accounted {
        } else if name == "" {
          all := true;
        } else if |poisoned| >= MAX_TOKENS {
          all := true;
        } else {
          poisoned := poisoned + {name};
        }
        assert names[i..][1..] == names[i + 1..];
      }
    }
  }

  lemma MapUpdateSize(m: map<string, string>, k: string, v: string)
    ensures |m[k := v]| == if k in m then |m| else |m| + 1
  {
    assert m[k := v].Keys == m.Keys + {k};
    assert |m.Keys + {k}| == if k in m then |m.Keys| else |m.Keys| + 1 by {
      if k in m {
        assert m.Keys + {k} == m.Keys;
      }
    }
    assert |m| == |m.Keys| && |m[k := v]| == |m[k := v].Keys|;
  }

  class StmtCheck {
    const database: string
    const order: S.Order
    const vars: UserVars

    var started: bool
    var accepted: bool
    var tokens: seq<Token>
    var size: nat
    var cur: string
    var curKind: char
    var err: bool
    var varRefs: set<string>
    var setVars: set<string>
    var values: V.DumpValues?
    var tail: S.Tail
    var count: nat

    ghost function Repr(): set<object>
      reads this
    {
      {this, vars} + if values == null then {} else {values}
    }

    ghost function State(): S.Stmt
      reads this, vars, values
    {
      S.Stmt(database, started, accepted, tokens, size, cur, curKind, vars.View(), varRefs, setVars,
             if values == null then None else Some(values.View()), tail, count)
    }

    constructor (database: string, order: S.Order)
      ensures fresh(Repr()) && this.database == database && this.order == order
      ensures !err && State() == S.Fresh(database, S.Tracked(map[], {}), 0)
      ensures vars.Bounded()
    {
      this.database, this.order := database, order;
      started, accepted, tokens, size, cur, curKind, err := false, false, [], 0, "", S.NONE, false;
      varRefs, setVars, values, tail, count := {}, {}, null, S.NO_TAIL, 0;
      vars := new UserVars();
    }

    method UserVar(name: string)
      modifies Repr()
      ensures Repr() == old(Repr())
      ensures err == old(err) && State() == S.UserVar(old(State()), name)
      ensures old(vars.Bounded()) ==> vars.Bounded()
    {
      if name in varRefs {
        return;
      }
      if |varRefs| >= MAX_TOKENS {
        vars.all := true;
        return;
      }
      varRefs := varRefs + {name};
    }

    method Refuse(ok: bool)
      modifies this`err
      ensures err == (old(err) || !ok)
    {
      if !err {
        err := !ok;
      }
    }

    method CodeByte(b: char)
      requires vars.Bounded()
      modifies Repr()
      ensures fresh(Repr() - old(Repr())) && vars.Bounded()
      ensures old(err) ==> err
      ensures !old(err) ==> (err <==> S.CodeByte(old(State()), b).None?)
      ensures !err ==> S.CodeByte(old(State()), b) == Some(State())
    {
      hide S.HeadByte, S.Space, V.CodeByte;
      if IsSpace(b) {
        Space();
        return;
      }
      started := true;
      if accepted && values != null {
        var ok := values.Code(b);
        Refuse(ok);
        return;
      }
      HeadByte(b);
    }

    method HeadByte(b: char)
      requires vars.Bounded()
      modifies Repr()
      ensures fresh(Repr() - old(Repr())) && vars.Bounded()
      ensures old(err) ==> err
      ensures !old(err) ==> (err <==> S.HeadByte(old(State()), b).None?)
      ensures !err ==> S.HeadByte(old(State()), b) == Some(State())
    {
      hide S.Flush, S.Push;
      var word := IsWordByte(b) || b == '@' || b == '.';
      if curKind == 'w' && word {
        if |cur| >= MAX_HEAD {
          Refuse(false);
          return;
        }
        cur := cur + [b];
        return;
      }
      Flush();
      if word {
        curKind, cur := 'w', [b];
        return;
      }
      Push(Token('p', [b]));
    }

    method Space()
      requires vars.Bounded()
      modifies Repr()
      ensures fresh(Repr() - old(Repr())) && vars.Bounded()
      ensures old(err) ==> err
      ensures !old(err) ==> (err <==> S.Space(old(State())).None?)
      ensures !err ==> S.Space(old(State())) == Some(State())
    {
      if accepted && values != null {
        var ok := values.Gap();
        Refuse(ok);
        return;
      }
      Flush();
    }

    method StartQuote(q: char, dead: bool)
      requires vars.Bounded()
      modifies Repr()
      ensures fresh(Repr() - old(Repr())) && vars.Bounded()
      ensures old(err) ==> err
      ensures !old(err) ==> (err <==> S.StartQuote(old(State()), q, dead).None?)
      ensures !err ==> S.StartQuote(old(State()), q, dead) == Some(State())
    {
      hide S.Flush, V.StartQuote;
      Flush();
      if dead {
        return;
      }
      started := true;
      if accepted && values != null {
        var ok := values.Open(q);
        Refuse(ok);
        return;
      }
      curKind, cur := q, "";
    }

    method QuoteText(bs: string)
      requires vars.Bounded()
      modifies Repr()
      ensures Repr() == old(Repr()) && vars.Bounded()
      ensures old(err) ==> err
      ensures !old(err) ==> (err <==> S.QuoteText(old(State()), bs).None?)
      ensures !err ==> S.QuoteText(old(State()), bs) == Some(State())
    {
      if accepted && values != null {
        var ok := values.Text(bs);
        Refuse(ok);
        return;
      }
      if accepted {
        return;
      }
      if curKind == S.NONE || curKind == 'w' {
        return;
      }
      if size + |cur| + |bs| > MAX_HEAD {
        Refuse(false);
        return;
      }
      cur := cur + bs;
    }

    method EndQuote()
      requires vars.Bounded()
      modifies Repr()
      ensures fresh(Repr() - old(Repr())) && vars.Bounded()
      ensures old(err) ==> err
      ensures !old(err) ==> (err <==> S.EndQuote(old(State())).None?)
      ensures !err ==> S.EndQuote(old(State())) == Some(State())
    {
      if accepted && values != null {
        var ok := values.Close();
        Refuse(ok);
        return;
      }
      Flush();
    }

    method Flush()
      requires vars.Bounded()
      modifies Repr()
      ensures fresh(Repr() - old(Repr())) && vars.Bounded()
      ensures old(err) ==> err
      ensures !old(err) ==> (err <==> S.Flush(old(State())).None?)
      ensures !err ==> S.Flush(old(State())) == Some(State())
    {
      if curKind == S.NONE {
        return;
      }
      var t := Token(curKind, cur);
      curKind, cur := S.NONE, "";
      Push(t);
    }

    method Push(t: Token)
      requires vars.Bounded()
      modifies Repr()
      ensures fresh(Repr() - old(Repr())) && vars.Bounded()
      ensures old(err) ==> err
      ensures !old(err) ==> (err <==> S.Push(old(State()), t).None?)
      ensures !err ==> S.Push(old(State()), t) == Some(State())
    {
      hide S.CheckTail, S.Keep;
      if err {
        return;
      }
      if accepted {
        var ok := CheckTail(t);
        Refuse(ok);
        return;
      }
      Keep(t);
    }

    method Keep(t: Token)
      requires !err && vars.Bounded()
      modifies Repr()
      ensures fresh(Repr() - old(Repr())) && vars.Bounded()
      ensures err <==> S.Keep(old(State()), t).None?
      ensures !err ==> S.Keep(old(State()), t) == Some(State())
    {
      hide S.Judged;
      tokens, size := tokens + [t], size + |t.text|;
      if size > MAX_HEAD {
        Refuse(false);
        return;
      }
      Judge();
    }

    method Judge()
      requires !err && tokens != [] && vars.Bounded()
      modifies Repr()
      ensures fresh(Repr() - old(Repr())) && vars.Bounded()
      ensures err <==> S.Judged(old(State())).None?
      ensures !err ==> S.Judged(old(State())) == Some(State())
    {
      hide S.CheckHead, Token.Is;
      var ok, good := CheckHead(false);
      if !good {
        Refuse(false);
      } else if ok {
        accepted, tokens := true, [];
      } else if |tokens| > MAX_TOKENS && !tokens[0].Is("SET") {
        Refuse(false);
      }
    }

    /** `ok` says whether the head is allowed; `good == false` stands for an error. */
    method CheckHead(final: bool) returns (ok: bool, good: bool)
      requires !err && tokens != [] && vars.Bounded()
      modifies Repr()
      ensures fresh(Repr() - old(Repr())) && vars.Bounded() && !err
      ensures !good <==> S.CheckHead(old(State()), final).Refused?
      ensures good && ok ==> S.CheckHead(old(State()), final) == S.Allowed(State())
      ensures good && !ok ==> S.CheckHead(old(State()), final).NeedsMore? && State() == old(State())
    {
      var t := tokens;
      if t[0].Is("COMMIT") {
        return true, true;
      }
      if t[0].Is("INSERT") || t[0].Is("REPLACE") {
        ok, good := CheckInsert(final);
        return;
      }
      if t[0].Is("LOCK") || t[0].Is("UNLOCK") {
        if |t| < 2 {
          return false, !final;
        }
        if !t[1].Is("TABLES") && !t[1].Is("TABLE") {
          return false, false;
        }
        if t[0].Is("UNLOCK") {
          return true, true;
        }
        if !final {
          return false, true;
        }
        return true, AllNamesOk(database, t[2..]);
      }
      if t[0].Is("SET") {
        if !final {
          return false, true;
        }
        good := CheckSet(t[1..]);
        return true, good;
      }
      if t[0].Is("USE") {
        if |t| < 2 {
          return false, !final;
        }
        return true, NameOk(database, t[1]);
      }
      if t[0].Is("CREATE") || t[0].Is("DROP") || t[0].Is("ALTER") {
        ok, good := CheckDDL(final);
        return;
      }
      return false, false;
    }

    method CheckInsert(final: bool) returns (ok: bool, good: bool)
      requires !err && tokens != [] && vars.Bounded()
      modifies Repr()
      ensures fresh(Repr() - old(Repr())) && vars.Bounded() && !err
      ensures !good <==> S.CheckInsert(old(State()), final).Refused?
      ensures good && ok ==> S.CheckInsert(old(State()), final) == S.Allowed(State())
      ensures good && !ok ==> S.CheckInsert(old(State()), final).NeedsMore? && State() == old(State())
    {
      var t := tokens;
      var i := SkipInsertModifiers(t, 1);
      var named := ObjectName(database, t, i, final);
      if named != Accept {
        return false, named == More;
      }
      if i >= |t| || NameEnd(t, i) > |t| {
        return false, !final;
      }
      var body: V.DumpValues;
      body, good := FeedTokens(t[NameEnd(t, i)..]);
      if good {
        values := body;
      }
      ok := good;
    }

    static method FeedTokens(t: seq<Token>) returns (body: V.DumpValues, good: bool)
      ensures fresh(body)
      ensures good <==> S.FeedTokens(V.INIT, t).Some?
      ensures good ==> body.View() == S.FeedTokens(V.INIT, t).value
    {
      body := new V.DumpValues();
      for k := 0 to |t|
        invariant fresh(body)
        invariant S.FeedTokens(V.INIT, t) == S.FeedTokens(body.View(), t[k..])
      {
        good := body.Feed(t[k].kind, t[k].text);
        assert t[k..][1..] == t[k + 1..];
        if !good {
          return;
        }
      }
      good := true;
    }

    method CheckDDL(final: bool) returns (ok: bool, good: bool)
      requires !err && tokens != []
      modifies this
      ensures Repr() == old(Repr()) && !err
      ensures !good <==> S.CheckDDL(old(State()), final).Refused?
      ensures good && ok ==> S.CheckDDL(old(State()), final) == S.Allowed(State())
      ensures good && !ok ==> S.CheckDDL(old(State()), final).NeedsMore? && State() == old(State())
    {
      var t := tokens;
      var verb := Upper(t[0].text);
      var k := KindIndex(t, 1);
      if k == |t| {
        return false, !final;
      }
      var kind := Upper(t[k].text);
      var name := k + 1;
      if IsDDLObject(kind) && verb == "DROP" {
        if !final {
          return false, true;
        }
        return true, AllNamesOk(database, t[name..]);
      }
      if kind == "TABLE" && verb == "ALTER" {
        var v := AlterTable(database, t, name, final);
        return v == Accept, v != SqlChecks.Refuse;
      }
      if IsDDLObject(kind) && verb == "CREATE" {
        ok, good := CheckCreate(kind, name, final);
        return;
      }
      if (kind == "DATABASE" || kind == "SCHEMA") && verb != "DROP" {
        var v := DatabaseName(database, verb, t[name..], final);
        return v == Accept, v != SqlChecks.Refuse;
      }
      return false, false;
    }

    method CheckCreate(kind: string, name: nat, final: bool) returns (ok: bool, good: bool)
      requires !err
      modifies this
      ensures Repr() == old(Repr()) && !err
      ensures !good <==> S.CheckCreate(old(State()), kind, name, final).Refused?
      ensures good && ok ==> S.CheckCreate(old(State()), kind, name, final) == S.Allowed(State())
      ensures good && !ok ==> S.CheckCreate(old(State()), kind, name, final).NeedsMore? && State() == old(State())
    {
      hide ObjectName, NameEnd, SkipExists, TriggerTable, S.CheckTail;
      var named := ObjectName(database, tokens, name, final);
      if named != Accept {
        return false, named == More;
      }
      if kind == "TABLE" {
        tail := tail.(table := true);
        var rest := tokens[NameEnd(tokens, SkipExists(tokens, name))..];
        ghost var begun := tail;
        for k := 0 to |rest|
          invariant err == old(err) && State() == old(State()).(tail := tail) && Repr() == old(Repr())
          invariant S.CheckTails(begun, rest) == S.CheckTails(tail, rest[k..])
        {
          good := CheckTail(rest[k]);
          assert rest[k..][1..] == rest[k + 1..];
          if !good {
            return false, false;
          }
        }
        return true, true;
      }
      if kind != "TRIGGER" {
        return true, true;
      }
      var v := TriggerTable(database, tokens, name, final);
      return v == Accept, v != SqlChecks.Refuse;
    }

    method CheckTail(t: Token) returns (good: bool)
      modifies this`tail
      ensures good <==> S.CheckTail(old(tail), t).Some?
      ensures good ==> tail == S.CheckTail(old(tail), t).value
    {
      hide S.MayFollowDefault, S.IsDefaultValue, S.IsTableWordAfterDefault, Token.Is, Token.IsPunct, Upper;
      if (tail.word == "DATA" || tail.word == "INDEX") && t.Is("DIRECTORY") {
        return false;
      }
      if tail.table {
        if t.Is("GENERATED") || t.Is("AS") {
          return false;
        }
        if tail.defaultTail {
          if !S.MayFollowDefault(tail.word, t) {
            return false;
          }
          tail := tail.(defaultTail := false);
        }
        if tail.defaultValue {
          if t.IsPunct("+") || t.IsPunct("-") {
            return true;
          }
          if !S.IsDefaultValue(t) {
            return false;
          }
          tail := tail.(defaultTail := !S.IsTableWordAfterDefault(t));
        }
        tail := tail.(defaultValue := t.Is("DEFAULT"));
      }
      tail := tail.(word := if t.kind == 'w' then Upper(t.text) else "");
      good := true;
    }

    method CheckSet(t: seq<Token>) returns (good: bool)
      requires !err && vars.Bounded()
      modifies this, vars
      ensures Repr() == old(Repr()) && !err && vars.Bounded()
      ensures good <==> S.CheckSet(old(State()), t).Some?
      ensures good ==> State() == S.CheckSet(old(State()), t).value
    {
      if (t != [] && t[0].Is("STATEMENT")) || S.NamesUnsafeCharset(t) {
        return false;
      }
      setVars := {};
      var parts := SplitAssignments(t, 0, []);
      ghost var begun := State();
      for k := 0 to |parts|
        invariant Repr() == old(Repr()) && !err && vars.Bounded()
        invariant S.CheckAssignments(begun, parts) == S.CheckAssignments(State(), parts[k..])
      {
        good := CheckAssignment(parts[k]);
        assert parts[k..][1..] == parts[k + 1..];
        if !good {
          return;
        }
      }
      good := true;
    }

    method CheckAssignment(a: seq<Token>) returns (good: bool)
      requires !err && vars.Bounded()
      modifies this, vars
      ensures Repr() == old(Repr()) && !err && vars.Bounded()
      ensures good <==> S.CheckAssignment(old(State()), a).Some?
      ensures good ==> State() == S.CheckAssignment(old(State()), a).value
    {
      if |a| == 0 {
        return true;
      }
      if IsNames(a[0]) {
        var i := NamesIndex(a);
        return i < |a| && ClientCharsetOk(a[i]);
      }
      var eq := EqualsIndex(a);
      var name := Target(a);
      if eq == |a| {
        return !(IsLexical(name) || HasPrefix(name, "@"));
      }
      var rhs := a[eq + 1..];
      if IsUserVar(name) {
        var sysvar := SavedFrom(rhs);
        if sysvar == None {
          return false;
        }
        vars.Save(name, sysvar.value);
        setVars := setVars + {name};
        return true;
      }
      if |rhs| == 1 && rhs[0].kind == 'w' && IsUserVar(rhs[0].text) {
        var v := Upper(rhs[0].text);
        setVars := setVars + {v};
        good := vars.Trusted(v, name);
        return;
      }
      if name == "SQL_MODE" {
        return SQLModeOk(rhs);
      }
      if name == "CHARACTER_SET_CLIENT" {
        return |rhs| == 1 && ClientCharsetOk(rhs[0]);
      }
      return true;
    }

    /** Checks the statement that just ended and resets for the next one. */
    method End() returns (good: bool)
      requires vars.Bounded()
      modifies Repr()
      ensures fresh(Repr() - old(Repr())) && vars.Bounded()
      ensures old(err) ==> err
      ensures !old(err) ==> (err <==> S.End(order, old(State())).None?)
      ensures !err ==> S.End(order, old(State())) == Some(State())
      ensures good == !err
    {
      hide S.Space, S.Closing, S.Poison;
      Space();
      if !err {
        Closing();
      }
      Reset();
      good := !err;
    }

    method Closing()
      requires !err && vars.Bounded()
      modifies Repr()
      ensures fresh(Repr() - old(Repr())) && vars.Bounded()
      ensures err <==> S.Closing(old(State())).None?
      ensures !err ==> State() == S.Closing(old(State())).value.(values := State().values)
    {
      hide S.CheckHead, V.End;
      if !accepted && |tokens| > 0 {
        var ok, fine := CheckHead(true);
        if !fine {
          Refuse(false);
        }
      }
      if !err && values != null {
        var ok := values.Finish();
        Refuse(ok);
      }
    }

    method Reset()
      requires vars.Bounded()
      modifies this, vars
      ensures values == null && vars.Bounded() && err == old(err)
      ensures State() == S.Next(order, old(State()))
    {
      hide S.Poison;
      var names := order(count, varRefs);
      vars.Poison(names, setVars);
      count := count + 1;
      Clear();
    }

    method Clear()
      modifies this
      ensures values == null && err == old(err) && State() == S.Fresh(database, vars.View(), old(count))
    {
      started, accepted, tokens, size, cur, curKind := false, false, [], 0, "", S.NONE;
      varRefs, setVars, values, tail := {}, {}, null, S.NO_TAIL;
    }
  }
}
