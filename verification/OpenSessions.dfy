/** Exactly which dumps keep the session safe, however open user variables are accounted for.

    The variables statements leave open may change at any time. A session can become unsafe exactly
    when some statement puts an open variable into sql_mode or the client character set: any other
    sequence of statements the checker lets through keeps it safe, and such a statement can be handed
    a harmful value. */
module OpenSessions {
  import opened Text
  import opened SqlChecks
  import S = Statements
  import opened DumpLexer
  import opened SessionModel
  import M = ReadingModes
  import opened SetStatements
  import opened SessionSafety

  // ----------------------------------------------- sessions that exist

  lemma ValueExists(rhs: seq<Token>, w: World) returns (v: string)
    ensures MayBe(rhs, w, v)
  {
    if |rhs| != 1 {
      v := "";
    } else if PlainText(rhs[0]) || PlainName(rhs[0]) {
      v := rhs[0].text;
    } else if SavedFrom(rhs).Some? {
      v := w.sys(SavedFrom(rhs).value);
    } else {
      v := w.user(Upper(rhs[0].text));
    }
  }

  function With(f: string -> string, name: string, v: string): string -> string {
    n => if n == name then v else f(n)
  }

  lemma AssignExists(a: seq<Token>, elsewhere: bool, w: World) returns (z: World)
    ensures Assigns(a, elsewhere, w, z)
  {
    hide MayBe;
    if a == [] {
      z := w;
    } else {
      var v := ValueExists(Value(a), w);
      if IsUserVar(Assigned(a)) && !IsNames(a[0]) {
        z := World(w.sys, With(w.user, Assigned(a), v));
      } else {
        z := World(With(w.sys, Assigned(a), v), w.user);
      }
      assert Gives(a, elsewhere, w, v, z);
    }
  }

  lemma {:induction false} PerformExists(parts: seq<seq<Token>>, elsewhere: bool, dirty: set<string>, w: World) returns (ws: seq<World>)
    ensures Performs(parts, elsewhere, dirty, w, ws) && ws[0] == w
    decreases |parts|
  {
    hide Assigns, Elapses;
    NothingElapses(dirty, w);
    if parts == [] {
      ws := [w];
    } else {
      var z := AssignExists(parts[0], elsewhere, w);
      var rest := PerformExists(parts[1..], elsewhere, dirty, z);
      ws := [w] + rest;
      forall k | 0 <= k < |parts| ensures TimedAssigns(parts[k], elsewhere, dirty, ws[k], ws[k + 1]) {
        if k > 0 {
          assert TimedAssigns(parts[1..][k - 1], elsewhere, dirty, rest[k - 1], rest[k]);
        }
      }
    }
  }

  lemma PerformsSome(parts: seq<seq<Token>>, elsewhere: bool, dirty: set<string>, w: World, ws: seq<World>)
    requires Performs(parts, elsewhere, dirty, w, ws)
    ensures |ws| == |parts| + 1
  {
  }

  /** Every list of statements can be executed. */
  lemma {:induction false} TraceExists(how: Accounting, log: seq<Ended>, dirty: set<string>, w: World) returns (tr: seq<seq<World>>)
    ensures Traces(how, log, dirty, w, tr) && |tr| == |log|
    ensures forall k :: 0 <= k < |tr| ==> tr[k] != []
    decreases |log|
  {
    hide Performs, Ended.Parts, Ended.Dirtied, SetsElsewhere;
    if log == [] {
      tr := [];
    } else {
      var ws := PerformExists(log[0].Parts(), SetsElsewhere(log[0].Parts()), dirty, w);
      PerformsSome(log[0].Parts(), SetsElsewhere(log[0].Parts()), dirty, w, ws);
      var rest := TraceExists(how, log[1..], dirty + log[0].Dirtied(how), ws[|ws| - 1]);
      tr := [ws] + rest;
    }
  }

  // ------------------------------------------------ sessions that turn unsafe

  lemma StopsAtOnce(s: string)
    requires s != "" && !IsSpace(s[0]) && !IsSpace(s[|s| - 1])
    ensures TrimLeft(s) == s && TrimRight(s) == s
  {
  }

  /** A value that changes how the client or the server reads the rest. */
  function Harm(name: string): string {
    if name == SQL_MODE then "DB2" else "GBK"
  }

  lemma HarmIsUnsafe(name: string)
    requires IsLexical(name)
    ensures !SafeValue(name, Harm(name))
  {
    assert M.ChangesReading("DB2") && M.HidesBackslash("GBK");
    M.OnlyMode("DB2");
  }

  /** Putting an open variable back can make the session unsafe. */
  lemma OpenHarms(a: seq<Token>, elsewhere: bool, dirty: set<string>, w: World) returns (z: World)
    requires PutsOpen(a, dirty)
    ensures TimedAssigns(a, elsewhere, dirty, w, z) && !SafeWorld(z)
  {
    hide IsNames, EqualsIndex, IsLexical, SafeValue, Harm, Upper;
    var (name, v) := (Target(a), PutBack(a).value);
    HarmIsUnsafe(name);
    var x := World(w.sys, With(w.user, v, Harm(name)));
    z := World(With(x.sys, name, Harm(name)), x.user);
    assert Elapses(dirty, w, x);
    UserVarIsNotPlain(Value(a)[0]);
    MayBeHeld(Value(a), x);
    assert Gives(a, elsewhere, x, Harm(name), z);
    assert Assigns(a, elsewhere, x, z);
    assert z.sys(name) == Harm(name);
  }

  lemma MayBeHeld(rhs: seq<Token>, w: World)
    requires |rhs| == 1 && rhs[0].kind == 'w' && IsUserVar(rhs[0].text)
    ensures MayBe(rhs, w, w.user(Upper(rhs[0].text)))
  {
    UserVarIsNotPlain(rhs[0]);
    assert rhs == [rhs[0]];
  }

  lemma {:induction false} PartsHarm(parts: seq<seq<Token>>, elsewhere: bool, dirty: set<string>, w: World) returns (ws: seq<World>, k: nat)
    requires AnyPutsOpen(parts, dirty)
    ensures Performs(parts, elsewhere, dirty, w, ws) && ws[0] == w && k < |ws| && !SafeWorld(ws[k])
    decreases |parts|
  {
    hide Assigns, Elapses, PutsOpen, SafeWorld;
    NothingElapses(dirty, w);
    var rest: seq<World>;
    if PutsOpen(parts[0], dirty) {
      var z := OpenHarms(parts[0], elsewhere, dirty, w);
      rest := PerformExists(parts[1..], elsewhere, dirty, z);
      k := 1;
    } else {
      var z := AssignExists(parts[0], elsewhere, w);
      var m :| 0 <= m < |parts| && PutsOpen(parts[m], dirty);
      assert parts[1..][m - 1] == parts[m];
      rest, k := PartsHarm(parts[1..], elsewhere, dirty, z);
      k := k + 1;
    }
    ws := [w] + rest;
    Prepended(parts, elsewhere, dirty, w, rest);
  }

  lemma Prepended(parts: seq<seq<Token>>, elsewhere: bool, dirty: set<string>, w: World, rest: seq<World>)
    requires parts != [] && |rest| == |parts| && TimedAssigns(parts[0], elsewhere, dirty, w, rest[0])
    requires Performs(parts[1..], elsewhere, dirty, rest[0], rest)
    ensures Performs(parts, elsewhere, dirty, w, [w] + rest)
  {
    hide Assigns, Elapses;
    NothingElapses(dirty, w);
    var ws := [w] + rest;
    forall k | 0 <= k < |parts| ensures TimedAssigns(parts[k], elsewhere, dirty, ws[k], ws[k + 1]) {
      if k > 0 {
        assert TimedAssigns(parts[1..][k - 1], elsewhere, dirty, rest[k - 1], rest[k]);
      }
    }
  }

  lemma {:induction false} ExposedHarms(how: Accounting, log: seq<Ended>, dirty: set<string>, w: World) returns (tr: seq<seq<World>>)
    requires Exposed(how, log, dirty)
    ensures Traces(how, log, dirty, w, tr) && !AllSafe(tr)
    decreases |log|
  {
    hide Performs, Ended.Parts, Ended.Dirtied, SetsElsewhere, SafeWorld, AnyPutsOpen;
    var parts := log[0].Parts();
    var next := dirty + log[0].Dirtied(how);
    var ws: seq<World>;
    var rest: seq<seq<World>>;
    if AnyPutsOpen(parts, dirty) {
      var k: nat;
      ws, k := PartsHarm(parts, SetsElsewhere(parts), dirty, w);
      rest := TraceExists(how, log[1..], next, ws[|ws| - 1]);
      tr := [ws] + rest;
      assert !SafeWorld(tr[0][k]);
    } else {
      ws := PerformExists(parts, SetsElsewhere(parts), dirty, w);
      PerformsSome(parts, SetsElsewhere(parts), dirty, w, ws);
      rest := ExposedHarms(how, log[1..], next, ws[|ws| - 1]);
      tr := [ws] + rest;
      var j, k :| 0 <= j < |rest| && 0 <= k < |rest[j]| && !SafeWorld(rest[j][k]);
      assert tr[j + 1] == rest[j];
    }
  }

  /** Main result: from a session the preamble sets up, every session a dump can go through is safe
      exactly when no statement of it puts a variable that is open by then into sql_mode or the client
      character set. */
  lemma SessionIsSafeExactly(order: S.Order, text: string, database: string, how: Accounting, w: World)
    requires AfterPreamble(w)
    ensures (forall tr :: Traces(how, Log(order, text, 0, Begin(database), {}), {}, w, tr) ==> AllSafe(tr))
            <==> !Exposed(how, Log(order, text, 0, Begin(database), {}), {})
  {
    hide Traces, Log, SafeWorld, AllSafe, Exposed, MentionInv;
    var log := Log(order, text, 0, Begin(database), {});
    if Exposed(how, log, {}) {
      var tr := ExposedHarms(how, log, {}, w);
    } else {
      PreambleIsSafe(w);
      StartsCovered(text, database);
      forall tr | Traces(how, log, {}, w, tr) ensures AllSafe(tr) {
        RunIsSafe(order, text, 0, Begin(database), 0, {}, how, {}, w, tr);
      }
    }
  }
}
