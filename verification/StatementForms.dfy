/** The statements of an accepted dump, told apart by their words.

    Every statement is one of those mysqldump writes: its verb, what may stand between the verb and the
    kind of its object, the kind, and what must stand at fixed places behind it, word by word. */
module StatementForms {
  import opened Text
  import opened SqlChecks
  import S = Statements
  import V = ValuesAutomaton
  import opened T = StatementTokens
  import F = InsertFeeding
  import opened LineStarts
  import opened InsertHeads
  import opened SR = StatementReading
  import IB = InsertBodies
  import opened TableTails
  import FH = FinalHeads
  import SH = StatementHeads
  import VG = ValuesGrammar
  import L = DumpLexer
  import opened Sentences

  // ------------------------------------------------------------ the words

  predicate IsOption(t: Token) {
    || IsWord(t, "OR") || IsWord(t, "REPLACE") || IsWord(t, "ALGORITHM") || IsWord(t, "UNDEFINED") || IsWord(t, "MERGE")
    || IsWord(t, "TEMPTABLE") || IsWord(t, "DEFINER") || IsWord(t, "CURRENT_USER") || IsWord(t, "SQL") || IsWord(t, "SECURITY")
    || IsWord(t, "INVOKER") || IsWord(t, "TEMPORARY") || IsWord(t, "AGGREGATE") || IsWord(t, "ONLINE") || IsWord(t, "OFFLINE")
    || IsWord(t, "IGNORE")
  }

  /** What may stand between CREATE, DROP or ALTER and the kind of object. */
  predicate IsPassedOver(t: Token) {
    t.kind != 'w' || '@' in t.text || IsOption(t)
  }

  predicate IsObject(t: Token) {
    IsWord(t, "TABLE") || IsWord(t, "VIEW") || IsWord(t, "TRIGGER") || IsWord(t, "PROCEDURE") || IsWord(t, "FUNCTION") || IsWord(t, "EVENT")
  }

  /** The kind of object is named at `k`. */
  predicate KindAt(t: seq<Token>, k: nat) {
    1 <= k < |t| && (forall i :: 1 <= i < k ==> IsPassedOver(t[i])) && !IsPassedOver(t[k])
  }

  /** The name behind `k` starts at `j`, after IF, NOT and EXISTS. */
  predicate NameAt(t: seq<Token>, k: nat, j: nat) {
    k < j < |t| && (forall i :: k < i < j ==> IsExists(t[i])) && !IsExists(t[j])
  }

  /** The last token is a name cut off behind its dot. */
  predicate EndsInDot(t: seq<Token>) {
    t != [] && t[|t| - 1].kind == 'w' && t[|t| - 1].text != "" && t[|t| - 1].text[|t[|t| - 1].text| - 1] == '.'
  }

  lemma OptionIs(t: Token)
    requires t.kind == 'w'
    ensures IsDDLModifier(Upper(t.text)) <==> IsOption(t)
  {
    hide Spells, Upper;
    SpellsUpper(t.text, "OR");
    SpellsUpper(t.text, "REPLACE");
    SpellsUpper(t.text, "ALGORITHM");
    SpellsUpper(t.text, "UNDEFINED");
    SpellsUpper(t.text, "MERGE");
    SpellsUpper(t.text, "TEMPTABLE");
    SpellsUpper(t.text, "DEFINER");
    SpellsUpper(t.text, "CURRENT_USER");
    SpellsUpper(t.text, "SQL");
    SpellsUpper(t.text, "SECURITY");
    SpellsUpper(t.text, "INVOKER");
    SpellsUpper(t.text, "TEMPORARY");
    SpellsUpper(t.text, "AGGREGATE");
    SpellsUpper(t.text, "ONLINE");
    SpellsUpper(t.text, "OFFLINE");
    SpellsUpper(t.text, "IGNORE");
  }

  lemma PassedOverIs(t: Token)
    ensures SkippedInDDL(t) <==> IsPassedOver(t)
  {
    hide IsDDLModifier, IsOption;
    if t.kind == 'w' {
      OptionIs(t);
    }
  }

  lemma ObjectIs(t: Token)
    requires t.kind == 'w'
    ensures IsDDLObject(Upper(t.text)) <==> IsObject(t)
  {
    hide Spells, Upper;
    SpellsUpper(t.text, "TABLE");
    SpellsUpper(t.text, "VIEW");
    SpellsUpper(t.text, "TRIGGER");
    SpellsUpper(t.text, "PROCEDURE");
    SpellsUpper(t.text, "FUNCTION");
    SpellsUpper(t.text, "EVENT");
  }

  lemma {:induction false} KindIndexIs(t: seq<Token>, i: nat)
    requires i <= |t|
    ensures var k := KindIndex(t, i);
            (forall j :: i <= j < k ==> IsPassedOver(t[j])) && (k < |t| ==> !IsPassedOver(t[k]))
    decreases |t| - i
  {
    hide SkippedInDDL, IsPassedOver;
    if i < |t| {
      PassedOverIs(t[i]);
      if SkippedInDDL(t[i]) {
        KindIndexIs(t, i + 1);
      }
    }
  }

  lemma KindIs(t: seq<Token>)
    requires t != [] && KindIndex(t, 1) < |t|
    ensures KindAt(t, KindIndex(t, 1)) && t[KindIndex(t, 1)].kind == 'w'
  {
    KindIndexIs(t, 1);
    hide IsOption;
  }

  /** There is one kind. */
  lemma OneKind(t: seq<Token>, k: nat, m: nat)
    requires KindAt(t, k) && KindAt(t, m)
    ensures k == m
  {
    hide IsPassedOver;
  }

  lemma KindInPrefix(t: seq<Token>, n: nat, k: nat)
    requires n <= |t| && KindAt(t[..n], k)
    ensures KindAt(t, k) && t[..n][k] == t[k]
  {
    hide IsPassedOver;
    forall i | 1 <= i < k ensures IsPassedOver(t[i]) {
      assert t[..n][i] == t[i];
    }
  }

  lemma {:induction false} ExistsSkipped(t: seq<Token>, k: nat)
    requires SkipExists(t, k + 1) < |t|
    ensures NameAt(t, k, SkipExists(t, k + 1))
  {
    var j := SkipExists(t, k + 1);
    hide IsExists, IsExistsWord;
    forall i | k < i < j ensures i < |t| && IsExists(t[i]) {
      SkipsExists(t, k + 1, i);
      ExistsIs(t[i]);
    }
    ExistsIs(t[j]);
  }

  // --------------------------------------------------------- CREATE TABLE

  /** The name of the table is whole at `e`, and all behind it passes. */
  ghost predicate TableAt(t: seq<Token>, k: nat, j: nat, e: nat) {
    NameAt(t, k, j) && j < e <= |t| && IsName(t[j..e]) && TailPasses(t[e..])
  }

  lemma CreateTable(s: S.Stmt, t: seq<Token>, k: nat, final: bool)
    requires s.tokens == t && s.tail == S.NO_TAIL && k < |t| && S.CheckCreate(s, "TABLE", k + 1, final).Allowed?
    ensures var j := SkipExists(t, k + 1);
            && j < |t| && NameEnd(t, j) <= |t|
            && S.CheckTails(IN_TABLE, t[NameEnd(t, j)..]) == Some(S.CheckCreate(s, "TABLE", k + 1, final).st.tail)
  {
    hide S.CheckTails, ObjectName, NameEnd, SkipExists;
    assert s.tail.(table := true) == IN_TABLE;
  }

  lemma {:induction false} TailsOn(tail: S.Tail, a: seq<Token>, b: seq<Token>)
    ensures S.CheckTails(tail, a + b) == match S.CheckTails(tail, a) case None => None case Some(u) => S.CheckTails(u, b)
    decreases |a|
  {
    hide S.CheckTail;
    if a == [] {
      assert a + b == b;
    } else {
      assert (a + b)[1..] == a[1..] + b;
      if S.CheckTail(tail, a[0]).Some? {
        TailsOn(S.CheckTail(tail, a[0]).value, a[1..], b);
      }
    }
  }

  /** CREATE TABLE is judged by its kind. */
  lemma TableIsJudged(s: S.Stmt, t: seq<Token>, k: nat, final: bool)
    requires s.tokens == t && t != [] && IsWord(t[0], "CREATE") && KindAt(t, k) && IsWord(t[k], "TABLE")
    ensures S.CheckHead(s, final) == S.CheckCreate(s, "TABLE", k + 1, final)
  {
    IsKind(t, k);
    assert t[k].kind == 'w' && IsObject(t[k]) && Spells(t[k].text, "TABLE");
    SpellsUpper(t[k].text, "TABLE");
    CreateIsDDL(s, final);
    CreateJudged(s, t, k, final);
    hide *;
  }

  lemma CreateIsDDL(s: S.Stmt, final: bool)
    requires s.tokens != [] && IsWord(s.tokens[0], "CREATE")
    ensures S.CheckHead(s, final) == S.CheckDDL(s, final)
  {
    SpellsUpper(s.tokens[0].text, "CREATE");
    hide S.CheckDDL, S.CheckInsert, S.CheckLock, S.CheckSet, Upper, Spells;
  }

  lemma IsKind(t: seq<Token>, k: nat)
    requires KindAt(t, k)
    ensures KindIndex(t, 1) == k
  {
    KindIndexIs(t, 1);
    hide IsPassedOver, KindIndex;
  }

  lemma TableAllowed(s: S.Stmt, t: seq<Token>, k: nat, final: bool, more: seq<Token>)
    requires s.tokens == t && s.tail == S.NO_TAIL && t != [] && IsWord(t[0], "CREATE") && KindAt(t, k) && IsWord(t[k], "TABLE")
    requires S.CheckHead(s, final).Allowed? && S.CheckTails(S.CheckHead(s, final).st.tail, more).Some?
    ensures exists j, e :: TableAt(t + more, k, j, e)
  {
    TableIsJudged(s, t, k, final);
    hide S.CheckHead, S.CheckCreate, S.CheckTails, KindAt, IsWord, SkipExists, TailPasses, NameEnd;
    CreateTable(s, t, k, final);
    var j := SkipExists(t, k + 1);
    TailsOn(IN_TABLE, t[NameEnd(t, j)..], more);
    TableGoesOn(t, more, k);
  }

  /** A table's name and the tail behind it, when more tokens follow. */
  lemma TableGoesOn(t: seq<Token>, more: seq<Token>, k: nat)
    requires KindAt(t, k) && IsWord(t[0], "CREATE") && IsWord(t[k], "TABLE")
    requires var j := SkipExists(t, k + 1);
             j < |t| && NameEnd(t, j) <= |t| && S.CheckTails(IN_TABLE, t[NameEnd(t, j)..] + more).Some?
    ensures exists j, e :: TableAt(t + more, k, j, e)
  {
    var j := SkipExists(t, k + 1);
    var e := NameEnd(t, j);
    hide S.CheckTails, KindAt, IsWord, SkipExists, TailPasses;
    NameEndIsName(t, j);
    NameEndPast(t, j);
    ExistsSkipped(t, k);
    var all := t + more;
    assert all[e..] == t[e..] + more && all[j..e] == t[j..e];
    TailsPass(all[e..]);
    NameInMore(t, more, k, j);
    assert TableAt(all, k, j, e);
  }

  lemma NameEndPast(t: seq<Token>, j: nat)
    requires j < |t|
    ensures j < NameEnd(t, j)
  {
  }

  lemma NameInMore(t: seq<Token>, more: seq<Token>, k: nat, j: nat)
    requires NameAt(t, k, j)
    ensures NameAt(t + more, k, j)
  {
    hide IsExists;
    var all := t + more;
    assert all[j] == t[j];
    forall i | k < i < j ensures IsExists(all[i]) {
      assert all[i] == t[i];
    }
  }

  // ------------------------------------------------------ every statement

  /** The token at `j` ends its name with a dot, or starts a name with one. */
  predicate DotBehind(t: seq<Token>, j: nat) {
    j < |t| && t[j].kind == 'w' && t[j].text != "" && t[j].text[|t[j].text| - 1] == '.'
  }

  predicate DotBefore(t: seq<Token>, j: nat) {
    j < |t| && t[j].kind == 'w' && t[j].text != "" && t[j].text[0] == '.'
  }

  /** The name that starts at `j` is whole at `e`: one token; or two, with a dot behind the first or before
      the second; or three, the second being a dot. */
  predicate IsWhole(t: seq<Token>, j: nat, e: nat) {
    && j < e <= |t|
    && if DotBehind(t, j) then e == j + 2
       else if j + 1 < |t| && t[j + 1].kind == 'w' && t[j + 1].text == "." then e == j + 3
       else if DotBefore(t, j + 1) then e == j + 2
       else e == j + 1
  }

  /** `i` is the first dot of the word. */
  predicate FirstDot(w: string, i: nat) {
    i < |w| && w[i] == '.' && forall k :: 0 <= k < i ==> w[k] != '.'
  }

  /** The name that starts at `j` has no qualifier, or that of the database: the part of its first word up
      to the first dot, or its first token when the second starts with a dot. */
  predicate StaysIn(database: string, t: seq<Token>, j: nat) {
    && j < |t|
    && (t[j].kind == 'w' && '.' in t[j].text ==> database != "" && FirstDot(t[j].text, |database|) && t[j].text[..|database|] == database)
    && (!(t[j].kind == 'w' && '.' in t[j].text) && DotBefore(t, j + 1) ==> database != "" && t[j].text == database)
  }

  predicate AllStayIn(database: string, t: seq<Token>, i: nat) {
    forall j :: i <= j < |t| && ((t[j].kind == 'w' && !DotBefore(t, j)) || t[j].kind == '`') ==> StaysIn(database, t, j)
  }

  /** The object behind `k` is named from `j` to `e`, perhaps behind IF, NOT and EXISTS. */
  predicate ObjectAt(database: string, t: seq<Token>, k: nat, j: nat, e: nat) {
    NameAt(t, k, j) && IsWhole(t, j, e) && StaysIn(database, t, j)
  }

  ghost predicate NamesObject(database: string, t: seq<Token>, k: nat) {
    exists j: nat, e: nat :: ObjectAt(database, t, k, j, e)
  }

  predicate NamesDatabase(database: string, t: Token) {
    database != "" && t.text == database && (t.kind == 'w' || VG.IsQuote(t.kind))
  }

  /** The table of a trigger is named behind the first ON, at most seven tokens behind its name. */
  ghost predicate TriggerOn(database: string, t: seq<Token>, k: nat, on: nat) {
    && k + 2 <= on < k + 9 && on < |t| && IsWord(t[on], "ON") && (forall i :: k + 2 <= i < on ==> !IsWord(t[i], "ON"))
    && NamesObject(database, t, on)
  }

  /** ALTER TABLE turns the keys of a table off or on, and does nothing else. */
  predicate AltersKeys(database: string, t: seq<Token>, k: nat, e: nat) {
    && |t| == e + 2 && IsWhole(t, k + 1, e) && StaysIn(database, t, k + 1)
    && (IsWord(t[e], "DISABLE") || IsWord(t[e], "ENABLE")) && IsWord(t[e + 1], "KEYS")
  }

  ghost predicate Creates(database: string, t: seq<Token>, k: nat) {
    && k < |t| && IsObject(t[k])
    && (exists j: nat, e: nat :: ObjectAt(database, t, k, j, e) && (IsWord(t[k], "TABLE") ==> TailPasses(t[e..])))
    && (IsWord(t[k], "TRIGGER") ==> exists on: nat :: TriggerOn(database, t, k, on))
  }

  predicate IsCharsetOption(t: Token) {
    IsWord(t, "CHARACTER") || IsWord(t, "CHARSET") || IsWord(t, "DEFAULT") || IsWord(t, "COLLATE")
  }

  /** The target database, or the current one in ALTER DATABASE without a name. */
  ghost predicate IsOfDatabase(database: string, t: seq<Token>, k: nat, alters: bool) {
    && k < |t| && (IsWord(t[k], "DATABASE") || IsWord(t[k], "SCHEMA"))
    && exists j: nat :: NameAt(t, k, j) && (NamesDatabase(database, t[j]) || (alters && IsCharsetOption(t[j])))
  }

  ghost predicate DDLShape(database: string, t: seq<Token>, k: nat, whole: bool)
    requires t != []
  {
    && KindAt(t, k)
    && (|| (IsWord(t[0], "CREATE") && (Creates(database, t, k) || IsOfDatabase(database, t, k, false)))
        || (IsWord(t[0], "DROP") && whole && IsObject(t[k]) && AllStayIn(database, t, k + 1))
        || (IsWord(t[0], "ALTER") &&
              ((whole && IsWord(t[k], "TABLE") && exists e: nat :: AltersKeys(database, t, k, e)) || IsOfDatabase(database, t, k, true))))
  }

  predicate IsTables(t: seq<Token>) {
    |t| > 1 && (IsWord(t[1], "TABLES") || IsWord(t[1], "TABLE"))
  }

  /** A statement mysqldump writes other than INSERT, REPLACE and SET; `whole` when that is all of it. */
  ghost predicate Shape(database: string, t: seq<Token>, whole: bool)
    requires t != []
  {
    || IsWord(t[0], "COMMIT")
    || (IsWord(t[0], "UNLOCK") && IsTables(t)) || (IsWord(t[0], "LOCK") && whole && IsTables(t) && AllStayIn(database, t, 2))
    || (IsWord(t[0], "USE") && |t| > 1 && NamesDatabase(database, t[1]))
    || exists k: nat :: DDLShape(database, t, k, whole)
  }

  // ---------------------------------------------------------------- names

  lemma DotsAre(t: seq<Token>, j: nat)
    requires j < |t|
    ensures DotBehind(t, j) <==> t[j].kind == 'w' && HasSuffix(t[j].text, ".")
    ensures DotBefore(t, j) <==> t[j].kind == 'w' && HasPrefix(t[j].text, ".")
  {
    var w := t[j].text;
    if w != "" {
      assert w[|w| - 1..] == [w[|w| - 1]] && w[..1] == [w[0]];
    }
  }

  lemma WholeIs(t: seq<Token>, j: nat, e: nat)
    requires j < |t|
    ensures IsWhole(t, j, e) <==> e == NameEnd(t, j) <= |t|
  {
    DotsAre(t, j);
    if j + 1 < |t| {
      DotsAre(t, j + 1);
    }
    hide DotBehind, DotBefore, HasPrefix, HasSuffix;
  }

  lemma FirstDotIs(w: string, i: nat)
    requires '.' in w
    ensures FirstDot(w, i) <==> i == IndexOf(w, '.')
  {
    var d := IndexOf(w, '.');
    assert d < |w| by {
      assert w[..|w|] == w;
    }
    assert forall k :: 0 <= k < d ==> w[..d][k] == w[k] && w[k] in w[..d];
  }

  lemma StaysIs(database: string, t: seq<Token>, j: nat)
    requires j < |t|
    ensures StaysIn(database, t, j) <==> QualifierOk(database, t[j..])
  {
    assert t[j..][0] == t[j];
    if j + 1 < |t| {
      assert t[j..][1] == t[j + 1];
      DotsAre(t, j + 1);
    }
    if t[j].kind == 'w' && '.' in t[j].text {
      FirstDotIs(t[j].text, |database|);
    }
    hide DotBefore, IndexOf, HasPrefix, FirstDot;
  }

  lemma AllStayIs(database: string, t: seq<Token>, i: nat)
    requires i <= |t|
    ensures AllStayIn(database, t, i) <==> AllNamesOk(database, t[i..])
  {
    hide StaysIn, QualifierOk, DotBefore, HasPrefix;
    forall j | i <= j < |t| ensures StaysIn(database, t, j) <==> QualifierOk(database, t[i..][j - i..]) {
      assert t[i..][j - i..] == t[j..];
      StaysIs(database, t, j);
    }
    forall j | i <= j < |t| ensures DotBefore(t, j) <==> t[j].kind == 'w' && HasPrefix(t[j].text, ".") {
      DotsAre(t, j);
    }
    if AllStayIn(database, t, i) {
      forall m | 0 <= m < |t[i..]| && ((t[i..][m].kind == 'w' && !HasPrefix(t[i..][m].text, ".")) || t[i..][m].kind == '`')
        ensures QualifierOk(database, t[i..][m..])
      {
        assert t[i..][m] == t[i + m] && StaysIn(database, t, i + m);
      }
    }
    if AllNamesOk(database, t[i..]) {
      forall j | i <= j < |t| && ((t[j].kind == 'w' && !DotBefore(t, j)) || t[j].kind == '`') ensures StaysIn(database, t, j) {
        assert t[i..][j - i] == t[j];
      }
    }
  }

  /** There is one place a name can start. */
  lemma {:induction false} NameAtIs(t: seq<Token>, k: nat, j: nat)
    ensures NameAt(t, k, j) <==> j == SkipExists(t, k + 1) < |t|
  {
    if SkipExists(t, k + 1) < |t| {
      ExistsSkipped(t, k);
      OneName(t, k, j, SkipExists(t, k + 1));
    } else if NameAt(t, k, j) {
      ExistsIs(t[j]);
      StopsSkipping(t, k + 1, j);
    }
  }

  lemma OneName(t: seq<Token>, k: nat, i: nat, j: nat)
    ensures NameAt(t, k, i) && NameAt(t, k, j) ==> i == j
  {
    hide IsExists;
  }

  lemma {:induction false} StopsSkipping(t: seq<Token>, i: nat, j: nat)
    requires i <= j < |t| && !IsExistsWord(t[j])
    ensures SkipExists(t, i) <= j
    decreases j - i
  {
    hide IsExistsWord;
    if i < j && IsExistsWord(t[i]) {
      StopsSkipping(t, i + 1, j);
    }
  }

  lemma ObjectNameIs(database: string, t: seq<Token>, k: nat)
    ensures ObjectName(database, t, k + 1, true) == Accept <==> NamesObject(database, t, k)
    ensures ObjectName(database, t, k + 1, false) == Accept ==> NamesObject(database, t, k)
    ensures forall j, e :: ObjectAt(database, t, k, j, e) ==> j == SkipExists(t, k + 1) < |t| && e == NameEnd(t, j)
    ensures NamesObject(database, t, k) ==> var j := SkipExists(t, k + 1); ObjectAt(database, t, k, j, NameEnd(t, j))
  {
    var j := SkipExists(t, k + 1);
    hide SkipExists, NameEnd, QualifierOk, StaysIn, IsWhole, NameAt;
    forall i: nat, e: nat ensures ObjectAt(database, t, k, i, e) <==> i == j < |t| && QualifierOk(database, t[j..]) && e == NameEnd(t, j) <= |t| {
      NameAtIs(t, k, i);
      if i == j && j < |t| {
        WholeIs(t, j, e);
        StaysIs(database, t, j);
      }
    }
    if j < |t| {
      assert ObjectAt(database, t, k, j, NameEnd(t, j)) <==> QualifierOk(database, t[j..]) && NameEnd(t, j) <= |t|;
    }
  }

  // ---------------------------------------------------------------- heads

  lemma {:induction false} OnIs(t: seq<Token>, j: nat, stop: nat)
    ensures var on := FindOn(t, j, stop);
            && (on == j || on <= |t|) && (on < |t| && on < stop ==> IsWord(t[on], "ON"))
            && forall i :: j <= i < on && i < |t| ==> !IsWord(t[i], "ON")
    decreases stop - j
  {
    if j < |t| {
      IsIsWord(t[j], "ON");
    }
    hide IsWord, Token.Is;
    if j < |t| && j < stop && !t[j].Is("ON") {
      OnIs(t, j + 1, stop);
    }
  }

  lemma TriggerIs(database: string, t: seq<Token>, k: nat, final: bool)
    ensures TriggerTable(database, t, k + 1, final) == Accept ==> exists on: nat :: TriggerOn(database, t, k, on)
    ensures final && (exists on: nat :: TriggerOn(database, t, k, on)) ==> TriggerTable(database, t, k + 1, final) == Accept
  {
    hide ObjectName, FindOn, IsWord, NamesObject;
    var on := FindOn(t, k + 2, k + 9);
    OnIs(t, k + 2, k + 9);
    ObjectNameIs(database, t, on);
    if TriggerTable(database, t, k + 1, final) == Accept {
      assert TriggerOn(database, t, k, on);
    }
    if m: nat :| TriggerOn(database, t, k, m) {
      assert m == on;
    }
  }

  lemma CreateIs(s: S.Stmt, t: seq<Token>, k: nat, final: bool)
    requires s.tokens == t && s.tail == S.NO_TAIL && k < |t| && IsObject(t[k])
    ensures S.CheckCreate(s, Upper(t[k].text), k + 1, final).Allowed? ==> Creates(s.database, t, k)
    ensures final && Creates(s.database, t, k) ==> S.CheckCreate(s, Upper(t[k].text), k + 1, final).Allowed?
  {
    SpellsUpper(t[k].text, "TABLE");
    SpellsUpper(t[k].text, "TRIGGER");
    ObjectNameIs(s.database, t, k);
    TriggerIs(s.database, t, k, final);
    var j := SkipExists(t, k + 1);
    if j < |t| && NameEnd(t, j) <= |t| {
      TailsPass(t[NameEnd(t, j)..]);
    }
    hide ObjectName, S.CheckTails, TriggerTable, NameEnd, SkipExists, IsObject, TriggerOn, Upper, Spells, TailPasses, ObjectAt;
    assert s.tail.(table := true) == IN_TABLE;
  }

  lemma AlterIs(database: string, t: seq<Token>, k: nat, final: bool)
    ensures AlterTable(database, t, k + 1, final) == Accept <==> final && exists e: nat :: AltersKeys(database, t, k, e)
  {
    if k + 1 < |t| {
      StaysIs(database, t, k + 1);
      var e := NameEnd(t, k + 1);
      WholeIs(t, k + 1, e);
      if |t| == e + 2 {
        IsIsWord(t[e], "DISABLE");
        IsIsWord(t[e], "ENABLE");
        IsIsWord(t[e + 1], "KEYS");
      }
      hide QualifierOk, NameEnd, Token.Is, IsWord, StaysIn, IsWhole;
      if AlterTable(database, t, k + 1, final) == Accept {
        assert AltersKeys(database, t, k, e);
      }
      if m: nat :| AltersKeys(database, t, k, m) {
        WholeIs(t, k + 1, m);
      }
    }
  }

  lemma DatabaseIs(database: string, verb: string, t: seq<Token>, k: nat, final: bool)
    requires k < |t| && (IsWord(t[k], "DATABASE") || IsWord(t[k], "SCHEMA"))
    ensures DatabaseName(database, verb, t[k + 1..], final) == Accept <==> IsOfDatabase(database, t, k, verb == "ALTER")
  {
    SH.SkipsShift(t, k + 1, 0);
    hide SkipExists, Token.Is, IsWord, NameAt;
    var j := SkipExists(t, k + 1);
    var rest := t[k + 1..];
    if j < |t| {
      assert rest[SkipExists(rest, 0)] == t[j];
      IsIsWord(t[j], "CHARACTER");
      IsIsWord(t[j], "CHARSET");
      IsIsWord(t[j], "DEFAULT");
      IsIsWord(t[j], "COLLATE");
    }
    forall m: nat ensures NameAt(t, k, m) <==> m == j < |t| {
      NameAtIs(t, k, m);
    }
  }

  /** CREATE, DROP and ALTER are judged by the kind they name. */
  lemma DDLIs(s: S.Stmt, t: seq<Token>, final: bool)
    requires s.tokens == t && t != [] && s.tail == S.NO_TAIL && (IsWord(t[0], "CREATE") || IsWord(t[0], "DROP") || IsWord(t[0], "ALTER"))
    ensures S.CheckDDL(s, final).Allowed? ==> exists k: nat :: DDLShape(s.database, t, k, final)
    ensures final && (exists k: nat :: DDLShape(s.database, t, k, true)) ==> S.CheckDDL(s, final).Allowed?
  {
    hide S.CheckDDL, DDLShape, KindIndex, KindAt, IsWord;
    var k := KindIndex(t, 1);
    if k < |t| {
      KindIs(t);
      DDLOfKind(s, t, k, final);
    } else {
      NoKind(s, t, final);
    }
    if m: nat :| DDLShape(s.database, t, m, true) {
      ShapeHasKind(s.database, t, m);
    }
  }

  lemma ShapeHasKind(database: string, t: seq<Token>, m: nat)
    requires t != [] && DDLShape(database, t, m, true)
    ensures m == KindIndex(t, 1) < |t|
  {
    hide IsWord, Creates, IsOfDatabase, AltersKeys, AllStayIn, IsObject;
    IsKind(t, m);
  }

  lemma NoKind(s: S.Stmt, t: seq<Token>, final: bool)
    requires s.tokens == t && t != [] && KindIndex(t, 1) == |t|
    ensures !S.CheckDDL(s, final).Allowed?
  {
    hide KindIndex;
  }

  lemma VerbUppers(t: Token)
    requires IsWord(t, "CREATE") || IsWord(t, "DROP") || IsWord(t, "ALTER")
    ensures (Upper(t.text) == "CREATE") == IsWord(t, "CREATE") && (Upper(t.text) == "DROP") == IsWord(t, "DROP")
    ensures (Upper(t.text) == "ALTER") == IsWord(t, "ALTER")
  {
    SpellsUpper(t.text, "CREATE");
    SpellsUpper(t.text, "DROP");
    SpellsUpper(t.text, "ALTER");
    hide Upper, Spells;
  }

  lemma KindUppers(t: Token)
    requires t.kind == 'w'
    ensures (Upper(t.text) == "TABLE") == IsWord(t, "TABLE") && (Upper(t.text) == "DATABASE") == IsWord(t, "DATABASE")
    ensures (Upper(t.text) == "SCHEMA") == IsWord(t, "SCHEMA")
    ensures IsDDLObject(Upper(t.text)) == IsObject(t)
    ensures IsObject(t) ==> !IsWord(t, "DATABASE") && !IsWord(t, "SCHEMA")
  {
    ObjectIs(t);
    SpellsUpper(t.text, "TABLE");
    SpellsUpper(t.text, "DATABASE");
    SpellsUpper(t.text, "SCHEMA");
    hide Spells, IsObject;
  }

  lemma DDLJudged(s: S.Stmt, t: seq<Token>, k: nat, final: bool)
    requires s.tokens == t && t != [] && k == KindIndex(t, 1) < |t|
    ensures var (kind, verb) := (Upper(t[k].text), Upper(t[0].text));
            S.CheckDDL(s, final) ==
              if IsDDLObject(kind) && verb == "DROP" then
                if !final then S.NeedsMore else S.Require(s, AllNamesOk(s.database, t[k + 1..]))
              else if kind == "TABLE" && verb == "ALTER" then S.Judge(s, AlterTable(s.database, t, k + 1, final))
              else if IsDDLObject(kind) && verb == "CREATE" then S.CheckCreate(s, kind, k + 1, final)
              else if (kind == "DATABASE" || kind == "SCHEMA") && verb != "DROP" then
                S.Judge(s, DatabaseName(s.database, verb, t[k + 1..], final))
              else S.Refused
  {
    hide KindIndex, AlterTable, AllNamesOk, DatabaseName, S.CheckCreate, Upper, IsDDLObject, S.Judge, S.Require, SkippedInDDL, IsWord, Spells, IsObject, AllStayIn;
    if !S.CheckDDL(s, final).Refused? {
      assert k + 1 <= |t|;
    }
  }

  lemma DropIs(s: S.Stmt, t: seq<Token>, k: nat, final: bool)
    requires s.tokens == t && t != [] && IsWord(t[0], "DROP") && k == KindIndex(t, 1) < |t| && t[k].kind == 'w'
    ensures S.CheckDDL(s, final).Allowed? <==> final && IsObject(t[k]) && AllStayIn(s.database, t, k + 1)
  {
    DDLJudged(s, t, k, final);
    VerbUppers(t[0]);
    KindUppers(t[k]);
    AllStayIs(s.database, t, k + 1);
    hide KindIndex, SkippedInDDL, AlterTable, AllNamesOk, DatabaseName, S.CheckCreate, S.CheckDDL, Upper, IsObject, IsDDLObject, IsWord, AllStayIn;
  }

  lemma AlterJudged(s: S.Stmt, t: seq<Token>, k: nat, final: bool)
    requires s.tokens == t && t != [] && IsWord(t[0], "ALTER") && k == KindIndex(t, 1) < |t| && t[k].kind == 'w'
    ensures S.CheckDDL(s, final) ==
              if IsWord(t[k], "TABLE") then S.Judge(s, AlterTable(s.database, t, k + 1, final))
              else if IsWord(t[k], "DATABASE") || IsWord(t[k], "SCHEMA") then S.Judge(s, DatabaseName(s.database, "ALTER", t[k + 1..], final))
              else S.Refused
  {
    DDLJudged(s, t, k, final);
    VerbUppers(t[0]);
    KindUppers(t[k]);
    OneVerb(t[0]);
    hide *;
  }

  lemma AlterOfKind(s: S.Stmt, t: seq<Token>, k: nat, final: bool)
    requires s.tokens == t && t != [] && IsWord(t[0], "ALTER") && k == KindIndex(t, 1) < |t| && t[k].kind == 'w'
    ensures S.CheckDDL(s, final).Allowed? <==>
              (final && IsWord(t[k], "TABLE") && exists e: nat :: AltersKeys(s.database, t, k, e)) || IsOfDatabase(s.database, t, k, true)
  {
    AlterJudged(s, t, k, final);
    AlterIs(s.database, t, k, final);
    JudgedIs(s, AlterTable(s.database, t, k + 1, final));
    JudgedIs(s, DatabaseName(s.database, "ALTER", t[k + 1..], final));
    OfDatabase(s.database, t, k);
    hide *;
    if IsWord(t[k], "DATABASE") || IsWord(t[k], "SCHEMA") {
      DatabaseIs(s.database, "ALTER", t, k, final);
      KindIsOne(t[k]);
    }
  }

  lemma KindIsOne(t: Token)
    requires IsWord(t, "DATABASE") || IsWord(t, "SCHEMA")
    ensures !IsWord(t, "TABLE")
  {
  }

  lemma CreateJudged(s: S.Stmt, t: seq<Token>, k: nat, final: bool)
    requires s.tokens == t && t != [] && IsWord(t[0], "CREATE") && k == KindIndex(t, 1) < |t| && t[k].kind == 'w'
    ensures S.CheckDDL(s, final) ==
              if IsObject(t[k]) then S.CheckCreate(s, Upper(t[k].text), k + 1, final)
              else if IsWord(t[k], "DATABASE") || IsWord(t[k], "SCHEMA") then S.Judge(s, DatabaseName(s.database, "CREATE", t[k + 1..], final))
              else S.Refused
  {
    DDLJudged(s, t, k, final);
    VerbUppers(t[0]);
    KindUppers(t[k]);
    OneVerb(t[0]);
    hide *;
  }

  lemma JudgedIs(s: S.Stmt, v: Verdict)
    ensures S.Judge(s, v).Allowed? <==> v == Accept
  {
  }

  lemma CreateObject(s: S.Stmt, t: seq<Token>, k: nat, final: bool)
    requires s.tokens == t && t != [] && s.tail == S.NO_TAIL && IsWord(t[0], "CREATE") && k == KindIndex(t, 1) < |t| && t[k].kind == 'w'
    requires IsObject(t[k])
    ensures S.CheckDDL(s, final).Allowed? ==> Creates(s.database, t, k)
    ensures final && Creates(s.database, t, k) ==> S.CheckDDL(s, final).Allowed?
  {
    CreateJudged(s, t, k, final);
    CreateIs(s, t, k, final);
    hide KindIndex, SkippedInDDL, S.CheckCreate, S.CheckDDL, Upper, IsObject, IsWord, Creates;
  }

  lemma CreateDatabase(s: S.Stmt, t: seq<Token>, k: nat, final: bool)
    requires s.tokens == t && t != [] && IsWord(t[0], "CREATE") && k == KindIndex(t, 1) < |t| && t[k].kind == 'w' && !IsObject(t[k])
    ensures S.CheckDDL(s, final).Allowed? <==> IsOfDatabase(s.database, t, k, false)
  {
    CreateJudged(s, t, k, final);
    OfDatabase(s.database, t, k);
    JudgedIs(s, DatabaseName(s.database, "CREATE", t[k + 1..], final));
    NoAlter();
    hide *;
    if IsWord(t[k], "DATABASE") || IsWord(t[k], "SCHEMA") {
      DatabaseIs(s.database, "CREATE", t, k, final);
    }
  }

  lemma NoAlter()
    ensures "CREATE" != "ALTER"
  {
  }

  lemma CreateOfKind(s: S.Stmt, t: seq<Token>, k: nat, final: bool)
    requires s.tokens == t && t != [] && s.tail == S.NO_TAIL && IsWord(t[0], "CREATE") && k == KindIndex(t, 1) < |t| && t[k].kind == 'w'
    ensures S.CheckDDL(s, final).Allowed? ==> Creates(s.database, t, k) || IsOfDatabase(s.database, t, k, false)
    ensures final && (Creates(s.database, t, k) || IsOfDatabase(s.database, t, k, false)) ==> S.CheckDDL(s, final).Allowed?
  {
    KindUppers(t[k]);
    CreatesObject(s.database, t, k);
    OfDatabase(s.database, t, k);
    hide KindIndex, SkippedInDDL, S.CheckDDL, Upper, IsObject, IsDDLObject, IsWord, Creates, IsOfDatabase;
    if IsObject(t[k]) {
      CreateObject(s, t, k, final);
    } else {
      CreateDatabase(s, t, k, final);
    }
  }

  lemma DDLOfKind(s: S.Stmt, t: seq<Token>, k: nat, final: bool)
    requires s.tokens == t && t != [] && s.tail == S.NO_TAIL && (IsWord(t[0], "CREATE") || IsWord(t[0], "DROP") || IsWord(t[0], "ALTER"))
    requires k == KindIndex(t, 1) < |t| && KindAt(t, k) && t[k].kind == 'w'
    ensures S.CheckDDL(s, final).Allowed? ==> DDLShape(s.database, t, k, final)
    ensures final && DDLShape(s.database, t, k, true) ==> S.CheckDDL(s, final).Allowed?
  {
    OneVerb(t[0]);
    hide KindIndex, SkippedInDDL, S.CheckDDL, KindAt, IsObject, Creates, IsOfDatabase, AltersKeys, IsWord, AllStayIn;
    if IsWord(t[0], "DROP") {
      DropIs(s, t, k, final);
    } else if IsWord(t[0], "ALTER") {
      AlterOfKind(s, t, k, final);
    } else {
      CreateOfKind(s, t, k, final);
    }
  }

  lemma CreatesObject(database: string, t: seq<Token>, k: nat)
    requires k < |t|
    ensures Creates(database, t, k) ==> IsObject(t[k])
    ensures IsWord(t[k], "TABLE") ==> IsObject(t[k])
  {
    hide ObjectAt, TailPasses, TriggerOn;
  }

  lemma OfDatabase(database: string, t: seq<Token>, k: nat)
    requires k < |t|
    ensures IsOfDatabase(database, t, k, true) || IsOfDatabase(database, t, k, false) ==> IsWord(t[k], "DATABASE") || IsWord(t[k], "SCHEMA")
  {
  }

  lemma OneVerb(t: Token)
    ensures !(IsWord(t, "CREATE") && IsWord(t, "DROP")) && !(IsWord(t, "CREATE") && IsWord(t, "ALTER")) && !(IsWord(t, "DROP") && IsWord(t, "ALTER"))
  {
    SpellsUpper(t.text, "CREATE");
    SpellsUpper(t.text, "DROP");
    SpellsUpper(t.text, "ALTER");
    hide Upper, Spells;
  }

  // ---------------------------------------------------------- every head

  lemma VerbWords(t: Token)
    ensures t.Is("COMMIT") == IsWord(t, "COMMIT") && t.Is("LOCK") == IsWord(t, "LOCK") && t.Is("UNLOCK") == IsWord(t, "UNLOCK")
    ensures t.Is("SET") == IsWord(t, "SET") && t.Is("USE") == IsWord(t, "USE") && t.Is("CREATE") == IsWord(t, "CREATE")
    ensures t.Is("DROP") == IsWord(t, "DROP") && t.Is("ALTER") == IsWord(t, "ALTER")
    ensures t.Is("TABLES") == IsWord(t, "TABLES") && t.Is("TABLE") == IsWord(t, "TABLE")
  {
    hide IsWord, Token.Is;
    IsIsWord(t, "COMMIT");
    IsIsWord(t, "LOCK");
    IsIsWord(t, "UNLOCK");
    IsIsWord(t, "SET");
    IsIsWord(t, "USE");
    IsIsWord(t, "CREATE");
    IsIsWord(t, "DROP");
    IsIsWord(t, "ALTER");
    IsIsWord(t, "TABLES");
    IsIsWord(t, "TABLE");
  }

  lemma VerbsAre(t: Token)
    ensures IsWord(t, "COMMIT") <==> t.kind == 'w' && Upper(t.text) == "COMMIT"
    ensures IsWord(t, "LOCK") <==> t.kind == 'w' && Upper(t.text) == "LOCK"
    ensures IsWord(t, "UNLOCK") <==> t.kind == 'w' && Upper(t.text) == "UNLOCK"
    ensures IsWord(t, "USE") <==> t.kind == 'w' && Upper(t.text) == "USE"
    ensures IsWord(t, "CREATE") <==> t.kind == 'w' && Upper(t.text) == "CREATE"
    ensures IsWord(t, "DROP") <==> t.kind == 'w' && Upper(t.text) == "DROP"
    ensures IsWord(t, "ALTER") <==> t.kind == 'w' && Upper(t.text) == "ALTER"
  {
    SpellsUpper(t.text, "COMMIT");
    SpellsUpper(t.text, "LOCK");
    SpellsUpper(t.text, "UNLOCK");
    SpellsUpper(t.text, "USE");
    SpellsUpper(t.text, "CREATE");
    SpellsUpper(t.text, "DROP");
    SpellsUpper(t.text, "ALTER");
    hide Upper, Spells;
  }

  predicate IsDDLVerb(t: Token) {
    IsWord(t, "CREATE") || IsWord(t, "DROP") || IsWord(t, "ALTER")
  }

  lemma OneVerbOnly(t: Token)
    ensures IsWord(t, "COMMIT") ==> !IsWord(t, "LOCK") && !IsWord(t, "UNLOCK") && !IsWord(t, "USE") && !IsDDLVerb(t)
    ensures IsWord(t, "LOCK") ==> !IsWord(t, "UNLOCK") && !IsWord(t, "USE") && !IsDDLVerb(t)
    ensures IsWord(t, "UNLOCK") ==> !IsWord(t, "USE") && !IsDDLVerb(t)
    ensures IsWord(t, "USE") ==> !IsDDLVerb(t)
  {
    VerbsAre(t);
    hide IsWord, Upper;
  }

  /** What the head check does with each verb. */
  lemma JudgedByVerb(s: S.Stmt, t: seq<Token>, final: bool)
    requires s.tokens == t && t != []
    ensures var v := t[0];
            S.CheckHead(s, final) ==
              if v.Is("COMMIT") then S.Allowed(s)
              else if v.Is("INSERT") || v.Is("REPLACE") then S.CheckInsert(s, final)
              else if v.Is("LOCK") || v.Is("UNLOCK") then S.CheckLock(s, final)
              else if v.Is("SET") then S.CheckHead(s, final)
              else if v.Is("USE") then
                if |t| < 2 then if final then S.Refused else S.NeedsMore else S.Require(s, NameOk(s.database, t[1]))
              else if v.Is("CREATE") || v.Is("DROP") || v.Is("ALTER") then S.CheckDDL(s, final)
              else S.Refused
  {
    hide S.CheckInsert, S.CheckLock, S.CheckDDL, S.CheckSet, NameOk, Token.Is, S.Require;
  }

  lemma LockIs(s: S.Stmt, t: seq<Token>, final: bool)
    requires s.tokens == t && t != [] && (IsWord(t[0], "LOCK") || IsWord(t[0], "UNLOCK"))
    ensures S.CheckLock(s, final).Allowed? <==> IsTables(t) && (IsWord(t[0], "UNLOCK") || (final && AllStayIn(s.database, t, 2)))
  {
    VerbWords(t[0]);
    if |t| > 1 {
      VerbWords(t[1]);
      AllStayIs(s.database, t, 2);
    }
    hide Token.Is, IsWord, AllStayIn, AllNamesOk;
  }

  lemma NameIs(database: string, t: Token)
    ensures NameOk(database, t) <==> NamesDatabase(database, t)
  {
  }

  lemma ShapeOfDDL(database: string, t: seq<Token>, whole: bool)
    requires t != [] && exists k: nat :: DDLShape(database, t, k, whole)
    ensures IsDDLVerb(t[0])
  {
    hide KindAt, Creates, IsOfDatabase, AltersKeys, AllStayIn, IsObject, IsWord;
  }

  /** Main result on heads: any head but that of INSERT, REPLACE and SET is allowed at the end of its
      statement exactly when it is a statement mysqldump writes, of objects of the database; earlier, it
      is one. */
  lemma HeadIs(s: S.Stmt, t: seq<Token>, final: bool)
    requires s.tokens == t && t != [] && s.tail == S.NO_TAIL && !IsInsertVerb(t[0]) && !IsWord(t[0], "SET")
    ensures S.CheckHead(s, final).Allowed? ==> Shape(s.database, t, final)
    ensures final && Shape(s.database, t, true) ==> S.CheckHead(s, final).Allowed?
  {
    VerbIs(t[0]);
    VerbWords(t[0]);
    JudgedByVerb(s, t, final);
    OneVerbOnly(t[0]);
    hide S.CheckHead, S.CheckInsert, S.CheckLock, S.CheckDDL, S.CheckSet, IsWord, Token.Is, IsInsertVerb, DDLShape, IsTables, AllStayIn, NameOk, NamesDatabase;
    if exists k: nat :: DDLShape(s.database, t, k, true) {
      ShapeOfDDL(s.database, t, true);
    }
    if |t| > 1 {
      NameIs(s.database, t[1]);
    }
    if IsWord(t[0], "LOCK") || IsWord(t[0], "UNLOCK") {
      LockIs(s, t, final);
    } else if IsDDLVerb(t[0]) {
      DDLIs(s, t, final);
    }
  }

  // ------------------------------------------------------------ whole dumps

  /** The statement is one of those mysqldump writes, whole or as far as its head goes, or a CREATE that
      ends at the dot behind a qualifier. */
  ghost predicate IsDumped(database: string, t: seq<Token>)
    requires t != []
  {
    || IsInsertVerb(t[0]) || IsWord(t[0], "SET")
    || Shape(database, t, true)
    || (exists n :: 0 < n <= |t| && Shape(database, t[..n], false))
    || (IsWord(t[0], "CREATE") && EndsInDot(t))
  }

  lemma CutEndsInDot(database: string, t: seq<Token>, j: nat)
    requires FH.CutOff(database, t, j)
    ensures EndsInDot(t)
  {
    hide QualifierOk;
  }

  lemma CutOffEnds(database: string, t: seq<Token>)
    requires t != [] && FH.NameCutOff(database, t)
    ensures (IsInsertVerb(t[0]) || IsWord(t[0], "CREATE")) && EndsInDot(t)
  {
    VerbIs(t[0]);
    VerbWords(t[0]);
    hide FH.CutOff, SkipExists, SkipInsertModifiers, KindIndex, EndsInDot, IsWord, Token.Is, ObjectName, FindOn, IsInsertVerb, Upper;
    if IsInsertVerb(t[0]) {
      CutEndsInDot(database, t, SkipExists(t, SkipInsertModifiers(t, 1)));
    } else {
      var k := KindIndex(t, 1);
      if FH.CutOff(database, t, SkipExists(t, k + 1)) {
        CutEndsInDot(database, t, SkipExists(t, k + 1));
      } else {
        CutEndsInDot(database, t, SkipExists(t, FindOn(t, k + 2, k + 9) + 1));
      }
    }
  }

  lemma ClosingHead(x: S.Stmt)
    requires !x.accepted && x.tokens != [] && S.Closing(x).Some?
    ensures S.CheckHead(x, true).NeedsMore? || S.CheckHead(x, true).Allowed?
  {
    hide S.CheckHead, V.End;
  }

  lemma WaitingDumped(x: S.Stmt, es: Shown)
    requires SR.Waiting(x, ReadAll(es)) && S.Closing(x).Some? && ReadAll(es).done != []
    ensures IsDumped(x.database, ReadAll(es).done)
  {
    hide S.CheckHead, S.Closing, ReadAll, Shape, EndsInDot, IsWord, IsInsertVerb, FH.NameCutOff, SR.Waits;
    ClosingHead(x);
    var t := ReadAll(es).done;
    if IsInsertVerb(t[0]) || IsWord(t[0], "SET") {
    } else if S.CheckHead(x, true).Allowed? {
      HeadIs(x, t, true);
    } else {
      FH.WantsMoreExactly(x);
      CutOffEnds(x.database, t);
    }
  }

  lemma LetsShape(database: string, t: seq<Token>, tail: S.Tail, values: Option<V.Values>)
    requires SR.Lets(database, t, tail, values)
    ensures t != [] && (IsInsertVerb(t[0]) || IsWord(t[0], "SET") || Shape(database, t, false))
  {
    hide S.CheckHead, Shape, SR.Waits, IsInsertVerb, IsWord;
    var s :| SR.Keeps(s, database, t) && S.CheckHead(s, false).Allowed? && S.CheckHead(s, false).st.tail == tail && S.CheckHead(s, false).st.values == values;
    if !IsInsertVerb(t[0]) && !IsWord(t[0], "SET") {
      HeadIs(s, t, false);
    }
  }

  lemma NamedFirst(t: seq<Token>, all: seq<Token>)
    requires IB.NamesSome(t) && t <= all
    ensures all != [] && IsInsertVerb(all[0])
  {
  }

  lemma OneStatement(database: string, es: Shown)
    requires Ends(database, es) && TokensOf(es) != []
    ensures IsDumped(database, TokensOf(es))
  {
    hide IB.Filling, SR.Waiting, S.Closing, SR.Lets, InQuote, ReadAll, IsInsertVerb, Shape, EndsInDot, F.IsToken, S.CheckTails, IsWord, IB.NamesSome;
    var x: S.Stmt :| x.database == database && S.Closing(x).Some? && IB.Kept(x, es) && (InQuote(es) == Some(false) || SR.Reads(x, ReadAll(es)));
    var t := ReadAll(es).done;
    assert TokensOf(es) == t;
    if SR.Waiting(x, ReadAll(es)) {
      WaitingDumped(x, es);
    } else if SR.Reads(x, ReadAll(es)) {
      var n: nat, tail :| SR.Passing(x, ReadAll(es), n, tail);
      LetsShape(x.database, t[..n], tail, None);
    } else {
      FilledFirst(x, es);
    }
  }

  lemma FilledFirst(x: S.Stmt, es: Shown)
    requires exists h, dropped :: IB.Filling(x, es, h, dropped)
    ensures ReadAll(es).done != [] && IsInsertVerb(ReadAll(es).done[0])
  {
    hide ReadAll, InQuote, IB.NamesSome, IB.IsDropped, VG.Fed, TokensOf, IsInsertVerb;
    var h: nat, dropped :| IB.Filling(x, es, h, dropped);
    NamedFirst(TokensOf(es[..h]), ReadAll(es).done);
  }

  /** Main result: every statement of an accepted dump is one of those mysqldump writes. */
  lemma OnlyDumpedStatements(order: S.Order, text: string, database: string, k: nat)
    requires L.Accepts(order, text, database) && k < |Sentences.Sentences(text)| && TokensOf(Sentences.Sentences(text)[k]) != []
    ensures IsDumped(database, TokensOf(Sentences.Sentences(text)[k]))
  {
    hide L.Accepts, Sentences.Sentences, Ends, IsDumped, TokensOf;
    SentencesEnd(order, text, database, k);
    OneStatement(database, Sentences.Sentences(text)[k]);
  }

  lemma OneTable(database: string, es: Shown, k: nat)
    requires Ends(database, es) && KindAt(TokensOf(es), k) && IsWord(TokensOf(es)[0], "CREATE") && IsWord(TokensOf(es)[k], "TABLE")
    ensures (exists j, e :: TableAt(TokensOf(es), k, j, e)) || EndsInDot(TokensOf(es))
  {
    assert TokensOf(es) != [];
    hide IB.Filling, SR.Waiting, S.Closing, SR.Lets, InQuote, ReadAll, IsInsertVerb, EndsInDot, F.IsToken, S.CheckTails, IsWord, IB.NamesSome, TableAt, KindAt;
    var x: S.Stmt :| x.database == database && S.Closing(x).Some? && IB.Kept(x, es) && (InQuote(es) == Some(false) || SR.Reads(x, ReadAll(es)));
    var t := ReadAll(es).done;
    assert TokensOf(es) == t;
    if SR.Waiting(x, ReadAll(es)) {
      WaitingTable(x, es, k);
    } else if SR.Reads(x, ReadAll(es)) {
      var n: nat, tail :| SR.Passing(x, ReadAll(es), n, tail);
      PassingTable(x.database, t, n, tail, k);
    } else {
      FilledFirst(x, es);
      NoInsert(t[0]);
      assert false;
    }
  }

  lemma NoInsert(t: Token)
    requires IsWord(t, "CREATE")
    ensures !IsInsertVerb(t)
  {
    assert UpperChar(t.text[0]) == "CREATE"[0];
    assert "INSERT"[0] == 'I' && "REPLACE"[0] == 'R';
  }

  lemma WaitingTable(x: S.Stmt, es: Shown, k: nat)
    requires SR.Waiting(x, ReadAll(es)) && S.Closing(x).Some?
    requires var t := ReadAll(es).done; t != [] && IsWord(t[0], "CREATE") && KindAt(t, k) && IsWord(t[k], "TABLE")
    ensures (exists j, e :: TableAt(ReadAll(es).done, k, j, e)) || EndsInDot(ReadAll(es).done)
  {
    hide S.CheckHead, S.Closing, ReadAll, EndsInDot, IsWord, IsInsertVerb, FH.NameCutOff, SR.Waits, TableAt, KindAt, S.CheckTails;
    ClosingHead(x);
    var t := ReadAll(es).done;
    if S.CheckHead(x, true).Allowed? {
      NoTail(S.CheckHead(x, true).st.tail);
      TableAllowed(x, t, k, true, []);
      assert t + [] == t;
    } else {
      FH.WantsMoreExactly(x);
      CutOffEnds(x.database, t);
    }
  }

  lemma NoTail(tail: S.Tail)
    ensures S.CheckTails(tail, []).Some?
  {
  }

  lemma PassingTable(database: string, t: seq<Token>, n: nat, tail: S.Tail, k: nat)
    requires n <= |t| && SR.Lets(database, t[..n], tail, None) && S.CheckTails(tail, t[n..]).Some?
    requires KindAt(t, k) && IsWord(t[0], "CREATE") && IsWord(t[k], "TABLE")
    ensures exists j, e :: TableAt(t, k, j, e)
  {
    hide S.CheckHead, SR.Waits, KindAt, IsWord, TableAt, S.CheckTails;
    var s :| SR.Keeps(s, database, t[..n]) && S.CheckHead(s, false).Allowed? && S.CheckHead(s, false).st.tail == tail;
    CreateNamesKind(s, t[..n]);
    var m := KindIndex(t[..n], 1);
    KindInPrefix(t, n, m);
    OneKind(t, k, m);
    TableAllowed(s, t[..n], k, false, t[n..]);
    assert t[..n] + t[n..] == t;
  }

  lemma CreateNamesKind(s: S.Stmt, t: seq<Token>)
    requires s.tokens == t && t != [] && IsWord(t[0], "CREATE") && S.CheckHead(s, false).Allowed?
    ensures KindAt(t, KindIndex(t, 1))
  {
    SpellsUpper(t[0].text, "CREATE");
    hide KindIndex, AlterTable, AllNamesOk, DatabaseName, S.CheckCreate, Upper, Spells, KindAt, IsObject, IsDDLObject;
    KindIs(t);
  }

  /** Main result: behind the name of every table an accepted dump creates, each token may stand where it
      stands, unless the statement ends at the dot of its qualifier. */
  lemma TablesAreLiteral(order: S.Order, text: string, database: string, n: nat, k: nat)
    requires L.Accepts(order, text, database) && n < |Sentences.Sentences(text)|
    requires var t := TokensOf(Sentences.Sentences(text)[n]); KindAt(t, k) && IsWord(t[0], "CREATE") && IsWord(t[k], "TABLE")
    ensures var t := TokensOf(Sentences.Sentences(text)[n]);
            (exists j, e :: TableAt(t, k, j, e)) || EndsInDot(t)
  {
    hide L.Accepts, Sentences.Sentences, Ends, TokensOf, KindAt, IsWord, EndsInDot, TableAt;
    SentencesEnd(order, text, database, n);
    OneTable(database, Sentences.Sentences(text)[n], k);
  }
}
