/** The statements the final head check lets through although it still wants more of them.

    At the end of a statement a head that is neither refused nor allowed is passed on without an
    error. Those heads are exactly the ones whose object name is cut off after its dot. */
module FinalHeads {
  import opened Text
  import opened SqlChecks
  import opened Statements
  import opened DumpLexer
  import T = TokenRuns

  /** The name at t[j] is the last of the statement and ends at the dot of its qualifier: `db.`, or
      `db` and a dot apart. */
  predicate CutOff(database: string, t: seq<Token>, j: nat) {
    j < |t| && QualifierOk(database, t[j..]) &&
    if t[j].kind == 'w' && HasSuffix(t[j].text, ".") then j + 1 == |t|
    else j + 2 == |t| && t[j + 1].kind == 'w' && t[j + 1].text == "."
  }

  /** The table of a trigger is named after ON. */
  predicate TableCutOff(database: string, t: seq<Token>, name: nat) {
    var on := FindOn(t, name + 1, name + 8);
    ObjectName(database, t, name, true) == Accept && on < |t| && on < name + 8 && CutOff(database, t, SkipExists(t, on + 1))
  }

  /** The object an INSERT, REPLACE or CREATE statement names, or a trigger's table, is cut off. */
  predicate NameCutOff(database: string, t: seq<Token>)
    requires t != []
  {
    if t[0].Is("INSERT") || t[0].Is("REPLACE") then CutOff(database, t, SkipExists(t, SkipInsertModifiers(t, 1)))
    else
      var k := KindIndex(t, 1);
      && t[0].Is("CREATE") && k < |t| && IsDDLObject(Upper(t[k].text))
      && (CutOff(database, t, SkipExists(t, k + 1)) ||
          (Upper(t[k].text) == "TRIGGER" && TableCutOff(database, t, k + 1)))
  }

  lemma ObjectNameWantsMore(database: string, t: seq<Token>, i: nat)
    ensures ObjectName(database, t, i, true) == More <==> CutOff(database, t, SkipExists(t, i))
  {
  }

  lemma CreateWantsMore(st: Stmt, kind: string, name: nat)
    ensures CheckCreate(st, kind, name, true).NeedsMore? <==>
              CutOff(st.database, st.tokens, SkipExists(st.tokens, name)) ||
              (kind == "TRIGGER" && TableCutOff(st.database, st.tokens, name))
  {
    hide CheckTails, CutOff, ObjectName, FindOn;
    ObjectNameWantsMore(st.database, st.tokens, name);
    ObjectNameWantsMore(st.database, st.tokens, FindOn(st.tokens, name + 1, name + 8) + 1);
  }

  /** Main result: a complete head is passed on unchecked exactly when its name is cut off. */
  lemma WantsMoreExactly(st: Stmt)
    requires st.tokens != []
    ensures CheckHead(st, true).NeedsMore? <==> NameCutOff(st.database, st.tokens)
  {
    hide ObjectName, CutOff, TableCutOff, CheckCreate, AllNamesOk, NameOk, QualifierOk, NameEnd, CheckSet, FeedTokens;
    var t := st.tokens;
    ObjectNameWantsMore(st.database, t, SkipInsertModifiers(t, 1));
    if KindIndex(t, 1) < |t| {
      CreateWantsMore(st, Upper(t[KindIndex(t, 1)].text), KindIndex(t, 1) + 1);
    }
  }

  // ------------------------------------------------------ such a dump

  function Unfinished(d: string): (text: string)
    ensures |text| == |d| + 13
  {
    "INSERT INTO " + (d + ".")
  }

  const OPENING := [T.Word("INSERT"), T.Word("INTO")]

  lemma OpeningIsWritten()
    ensures T.Written(OPENING) == "INSERT INTO "
  {
    assert OPENING[1..] == [T.Word("INTO")] && [T.Word("INTO")][1..] == [];
    assert T.Written([]) == "";
    assert T.Written([T.Word("INTO")]) == "INTO" + " " + "";
  }

  lemma WordsAreWritable()
    ensures T.Writable(OPENING[0]) && T.Writable(OPENING[1])
    ensures T.PlainLineWord("INSERT") && Upper("INSERT") == "INSERT" && Upper("INTO") == "INTO"
  {
    T.PlainWord("INSERT");
    T.PlainWord("INTO");
  }

  /** Up to the name every INSERT head wants more. */
  lemma InsertWantsMore(st: Stmt)
    requires st.tokens != [] && st.tokens[0].Is("INSERT") && |st.tokens| <= SkipExists(st.tokens, SkipInsertModifiers(st.tokens, 1)) + 1
    ensures CheckHead(st, false) == NeedsMore
  {
    hide SkipExists, SkipInsertModifiers;
  }

  lemma NameIndex(t: Token)
    requires !IsInsertModifier(t) && !IsExistsWord(t)
    ensures SkipExists([OPENING[0]], SkipInsertModifiers([OPENING[0]], 1)) == 1
    ensures SkipExists(OPENING, SkipInsertModifiers(OPENING, 1)) == 2
    ensures SkipExists(OPENING + [t], SkipInsertModifiers(OPENING + [t], 1)) == 2
  {
    hide IsExistsWord;
    assert OPENING[1].Is("INTO") by {
      WordsAreWritable();
    }
    var three := OPENING + [t];
    assert SkipInsertModifiers(OPENING, 2) == 2 && SkipInsertModifiers(three, 2) == 2;
    assert three[1] == OPENING[1];
  }

  lemma OpeningFacts()
    ensures |OPENING| == 2 && OPENING[0].Is("INSERT") && |OPENING[0].text| == 6 && |OPENING[1].text| == 4
    ensures forall k :: 0 <= k < 2 ==> T.Sigils(OPENING[k]) == 0 && OPENING[k].kind == 'w'
  {
    hide T.Sigils, T.Writable, Upper, IsFileWord;
    WordsAreWritable();
    T.ShortWord("INSERT");
    T.ShortWord("INTO");
    T.PlainWord("INSERT");
    T.PlainWord("INTO");
  }

  /** The head of such a statement, and what is pushed for it. */
  lemma Opens(st: Stmt, t: Token)
    requires st == Fresh(st.database, Tracked(map[], {}), 0) && !IsInsertModifier(t) && !IsExistsWord(t)
    requires t.kind == 'w' && T.Sigils(t) == 0 && |t.text| <= 1000
    ensures var st2 := st.(started := true, tokens := OPENING, size := 10);
            && T.PushAll(st, OPENING) == Some(st2) && T.Resting(st2)
            && T.Pushed(st2, t) == Some(st2.(tokens := OPENING + [t], size := 10 + |t.text|))
  {
    hide CheckHead, T.Pushed, T.PushAll, IsInsertModifier, IsExistsWord, SkipExists, SkipInsertModifiers, OPENING, T.Sigils, Token.Is;
    NameIndex(t);
    OpeningFacts();
    var st1 := st.(started := true, tokens := [OPENING[0]], size := 6);
    var st2 := st.(started := true, tokens := OPENING, size := 10);
    var st3 := st.(started := true, tokens := OPENING + [t], size := 10 + |t.text|);
    InsertWantsMore(st1);
    InsertWantsMore(st2);
    InsertWantsMore(st3);
    assert [] + [OPENING[0]] == [OPENING[0]] && [OPENING[0]] + [OPENING[1]] == OPENING;
    T.KeptWord(st, OPENING[0]);
    T.KeptWord(st1, OPENING[1]);
    T.KeptWord(st2, t);
    T.PushTwo(st, OPENING, st1, st2);
  }

  /** Names a plain INSERT can be cut off after. */
  predicate CanBeCutOff(d: string) {
    T.Sayable(d + ".") && '.' !in d && d != "" && |d| < 1000
  }

  lemma QualifierIsNoModifier(d: string)
    ensures !IsInsertModifier(T.Word(d + ".")) && !IsExistsWord(T.Word(d + "."))
  {
    var u := Upper(d + ".");
    assert u[|u| - 1] == '.';
  }

  lemma {:induction false} DotAfter(d: string)
    requires '.' !in d
    ensures IndexOf(d + ".", '.') == |d|
  {
    if d != "" {
      assert (d + ".")[1..] == d[1..] + ".";
      DotAfter(d[1..]);
    }
  }

  lemma CutOffPasses(st: Stmt, d: string)
    requires CanBeCutOff(d) && st.database == d && st.values.None? && st.tokens == OPENING + [T.Word(d + ".")]
    ensures Closing(st) == Some(st)
  {
    hide T.Sayable, CheckHead, OPENING, QualifierOk, CutOff, SkipExists, SkipInsertModifiers, KindIndex, TableCutOff;
    var t := T.Word(d + ".");
    QualifierIsNoModifier(d);
    NameIndex(t);
    WantsMoreExactly(st);
    OpeningFacts();
    assert CutOff(d, st.tokens, 2) by {
      QualifierOfCut(d, st.tokens);
    }
  }

  lemma QualifierOfCut(d: string, t: seq<Token>)
    requires '.' !in d && d != "" && |t| == 3 && t[2] == T.Word(d + ".")
    ensures CutOff(d, t, 2)
  {
    DotAfter(d);
    assert (d + ".")[|d|..] == "." && (d + ".")[..|d|] == d;
    assert (d + ".")[|d|] == '.';
    assert t[2..][0] == t[2];
  }

  lemma CutWordIsWritable(d: string)
    requires CanBeCutOff(d)
    ensures T.Writable(T.Word(d + ".")) && T.Sigils(T.Word(d + ".")) == 0
  {
    hide T.Spoken;
    assert (d + ".")[0] == d[0];
    assert T.Name(T.Word(d + ".")) == d + ".";
  }

  /** An INSERT without a table is accepted when it names the target database: no table is needed
      for the final check to pass. */
  lemma UnfinishedInsertIsAccepted(order: Order, d: string)
    requires CanBeCutOff(d)
    ensures Accepts(order, Unfinished(d), d)
  {
    var (t, st) := (T.Word(d + "."), Begin(d).stmt);
    T.StartsIdle(d);
    hide Accepts, T.Sayable, OPENING, T.Written, T.PushAll, T.Pushed, T.Writable, Closing, T.Resting, T.PlainLineWord, IsWordByte, Upper, Begin;
    OpeningIsWritten();
    OpeningFacts();
    WordsAreWritable();
    QualifierIsNoModifier(d);
    CutWordIsWritable(d);
    Opens(st, t);
    CutOffPasses(st.(started := true, tokens := OPENING + [t], size := 10 + |t.text|), d);
    TextOfCut(d);
    T.OneSentence(order, Unfinished(d), d, "INSERT", OPENING, t);
  }

  lemma TextOfCut(d: string)
    ensures T.OpensLine(Unfinished(d), 0, "INSERT") && Unfinished(d) == "INSERT INTO " + (d + ".")
  {
    WordsAreWritable();
    hide T.PlainLineWord;
    var text := Unfinished(d);
    assert text[0..6] == "INSERT INTO "[..6];
  }

  /** The dump `INSERT INTO db.` is accepted for the database `db`. */
  lemma InsertIntoDbIsAccepted(order: Order)
    ensures Unfinished("db") == "INSERT INTO db." && Accepts(order, "INSERT INTO db.", "db")
  {
    hide Accepts, CanBeCutOff;
    assert "db" + "." == "db.";
    DbCanBeCutOff();
    UnfinishedInsertIsAccepted(order, "db");
  }

  lemma DbCanBeCutOff()
    ensures CanBeCutOff("db")
  {
    var w := "db.";
    T.NoFileWord();
    assert "db" + "." == w;
    assert T.Spoken("db", false, ".") == T.Spoken("", false, "") by {
      assert !IsFileWord("db");
      assert "."[1..] == "";
    }
    hide IsFileWord;
    assert w[1..] == "b." && "b."[1..] == ".";
    assert "" + ['d'] == "d" && "d" + ['b'] == "db";
    assert T.Spoken("", false, w) == T.Spoken("d", false, "b.") == T.Spoken("db", false, ".");
  }
}
