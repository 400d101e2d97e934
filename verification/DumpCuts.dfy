/** A dump cut off by an error that nothing notices.

    The first line of a dump is copied, the copy of the next fails, and the source ends. The failed
    read falls into a look-ahead, so the first line alone is staged and imported. */
module DumpCuts {
  import opened Text
  import opened SqlChecks
  import opened Statements
  import L = DumpLexer
  import R = ScanRuns
  import F = ReadFaults
  import T = TokenRuns
  import opened RestoreDb

  const DROP := [T.Word("DROP"), T.Word("TABLE")]

  const FIRST := "DROP TABLE t;\n"

  const CHUNKS := [FIRST, "DROP TABLE u;\n"]

  /** The copy of the second line fails. */
  const CUT := Some(Failure(14, 0))

  lemma DropFacts()
    ensures |DROP| == 2 && DROP[0].Is("DROP") && DROP[1].Is("TABLE") && |DROP[0].text| == 4 && |DROP[1].text| == 5
    ensures forall k :: 0 <= k < 2 ==> T.Sigils(DROP[k]) == 0 && DROP[k].kind == 'w' && T.Writable(DROP[k])
    ensures T.Writable(T.Word("t")) && T.Sigils(T.Word("t")) == 0
    ensures T.PlainLineWord("DROP")
  {
    T.PlainWord("DROP");
    T.PlainWord("TABLE");
    T.PlainWord("t");
    hide T.Writable;
    assert Upper("DROP") == "DROP" && Upper("TABLE") == "TABLE";
  }

  lemma FirstIsWritten()
    ensures FIRST == T.Written(DROP) + "t" + ";\n" && T.OpensLine(FIRST, 0, "DROP") && |FIRST| == 14
  {
    DropFacts();
    hide T.PlainLineWord;
    assert DROP[1..] == [T.Word("TABLE")] && [T.Word("TABLE")][1..] == [];
    assert T.Written([]) == "";
    assert T.Written([T.Word("TABLE")]) == "TABLE" + " " + "";
    assert T.Written(DROP) == "DROP TABLE ";
    assert FIRST[0..4] == "DROP";
  }

  lemma DropWantsMore(st: Stmt)
    requires st.tokens != [] && st.tokens[0].Is("DROP") && (|st.tokens| > 1 ==> st.tokens[1].Is("TABLE"))
    ensures CheckHead(st, false) == NeedsMore
  {
    hide AllNamesOk;
  }

  lemma DropIsAllowed(st: Stmt)
    requires |st.tokens| == 3 && st.tokens[0].Is("DROP") && st.tokens[1].Is("TABLE") && st.tokens[2] == T.Word("t")
    requires !st.accepted && st.values.None?
    ensures Closing(st) == Some(st)
  {
    assert st.tokens[2..] == [T.Word("t")];
    assert AllNamesOk(st.database, [T.Word("t")]) by {
      assert [T.Word("t")][0..] == [T.Word("t")];
    }
    hide AllNamesOk;
  }

  lemma DropIsPushed(st: Stmt)
    requires st == Fresh(st.database, Tracked(map[], {}), 0)
    ensures T.PushAll(st, DROP).Some? && T.Pushed(T.PushAll(st, DROP).value, T.Word("t")).Some?
    ensures Closing(T.Pushed(T.PushAll(st, DROP).value, T.Word("t")).value).Some?
  {
    hide CheckHead, T.Pushed, T.PushAll, T.Sigils, T.Writable, Token.Is, DROP, Closing;
    DropFacts();
    var t := T.Word("t");
    var st1 := st.(started := true, tokens := [DROP[0]], size := 4);
    var st2 := st.(started := true, tokens := DROP, size := 9);
    var st3 := st.(started := true, tokens := DROP + [t], size := 10);
    DropWantsMore(st1);
    DropWantsMore(st2);
    DropWantsMore(st3);
    assert [] + [DROP[0]] == [DROP[0]] && [DROP[0]] + [DROP[1]] == DROP;
    T.KeptWord(st, DROP[0]);
    T.KeptWord(st1, DROP[1]);
    T.KeptWord(st2, t);
    T.PushTwo(st, DROP, st1, st2);
    DropIsAllowed(st3);
  }

  lemma FirstIsAccepted(order: Order, database: string)
    ensures L.Accepts(order, FIRST, database) && F.Accepts(order, FIRST, database, 1)
  {
    hide L.Accepts, F.Accepts, FIRST, DROP, T.Written, T.PushAll, T.Pushed, T.Writable, Closing, L.Begin, R.After, T.PlainLineWord, F.AtLineStart;
    T.StartsIdle(database);
    DropFacts();
    FirstIsWritten();
    DropIsPushed(L.Begin(database).stmt);
    T.OneLine(order, FIRST, database, "DROP", DROP, T.Word("t"));
    EndsInNewline();
    var v: L.Scan :| R.After(order, FIRST, 0, L.Begin(database), |FIRST| + 1) == Some((|FIRST|, v)) && v.lex.bol;
    ReachesEnd(order, FIRST, database, |FIRST| + 1, v);
    F.CutsAtLinesAreMissed(order, FIRST, database, |FIRST| + 1, 1);
  }

  lemma EndsInNewline()
    ensures FIRST[|FIRST| - 1] == '\n'
  {
  }

  lemma ReachesEnd(order: Order, text: string, database: string, n: nat, v: L.Scan)
    requires R.After(order, text, 0, L.Begin(database), n) == Some((|text|, v)) && v.lex.bol
    ensures F.AtLineStart(order, text, 0, L.Begin(database), n)
  {
    hide R.After;
  }

  lemma CutIsFirst()
    ensures Copied(CHUNKS, CUT) == FIRST && FIRST != Flatten(CHUNKS)
  {
    assert CHUNKS[1..] == ["DROP TABLE u;\n"] && ["DROP TABLE u;\n"][1..] == [];
    assert Upto(CHUNKS, 14) == [FIRST] + Upto(CHUNKS[1..], 0);
    assert Flatten([FIRST]) == FIRST + Flatten([FIRST][1..]);
    assert |Flatten(CHUNKS)| == 14 + |Flatten(CHUNKS[1..])|;
    assert |Flatten(["DROP TABLE u;\n"])| == 14;
  }

  /** Main result: for every database a restore of this dump imports its first line alone, although
      a read of the copy failed. */
  lemma CutDumpIsImported(order: Order, req: Request, a: Answers)
    requires req.chunks == CHUNKS && a.failure == CUT
    requires !req.dryRun && req.confirmed && a.database.Some? && !a.createFails
    requires a.backup.Some? && a.backup.value > 0 && !a.rewindFails
    ensures MayImport(req, a, order) && Copied(req.chunks, a.failure) < Flatten(req.chunks)
  {
    hide F.Accepts, Copied, FIRST, Flatten;
    CutIsFirst();
    FirstIsWritten();
    FirstIsAccepted(order, a.database.value);
    CopiedIsPrefix(req.chunks, a.failure);
  }
}
