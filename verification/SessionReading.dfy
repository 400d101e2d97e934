/** Which mentions of a user variable the checker forgives.

    Variables are accounted for by statement, not by mention: a SET statement that saves or restores
    a variable may mention it once more, in an expression the checker does not look into. */
module SessionReading {
  import opened Text
  import opened SqlChecks
  import V = ValuesAutomaton
  import opened Statements
  import opened SessionModel

  function Word(text: string): Token {
    Token('w', text)
  }

  function Punct(text: string): Token {
    Token('p', text)
  }

  /** `@m = @@sql_mode` */
  const SAVE := [Word("@m"), Punct("="), Word("@@sql_mode")]

  /** `x = (@m)` */
  const MENTION := [Word("x"), Punct("="), Punct("("), Word("@m"), Punct(")")]

  const SET_TOKENS := [Word("SET")] + (SAVE + [Punct(",")] + MENTION)

  lemma Uppers()
    ensures Upper("@m") == "@M" && Upper("@@sql_mode") == "@@SQL_MODE" && Upper("x") == "X" && Upper("SET") == "SET"
  {
  }

  lemma {:induction false} SplitSkips(a: seq<Token>, b: seq<Token>, cur: seq<Token>)
    requires forall i :: 0 <= i < |a| ==> !a[i].IsPunct("(") && !a[i].IsPunct(")") && !a[i].IsPunct(",")
    ensures SplitAssignments(a + b, 0, cur) == SplitAssignments(b, 0, cur + a)
    decreases |a|
  {
    if a == [] {
      assert a + b == b && cur + a == cur;
    } else {
      assert (a + b)[1..] == a[1..] + b;
      SplitSkips(a[1..], b, cur + [a[0]]);
      assert cur + [a[0]] + a[1..] == cur + a;
    }
  }

  lemma SplitsInTwo()
    ensures SplitAssignments(SAVE + [Punct(",")] + MENTION, 0, []) == [SAVE, MENTION]
  {
    SplitSkips(SAVE, [Punct(",")] + MENTION, []);
    assert SAVE + [Punct(",")] + MENTION == SAVE + ([Punct(",")] + MENTION);
    assert [] + SAVE == SAVE;
    assert ([Punct(",")] + MENTION)[1..] == MENTION;
    SplitsMention();
  }

  lemma SplitsMention()
    ensures SplitAssignments(MENTION, 0, []) == [MENTION]
  {
    SplitSkips(MENTION[..2], MENTION[2..], []);
    assert MENTION[..2] + MENTION[2..] == MENTION && [] + MENTION[..2] == MENTION[..2];
    var c := MENTION[..2];
    assert MENTION[2..][1..] == MENTION[3..] && MENTION[3..][1..] == MENTION[4..] && MENTION[4..][1..] == [];
    assert SplitAssignments(MENTION[2..], 0, c) == SplitAssignments(MENTION[3..], 1, c + [MENTION[2]]);
    assert SplitAssignments(MENTION[3..], 1, c + [MENTION[2]]) == SplitAssignments(MENTION[4..], 1, c + [MENTION[2]] + [MENTION[3]]);
    assert SplitAssignments(MENTION[4..], 1, c + [MENTION[2]] + [MENTION[3]]) ==
           SplitAssignments([], 0, c + [MENTION[2]] + [MENTION[3]] + [MENTION[4]]);
    assert c + [MENTION[2]] + [MENTION[3]] + [MENTION[4]] == MENTION;
  }

  lemma NoPrefix(s: string, p: string, i: nat)
    requires i < |p| && (i >= |s| || p[i] != s[i])
    ensures !HasPrefix(s, p)
  {
  }

  lemma SaveTarget()
    ensures EqualsIndex(SAVE) == 1 && Target(SAVE) == "@M"
  {
    Uppers();
    assert SAVE[1..][0] == Punct("=");
    assert EqualsIndex(SAVE[1..]) == 0;
    assert SAVE[..1] == [Word("@m")];
    assert !IsScopeWord(Word("@m"));
    JoinsOne(Word("@m"));
    NoPrefix("@M", "@@SESSION.", 1);
    NoPrefix("@M", "@@LOCAL.", 1);
    NoPrefix("@M", "@@", 1);
  }

  lemma SaveSource()
    ensures SAVE[2..] == [Word("@@sql_mode")] && SavedFrom(SAVE[2..]) == Some(SQL_MODE)
  {
    Uppers();
    var name := "@@SQL_MODE";
    assert "@@sql_mode"[0] == '@' && "@@sql_mode"[1] == '@';
    NoPrefix(name, "@@SESSION.", 3);
    NoPrefix(name, "@@LOCAL.", 2);
    assert name[0] == '@' && name[1] == '@';
    assert name[2..] == SQL_MODE;
    assert TrimScope(name) == SQL_MODE;
    assert '.' !in SQL_MODE && '@' !in SQL_MODE;
  }

  lemma JoinsOne(t: Token)
    requires !IsScopeWord(t)
    ensures JoinName([t]) == Upper(t.text)
  {
    assert JoinName([t][1..]) == "";
    assert Upper(t.text) + "" == Upper(t.text);
  }

  lemma MentionTarget()
    ensures EqualsIndex(MENTION) == 1 && Target(MENTION) == "X" && |MENTION[2..]| == 3
  {
    Uppers();
    assert MENTION[1..][0] == Punct("=");
    assert EqualsIndex(MENTION[1..]) == 0;
    assert MENTION[..1] == [Word("x")];
    JoinsOne(Word("x"));
  }

  lemma UnsafeIsWord(name: string)
    requires V.UnsafeCharset(name)
    ensures |name| >= 3 && name[0] != '@'
  {
    var k :| 0 <= k < |V.UNSAFE_CHARSETS| &&
      (Upper(name) == V.UNSAFE_CHARSETS[k] || HasPrefix(Upper(name), V.UNSAFE_CHARSETS[k] + "_"));
    assert |V.UNSAFE_CHARSETS[k]| >= 3 && V.UNSAFE_CHARSETS[k][0] != '@';
    assert Upper(name)[0] == V.UNSAFE_CHARSETS[k][0] by {
      assert HasPrefix(Upper(name), V.UNSAFE_CHARSETS[k] + "_") ==> (V.UNSAFE_CHARSETS[k] + "_")[0] == Upper(name)[0];
    }
  }

  lemma NothingUnsafe()
    ensures !NamesUnsafeCharset(SAVE + [Punct(",")] + MENTION)
  {
    var t := SAVE + [Punct(",")] + MENTION;
    hide V.UnsafeCharset;
    forall i | 0 <= i < |t| && t[i].kind != 'p' ensures !V.UnsafeCharset(t[i].text) {
      assert t[i].text == "@m" || t[i].text == "@@sql_mode" || t[i].text == "x";
      if V.UnsafeCharset(t[i].text) {
        UnsafeIsWord(t[i].text);
      }
    }
  }

  lemma NotNames()
    ensures !IsNames(Word("@m")) && !IsNames(Word("x")) && IsUserVar("@M") && !IsUserVar("X") && !IsLexical("X")
  {
    Uppers();
    NoPrefix("@M", "@@", 1);
    NoPrefix("X", "@", 0);
  }

  /** The statement is accepted with @m trusted afterwards, although it mentions @m outside the two
      tracked forms: the session results are about mentions by statement. */
  lemma MentionInTrackedStatementIsForgiven(st: Stmt)
    requires st.vars == Tracked(map[], {})
    ensures CheckSet(st, SET_TOKENS[1..]) ==
              Some(st.(vars := Tracked(map["@M" := "SQL_MODE"], {}), setVars := {"@M"}))
    ensures Ended(SET_TOKENS, {"@M"}).Dirtied(ByStatement) == {}
  {
    assert SET_TOKENS[1..] == SAVE + [Punct(",")] + MENTION;
    NothingUnsafe();
    SplitsInTwo();
    SaveTarget();
    SaveSource();
    MentionTarget();
    Uppers();
    NotNames();
    hide SplitAssignments, Target, EqualsIndex, SavedFrom, IsNames, NamesUnsafeCharset, Upper, ClientCharsetOk, SQLModeOk,
         IsUserVar, IsLexical;
    var s := st.(setVars := {});
    var saved := s.(vars := SaveVar(s.vars, "@M", "SQL_MODE"), setVars := s.setVars + {"@M"});
    assert CheckAssignment(s, SAVE) == Some(saved);
    assert CheckAssignment(saved, MENTION) == Some(saved);
    assert [SAVE, MENTION][1..] == [MENTION] && [MENTION][1..] == [];
    assert CheckAssignments(saved, [MENTION]) == Some(saved);
    assert TrackedName(SAVE) == {"@M"} && TrackedName(MENTION) == {};
    assert TrackedNames([MENTION]) == {} + TrackedNames([]);
    assert TrackedNames([SAVE, MENTION]) == {"@M"} + TrackedNames([MENTION]);
    assert SET_TOKENS[0].Is("SET") by {
      Uppers();
    }
  }
}
