/** Why versioned comments need a database name without a comment end: a use line inside such a
    comment is read whole, name and all, so a name that holds an end hides it from the scanner. */
module VersionedCommentsExact {
  import opened Text
  import opened SqlChecks
  import S = Statements
  import opened DumpLexer
  import R = ScanRuns
  import opened VersionedComments

  /** What may stand behind `use` on its line. */
  predicate IsArgument(arg: string) {
    '\n' !in arg && |arg| <= MAX_COMMAND_LINE && (arg == "" || !IsWordByte(arg[0]))
  }

  /** `arg` spells the database name `d`. */
  predicate Spells(arg: string, d: string) {
    IsArgument(arg) && UseName(arg, ";") == d
  }

  /** The database names a use line can spell. */
  ghost predicate Nameable(d: string) {
    exists arg :: Spells(arg, d)
  }

  /** In quotes a use line can spell every name of up to 1022 bytes that holds no newline. */
  lemma ShortNamesAreNameable(d: string)
    requires '\n' !in d && |d| <= MAX_COMMAND_LINE - 2
    ensures Nameable(d)
  {
    var arg := "`" + d + "`";
    assert arg[0] == '`' && arg[|arg| - 1] == '`' && arg[1..|arg| - 1] == d;
    assert TrimLeft(arg) == arg && TrimRight(arg) == arg;
    NoSemicolon(arg);
    assert forall k :: 0 <= k < |arg| ==> arg[k] == '`' || arg[k] == d[k - 1];
    assert Spells(arg, d);
  }

  lemma NoSemicolon(s: string)
    requires s != "" && s[|s| - 1] != ';'
    ensures TrimSuffix(s, ";") == s
  {
    assert s[|s| - 1..][0] == s[|s| - 1];
  }

  // A part of a text without a comment end holds none.

  lemma SliceIsEndFree(s: string, i: nat, j: nat)
    requires EndFree(s) && i <= j <= |s|
    ensures EndFree(s[i..j])
  {
    forall k | 0 <= k < j - i ensures !StarSlash(s[i..j], k) {
      assert !StarSlash(s, i + k);
    }
  }

  lemma TrimIsEndFree(s: string)
    requires EndFree(s)
    ensures EndFree(TrimSpace(s))
  {
    hide EndFree, TrimLeft, TrimRight;
    var l := TrimLeft(s);
    SliceIsEndFree(s, |s| - |l|, |s|);
    assert s[|s| - |l|..|s|] == l;
    SliceIsEndFree(l, 0, |TrimRight(l)|);
    assert l[0..|TrimRight(l)|] == l[..|TrimRight(l)|];
  }

  lemma SuffixIsEndFree(s: string, p: string)
    requires EndFree(s)
    ensures EndFree(TrimSuffix(s, p))
  {
    hide EndFree;
    if HasSuffix(s, p) {
      SliceIsEndFree(s, 0, |s| - |p|);
    }
  }

  /** A name holds a comment end only if the argument that spells it does. */
  lemma NameIsEndFree(arg: string, delim: string)
    requires EndFree(arg)
    ensures EndFree(UseName(arg, delim))
  {
    hide EndFree, TrimSpace, TrimSuffix;
    TrimIsEndFree(arg);
    SuffixIsEndFree(TrimSpace(arg), delim);
    var b := TrimSuffix(TrimSpace(arg), delim);
    TrimIsEndFree(b);
    SuffixIsEndFree(TrimSpace(b), ";");
    var c := TrimSuffix(TrimSpace(b), ";");
    TrimIsEndFree(c);
    var n := TrimSpace(c);
    if |n| >= 2 {
      SliceIsEndFree(n, 1, |n| - 1);
    }
  }

  // ------------------------------------------------- a use line in a comment

  function UseInComment(arg: string): (text: string)
    ensures |text| == |arg| + 10
    ensures text[..7] == "/*!\nuse" && text[7..7 + |arg|] == arg && text[7 + |arg|..] == "\n*/"
  {
    "/*!\nuse" + arg + "\n*/"
  }

  lemma Bytes(arg: string)
    ensures var text := UseInComment(arg);
            && text[0] == '/' && text[1] == '*' && text[2] == '!' && text[3] == '\n'
            && text[4] == 'u' && text[5] == 's' && text[6] == 'e'
            && text[7 + |arg|] == '\n' && text[8 + |arg|] == '*' && text[9 + |arg|] == '/'
            && (forall k :: 0 <= k < |arg| ==> text[7 + k] == arg[k])
            && text[7..7 + |arg|] == arg && text[4..7] == "use" && text[3..3] == ""
  {
    var text := UseInComment(arg);
    var (a, b, c) := (text[..7], text[7..7 + |arg|], text[7 + |arg|..]);
    assert a[0] == '/' && a[1] == '*' && a[2] == '!' && a[3] == '\n' && a[4] == 'u' && a[5] == 's' && a[6] == 'e';
    assert c[0] == '\n' && c[1] == '*' && c[2] == '/';
    forall k | 0 <= k < |arg| ensures text[7 + k] == arg[k] {
      assert b[k] == arg[k];
    }
    assert text[4..7] == "use" by {
      assert text[4..7] == a[4..7];
    }
  }

  /** The scan inside the comment, before anything but its opener was read. */
  function Inside(d: string, bol: bool): Scan {
    var s := Begin(d);
    s.(lex := START.(bol := bol, cond := true), stmt := s.stmt.(started := true))
  }

  lemma ReachesOpener(order: S.Order, arg: string, d: string)
    ensures Step(order, UseInComment(arg), 0, Begin(d)) == Some((0, Begin(d).(lex := START.(bol := false))))
  {
    hide EndWord, EndVar, VarStart, UseInComment, IsFileWord, VarKey, S.Space, S.End;
    Bytes(arg);
  }

  lemma Opens(order: S.Order, arg: string, d: string)
    ensures var text := UseInComment(arg);
            var s := Begin(d).(lex := START.(bol := false));
            Step(order, text, 0, s) == Some((3, Inside(d, false))) &&
            LexStep(text, 0, s.lex).value.event.OpenCond? && CondOpener(text, 0) == 3
  {
    hide UseInComment;
    Bytes(arg);
    var text := UseInComment(arg);
    var s := Begin(d).(lex := START.(bol := false));
    assert VersionEnd(text, 3) == 3;
    assert CodeStep(text, 0, s.lex) == Some(LexOut(3, START.(bol := false, cond := true), OpenCond(false)));
    assert Upper("") == "";
    assert Prelude(s, '/') == Some(s);
    R.StepInCode(order, text, 0, s);
  }

  lemma EndsLine(order: S.Order, arg: string, d: string)
    ensures Step(order, UseInComment(arg), 3, Inside(d, false)) == Some((4, Inside(d, true)))
    ensures !LexStep(UseInComment(arg), 3, Inside(d, false).lex).value.event.OpenCond?
  {
    hide UseInComment;
    Bytes(arg);
    assert Upper("") == "";
    R.StepAtNewline(order, UseInComment(arg), 3, Inside(d, false));
  }

  lemma LineEndsAfterName(arg: string)
    requires '\n' !in arg
    ensures LineEnd(UseInComment(arg), 7) == 7 + |arg|
  {
    hide UseInComment;
    Bytes(arg);
    LineEndSkips(UseInComment(arg), 7, 7 + |arg|);
  }

  lemma WordIsUse(arg: string)
    requires IsArgument(arg)
    ensures LineWord(UseInComment(arg), 4) == "USE" && BlanksEnd(UseInComment(arg), 4) == 4
  {
    hide UseInComment;
    Bytes(arg);
    var text := UseInComment(arg);
    assert WordLength(text, 7, 30) == 0;
    assert WordLength(text, 6, 31) == 1;
    assert WordLength(text, 5, 32) == 2;
    assert WordLength(text, 4, 33) == 3;
    assert Upper("use") == "USE";
  }

  /** The step over the use line. */
  predicate Using(order: S.Order, arg: string, d: string) {
    && Step(order, UseInComment(arg), 4, Inside(d, true)) == Some((8 + |arg|, Inside(d, true)))
    && LexStep(UseInComment(arg), 4, Inside(d, true).lex).Some?
    && !LexStep(UseInComment(arg), 4, Inside(d, true).lex).value.event.OpenCond?
  }

  lemma Uses(order: S.Order, arg: string, d: string)
    requires Spells(arg, d) && d != ""
    ensures Using(order, arg, d)
  {
    hide UseInComment, LineWord, LineEnd, BlanksEnd, UseName;
    Bytes(arg);
    WordIsUse(arg);
    LineEndsAfterName(arg);
    R.StepAtLineStart(order, UseInComment(arg), 4, Inside(d, true));
  }

  lemma ReachesEnd(order: S.Order, arg: string, d: string)
    ensures var text := UseInComment(arg);
            Step(order, text, 8 + |arg|, Inside(d, true)) == Some((8 + |arg|, Inside(d, false))) &&
            !LexStep(text, 8 + |arg|, Inside(d, true).lex).value.event.OpenCond? &&
            LexStep(text, 8 + |arg|, Inside(d, false).lex).Some? &&
            LexStep(text, 8 + |arg|, Inside(d, false).lex).value.event.CloseCond?
  {
    hide UseInComment;
    Bytes(arg);
    var text := UseInComment(arg);
    NoWord(text, 8 + |arg|);
    R.StepAtLineStart(order, text, 8 + |arg|, Inside(d, true));
    hide LineWord, BlanksEnd, Step;
  }

  lemma NoWord(text: string, i: nat)
    requires At(text, i, '*')
    ensures LineWord(text, i) == "" && BlanksEnd(text, i) == i && !CommentLine(text, i)
  {
    assert WordLength(text, i, 33) == 0;
  }

  /** The scan reaches the end of the comment behind the name. */
  predicate ClosesLate(order: S.Order, arg: string, d: string) {
    && R.After(order, UseInComment(arg), 0, Begin(d), 5) == Some((8 + |arg|, Inside(d, false)))
    && LastOpener(order, UseInComment(arg), 0, Begin(d), 5, 0) == 0
  }

  /** The scanner closes the comment after the name, wherever the name holds an end. */
  lemma ClosesAfterName(order: S.Order, arg: string, d: string)
    requires Spells(arg, d) && d != ""
    ensures ClosesLate(order, arg, d)
  {
    hide UseInComment, Step, LexStep, Inside, Spells;
    ReachesOpener(order, arg, d);
    Opens(order, arg, d);
    EndsLine(order, arg, d);
    Uses(order, arg, d);
    ReachesEnd(order, arg, d);
    var text := UseInComment(arg);
    var s := Inside(d, true);
    assert R.After(order, text, 8 + |arg|, s, 1) == Some((8 + |arg|, Inside(d, false)));
    assert R.After(order, text, 4, s, 2) == R.After(order, text, 8 + |arg|, s, 1);
    assert R.After(order, text, 3, Inside(d, false), 3) == R.After(order, text, 4, s, 2);
    assert LastOpener(order, text, 8 + |arg|, s, 1, 0) == 0;
    assert LastOpener(order, text, 4, s, 2, 0) == 0;
    assert LastOpener(order, text, 3, Inside(d, false), 3, 0) == 0;
  }

  lemma Closes(order: S.Order, arg: string, d: string)
    ensures Step(order, UseInComment(arg), 8 + |arg|, Inside(d, false)) == Some((10 + |arg|, Inside(d, false).(lex := START.(bol := false))))
  {
    hide UseInComment, IsFileWord, VarKey;
    Bytes(arg);
    var text := UseInComment(arg);
    var s := Inside(d, false);
    assert CodeStep(text, 8 + |arg|, s.lex) == Some(LexOut(10 + |arg|, START.(bol := false), CloseCond));
    assert Upper("") == "";
    assert Prelude(s, '*') == Some(s) by {
      assert !IsFileWord("") by {
        EmptyIsNoFileWord();
      }
    }
    R.StepInCode(order, text, 8 + |arg|, s);
  }

  lemma EmptyIsNoFileWord()
    ensures !IsFileWord("")
  {
  }

  lemma EndsWell(order: S.Order, d: string)
    ensures Finish(order, Inside(d, false).(lex := START.(bol := false)))
  {
    EmptyIsNoFileWord();
  }

  lemma RunOne(order: S.Order, text: string, i: nat, s: Scan, j: nat, t: Scan)
    requires i < |text| && Valid(s) && Step(order, text, i, s) == Some((j, t)) && Run(order, text, j, t)
    ensures Run(order, text, i, s)
  {
    hide Step;
  }

  lemma DumpIsAccepted(order: S.Order, arg: string, d: string)
    requires Spells(arg, d) && d != ""
    ensures Accepts(order, UseInComment(arg), d)
  {
    hide UseInComment, Step, Spells, Finish;
    var text := UseInComment(arg);
    ReachesOpener(order, arg, d);
    Opens(order, arg, d);
    EndsLine(order, arg, d);
    Uses(order, arg, d);
    ReachesEnd(order, arg, d);
    Closes(order, arg, d);
    EndsWell(order, d);
    var done := Inside(d, false).(lex := START.(bol := false));
    assert Run(order, text, |text|, done);
    hide Run;
    RunOne(order, text, 8 + |arg|, Inside(d, false), 10 + |arg|, done);
    RunOne(order, text, 8 + |arg|, Inside(d, true), 8 + |arg|, Inside(d, false));
    RunOne(order, text, 4, Inside(d, true), 8 + |arg|, Inside(d, true));
    RunOne(order, text, 3, Inside(d, false), 4, Inside(d, true));
    RunOne(order, text, 0, Begin(d).(lex := START.(bol := false)), 3, Inside(d, false));
    RunOne(order, text, 0, Begin(d), 0, Begin(d).(lex := START.(bol := false)));
  }

  lemma NameEndsInArgument(arg: string, d: string)
    requires Spells(arg, d) && !EndFree(d)
    ensures d != "" && !EndFree(arg)
  {
    hide EndFree, UseName;
    if EndFree(arg) {
      NameIsEndFree(arg, ";");
    }
    assert EndFree("") by {
      NothingEnds();
    }
  }

  lemma NothingEnds()
    ensures EndFree("")
  {
  }

  lemma EndIsEarlier(arg: string)
    requires !EndFree(arg)
    ensures FirstEnd(UseInComment(arg), 3) < 8 + |arg|
  {
    hide UseInComment;
    Bytes(arg);
    var k :| 0 <= k < |arg| && StarSlash(arg, k);
    assert StarSlash(UseInComment(arg), 7 + k);
  }

  lemma NameHidesEnd(order: S.Order, arg: string, d: string)
    requires Spells(arg, d) && !EndFree(d)
    ensures d != "" && !EndsMatch(order, UseInComment(arg), d, 5)
  {
    hide UseInComment, Step, LexStep, R.After, LastOpener, Spells, EndFree, FirstEnd, CondOpener, Begin;
    NameEndsInArgument(arg, d);
    EndIsEarlier(arg);
    ClosesAfterName(order, arg, d);
    Opens(order, arg, d);
    ReachesEnd(order, arg, d);
  }

  /** Main result, both ways: for the names a use line can spell, every versioned comment of every
      accepted dump ends at its first comment end exactly when the database name holds none. */
  lemma NameConditionIsExact(order: S.Order, d: string)
    requires Nameable(d)
    ensures (forall text: string, n: nat :: Accepts(order, text, d) ==> EndsMatch(order, text, d, n)) <==> EndFree(d)
  {
    hide Accepts, EndsMatch;
    if EndFree(d) {
      forall text: string, n: nat ensures EndsMatch(order, text, d, n) {
        CommentsEndAtFirstEnd(order, text, d, n);
      }
    } else {
      var arg :| Spells(arg, d);
      NameHidesEnd(order, arg, d);
      DumpIsAccepted(order, arg, d);
    }
  }
}
