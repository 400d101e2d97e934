/** The first line of a MariaDB dump: a versioned comment no server runs, holding the client's mark for
    its sandbox mode. The scan passes over it and stands behind it as it stood before. */
module SandboxLine {
  import opened Text
  import opened SqlChecks
  import S = Statements
  import opened DumpLexer
  import R = ScanRuns

  const SANDBOX := "/*M!999999\\- enable the sandbox mode */ \n"

  /** A letter of words that name no file statement, or a blank. */
  predicate IsDull(c: char) {
    ('a' <= c <= 'z' && c != 'f') || c == ' '
  }

  /** Inside such a comment, with nothing but a word of it being read. */
  predicate InComment(s: Scan, base: Scan) {
    && s == base.(word := s.word, wordLong := s.wordLong, prev := s.prev)
    && base.lex == Lex(Code, false, true, true, ";") && !base.inVar
    && forall i :: 0 <= i < |s.word| ==> 'a' <= s.word[i] <= 'z' && s.word[i] != 'f'
  }

  lemma NoFileWord(w: string)
    requires forall i :: 0 <= i < |w| ==> 'a' <= w[i] <= 'z' && w[i] != 'f'
    ensures !IsFileWord(w)
  {
    assert "OUTFILE"[3] == 'F' && "DUMPFILE"[4] == 'F';
    assert |w| > 3 ==> Upper(w)[3] == UpperChar(w[3]) != 'F';
    assert |w| > 4 ==> Upper(w)[4] == UpperChar(w[4]) != 'F';
  }

  lemma DullCode(text: string, i: nat, x: Lex)
    requires i < |text| && IsDull(text[i]) && x == Lex(Code, false, true, true, ";")
    ensures LexStep(text, i, x) == Some(LexOut(i + 1, x, Byte(text[i])))
  {
  }

  lemma DullStep(order: S.Order, text: string, i: nat, s: Scan, base: Scan)
    requires i < |text| && IsDull(text[i]) && InComment(s, base)
    ensures Step(order, text, i, s).Some? && Step(order, text, i, s).value.0 == i + 1 && InComment(Step(order, text, i, s).value.1, base)
    ensures text[i] == ' ' ==> Step(order, text, i, s).value.1.word == "" && !Step(order, text, i, s).value.1.wordLong
  {
    DullCode(text, i, s.lex);
    NoFileWord(s.word);
    hide LexStep, IsFileWord;
  }

  /** The words of the comment. */
  lemma {:induction false} DullRun(order: S.Order, text: string, i: nat, j: nat, s: Scan, base: Scan) returns (t: Scan)
    requires i < j <= |text| && (forall k :: i <= k < j ==> IsDull(text[k])) && text[j - 1] == ' ' && InComment(s, base)
    ensures InComment(t, base) && t.word == "" && !t.wordLong && Run(order, text, i, s) == Run(order, text, j, t)
    decreases j - i
  {
    hide Step, IsDull;
    DullStep(order, text, i, s, base);
    t := Step(order, text, i, s).value.1;
    if i + 1 < j {
      t := DullRun(order, text, i + 1, j, t, base);
    }
  }

  lemma Opener()
    ensures |SANDBOX| == 41 && SANDBOX[0] == '/' && SANDBOX[1] == '*' && SANDBOX[2] == 'M' && SANDBOX[3] == '!'
    ensures (forall k :: 4 <= k < 10 ==> SANDBOX[k] == '9') && SANDBOX[10] == '\\' && SANDBOX[11] == '-'
  {
  }

  lemma Words()
    ensures forall k :: 12 <= k < 24 ==> IsDull(SANDBOX[k])
  {
  }

  lemma MoreWords()
    ensures forall k :: 24 <= k < 37 ==> IsDull(SANDBOX[k])
    ensures SANDBOX[36] == ' '
  {
  }

  lemma Closer()
    ensures SANDBOX[37] == '*' && SANDBOX[38] == '/' && SANDBOX[39] == ' ' && SANDBOX[40] == '\n'
  {
  }

  lemma LineText(rest: string)
    ensures var text := SANDBOX + rest;
            && |text| >= 41 && text[0] == '/' && text[1] == '*' && text[2] == 'M' && text[3] == '!'
            && (forall k :: 4 <= k < 10 ==> text[k] == '9') && text[10] == '\\' && text[11] == '-'
            && (forall k :: 12 <= k < 37 ==> IsDull(text[k])) && text[36] == ' '
            && text[37] == '*' && text[38] == '/' && text[39] == ' ' && text[40] == '\n'
  {
    hide IsDull, SANDBOX;
    Opener();
    Words();
    MoreWords();
    Closer();
    assert forall k :: 0 <= k < 41 ==> (SANDBOX + rest)[k] == SANDBOX[k];
  }

  lemma Nines(text: string)
    requires |text| > 10 && (forall k :: 4 <= k < 10 ==> text[k] == '9')
    ensures VersionEnd(text, 4) == 10 && NeverRun(text, 4)
  {
    assert DigitsLength(text, 10, 0) == 0 && DigitsLength(text, 9, 1) == 1 && DigitsLength(text, 8, 2) == 2;
    assert DigitsLength(text, 7, 3) == 3 && DigitsLength(text, 6, 4) == 4 && DigitsLength(text, 5, 5) == 5;
    assert text[4..10] == "999999";
  }

  lemma NoCommand(text: string)
    requires text != "" && text[0] == '/'
    ensures LexStep(text, 0, START) == Some(LexOut(0, START.(bol := false), Skip))
  {
    assert WordLength(text, 0, 33) == 0;
    assert LineStart(text, 0, START) == Some(LexOut(0, START.(bol := false), Skip));
    hide LineStart;
  }

  lemma OpensCond(text: string)
    requires |text| > 10 && text[0] == '/' && text[1] == '*' && text[2] == 'M' && text[3] == '!' && (forall k :: 4 <= k < 10 ==> text[k] == '9')
    ensures var x := START.(bol := false); CodeStep(text, 0, x) == Some(LexOut(10, x.(cond := true, dead := true), OpenCond(true)))
  {
    Nines(text);
    hide VersionEnd, NeverRun;
  }

  /** The line opens with the comment. */
  lemma Opens(order: S.Order, text: string, s: Scan)
    requires |text| > 10 && text[0] == '/' && text[1] == '*' && text[2] == 'M' && text[3] == '!' && (forall k :: 4 <= k < 10 ==> text[k] == '9')
    requires s.lex == START && s.word == "" && !s.wordLong && !s.inVar && s.stmt.curKind == S.NONE && !s.stmt.accepted
    ensures Run(order, text, 0, s) == Run(order, text, 10, s.(lex := Lex(Code, false, true, true, ";"), prev := ' '))
  {
    hide LexStep, CodeStep, Run;
    var s1 := s.(lex := START.(bol := false));
    NoCommand(text);
    assert Step(order, text, 0, s) == Some((0, s1));
    OpensCond(text);
    hide Step;
    OpenStepTaken(order, text, s1);
    GoesOn(order, text, 0, s, 0, s1);
    GoesOn(order, text, 0, s1, 10, s.(lex := Lex(Code, false, true, true, ";"), prev := ' '));
  }

  lemma OpenStepTaken(order: S.Order, text: string, s: Scan)
    requires text != "" && s.lex == START.(bol := false) && text[0] == '/' && s.word == "" && !s.wordLong && !s.inVar
    requires s.stmt.curKind == S.NONE && !s.stmt.accepted
    requires CodeStep(text, 0, s.lex) == Some(LexOut(10, s.lex.(cond := true, dead := true), OpenCond(true))) && |text| > 10
    ensures Step(order, text, 0, s) == Some((10, s.(lex := s.lex.(cond := true, dead := true), prev := ' ')))
  {
    NoFileWord("");
    R.StepInCode(order, text, 0, s);
    hide Step, CodeStep, IsFileWord;
  }

  /** The mark behind its opener. */
  lemma Marks(order: S.Order, text: string, i: nat, s: Scan)
    requires i + 1 < |text| && text[i] == '\\' && text[i + 1] == '-' && s.lex == Lex(Code, false, true, true, ";")
    requires s.word == "" && !s.wordLong && !s.inVar
    ensures Run(order, text, i, s) == Run(order, text, i + 2, s.(prev := '\\'))
  {
    NoFileWord("");
    hide IsFileWord;
    assert LexStep(text, i, s.lex) == Some(LexOut(i + 2, s.lex, Sandbox));
    assert Step(order, text, i, s) == Some((i + 2, s.(prev := '\\'))) by {
      hide LexStep;
    }
    hide Step;
  }

  /** The end of the comment, the blank and the newline behind it. */
  lemma Ends(order: S.Order, text: string, i: nat, s: Scan)
    requires i + 3 < |text| && text[i] == '*' && text[i + 1] == '/' && text[i + 2] == ' ' && text[i + 3] == '\n'
    requires s.lex == Lex(Code, false, true, true, ";") && s.word == "" && !s.wordLong && !s.inVar && s.stmt.curKind == S.NONE && !s.stmt.accepted
    ensures Run(order, text, i, s) == Run(order, text, i + 4, s.(lex := START, prev := ' '))
  {
    NoFileWord("");
    hide IsFileWord;
    var x := START.(bol := false);
    var s1 := s.(lex := x, prev := ' ');
    Closes(order, text, i, s);
    Blank(order, text, i + 2, s1);
    R.StepAtNewline(order, text, i + 3, s1);
    assert Step(order, text, i + 3, s1) == Some((i + 4, s.(lex := START, prev := ' ')));
    hide Step, Run;
    GoesOn(order, text, i, s, i + 2, s1);
    GoesOn(order, text, i + 2, s1, i + 3, s1);
    GoesOn(order, text, i + 3, s1, i + 4, s.(lex := START, prev := ' '));
  }

  lemma GoesOn(order: S.Order, text: string, i: nat, s: Scan, j: nat, t: Scan)
    requires i < |text| && Valid(s) && Step(order, text, i, s) == Some((j, t))
    ensures Run(order, text, i, s) == Run(order, text, j, t)
  {
    hide Step;
  }

  lemma Closes(order: S.Order, text: string, i: nat, s: Scan)
    requires i + 1 < |text| && text[i] == '*' && text[i + 1] == '/' && s.lex == Lex(Code, false, true, true, ";")
    requires s.word == "" && !s.wordLong && !s.inVar && s.stmt.curKind == S.NONE && !s.stmt.accepted
    ensures Step(order, text, i, s) == Some((i + 2, s.(lex := START.(bol := false), prev := ' ')))
  {
    NoFileWord("");
    hide IsFileWord;
    assert LexStep(text, i, s.lex) == Some(LexOut(i + 2, START.(bol := false), CloseCond));
    hide LexStep;
  }

  lemma Blank(order: S.Order, text: string, i: nat, s: Scan)
    requires i < |text| && text[i] == ' ' && s.lex == START.(bol := false)
    requires s.word == "" && !s.wordLong && !s.inVar && s.stmt.curKind == S.NONE && !s.stmt.accepted
    ensures Step(order, text, i, s) == Some((i + 1, s.(prev := ' ')))
  {
    NoFileWord("");
    hide IsFileWord;
    assert LexStep(text, i, s.lex) == Some(LexOut(i + 1, s.lex, Byte(' ')));
    hide LexStep;
  }

  /** Main result: behind the first line of a MariaDB dump the scan stands as at its start, so the dump is
      judged by what follows the line. */
  lemma SandboxLineIsPassed(order: S.Order, rest: string, database: string)
    ensures SANDBOX == "/*M!999999\\- enable the sandbox mode */ \n"
    ensures Accepts(order, SANDBOX + rest, database) == Run(order, SANDBOX + rest, |SANDBOX|, Begin(database))
  {
    var (text, s) := (SANDBOX + rest, Begin(database));
    LineText(rest);
    hide Run, IsDull, SANDBOX;
    Opens(order, text, s);
    var base := s.(lex := Lex(Code, false, true, true, ";"), prev := ' ');
    Marks(order, text, 10, base);
    var t := DullRun(order, text, 12, 37, base.(prev := '\\'), base);
    Ends(order, text, 37, t);
    LineIs();
  }

  lemma LineIs()
    ensures SANDBOX == "/*M!999999\\- enable the sandbox mode */ \n" && |SANDBOX| == 41
  {
  }
}
