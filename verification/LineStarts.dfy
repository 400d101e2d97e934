/** What an accepted dump holds where the mysql client looks for its own commands.

    The client reads the first word of every line it is not inside a quote or comment of. In an
    accepted dump that word is no command that runs a program, reads or writes a file, reconnects or
    changes how the rest is read; `use` names the target database, and `delimiter` gives a short run of
    plain punctuation. Positions are those of the text; the lexer says which lines start in code. */
module LineStarts {
  import opened Text
  import opened SqlChecks
  import S = Statements
  import opened DumpLexer
  import VC = VersionedComments

  /** `w` is the word, in any case. The word is given in upper case. */
  predicate Spells(w: string, word: string): (r: bool)
    ensures r <==> |w| == |word| && forall i :: 0 <= i < |w| ==> UpperChar(w[i]) == word[i]
  {
    |w| == |word| && forall i :: 0 <= i < |w| ==> if 'a' <= w[i] <= 'z' then word[i] as int == w[i] as int - 32 else word[i] == w[i]
  }

  /** The lexer's state where a line starts at `k` in code; `None` where none does. */
  function LineAt(text: string, i: nat, x: Lex, k: nat): (r: Option<Lex>)
    requires i <= |text| && ValidLex(x)
    ensures r.Some? ==> ValidLex(r.value) && r.value.bol && i <= k <= |text|
    decreases |text| - i, if x.bol then 1 else 0
  {
    if x.bol && i == k then Some(x)
    else if i == |text| || k < i then None
    else
      match LexStep(text, i, x)
      case None => None
      case Some(out) => LineAt(text, out.next, out.lex, k)
  }

  /** `b` and `e` enclose the first word of the line at `k`, after its blanks. */
  predicate FirstWord(text: string, k: nat, b: nat, e: nat) {
    && k <= b < e <= |text|
    && (forall i :: k <= i < b ==> text[i] == ' ' || text[i] == '\t' || text[i] == '\r' || text[i] as int == 11 || text[i] as int == 12)
    && (forall i :: b <= i < e ==> IsWordByte(text[i])) && (e < |text| ==> !IsWordByte(text[e]))
  }

  /** The client drops the line whole. */
  predicate DroppedLine(text: string, k: nat) {
    At(text, k, '#') || (At(text, k, '-') && At(text, k + 1, '-') && (k + 2 >= |text| || IsSpace(text[k + 2])))
  }

  lemma {:induction false} BlanksEndAt(text: string, k: nat, b: nat)
    requires k <= b <= |text| && (forall i :: k <= i < b ==> IsLineSpace(text[i])) && (b < |text| ==> !IsLineSpace(text[b]))
    ensures BlanksEnd(text, k) == b
    decreases b - k
  {
    if k < b {
      BlanksEndAt(text, k + 1, b);
    }
  }

  lemma FirstWordIs(text: string, k: nat, b: nat, e: nat)
    requires FirstWord(text, k, b, e)
    ensures BlanksEnd(text, k) == b
    ensures e - b <= 32 ==> LineWord(text, b) == Upper(text[b..e])
  {
    BlanksEndAt(text, k, b);
    if e - b <= 32 {
      WordLengthIs(text, b, e - b, 33);
    }
  }

  lemma SpellsUpper(w: string, word: string)
    ensures Spells(w, word) <==> Upper(w) == word
  {
    if Spells(w, word) {
      assert Upper(w) == word;
    }
  }

  // ----------------------------------------------------------- whole dumps

  /** A run that is accepted reaches every line that starts in code, and reads it on. */
  lemma {:induction false} ReachesLine(order: S.Order, text: string, i: nat, s: Scan, k: nat) returns (t: Scan)
    requires i <= |text| && Valid(s) && Run(order, text, i, s) && LineAt(text, i, s.lex, k).Some?
    ensures Valid(t) && t.lex == LineAt(text, i, s.lex, k).value && Run(order, text, k, t) && t.stmt.database == s.stmt.database
    decreases |text| - i, if s.lex.bol then 1 else 0
  {
    hide LexStep, Step, Finish;
    if s.lex.bol && i == k {
      t := s;
    } else {
      var (j, n) := Step(order, text, i, s).value;
      StepKeepsDatabase(order, text, i, s);
      t := ReachesLine(order, text, j, n, k);
    }
  }

  lemma StepKeepsDatabase(order: S.Order, text: string, i: nat, s: Scan)
    requires i < |text| && Valid(s) && Step(order, text, i, s).Some?
    ensures Step(order, text, i, s).value.1.stmt.database == s.stmt.database
  {
    VC.CheckKeepsPlace(order, text, i, s, LexStep(text, i, s.lex).value);
    hide LexStep, Check;
  }

  /** What is read of a line that starts in code and is no comment. */
  lemma LineIsRead(order: S.Order, text: string, database: string, k: nat, b: nat, e: nat) returns (s: Scan)
    requires Accepts(order, text, database) && LineAt(text, 0, START, k).Some? && !DroppedLine(text, k) && FirstWord(text, k, b, e)
    ensures Valid(s) && s.lex == LineAt(text, 0, START, k).value && s.lex.bol && s.lex.mode.Code? && s.stmt.database == database
    ensures LineCommand(text, b, s.lex).Some? && Check(order, text, k, s, LineCommand(text, b, s.lex).value).Some?
    ensures e - b <= 32 ==> LineWord(text, b) == Upper(text[b..e])
  {
    hide Run, LexStep, LineCommand, Check, LineAt;
    s := ReachesLine(order, text, 0, Begin(database), k);
    FirstWordIs(text, k, b, e);
    LineGoesOn(order, text, k, s);
    assert CommentLine(text, k) == DroppedLine(text, k);
    assert LexStep(text, k, s.lex) == LineStart(text, k, s.lex) by {
      CodeLine(text, k, s.lex);
    }
  }

  lemma CodeLine(text: string, k: nat, x: Lex)
    requires k < |text| && ValidLex(x) && x.bol
    ensures x.mode.Code? && LexStep(text, k, x) == LineStart(text, k, x)
  {
    hide LineStart, CodeStep;
  }

  lemma LineGoesOn(order: S.Order, text: string, k: nat, s: Scan)
    requires k < |text| && Valid(s) && Run(order, text, k, s)
    ensures LexStep(text, k, s.lex).Some? && Check(order, text, k, s, LexStep(text, k, s.lex).value).Some?
  {
    hide LexStep, Check;
  }

  /** Main result: no line of an accepted dump that starts in code starts with a command that runs a
      program, reads or writes a file, reconnects or changes how the client reads on. */
  lemma NoClientCommands(order: S.Order, text: string, database: string, k: nat, b: nat, e: nat)
    requires Accepts(order, text, database) && LineAt(text, 0, START, k).Some? && !DroppedLine(text, k) && FirstWord(text, k, b, e)
    ensures !Spells(text[b..e], "SYSTEM") && !Spells(text[b..e], "SOURCE") && !Spells(text[b..e], "CONNECT")
    ensures !Spells(text[b..e], "TEE") && !Spells(text[b..e], "PAGER") && !Spells(text[b..e], "EDIT")
    ensures !Spells(text[b..e], "CHARSET")
  {
    var s := LineIsRead(order, text, database, k, b, e);
    hide Accepts, LineAt, Check, LexStep, FirstWord, LineWord, Upper, Spells;
    Forbidden(text[b..e], LineWord(text, b));
  }

  lemma Forbidden(w: string, word: string)
    requires |w| <= 32 ==> word == Upper(w) && !IsClientCommand(word)
    ensures !Spells(w, "SYSTEM") && !Spells(w, "SOURCE") && !Spells(w, "CONNECT") && !Spells(w, "TEE")
    ensures !Spells(w, "PAGER") && !Spells(w, "EDIT") && !Spells(w, "CHARSET")
  {
    SpellsUpper(w, "SYSTEM");
    SpellsUpper(w, "SOURCE");
    SpellsUpper(w, "CONNECT");
    SpellsUpper(w, "TEE");
    SpellsUpper(w, "PAGER");
    SpellsUpper(w, "EDIT");
    SpellsUpper(w, "CHARSET");
    hide Spells;
  }

  // ------------------------------------------------------ use and delimiter

  predicate AllBlank(s: string) {
    forall i :: 0 <= i < |s| ==> IsSpace(s[i])
  }

  lemma {:induction false} TrimLeftCuts(s: string)
    ensures AllBlank(s[..|s| - |TrimLeft(s)|])
    decreases |s|
  {
    if s != [] && IsSpace(s[0]) {
      TrimLeftCuts(s[1..]);
      var n := |s| - |TrimLeft(s)|;
      assert s[..n] == [s[0]] + s[1..][..n - 1];
    }
  }

  lemma {:induction false} TrimRightCuts(s: string)
    ensures AllBlank(s[|TrimRight(s)|..])
    decreases |s|
  {
    if s != [] && IsSpace(s[|s| - 1]) {
      TrimRightCuts(s[..|s| - 1]);
      var n := |TrimRight(s)|;
      assert s[n..] == s[..|s| - 1][n..] + [s[|s| - 1]];
    }
  }

  /** A string is what trimming leaves of it between two blank strings. */
  lemma Trims(s: string) returns (a: string, b: string)
    ensures s == a + TrimSpace(s) + b && AllBlank(a) && AllBlank(b)
  {
    TrimLeftCuts(s);
    var l := TrimLeft(s);
    TrimRightCuts(l);
    hide TrimLeft, TrimRight, AllBlank;
    a, b := s[..|s| - |l|], l[|TrimRight(l)|..];
    assert l == TrimRight(l) + b;
    assert s == a + l;
  }

  lemma CutsSuffix(s: string, p: string) returns (q: string)
    ensures s == TrimSuffix(s, p) + q && (q == "" || q == p)
  {
    q := if HasSuffix(s, p) then p else "";
  }

  /** The name as it is or in quotes. */
  predicate IsNameOf(n: string, database: string) {
    n == database || n == "`" + database + "`" || n == "'" + database + "'" || n == "\"" + database + "\""
  }

  /** What stands behind `use`: the name, perhaps a semicolon and the delimiter, and white space. */
  predicate IsUse(arg: string, a: string, n: string, b: string, semicolon: string, c: string, delimiter: string, d: string) {
    && arg == a + n + b + semicolon + c + delimiter + d
    && AllBlank(a) && AllBlank(b) && AllBlank(c) && AllBlank(d) && (semicolon == "" || semicolon == ";")
  }

  lemma UseIsSpelled(arg: string, delim: string, database: string)
    returns (a: string, n: string, b: string, semicolon: string, c: string, delimiter: string, d: string)
    requires UseOk(arg, delim, database)
    ensures IsUse(arg, a, n, b, semicolon, c, delimiter, d) && (delimiter == "" || delimiter == delim) && IsNameOf(n, database)
  {
    hide TrimSpace, AllBlank;
    var t1 := TrimSpace(arg);
    var a1, d1 := Trims(arg);
    delimiter := CutsSuffix(t1, delim);
    var u1 := TrimSuffix(t1, delim);
    var t2 := TrimSpace(u1);
    var a2, c2 := Trims(u1);
    semicolon := CutsSuffix(t2, ";");
    var u2 := TrimSuffix(t2, ";");
    n := TrimSpace(u2);
    var a3, b3 := Trims(u2);
    a, b, c, d := a1 + a2 + a3, b3, c2, d1;
    Joins(a1, a2, a3, n, b3, semicolon, c2, delimiter, d1);
    JoinsBlank(a1, a2, a3);
    Quotes(n, UseName(arg, delim));
  }

  lemma Joins(a1: string, a2: string, a3: string, n: string, b: string, s: string, c: string, t: string, d: string)
    ensures a1 + ((a2 + ((a3 + n + b) + s) + c) + t) + d == (a1 + a2 + a3) + n + b + s + c + t + d
  {
  }

  lemma JoinsBlank(a: string, b: string, c: string)
    requires AllBlank(a) && AllBlank(b) && AllBlank(c)
    ensures AllBlank(a + b + c)
  {
  }

  lemma Quotes(n: string, name: string)
    requires name == if |n| >= 2 && (n[0] == '`' || n[0] == '\'' || n[0] == '"') && n[|n| - 1] == n[0] then n[1..|n| - 1] else n
    ensures IsNameOf(n, name)
  {
    if |n| >= 2 && (n[0] == '`' || n[0] == '\'' || n[0] == '"') && n[|n| - 1] == n[0] {
      assert n == [n[0]] + n[1..|n| - 1] + [n[0]];
    }
  }

  /** The rest of the line behind its first word. */
  function Argument(text: string, e: nat): string
    requires e <= |text|
  {
    text[e..LineEnd(text, e)]
  }

  lemma UseIsChecked(order: S.Order, text: string, k: nat, s: Scan, b: nat)
    requires k < |text| && b <= |text| && Valid(s) && s.lex.bol && s.lex.mode.Code? && LineWord(text, b) == "USE"
    requires LineCommand(text, b, s.lex).Some? && Check(order, text, k, s, LineCommand(text, b, s.lex).value).Some?
    ensures b + 3 <= |text| && UseOk(Argument(text, b + 3), s.lex.delim, s.stmt.database)
  {
    hide LineWord, UseOk, LineEnd, NextLine;
  }

  /** Main result: a line of an accepted dump that starts in code with `use` names the target database. */
  lemma UseNamesDatabase(order: S.Order, text: string, database: string, k: nat, b: nat, e: nat)
    returns (x: string, n: string, y: string, semicolon: string, z: string, delimiter: string, w: string)
    requires Accepts(order, text, database) && LineAt(text, 0, START, k).Some? && !DroppedLine(text, k) && FirstWord(text, k, b, e)
    requires Spells(text[b..e], "USE")
    ensures IsUse(Argument(text, e), x, n, y, semicolon, z, delimiter, w) && IsNameOf(n, database) && database != ""
    ensures delimiter == "" || delimiter == LineAt(text, 0, START, k).value.delim
  {
    var s := LineIsRead(order, text, database, k, b, e);
    SpellsUpper(text[b..e], "USE");
    assert text[b..e] == text[b..b + (e - b)];
    hide Accepts, LineAt, LexStep, LineWord, Upper, Spells, Run, UseOk;
    UseIsChecked(order, text, k, s, b);
    x, n, y, semicolon, z, delimiter, w := UseIsSpelled(Argument(text, e), s.lex.delim, s.stmt.database);
  }

  /** A byte a delimiter may be made of. */
  predicate IsPunctuation(c: char) {
    && !IsSpace(c) && !('a' <= c <= 'z') && !('A' <= c <= 'Z') && !('0' <= c <= '9') && (c as int) < 0x80
    && c !in {'_', '$', '\'', '"', '`', '\\', '#', '-', '/', '*', '@', '.'}
  }

  /** What stands behind `delimiter`: white space around up to 16 plain bytes. */
  predicate IsDelimiter(arg: string, a: string, f: string, b: string) {
    arg == a + f + b && AllBlank(a) && AllBlank(b) && 1 <= |f| <= 16 && forall i :: 0 <= i < |f| ==> IsPunctuation(f[i])
  }

  lemma PlainIsPunctuation(f: string)
    ensures PlainDelimiter(f) <==> forall i :: 0 <= i < |f| ==> IsPunctuation(f[i])
  {
    forall i | 0 <= i < |f| ensures DelimiterByte(f[i]) <==> IsPunctuation(f[i]) {
    }
  }

  lemma {:induction false} TrimsLeft(a: string, f: string)
    requires AllBlank(a) && (f != "" ==> !IsSpace(f[0]))
    ensures TrimLeft(a + f) == f
    decreases |a|
  {
    if a == "" {
      assert a + f == f;
    } else {
      assert (a + f)[1..] == a[1..] + f;
      TrimsLeft(a[1..], f);
    }
  }

  lemma {:induction false} TrimsRight(f: string, b: string)
    requires AllBlank(b) && (f != "" ==> !IsSpace(f[|f| - 1]))
    ensures TrimRight(f + b) == f
    decreases |b|
  {
    if b == "" {
      assert f + b == f;
    } else {
      assert (f + b)[..|f + b| - 1] == f + b[..|b| - 1];
      TrimsRight(f, b[..|b| - 1]);
    }
  }

  lemma DelimiterIsTrimmed(arg: string, a: string, f: string, b: string)
    requires IsDelimiter(arg, a, f, b)
    ensures TrimSpace(arg) == f
  {
    hide TrimLeft, TrimRight, IsSpace;
    assert a + f + b == a + (f + b);
    assert !IsSpace(f[0]) && !IsSpace(f[|f| - 1]);
    TrimsLeft(a, f + b);
    TrimsRight(f, b);
  }

  lemma DelimiterOkIs(arg: string)
    ensures DelimiterOk(arg) <==> SpellsDelimiter(arg)
  {
    hide TrimSpace, PlainDelimiter, AllBlank, IsPunctuation;
    if DelimiterOk(arg) {
      var a, b := Trims(arg);
      PlainIsPunctuation(TrimSpace(arg));
      assert IsDelimiter(arg, a, TrimSpace(arg), b);
    }
    if a, f, b :| IsDelimiter(arg, a, f, b) {
      DelimiterIsTrimmed(arg, a, f, b);
      PlainIsPunctuation(f);
    }
  }

  ghost predicate SpellsDelimiter(arg: string) {
    exists a, f, b :: IsDelimiter(arg, a, f, b)
  }

  lemma DelimiterStep(order: S.Order, text: string, k: nat, s: Scan)
    requires k < |text| && Valid(s)
    ensures LexStep(text, k, s.lex).None? ==> Step(order, text, k, s).None?
    ensures LexStep(text, k, s.lex).Some? && LexStep(text, k, s.lex).value.event.DelimiterCommand? ==>
              var out := LexStep(text, k, s.lex).value;
              Step(order, text, k, s) == if s.stmt.started then None else Some((out.next, s.(lex := out.lex)))
  {
    hide LexStep;
  }

  /** A scan at the start of a line takes a delimiter exactly between statements and outside versioned
      comments. */
  lemma DelimiterLine(order: S.Order, text: string, k: nat, s: Scan, b: nat, e: nat)
    requires k < |text| && Valid(s) && s.lex.bol && !DroppedLine(text, k) && FirstWord(text, k, b, e) && Spells(text[b..e], "DELIMITER")
    requires e < |text| && IsLineSpace(text[e]) && |Argument(text, e)| <= 1024
    ensures Step(order, text, k, s).Some? <==> !s.lex.cond && !s.stmt.started && SpellsDelimiter(Argument(text, e))
  {
    hide FirstWord, Spells, TrimSpace, DelimiterOk, IsDelimiter, LineEnd, NextLine, IsLineSpace, LexStep, DroppedLine, Step, SpellsDelimiter;
    DelimiterIsRead(text, k, s.lex, b, e);
    DelimiterOkIs(Argument(text, e));
    DelimiterStep(order, text, k, s);
  }

  /** So is any such delimiter, `;;` for one, and the scan goes on behind the line with it. */
  lemma DelimiterIsTaken(order: S.Order, text: string, k: nat, s: Scan, b: nat, e: nat, x: string, f: string, y: string)
    requires k < |text| && Valid(s) && s.lex.bol && !DroppedLine(text, k) && FirstWord(text, k, b, e) && Spells(text[b..e], "DELIMITER")
    requires e < |text| && IsLineSpace(text[e]) && |Argument(text, e)| <= 1024 && IsDelimiter(Argument(text, e), x, f, y)
    requires !s.lex.cond && !s.stmt.started
    ensures Step(order, text, k, s) == Some((NextLine(text, e), s.(lex := s.lex.(delim := f))))
  {
    hide FirstWord, Spells, TrimSpace, DelimiterOk, IsDelimiter, LineEnd, NextLine, IsLineSpace, LexStep, DroppedLine, Step;
    DelimiterIsRead(text, k, s.lex, b, e);
    DelimiterIsTrimmed(Argument(text, e), x, f, y);
    DelimiterOkIs(Argument(text, e));
    DelimiterStep(order, text, k, s);
  }

  lemma SameDropped(text: string, k: nat)
    ensures CommentLine(text, k) == DroppedLine(text, k)
  {
  }

  lemma FirstWordBounds(text: string, k: nat, b: nat, e: nat)
    requires FirstWord(text, k, b, e) && Spells(text[b..e], "DELIMITER")
    ensures e == b + 9
  {
  }

  lemma NoCommand()
    ensures !IsClientCommand("DELIMITER")
  {
  }

  lemma DelimiterIsRead(text: string, k: nat, x: Lex, b: nat, e: nat)
    requires k < |text| && ValidLex(x) && x.bol && !DroppedLine(text, k) && FirstWord(text, k, b, e) && Spells(text[b..e], "DELIMITER")
    requires e < |text| && IsLineSpace(text[e]) && |Argument(text, e)| <= 1024
    ensures LexStep(text, k, x) ==
              if !x.cond && DelimiterOk(Argument(text, e))
              then Some(LexOut(NextLine(text, e), x.(delim := TrimSpace(Argument(text, e))), DelimiterCommand(Argument(text, e))))
              else None
  {
    hide Spells, LineWord, Upper, TrimSpace, DelimiterOk, LineEnd, NextLine, IsLineSpace, LexStep, CommentLine, DroppedLine, BlanksEnd, FirstWord,
         IsClientCommand;
    FirstWordBounds(text, k, b, e);
    FirstWordIs(text, k, b, e);
    SpellsUpper(text[b..e], "DELIMITER");
    CodeLine(text, k, x);
    SameDropped(text, k);
    NoCommand();
    assert LineStart(text, k, x) == LineCommand(text, b, x);
  }

  /** Main result: a line of an accepted dump that starts in code with `delimiter` and a blank gives the
      punctuation that ends the statements behind it. */
  lemma DelimitersArePlain(order: S.Order, text: string, database: string, k: nat, b: nat, e: nat)
    requires Accepts(order, text, database) && LineAt(text, 0, START, k).Some? && !DroppedLine(text, k) && FirstWord(text, k, b, e)
    requires Spells(text[b..e], "DELIMITER") && e < |text| && IsLineSpace(text[e])
    ensures |Argument(text, e)| <= 1024 && !LineAt(text, 0, START, k).value.cond
    ensures SpellsDelimiter(Argument(text, e))
  {
    var s := LineIsRead(order, text, database, k, b, e);
    SpellsUpper(text[b..e], "DELIMITER");
    hide Accepts, LineAt, LexStep, FirstWord, LineWord, Upper, Spells, Run, DelimiterOk, TrimSpace, IsDelimiter, Check;
    assert |Argument(text, e)| <= 1024 && !s.lex.cond && DelimiterOk(Argument(text, e));
    DelimiterOkIs(Argument(text, e));
  }

  // ------------------------------------------------- what code may not hold

  /** The lexer's state where it reads a step of code at `k`; `None` where it does not. */
  function CodeAt(text: string, i: nat, x: Lex, k: nat): (r: Option<Lex>)
    requires i <= |text| && ValidLex(x)
    ensures r.Some? ==> ValidLex(r.value) && r.value.mode.Code? && !r.value.bol && k < |text|
    decreases |text| - i, if x.bol then 1 else 0
  {
    if i == |text| || k < i then None
    else if i == k && x.mode.Code? && !x.bol then Some(x)
    else
      match LexStep(text, i, x)
      case None => None
      case Some(out) => CodeAt(text, out.next, out.lex, k)
  }

  lemma {:induction false} ReachesCode(order: S.Order, text: string, i: nat, s: Scan, k: nat) returns (t: Scan)
    requires i <= |text| && Valid(s) && PlainDelimiter(s.lex.delim) && Run(order, text, i, s) && CodeAt(text, i, s.lex, k).Some?
    ensures Valid(t) && t.lex == CodeAt(text, i, s.lex, k).value && Run(order, text, k, t) && PlainDelimiter(t.lex.delim)
    decreases |text| - i, if s.lex.bol then 1 else 0
  {
    hide LexStep, Step, Finish, PlainDelimiter;
    if i == k && s.lex.mode.Code? && !s.lex.bol {
      t := s;
    } else {
      var (j, n) := Step(order, text, i, s).value;
      DelimiterStaysPlain(text, i, s.lex);
      t := ReachesCode(order, text, j, n, k);
    }
  }

  lemma CodeIsPlain(text: string, k: nat, x: Lex)
    requires k < |text| && ValidLex(x) && x.mode.Code? && !x.bol && PlainDelimiter(x.delim) && LexStep(text, k, x).Some?
    ensures At(text, k, ':') && At(text, k + 1, '=') ==> x.dead || DelimiterAt(text, k, x.delim)
    ensures At(text, k, '/') && At(text, k + 1, '*') ==> !At(text, k + 2, '+') && !x.cond
    ensures DelimiterAt(text, k, x.delim) ==> !x.cond
    ensures At(text, k, '#') ==> !x.cond
    ensures At(text, k, '\\') ==> At(text, k + 1, '-')
  {
    hide VersionEnd, NeverRun, LineEnd;
    if DelimiterAt(text, k, x.delim) {
      assert text[k] == x.delim[0];
    }
  }

  /** Main result: outside quotes and comments an accepted dump assigns no variable inside an expression,
      outside comments no server runs, and gives the optimizer no hint; inside a versioned comment no
      other comment starts and no statement ends. */
  lemma CodeHoldsNoCommand(order: S.Order, text: string, database: string, k: nat)
    requires Accepts(order, text, database) && CodeAt(text, 0, START, k).Some?
    ensures var x := CodeAt(text, 0, START, k).value;
            && (At(text, k, ':') && At(text, k + 1, '=') ==> x.dead || DelimiterAt(text, k, x.delim))
            && (At(text, k, '/') && At(text, k + 1, '*') ==> !At(text, k + 2, '+') && !x.cond)
            && (DelimiterAt(text, k, x.delim) || At(text, k, '#') ==> !x.cond)
  {
    hide Run, LexStep, CodeAt;
    var s := ReachesCode(order, text, 0, Begin(database), k);
    LineGoesOn(order, text, k, s);
    CodeIsPlain(text, k, s.lex);
  }
}
