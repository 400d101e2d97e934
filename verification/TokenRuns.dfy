/** How the scan reads tokens written one after another, each with a blank behind it: one step for
    each byte, and one token pushed for each blank. */
module TokenRuns {
  import opened Text
  import opened SqlChecks
  import S = Statements
  import opened DumpLexer
  import R = ScanRuns
  import opened Mentions

  /** Within a line of code, outside comments, with the client's own delimiter. */
  const CALM := Lex(Code, false, false, false, ";")

  /** A byte that means nothing beyond itself in code. */
  predicate PlainCode(c: char) {
    c !in ['\n', ';', '\'', '"', '`', ':', '\\', '#', '-', '/', '*']
  }

  lemma PlainCodeStep(text: string, i: nat)
    requires i < |text| && PlainCode(text[i])
    ensures CodeStep(text, i, CALM) == Some(LexOut(i + 1, CALM, Byte(text[i])))
  {
  }

  lemma PlainStep(order: S.Order, text: string, i: nat, s: Scan)
    requires i < |text| && s.lex == CALM && PlainCode(text[i])
    ensures Step(order, text, i, s) ==
            match Prelude(s, text[i])
            case None => None
            case Some(p) =>
              match PlainByte(text, i, p, text[i])
              case None => None
              case Some(t) => Some((i + 1, t))
  {
    PlainCodeStep(text, i);
    R.StepInCode(order, text, i, s);
    hide CodeStep, Prelude, PlainByte;
  }

  // ------------------------------------------------- the bytes of a word

  /** A word token is being read. */
  predicate InToken(s: Scan) {
    s.lex == CALM && s.stmt.started && s.stmt.curKind == 'w' && !S.InBody(s.stmt)
  }

  function SpellByte(s: Scan, c: char): Option<Scan> {
    match if c == '.' then EndWord(s) else Some(s)
    case None => None
    case Some(p) => Some(Said(p, c).(prev := c, stmt := p.stmt.(cur := p.stmt.cur + [c])))
  }

  function Spell(s: Scan, w: string): Option<Scan>
    decreases |w|
  {
    if w == "" then Some(s)
    else
      match SpellByte(s, w[0])
      case None => None
      case Some(t) => Spell(t, w[1..])
  }

  lemma TokenByte(st: S.Stmt, c: char)
    requires st.started && st.curKind == 'w' && !S.InBody(st) && |st.cur| < MAX_HEAD && IsNameByte(c)
    ensures S.CodeByte(st, c) == Some(st.(cur := st.cur + [c]))
  {
    assert st.(started := true) == st;
    hide S.Flush, S.Push;
  }

  lemma TokenPrelude(s: Scan, c: char)
    requires IsNameByte(c)
    ensures Prelude(s, c) == if c == '.' then EndWord(s) else Some(s)
  {
    hide IsFileWord;
  }

  /** What a name byte does to the word and the variable being read. */
  function Said(p: Scan, c: char): Scan {
    WordByte(if p.inVar then VarByte(p, c) else p, c)
  }

  lemma SaidOnly(p: Scan, c: char)
    ensures Said(p, c).stmt == p.stmt && Said(p, c).lex == p.lex && Said(p.(prev := c), c) == Said(p, c).(prev := c)
  {
  }

  lemma NameIsTracked(text: string, i: nat, p: Scan, prev: char, c: char)
    requires !p.lex.dead && IsNameByte(c)
    ensures WordByte(TrackVar(text, i, p, prev, c), c) == Said(p, c)
  {
    NameByteIsPlain(c);
    hide IsNameByte, WordByte, VarByte;
  }

  lemma TokenPlain(text: string, i: nat, p: Scan, c: char)
    requires p.lex == CALM && IsNameByte(c) && S.CodeByte(p.stmt, c) == Some(p.stmt.(cur := p.stmt.cur + [c]))
    ensures PlainByte(text, i, p, c) == Some(Said(p, c).(prev := c, stmt := p.stmt.(cur := p.stmt.cur + [c])))
  {
    NameIsTracked(text, i, p.(prev := c), p.prev, c);
    SaidOnly(p, c);
    hide S.CodeByte, TrackVar, WordByte, Said, IsNameByte;
  }

  lemma NameByteIsPlain(c: char)
    requires IsNameByte(c)
    ensures c != '@' && c != ':'
  {
  }

  lemma SpellByteStep(order: S.Order, text: string, i: nat, s: Scan)
    requires i < |text| && InToken(s) && |s.stmt.cur| < MAX_HEAD && IsNameByte(text[i])
    ensures Step(order, text, i, s) == match SpellByte(s, text[i]) case None => None case Some(t) => Some((i + 1, t))
  {
    var c := text[i];
    PlainStep(order, text, i, s);
    TokenPrelude(s, c);
    TokenByte(s.stmt, c);
    hide Step, S.CodeByte, Prelude, PlainByte, IsFileWord;
    if c != '.' || EndWord(s).Some? {
      TokenPlain(text, i, if c == '.' then EndWord(s).value else s, c);
    }
  }

  lemma SpellByteKeeps(s: Scan, c: char)
    requires InToken(s) && SpellByte(s, c).Some?
    ensures var t := SpellByte(s, c).value; InToken(t) && t.stmt == s.stmt.(cur := s.stmt.cur + [c])
  {
    hide IsFileWord;
  }

  lemma SpellFirst(s: Scan, w: string)
    requires w != "" && Spell(s, w).Some?
    ensures SpellByte(s, w[0]).Some? && Spell(s, w) == Spell(SpellByte(s, w[0]).value, w[1..])
  {
    hide SpellByte;
  }

  lemma TokenIsValid(s: Scan)
    requires InToken(s)
    ensures Valid(s)
  {
  }

  /** Each byte of a word is one step. */
  lemma {:induction false} SpellRun(order: S.Order, text: string, i: nat, s: Scan, w: string)
    requires InToken(s) && |s.stmt.cur| + |w| <= MAX_HEAD && i + |w| <= |text| && text[i..i + |w|] == w
    requires (forall k :: 0 <= k < |w| ==> IsNameByte(w[k])) && Spell(s, w).Some?
    ensures R.After(order, text, i, s, |w|) == Some((i + |w|, Spell(s, w).value))
    decreases |w|
  {
    hide Step, SpellByte, InToken, IsNameByte, R.After, Spell;
    TokenIsValid(s);
    R.AfterFirst(order, text, i, s, |w|);
    if w == "" {
      SpellsNothing(s);
    } else {
      assert text[i] == w[0] && text[i + 1..i + |w|] == w[1..];
      SpellFirst(s, w);
      SpellByteStep(order, text, i, s);
      SpellByteKeeps(s, w[0]);
      SpellRun(order, text, i + 1, SpellByte(s, w[0]).value, w[1..]);
    }
  }

  lemma SpellsNothing(s: Scan)
    ensures Spell(s, "") == Some(s)
  {
  }

  /** What the scanner keeps of the code word being read, after more of it; `None` when a part of it
      before a dot is refused. */
  function Spoken(word: string, long: bool, w: string): Option<(string, bool)>
    decreases |w|
  {
    if w == "" then Some((word, long))
    else if w[0] == '.' then if !long && IsFileWord(word) then None else Spoken("", false, w[1..])
    else if !IsWordByte(w[0]) then Spoken(word, long, w[1..])
    else if |word| < 16 then Spoken(word + [w[0]], long, w[1..])
    else Spoken(word, true, w[1..])
  }

  lemma SpellByteGives(s: Scan, w: string)
    requires w != "" && Spoken(s.word, s.wordLong, w).Some? && (s.inVar ==> !s.varLong && |s.varName| < 64)
    ensures SpellByte(s, w[0]).Some?
    ensures var t := SpellByte(s, w[0]).value;
            && Spoken(t.word, t.wordLong, w[1..]) == Spoken(s.word, s.wordLong, w)
            && t == s.(word := t.word, wordLong := t.wordLong, varName := if s.inVar then s.varName + [w[0]] else s.varName,
                       prev := w[0], stmt := s.stmt.(cur := s.stmt.cur + [w[0]]))
  {
    hide IsFileWord;
  }

  lemma {:induction false} SpellGives(s: Scan, w: string)
    requires Spoken(s.word, s.wordLong, w).Some? && (s.inVar ==> !s.varLong && |s.varName| + |w| <= 64)
    ensures Spell(s, w).Some?
    ensures var t := Spell(s, w).value;
            && Spoken(s.word, s.wordLong, w) == Some((t.word, t.wordLong))
            && t == s.(word := t.word, wordLong := t.wordLong, varName := if s.inVar then s.varName + w else s.varName,
                       prev := if w == "" then s.prev else w[|w| - 1], stmt := s.stmt.(cur := s.stmt.cur + w))
    decreases |w|
  {
    hide SpellByte;
    if w == "" {
      assert s.varName + w == s.varName && s.stmt.cur + w == s.stmt.cur;
    } else {
      SpellByteGives(s, w);
      hide Spoken;
      var t := SpellByte(s, w[0]).value;
      SpellGives(t, w[1..]);
      assert s.varName + [w[0]] + w[1..] == s.varName + w;
      assert s.stmt.cur + [w[0]] + w[1..] == s.stmt.cur + w;
    }
  }

  // ----------------------------------------------------- one whole token

  /** Nothing is being read. */
  predicate Idle(s: Scan) {
    && s.lex == CALM && s.word == "" && !s.wordLong && !s.inVar && s.prev == ' ' && Resting(s.stmt)
  }

  predicate Resting(st: S.Stmt) {
    st.curKind == S.NONE && st.cur == "" && !S.InBody(st)
  }

  /** A name the scan reads through. */
  predicate Sayable(w: string) {
    && w != "" && IsWordByte(w[0]) && (forall k :: 0 <= k < |w| ==> IsNameByte(w[k]))
    && match Spoken("", false, w) { case None => false case Some(x) => x.1 || !IsFileWord(x.0) }
  }

  predicate IsMark(c: char) {
    c == '=' || c == ',' || c == '(' || c == ')'
  }

  /** Where the name of a word token starts: after `@` or `@@`. */
  function Sigils(t: Token): (n: nat)
    ensures n <= 2 && n <= |t.text|
  {
    if HasPrefix(t.text, "@@") then 2 else if HasPrefix(t.text, "@") then 1 else 0
  }

  function Name(t: Token): string {
    t.text[Sigils(t)..]
  }

  predicate Writable(t: Token) {
    || (t.kind == 'p' && |t.text| == 1 && IsMark(t.text[0]))
    || (t.kind == 'w' && |t.text| <= MAX_HEAD && Sayable(Name(t)) && (Sigils(t) == 1 ==> |Name(t)| <= 64))
  }

  /** The mention a token makes. */
  function Refers(st: S.Stmt, t: Token): S.Stmt {
    if t.kind == 'w' && Sigils(t) == 1 then S.UserVar(st, VarKey(Name(t), false)) else st
  }

  lemma NoFileWord()
    ensures !IsFileWord("")
  {
  }

  lemma ShortWord(w: string)
    ensures |w| < 7 ==> !IsFileWord(w)
  {
  }

  lemma IdlePrelude(s: Scan, c: char)
    requires Idle(s)
    ensures Prelude(s, c) == Some(s)
  {
    NoFileWord();
    hide IsFileWord;
  }

  /** The first byte of a word token. */
  lemma StartsToken(st: S.Stmt, c: char)
    requires Resting(st) && (IsWordByte(c) || c == '@')
    ensures S.CodeByte(st, c) == Some(st.(started := true, curKind := 'w', cur := [c]))
  {
    hide S.Push;
  }

  lemma MarkToken(st: S.Stmt, c: char)
    requires Resting(st) && IsMark(c)
    ensures S.CodeByte(st, c) == S.Push(st.(started := true), Token('p', [c]))
  {
    hide S.Push;
  }

  function Starting(s: Scan, c: char): Scan {
    s.(prev := c, stmt := s.stmt.(started := true, curKind := 'w', cur := [c]))
  }

  lemma StartWordStep(order: S.Order, text: string, i: nat, s: Scan)
    requires i < |text| && Idle(s) && IsWordByte(text[i])
    ensures Step(order, text, i, s) == Some((i + 1, Starting(s, text[i]).(word := [text[i]])))
  {
    PlainStep(order, text, i, s);
    IdlePrelude(s, text[i]);
    StartsToken(s.stmt, text[i]);
    assert "" + [text[i]] == [text[i]];
    hide Step, Prelude, S.CodeByte, S.UserVar, VarStart;
  }

  lemma StartVarStep(order: S.Order, text: string, i: nat, s: Scan)
    requires i + 1 < |text| && Idle(s) && text[i] == '@' && IsWordByte(text[i + 1])
    ensures Step(order, text, i, s) == Some((i + 1, Starting(s, '@').(inVar := true, varLong := false, varName := "")))
  {
    PlainStep(order, text, i, s);
    IdlePrelude(s, text[i]);
    StartsToken(s.stmt, text[i]);
    hide Step, Prelude, S.CodeByte, S.UserVar;
  }

  lemma StartSysVarStep(order: S.Order, text: string, i: nat, s: Scan)
    requires i + 1 < |text| && Idle(s) && text[i] == '@' && text[i + 1] == '@'
    ensures Step(order, text, i, s) == Some((i + 1, Starting(s, '@')))
    ensures Step(order, text, i + 1, Starting(s, '@')) == Some((i + 2, Starting(s, '@').(stmt := Starting(s, '@').stmt.(cur := "@@"))))
  {
    PlainStep(order, text, i, s);
    IdlePrelude(s, text[i]);
    StartsToken(s.stmt, text[i]);
    hide Prelude, S.UserVar;
    SecondSigil(order, text, i + 1, Starting(s, '@'));
    hide Step, S.CodeByte;
  }

  lemma SecondSigil(order: S.Order, text: string, i: nat, s: Scan)
    requires i < |text| && text[i] == '@' && s.prev == '@' && InToken(s) && s.stmt.cur == "@"
    requires s.word == "" && !s.wordLong && !s.inVar
    ensures Step(order, text, i, s) == Some((i + 1, s.(stmt := s.stmt.(cur := "@@"))))
  {
    PlainStep(order, text, i, s);
    NoFileWord();
    assert Prelude(s, '@') == Some(s) by {
      hide IsFileWord;
    }
    assert S.CodeByte(s.stmt, '@') == Some(s.stmt.(cur := "@@")) by {
      hide S.Flush, S.Push;
      assert s.stmt.(started := true) == s.stmt;
      assert "@" + ['@'] == "@@";
    }
    hide Step, Prelude, S.CodeByte, S.UserVar, IsFileWord;
  }

  lemma MarkStep(order: S.Order, text: string, i: nat, s: Scan)
    requires i < |text| && Idle(s) && IsMark(text[i]) && S.Push(s.stmt.(started := true), Token('p', [text[i]])).Some?
    ensures Step(order, text, i, s) ==
            Some((i + 1, s.(prev := text[i], stmt := S.Push(s.stmt.(started := true), Token('p', [text[i]])).value)))
  {
    PlainStep(order, text, i, s);
    IdlePrelude(s, text[i]);
    MarkToken(s.stmt, text[i]);
    hide Step, Prelude, S.CodeByte, S.Push, S.UserVar, VarStart;
  }

  /** The blank behind a mark. */
  lemma BlankAfterMark(order: S.Order, text: string, i: nat, s: Scan)
    requires i < |text| && text[i] == ' ' && Idle(s.(prev := ' '))
    ensures Step(order, text, i, s) == Some((i + 1, s.(prev := ' ')))
  {
    PlainStep(order, text, i, s);
    NoFileWord();
    assert Prelude(s, ' ') == Some(s) by {
      hide IsFileWord;
    }
    assert S.CodeByte(s.stmt, ' ') == Some(s.stmt) by {
      hide S.Push;
    }
    hide Step, Prelude, S.CodeByte, S.UserVar, VarStart;
  }

  /** What the blank behind a word leaves: the word is pushed, and the variable it names recorded. */
  function Ended(s: Scan): Option<Scan> {
    var v := EndVar(s);
    match S.Push(v.stmt.(curKind := S.NONE, cur := ""), Token('w', v.stmt.cur))
    case None => None
    case Some(st) => Some(v.(prev := ' ', word := "", wordLong := false, stmt := st))
  }

  lemma EndsToken(st: S.Stmt)
    requires st.curKind == 'w' && !S.InBody(st)
    ensures S.CodeByte(st, ' ') == S.Push(st.(curKind := S.NONE, cur := ""), Token('w', st.cur))
  {
    hide S.Push;
  }

  lemma EndVarKeeps(s: Scan)
    requires InToken(s)
    ensures InToken(EndVar(s)) && EndVar(s.(word := "", wordLong := false)) == EndVar(s).(word := "", wordLong := false)
    ensures !EndVar(s).inVar
  {
    hide VarKey;
  }

  lemma BlankAfterWord(order: S.Order, text: string, i: nat, s: Scan)
    requires i < |text| && text[i] == ' ' && InToken(s) && (s.wordLong || !IsFileWord(s.word)) && Ended(s).Some?
    ensures Step(order, text, i, s) == Some((i + 1, Ended(s).value))
  {
    PlainStep(order, text, i, s);
    EndVarKeeps(s);
    var p := EndVar(s).(word := "", wordLong := false);
    assert Prelude(s, ' ') == Some(p) by {
      hide IsFileWord, EndVar;
    }
    EndsToken(EndVar(s).stmt);
    BlankByte(text, i, p);
    hide Step, Prelude, S.CodeByte, S.Push, EndVar, PlainByte;
  }

  lemma BlankByte(text: string, i: nat, p: Scan)
    requires p.lex == CALM && !p.inVar && S.CodeByte(p.stmt, ' ').Some?
    ensures PlainByte(text, i, p, ' ') == Some(p.(prev := ' ', stmt := S.CodeByte(p.stmt, ' ').value))
  {
    hide S.CodeByte, S.UserVar, VarStart;
  }

  /** All of the word token `t` was read from `s`, and nothing behind it. */
  predicate Read(s: Scan, t: Token, u: Scan) {
    && InToken(u) && u.stmt == s.stmt.(started := true, curKind := 'w', cur := t.text)
    && (u.inVar <==> Sigils(t) == 1) && (u.inVar ==> u.varName == Name(t) && !u.varLong)
    && (u.wordLong || !IsFileWord(u.word))
  }

  /** The first `k` bytes of the word token `t` were read. */
  predicate Begun(s: Scan, t: Token, k: nat, s1: Scan) {
    && Sigils(t) <= k <= |t.text| && InToken(s1) && s1.stmt == s.stmt.(started := true, curKind := 'w', cur := t.text[..k])
    && Spoken(s1.word, s1.wordLong, t.text[k..]) == Spoken("", false, Name(t))
    && (s1.inVar <==> Sigils(t) == 1) && (s1.inVar ==> k == 1 && s1.varName == "" && !s1.varLong)
  }

  lemma SpellsRest(s: Scan, t: Token, k: nat, s1: Scan)
    requires t.kind == 'w' && Writable(t) && Begun(s, t, k, s1)
    ensures Spell(s1, t.text[k..]).Some? && Read(s, t, Spell(s1, t.text[k..]).value)
  {
    hide Spoken, Spell, IsFileWord, IsNameByte;
    var w := t.text[k..];
    SpellGives(s1, w);
    assert t.text[..k] + w == t.text;
    assert s1.inVar ==> s1.varName + w == w;
  }

  /** The rest of a word behind its first bytes. */
  lemma ReadRest(order: S.Order, text: string, i: nat, s: Scan, t: Token, s1: Scan, k: nat)
    requires Idle(s) && t.kind == 'w' && Writable(t) && i + |t.text| <= |text| && text[i..i + |t.text|] == t.text
    requires Begun(s, t, k, s1) && R.After(order, text, i, s, k) == Some((i + k, s1))
    ensures exists u :: R.After(order, text, i, s, |t.text|) == Some((i + |t.text|, u)) && Read(s, t, u)
  {
    hide R.After, Spoken, Spell, IsFileWord, IsNameByte, Read, S.InBody;
    var w := t.text[k..];
    SpellsRest(s, t, k, s1);
    RestIsNamed(t, k);
    assert text[i + k..i + k + |w|] == w;
    SpellRun(order, text, i + k, s1, w);
    IdleIsValid(s);
    R.AfterAdds(order, text, i, s, k, |w|);
  }

  lemma RestIsNamed(t: Token, k: nat)
    requires t.kind == 'w' && Writable(t) && Sigils(t) <= k <= |t.text|
    ensures forall m :: k <= m < |t.text| ==> IsNameByte(t.text[m])
  {
    hide Spoken, IsFileWord, IsNameByte;
    forall m | k <= m < |t.text| ensures IsNameByte(t.text[m]) {
      assert t.text[m] == Name(t)[m - Sigils(t)];
    }
  }

  lemma IdleIsValid(s: Scan)
    requires Idle(s)
    ensures Valid(s)
  {
  }

  lemma FirstStep(order: S.Order, text: string, i: nat, s: Scan, t: Scan)
    requires i < |text| && Valid(s) && Step(order, text, i, s) == Some((i + 1, t))
    ensures R.After(order, text, i, s, 1) == Some((i + 1, t))
  {
    hide Step;
    R.AfterOne(order, text, i, s);
  }

  lemma SpokenFirst(w: string)
    requires w != "" && IsWordByte(w[0])
    ensures Spoken([w[0]], false, w[1..]) == Spoken("", false, w)
  {
    assert "" + [w[0]] == [w[0]];
  }

  /** Reading a word token, up to the byte behind it. */
  lemma ReadWord(order: S.Order, text: string, i: nat, s: Scan, t: Token)
    requires Idle(s) && t.kind == 'w' && Writable(t) && i + |t.text| <= |text| && text[i..i + |t.text|] == t.text
    ensures exists u :: R.After(order, text, i, s, |t.text|) == Some((i + |t.text|, u)) && Read(s, t, u)
  {
    hide R.After, Spoken, IsFileWord, Step, Read, S.InBody;
    IdleIsValid(s);
    var n := Sigils(t);
    assert Name(t)[0] == t.text[n];
    assert forall k :: 0 <= k < |t.text| ==> text[i + k] == t.text[k];
    if n == 0 {
      StartWordStep(order, text, i, s);
      var s1 := Starting(s, text[i]).(word := [text[i]]);
      FirstStep(order, text, i, s, s1);
      SpokenFirst(t.text);
      assert t.text[0..] == t.text && t.text[..1] == [text[i]];
      StartingIsInToken(s, text[i]);
      ReadRest(order, text, i, s, t, s1, 1);
    } else if n == 1 {
      StartVarStep(order, text, i, s);
      var s1 := Starting(s, '@').(inVar := true, varLong := false, varName := "");
      FirstStep(order, text, i, s, s1);
      StartingIsInToken(s, '@');
      assert t.text[..1] == "@";
      ReadRest(order, text, i, s, t, s1, 1);
    } else {
      StartSysVarStep(order, text, i, s);
      StartingIsInToken(s, '@');
      var s1 := Starting(s, '@');
      var s2 := s1.(stmt := s1.stmt.(cur := "@@"));
      CurKeepsToken(s1, "@@");
      FirstStep(order, text, i, s, s1);
      FirstStep(order, text, i + 1, s1, s2);
      R.AfterAdds(order, text, i, s, 1, 1);
      assert t.text[..2] == "@@";
      ReadRest(order, text, i, s, t, s2, 2);
    }
  }

  lemma StartingIsInToken(s: Scan, c: char)
    requires Idle(s)
    ensures InToken(Starting(s, c))
  {
  }

  lemma CurKeepsToken(s: Scan, w: string)
    requires InToken(s)
    ensures InToken(s.(stmt := s.stmt.(cur := w)))
  {
  }

  // ------------------------------------------------------ tokens and blanks

  /** The statement after the token `t` and the blank behind it. */
  function Pushed(st: S.Stmt, t: Token): Option<S.Stmt> {
    S.Push(Refers(st.(started := true), t), t)
  }

  function Written(ts: seq<Token>): string {
    if ts == [] then "" else ts[0].text + " " + Written(ts[1..])
  }

  function PushAll(st: S.Stmt, ts: seq<Token>): Option<S.Stmt>
    decreases |ts|
  {
    if ts == [] then Some(st)
    else
      match Pushed(st, ts[0])
      case None => None
      case Some(u) => if Resting(u) then PushAll(u, ts[1..]) else None
  }

  /** The scan with nothing being read, apart from the last variable's name. */
  predicate Between(s: Scan, st: S.Stmt) {
    Idle(s) && s.stmt == st
  }

  lemma WordEnds(s: Scan, t: Token, u: Scan)
    requires Idle(s) && t.kind == 'w' && Read(s, t, u) && Pushed(s.stmt, t).Some? && Resting(Pushed(s.stmt, t).value)
    ensures Ended(u).Some? && Between(Ended(u).value, Pushed(s.stmt, t).value)
  {
    hide S.Push, IsFileWord, VarKey, S.InBody;
    var v := EndVar(u);
    RefersKeeps(s.stmt.(started := true), t);
    assert v.stmt.(curKind := S.NONE, cur := "") == Refers(s.stmt.(started := true), t) && v.stmt.cur == t.text;
  }

  lemma RefersKeeps(st: S.Stmt, t: Token)
    ensures var r := Refers(st, t); r == st.(vars := r.vars, varRefs := r.varRefs)
  {
    hide VarKey;
  }

  lemma ReadWordToken(order: S.Order, text: string, i: nat, s: Scan, t: Token)
    requires Idle(s) && t.kind == 'w' && Writable(t) && i + |t.text| < |text| && text[i..i + |t.text|] == t.text && text[i + |t.text|] == ' '
    requires Pushed(s.stmt, t).Some? && Resting(Pushed(s.stmt, t).value)
    ensures exists u :: R.After(order, text, i, s, |t.text| + 1) == Some((i + |t.text| + 1, u)) && Between(u, Pushed(s.stmt, t).value)
  {
    hide R.After, Step, Read, Ended, Pushed, Sayable, Between, Idle, Resting, InToken, Valid, IsFileWord;
    IdleIsValid(s);
    ReadWord(order, text, i, s, t);
    var u :| R.After(order, text, i, s, |t.text|) == Some((i + |t.text|, u)) && Read(s, t, u);
    ReadIsInToken(s, t, u);
    WordEnds(s, t, u);
    BlankAfterWord(order, text, i + |t.text|, u);
    R.AfterAdds(order, text, i, s, |t.text|, 1);
    R.AfterOne(order, text, i + |t.text|, u);
  }

  lemma ReadMarkToken(order: S.Order, text: string, i: nat, s: Scan, t: Token)
    requires Idle(s) && t.kind == 'p' && Writable(t) && i + 1 < |text| && text[i] == t.text[0] && text[i + 1] == ' '
    requires Pushed(s.stmt, t).Some? && Resting(Pushed(s.stmt, t).value)
    ensures exists u :: R.After(order, text, i, s, 2) == Some((i + 2, u)) && Between(u, Pushed(s.stmt, t).value)
  {
    IdleIsValid(s);
    MarkIsPushed(s.stmt, t);
    var u := s.(prev := text[i], stmt := Pushed(s.stmt, t).value);
    MarkIsBetween(s, t, u);
    hide R.After, Step, Pushed, Sayable, Resting;
    MarkStep(order, text, i, s);
    BlankAfterMark(order, text, i + 1, u);
    R.AfterAdds(order, text, i, s, 1, 1);
    R.AfterOne(order, text, i, s);
    R.AfterOne(order, text, i + 1, u);
  }

  /** Reading one token and the blank behind it. */
  lemma ReadToken(order: S.Order, text: string, i: nat, s: Scan, t: Token)
    requires Idle(s) && Writable(t) && i + |t.text| < |text| && text[i..i + |t.text|] == t.text && text[i + |t.text|] == ' '
    requires Pushed(s.stmt, t).Some? && Resting(Pushed(s.stmt, t).value)
    ensures exists u :: R.After(order, text, i, s, |t.text| + 1) == Some((i + |t.text| + 1, u)) && Between(u, Pushed(s.stmt, t).value)
  {
    hide R.After, Step, Pushed, Sayable, Between, Idle, Resting, Valid;
    if t.kind == 'w' {
      ReadWordToken(order, text, i, s, t);
    } else {
      assert text[i] == t.text[0];
      ReadMarkToken(order, text, i, s, t);
    }
  }

  lemma ReadIsInToken(s: Scan, t: Token, u: Scan)
    requires Read(s, t, u)
    ensures Valid(u) && InToken(u) && (u.wordLong || !IsFileWord(u.word))
  {
  }

  lemma MarkIsPushed(st: S.Stmt, t: Token)
    requires t.kind == 'p' && |t.text| == 1
    ensures Pushed(st, t) == S.Push(st.(started := true), Token('p', [t.text[0]]))
  {
    hide S.Push;
    assert t.text == [t.text[0]];
  }

  lemma MarkIsBetween(s: Scan, t: Token, u: Scan)
    requires Idle(s) && Pushed(s.stmt, t).Some? && Resting(Pushed(s.stmt, t).value)
    requires u == s.(prev := u.prev, stmt := Pushed(s.stmt, t).value)
    ensures Between(u.(prev := ' '), Pushed(s.stmt, t).value)
  {
  }

  /** Main result: tokens written with a blank behind each are pushed one after another. */
  lemma {:induction false} ReadTokens(order: S.Order, text: string, i: nat, s: Scan, ts: seq<Token>)
    requires Idle(s) && (forall k :: 0 <= k < |ts| ==> Writable(ts[k])) && PushAll(s.stmt, ts).Some?
    requires i + |Written(ts)| <= |text| && text[i..i + |Written(ts)|] == Written(ts)
    ensures exists u :: R.After(order, text, i, s, |Written(ts)|) == Some((i + |Written(ts)|, u)) && Between(u, PushAll(s.stmt, ts).value)
    decreases |ts|
  {
    hide R.After, Step, Pushed, Writable, Idle, Resting;
    IdleIsValid(s);
    if ts == [] {
      R.AfterFirst(order, text, i, s, 0);
      assert Between(s, s.stmt);
    } else {
      var (t, rest) := (ts[0], Written(ts[1..]));
      var e := i + |t.text|;
      assert Written(ts) == t.text + " " + rest;
      SliceOfSum(text, i, t.text, rest);
      ReadToken(order, text, i, s, t);
      var u :| R.After(order, text, i, s, |t.text| + 1) == Some((e + 1, u)) && Between(u, Pushed(s.stmt, t).value);
      ReadTokens(order, text, e + 1, u, ts[1..]);
      R.AfterAdds(order, text, i, s, |t.text| + 1, |rest|);
      assert |Written(ts)| == |t.text| + 1 + |rest|;
    }
  }

  /** The scan after such tokens, up to the end of the text. */
  lemma ReadToEnd(order: S.Order, text: string, i: nat, s: Scan, ts: seq<Token>) returns (u: Scan)
    requires Idle(s) && (forall k :: 0 <= k < |ts| ==> Writable(ts[k])) && PushAll(s.stmt, ts).Some?
    requires i + |Written(ts)| == |text| && text[i..] == Written(ts)
    ensures R.After(order, text, i, s, |Written(ts)|) == Some((|text|, u))
    ensures Idle(u) && PushAll(s.stmt, ts) == Some(u.stmt)
  {
    hide R.After, Writable, PushAll, Idle, Written;
    IdleIsValid(s);
    assert text[i..i + |Written(ts)|] == text[i..];
    ReadTokens(order, text, i, s, ts);
    u :| R.After(order, text, i, s, |Written(ts)|) == Some((|text|, u)) && Between(u, PushAll(s.stmt, ts).value);
  }

  lemma SliceOfSum(text: string, i: nat, a: string, rest: string)
    requires i + |a| + 1 + |rest| <= |text| && text[i..i + |a| + 1 + |rest|] == a + " " + rest
    ensures text[i..i + |a|] == a && text[i + |a|] == ' ' && text[i + |a| + 1..i + |a| + 1 + |rest|] == rest
  {
    var all := text[i..i + |a| + 1 + |rest|];
    assert all[..|a|] == a && all[|a|] == ' ' && all[|a| + 1..] == rest;
  }

  // ------------------------------------- starts and ends of lines and statements

  /** A word that means nothing to the client at the start of a line. */
  predicate PlainLineWord(w: string) {
    && 0 < |w| <= 32 && (forall k :: 0 <= k < |w| ==> IsWordByte(w[k]))
    && !IsClientCommand(Upper(w)) && Upper(w) != "USE" && Upper(w) != "DELIMITER"
  }

  lemma LineWordIs(text: string, i: nat, w: string)
    requires i + |w| < |text| && text[i..i + |w|] == w && 0 < |w| <= 32 && !IsWordByte(text[i + |w|])
    requires forall k :: 0 <= k < |w| ==> IsWordByte(w[k])
    ensures LineWord(text, i) == Upper(w) && BlanksEnd(text, i) == i && !CommentLine(text, i)
  {
    hide Upper;
    forall k | i <= k < i + |w| ensures IsWordByte(text[k]) {
      assert text[k] == w[k - i];
    }
    assert text[i] == w[0];
    WordLengthIs(text, i, |w|, 33);
  }

  /** A line that starts with such a word is read as code. */
  lemma LineOpens(order: S.Order, text: string, i: nat, s: Scan, w: string)
    requires Valid(s) && s.lex.bol && PlainLineWord(w)
    requires i + |w| < |text| && text[i..i + |w|] == w && !IsWordByte(text[i + |w|])
    ensures Step(order, text, i, s) == Some((i, s.(lex := s.lex.(bol := false))))
  {
    LineWordIs(text, i, w);
    R.StepAtLineStart(order, text, i, s);
    hide LineWord, BlanksEnd, CommentLine, IsClientCommand, Step;
  }

  /** The delimiter ends a statement of which nothing is being read. */
  lemma SemicolonStep(order: S.Order, text: string, i: nat, s: Scan, p: Scan)
    requires i < |text| && text[i] == ';' && s.lex == CALM && Prelude(s, ';') == Some(p) && S.End(order, p.stmt).Some?
    ensures Step(order, text, i, s) == Some((i + 1, p.(prev := ';', stmt := S.End(order, p.stmt).value)))
    ensures LexStep(text, i, s.lex) == Some(LexOut(i + 1, CALM, EndStatement))
  {
    SemicolonEnds(text, i);
    R.StepInCode(order, text, i, s);
    hide CodeStep, Prelude, S.End, Step;
  }

  lemma SemicolonEnds(text: string, i: nat)
    requires i < |text| && text[i] == ';'
    ensures CodeStep(text, i, CALM) == Some(LexOut(i + 1, CALM, EndStatement))
  {
    assert text[i..i + 1] == ";";
    hide PunctuationStep;
  }

  /** The end of a line between statements. */
  lemma LineCloses(order: S.Order, text: string, i: nat, s: Scan)
    requires i < |text| && text[i] == '\n' && Idle(s.(prev := ' '))
    ensures Step(order, text, i, s) == Some((i + 1, s.(lex := CALM.(bol := true), prev := ' ')))
  {
    NoFileWord();
    assert S.Space(s.stmt) == Some(s.stmt) by {
      hide S.Push;
    }
    hide S.Space, IsFileWord, S.UserVar;
    R.StepAtNewline(order, text, i, s);
  }

  /** The variable and the word read last, ended. */
  function Settled(u: Scan): Scan {
    EndVar(u).(word := "", wordLong := false)
  }

  lemma WordSettles(u: Scan, c: char)
    requires InToken(u) && (u.wordLong || !IsFileWord(u.word)) && !IsNameByte(c)
    ensures Prelude(u, c) == Some(Settled(u))
    ensures EndWord(EndVar(u)) == Some(Settled(u))
  {
    hide IsFileWord, VarKey;
  }

  /** A word token before the end of its statement is pushed by that end. */
  lemma EndPushes(s: Scan, t: Token, u: Scan)
    requires Idle(s) && t.kind == 'w' && Read(s, t, u)
    ensures S.Space(Settled(u).stmt) == Pushed(s.stmt, t)
  {
    hide S.Push, IsFileWord, VarKey;
    RefersKeeps(s.stmt.(started := true), t);
    var v := Settled(u).stmt;
    assert v.(curKind := S.NONE, cur := "") == Refers(s.stmt.(started := true), t) && v.cur == t.text;
    SpacePushes(v);
  }

  lemma SpacePushes(st: S.Stmt)
    requires st.curKind == 'w' && !S.InBody(st)
    ensures S.Space(st) == S.Push(st.(curKind := S.NONE, cur := ""), Token('w', st.cur))
  {
    hide S.Push;
  }

  lemma IdleFinishes(order: S.Order, s: Scan)
    requires Idle(s)
    ensures Finish(order, s) == S.End(order, s.stmt).Some?
  {
    NoFileWord();
    hide S.End, IsFileWord;
  }

  /** The end of a statement whose last token `t` was read to its end. */
  lemma WordEndsStatement(order: S.Order, s: Scan, t: Token, u: Scan)
    requires Idle(s) && t.kind == 'w' && Read(s, t, u)
    requires Pushed(s.stmt, t).Some? && S.Closing(Pushed(s.stmt, t).value).Some?
    ensures S.End(order, Settled(u).stmt) == Some(S.Next(order, S.Closing(Pushed(s.stmt, t).value).value))
    ensures Finish(order, u)
  {
    hide S.Closing, Pushed, IsFileWord, S.Next, S.Space;
    EndPushes(s, t, u);
    ReadIsInToken(s, t, u);
    WordSettles(u, ';');
    hide Read, Idle;
  }

  function Word(text: string): Token {
    Token('w', text)
  }

  /** A word token kept because its head wants more. */
  lemma KeptWord(st: S.Stmt, t: Token)
    requires Resting(st) && !st.accepted && Sigils(t) != 1 && st.size + |t.text| <= MAX_HEAD && |st.tokens| < MAX_TOKENS
    requires S.CheckHead(st.(started := true, tokens := st.tokens + [t], size := st.size + |t.text|), false) == S.NeedsMore
    ensures Pushed(st, t) == Some(st.(started := true, tokens := st.tokens + [t], size := st.size + |t.text|))
    ensures Resting(Pushed(st, t).value)
  {
    hide S.CheckHead;
  }

  lemma PushTwo(st: S.Stmt, ts: seq<Token>, st1: S.Stmt, st2: S.Stmt)
    requires |ts| == 2 && Pushed(st, ts[0]) == Some(st1) && Resting(st1) && Pushed(st1, ts[1]) == Some(st2) && Resting(st2)
    ensures PushAll(st, ts) == Some(st2)
  {
    hide Pushed, Resting;
    assert ts[1..] == [ts[1]] && [ts[1]][1..] == [];
    assert PushAll(st2, []) == Some(st2);
    assert PushAll(st1, [ts[1]]) == Some(st2);
  }

  lemma {:induction false} PlainSpoken(word: string, w: string)
    requires (forall k :: 0 <= k < |w| ==> IsWordByte(w[k])) && |word| + |w| <= 16
    ensures Spoken(word, false, w) == Some((word + w, false))
    decreases |w|
  {
    hide IsFileWord;
    if w == "" {
      assert word + w == word;
    } else {
      PlainSpoken(word + [w[0]], w[1..]);
      assert word + [w[0]] + w[1..] == word + w;
    }
  }

  /** Of a word of more than 16 bytes only that it is longer is kept. */
  lemma {:induction false} LongWord(word: string, w: string)
    requires (forall k :: 0 <= k < |w| ==> IsWordByte(w[k])) && |word| <= 16 < |word| + |w|
    ensures Spoken(word, false, w).Some? && Spoken(word, false, w).value.1
    decreases |w|
  {
    if |word| == 16 {
      StaysLong(word, w[1..]);
    } else {
      LongWord(word + [w[0]], w[1..]);
    }
  }

  lemma {:induction false} StaysLong(word: string, w: string)
    requires (forall k :: 0 <= k < |w| ==> IsWordByte(w[k])) && |word| == 16
    ensures Spoken(word, true, w) == Some((word, true))
    decreases |w|
  {
    if w != "" {
      StaysLong(word, w[1..]);
    }
  }

  /** A short word without dots is written as it is. */
  lemma PlainWord(w: string)
    requires 0 < |w| <= 16 && (forall k :: 0 <= k < |w| ==> IsWordByte(w[k])) && !IsFileWord(w)
    ensures Writable(Word(w)) && Sigils(Word(w)) == 0
  {
    hide IsFileWord;
    PlainSpoken("", w);
    assert "" + w == w;
    assert !HasPrefix(w, "@") && !HasPrefix(w, "@@");
    assert Name(Word(w)) == w;
  }

  lemma TwoParts(text: string, i: nat, a: string, b: string)
    requires i + |a| + |b| <= |text| && text[i..i + |a| + |b|] == a + b
    ensures text[i..i + |a|] == a && text[i + |a|..i + |a| + |b|] == b
  {
    var all := text[i..i + |a| + |b|];
    assert all[..|a|] == a && all[|a|..] == b;
  }

  /** Reading tokens with blanks behind them, and the word `t` up to what follows it. */
  lemma ReadSentence(order: S.Order, text: string, i: nat, s: Scan, ts: seq<Token>, t: Token) returns (s2: Scan, u: Scan)
    requires Idle(s) && (forall k :: 0 <= k < |ts| ==> Writable(ts[k])) && PushAll(s.stmt, ts).Some?
    requires t.kind == 'w' && Writable(t) && i + |Written(ts)| + |t.text| <= |text|
    requires text[i..i + |Written(ts)| + |t.text|] == Written(ts) + t.text
    ensures R.After(order, text, i, s, |Written(ts)| + |t.text|) == Some((i + |Written(ts)| + |t.text|, u))
    ensures Idle(s2) && s2.stmt == PushAll(s.stmt, ts).value && Read(s2, t, u) && Valid(u)
  {
    hide R.After, Writable, PushAll, Read, Idle;
    IdleIsValid(s);
    var (n, m) := (|Written(ts)|, |t.text|);
    TwoParts(text, i, Written(ts), t.text);
    ReadTokens(order, text, i, s, ts);
    s2 :| R.After(order, text, i, s, n) == Some((i + n, s2)) && Between(s2, PushAll(s.stmt, ts).value);
    IdleIsValid(s2);
    ReadWord(order, text, i + n, s2, t);
    u :| R.After(order, text, i + n, s2, m) == Some((i + n + m, u)) && Read(s2, t, u);
    R.AfterAdds(order, text, i, s, n, m);
    ReadIsInToken(s2, t, u);
  }

  /** The first statement of a dump starts with nothing being read. */
  lemma StartsIdle(database: string)
    ensures Idle(Begin(database).(lex := CALM)) && Begin(database).lex == CALM.(bol := true) && Valid(Begin(database))
    ensures Begin(database).stmt == S.Fresh(database, S.Tracked(map[], {}), 0)
  {
  }

  lemma RunsOpen(order: S.Order, text: string, i: nat, s: Scan, t: Scan)
    requires i < |text| && Valid(s) && Step(order, text, i, s) == Some((i, t))
    ensures Run(order, text, i, s) == Run(order, text, i, t)
  {
    hide Step;
  }

  lemma RunsOut(order: S.Order, text: string, u: Scan)
    requires Valid(u)
    ensures Run(order, text, |text|, u) == Finish(order, u)
  {
  }

  /** `w` starts the line at `i` and is not a word the client looks for. */
  predicate OpensLine(text: string, i: nat, w: string) {
    i + |w| < |text| && text[i..i + |w|] == w && !IsWordByte(text[i + |w|]) && PlainLineWord(w)
  }

  /** A dump of one statement, left open at the end of the text. */
  lemma OneSentence(order: S.Order, text: string, database: string, w: string, ts: seq<Token>, t: Token)
    requires OpensLine(text, 0, w) && text == Written(ts) + t.text
    requires (forall k :: 0 <= k < |ts| ==> Writable(ts[k])) && t.kind == 'w' && Writable(t)
    requires PushAll(Begin(database).stmt, ts).Some? && Pushed(PushAll(Begin(database).stmt, ts).value, t).Some?
    requires S.Closing(Pushed(PushAll(Begin(database).stmt, ts).value, t).value).Some?
    ensures Accepts(order, text, database)
  {
    var s := Begin(database).(lex := CALM);
    StartsIdle(database);
    hide Step, Run, R.After, Read, Written, PushAll, Pushed, Writable, S.Closing, Finish, Idle, Begin, PlainLineWord, IsWordByte;
    LineOpens(order, text, 0, Begin(database), w);
    assert text[0..|text|] == text;
    var s2, u := ReadSentence(order, text, 0, s, ts, t);
    WordEndsStatement(order, s2, t, u);
    R.AfterKeepsVerdict(order, text, 0, s, |text|);
    RunsOpen(order, text, 0, Begin(database), s);
    RunsOut(order, text, u);
  }

  /** Nothing is being read at the start of a line. */
  predicate AtLine(s: Scan) {
    Idle(s.(lex := CALM)) && s.lex == CALM.(bol := true)
  }

  /** The delimiter and the newline behind a statement. */
  lemma StatementLineEnds(order: S.Order, text: string, i: nat, s: Scan, p: Scan, st: S.Stmt)
    requires i + 1 < |text| && text[i] == ';' && text[i + 1] == '\n' && s.lex == CALM && Prelude(s, ';') == Some(p)
    requires S.End(order, p.stmt) == Some(st) && Idle(p.(prev := ' ', stmt := st))
    ensures R.After(order, text, i, s, 2) == Some((i + 2, p.(lex := CALM.(bol := true), prev := ' ', stmt := st)))
    ensures AtLine(p.(lex := CALM.(bol := true), prev := ' ', stmt := st))
  {
    hide Step, Prelude, S.End, R.After;
    var t := p.(prev := ';', stmt := st);
    SemicolonStep(order, text, i, s, p);
    LineCloses(order, text, i + 1, t);
    R.AfterOne(order, text, i, s);
    R.AfterOne(order, text, i + 1, t);
    R.AfterAdds(order, text, i, s, 1, 1);
  }

  lemma NextIsResting(order: S.Order, st: S.Stmt)
    ensures Resting(S.Next(order, st))
  {
    hide S.Poison;
  }

  lemma NextIsFresh(order: S.Order, st: S.Stmt)
    ensures var n := S.Next(order, st); n == S.Fresh(n.database, n.vars, n.count)
  {
    hide S.Poison;
  }

  lemma SettledIsIdle(order: S.Order, u: Scan, st: S.Stmt)
    requires InToken(u)
    ensures Idle(Settled(u).(prev := ' ', stmt := S.Next(order, st)))
  {
    EndVarKeeps(u);
    NextIsResting(order, st);
    hide EndVar, S.Next, Resting;
  }

  /** A line that holds one statement, up to its delimiter and behind it. */
  lemma SentenceLine(order: S.Order, text: string, i: nat, s: Scan, ts: seq<Token>, t: Token) returns (u: Scan, v: Scan)
    requires Idle(s) && (forall k :: 0 <= k < |ts| ==> Writable(ts[k])) && PushAll(s.stmt, ts).Some?
    requires t.kind == 'w' && Writable(t) && i + |Written(ts)| + |t.text| + 2 <= |text|
    requires text[i..i + |Written(ts)| + |t.text| + 2] == Written(ts) + t.text + ";\n"
    requires Pushed(PushAll(s.stmt, ts).value, t).Some? && S.Closing(Pushed(PushAll(s.stmt, ts).value, t).value).Some?
    ensures var n := |Written(ts)| + |t.text|;
            && R.After(order, text, i, s, n) == Some((i + n, u)) && Valid(u)
            && text[i + n] == ';' && LexStep(text, i + n, u.lex) == Some(LexOut(i + n + 1, CALM, EndStatement))
            && R.After(order, text, i, s, n + 2) == Some((i + n + 2, v))
    ensures Prelude(u, ';') == Some(Settled(u)) && S.Space(Settled(u).stmt) == Pushed(PushAll(s.stmt, ts).value, t)
    ensures AtLine(v) && v.stmt == S.Next(order, S.Closing(Pushed(PushAll(s.stmt, ts).value, t).value).value)
  {
    hide Step, R.After, Read, Written, PushAll, Pushed, Writable, S.Closing, Idle, InToken, S.Next, S.End, AtLine, Resting, Prelude, Valid, IsFileWord,
         S.Space, Settled, LexStep;
    var n := |Written(ts)| + |t.text|;
    IdleIsValid(s);
    var all := text[i..i + n + 2];
    assert text[i..i + n] == all[..n] && text[i + n] == all[n] && text[i + n + 1] == all[n + 1];
    var s2;
    s2, u := ReadSentence(order, text, i, s, ts, t);
    WordEndsStatement(order, s2, t, u);
    EndPushes(s2, t, u);
    ReadIsInToken(s2, t, u);
    WordSettles(u, ';');
    var st := S.Next(order, S.Closing(Pushed(PushAll(s.stmt, ts).value, t).value).value);
    SettledIsIdle(order, u, S.Closing(Pushed(PushAll(s.stmt, ts).value, t).value).value);
    CalmInToken(u);
    SemicolonStep(order, text, i + n, u, Settled(u));
    StatementLineEnds(order, text, i + n, u, Settled(u), st);
    R.AfterAdds(order, text, i, s, n, 2);
    v := Settled(u).(lex := CALM.(bol := true), prev := ' ', stmt := st);
  }

  lemma CalmInToken(u: Scan)
    requires InToken(u)
    ensures u.lex == CALM
  {
  }

  /** A line that holds one statement, read from where its first token starts. */
  lemma WholeLine(order: S.Order, text: string, s: Scan, ts: seq<Token>, t: Token) returns (v: Scan)
    requires Idle(s) && text == Written(ts) + t.text + ";\n" && t.kind == 'w' && Writable(t)
    requires (forall k :: 0 <= k < |ts| ==> Writable(ts[k])) && PushAll(s.stmt, ts).Some?
    requires Pushed(PushAll(s.stmt, ts).value, t).Some? && S.Closing(Pushed(PushAll(s.stmt, ts).value, t).value).Some?
    ensures R.After(order, text, 0, s, |text|) == Some((|text|, v)) && Valid(v) && v.lex.bol && Finish(order, v)
  {
    hide Step, Run, R.After, Written, PushAll, Pushed, Writable, S.Closing, Finish, Idle, Begin, AtLine, S.Next, Valid, Prelude, LexStep, Settled;
    assert text[0..|text|] == text;
    var u;
    u, v := SentenceLine(order, text, 0, s, ts, t);
    NextIsFresh(order, S.Closing(Pushed(PushAll(s.stmt, ts).value, t).value).value);
    BetweenStatements(order, v);
  }

  /** A dump of one such line is accepted. */
  lemma OneLine(order: S.Order, text: string, database: string, w: string, ts: seq<Token>, t: Token)
    requires OpensLine(text, 0, w) && text == Written(ts) + t.text + ";\n"
    requires (forall k :: 0 <= k < |ts| ==> Writable(ts[k])) && t.kind == 'w' && Writable(t)
    requires PushAll(Begin(database).stmt, ts).Some? && Pushed(PushAll(Begin(database).stmt, ts).value, t).Some?
    requires S.Closing(Pushed(PushAll(Begin(database).stmt, ts).value, t).value).Some?
    ensures Accepts(order, text, database)
    ensures exists v: Scan :: R.After(order, text, 0, Begin(database), |text| + 1) == Some((|text|, v)) && v.lex.bol
  {
    var begin := Begin(database);
    var s := begin.(lex := CALM);
    StartsIdle(database);
    hide Step, Run, R.After, Written, PushAll, Pushed, Writable, S.Closing, Finish, Idle, Begin, PlainLineWord, IsWordByte, AtLine, S.Next, Valid;
    LineOpens(order, text, 0, begin, w);
    hide OpensLine;
    IdleIsValid(s);
    var v := WholeLine(order, text, s, ts, t);
    R.AfterKeepsVerdict(order, text, 0, s, |text|);
    RunsOpen(order, text, 0, begin, s);
    R.AfterFirst(order, text, 0, begin, |text| + 1);
    RunsOut(order, text, v);
  }

  lemma BetweenStatements(order: S.Order, v: Scan)
    requires AtLine(v) && v.stmt == S.Fresh(v.stmt.database, v.stmt.vars, v.stmt.count)
    ensures Valid(v) && v.lex.bol && Finish(order, v)
  {
    R.FinishIgnoresLineStart(order, v.(lex := CALM), CALM.(bol := true));
    IdleFinishes(order, v.(lex := CALM));
    hide Finish, S.Poison;
  }

  /** So are the user and the system variable of that name. */
  lemma PlainVar(w: string)
    requires 0 < |w| <= 16 && (forall k :: 0 <= k < |w| ==> IsWordByte(w[k])) && !IsFileWord(w)
    ensures Sigils(Word("@" + w)) == 1 && Name(Word("@" + w)) == w && Writable(Word("@" + w))
    ensures Sigils(Word("@@" + w)) == 2 && Name(Word("@@" + w)) == w && Writable(Word("@@" + w))
  {
    hide IsFileWord;
    PlainSpoken("", w);
    assert "" + w == w;
    assert ("@" + w)[0] == '@' && ("@" + w)[1] == w[0];
    assert ("@" + w)[1..] == w && ("@@" + w)[2..] == w;
  }

  /** The first line of a dump, read up to the delimiter behind its last blank. */
  lemma ReadFirst(order: S.Order, text: string, database: string, w: string, ts: seq<Token>) returns (u: Scan)
    requires OpensLine(text, 0, w) && |Written(ts)| <= |text| && text[..|Written(ts)|] == Written(ts)
    requires (forall k :: 0 <= k < |ts| ==> Writable(ts[k])) && PushAll(S.Fresh(database, S.Tracked(map[], {}), 0), ts).Some?
    ensures R.After(order, text, 0, Begin(database), 1 + |Written(ts)|) == Some((|Written(ts)|, u))
    ensures Idle(u) && PushAll(S.Fresh(database, S.Tracked(map[], {}), 0), ts) == Some(u.stmt)
  {
    var s := Begin(database).(lex := CALM);
    StartsIdle(database);
    hide Step, R.After, Written, PushAll, Writable, Idle, Begin, PlainLineWord;
    LineOpens(order, text, 0, Begin(database), w);
    IdleIsValid(s);
    var n := |Written(ts)|;
    assert text[0..0 + n] == text[..n];
    ReadTokens(order, text, 0, s, ts);
    u :| R.After(order, text, 0, s, n) == Some((n, u)) && Between(u, PushAll(s.stmt, ts).value);
    R.AfterFirst(order, text, 0, Begin(database), 1 + n);
  }

  // --------------------------------------------------------- without blanks

  lemma MarkEndsWord(st: S.Stmt, c: char)
    requires st.started && st.curKind == 'w' && !S.InBody(st) && IsMark(c)
    requires S.Push(st.(curKind := S.NONE, cur := ""), Token('w', st.cur)).Some?
    ensures S.CodeByte(st, c) == S.Push(S.Push(st.(curKind := S.NONE, cur := ""), Token('w', st.cur)).value, Token('p', [c]))
  {
    assert st.(started := true) == st;
    hide S.Push;
  }

  lemma MarkByte(text: string, i: nat, p: Scan, c: char)
    requires p.lex == CALM && !p.inVar && IsMark(c) && S.CodeByte(p.stmt, c).Some?
    ensures PlainByte(text, i, p, c) == Some(p.(prev := c, stmt := S.CodeByte(p.stmt, c).value))
  {
    hide S.CodeByte, S.UserVar, VarStart;
  }

  /** A mark right behind the word token `t`. */
  lemma MarkBehindWord(order: S.Order, text: string, i: nat, s: Scan, t: Token, u: Scan, c: char) returns (v: Scan)
    requires i < |text| && text[i] == c && IsMark(c) && Idle(s) && t.kind == 'w' && Read(s, t, u)
    requires Pushed(s.stmt, t).Some? && S.Push(Pushed(s.stmt, t).value, Token('p', [c])).Some?
    requires Resting(S.Push(Pushed(s.stmt, t).value, Token('p', [c])).value)
    ensures Valid(u) && Step(order, text, i, u) == Some((i + 1, v))
    ensures Idle(v.(prev := ' ')) && v.stmt == S.Push(Pushed(s.stmt, t).value, Token('p', [c])).value
  {
    hide Step, Read, Pushed, S.Push, Idle, Resting, S.CodeByte, Prelude, PlainByte, IsFileWord, InToken, Settled;
    ReadIsInToken(s, t, u);
    CalmInToken(u);
    MarksArePlain(c);
    PlainStep(order, text, i, u);
    WordSettles(u, c);
    var w := Settled(u);
    WordPushes(s, t, u, c);
    SettledLex(u);
    MarkByte(text, i, w, c);
    v := w.(prev := c, stmt := S.CodeByte(w.stmt, c).value);
    SettledRests(u, v.stmt);
    IdleOf(w, v);
  }

  lemma IdleOf(w: Scan, v: Scan)
    requires Idle(w.(prev := ' ', stmt := v.stmt)) && v == w.(prev := v.prev, stmt := v.stmt)
    ensures Idle(v.(prev := ' '))
  {
  }

  lemma MarksArePlain(c: char)
    requires IsMark(c)
    ensures PlainCode(c) && !IsNameByte(c)
  {
  }

  lemma SettledLex(u: Scan)
    requires InToken(u)
    ensures Settled(u).lex == CALM && !Settled(u).inVar
  {
    EndVarKeeps(u);
    hide EndVar;
  }

  lemma SettledRests(u: Scan, st: S.Stmt)
    requires InToken(u) && Resting(st)
    ensures Idle(Settled(u).(prev := ' ', stmt := st))
  {
    EndVarKeeps(u);
    hide EndVar, Resting;
  }

  lemma WordPushes(s: Scan, t: Token, u: Scan, c: char)
    requires Idle(s) && t.kind == 'w' && Read(s, t, u) && IsMark(c) && Pushed(s.stmt, t).Some?
    ensures S.CodeByte(Settled(u).stmt, c) == S.Push(Pushed(s.stmt, t).value, Token('p', [c]))
  {
    hide S.Push, IsFileWord, VarKey;
    RefersKeeps(s.stmt.(started := true), t);
    var v := Settled(u).stmt;
    assert v.(curKind := S.NONE, cur := "") == Refers(s.stmt.(started := true), t) && v.cur == t.text;
    MarkEndsWord(v, c);
  }

  /** A quote opens a token. */
  lemma QuoteOpens(order: S.Order, text: string, i: nat, s: Scan, q: char)
    requires i < |text| && text[i] == q && (q == '\'' || q == '"') && Idle(s.(prev := ' '))
    ensures Step(order, text, i, s) ==
            Some((i + 1, s.(lex := CALM.(mode := Quote(q)), prev := q, stmt := s.stmt.(started := true, curKind := q, cur := ""))))
  {
    assert CodeStep(text, i, CALM) == Some(LexOut(i + 1, CALM.(mode := Quote(q)), OpenQuote(q)));
    R.StepInCode(order, text, i, s);
    hide CodeStep;
    QuoteStarts(s.stmt, q);
    NoFileWord();
    hide S.StartQuote, IsFileWord, S.Flush;
  }

  lemma QuoteStarts(st: S.Stmt, q: char)
    requires Resting(st)
    ensures S.StartQuote(st, q, false) == Some(st.(started := true, curKind := q, cur := ""))
  {
    hide S.Push;
  }

  /** And closes it. */
  lemma QuoteCloses(order: S.Order, text: string, i: nat, s: Scan, q: char)
    requires i < |text| && text[i] == q && (q == '\'' || q == '"') && !At(text, i + 1, q) && s.lex == CALM.(mode := Quote(q))
    requires s.stmt.curKind == q && !S.InBody(s.stmt) && S.Push(s.stmt.(curKind := S.NONE, cur := ""), Token(q, s.stmt.cur)).Some?
    ensures Step(order, text, i, s) ==
            Some((i + 1, s.(lex := CALM, prev := q, stmt := S.Push(s.stmt.(curKind := S.NONE, cur := ""), Token(q, s.stmt.cur)).value)))
  {
    R.StepInQuote(order, text, i, s);
    assert S.EndQuote(s.stmt) == S.Push(s.stmt.(curKind := S.NONE, cur := ""), Token(q, s.stmt.cur)) by {
      hide S.Push;
    }
    hide Step, S.EndQuote, S.Push;
  }
}
