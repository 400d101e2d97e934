/** The heads the scanner allows, statement by statement, and the names in them. */
module StatementHeads {
  import opened Text
  import opened SqlChecks
  import opened Statements
  import opened StatementNames
  import F = StatementFrames
  import FH = FinalHeads
  import V = ValuesAutomaton
  import opened DumpLexer

  // ----------------------------------------------- the names of one head

  /** The tokens of the name at t[j], cut at the end of the head. */
  function NameAt(t: seq<Token>, j: nat): seq<Token>
    requires j < |t|
  {
    t[j..if NameEnd(t, j) <= |t| then NameEnd(t, j) else |t|]
  }

  predicate NameIn(database: string, t: seq<Token>, j: nat) {
    j < |t| && InDatabase(database, t[j], Spelling(NameAt(t, j)))
  }

  predicate StartsName(t: Token) {
    (t.kind == 'w' && !HasPrefix(t.text, ".")) || t.kind == '`'
  }

  predicate AllNamesIn(database: string, t: seq<Token>, i: nat) {
    forall j :: i <= j < |t| && StartsName(t[j]) ==> NameIn(database, t, j)
  }

  /** ALTER DATABASE without a name alters the current one. */
  predicate DatabaseIn(database: string, t: seq<Token>, i: nat) {
    var j := SkipExists(t, i);
    && j < |t| && i <= j
    && (t[j].text == database || t[j].Is("CHARACTER") || t[j].Is("CHARSET") || t[j].Is("DEFAULT") || t[j].Is("COLLATE"))
  }

  predicate CreateIn(database: string, t: seq<Token>, kind: string, name: nat) {
    && NameIn(database, t, SkipExists(t, name))
    && (kind == "TRIGGER" ==> NameIn(database, t, SkipExists(t, FindOn(t, name + 1, name + 8) + 1)))
  }

  predicate DDLIn(database: string, t: seq<Token>)
    requires t != []
  {
    var k := KindIndex(t, 1);
    && k < |t|
    && var kind := Upper(t[k].text);
       if kind == "DATABASE" || kind == "SCHEMA" then DatabaseIn(database, t, k + 1)
       else if t[0].Is("DROP") then AllNamesIn(database, t, k + 1)
       else if t[0].Is("ALTER") then NameIn(database, t, k + 1)
       else CreateIn(database, t, kind, k + 1)
  }

  /** Every object a head names stays in the database. */
  predicate HeadIn(database: string, t: seq<Token>)
    requires t != []
  {
    if t[0].Is("INSERT") || t[0].Is("REPLACE") then NameIn(database, t, SkipExists(t, SkipInsertModifiers(t, 1)))
    else if t[0].Is("LOCK") then AllNamesIn(database, t, 2)
    else if t[0].Is("USE") then |t| > 1 && t[1].text == database
    else if t[0].Is("CREATE") || t[0].Is("DROP") || t[0].Is("ALTER") then DDLIn(database, t)
    else t[0].Is("COMMIT") || t[0].Is("UNLOCK") || t[0].Is("SET")
  }

  /** A name the qualifier check passes stays in the database, even one cut off. */
  lemma QualifiedName(database: string, t: seq<Token>, j: nat)
    requires j < |t| && QualifierOk(database, t[j..])
    ensures NameIn(database, t, j)
  {
    hide QualifierOk, InDatabase, Spelling;
    if NameEnd(t, j) <= |t| {
      NameStaysInDatabase(database, t, j, NameEnd(t, j));
    } else {
      assert t[j..|t|] == t[j..];
      CutName(database, t, j);
    }
  }

  lemma CutName(database: string, t: seq<Token>, j: nat)
    requires j < |t| && QualifierOk(database, t[j..]) && NameEnd(t, j) > |t|
    ensures InDatabase(database, t[j], Spelling(t[j..]))
  {
    hide IndexOf, Spelling;
    var q := t[j..];
    DotAtEnd(t[j].text);
    assert q[0] == t[j];
    if |q| == 1 {
      SpellsOne(q);
    } else {
      assert q[1] == t[j + 1];
      DotHead(t[j + 1].text);
      SpellsMore(q);
      IndexInPrefix(t[j].text, Spelling(q[1..]), '.');
      PrefixOfSum(t[j].text, Spelling(q[1..]), if t[j].kind == 'w' && '.' in t[j].text then IndexOf(t[j].text, '.') else |t[j].text|);
    }
  }

  lemma DotHead(s: string)
    ensures s == "." ==> HasPrefix(s, ".") && s != "" && s[0] == '.'
  {
  }

  lemma ObjectStays(database: string, t: seq<Token>, i: nat, final: bool)
    requires ObjectName(database, t, i, final) == Accept
    ensures NameIn(database, t, SkipExists(t, i))
  {
    hide QualifierOk, NameEnd, NameIn;
    QualifiedName(database, t, SkipExists(t, i));
  }

  lemma AllNamesStay(database: string, t: seq<Token>, i: nat)
    requires i <= |t| && AllNamesOk(database, t[i..])
    ensures AllNamesIn(database, t, i)
  {
    hide QualifierOk, NameIn;
    forall j | i <= j < |t| && StartsName(t[j]) ensures NameIn(database, t, j) {
      assert t[i..][j - i] == t[j] && t[i..][j - i..] == t[j..];
      QualifiedName(database, t, j);
    }
  }

  lemma {:induction false} SkipsShift(t: seq<Token>, i: nat, j: nat)
    requires i + j <= |t|
    ensures SkipExists(t[i..], j) + i == SkipExists(t, i + j)
    decreases |t| - i - j
  {
    hide IsExistsWord;
    if i + j < |t| {
      assert t[i..][j] == t[i + j];
      SkipsShift(t, i, j + 1);
    }
  }

  lemma DatabaseStays(database: string, verb: string, t: seq<Token>, i: nat, final: bool)
    requires i <= |t| && DatabaseName(database, verb, t[i..], final) == Accept
    ensures DatabaseIn(database, t, i)
  {
    SkipsShift(t, i, 0);
    hide SkipExists, IsExistsWord;
    var j := SkipExists(t[i..], 0);
    assert t[i..][j] == t[i + j];
  }

  lemma CreateStays(st: Stmt, kind: string, name: nat, final: bool)
    requires CheckCreate(st, kind, name, final).Allowed?
    ensures CreateIn(st.database, st.tokens, kind, name)
  {
    hide ObjectName, NameIn, CheckTails;
    ObjectStays(st.database, st.tokens, name, final);
    if kind == "TRIGGER" {
      ObjectStays(st.database, st.tokens, FindOn(st.tokens, name + 1, name + 8) + 1, final);
    }
  }

  lemma AlterStays(database: string, t: seq<Token>, i: nat, final: bool)
    requires AlterTable(database, t, i, final) == Accept
    ensures NameIn(database, t, i)
  {
    hide QualifierOk, NameEnd, NameIn;
    QualifiedName(database, t, i);
  }

  lemma DDLStays(st: Stmt, final: bool)
    requires st.tokens != [] && CheckDDL(st, final).Allowed?
    requires st.tokens[0].Is("CREATE") || st.tokens[0].Is("DROP") || st.tokens[0].Is("ALTER")
    ensures DDLIn(st.database, st.tokens)
  {
    hide AlterTable, AllNamesOk, DatabaseName, CheckCreate, DatabaseIn, AllNamesIn, NameIn, CreateIn, KindIndex;
    var t := st.tokens;
    var k := KindIndex(t, 1);
    var (kind, verb) := (Upper(t[k].text), Upper(t[0].text));
    if IsDDLObject(kind) && verb == "DROP" {
      AllNamesStay(st.database, t, k + 1);
    } else if kind == "TABLE" && verb == "ALTER" {
      AlterStays(st.database, t, k + 1, final);
    } else if IsDDLObject(kind) {
      CreateStays(st, kind, k + 1, final);
    } else {
      DatabaseStays(st.database, verb, t, k + 1, final);
    }
  }

  /** Main result on one head: every object an allowed head names stays in the target database. */
  lemma HeadStays(st: Stmt, final: bool)
    requires st.tokens != [] && CheckHead(st, final).Allowed?
    ensures HeadIn(st.database, st.tokens)
  {
    hide ObjectName, CheckDDL, DDLIn, AllNamesOk, AllNamesIn, NameIn, CheckSet, FeedTokens, SkipExists, SkipInsertModifiers, NameEnd;
    var t := st.tokens;
    if t[0].Is("INSERT") || t[0].Is("REPLACE") {
      ObjectStays(st.database, t, SkipInsertModifiers(t, 1), final);
    } else if t[0].Is("LOCK") {
      AllNamesStay(st.database, t, 2);
    } else if t[0].Is("CREATE") || t[0].Is("DROP") || t[0].Is("ALTER") {
      DDLStays(st, final);
    }
  }

  // -------------------------------------------- the heads allowed in a run

  /** The tokens of the head that is allowed when `t` is pushed; none if no head is. */
  function PushHead(st: Stmt, t: Token): seq<Token> {
    var s := st.(tokens := st.tokens + [t], size := st.size + |t.text|);
    if !st.accepted && CheckHead(s, false).Allowed? then s.tokens else []
  }

  function FlushHead(st: Stmt): seq<Token> {
    if st.curKind == NONE then [] else PushHead(st.(curKind := NONE, cur := ""), Token(st.curKind, st.cur))
  }

  function SpaceHead(st: Stmt): seq<Token> {
    if InBody(st) then [] else FlushHead(st)
  }

  function ByteHead(st: Stmt, b: char): seq<Token> {
    var word := IsWordByte(b) || b == '@' || b == '.';
    if st.curKind == 'w' && word then []
    else if FlushHead(st) != [] || word then FlushHead(st)
    else match Flush(st) case None => [] case Some(f) => PushHead(f, Token('p', [b]))
  }

  function CodeByteHead(st: Stmt, b: char): seq<Token> {
    if IsSpace(b) || InBody(st) then SpaceHead(st) else ByteHead(st.(started := true), b)
  }

  /** The head that a step within a statement allows. */
  function StepHead(text: string, i: nat, s: Scan, out: LexOut): seq<Token>
    requires i < |text|
  {
    var c := text[i];
    match out.event
    case Skip | QuoteText(_) | CloseComment | UseCommand(_) | DelimiterCommand(_) | Sandbox | EndStatement => []
    case Newline => SpaceHead(EndVar(s).stmt)
    case CloseQuote(_) => SpaceHead(s.stmt)
    case _ =>
      if Prelude(s, c).None? then []
      else
        var p := Prelude(s, c).value.(lex := out.lex);
        match out.event
        case Byte(_) => if out.lex.dead then [] else CodeByteHead(WordByte(TrackVar(text, i, p.(prev := c), p.prev, c), c).stmt, c)
        case OpenQuote(_) => FlushHead(p.stmt)
        case _ => SpaceHead(p.stmt)
  }

  /** After a change of the statement `head` is what was allowed by it. */
  predicate Allows(st: Stmt, head: seq<Token>, next: Option<Stmt>) {
    next.Some? ==>
      && next.value.database == st.database && next.value.accepted == (st.accepted || head != [])
      && (head != [] ==> HeadIn(st.database, head))
  }

  lemma PushAllows(st: Stmt, t: Token)
    ensures Allows(st, PushHead(st, t), Push(st, t))
  {
    hide CheckTail, CheckHead, HeadIn;
    var s := st.(tokens := st.tokens + [t], size := st.size + |t.text|);
    if Push(st, t).Some? {
      F.PushKeepsSession(st, t);
      if CheckHead(s, false).Allowed? {
        HeadStays(s, false);
      }
    }
    AllowedOrNot(st, t);
  }

  lemma AllowedOrNot(st: Stmt, t: Token)
    ensures Push(st, t).Some? ==> Push(st, t).value.accepted == (st.accepted || PushHead(st, t) != [])
  {
    hide CheckTail, FeedTokens, CheckTails, ObjectName, AllNamesOk, TriggerTable, AlterTable, DatabaseName, NameOk, Token.Is, CheckSet;
  }

  lemma FlushAllows(st: Stmt)
    ensures Allows(st, FlushHead(st), Flush(st))
  {
    hide Push, PushHead, HeadIn;
    if st.curKind != NONE {
      PushAllows(st.(curKind := NONE, cur := ""), Token(st.curKind, st.cur));
    }
  }

  lemma SpaceAllows(st: Stmt)
    ensures Allows(st, SpaceHead(st), Space(st))
  {
    hide Flush, FlushHead, HeadIn, V.Space;
    FlushAllows(st);
  }

  lemma ByteAllows(st: Stmt, b: char)
    ensures Allows(st, ByteHead(st, b), HeadByte(st, b))
  {
    hide Flush, FlushHead, Push, PushHead, HeadIn, IsWordByte;
    FlushAllows(st);
    if Flush(st).Some? {
      PushAllows(Flush(st).value, Token('p', [b]));
      NothingMore(Flush(st).value, Token('p', [b]));
    }
  }

  lemma NothingMore(st: Stmt, t: Token)
    ensures st.accepted ==> PushHead(st, t) == []
  {
    hide CheckHead;
  }

  lemma CodeByteAllows(st: Stmt, b: char)
    ensures Allows(st, CodeByteHead(st, b), CodeByte(st, b))
  {
    hide Space, HeadByte, ByteHead, HeadIn, V.CodeByte, FlushHead, IsSpace;
    SpaceAllows(st);
    ByteAllows(st.(started := true), b);
  }

  lemma StartQuoteAllows(st: Stmt, q: char, dead: bool)
    ensures Allows(st, FlushHead(st), StartQuote(st, q, dead))
  {
    hide Flush, FlushHead, HeadIn, V.StartQuote;
    FlushAllows(st);
  }

  lemma EndQuoteAllows(st: Stmt)
    ensures Allows(st, SpaceHead(st), EndQuote(st))
  {
    hide Flush, FlushHead, HeadIn, V.EndQuote;
    FlushAllows(st);
  }

  // ------------------------------------------------------------ whole steps

  lemma VarsAllowNothing(text: string, i: nat, s: Scan, prev: char, c: char)
    ensures var st := EndVar(s).stmt; st.accepted == s.stmt.accepted && st.database == s.stmt.database
    ensures var st := TrackVar(text, i, s, prev, c).stmt; st.accepted == s.stmt.accepted && st.database == s.stmt.database
    ensures WordByte(s, c).stmt == s.stmt
  {
    UserVarAllowsNothing(s.stmt, "");
    UserVarAllowsNothing(s.stmt, VarKey(s.varName, s.varLong));
    hide VarKey, VarStart, UserVar;
  }

  lemma UserVarAllowsNothing(st: Stmt, name: string)
    ensures UserVar(st, name).accepted == st.accepted && UserVar(st, name).database == st.database
  {
  }

  lemma PreludeAllowsNothing(s: Scan, c: char)
    ensures Prelude(s, c).Some? ==>
              var st := Prelude(s, c).value.stmt; st.accepted == s.stmt.accepted && st.database == s.stmt.database
  {
    hide VarKey, IsFileWord;
  }

  lemma PlainByteAllows(text: string, i: nat, p: Scan, c: char)
    requires PlainByte(text, i, p, c).Some?
    ensures var w := WordByte(TrackVar(text, i, p.(prev := c), p.prev, c), c);
            Allows(p.stmt, if p.lex.dead then [] else CodeByteHead(w.stmt, c), Some(PlainByte(text, i, p, c).value.stmt))
  {
    hide TrackVar, WordByte, CodeByteHead, CodeByte, HeadIn;
    var t := TrackVar(text, i, p.(prev := c), p.prev, c);
    VarsAllowNothing(text, i, p.(prev := c), p.prev, c);
    VarsAllowNothing(text, i, t, ' ', c);
    CodeByteAllows(t.stmt, c);
  }

  lemma PunctuateAllows(order: Order, st: Stmt, event: Event, dead: bool)
    requires !event.EndStatement? && !event.Byte? && !OfLine(event) && !event.Newline?
    ensures Allows(st, if event.OpenQuote? then FlushHead(st) else if event.Sandbox? then [] else SpaceHead(st), Punctuate(order, st, event, dead))
  {
    hide Space, StartQuote, SpaceHead, FlushHead, HeadIn;
    if event.OpenQuote? {
      StartQuoteAllows(st, event.q, dead);
    } else {
      SpaceAllows(st);
    }
  }

  lemma LineAllows(order: Order, text: string, i: nat, s: Scan, out: LexOut)
    requires i < |text| && (OfLine(out.event) || out.event.Newline?) && Check(order, text, i, s, out).Some?
    ensures Allows(s.stmt, StepHead(text, i, s, out), Some(Check(order, text, i, s, out).value.stmt))
  {
    hide Space, EndQuote, Statements.QuoteText, SpaceHead, HeadIn, EndVar, EndWord, UseOk;
    var n := s.(lex := out.lex);
    match out.event
    case Newline =>
      var v := n.(prev := ' ');
      EndVarIgnores(s, v);
      VarsAllowNothing(text, i, v, ' ', ' ');
      SpaceAllows(EndVar(v).stmt);
      EndWordKeepsStmt(EndVar(v).(stmt := Space(EndVar(v).stmt).value));
    case CloseQuote(_) => EndQuoteAllows(s.stmt);
    case QuoteText(bs) => QuoteTextAllows(s.stmt, bs);
    case _ =>
  }

  lemma EndVarIgnores(s: Scan, v: Scan)
    requires v == s.(lex := v.lex, prev := v.prev)
    ensures EndVar(v).stmt == EndVar(s).stmt
  {
    hide VarKey, UserVar;
  }

  lemma QuoteTextAllows(st: Stmt, bs: string)
    ensures Statements.QuoteText(st, bs).Some? ==>
              var q := Statements.QuoteText(st, bs).value; q.accepted == st.accepted && q.database == st.database
  {
    hide V.QuoteText;
  }

  /** A step within a statement allows a head exactly when it says so. */
  lemma StepAllows(order: Order, text: string, i: nat, s: Scan)
    requires i < |text| && Valid(s) && Step(order, text, i, s).Some? && !LexStep(text, i, s.lex).value.event.EndStatement?
    ensures Allows(s.stmt, StepHead(text, i, s, LexStep(text, i, s.lex).value), Some(Step(order, text, i, s).value.1.stmt))
  {
    hide LexStep, HeadIn, StepHead, Check;
    var out := LexStep(text, i, s.lex).value;
    if OfLine(out.event) || out.event.Newline? {
      LineAllows(order, text, i, s, out);
    } else {
      CodeAllows(order, text, i, s, out);
    }
  }

  lemma CodeAllows(order: Order, text: string, i: nat, s: Scan, out: LexOut)
    requires i < |text| && !OfLine(out.event) && !out.event.Newline? && !out.event.EndStatement? && Check(order, text, i, s, out).Some?
    ensures Allows(s.stmt, StepHead(text, i, s, out), Some(Check(order, text, i, s, out).value.stmt))
  {
    hide HeadIn, PlainByte, Punctuate, Prelude, SpaceHead, FlushHead, CodeByteHead, TrackVar, WordByte;
    PreludeAllowsNothing(s, text[i]);
    var p := Prelude(s, text[i]).value.(lex := out.lex);
    if out.event.Byte? {
      PlainByteAllows(text, i, p, text[i]);
    } else {
      PunctuateAllows(order, p.stmt, out.event, s.lex.dead);
    }
  }

  // ------------------------------------------------------------- whole dumps

  /** A statement of the dump: the tokens of its head, and whether the checker allowed them. */
  datatype Sent = Sent(head: seq<Token>, allowed: bool)

  /** The statement that ends in the state `st`, when `head` was allowed before. */
  function Closed(st: Stmt, head: seq<Token>): Sent {
    if head != [] then Sent(head, true)
    else if SpaceHead(st) != [] then Sent(SpaceHead(st), true)
    else
      match Space(st)
      case None => Sent([], false)
      case Some(x) => Sent(x.tokens, x.tokens != [] && CheckHead(x, true).Allowed?)
  }

  /** The statements of the text that end before anything is refused. */
  function Sents(order: Order, text: string, i: nat, s: Scan, head: seq<Token>): seq<Sent>
    requires i <= |text| && Valid(s)
    decreases |text| - i, if s.lex.bol then 1 else 0
  {
    if i == |text| then if Finish(order, s) then [Closed(EndVar(s).stmt, head)] else []
    else
      match Step(order, text, i, s)
      case None => []
      case Some((j, t)) =>
        var out := LexStep(text, i, s.lex).value;
        if out.event.EndStatement? && Prelude(s, text[i]).Some? then
          [Closed(Prelude(s, text[i]).value.stmt, head)] + Sents(order, text, j, t, [])
        else Sents(order, text, j, t, if head != [] then head else StepHead(text, i, s, out))
  }

  /** Its names stay in the database; only a blank statement, or one cut off after the dot of its name,
      was not allowed. */
  predicate Stays(database: string, e: Sent) {
    if e.allowed then e.head != [] && HeadIn(database, e.head)
    else e.head != [] ==> FH.NameCutOff(database, e.head)
  }

  predicate HeadInv(s: Scan, head: seq<Token>, database: string) {
    s.stmt.database == database && (s.stmt.accepted <==> head != []) && (head != [] ==> HeadIn(database, head))
  }

  lemma ClosedStays(order: Order, st: Stmt, head: seq<Token>)
    requires End(order, st).Some? && (st.accepted <==> head != []) && (head != [] ==> HeadIn(st.database, head))
    ensures Stays(st.database, Closed(st, head))
  {
    hide Space, SpaceHead, HeadIn, CheckHead, Poison, FH.NameCutOff;
    SpaceAllows(st);
    F.SpaceKeepsSession(st);
    var x := Space(st).value;
    if head == [] && SpaceHead(st) == [] && x.tokens != [] {
      FH.WantsMoreExactly(x);
      if CheckHead(x, true).Allowed? {
        HeadStays(x, true);
      }
    }
  }

  lemma EndStartsAnew(order: Order, text: string, i: nat, s: Scan)
    requires i < |text| && Valid(s) && Step(order, text, i, s).Some? && LexStep(text, i, s.lex).value.event.EndStatement?
    ensures Prelude(s, text[i]).Some? && End(order, Prelude(s, text[i]).value.stmt).Some?
    ensures !Step(order, text, i, s).value.1.stmt.accepted
    ensures Step(order, text, i, s).value.1.stmt.database == s.stmt.database
  {
    hide LexStep, Prelude, Space, Closing, Poison;
    PreludeAllowsNothing(s, text[i]);
    F.EndKeepsPlace(order, Prelude(s, text[i]).value.stmt);
  }

  lemma FinishEnds(order: Order, s: Scan)
    requires Finish(order, s)
    ensures End(order, EndVar(s).stmt).Some?
  {
    hide End, IsFileWord, EndVar;
    EndWordKeepsStmt(EndVar(s));
  }

  /** All of them stay. */
  predicate AllStay(database: string, es: seq<Sent>) {
    forall k :: 0 <= k < |es| ==> Stays(database, es[k])
  }

  lemma StayAfter(database: string, e: Sent, es: seq<Sent>)
    requires Stays(database, e) && AllStay(database, es)
    ensures AllStay(database, [e] + es)
  {
    hide Stays;
  }

  lemma {:induction false} RunStays(order: Order, text: string, i: nat, s: Scan, head: seq<Token>, database: string)
    requires i <= |text| && Valid(s) && HeadInv(s, head, database)
    ensures AllStay(database, Sents(order, text, i, s, head))
    decreases |text| - i, if s.lex.bol then 1 else 0
  {
    hide Step, LexStep, Prelude, Stays, Closed, StepHead, HeadIn, Finish, End, EndVar, AllStay;
    NoneStay(database);
    if i == |text| {
      if Finish(order, s) {
        FinishEnds(order, s);
        VarsAllowNothing(text, i, s, ' ', ' ');
        ClosedStays(order, EndVar(s).stmt, head);
        var e := Closed(EndVar(s).stmt, head);
        StayAfter(database, e, []);
        assert [e] + [] == [e];
      }
    } else if Step(order, text, i, s).Some? {
      var (j, t) := Step(order, text, i, s).value;
      if LexStep(text, i, s.lex).value.event.EndStatement? {
        EndStartsAnew(order, text, i, s);
        PreludeAllowsNothing(s, text[i]);
        ClosedStays(order, Prelude(s, text[i]).value.stmt, head);
        RunStays(order, text, j, t, [], database);
        StayAfter(database, Closed(Prelude(s, text[i]).value.stmt, head), Sents(order, text, j, t, []));
      } else {
        StepAllows(order, text, i, s);
        RunStays(order, text, j, t, if head != [] then head else StepHead(text, i, s, LexStep(text, i, s.lex).value), database);
      }
    }
  }

  lemma NoneStay(database: string)
    ensures AllStay(database, [])
  {
  }

  /** Main result on a dump: every statement of it that ends before anything is refused, so every
      statement of an accepted dump, was allowed with a head whose names stay in the target database,
      unless it is blank or cut off after the dot of its name. */
  lemma DumpStaysInDatabase(order: Order, text: string, database: string)
    ensures AllStay(database, Sents(order, text, 0, Begin(database), []))
  {
    hide Sents, AllStay;
    RunStays(order, text, 0, Begin(database), [], database);
  }
}
