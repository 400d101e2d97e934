/** Versioned comments end where a server that skips them ends them.

    A server older than a comment's version looks only for the next star and slash, whatever
    quotes and escapes are in between. The scanner reads the comment as code, with quotes, and
    must end it at the same byte. */
module VersionedComments {
  import opened Text
  import opened SqlChecks
  import S = Statements
  import F = StatementFrames
  import opened DumpLexer
  import R = ScanRuns

  /** No comment end starts at a position in [i, j). */
  predicate NoEnd(text: string, i: nat, j: nat) {
    forall k :: i <= k < j ==> !StarSlash(text, k)
  }

  predicate EndFree(s: string) {
    NoEnd(s, 0, |s|)
  }

  /** A byte no part of a comment end. */
  predicate Inert(c: char) {
    c != '*' && c != '/'
  }

  predicate AllInert(s: string) {
    forall k :: 0 <= k < |s| ==> Inert(s[k])
  }

  // -------------------------------------------------- the argument of use

  lemma Padding(pre: string, s: string, post: string)
    requires EndFree(s) && AllInert(pre) && AllInert(post)
    ensures EndFree(pre + s + post)
  {
    var t := pre + s + post;
    forall k | 0 <= k < |t| ensures !StarSlash(t, k) {
      if StarSlash(t, k) {
        assert !Inert(t[k]) && !Inert(t[k + 1]);
        assert |pre| <= k && k + 1 < |pre| + |s|;
        assert StarSlash(s, k - |pre|);
      }
    }
  }

  lemma {:induction false} TrimLeftPads(s: string)
    ensures AllInert(s[..|s| - |TrimLeft(s)|])
  {
    if s != "" && IsSpace(s[0]) {
      TrimLeftPads(s[1..]);
      var n := |s| - |TrimLeft(s)|;
      assert s[..n] == [s[0]] + s[1..][..n - 1];
    }
  }

  lemma {:induction false} TrimRightPads(s: string)
    ensures AllInert(s[|TrimRight(s)|..])
  {
    if s != "" && IsSpace(s[|s| - 1]) {
      var r := s[..|s| - 1];
      TrimRightPads(r);
      assert s[|TrimRight(s)|..] == r[|TrimRight(r)|..] + [s[|s| - 1]];
    }
  }

  lemma TrimPads(s: string)
    requires EndFree(TrimSpace(s))
    ensures EndFree(s)
  {
    hide EndFree, TrimLeft, TrimRight;
    var l := TrimLeft(s);
    var r := TrimRight(l);
    TrimLeftPads(s);
    TrimRightPads(l);
    assert l[0..|r|] == r && s[|s| - |l|..|s|] == l;
    Parts(l, 0, |r|);
    Parts(s, |s| - |l|, |s|);
  }

  lemma Parts(s: string, i: nat, j: nat)
    requires i <= j <= |s| && AllInert(s[..i]) && AllInert(s[j..]) && EndFree(s[i..j])
    ensures EndFree(s)
  {
    assert s == s[..i] + s[i..j] + s[j..];
    hide EndFree, AllInert;
    Padding(s[..i], s[i..j], s[j..]);
  }

  lemma SuffixPads(s: string, p: string)
    requires AllInert(p) && EndFree(TrimSuffix(s, p))
    ensures EndFree(s)
  {
    if HasSuffix(s, p) {
      Parts(s, 0, |s| - |p|);
    }
  }

  /** The use command's argument holds a comment end only if the name it means does. */
  lemma UseArgumentIsEndFree(arg: string, delim: string)
    requires AllInert(delim) && EndFree(UseName(arg, delim))
    ensures EndFree(arg)
  {
    hide TrimSpace, TrimSuffix, EndFree, AllInert;
    var a := TrimSpace(arg);
    var b := TrimSuffix(a, delim);
    var c := TrimSuffix(TrimSpace(b), ";");
    var n := TrimSpace(c);
    Unquoted(n);
    TrimPads(c);
    SemicolonIsInert();
    SuffixPads(TrimSpace(b), ";");
    TrimPads(b);
    SuffixPads(a, delim);
    TrimPads(arg);
  }

  lemma SemicolonIsInert()
    ensures AllInert(";")
  {
  }

  lemma Unquoted(n: string)
    requires EndFree(if |n| >= 2 && (n[0] == '`' || n[0] == '\'' || n[0] == '"') && n[|n| - 1] == n[0] then n[1..|n| - 1] else n)
    ensures EndFree(n)
  {
    if |n| >= 2 && (n[0] == '`' || n[0] == '\'' || n[0] == '"') && n[|n| - 1] == n[0] {
      Parts(n, 1, |n| - 1);
    }
  }

  lemma DelimiterIsInert(delim: string)
    requires PlainDelimiter(delim)
    ensures AllInert(delim)
  {
  }

  // ------------------------------------------------------- one step

  /** Neither the delimiter nor the quote is part of a comment end. */
  predicate InertLex(x: Lex) {
    PlainDelimiter(x.delim) && (x.mode.Quote? ==> Inert(x.mode.q))
  }

  lemma QuoteStepHasNoEnd(text: string, i: nat, x: Lex)
    requires i < |text| && x.mode.Quote? && Inert(x.mode.q) && x.cond && QuoteStep(text, i, x).Some?
    ensures NoEnd(text, i, QuoteStep(text, i, x).value.next)
  {
  }

  lemma CodeStepHasNoEnd(text: string, i: nat, x: Lex)
    requires i < |text| && x.mode.Code? && !x.bol && x.delim != "" && x.cond && CodeStep(text, i, x).Some?
    ensures var out := CodeStep(text, i, x).value;
            !out.lex.mode.Comment? && (out.lex.cond ==> NoEnd(text, i, out.next))
  {
  }

  lemma LineStartHasNoEnd(text: string, i: nat, x: Lex)
    requires i < |text| && x.mode.Code? && x.bol && x.cond && LineStart(text, i, x).Some?
    requires var e := LineStart(text, i, x).value.event; e.UseCommand? ==> EndFree(e.arg)
    ensures NoEnd(text, i, LineStart(text, i, x).value.next)
  {
    hide LineEnd, BlanksEnd, IsClientCommand;
    var out := LineStart(text, i, x).value;
    var j := BlanksEnd(text, i);
    if out.event.UseCommand? {
      var k := j + |LineWord(text, j)|;
      var e := LineEnd(text, k);
      forall q | i <= q < out.next ensures !StarSlash(text, q) {
        if k <= q && q + 1 < e {
          assert text[q] == out.event.arg[q - k] && text[q + 1] == out.event.arg[q + 1 - k];
          assert !StarSlash(out.event.arg, q - k);
        } else if j <= q < k {
          assert IsWordByte(text[q]);
        }
      }
    }
  }

  /** Inside a versioned comment, a step that does not close it passes no comment end. */
  lemma StepHasNoEnd(text: string, i: nat, x: Lex)
    requires i < |text| && ValidLex(x) && InertLex(x) && x.cond && !x.mode.Comment? && LexStep(text, i, x).Some?
    requires var e := LexStep(text, i, x).value.event; e.UseCommand? ==> EndFree(e.arg)
    ensures var out := LexStep(text, i, x).value;
            !out.lex.mode.Comment? && (out.lex.cond ==> NoEnd(text, i, out.next))
  {
    match x.mode
    case Quote(_) =>
      QuoteStepHasNoEnd(text, i, x);
    case Code =>
      if x.bol {
        LineStartHasNoEnd(text, i, x);
      } else {
        CodeStepHasNoEnd(text, i, x);
      }
  }

  /** A versioned comment opens only where its opener stands, and its version holds no end. */
  lemma Opening(text: string, i: nat, x: Lex)
    requires i < |text| && ValidLex(x) && LexStep(text, i, x).Some?
    ensures var out := LexStep(text, i, x).value;
            && (out.event.OpenCond? ==> !x.cond)
            && (!x.cond && out.lex.cond ==> out.event.OpenCond? && !out.lex.mode.Comment?)
            && (out.event.OpenCond? ==>
                  var n := CondOpener(text, i);
                  n > 0 && i + n <= out.next && NoEnd(text, i + n, out.next))
            && (out.event.CloseCond? ==> StarSlash(text, i) && x.cond && !x.bol)
  {
    hide DigitsLength, LineEnd, DelimiterOk, TrimSpace, BlanksEnd;
  }

  lemma StaysInert(text: string, i: nat, x: Lex)
    requires i < |text| && ValidLex(x) && InertLex(x) && LexStep(text, i, x).Some?
    ensures InertLex(LexStep(text, i, x).value.lex)
  {
    hide LexStep, PlainDelimiter;
    DelimiterStaysPlain(text, i, x);
    QuotesAreInert(text, i, x);
  }

  lemma QuotesAreInert(text: string, i: nat, x: Lex)
    requires i < |text| && ValidLex(x) && (x.mode.Quote? ==> Inert(x.mode.q)) && LexStep(text, i, x).Some?
    ensures var y := LexStep(text, i, x).value.lex; y.mode.Quote? ==> Inert(y.mode.q)
  {
    hide VersionEnd, NeverRun, LineEnd, BlanksEnd, LineWord, IsClientCommand, TrimSpace, DelimiterOk, DelimiterAt, CommentLine;
  }

  // ------------------------------------------------------------ whole runs

  /** Where a reader that looks for nothing but a comment end finds it; |text| when there is none. */
  function FirstEnd(text: string, i: nat): (e: nat)
    requires i <= |text|
    ensures i <= e <= |text| && NoEnd(text, i, e)
    ensures e < |text| ==> StarSlash(text, e)
    decreases |text| - i
  {
    if i == |text| || StarSlash(text, i) then i else FirstEnd(text, i + 1)
  }

  /** The position of the last versioned comment's opener in the first `n` steps. */
  function LastOpener(order: S.Order, text: string, i: nat, s: Scan, n: nat, last: nat): nat
    requires i <= |text| && Valid(s)
    decreases n
  {
    if n == 0 || i == |text| then last
    else
      match Step(order, text, i, s)
      case None => last
      case Some((j, t)) =>
        LastOpener(order, text, j, t, n - 1, if LexStep(text, i, s.lex).value.event.OpenCond? then i else last)
  }

  predicate CondInv(s: Scan, database: string) {
    Valid(s) && s.stmt.database == database && InertLex(s.lex) && (s.lex.cond ==> !s.lex.mode.Comment?)
  }

  /** Only the end of a statement moves on to the next, and the database stays. */
  lemma CheckKeepsPlace(order: S.Order, text: string, i: nat, s: Scan, out: LexOut)
    requires i < |text| && Check(order, text, i, s, out).Some?
    ensures Check(order, text, i, s, out).value.stmt.database == s.stmt.database
    ensures Check(order, text, i, s, out).value.stmt.count == s.stmt.count + if out.event.EndStatement? then 1 else 0
    ensures out.event.UseCommand? ==> UseOk(out.event.arg, s.lex.delim, s.stmt.database)
  {
    hide S.Space, S.EndQuote, S.QuoteText, UseOk, VarKey, IsFileWord, Prelude, Apply;
    var n := s.(lex := out.lex);
    match out.event
    case Skip =>
    case Newline =>
      F.SpaceKeepsSession(EndVar(n.(prev := ' ')).stmt);
    case QuoteText(bs) =>
      F.QuoteTextKeepsSession(n.stmt, bs);
    case CloseQuote(q) =>
      F.EndQuoteKeepsSession(n.stmt);
    case CloseComment =>
    case UseCommand(_) =>
    case DelimiterCommand(_) =>
    case _ =>
      var p := Prelude(s, text[i]).value.(lex := out.lex);
      PreludeKeepsPlace(s, text[i]);
      ApplyKeepsPlace(order, text, i, p, out.event, s.lex.dead);
  }

  lemma PreludeKeepsPlace(s: Scan, c: char)
    requires Prelude(s, c).Some?
    ensures Prelude(s, c).value.stmt.database == s.stmt.database && Prelude(s, c).value.stmt.count == s.stmt.count
  {
    hide VarKey, IsFileWord;
  }

  lemma ByteKeepsPlace(text: string, i: nat, p: Scan, c: char)
    requires PlainByte(text, i, p, c).Some?
    ensures PlainByte(text, i, p, c).value.stmt.database == p.stmt.database
    ensures PlainByte(text, i, p, c).value.stmt.count == p.stmt.count
  {
    hide S.CodeByte, VarStart;
    var w := WordByte(TrackVar(text, i, p.(prev := c), p.prev, c), c);
    if !p.lex.dead {
      F.CodeByteKeepsSession(w.stmt, c);
    }
  }

  lemma PunctuateKeepsPlace(order: S.Order, st: S.Stmt, event: Event, dead: bool)
    requires Punctuate(order, st, event, dead).Some?
    ensures Punctuate(order, st, event, dead).value.database == st.database
    ensures Punctuate(order, st, event, dead).value.count == st.count + if event.EndStatement? then 1 else 0
  {
    hide S.Space, S.End, S.StartQuote;
    match event
    case EndStatement => F.EndKeepsPlace(order, st);
    case OpenQuote(q) => F.StartQuoteKeepsSession(st, q, dead);
    case LineComment => F.SpaceKeepsSession(st);
    case OpenComment => F.SpaceKeepsSession(st);
    case OpenCond(_) => F.SpaceKeepsSession(st);
    case CloseCond => F.SpaceKeepsSession(st);
    case _ =>
  }

  lemma ApplyKeepsPlace(order: S.Order, text: string, i: nat, p: Scan, event: Event, dead: bool)
    requires i < |text| && Apply(order, text, i, p, event, dead).Some?
    ensures Apply(order, text, i, p, event, dead).value.stmt.database == p.stmt.database
    ensures Apply(order, text, i, p, event, dead).value.stmt.count == p.stmt.count + if event.EndStatement? then 1 else 0
  {
    hide PlainByte, Punctuate;
    if event.Byte? {
      ByteKeepsPlace(text, i, p, text[i]);
    } else {
      PunctuateKeepsPlace(order, p.stmt, event, dead);
    }
  }

  /** The body of a versioned comment opened at `o` holds no comment end before `j`. */
  predicate BodyIsOpen(text: string, o: nat, j: nat) {
    var n := CondOpener(text, o);
    n > 0 && o + n <= j && NoEnd(text, o + n, j)
  }

  lemma StepKeepsOpen(order: S.Order, text: string, i: nat, s: Scan, last: nat, database: string)
    requires i < |text| && CondInv(s, database) && EndFree(database) && Step(order, text, i, s).Some?
    requires s.lex.cond ==> BodyIsOpen(text, last, i)
    ensures var (j, t) := Step(order, text, i, s).value;
            CondInv(t, database) &&
            (t.lex.cond ==> BodyIsOpen(text, if LexStep(text, i, s.lex).value.event.OpenCond? then i else last, j))
  {
    hide LexStep, Check, EndFree, AllInert, Inert, NoEnd, CondOpener, UseName;
    var out := LexStep(text, i, s.lex).value;
    CheckKeepsPlace(order, text, i, s, out);
    Opening(text, i, s.lex);
    StaysInert(text, i, s.lex);
    if s.lex.cond {
      if out.event.UseCommand? {
        DelimiterIsInert(s.lex.delim);
        UseArgumentIsEndFree(out.event.arg, s.lex.delim);
      }
      StepHasNoEnd(text, i, s.lex);
      if out.lex.cond {
        NoEndJoins(text, last + CondOpener(text, last), i, out.next);
      }
    }
  }

  lemma NoEndJoins(text: string, i: nat, j: nat, k: nat)
    requires NoEnd(text, i, j) && NoEnd(text, j, k)
    ensures NoEnd(text, i, k)
  {
  }

  lemma {:induction false} OpenBodiesHoldNoEnd(order: S.Order, text: string, i: nat, s: Scan, n: nat, last: nat, database: string)
    requires i <= |text| && Valid(s) && R.After(order, text, i, s, n).Some?
    requires CondInv(s, database) && EndFree(database) && (s.lex.cond ==> BodyIsOpen(text, last, i))
    ensures var (j, t) := R.After(order, text, i, s, n).value;
            t.lex.cond ==> BodyIsOpen(text, LastOpener(order, text, i, s, n, last), j)
    decreases n
  {
    hide Step, CondInv, BodyIsOpen, EndFree, LexStep, R.After;
    R.AfterFirst(order, text, i, s, n);
    if n > 0 {
      StepKeepsOpen(order, text, i, s, last, database);
      var x := Step(order, text, i, s).value;
      var opener := if LexStep(text, i, s.lex).value.event.OpenCond? then i else last;
      OpenBodiesHoldNoEnd(order, text, x.0, x.1, n - 1, opener, database);
    }
  }

  /** Every versioned comment of `text` that the scan closes after `n` steps, it closes at the first
      comment end after the opener; one still open at the end of the text has no end at all. */
  ghost predicate EndsMatch(order: S.Order, text: string, database: string, n: nat) {
    match R.After(order, text, 0, Begin(database), n)
    case None => true
    case Some((j, t)) =>
      var o := LastOpener(order, text, 0, Begin(database), n, 0);
      t.lex.cond && (j == |text| || (LexStep(text, j, t.lex).Some? && LexStep(text, j, t.lex).value.event.CloseCond?)) ==>
        var b := o + CondOpener(text, o);
        CondOpener(text, o) > 0 && b <= j && FirstEnd(text, b) == j
  }

  /** Main result: a server that skips a versioned comment resumes where the scanner ends it. */
  lemma CommentsEndAtFirstEnd(order: S.Order, text: string, database: string, n: nat)
    requires EndFree(database)
    ensures EndsMatch(order, text, database, n)
  {
    hide R.After, LastOpener, Step, LexStep;
    if R.After(order, text, 0, Begin(database), n).Some? {
      OpenBodiesHoldNoEnd(order, text, 0, Begin(database), n, 0, database);
      var (j, t) := R.After(order, text, 0, Begin(database), n).value;
      if j < |text| && LexStep(text, j, t.lex).Some? {
        Opening(text, j, t.lex);
      }
    }
  }
}
