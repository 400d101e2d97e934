/** A dump read up to the end of a line is read the same whatever follows that line. */
module DumpPrefixes {
  import opened Text
  import opened SqlChecks
  import S = Statements
  import opened DumpLexer
  import opened Mentions

  /** Position `i` is before the newline that ends `p`, or at it. */
  predicate Inside(p: string, i: nat) {
    i < |p| && p[|p| - 1] == '\n'
  }

  lemma SameByte(p: string, q: string, i: nat)
    requires i < |p|
    ensures (p + q)[i] == p[i] && forall c :: At(p + q, i, c) == At(p, i, c)
  {
  }

  lemma SameSlice(p: string, q: string, i: nat, j: nat)
    requires i <= j <= |p|
    ensures (p + q)[i..j] == p[i..j]
  {
  }

  lemma SameLineEnd(p: string, q: string, i: nat)
    requires Inside(p, i)
    ensures LineEnd(p + q, i) == LineEnd(p, i) < |p| && NextLine(p + q, i) == NextLine(p, i)
  {
    var e := LineEnd(p, i);
    assert e < |p|;
    LineEndIs(p + q, i, e);
  }

  lemma {:induction false} BlanksEndIs(text: string, i: nat, e: nat)
    requires i <= e < |text| && (forall k :: i <= k < e ==> IsLineSpace(text[k])) && !IsLineSpace(text[e])
    ensures BlanksEnd(text, i) == e
    decreases e - i
  {
    if i < e {
      BlanksEndIs(text, i + 1, e);
    }
  }

  lemma SameBlanksEnd(p: string, q: string, i: nat)
    requires Inside(p, i)
    ensures BlanksEnd(p + q, i) == BlanksEnd(p, i) < |p|
  {
    var e := BlanksEnd(p, i);
    assert e < |p|;
    BlanksEndIs(p + q, i, e);
  }

  lemma SameLineWord(p: string, q: string, i: nat)
    requires Inside(p, i)
    ensures LineWord(p + q, i) == LineWord(p, i) && i + |LineWord(p, i)| < |p|
  {
    hide Upper, WordLength;
    var n := WordLength(p, i, 33);
    assert i + n < |p|;
    WordLengthIs(p + q, i, n, 33);
    SameSlice(p, q, i, i + n);
  }

  lemma {:induction false} DigitsLengthIs(text: string, i: nat, n: nat, max: nat)
    requires n <= max && i + n <= |text| && (forall k :: i <= k < i + n ==> IsDigit(text[k]))
    requires n < max && i + n < |text| ==> !IsDigit(text[i + n])
    ensures DigitsLength(text, i, max) == n
    decreases n
  {
    if n > 0 {
      DigitsLengthIs(text, i + 1, n - 1, max - 1);
    }
  }

  lemma SameVersion(p: string, q: string, i: nat)
    requires Inside(p, i)
    ensures VersionEnd(p + q, i) == VersionEnd(p, i) && NeverRun(p + q, i) == NeverRun(p, i)
  {
    var n := DigitsLength(p, i, 6);
    assert i + n < |p|;
    DigitsLengthIs(p + q, i, n, 6);
    SameSlice(p, q, i, i + n);
  }

  /** The newline at the end of `p` hides what is behind it from two-byte look-aheads. */
  lemma SameNext(p: string, q: string, i: nat)
    requires Inside(p, i) && p[i] != '\n'
    ensures i + 1 < |p| && (p + q)[i + 1] == p[i + 1]
  {
  }

  lemma SameCommentLine(p: string, q: string, i: nat)
    requires Inside(p, i)
    ensures CommentLine(p + q, i) == CommentLine(p, i)
  {
    SameByte(p, q, i);
    if p[i] != '\n' {
      SameNext(p, q, i);
      if p[i + 1] != '\n' {
        SameNext(p, q, i + 1);
      }
    }
  }

  lemma SameStarSlash(p: string, q: string, i: nat)
    requires Inside(p, i)
    ensures StarSlash(p + q, i) == StarSlash(p, i)
  {
    SameByte(p, q, i);
    if p[i] != '\n' {
      SameNext(p, q, i);
    }
  }

  lemma SameOpener(p: string, q: string, i: nat)
    requires Inside(p, i)
    ensures CondOpener(p + q, i) == CondOpener(p, i) && (CondOpener(p, i) > 0 ==> i + CondOpener(p, i) < |p|)
    ensures At(p, i, '/') && At(p, i + 1, '*') ==> At(p + q, i + 2, '+') == At(p, i + 2, '+')
  {
    SameByte(p, q, i);
    if p[i] == '/' {
      SameNext(p, q, i);
      if p[i + 1] == '*' {
        SameNext(p, q, i + 1);
        if p[i + 2] == 'M' {
          SameNext(p, q, i + 2);
        }
      }
    }
  }

  lemma SameDelimiter(p: string, q: string, i: nat, delim: string)
    requires Inside(p, i) && PlainDelimiter(delim)
    ensures DelimiterAt(p + q, i, delim) == DelimiterAt(p, i, delim)
  {
    if i + |delim| <= |p| {
      SameSlice(p, q, i, i + |delim|);
    } else if i + |delim| <= |p + q| {
      var k := |p| - 1 - i;
      assert (p + q)[i..i + |delim|][k] == '\n' && DelimiterByte(delim[k]);
    }
  }

  // ----------------------------------------------------------- whole steps

  lemma SameQuoteStep(p: string, q: string, i: nat, x: Lex)
    requires Inside(p, i) && x.mode.Quote?
    ensures QuoteStep(p + q, i, x) == QuoteStep(p, i, x)
  {
    SameByte(p, q, i);
    if p[i] != '\n' {
      SameNext(p, q, i);
      SameStarSlash(p, q, i);
      SameStarSlash(p, q, i + 1);
    }
  }

  lemma SameOpenStep(p: string, q: string, i: nat, x: Lex)
    requires Inside(p, i) && At(p, i, '/') && At(p, i + 1, '*') && x.mode.Code?
    ensures At(p + q, i, '/') && At(p + q, i + 1, '*') && OpenStep(p + q, i, x) == OpenStep(p, i, x)
  {
    SameOpener(p, q, i);
    if CondOpener(p, i) > 0 {
      SameVersion(p, q, i + CondOpener(p, i));
    }
    hide VersionEnd, NeverRun;
  }

  lemma SamePunctuation(p: string, q: string, i: nat, x: Lex)
    requires Inside(p, i) && x.mode.Code? && p[i] != '\n'
    ensures PunctuationStep(p + q, i, x) == PunctuationStep(p, i, x)
  {
    SameByte(p, q, i);
    SameNext(p, q, i);
    SameCommentLine(p, q, i);
    SameLineEnd(p, q, i + 1);
    SameStarSlash(p, q, i);
    hide CommentLine, LineEnd, OpenStep;
    if At(p, i, '/') && At(p, i + 1, '*') {
      SameOpenStep(p, q, i, x);
    }
  }

  lemma SameCodeStep(p: string, q: string, i: nat, x: Lex)
    requires Inside(p, i) && x.mode.Code? && !x.bol && x.delim != "" && PlainDelimiter(x.delim)
    ensures CodeStep(p + q, i, x) == CodeStep(p, i, x)
  {
    SameByte(p, q, i);
    if p[i] != '\n' {
      SameNext(p, q, i);
      SameDelimiter(p, q, i, x.delim);
      SamePunctuation(p, q, i, x);
      hide PunctuationStep, DelimiterAt;
    }
  }

  /** What a line command depends on: its word, the byte behind it, and the rest of the line. */
  lemma CommandDepends(a: string, b: string, j: nat, x: Lex)
    requires j <= |a| && j <= |b| && x.mode.Code? && x.bol && LineWord(a, j) == LineWord(b, j)
    requires var k := j + |LineWord(a, j)|;
             && k < |a| && k < |b| && a[k] == b[k] && NextLine(a, k) == NextLine(b, k)
             && a[k..LineEnd(a, k)] == b[k..LineEnd(b, k)]
    ensures LineCommand(a, j, x) == LineCommand(b, j, x)
  {
    hide LineWord, LineEnd, NextLine, IsClientCommand, DelimiterOk, TrimSpace, IsLineSpace;
  }

  lemma SameLineCommand(p: string, q: string, j: nat, x: Lex)
    requires Inside(p, j) && x.mode.Code? && x.bol
    ensures LineCommand(p + q, j, x) == LineCommand(p, j, x)
  {
    hide LineWord, LineEnd, NextLine, LineCommand;
    SameLineWord(p, q, j);
    var k := j + |LineWord(p, j)|;
    SameLineEnd(p, q, k);
    SameByte(p, q, k);
    SameSlice(p, q, k, LineEnd(p, k));
    CommandDepends(p + q, p, j, x);
  }

  lemma SameLineStart(p: string, q: string, i: nat, x: Lex)
    requires Inside(p, i) && x.mode.Code? && x.bol
    ensures LineStart(p + q, i, x) == LineStart(p, i, x)
  {
    SameCommentLine(p, q, i);
    SameLineEnd(p, q, i);
    SameBlanksEnd(p, q, i);
    SameLineCommand(p, q, BlanksEnd(p, i), x);
    hide CommentLine, NextLine, BlanksEnd, LineCommand;
  }

  lemma SameLexStep(p: string, q: string, i: nat, x: Lex)
    requires Inside(p, i) && ValidLex(x) && PlainDelimiter(x.delim)
    ensures LexStep(p + q, i, x) == LexStep(p, i, x)
  {
    hide QuoteStep, LineStart, CodeStep;
    match x.mode
    case Quote(_) => SameQuoteStep(p, q, i, x);
    case Comment => SameStarSlash(p, q, i);
    case Code =>
      if x.bol {
        SameLineStart(p, q, i, x);
      } else {
        SameCodeStep(p, q, i, x);
      }
  }

  lemma SameVarStart(p: string, q: string, i: nat, prev: char)
    requires Inside(p, i) && p[i] == '@'
    ensures VarStart(p + q, i, prev) == VarStart(p, i, prev)
  {
    SameNext(p, q, i);
  }

  lemma SamePlainByte(p: string, q: string, i: nat, s: Scan)
    requires Inside(p, i)
    ensures PlainByte(p + q, i, s, p[i]) == PlainByte(p, i, s, p[i])
  {
    hide S.CodeByte, VarStart, S.UserVar;
    if p[i] == '@' {
      SameVarStart(p, q, i, s.prev);
    }
  }

  lemma SameCheck(order: S.Order, p: string, q: string, i: nat, s: Scan, out: LexOut)
    requires Inside(p, i)
    ensures Check(order, p + q, i, s, out) == Check(order, p, i, s, out)
  {
    SameByte(p, q, i);
    SameCheckCode(order, p, q, i, s, out);
    hide CheckCode, S.QuoteText, S.EndQuote, LineEnded, UseOk;
  }

  lemma SameCheckCode(order: S.Order, p: string, q: string, i: nat, s: Scan, out: LexOut)
    requires Inside(p, i)
    ensures CheckCode(order, p + q, i, s, out) == CheckCode(order, p, i, s, out)
  {
    SameByte(p, q, i);
    hide PlainByte, Prelude, Punctuate;
    if Prelude(s, p[i]).Some? {
      SamePlainByte(p, q, i, Prelude(s, p[i]).value.(lex := out.lex));
    }
  }

  lemma SameStep(order: S.Order, p: string, q: string, i: nat, s: Scan)
    requires Inside(p, i) && Valid(s) && PlainDelimiter(s.lex.delim)
    ensures Step(order, p + q, i, s) == Step(order, p, i, s)
  {
    SameLexStep(p, q, i, s.lex);
    hide LexStep, Check;
    if LexStep(p, i, s.lex).Some? {
      SameCheck(order, p, q, i, s, LexStep(p, i, s.lex).value);
    }
  }

  lemma SameMentions(p: string, q: string, i: nat, x: Lex)
    requires Inside(p, i) && ValidLex(x) && PlainDelimiter(x.delim)
    ensures StepMentions(p + q, i, x) == StepMentions(p, i, x)
  {
    SameLexStep(p, q, i, x);
    SameByte(p, q, i);
    hide LexStep, MentionAt;
    if p[i] == '@' {
      SameMention(p, q, i);
    }
  }

  lemma SameMention(p: string, q: string, i: nat)
    requires Inside(p, i) && p[i] == '@'
    ensures MentionAt(p + q, i) == MentionAt(p, i)
  {
    SameNext(p, q, i);
    SameVarStart(p, q, i, if i == 0 then ' ' else p[i - 1]);
    var e := NameRunEnd(p, i + 1);
    assert e < |p|;
    NameRunEndIs(p + q, i + 1, e);
    SameSlice(p, q, i + 1, if e <= i + 65 then e else i + 65);
    KeyIs(p, i + 1, e);
    KeyIs(p + q, i + 1, e);
    MentionIs(p, i);
    MentionIs(p + q, i);
    hide VarStart, NameRunEnd, VarKey, NameKey, MentionAt;
  }
}
