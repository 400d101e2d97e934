/** What the INSERT automaton accepts: a grammar over lexemes, independent of the automaton.

    The scanner feeds the automaton a stream of events. `Lexemes` cuts the stream into words,
    punctuation and quoted strings. `Accepts` holds exactly when those lexemes are the rendering
    of an optional non-empty column list, VALUES and a non-empty list of non-empty tuples of
    literals. */
module ValuesGrammar {
  import opened Text
  import opened ValuesAutomaton

  // ---------------------------------------------------------------- events

  datatype Event = Code(b: char) | Gap | Open(q: char) | Bytes(bs: string) | Close

  predicate IsQuote(q: char) {
    q == '\'' || q == '"' || q == '`'
  }

  /** Quotes open and close in pairs, and quoted text comes only inside them. */
  predicate WellBracketed(es: seq<Event>, inQuote: bool) {
    if es == [] then !inQuote
    else
      match es[0]
      case Open(q) => !inQuote && IsQuote(q) && WellBracketed(es[1..], true)
      case Bytes(_) => inQuote && WellBracketed(es[1..], true)
      case Close => inQuote && WellBracketed(es[1..], false)
      case _ => !inQuote && WellBracketed(es[1..], false)
  }

  function Step(v: Values, e: Event): Option<Values> {
    match e
    case Code(b) => CodeByte(v, b)
    case Gap => Space(v)
    case Open(q) => StartQuote(v, q)
    case Bytes(bs) => QuoteText(v, bs)
    case Close => EndQuote(v)
  }

  /** The automaton's verdict on a stream: every step succeeds, then the end check. */
  predicate Accepts(v: Values, es: seq<Event>)
    decreases |es|
  {
    if es == [] then End(v)
    else
      match Step(v, es[0])
      case None => false
      case Some(u) => Accepts(u, es[1..])
  }

  /** The automaton after the events, while none is refused. */
  function Fed(v: Values, es: seq<Event>): Option<Values>
    decreases |es|
  {
    if es == [] then Some(v)
    else
      match Step(v, es[0])
      case None => None
      case Some(u) => Fed(u, es[1..])
  }

  /** For unbounded strings and digit runs, the automaton keeps at most 128 bytes. */
  lemma {:induction false} RetainsAtMost128Bytes(v: Values, es: seq<Event>)
    requires |v.word| <= 128 && Fed(v, es).Some?
    ensures |Fed(v, es).value.word| <= 128
    decreases |es|
  {
    if es != [] {
      StepsStayBounded(v, if es[0].Code? then es[0].b else if es[0].Open? then es[0].q else ' ', if es[0].Bytes? then es[0].bs else "");
      hide CodeByte, Space, StartQuote, QuoteText, EndQuote;
      RetainsAtMost128Bytes(Step(v, es[0]).value, es[1..]);
    }
  }

  // --------------------------------------------------------------- lexemes

  datatype Lexeme = Word(w: string) | Punct(c: char) | Quoted(q: char, text: string)

  function Pending(w: string): seq<Lexeme> {
    if w == "" then [] else [Word(w)]
  }

  /** The lexemes of `es`, after the bytes `w` of an unfinished word. */
  function Lexemes(es: seq<Event>, w: string): seq<Lexeme>
    requires WellBracketed(es, false)
    decreases |es|, 0
  {
    if es == [] then Pending(w)
    else
      match es[0]
      case Code(b) =>
        if IsSpace(b) then Pending(w) + Lexemes(es[1..], "")
        else if IsAtomByte(b) then Lexemes(es[1..], w + [b])
        else Pending(w) + [Punct(b)] + Lexemes(es[1..], "")
      case Gap => Pending(w) + Lexemes(es[1..], "")
      case Open(q) => Pending(w) + QuotedLexemes(es[1..], q, "")
  }

  /** The lexemes of `es`, after the bytes `t` of an open quote `q`. */
  function QuotedLexemes(es: seq<Event>, q: char, t: string): seq<Lexeme>
    requires WellBracketed(es, true)
    decreases |es|, 0
  {
    match es[0]
    case Bytes(bs) => QuotedLexemes(es[1..], q, t + bs)
    case Close => [Quoted(q, t)] + Lexemes(es[1..], "")
  }

  // --------------------------------------------------------------- grammar

  datatype Literal =
    | Plain(w: string)                     // NULL or a number
    | Signed(sign: string, w: string)      // a sign, white space, digits
    | Based(w: string)                     // 0x or 0b digits
    | Marked(w: string, q: char, text: string)   // X'..', B'..', N'..' or a character set's _name '..'
    | Str(q: char, text: string)

  datatype Name = Bare(w: string) | Ticked(text: string)

  datatype Insert = Insert(columns: seq<Name>, keyword: string, tuples: seq<seq<Literal>>)

  predicate IsBased(w: string) {
    |w| > 2 && w[0] == '0' && (w[1] == 'x' || w[1] == 'b') && AllRadix(w[2..], w[1])
  }

  predicate IsStringQuote(q: char) {
    q == '\'' || q == '"'
  }

  predicate ValidLiteral(l: Literal) {
    match l
    case Plain(w) => |w| <= MAX_WORD && (Upper(w) == "NULL" || IsNumber(w))
    case Signed(s, w) => IsSign(s) && w != "" && |w| < MAX_WORD && IsNumber(s + w)
    case Based(w) => IsBased(w)
    case Marked(w, q, text) =>
      |w| <= MAX_WORD && IsStringQuote(q) &&
      (if Upper(w) == "X" then q == '\'' && AllRadix(text, 'x')
       else if Upper(w) == "B" then q == '\'' && AllRadix(text, 'b')
       else Upper(w) == "N" || IsIntroducer(w))
    case Str(q, _) => IsStringQuote(q)
  }

  predicate ValidName(n: Name) {
    match n
    case Bare(w) => 0 < |w| <= MAX_WORD && IsColumnWord(w)
    case Ticked(_) => true
  }

  predicate ValidTuple(t: seq<Literal>) {
    t != [] && forall k :: 0 <= k < |t| ==> ValidLiteral(t[k])
  }

  predicate ValidTuples(ts: seq<seq<Literal>>) {
    ts != [] && forall k :: 0 <= k < |ts| ==> ValidTuple(ts[k])
  }

  predicate ValidInsert(ins: Insert) {
    && Upper(ins.keyword) == "VALUES"
    && (forall k :: 0 <= k < |ins.columns| ==> ValidName(ins.columns[k]))
    && ValidTuples(ins.tuples)
  }

  function RenderLiteral(l: Literal): seq<Lexeme> {
    match l
    case Plain(w) => [Word(w)]
    case Signed(s, w) => [Word(s), Word(w)]
    case Based(w) => [Word(w)]
    case Marked(w, q, text) => [Word(w), Quoted(q, text)]
    case Str(q, text) => [Quoted(q, text)]
  }

  function RenderName(n: Name): Lexeme {
    match n
    case Bare(w) => Word(w)
    case Ticked(text) => Quoted('`', text)
  }

  /** The rest of a column list after its `(` or `,`, and its `)`. */
  function RenderNames(ns: seq<Name>): seq<Lexeme>
    requires ns != []
  {
    [RenderName(ns[0])] + if |ns| == 1 then [Punct(')')] else [Punct(',')] + RenderNames(ns[1..])
  }

  /** The rest of a tuple after its `(` or `,`, and its `)`. */
  function RenderLiterals(ls: seq<Literal>): seq<Lexeme>
    requires ls != []
  {
    RenderLiteral(ls[0]) + if |ls| == 1 then [Punct(')')] else [Punct(',')] + RenderLiterals(ls[1..])
  }

  function RenderTuples(ts: seq<seq<Literal>>): seq<Lexeme>
    requires ValidTuples(ts)
  {
    [Punct('(')] + RenderLiterals(ts[0]) + if |ts| == 1 then [] else [Punct(',')] + RenderTuples(ts[1..])
  }

  function Render(ins: Insert): seq<Lexeme>
    requires ValidInsert(ins)
  {
    (if ins.columns == [] then [] else [Punct('(')] + RenderNames(ins.columns)) +
    [Word(ins.keyword)] + RenderTuples(ins.tuples)
  }

  // ------------------------------------------- from events to lexemes

  /** A whole lexeme fed to the automaton. */
  function Take(v: Values, l: Lexeme): Option<Values> {
    match l
    case Word(w) => Token(v, 'w', w)
    case Punct(c) => CodeByte(v, c)
    case Quoted(q, t) => Token(v, q, t)
  }

  predicate TakesAll(v: Values, ls: seq<Lexeme>)
    decreases |ls|
  {
    if ls == [] then End(v)
    else
      match Take(v, ls[0])
      case None => false
      case Some(u) => TakesAll(u, ls[1..])
  }

  /** Digits in progress leave no other word pending. */
  predicate OneAtom(v: Values) {
    v.radix != NUL ==> v.word == ""
  }

  lemma {:induction false} CodeBytesKeepOneAtom(v: Values, w: string)
    requires OneAtom(v)
    ensures CodeBytes(v, w).Some? ==> OneAtom(CodeBytes(v, w).value)
    decreases |w|
  {
    if w != "" && CodeByte(v, w[0]).Some? {
      CodeByteKeepsOneAtom(v, w[0]);
      hide CodeByte;
      CodeBytesKeepOneAtom(CodeByte(v, w[0]).value, w[1..]);
    }
  }

  lemma CodeByteKeepsOneAtom(v: Values, b: char)
    requires OneAtom(v)
    ensures CodeByte(v, b).Some? ==> OneAtom(CodeByte(v, b).value)
  {
    hide IsNumber;
    hide IsIntroducer;
  }

  /** After white space, more white space changes nothing. */
  lemma SpaceTwice(v: Values)
    requires OneAtom(v) && Space(v).Some?
    ensures Space(Space(v).value) == Space(v)
  {
  }

  lemma {:induction false} CodeBytesAppend(v: Values, w: string, b: char)
    ensures CodeBytes(v, w + [b]) ==
            match CodeBytes(v, w) case None => None case Some(u) => CodeByte(u, b)
    decreases |w|
  {
    if w == "" {
      assert w + [b] == [b];
      if CodeByte(v, b).Some? {
        assert CodeBytes(CodeByte(v, b).value, [b][1..]) == Some(CodeByte(v, b).value);
      }
    } else {
      assert (w + [b])[1..] == w[1..] + [b];
      if CodeByte(v, w[0]).Some? {
        CodeBytesAppend(CodeByte(v, w[0]).value, w[1..], b);
      }
    }
  }

  /** Feeding the events from the middle of a word is feeding the lexemes whole. */
  lemma {:induction false} EventsAreLexemes(v: Values, es: seq<Event>, w: string)
    requires WellBracketed(es, false) && Space(v) == Some(v)
    ensures (match CodeBytes(v, w) case None => false case Some(u) => Accepts(u, es)) == TakesAll(v, Lexemes(es, w))
    decreases |es|
  {
    var u := CodeBytes(v, w);
    if es == [] {
      EndsWithWord(v, w);
    } else {
      match es[0]
      case Code(b) =>
        if IsSpace(b) {
          GapThen(v, es, w);
        } else if IsAtomByte(b) {
          CodeBytesAppend(v, w, b);
          EventsAreLexemes(v, es[1..], w + [b]);
        } else {
          PunctThen(v, es, w, b);
        }
      case Gap =>
        GapThen(v, es, w);
      case Open(q) =>
        OpenThen(v, es, w, q);
    }
  }

  lemma EndsWithWord(v: Values, w: string)
    requires Space(v) == Some(v)
    ensures (match CodeBytes(v, w) case None => false case Some(u) => End(u)) == TakesAll(v, Pending(w))
  {
    if w != "" && CodeBytes(v, w).Some? {
      var u := CodeBytes(v, w).value;
      CodeBytesKeepOneAtom(v, w);
      if Space(u).Some? {
        SpaceTwice(u);
        assert TakesAll(v, [Word(w)]) == TakesAll(Space(u).value, [Word(w)][1..]);
      }
    }
  }

  lemma GapThen(v: Values, es: seq<Event>, w: string)
    requires es != [] && WellBracketed(es, false) && Space(v) == Some(v)
    requires es[0].Gap? || (es[0].Code? && IsSpace(es[0].b))
    ensures (match CodeBytes(v, w) case None => false case Some(u) => Accepts(u, es)) == TakesAll(v, Lexemes(es, w))
    decreases |es|, 0
  {
    var rest := Lexemes(es[1..], "");
    if w == "" {
      assert Pending(w) + rest == rest;
      EventsAreLexemes(v, es[1..], "");
    } else {
      assert (Pending(w) + rest)[1..] == rest;
      if CodeBytes(v, w).Some? && Space(CodeBytes(v, w).value).Some? {
        var u := CodeBytes(v, w).value;
        CodeBytesKeepOneAtom(v, w);
        SpaceTwice(u);
        EventsAreLexemes(Space(u).value, es[1..], "");
      }
    }
  }

  lemma PunctThen(v: Values, es: seq<Event>, w: string, b: char)
    requires es != [] && WellBracketed(es, false) && Space(v) == Some(v)
    requires es[0] == Code(b) && !IsSpace(b) && !IsAtomByte(b)
    ensures (match CodeBytes(v, w) case None => false case Some(u) => Accepts(u, es)) == TakesAll(v, Lexemes(es, w))
    decreases |es|, 0
  {
    hide EndWord, IsSpace, IsAtomByte;
    var tail := Lexemes(es[1..], "");
    var rest := [Punct(b)] + tail;
    assert rest[1..] == tail;
    var u := CodeBytes(v, w);
    if u.Some? && Space(u.value).Some? {
      var s := Space(u.value).value;
      CodeBytesKeepOneAtom(v, w);
      SpaceTwice(u.value);
      assert CodeByte(u.value, b) == Punctuation(s, b) == CodeByte(s, b);
      if Punctuation(s, b).Some? {
        PunctuationSettles(s, b);
        EventsAreLexemes(Punctuation(s, b).value, es[1..], "");
      }
    }
    if w == "" {
      assert Pending(w) + [Punct(b)] + tail == rest;
    } else {
      assert (Pending(w) + [Punct(b)] + tail)[1..] == rest;
    }
  }

  lemma PunctuationSettles(s: Values, b: char)
    requires Space(s) == Some(s) && Punctuation(s, b).Some?
    ensures Space(Punctuation(s, b).value) == Some(Punctuation(s, b).value)
  {
  }

  lemma OpenThen(v: Values, es: seq<Event>, w: string, q: char)
    requires es != [] && WellBracketed(es, false) && Space(v) == Some(v) && es[0] == Open(q)
    ensures (match CodeBytes(v, w) case None => false case Some(u) => Accepts(u, es)) == TakesAll(v, Lexemes(es, w))
    decreases |es|, 0
  {
    var rest := QuotedLexemes(es[1..], q, "");
    var u := CodeBytes(v, w);
    if u.Some? && Space(u.value).Some? {
      var s := Space(u.value).value;
      CodeBytesKeepOneAtom(v, w);
      SpaceTwice(u.value);
      assert StartQuote(u.value, q) == StartQuote(s, q);
      if StartQuote(s, q).Some? {
        assert QuoteText(StartQuote(s, q).value, "") == StartQuote(s, q);
        QuoteThen(s, es[1..], q, "");
      } else {
        TakesNoQuote(s, es[1..], q, "");
      }
    }
    if w == "" {
      assert Pending(w) + rest == rest;
    } else {
      assert (Pending(w) + rest)[1..] == rest;
    }
  }

  /** A quote the automaton will not open is refused however it goes on. */
  lemma {:induction false} TakesNoQuote(s: Values, es: seq<Event>, q: char, t: string)
    requires WellBracketed(es, true) && IsQuote(q) && StartQuote(s, q).None?
    ensures !TakesAll(s, QuotedLexemes(es, q, t))
    decreases |es|, 0
  {
    match es[0]
    case Bytes(bs) => TakesNoQuote(s, es[1..], q, t + bs);
    case Close =>
  }

  lemma {:induction false} QuoteThen(s: Values, es: seq<Event>, q: char, t: string)
    requires WellBracketed(es, true) && IsQuote(q) && StartQuote(s, q).Some? && Space(s) == Some(s)
    ensures (match QuoteText(StartQuote(s, q).value, t) case None => false case Some(u) => Accepts(u, es))
            == TakesAll(s, QuotedLexemes(es, q, t))
    decreases |es|, 0
  {
    var o := StartQuote(s, q).value;
    match es[0]
    case Bytes(bs) =>
      QuoteTextSplits(o, t, bs);
      QuoteThen(s, es[1..], q, t + bs);
    case Close =>
      var tail := Lexemes(es[1..], "");
      assert ([Quoted(q, t)] + tail)[1..] == tail;
      if QuoteText(o, t).Some? {
        var c := EndQuote(o).value;
        assert Take(s, Quoted(q, t)) == Some(c);
        if Space(c) == Some(c) {
          EventsAreLexemes(c, es[1..], "");
        } else {
          StuckRefusesEvents(c, es[1..]);
          StuckRefusesLexemes(c, tail);
        }
      }
  }

  /** A sign followed by a quoted string leaves a state from which nothing is accepted. */
  predicate Stuck(c: Values) {
    c.state == LiteralSep && c.radix == NUL && c.word != ""
  }

  lemma {:induction false} StuckRefusesEvents(c: Values, es: seq<Event>)
    requires WellBracketed(es, false) && Stuck(c)
    ensures !Accepts(c, es)
    decreases |es|
  {
    if es != [] && Step(c, es[0]).Some? {
      StuckRefusesEvents(Step(c, es[0]).value, es[1..]);
    }
  }

  lemma {:induction false} StuckRefusesBytes(c: Values, w: string)
    requires Stuck(c)
    ensures CodeBytes(c, w).Some? ==> Stuck(CodeBytes(c, w).value)
    decreases |w|
  {
    if w != "" && CodeByte(c, w[0]).Some? {
      StuckRefusesBytes(CodeByte(c, w[0]).value, w[1..]);
    }
  }

  lemma {:induction false} StuckRefusesLexemes(c: Values, ls: seq<Lexeme>)
    requires Stuck(c)
    ensures !TakesAll(c, ls)
    decreases |ls|
  {
    if ls != [] {
      match ls[0]
      case Word(w) => StuckRefusesBytes(c, w);
      case Punct(b) =>
        if CodeByte(c, b).Some? {
          StuckRefusesLexemes(CodeByte(c, b).value, ls[1..]);
        }
      case Quoted(_, t) => StuckRefusesBytes(c, t);
    }
  }

  // ------------------------------------------ words inside the automaton

  predicate AtomWord(w: string) {
    w != "" && forall k :: 0 <= k < |w| ==> IsAtomByte(w[k])
  }

  predicate ProperLexeme(l: Lexeme) {
    match l
    case Word(w) => AtomWord(w)
    case Punct(c) => !IsSpace(c) && !IsAtomByte(c)
    case Quoted(q, _) => IsQuote(q)
  }

  predicate Proper(ls: seq<Lexeme>) {
    forall k :: 0 <= k < |ls| ==> ProperLexeme(ls[k])
  }

  lemma {:induction false} LexemesAreProper(es: seq<Event>, w: string)
    requires WellBracketed(es, false) && (w == "" || AtomWord(w))
    ensures Proper(Lexemes(es, w))
    decreases |es|, 0
  {
    if es != [] {
      match es[0]
      case Code(b) =>
        if IsSpace(b) || !IsAtomByte(b) {
          LexemesAreProper(es[1..], "");
        } else {
          LexemesAreProper(es[1..], w + [b]);
        }
      case Gap => LexemesAreProper(es[1..], "");
      case Open(q) => QuotedLexemesAreProper(es[1..], q, "");
    }
  }

  lemma {:induction false} QuotedLexemesAreProper(es: seq<Event>, q: char, t: string)
    requires WellBracketed(es, true) && IsQuote(q)
    ensures Proper(QuotedLexemes(es, q, t))
    decreases |es|, 0
  {
    match es[0]
    case Bytes(bs) => QuotedLexemesAreProper(es[1..], q, t + bs);
    case Close => LexemesAreProper(es[1..], "");
  }

  /** The settled state: no word, digits or quote in progress. */
  function Settled(s: State): Values {
    Values(s, "", NUL, false, NUL, NUL)
  }

  predicate BasePrefix(w: string) {
    |w| >= 2 && w[0] == '0' && (w[1] == 'x' || w[1] == 'b')
  }

  lemma {:induction false} WordBytes(v: Values, w: string)
    requires v.radix == NUL && forall k :: 0 <= k < |w| ==> IsAtomByte(w[k])
    requires v.state == State.Literal ==> !BasePrefix(v.word + w)
    requires |v.word| <= MAX_WORD
    ensures CodeBytes(v, w) == if |v.word| + |w| <= MAX_WORD then Some(v.(word := v.word + w)) else None
    decreases |w|
  {
    if w == "" {
      assert v.word + w == v.word;
    } else {
      assert v.word + w == v.word + [w[0]] + w[1..];
      if |v.word| < MAX_WORD {
        WordBytes(v.(word := v.word + [w[0]]), w[1..]);
      }
    }
  }

  lemma {:induction false} BaseDigits(v: Values, w: string)
    requires v.radix != NUL && forall k :: 0 <= k < |w| ==> IsAtomByte(w[k])
    ensures CodeBytes(v, w) == if AllRadix(w, v.radix) then Some(v.(digits := v.digits || w != "")) else None
    decreases |w|
  {
    if w != "" {
      assert AllRadix(w, v.radix) <==> RadixDigit(w[0], v.radix) && AllRadix(w[1..], v.radix) by {
        assert forall k :: 1 <= k < |w| ==> w[k] == w[1..][k - 1];
      }
      if RadixDigit(w[0], v.radix) {
        BaseDigits(v.(digits := true), w[1..]);
      }
    }
  }

  lemma BaseWord(w: string)
    requires AtomWord(w) && BasePrefix(w)
    ensures Token(Settled(State.Literal), 'w', w) == if IsBased(w) then Some(Settled(LiteralSep)) else None
  {
    var v := Settled(State.Literal);
    var v1 := v.(word := "0");
    var v2 := v.(radix := w[1]);
    assert v1.word == v.word + [w[0]];
    assert CodeByte(v, w[0]) == Some(v1);
    assert CodeByte(v1, w[1]) == Some(v2);
    assert w[1..][1..] == w[2..];
    assert CodeBytes(v, w) == CodeBytes(v1, w[1..]) == CodeBytes(v2, w[2..]);
    BaseDigits(v2, w[2..]);
  }

  lemma BaseIsNoNumber(w: string)
    requires BasePrefix(w)
    ensures !IsNumber(w) && Upper(w) != "NULL" && !IsSign(w)
    ensures Upper(w) != "X" && Upper(w) != "B" && Upper(w) != "N" && !IsIntroducer(w)
  {
    assert Upper(w)[0] == '0';
    assert DigitsEnd(w, 0) == 1;
    assert MantissaEnd(w, 0) == 1;
  }

  lemma PlainWord(s: State, w: string)
    requires AtomWord(w) && (s == State.Literal ==> !BasePrefix(w))
    ensures Token(Settled(s), 'w', w) == if |w| <= MAX_WORD then EndWord(Settled(s), w) else None
  {
    var v := Settled(s);
    assert v.word + w == w;
    WordBytes(v, w);
  }

  function AfterSign(sign: string): Values {
    Settled(State.Literal).(word := sign)
  }

  lemma SignedWord(sign: string, w: string)
    requires IsSign(sign) && AtomWord(w)
    ensures Token(AfterSign(sign), 'w', w) == if |w| < MAX_WORD && IsNumber(sign + w) then Some(Settled(LiteralSep)) else None
  {
    var v := AfterSign(sign);
    WordBytes(v, w);
    var t := sign + w;
    assert |t| >= 2 && t[0] == sign[0] && Upper(t)[0] == sign[0];
    assert Upper(t) != "NULL" && Upper(t) != "X" && Upper(t) != "B" && Upper(t) != "N";
  }

  // ------------------------------------------------- renderings unfolded

  lemma LastLiteral(l: Literal, rest: seq<Lexeme>)
    ensures RenderLiterals([l]) + rest == RenderLiteral(l) + ([Punct(')')] + rest)
  {
  }

  lemma MoreLiterals(l: Literal, more: seq<Literal>, rest: seq<Lexeme>)
    requires more != []
    ensures RenderLiterals([l] + more) + rest == RenderLiteral(l) + ([Punct(',')] + (RenderLiterals(more) + rest))
  {
    assert ([l] + more)[1..] == more;
  }

  lemma LastTuple(t: seq<Literal>)
    requires ValidTuple(t)
    ensures RenderTuples([t]) == [Punct('(')] + (RenderLiterals(t) + [])
  {
  }

  lemma MoreTuples(t: seq<Literal>, more: seq<seq<Literal>>)
    requires ValidTuple(t) && ValidTuples(more)
    ensures ValidTuples([t] + more)
    ensures RenderTuples([t] + more) == [Punct('(')] + (RenderLiterals(t) + ([Punct(',')] + RenderTuples(more)))
  {
    assert ([t] + more)[1..] == more;
  }

  lemma LastName(n: Name, rest: seq<Lexeme>)
    ensures RenderNames([n]) + rest == [RenderName(n)] + ([Punct(')')] + rest)
  {
  }

  lemma MoreNames(n: Name, more: seq<Name>, rest: seq<Lexeme>)
    requires more != []
    ensures RenderNames([n] + more) + rest == [RenderName(n)] + ([Punct(',')] + (RenderNames(more) + rest))
  {
    assert ([n] + more)[1..] == more;
  }

  lemma NoColumns(keyword: string, ts: seq<seq<Literal>>)
    requires ValidInsert(Insert([], keyword, ts))
    ensures Render(Insert([], keyword, ts)) == [Word(keyword)] + RenderTuples(ts)
  {
    hide RenderTuples;
  }

  lemma WithColumns(ns: seq<Name>, keyword: string, ts: seq<seq<Literal>>)
    requires ns != [] && ValidInsert(Insert(ns, keyword, ts))
    ensures Render(Insert(ns, keyword, ts)) == [Punct('(')] + (RenderNames(ns) + ([Word(keyword)] + RenderTuples(ts)))
  {
    hide RenderNames, RenderTuples;
  }

  // ------------------------------------------------- accepted, so spelled

  lemma OneLiteral(ls: seq<Lexeme>) returns (l: Literal, rest: seq<Lexeme>)
    requires Proper(ls) && TakesAll(Settled(State.Literal), ls)
    ensures ValidLiteral(l) && ls == RenderLiteral(l) + rest && Proper(rest) && TakesAll(Settled(LiteralSep), rest)
  {
    var v := Settled(State.Literal);
    assert ls != [];
    rest := ls[1..];
    match ls[0]
    case Punct(c) =>
      assert false;
    case Quoted(q, t) =>
      l := Str(q, t);
      assert AllRadix("", NUL);
    case Word(w) =>
      if BasePrefix(w) {
        BaseWord(w);
        l := Based(w);
      } else {
        PlainWord(State.Literal, w);
        if IsSign(w) {
          rest := SignedLiteral(w, ls);
          l := Signed(w, ls[1].w);
        } else if Upper(w) == "NULL" || IsNumber(w) {
          l := Plain(w);
        } else {
          rest := IntroducedLiteral(w, ls);
          l := Marked(w, ls[1].q, ls[1].text);
        }
      }
  }

  lemma SignedLiteral(s: string, ls: seq<Lexeme>) returns (rest: seq<Lexeme>)
    requires Proper(ls) && ls != [] && ls[0] == Word(s) && IsSign(s) && TakesAll(AfterSign(s), ls[1..])
    ensures |ls| > 1 && ls[1].Word? && ValidLiteral(Signed(s, ls[1].w))
    ensures ls == RenderLiteral(Signed(s, ls[1].w)) + rest && Proper(rest) && TakesAll(Settled(LiteralSep), rest)
  {
    assert |ls| > 1;
    rest := ls[2..];
    assert ls[1..][1..] == rest;
    match ls[1]
    case Punct(c) =>
      assert false;
    case Quoted(q, t) =>
      var c := Settled(LiteralSep).(word := s);
      assert Take(AfterSign(s), ls[1]) == if IsStringQuote(q) then Some(c) else None;
      StuckRefusesLexemes(c, rest);
      assert false;
    case Word(w) =>
      SignedWord(s, w);
  }

  lemma IntroducedLiteral(w: string, ls: seq<Lexeme>) returns (rest: seq<Lexeme>)
    requires Proper(ls) && ls != [] && ls[0] == Word(w) && |w| <= MAX_WORD
    requires EndWord(Settled(State.Literal), w).Some? && EndWord(Settled(State.Literal), w).value.state == State.Introduced
    requires TakesAll(EndWord(Settled(State.Literal), w).value, ls[1..])
    ensures |ls| > 1 && ls[1].Quoted? && ValidLiteral(Marked(w, ls[1].q, ls[1].text))
    ensures ls == RenderLiteral(Marked(w, ls[1].q, ls[1].text)) + rest && Proper(rest) && TakesAll(Settled(LiteralSep), rest)
  {
    hide IsNumber, IsIntroducer, UnsafeCharset;
    var v := EndWord(Settled(State.Literal), w).value;
    assert |ls| > 1;
    rest := ls[2..];
    assert ls[1..][1..] == rest;
    match ls[1]
    case Punct(c) => assert false;
    case Quoted(q, t) =>
      assert Take(v, ls[1]) == Some(Settled(LiteralSep));
    case Word(u) =>
      WordBytes(v, u);
      assert false;
  }

  lemma {:induction false} SomeLiterals(ls: seq<Lexeme>) returns (lits: seq<Literal>, rest: seq<Lexeme>)
    requires Proper(ls) && TakesAll(Settled(State.Literal), ls)
    ensures ValidTuple(lits) && ls == RenderLiterals(lits) + rest && Proper(rest) && TakesAll(Settled(TupleSep), rest)
    decreases |ls|
  {
    hide TakesAll, RenderLiterals, RenderLiteral, ValidLiteral, ProperLexeme, Settled;
    var l, r := OneLiteral(ls);
    SeparatorFollows(LiteralSep, r);
    assert r == [r[0]] + r[1..];
    if r[0] == Punct(')') {
      lits, rest := [l], r[1..];
      LastLiteral(l, rest);
    } else {
      var more: seq<Literal>;
      more, rest := SomeLiterals(r[1..]);
      lits := [l] + more;
      MoreLiterals(l, more, rest);
    }
  }

  lemma SeparatorFollows(s: State, ls: seq<Lexeme>)
    requires Proper(ls) && TakesAll(Settled(s), ls) && (s == LiteralSep || s == ColumnSep)
    ensures ls != [] && (ls[0] == Punct(')') || ls[0] == Punct(','))
    ensures ls[0] == Punct(')') ==> TakesAll(Settled(if s == LiteralSep then TupleSep else Keyword), ls[1..])
    ensures ls[0] == Punct(',') ==> TakesAll(Settled(if s == LiteralSep then State.Literal else Column), ls[1..])
  {
    assert ls != [];
    assert ProperLexeme(ls[0]);
    match ls[0]
    case Word(w) => PlainWord(s, w);
    case _ =>
  }

  lemma TupleOpens(ls: seq<Lexeme>)
    requires Proper(ls) && TakesAll(Settled(Tuple), ls)
    ensures ls != [] && ls[0] == Punct('(') && TakesAll(Settled(State.Literal), ls[1..])
  {
    assert ls != [];
    assert ProperLexeme(ls[0]);
    if ls[0].Word? {
      PlainWord(Tuple, ls[0].w);
    }
  }

  lemma TupleFollows(ls: seq<Lexeme>)
    requires Proper(ls) && ls != [] && TakesAll(Settled(TupleSep), ls)
    ensures ls[0] == Punct(',') && TakesAll(Settled(Tuple), ls[1..])
  {
    assert ProperLexeme(ls[0]);
    if ls[0].Word? {
      PlainWord(TupleSep, ls[0].w);
    }
  }

  lemma {:induction false} SomeTuples(ls: seq<Lexeme>) returns (ts: seq<seq<Literal>>)
    requires Proper(ls) && TakesAll(Settled(Tuple), ls)
    ensures ValidTuples(ts) && ls == RenderTuples(ts)
    decreases |ls|
  {
    hide TakesAll;
    TupleOpens(ls);
    hide RenderTuples, RenderLiterals, ValidTuple;
    var lits, rest := SomeLiterals(ls[1..]);
    assert ls == [Punct('(')] + (RenderLiterals(lits) + rest);
    if rest == [] {
      ts := [lits];
      LastTuple(lits);
    } else {
      TupleFollows(rest);
      var more := SomeTuples(rest[1..]);
      ts := [lits] + more;
      MoreTuples(lits, more);
      assert rest == [Punct(',')] + RenderTuples(more);
    }
  }

  lemma OneName(ls: seq<Lexeme>) returns (n: Name)
    requires Proper(ls) && TakesAll(Settled(Column), ls)
    ensures ls != [] && ValidName(n) && ls[0] == RenderName(n) && TakesAll(Settled(ColumnSep), ls[1..])
  {
    assert ls != [];
    assert ProperLexeme(ls[0]);
    match ls[0]
    case Punct(_) => assert false; n := Ticked("");
    case Quoted(q, t) => n := Ticked(t);
    case Word(w) => PlainWord(Column, w); n := Bare(w);
  }

  lemma {:induction false} SomeNames(ls: seq<Lexeme>) returns (ns: seq<Name>, rest: seq<Lexeme>)
    requires Proper(ls) && TakesAll(Settled(Column), ls)
    ensures ns != [] && forall k :: 0 <= k < |ns| ==> ValidName(ns[k])
    ensures ls == RenderNames(ns) + rest && Proper(rest) && TakesAll(Settled(Keyword), rest)
    decreases |ls|
  {
    var n := OneName(ls);
    var r := ls[1..];
    SeparatorFollows(ColumnSep, r);
    hide TakesAll, RenderNames, RenderName, ValidName;
    assert ls == [RenderName(n)] + ([r[0]] + r[1..]);
    if r[0] == Punct(')') {
      ns, rest := [n], r[1..];
      LastName(n, rest);
    } else {
      var more: seq<Name>;
      more, rest := SomeNames(r[1..]);
      ns := [n] + more;
      MoreNames(n, more, rest);
    }
  }

  lemma AfterKeyword(s: State, ls: seq<Lexeme>) returns (keyword: string, ts: seq<seq<Literal>>)
    requires s == Head || s == Keyword
    requires Proper(ls) && TakesAll(Settled(s), ls) && (s == Head ==> ls != [] && ls[0].Word?)
    ensures Upper(keyword) == "VALUES" && ValidTuples(ts)
    ensures ls == [Word(keyword)] + RenderTuples(ts)
  {
    assert ls != [] && ls[0].Word?;
    keyword := ls[0].w;
    PlainWord(s, keyword);
    ts := SomeTuples(ls[1..]);
  }

  lemma HeadOpens(ls: seq<Lexeme>)
    requires Proper(ls) && TakesAll(Settled(Head), ls)
    ensures ls != [] && !ls[0].Quoted?
    ensures ls[0].Punct? ==> ls[0].c == '(' && TakesAll(Settled(Column), ls[1..])
  {
    assert ls != [];
    assert ProperLexeme(ls[0]);
  }

  lemma Spelled(ls: seq<Lexeme>) returns (ins: Insert)
    requires Proper(ls) && TakesAll(Settled(Head), ls)
    ensures ValidInsert(ins) && ls == Render(ins)
  {
    HeadOpens(ls);
    hide TakesAll, Render, RenderNames, RenderTuples, ValidName, ValidTuples;
    if ls[0].Word? {
      var keyword, ts := AfterKeyword(Head, ls);
      ins := Insert([], keyword, ts);
      NoColumns(keyword, ts);
    } else {
      var ns, rest := SomeNames(ls[1..]);
      var keyword, ts := AfterKeyword(Keyword, rest);
      ins := Insert(ns, keyword, ts);
      WithColumns(ns, keyword, ts);
    }
  }

  // ------------------------------------------------- spelled, so accepted

  lemma MantissaIsAtoms(w: string, s: nat)
    requires s <= |w|
    ensures forall k :: s <= k < MantissaEnd(w, s) ==> IsAtomByte(w[k])
  {
  }

  lemma ExponentIsAtoms(w: string, m: nat)
    requires m < |w| && IsExponent(w, m)
    ensures forall k :: m <= k < |w| ==> IsAtomByte(w[k])
  {
  }

  lemma NumbersAreAtoms(w: string)
    requires IsNumber(w)
    ensures AtomWord(w)
  {
    var s := if w[0] == '+' || w[0] == '-' then 1 else 0;
    var m := MantissaEnd(w, s);
    MantissaIsAtoms(w, s);
    if m < |w| {
      ExponentIsAtoms(w, m);
    }
    hide MantissaEnd, IsExponent;
    forall k | 0 <= k < |w| ensures IsAtomByte(w[k]) {
    }
  }

  lemma LettersAreAtoms(w: string)
    requires w != "" && forall k :: 0 <= k < |w| ==> 'A' <= Upper(w)[k] <= 'Z'
    ensures AtomWord(w)
  {
    forall k | 0 <= k < |w| ensures IsAtomByte(w[k]) {
      assert 'A' <= Upper(w)[k] <= 'Z' && Upper(w)[k] == UpperChar(w[k]);
    }
  }

  lemma PlainTaken(w: string)
    requires ValidLiteral(Plain(w))
    ensures Take(Settled(State.Literal), Word(w)) == Some(Settled(LiteralSep))
  {
    if BasePrefix(w) {
      BaseIsNoNumber(w);
    }
    if Upper(w) == "NULL" {
      LettersAreAtoms(w);
    } else {
      NumbersAreAtoms(w);
    }
    PlainWord(State.Literal, w);
  }

  lemma SignedTaken(s: string, w: string)
    requires ValidLiteral(Signed(s, w))
    ensures Take(Settled(State.Literal), Word(s)) == Some(AfterSign(s))
    ensures Take(AfterSign(s), Word(w)) == Some(Settled(LiteralSep))
  {
    SignedIsAtoms(s, w);
    hide IsNumber, AtomWord;
    PlainWord(State.Literal, s);
    SignedWord(s, w);
  }

  lemma SignedIsAtoms(s: string, w: string)
    requires IsSign(s) && w != "" && IsNumber(s + w)
    ensures AtomWord(s) && AtomWord(w)
  {
    NumbersAreAtoms(s + w);
    hide IsNumber;
    forall k | 0 <= k < |w| ensures IsAtomByte(w[k]) {
      assert w[k] == (s + w)[1 + k];
    }
  }

  lemma MarkedTaken(w: string, q: char, t: string)
    requires ValidLiteral(Marked(w, q, t))
    ensures Take(Settled(State.Literal), Word(w)) == EndWord(Settled(State.Literal), w)
    ensures EndWord(Settled(State.Literal), w).Some?
    ensures Take(EndWord(Settled(State.Literal), w).value, Quoted(q, t)) == Some(Settled(LiteralSep))
  {
    if BasePrefix(w) {
      BaseIsNoNumber(w);
    }
    if !IsIntroducer(w) {
      LettersAreAtoms(w);
    }
    PlainWord(State.Literal, w);
    IntroducerIsNoNumber(w);
  }

  lemma LiteralTaken(l: Literal, rest: seq<Lexeme>)
    requires ValidLiteral(l) && TakesAll(Settled(LiteralSep), rest)
    ensures TakesAll(Settled(State.Literal), RenderLiteral(l) + rest)
  {
    var ls := RenderLiteral(l) + rest;
    match l
    case Plain(w) =>
      PlainTaken(w);
      assert ls[1..] == rest;
    case Signed(s, w) =>
      SignedTaken(s, w);
      assert ls[1..][1..] == rest;
    case Based(w) =>
      BasedIsAtoms(w);
      BaseWord(w);
      assert ls[1..] == rest;
    case Marked(w, q, t) =>
      MarkedTaken(w, q, t);
      assert ls[1..][1..] == rest;
    case Str(q, t) =>
      assert ls[1..] == rest;
  }

  lemma BasedIsAtoms(w: string)
    requires IsBased(w)
    ensures AtomWord(w)
  {
    forall k | 2 <= k < |w| ensures IsAtomByte(w[k]) {
      assert w[k] == w[2..][k - 2];
    }
  }

  lemma IntroducerIsNoNumber(w: string)
    requires Upper(w) == "X" || Upper(w) == "B" || Upper(w) == "N" || IsIntroducer(w)
    ensures !IsNumber(w) && Upper(w) != "NULL" && !IsSign(w)
  {
    assert w != "" && Upper(w)[0] == UpperChar(w[0]);
    assert DigitsEnd(w, 0) == 0;
  }

  lemma PunctTaken(s: State, c: char, t: State, rest: seq<Lexeme>)
    requires c == '(' || c == ')' || c == ','
    requires Punctuation(Settled(s), c) == Some(Settled(t))
    requires TakesAll(Settled(t), rest)
    ensures TakesAll(Settled(s), [Punct(c)] + rest)
  {
    assert ([Punct(c)] + rest)[1..] == rest;
  }

  lemma {:induction false} LiteralsTaken(lits: seq<Literal>, rest: seq<Lexeme>)
    requires ValidTuple(lits) && TakesAll(Settled(TupleSep), rest)
    ensures TakesAll(Settled(State.Literal), RenderLiterals(lits) + rest)
    decreases |lits|
  {
    hide TakesAll, RenderLiterals, RenderLiteral, ValidLiteral;
    if |lits| == 1 {
      assert lits == [lits[0]];
      LastLiteral(lits[0], rest);
      PunctTaken(LiteralSep, ')', TupleSep, rest);
      LiteralTaken(lits[0], [Punct(')')] + rest);
    } else {
      var more := lits[1..];
      assert lits == [lits[0]] + more;
      MoreLiterals(lits[0], more, rest);
      LiteralsTaken(more, rest);
      PunctTaken(LiteralSep, ',', State.Literal, RenderLiterals(more) + rest);
      LiteralTaken(lits[0], [Punct(',')] + (RenderLiterals(more) + rest));
    }
  }

  lemma {:induction false} TuplesTaken(ts: seq<seq<Literal>>)
    requires ValidTuples(ts)
    ensures TakesAll(Settled(Tuple), RenderTuples(ts))
    decreases |ts|
  {
    assert TakesAll(Settled(TupleSep), []);
    hide TakesAll, RenderTuples, RenderLiterals, ValidTuple;
    if |ts| == 1 {
      assert ts == [ts[0]];
      LastTuple(ts[0]);
      LiteralsTaken(ts[0], []);
      PunctTaken(Tuple, '(', State.Literal, RenderLiterals(ts[0]) + []);
    } else {
      var more := ts[1..];
      assert ts == [ts[0]] + more;
      MoreTuples(ts[0], more);
      TuplesTaken(more);
      var rest := [Punct(',')] + RenderTuples(more);
      PunctTaken(TupleSep, ',', Tuple, RenderTuples(more));
      LiteralsTaken(ts[0], rest);
      PunctTaken(Tuple, '(', State.Literal, RenderLiterals(ts[0]) + rest);
    }
  }

  lemma {:induction false} NamesTaken(ns: seq<Name>, rest: seq<Lexeme>)
    requires ns != [] && forall k :: 0 <= k < |ns| ==> ValidName(ns[k])
    requires TakesAll(Settled(Keyword), rest)
    ensures TakesAll(Settled(Column), RenderNames(ns) + rest)
    decreases |ns|
  {
    hide TakesAll, RenderNames, RenderName, ValidName;
    if |ns| == 1 {
      assert ns == [ns[0]];
      LastName(ns[0], rest);
      PunctTaken(ColumnSep, ')', Keyword, rest);
      NameTaken(ns[0], [Punct(')')] + rest);
    } else {
      var more := ns[1..];
      assert ns == [ns[0]] + more;
      MoreNames(ns[0], more, rest);
      NamesTaken(more, rest);
      PunctTaken(ColumnSep, ',', Column, RenderNames(more) + rest);
      NameTaken(ns[0], [Punct(',')] + (RenderNames(more) + rest));
    }
  }

  lemma NameTaken(n: Name, rest: seq<Lexeme>)
    requires ValidName(n) && TakesAll(Settled(ColumnSep), rest)
    ensures TakesAll(Settled(Column), [RenderName(n)] + rest)
  {
    assert ([RenderName(n)] + rest)[1..] == rest;
    match n
    case Bare(w) => PlainWord(Column, w);
    case Ticked(t) =>
  }

  lemma KeywordTaken(s: State, keyword: string, rest: seq<Lexeme>)
    requires (s == Head || s == Keyword) && Upper(keyword) == "VALUES" && TakesAll(Settled(Tuple), rest)
    ensures TakesAll(Settled(s), [Word(keyword)] + rest)
  {
    LettersAreAtoms(keyword);
    PlainWord(s, keyword);
    assert ([Word(keyword)] + rest)[1..] == rest;
  }

  lemma Taken(ins: Insert)
    requires ValidInsert(ins)
    ensures TakesAll(Settled(Head), Render(ins))
  {
    hide TakesAll, Render, RenderNames, RenderTuples, ValidName, ValidTuples;
    TuplesTaken(ins.tuples);
    if ins.columns == [] {
      NoColumns(ins.keyword, ins.tuples);
      KeywordTaken(Head, ins.keyword, RenderTuples(ins.tuples));
    } else {
      WithColumns(ins.columns, ins.keyword, ins.tuples);
      var tail := [Word(ins.keyword)] + RenderTuples(ins.tuples);
      KeywordTaken(Keyword, ins.keyword, RenderTuples(ins.tuples));
      NamesTaken(ins.columns, tail);
      PunctTaken(Head, '(', Column, RenderNames(ins.columns) + tail);
    }
  }

  /** The main result: the automaton accepts exactly the literal INSERT bodies. */
  lemma AcceptsExactlyLiteralValues(es: seq<Event>)
    requires WellBracketed(es, false)
    ensures Accepts(INIT, es) <==> exists ins :: ValidInsert(ins) && Lexemes(es, "") == Render(ins)
  {
    EventsAreLexemes(INIT, es, "");
    LexemesAreProper(es, "");
    if Accepts(INIT, es) {
      var ins := Spelled(Lexemes(es, ""));
    }
    forall ins | ValidInsert(ins) && Lexemes(es, "") == Render(ins)
      ensures Accepts(INIT, es)
    {
      Taken(ins);
    }
  }
}
