/** The automaton that checks INSERT and REPLACE bodies (internal/cmd/dumpvalues.go).

    `Values` is the automaton's state as a value and the functions on it are its steps;
    `None` means the body is refused. `DumpValues` is the source's object: its fields are
    updated in place, and every method takes exactly the step its function describes. */
module ValuesAutomaton {
  import opened Text

  const NUL := '\0'
  const MAX_WORD := 128

  datatype State =
    | Head | Column | ColumnSep | Keyword | Tuple
    | Literal | LiteralSep | TupleSep | Introduced

  datatype Values = Values(
    state: State, word: string, radix: char, digits: bool, quote: char, quotedRadix: char)

  const INIT := Values(Head, "", NUL, false, NUL, NUL)

  predicate RadixDigit(b: char, radix: char) {
    if radix == 'b' then b == '0' || b == '1'
    else '0' <= b <= '9' || 'a' <= b <= 'f' || 'A' <= b <= 'F'
  }

  /** Bytes that extend a word inside an INSERT body. */
  predicate IsAtomByte(b: char) {
    IsWordByte(b) || b == '.' || b == '+' || b == '-'
  }

  predicate IsSign(w: string) {
    w == "+" || w == "-"
  }

  /** The end of the run of decimal digits starting at `i`. */
  function DigitsEnd(w: string, i: nat): (e: nat)
    requires i <= |w|
    ensures i <= e <= |w|
    ensures forall k :: i <= k < e ==> IsDigit(w[k])
    ensures e < |w| ==> !IsDigit(w[e])
    decreases |w| - i
  {
    if i < |w| && IsDigit(w[i]) then DigitsEnd(w, i + 1) else i
  }

  /** The end of the mantissa starting at `i`, or `i` when there is none. */
  function MantissaEnd(w: string, i: nat): (e: nat)
    requires i <= |w|
    ensures i <= e <= |w|
  {
    var d := DigitsEnd(w, i);
    if d > i then
      if d < |w| && w[d] == '.' then DigitsEnd(w, d + 1) else d
    else if i < |w| && w[i] == '.' && DigitsEnd(w, i + 1) > i + 1 then
      DigitsEnd(w, i + 1)
    else i
  }

  /** What the regular expression dumpNumber matches. */
  predicate IsNumber(w: string) {
    var s := if |w| > 0 && (w[0] == '+' || w[0] == '-') then 1 else 0;
    var m := MantissaEnd(w, s);
    m > s && (m == |w| || IsExponent(w, m))
  }

  predicate IsExponent(w: string, m: nat)
    requires m < |w|
  {
    (w[m] == 'e' || w[m] == 'E') &&
    var d := if m + 1 < |w| && (w[m + 1] == '+' || w[m + 1] == '-') then m + 2 else m + 1;
    d < |w| && DigitsEnd(w, d) == |w|
  }

  const UNSAFE_CHARSETS := ["BIG5", "CP932", "GBK", "GB18030", "SJIS"]

  /** A character set in which a backslash byte can end a character. */
  predicate UnsafeCharset(name: string) {
    exists k :: 0 <= k < |UNSAFE_CHARSETS| &&
      (Upper(name) == UNSAFE_CHARSETS[k] || HasPrefix(Upper(name), UNSAFE_CHARSETS[k] + "_"))
  }

  predicate IsIntroducer(w: string) {
    |w| > 1 && w[0] == '_' && !UnsafeCharset(w[1..]) &&
    forall k :: 1 <= k < |w| ==> IsWordByte(w[k]) && (w[k] as int) < 0x80
  }

  predicate IsColumnWord(w: string) {
    forall k :: 0 <= k < |w| ==> IsWordByte(w[k])
  }

  /** The step for a finished word `w`, which has been cleared from the state. */
  function EndWord(v: Values, w: string): Option<Values>
    requires v.word == ""
  {
    match v.state
    case Head | Keyword =>
      if Upper(w) == "VALUES" then Some(v.(state := Tuple)) else None
    case Column =>
      if IsColumnWord(w) then Some(v.(state := ColumnSep)) else None
    case Literal =>
      if IsSign(w) then Some(v.(word := w))
      else if Upper(w) == "NULL" || IsNumber(w) then Some(v.(state := LiteralSep))
      else if Upper(w) == "X" then Some(v.(state := Introduced, quotedRadix := 'x'))
      else if Upper(w) == "B" then Some(v.(state := Introduced, quotedRadix := 'b'))
      else if Upper(w) == "N" || IsIntroducer(w) then Some(v.(state := Introduced))
      else None
    case _ => None
  }

  function Space(v: Values): Option<Values> {
    if v.radix != NUL then
      if v.digits then Some(v.(radix := NUL, digits := false, state := LiteralSep)) else None
    else if v.word == "" then Some(v)
    else EndWord(v.(word := ""), v.word)
  }

  function Punctuation(v: Values, b: char): Option<Values> {
    if b == '(' && v.state == Head then Some(v.(state := Column))
    else if b == '(' && v.state == Tuple then Some(v.(state := Literal))
    else if b == ',' && v.state == ColumnSep then Some(v.(state := Column))
    else if b == ')' && v.state == ColumnSep then Some(v.(state := Keyword))
    else if b == ',' && v.state == LiteralSep then Some(v.(state := Literal))
    else if b == ')' && v.state == LiteralSep then Some(v.(state := TupleSep))
    else if b == ',' && v.state == TupleSep then Some(v.(state := Tuple))
    else None
  }

  function AtomByte(v: Values, b: char): Option<Values> {
    if v.radix != NUL then
      if RadixDigit(b, v.radix) then Some(v.(digits := true)) else None
    else if v.state == Literal && v.word == "0" && (b == 'x' || b == 'b') then
      Some(v.(radix := b, word := ""))
    else if |v.word| >= MAX_WORD then None
    else Some(v.(word := v.word + [b]))
  }

  function CodeByte(v: Values, b: char): Option<Values> {
    if IsSpace(b) then Space(v)
    else if IsAtomByte(b) then AtomByte(v, b)
    else
      match Space(v)
      case None => None
      case Some(u) => Punctuation(u, b)
  }

  function StartQuote(v: Values, q: char): Option<Values> {
    match Space(v)
    case None => None
    case Some(u) =>
      if (u.state == Column && q == '`') || (u.state == Literal && (q == '\'' || q == '"')) ||
         (u.state == Introduced && (q == '\'' || q == '"') && (u.quotedRadix == NUL || q == '\''))
      then Some(u.(quote := q))
      else None
  }

  predicate AllRadix(bs: string, radix: char) {
    forall k :: 0 <= k < |bs| ==> RadixDigit(bs[k], radix)
  }

  function QuoteText(v: Values, bs: string): Option<Values> {
    if v.quotedRadix == NUL || AllRadix(bs, v.quotedRadix) then Some(v) else None
  }

  function EndQuote(v: Values): Option<Values> {
    if v.quote == NUL then None
    else Some(v.(state := if v.state == Column then ColumnSep else LiteralSep, quote := NUL, quotedRadix := NUL))
  }

  predicate End(v: Values) {
    match Space(v)
    case None => false
    case Some(u) => u.state == TupleSep && u.quote == NUL && u.word == ""
  }

  function CodeBytes(v: Values, bs: string): Option<Values>
    decreases |bs|
  {
    if bs == "" then Some(v)
    else
      match CodeByte(v, bs[0])
      case None => None
      case Some(u) => CodeBytes(u, bs[1..])
  }

  /** A whole token: a quoted string of kind ' " or `, or a word or punctuation byte. */
  function Token(v: Values, kind: char, text: string): Option<Values> {
    if kind == '\'' || kind == '"' || kind == '`' then
      match StartQuote(v, kind)
      case None => None
      case Some(u) =>
        match QuoteText(u, text)
        case None => None
        case Some(w) => EndQuote(w)
    else
      match CodeBytes(v, text)
      case None => None
      case Some(u) => Space(u)
  }

  /** Splitting quoted text between calls does not matter. */
  lemma QuoteTextSplits(v: Values, a: string, b: string)
    ensures QuoteText(v, a + b) == match QuoteText(v, a) case None => None case Some(u) => QuoteText(u, b)
  {
    if v.quotedRadix != NUL {
      if AllRadix(a, v.quotedRadix) && AllRadix(b, v.quotedRadix) {
        assert AllRadix(a + b, v.quotedRadix);
      } else if AllRadix(a + b, v.quotedRadix) {
        forall k | 0 <= k < |a| ensures RadixDigit(a[k], v.quotedRadix) {
          assert (a + b)[k] == a[k];
        }
        forall k | 0 <= k < |b| ensures RadixDigit(b[k], v.quotedRadix) {
          assert (a + b)[|a| + k] == b[k];
        }
      }
    }
  }

  /** At most 128 bytes are ever retained, whatever is fed. */
  predicate Bounded(v: Values) {
    |v.word| <= MAX_WORD
  }

  lemma StepsStayBounded(v: Values, b: char, bs: string)
    requires Bounded(v)
    ensures CodeByte(v, b).Some? ==> Bounded(CodeByte(v, b).value)
    ensures Space(v).Some? ==> Bounded(Space(v).value)
    ensures StartQuote(v, b).Some? ==> Bounded(StartQuote(v, b).value)
    ensures QuoteText(v, bs).Some? ==> Bounded(QuoteText(v, bs).value)
    ensures EndQuote(v).Some? ==> Bounded(EndQuote(v).value)
  {
  }

  /** The source's object. `ok == false` stands for literalError; a refused body is not fed
      any further, so the fields are then unspecified. */
  class DumpValues {
    var state: State
    var word: string
    var radix: char
    var digits: bool
    var quote: char
    var quotedRadix: char

    ghost function View(): Values
      reads this
    {
      Values(state, word, radix, digits, quote, quotedRadix)
    }

    constructor ()
      ensures View() == INIT
    {
      state, word, radix, digits, quote, quotedRadix := Head, "", NUL, false, NUL, NUL;
    }

    method Feed(kind: char, text: string) returns (ok: bool)
      modifies this
      ensures ok <==> Token(old(View()), kind, text).Some?
      ensures ok ==> View() == Token(old(View()), kind, text).value
    {
      if kind == '\'' || kind == '"' || kind == '`' {
        ok := Open(kind);
        if ok {
          ok := Text(text);
          if ok {
            ok := Close();
          }
        }
        return;
      }
      for i := 0 to |text|
        invariant CodeBytes(old(View()), text) == CodeBytes(View(), text[i..])
      {
        ok := Code(text[i]);
        if !ok {
          return;
        }
        assert text[i..][1..] == text[i + 1..];
      }
      ok := Gap();
    }

    method Code(b: char) returns (ok: bool)
      modifies this
      ensures ok <==> CodeByte(old(View()), b).Some?
      ensures ok ==> View() == CodeByte(old(View()), b).value
    {
      if IsSpace(b) {
        ok := Gap();
        return;
      }
      if IsWordByte(b) || b == '.' || b == '+' || b == '-' {
        if radix != NUL {
          if !RadixDigit(b, radix) {
            return false;
          }
          digits := true;
          return true;
        }
        if state == Literal && |word| == 1 && word[0] == '0' && (b == 'x' || b == 'b') {
          radix, word := b, "";
          return true;
        }
        if |word| >= MAX_WORD {
          return false;
        }
        word := word + [b];
        return true;
      }
      ok := Gap();
      if !ok {
        return;
      }
      if b == '(' && state == Head {
        state := Column;
      } else if b == '(' && state == Tuple {
        state := Literal;
      } else if b == ',' && state == ColumnSep {
        state := Column;
      } else if b == ')' && state == ColumnSep {
        state := Keyword;
      } else if b == ',' && state == LiteralSep {
        state := Literal;
      } else if b == ')' && state == LiteralSep {
        state := TupleSep;
      } else if b == ',' && state == TupleSep {
        state := Tuple;
      } else {
        ok := false;
      }
    }

    method Gap() returns (ok: bool)
      modifies this
      ensures ok <==> Space(old(View())).Some?
      ensures ok ==> View() == Space(old(View())).value
    {
      if radix != NUL {
        if !digits {
          return false;
        }
        radix, digits, state := NUL, false, LiteralSep;
        return true;
      }
      if |word| == 0 {
        return true;
      }
      var w := word;
      word := "";
      match state {
        case Head | Keyword =>
          if Upper(w) != "VALUES" {
            return false;
          }
          state := Tuple;
        case Column =>
          if !IsColumnWord(w) {
            return false;
          }
          state := ColumnSep;
        case Literal =>
          if IsSign(w) {
            word := w;
          } else if Upper(w) == "NULL" || IsNumber(w) {
            state := LiteralSep;
          } else if Upper(w) == "X" || Upper(w) == "B" || Upper(w) == "N" {
            state := Introduced;
            if Upper(w) == "X" {
              quotedRadix := 'x';
            }
            if Upper(w) == "B" {
              quotedRadix := 'b';
            }
          } else if IsIntroducer(w) {
            state := Introduced;
          } else {
            return false;
          }
        case _ =>
          return false;
      }
      ok := true;
    }

    method Open(q: char) returns (ok: bool)
      modifies this
      ensures ok <==> StartQuote(old(View()), q).Some?
      ensures ok ==> View() == StartQuote(old(View()), q).value
    {
      ok := Gap();
      if !ok {
        return;
      }
      if state == Column && q == '`' {
      } else if state == Literal && (q == '\'' || q == '"') {
      } else if state == Introduced && (q == '\'' || q == '"') && (quotedRadix == NUL || q == '\'') {
      } else {
        return false;
      }
      quote := q;
    }

    method Text(bs: string) returns (ok: bool)
      ensures ok <==> QuoteText(View(), bs).Some?
    {
      if quotedRadix != NUL {
        for i := 0 to |bs|
          invariant AllRadix(bs[..i], quotedRadix)
        {
          if !RadixDigit(bs[i], quotedRadix) {
            return false;
          }
          assert bs[..i + 1] == bs[..i] + [bs[i]];
        }
        assert bs[..|bs|] == bs;
      }
      ok := true;
    }

    method Close() returns (ok: bool)
      modifies this
      ensures ok <==> EndQuote(old(View())).Some?
      ensures ok ==> View() == EndQuote(old(View())).value
    {
      if quote == NUL {
        return false;
      }
      state := if state == Column then ColumnSep else LiteralSep;
      quote, quotedRadix := NUL, NUL;
      ok := true;
    }

    method Finish() returns (ok: bool)
      modifies this
      ensures ok <==> End(old(View()))
    {
      ok := Gap();
      ok := ok && state == TupleSep && quote == NUL && |word| == 0;
    }
  }
}
