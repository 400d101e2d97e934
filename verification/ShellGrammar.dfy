/** The lines shellWords of internal/cmd/raw_guard.go takes, as a grammar of what may be written, apart from
    any reading of it byte by byte. */
module ShellGrammar {
  import Text
  import opened ShellWords

  /** A part of a double-quoted text. */
  datatype Part = Raw(c: char) | Escape(c: char)

  datatype Piece =
    | Space(c: char)
    | Byte(c: char)
    | Backslash(c: char)
    | Quotes(text: string)
    | DoubleQuotes(parts: seq<Part>)

  function SpellPart(p: Part): (s: string)
    ensures s != ""
  {
    match p
    case Raw(c) => [c]
    case Escape(c) => ['\\', c]
  }

  function SpellParts(parts: seq<Part>): string {
    if parts == [] then "" else SpellPart(parts[0]) + SpellParts(parts[1..])
  }

  function TextOf(parts: seq<Part>): string {
    if parts == [] then "" else [parts[0].c] + TextOf(parts[1..])
  }

  function Spell(p: Piece): (s: string)
    ensures s != ""
  {
    match p
    case Space(c) => [c]
    case Byte(c) => [c]
    case Backslash(c) => ['\\', c]
    case Quotes(text) => "'" + text + "'"
    case DoubleQuotes(parts) => "\"" + SpellParts(parts) + "\""
  }

  function SpellAll(ps: seq<Piece>): string {
    if ps == [] then "" else SpellAll(ps[..|ps| - 1]) + Spell(ps[|ps| - 1])
  }

  /** Between double quotes only these are escaped; a backslash before anything else stands for itself, and
      nothing expands. */
  predicate PartsOk(parts: seq<Part>) {
    parts == [] ||
    (match parts[0]
     case Escape(c) => c in "$`\"\\" && PartsOk(parts[1..])
     case Raw(c) =>
       && c !in "$`\"" && PartsOk(parts[1..])
       && (c == '\\' ==> parts[1..] != [] && SpellPart(parts[1])[0] !in "$`\"\\\n"))
  }

  /** A piece between the blanks and quotes of a line. */
  predicate PieceOk(p: Piece) {
    match p
    case Space(c) => c in " \t"
    case Byte(c) => c !in " \t'\"\\" && c !in ";&|<>()$`{}\n" && c !in "*?["
    case Backslash(c) => c != '\n'
    case Quotes(text) => '\'' !in text
    case DoubleQuotes(parts) => PartsOk(parts)
  }

  /** `#` starts no word, and `~` none, nor stands behind `=` or `:`. */
  predicate FitsAfter(front: seq<Piece>, p: Piece) {
    p in {Byte('#'), Byte('~')} ==>
      && front != [] && !front[|front| - 1].Space?
      && (p == Byte('~') ==> var before := Spell(front[|front| - 1]); before[|before| - 1] !in "=:")
  }

  predicate WellFormed(ps: seq<Piece>) {
    ps == [] || (WellFormed(ps[..|ps| - 1]) && PieceOk(ps[|ps| - 1]) && FitsAfter(ps[..|ps| - 1], ps[|ps| - 1]))
  }

  function Value(p: Piece): string
    requires !p.Space?
  {
    match p
    case Byte(c) => [c]
    case Backslash(c) => [c]
    case Quotes(text) => text
    case DoubleQuotes(parts) => TextOf(parts)
  }

  /** The words that ended, and the one being written. */
  datatype Reading = Reading(words: seq<string>, cur: Text.Option<string>)

  function Meaning(ps: seq<Piece>): Reading {
    if ps == [] then Reading([], Text.None)
    else
      var (r, p) := (Meaning(ps[..|ps| - 1]), ps[|ps| - 1]);
      if p.Space? then Reading(if r.cur.Some? then r.words + [r.cur.value] else r.words, Text.None)
      else Reading(r.words, Text.Some((if r.cur.Some? then r.cur.value else "") + Value(p)))
  }

  function WordsOf(ps: seq<Piece>): seq<string> {
    var r := Meaning(ps);
    if r.cur.Some? then r.words + [r.cur.value] else r.words
  }

  // ------------------------------------------- what is written is read

  /** What the shell's reading holds at `i` is what is written up to there. */
  ghost predicate ReadTo(line: string, i: nat, r: Reading, a: nat)
    requires i <= |line|
  {
    StateAt(line, i).Plain? && NoneActive(line, i)
    && Split(line, i, r.words, r.cur.Some?, a, if r.cur.Some? then r.cur.value else "")
  }

  function Read(r: Reading, text: string): Reading {
    r.(cur := Text.Some((if r.cur.Some? then r.cur.value else "") + text))
  }

  lemma {:induction false} PartsAreRead(line: string, i: nat, parts: seq<Part>, words: seq<string>, a: nat, cur: string)
    requires PartsOk(parts) && i + |SpellParts(parts)| < |line| && line[i..i + |SpellParts(parts)|] == SpellParts(parts)
    requires line[i + |SpellParts(parts)|] == '"'
    requires StateAt(line, i).Double? && NoneActive(line, i) && Split(line, i, words, true, a, cur)
    ensures var j := i + |SpellParts(parts)|;
            StateAt(line, j).Double? && NoneActive(line, j) && Split(line, j, words, true, a, cur + TextOf(parts))
    decreases |parts|
  {
    hide Split, StateAt, NoneActive, SpellPart;
    if parts == [] {
      assert cur + "" == cur;
    } else {
      var (p, rest) := (parts[0], parts[1..]);
      var head := SpellPart(p);
      var k := i + |head|;
      SplitsAt(line, i, head, SpellParts(rest));
      NextByte(line, k, rest);
      HeadIsOk(parts, line[k]);
      HeadLength(p);
      PartIsRead(line, i, p, words, a, cur);
      hide PartsOk;
      RestIsOk(parts);
      PartsAreRead(line, k, rest, words, a, cur + [p.c]);
      assert cur + [p.c] + TextOf(rest) == cur + TextOf(parts);
    }
  }

  lemma SplitsAt(line: string, i: nat, a: string, b: string)
    requires i + |a + b| <= |line| && line[i..i + |a + b|] == a + b
    ensures line[i..i + |a|] == a && line[i + |a|..i + |a| + |b|] == b
  {
    assert line[i..i + |a|] == line[i..i + |a + b|][..|a|];
    assert line[i + |a|..i + |a| + |b|] == line[i..i + |a + b|][|a|..];
  }

  /** A part that may stand before the byte. */
  predicate PartOk(p: Part, next: char) {
    match p
    case Escape(c) => c in "$`\"\\"
    case Raw(c) => c !in "$`\"" && (c == '\\' ==> next !in "$`\"\\\n")
  }

  lemma HeadIsOk(parts: seq<Part>, next: char)
    requires PartsOk(parts) && parts != [] && next == if parts[1..] == [] then '"' else SpellPart(parts[1])[0]
    ensures PartOk(parts[0], next)
  {
  }

  lemma RestIsOk(parts: seq<Part>)
    requires PartsOk(parts) && parts != []
    ensures PartsOk(parts[1..])
  {
  }

  lemma HeadLength(p: Part)
    ensures |SpellPart(p)| == if p.Raw? then 1 else 2
  {
  }

  /** The byte after a part is the first of the next, or the closing quote. */
  lemma NextByte(line: string, k: nat, rest: seq<Part>)
    requires k + |SpellParts(rest)| < |line| && line[k..k + |SpellParts(rest)|] == SpellParts(rest)
    requires line[k + |SpellParts(rest)|] == '"'
    ensures line[k] == if rest == [] then '"' else SpellPart(rest[0])[0]
  {
    if rest != [] {
      assert line[k] == line[k..k + |SpellParts(rest)|][0];
    }
  }

  lemma PartIsRead(line: string, i: nat, p: Part, words: seq<string>, a: nat, cur: string)
    requires i + |SpellPart(p)| < |line| && line[i..i + |SpellPart(p)|] == SpellPart(p)
    requires PartOk(p, line[i + |SpellPart(p)|])
    requires StateAt(line, i).Double? && NoneActive(line, i) && Split(line, i, words, true, a, cur)
    ensures var k := i + |SpellPart(p)|;
            StateAt(line, k).Double? && NoneActive(line, k) && Split(line, k, words, true, a, cur + [p.c])
  {
    hide Split;
    assert line[i] == line[i..i + |SpellPart(p)|][0];
    ReadsByte(line, i, words, true, a, cur);
    if p.Escape? {
      assert line[i + 1] == line[i..i + |SpellPart(p)|][1];
      assert StateAt(line, i + 1).DoubleEscaped? && MarkAt(line, i) == Quoting && MarkAt(line, i + 1) == Kept;
      assert cur + "" == cur;
      ReadsByte(line, i + 1, words, true, a, cur);
    }
  }

  lemma Enclosed(line: string, i: nat, q: char, text: string)
    requires i + |text| + 2 <= |line| && line[i..i + |text| + 2] == [q] + text + [q]
    ensures line[i] == q && line[i + 1..i + 1 + |text|] == text && line[i + 1 + |text|] == q
  {
    var n := |text|;
    assert [q] + text + [q] == [q] + (text + [q]);
    SplitsAt(line, i, [q], text + [q]);
    SplitsAt(line, i + 1, text, [q]);
    assert line[i] == line[i..i + 1][0] && line[i + 1 + n] == line[i + 1 + n..i + 2 + n][0];
  }

  lemma QuotesAreRead(line: string, i: nat, text: string, r: Reading, a: nat) returns (b: nat)
    requires '\'' !in text && i + |text| + 2 <= |line| && line[i..i + |text| + 2] == "'" + text + "'"
    requires ReadTo(line, i, r, a)
    ensures ReadTo(line, i + |text| + 2, Read(r, text), b)
  {
    hide IsSyntax, IsGlob, StartsWord, EscapesInDouble, FieldEnd, Fields, Split, Unquote, Words;
    var (e, cur, inWord) := (i + 1 + |text|, if r.cur.Some? then r.cur.value else "", r.cur.Some?);
    Enclosed(line, i, '\'', text);
    forall k | i + 1 <= k < e ensures line[k] != '\'' {
      assert line[k] == line[i + 1..e][k - i - 1];
    }
    ReadsByte(line, i, r.words, inWord, a, cur);
    b := if inWord then a else i;
    SingleQuoted(line, i + 1, e);
    assert cur + "" == cur;
    ReadsRun(line, i + 1, e, r.words, b, cur);
    ReadsByte(line, e, r.words, true, b, cur + text);
    assert cur + text + "" == cur + text;
  }

  lemma DoubleQuotesAreRead(line: string, i: nat, parts: seq<Part>, r: Reading, a: nat) returns (b: nat)
    requires PartsOk(parts) && i + |SpellParts(parts)| + 2 <= |line|
    requires line[i..i + |SpellParts(parts)| + 2] == "\"" + SpellParts(parts) + "\""
    requires ReadTo(line, i, r, a)
    ensures ReadTo(line, i + |SpellParts(parts)| + 2, Read(r, TextOf(parts)), b)
  {
    hide IsSyntax, IsGlob, StartsWord, FieldEnd, Fields, Split, Unquote, Words, PartsOk, TextOf, SpellParts;
    var text := SpellParts(parts);
    var (e, cur, inWord) := (i + 1 + |text|, if r.cur.Some? then r.cur.value else "", r.cur.Some?);
    Enclosed(line, i, '"', text);
    ReadsByte(line, i, r.words, inWord, a, cur);
    b := if inWord then a else i;
    assert cur + "" == cur;
    PartsAreRead(line, i + 1, parts, r.words, b, cur);
    ReadsByte(line, e, r.words, true, b, cur + TextOf(parts));
    assert cur + TextOf(parts) + "" == cur + TextOf(parts);
  }

  lemma BackslashIsRead(line: string, i: nat, c: char, r: Reading, a: nat) returns (b: nat)
    requires c != '\n' && i + 2 <= |line| && line[i..i + 2] == ['\\', c] && ReadTo(line, i, r, a)
    ensures ReadTo(line, i + 2, Read(r, [c]), b)
  {
    hide IsSyntax, IsGlob, StartsWord, EscapesInDouble, FieldEnd, Fields, Split, Unquote, Words;
    var (cur, inWord) := (if r.cur.Some? then r.cur.value else "", r.cur.Some?);
    assert line[i] == line[i..i + 2][0] && line[i + 1] == line[i..i + 2][1];
    ReadsByte(line, i, r.words, inWord, a, cur);
    b := if inWord then a else i;
    assert cur + "" == cur;
    ReadsByte(line, i + 1, r.words, true, b, cur);
  }

  lemma ByteIsRead(line: string, i: nat, r: Reading, a: nat) returns (b: nat)
    requires i < |line| && ReadTo(line, i, r, a) && PieceOk(Byte(line[i]))
    requires line[i] == '#' ==> r.cur.Some?
    requires line[i] == '~' ==> r.cur.Some? && i > 0 && line[i - 1] !in "=:"
    ensures ReadTo(line, i + 1, Read(r, [line[i]]), b)
  {
    hide StartsWord, EscapesInDouble, FieldEnd, Fields, Split, Unquote, Words;
    var (cur, inWord) := (if r.cur.Some? then r.cur.value else "", r.cur.Some?);
    WordStarts(line, i, r.words, inWord, a, cur);
    assert MarkAt(line, i) == Kept;
    ReadsByte(line, i, r.words, inWord, a, cur);
    b := if inWord then a else i;
  }

  lemma SpaceIsRead(line: string, i: nat, r: Reading, a: nat)
    requires i < |line| && ReadTo(line, i, r, a) && PieceOk(Space(line[i]))
    ensures ReadTo(line, i + 1, Reading(if r.cur.Some? then r.words + [r.cur.value] else r.words, Text.None), a)
  {
    hide IsSyntax, IsGlob, StartsWord, EscapesInDouble, FieldEnd, Fields, Split, Unquote, Words;
    var (cur, inWord) := (if r.cur.Some? then r.cur.value else "", r.cur.Some?);
    BlankByte(line, i, r.words, inWord, a, cur);
  }

  function After(r: Reading, p: Piece): Reading {
    if p.Space? then Reading(if r.cur.Some? then r.words + [r.cur.value] else r.words, Text.None) else Read(r, Value(p))
  }

  /** `line[i - 1]` is the last byte of the piece before. */
  lemma PieceIsRead(line: string, i: nat, front: seq<Piece>, p: Piece, a: nat) returns (b: nat)
    requires PieceOk(p) && FitsAfter(front, p) && i + |Spell(p)| <= |line| && SpellAll(front) == line[..i]
    requires line[i..i + |Spell(p)|] == Spell(p) && ReadTo(line, i, Meaning(front), a)
    ensures ReadTo(line, i + |Spell(p)|, After(Meaning(front), p), b)
  {
    hide ReadTo, FitsAfter, SpellAll, Meaning;
    var (r, n) := (Meaning(front), |Spell(p)|);
    match p {
      case Space(c) =>
        assert line[i] == line[i..i + n][0];
        SpaceIsRead(line, i, r, a);
        b := a;
      case Byte(c) =>
        assert line[i] == line[i..i + n][0];
        FittingIsInWord(line, i, front, p);
        b := ByteIsRead(line, i, r, a);
      case Backslash(c) =>
        b := BackslashIsRead(line, i, c, r, a);
      case Quotes(text) =>
        b := QuotesAreRead(line, i, text, r, a);
      case DoubleQuotes(parts) =>
        b := DoubleQuotesAreRead(line, i, parts, r, a);
    }
  }

  lemma LastByte(line: string, i: nat, front: seq<Piece>)
    requires i <= |line| && SpellAll(front) == line[..i] && front != []
    ensures i > 0 && (var before := Spell(front[|front| - 1]); line[i - 1] == before[|before| - 1])
    ensures !front[|front| - 1].Space? <==> Meaning(front).cur.Some?
  {
    hide Spell;
    var before := Spell(front[|front| - 1]);
    assert line[i - 1] == line[..i][i - 1];
    assert SpellAll(front) == SpellAll(front[..|front| - 1]) + before;
  }

  lemma FittingIsInWord(line: string, i: nat, front: seq<Piece>, p: Piece)
    requires i <= |line| && SpellAll(front) == line[..i] && FitsAfter(front, p)
    ensures p == Byte('#') || p == Byte('~') ==> Meaning(front).cur.Some?
    ensures p == Byte('~') ==> i > 0 && line[i - 1] !in "=:"
  {
    if p == Byte('#') || p == Byte('~') {
      LastByte(line, i, front);
    }
  }

  lemma {:induction false} PiecesAreRead(line: string, ps: seq<Piece>) returns (a: nat)
    requires WellFormed(ps) && SpellAll(ps) <= line
    ensures ReadTo(line, |SpellAll(ps)|, Meaning(ps), a)
    decreases |ps|
  {
    hide PieceOk, FitsAfter, Spell, ReadTo;
    if ps == [] {
      a := 0;
      StartsRead(line);
    } else {
      var (front, p) := (ps[..|ps| - 1], ps[|ps| - 1]);
      var i := |SpellAll(front)|;
      assert SpellAll(ps) == SpellAll(front) + Spell(p);
      assert line[..i] == line[..|SpellAll(ps)|][..i] == SpellAll(front);
      assert line[i..i + |Spell(p)|] == line[..|SpellAll(ps)|][i..] == Spell(p);
      var b := PiecesAreRead(line, front);
      a := PieceIsRead(line, i, front, p, b);
    }
  }

  lemma StartsRead(line: string)
    ensures ReadTo(line, 0, Reading([], Text.None), 0)
  {
    Starts(line);
  }

  lemma WholeIsRead(ps: seq<Piece>)
    requires WellFormed(ps)
    ensures Words(SpellAll(ps)) == Text.Some(WordsOf(ps))
  {
    hide Split, WellFormed, Words;
    var line := SpellAll(ps);
    var a := PiecesAreRead(line, ps);
    var r := Meaning(ps);
    AtEnd(line, r.words, r.cur.Some?, a, if r.cur.Some? then r.cur.value else "");
  }

  // ------------------------------------------ what is read was written

  lemma NotActive(line: string, i: nat)
    requires IsLiteral(line) && i < |line|
    ensures MarkAt(line, i) != Active
  {
  }

  /** A part of a double-quoted text that does not end there. */
  lemma FindPart(line: string, k: nat) returns (p: Part)
    requires k + 1 < |line| && StateAt(line, k).Double? && MarkAt(line, k) != Active && line[k] != '"'
    ensures k + |SpellPart(p)| <= |line| && line[k..k + |SpellPart(p)|] == SpellPart(p)
    ensures StateAt(line, k + |SpellPart(p)|).Double?
    ensures k + |SpellPart(p)| < |line| ==> PartOk(p, line[k + |SpellPart(p)|])
  {
    hide IsSyntax, IsGlob, StartsWord;
    var c := line[k];
    assert line[k..k + 1] == [c] && line[k..k + 2] == [c, line[k + 1]];
    if c == '\\' && EscapesInDouble(line[k + 1]) {
      assert StateAt(line, k + 1).DoubleEscaped?;
      p := Escape(line[k + 1]);
    } else {
      p := Raw(c);
    }
  }

  lemma {:induction false} FindParts(line: string, k: nat) returns (parts: seq<Part>)
    requires IsLiteral(line) && k <= |line| && StateAt(line, k).Double?
    ensures PartsOk(parts)
    ensures var e := k + |SpellParts(parts)|;
            e < |line| && line[k..e] == SpellParts(parts) && line[e] == '"' && StateAt(line, e).Double?
    decreases |line| - k
  {
    EndsPlain(line);
    NotActive(line, k);
    hide IsLiteral, MarkAt;
    if line[k] == '"' {
      parts := [];
    } else {
      LastIsQuote(line, k);
      hide StateAt, PartOk, PartsOk, SpellPart, SpellParts;
      var p := FindPart(line, k);
      var n := |SpellPart(p)|;
      var rest := FindParts(line, k + n);
      MoreParts(line, k, p, rest);
      parts := [p] + rest;
    }
  }

  /** A part in front of parts that end at a quote. */
  lemma MoreParts(line: string, k: nat, p: Part, rest: seq<Part>)
    requires PartsOk(rest) && k + |SpellPart(p)| < |line| && line[k..k + |SpellPart(p)|] == SpellPart(p)
    requires PartOk(p, line[k + |SpellPart(p)|])
    requires var (j, e) := (k + |SpellPart(p)|, k + |SpellPart(p)| + |SpellParts(rest)|);
             e < |line| && line[j..e] == SpellParts(rest) && line[e] == '"'
    ensures PartsOk([p] + rest) && SpellParts([p] + rest) == line[k..k + |SpellPart(p)| + |SpellParts(rest)|]
  {
    var n := |SpellPart(p)|;
    NextByte(line, k + n, rest);
    MorePartsOk(p, rest, line[k + n]);
    hide SpellPart, PartsOk, PartOk;
    SlicesJoin(line, k, k + n, k + n + |SpellParts(rest)|);
    assert ([p] + rest)[1..] == rest;
  }

  lemma SlicesJoin(line: string, i: nat, j: nat, k: nat)
    requires i <= j <= k <= |line|
    ensures line[i..k] == line[i..j] + line[j..k]
  {
  }

  /** The last byte closes the quotes open before it. */
  lemma LastIsQuote(line: string, k: nat)
    requires k < |line| && StateAt(line, k).Double? && StateAt(line, |line|).Plain? && line[k] != '"'
    ensures k + 1 < |line|
  {
  }

  lemma MorePartsOk(p: Part, rest: seq<Part>, next: char)
    requires PartsOk(rest) && PartOk(p, next) && next == if rest == [] then '"' else SpellPart(rest[0])[0]
    ensures PartsOk([p] + rest)
  {
    assert ([p] + rest)[1..] == rest;
  }

  lemma EndsPlain(line: string)
    requires IsLiteral(line)
    ensures StateAt(line, |line|).Plain?
  {
  }

  /** The end of the single quotes that were opened before `k`. */
  lemma {:induction false} FindQuote(line: string, k: nat) returns (e: nat)
    requires IsLiteral(line) && k <= |line| && StateAt(line, k).Single?
    ensures k <= e < |line| && line[e] == '\'' && '\'' !in line[k..e] && StateAt(line, e).Single?
    decreases |line| - k
  {
    EndsPlain(line);
    hide IsLiteral;
    if line[k] == '\'' {
      e := k;
    } else {
      e := FindQuote(line, k + 1);
      hide StateAt;
      assert line[k..e] == [line[k]] + line[k + 1..e];
    }
  }

  lemma FindQuotes(line: string, i: nat) returns (p: Piece)
    requires IsLiteral(line) && i < |line| && StateAt(line, i).Plain? && line[i] == '\''
    ensures p.Quotes? && PieceOk(p) && i + |Spell(p)| <= |line| && line[i..i + |Spell(p)|] == Spell(p)
    ensures StateAt(line, i + |Spell(p)|).Plain?
  {
    hide IsLiteral;
    var e := FindQuote(line, i + 1);
    p := Quotes(line[i + 1..e]);
    assert StateAt(line, e + 1).Plain?;
    hide StateAt;
    assert line[i..e + 1] == "'" + line[i + 1..e] + "'";
  }

  lemma FindDoubleQuotes(line: string, i: nat) returns (p: Piece)
    requires IsLiteral(line) && i < |line| && StateAt(line, i).Plain? && line[i] == '"'
    ensures p.DoubleQuotes? && PieceOk(p) && i + |Spell(p)| <= |line| && line[i..i + |Spell(p)|] == Spell(p)
    ensures StateAt(line, i + |Spell(p)|).Plain?
  {
    hide IsLiteral, PartsOk, SpellParts;
    var parts := FindParts(line, i + 1);
    var e := i + 1 + |SpellParts(parts)|;
    p := DoubleQuotes(parts);
    assert StateAt(line, e + 1).Plain?;
    hide StateAt;
    assert line[i..e + 1] == "\"" + line[i + 1..e] + "\"";
  }

  lemma FindBackslash(line: string, i: nat) returns (p: Piece)
    requires IsLiteral(line) && i < |line| && StateAt(line, i).Plain? && line[i] == '\\'
    ensures p.Backslash? && PieceOk(p) && i + |Spell(p)| <= |line| && line[i..i + |Spell(p)|] == Spell(p)
    ensures StateAt(line, i + |Spell(p)|).Plain?
  {
    EndsPlain(line);
    hide IsSyntax, IsGlob, StartsWord, EscapesInDouble;
    assert StateAt(line, i + 1).Escaped?;
    NotActive(line, i + 1);
    p := Backslash(line[i + 1]);
    assert line[i..i + 2] == ['\\', line[i + 1]];
  }

  lemma FindByte(line: string, i: nat) returns (p: Piece)
    requires i < |line| && StateAt(line, i).Plain? && MarkAt(line, i) != Active && line[i] !in "'\"\\"
    ensures (p == Byte(line[i]) || p.Space?) && PieceOk(p) && |Spell(p)| == 1 && line[i..i + 1] == Spell(p) && StateAt(line, i + 1).Plain?
  {
    hide StartsWord, EscapesInDouble;
    p := if IsBlank(line[i]) then Space(line[i]) else Byte(line[i]);
  }

  lemma FindPiece(line: string, i: nat) returns (p: Piece)
    requires IsLiteral(line) && i < |line| && StateAt(line, i).Plain?
    ensures PieceOk(p) && i + |Spell(p)| <= |line| && line[i..i + |Spell(p)|] == Spell(p)
    ensures StateAt(line, i + |Spell(p)|).Plain? && (p.Byte? ==> p == Byte(line[i]))
  {
    NotActive(line, i);
    hide IsLiteral, StateAt, MarkAt, PieceOk, Spell;
    var c := line[i];
    if c == '\'' {
      p := FindQuotes(line, i);
    } else if c == '"' {
      p := FindDoubleQuotes(line, i);
    } else if c == '\\' {
      p := FindBackslash(line, i);
    } else {
      p := FindByte(line, i);
    }
  }

  /** A byte that is not active fits where it stands. */
  lemma ItFits(line: string, i: nat, ps: seq<Piece>, p: Piece)
    requires WellFormed(ps) && i < |line| && SpellAll(ps) == line[..i] && StateAt(line, i).Plain? && MarkAt(line, i) != Active
    requires p.Byte? ==> p == Byte(line[i])
    ensures FitsAfter(ps, p)
  {
    var a := PiecesAreRead(line, ps);
    var r := Meaning(ps);
    WordStarts(line, i, r.words, r.cur.Some?, a, if r.cur.Some? then r.cur.value else "");
    assert p == Byte('#') || p == Byte('~') ==> !StartsWord(line, i) && (p == Byte('~') ==> line[i - 1] !in "=:");
    hide StateAt, MarkAt, WellFormed, SpellAll, StartsWord, Split;
    if ps != [] {
      LastByte(line, i, ps);
    }
  }

  lemma {:induction false} Write(line: string, i: nat, ps: seq<Piece>) returns (qs: seq<Piece>)
    requires IsLiteral(line) && i <= |line| && StateAt(line, i).Plain? && WellFormed(ps) && SpellAll(ps) == line[..i]
    ensures WellFormed(qs) && SpellAll(qs) == line
    decreases |line| - i
  {
    hide IsLiteral, StateAt, MarkAt, PieceOk, FitsAfter, Spell;
    if i == |line| {
      qs := ps;
    } else {
      var p := FindPiece(line, i);
      NotActive(line, i);
      ItFits(line, i, ps, p);
      var (more, j) := (ps + [p], i + |Spell(p)|);
      assert more[..|more| - 1] == ps;
      assert line[..j] == line[..i] + line[i..j];
      qs := Write(line, j, more);
    }
  }

  /** Main result: the splitter returns words exactly for the lines of the grammar, and they are the words
      the line writes. */
  lemma WordsAreWritten(line: string, words: seq<string>)
    ensures Words(line) == Text.Some(words) <==> exists ps: seq<Piece> :: WellFormed(ps) && SpellAll(ps) == line && WordsOf(ps) == words
  {
    hide WellFormed, SpellAll, WordsOf;
    if Words(line) == Text.Some(words) {
      WrittenNothing();
      assert line[..0] == "";
      assert StateAt(line, 0).Plain?;
      var ps := Write(line, 0, []);
      WholeIsRead(ps);
    }
    if ps: seq<Piece> :| WellFormed(ps) && SpellAll(ps) == line && WordsOf(ps) == words {
      WholeIsRead(ps);
    }
  }

  lemma WrittenNothing()
    ensures WellFormed([]) && SpellAll([]) == ""
  {
  }
}
