/** The body of an INSERT, byte for byte: what may be a column, a literal and the keyword. */
module LiteralSyntax {
  import opened Text
  import V = ValuesAutomaton
  import VG = ValuesGrammar
  import N = NumberSyntax
  import M = ReadingModes
  import opened LineStarts

  const LONGEST_WORD := 128

  predicate IsNameByte(c: char) {
    'a' <= c <= 'z' || 'A' <= c <= 'Z' || '0' <= c <= '9' || c == '_' || c == '$' || c as int >= 0x80
  }

  predicate IsHex(s: string) {
    forall k :: 0 <= k < |s| ==> '0' <= s[k] <= '9' || 'a' <= s[k] <= 'f' || 'A' <= s[k] <= 'F'
  }

  predicate IsBinary(s: string) {
    forall k :: 0 <= k < |s| ==> s[k] == '0' || s[k] == '1'
  }

  ghost predicate IsNumeral(w: string) {
    exists p: N.Parts :: p.Valid() && w == p.Text()
  }

  /** `_name` before a string in the character set `name`. */
  predicate NamesCharset(w: string) {
    |w| > 1 && w[0] == '_' && !M.HidesBackslash(w[1..]) && forall k :: 1 <= k < |w| ==> IsNameByte(w[k]) && w[k] as int < 0x80
  }

  /** NULL, a number, digits behind 0x or 0b, or a string, perhaps behind X, B, N or a character set. */
  ghost predicate IsLiteral(l: VG.Literal) {
    match l
    case Plain(w) => |w| <= LONGEST_WORD && (Spells(w, "NULL") || IsNumeral(w))
    case Signed(s, w) => (s == "+" || s == "-") && 0 < |w| < LONGEST_WORD && IsNumeral(s + w)
    case Based(w) => |w| > 2 && w[0] == '0' && ((w[1] == 'x' && IsHex(w[2..])) || (w[1] == 'b' && IsBinary(w[2..])))
    case Marked(w, q, text) =>
      && |w| <= LONGEST_WORD
      && ((Spells(w, "X") && q == '\'' && IsHex(text)) ||
          (Spells(w, "B") && q == '\'' && IsBinary(text)) ||
          ((Spells(w, "N") || NamesCharset(w)) && (q == '\'' || q == '"')))
    case Str(q, _) => q == '\'' || q == '"'
  }

  /** A word, or anything in backticks. */
  predicate IsColumn(n: VG.Name) {
    n.Ticked? || (0 < |n.w| <= LONGEST_WORD && forall k :: 0 <= k < |n.w| ==> IsNameByte(n.w[k]))
  }

  ghost predicate IsInsert(ins: VG.Insert) {
    && Spells(ins.keyword, "VALUES") && (forall k :: 0 <= k < |ins.columns| ==> IsColumn(ins.columns[k]))
    && ins.tuples != []
    && (forall k :: 0 <= k < |ins.tuples| ==> ins.tuples[k] != [])
    && (forall k, i :: 0 <= k < |ins.tuples| && 0 <= i < |ins.tuples[k]| ==> IsLiteral(ins.tuples[k][i]))
  }

  lemma RadixIs(s: string)
    ensures V.AllRadix(s, 'x') <==> IsHex(s)
    ensures V.AllRadix(s, 'b') <==> IsBinary(s)
  {
  }

  lemma IntroducerIs(w: string)
    ensures V.IsIntroducer(w) <==> NamesCharset(w)
  {
    if |w| > 1 {
      M.UnsafeCharsetIs(w[1..]);
    }
    hide V.UnsafeCharset, M.HidesBackslash;
  }

  lemma OneLetter(w: string)
    ensures Spells(w, "X") || Spells(w, "B") || Spells(w, "N") ==> !NamesCharset(w)
    ensures Spells(w, "X") ==> !Spells(w, "B") && !Spells(w, "N")
    ensures Spells(w, "B") ==> !Spells(w, "N")
  {
    hide M.HidesBackslash;
    if |w| == 1 {
      assert Spells(w, "X") <==> UpperChar(w[0]) == 'X';
      assert Spells(w, "B") <==> UpperChar(w[0]) == 'B';
      assert Spells(w, "N") <==> UpperChar(w[0]) == 'N';
    }
  }

  lemma LiteralIs(l: VG.Literal)
    ensures VG.ValidLiteral(l) <==> IsLiteral(l)
  {
    hide V.IsNumber, V.IsIntroducer, NamesCharset, V.AllRadix, IsHex, IsBinary, Upper, Spells;
    match l
    case Plain(w) =>
      SpellsUpper(w, "NULL");
      N.NumberIsItsParts(w);
    case Signed(s, w) =>
      N.NumberIsItsParts(s + w);
    case Based(w) =>
      if |w| > 2 {
        RadixIs(w[2..]);
      }
    case Marked(w, q, text) =>
      RadixIs(text);
      IntroducerIs(w);
      OneLetter(w);
      SpellsUpper(w, "X");
      SpellsUpper(w, "B");
      SpellsUpper(w, "N");
    case Str(_, _) =>
  }

  lemma ColumnIs(n: VG.Name)
    ensures VG.ValidName(n) <==> IsColumn(n)
  {
  }

  /** The grammar of bodies is this one. */
  lemma InsertIs(ins: VG.Insert)
    ensures VG.ValidInsert(ins) <==> IsInsert(ins)
  {
    SpellsUpper(ins.keyword, "VALUES");
    forall k | 0 <= k < |ins.columns| ensures VG.ValidName(ins.columns[k]) <==> IsColumn(ins.columns[k]) {
      ColumnIs(ins.columns[k]);
    }
    forall k, i | 0 <= k < |ins.tuples| && 0 <= i < |ins.tuples[k]|
      ensures VG.ValidLiteral(ins.tuples[k][i]) <==> IsLiteral(ins.tuples[k][i])
    {
      LiteralIs(ins.tuples[k][i]);
    }
    hide VG.ValidLiteral, IsLiteral, VG.ValidName, IsColumn, Upper, Spells;
    if VG.ValidInsert(ins) {
      forall k | 0 <= k < |ins.tuples| ensures ins.tuples[k] != [] {
        assert VG.ValidTuple(ins.tuples[k]);
      }
      forall k, i | 0 <= k < |ins.tuples| && 0 <= i < |ins.tuples[k]| ensures IsLiteral(ins.tuples[k][i]) {
        assert VG.ValidTuple(ins.tuples[k]);
      }
    }
    if IsInsert(ins) {
      forall k | 0 <= k < |ins.tuples| ensures VG.ValidTuple(ins.tuples[k]) {
      }
    }
  }
}
