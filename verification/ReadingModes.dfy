/** What a session's settings do to the reading of quotes and backslashes.

    `sql_mode` holds a comma-separated list of modes, in any case and with white space around each.
    NO_BACKSLASH_ESCAPES makes a backslash an ordinary byte, and ANSI_QUOTES makes a double-quoted string
    a name; six combination modes include ANSI_QUOTES. In five character sets of the client the byte of a
    backslash may end another character. The checker's own lists are not used here: it is proved that
    they allow none of these. */
module ReadingModes {
  import opened Text
  import opened SqlChecks
  import V = ValuesAutomaton
  import opened LineStarts

  /** A mode in which quotes or backslashes are read otherwise. */
  predicate ChangesReading(mode: string) {
    || Spells(mode, "NO_BACKSLASH_ESCAPES") || Spells(mode, "ANSI_QUOTES")
    || Spells(mode, "ANSI") || Spells(mode, "DB2") || Spells(mode, "MAXDB") || Spells(mode, "MSSQL")
    || Spells(mode, "ORACLE") || Spells(mode, "POSTGRESQL")
  }

  /** list[b..e] is one of the modes of the list, between white space and commas or the list's ends. */
  predicate IsMode(list: string, p: nat, b: nat, e: nat, q: nat) {
    && p <= b <= e <= q <= |list| && (p == 0 || list[p - 1] == ',') && (q == |list| || list[q] == ',')
    && AllBlank(list[p..b]) && AllBlank(list[e..q])
  }

  /** No mode of the list changes how quotes and backslashes are read. */
  ghost predicate ReadsPlainly(list: string) {
    forall p: nat, b: nat, e: nat, q: nat :: IsMode(list, p, b, e, q) ==> !ChangesReading(list[b..e])
  }

  /** The character set `base`, or a collation of it. */
  predicate IsCharset(name: string, base: string) {
    Spells(name, base) || (|name| > |base| && Spells(name[..|base|], base) && name[|base|] == '_')
  }

  /** A character set in which the byte of a backslash may end another character. */
  predicate HidesBackslash(name: string) {
    IsCharset(name, "BIG5") || IsCharset(name, "CP932") || IsCharset(name, "GBK") || IsCharset(name, "GB18030") || IsCharset(name, "SJIS")
  }

  // -------------------------------------------------------------- modes

  lemma {:induction false} PartOfList(s: string, p: nat, q: nat) returns (k: nat)
    requires p <= q <= |s| && (p == 0 || s[p - 1] == ',') && (q == |s| || s[q] == ',') && ',' !in s[p..q]
    ensures k < |Split(s, ',')| && Split(s, ',')[k] == s[p..q]
    decreases |s|
  {
    var i := IndexOf(s, ',');
    if p == 0 {
      k := 0;
      FirstPart(s, q, i);
    } else {
      CommaBefore(s, p, i);
      var rest := s[i + 1..];
      RestOf(s, i, p, q);
      assert q < |s| ==> rest[q - i - 1] == s[q];
      assert p - i - 1 > 0 ==> rest[p - i - 2] == s[p - 1];
      k := PartOfList(rest, p - i - 1, q - i - 1);
      k := k + 1;
    }
  }

  lemma RestOf(s: string, i: nat, p: nat, q: nat)
    requires i < p <= q <= |s|
    ensures s[i + 1..][p - i - 1..q - i - 1] == s[p..q]
  {
  }

  lemma FirstPart(s: string, q: nat, i: nat)
    requires q <= |s| && i == IndexOf(s, ',') && ',' !in s[..q] && (q == |s| || s[q] == ',')
    ensures i == q && Split(s, ',')[0] == s[..q]
  {
    assert forall j :: 0 <= j < q ==> s[..q][j] == s[j] && s[j] in s[..q];
    assert forall j :: 0 <= j < i ==> s[..i][j] == s[j] && s[j] in s[..i];
    assert s[..|s|] == s;
  }

  lemma CommaBefore(s: string, p: nat, i: nat)
    requires 0 < p <= |s| && s[p - 1] == ',' && i == IndexOf(s, ',')
    ensures i < p
  {
    assert forall j :: 0 <= j < i ==> s[..i][j] == s[j] && s[j] in s[..i];
  }

  predicate IsLetters(w: string) {
    w != "" && forall i :: 0 <= i < |w| ==> ('A' <= UpperChar(w[i]) <= 'Z' || w[i] == '_' || w[i] == '2')
  }

  lemma ChangersAreLetters(mode: string)
    requires ChangesReading(mode)
    ensures IsLetters(mode)
  {
  }

  lemma NoComma(s: string)
    requires AllBlank(s) || IsLetters(s)
    ensures ',' !in s
  {
  }

  lemma NotAllowed(mode: string)
    requires ChangesReading(mode)
    ensures !SafeMode(Upper(mode))
  {
    SpellsUpper(mode, "NO_BACKSLASH_ESCAPES");
    SpellsUpper(mode, "ANSI_QUOTES");
    SpellsUpper(mode, "ANSI");
    SpellsUpper(mode, "DB2");
    SpellsUpper(mode, "MAXDB");
    SpellsUpper(mode, "MSSQL");
    SpellsUpper(mode, "ORACLE");
    SpellsUpper(mode, "POSTGRESQL");
    hide Upper, Spells;
  }

  lemma TrimsMode(a: string, w: string, b: string)
    requires AllBlank(a) && AllBlank(b) && IsLetters(w)
    ensures TrimSpace(a + w + b) == w
  {
    hide TrimLeft, TrimRight, AllBlank;
    assert !IsSpace(w[0]) && !IsSpace(w[|w| - 1]);
    assert a + w + b == a + (w + b);
    TrimsLeft(a, w + b);
    TrimsRight(w, b);
  }

  /** The lists of modes the checker allows change nothing. */
  lemma SafeListReadsPlainly(list: string)
    requires SafeModeList(list)
    ensures ReadsPlainly(list)
  {
    hide ChangesReading, SafeMode, Split, TrimSpace, AllBlank, IsLetters;
    forall p: nat, b: nat, e: nat, q: nat | IsMode(list, p, b, e, q) ensures !ChangesReading(list[b..e]) {
      if ChangesReading(list[b..e]) {
        var (x, w, y) := (list[p..b], list[b..e], list[e..q]);
        ChangersAreLetters(w);
        NoComma(x);
        NoComma(w);
        NoComma(y);
        assert list[p..q] == x + w + y;
        var k := PartOfList(list, p, q);
        TrimsMode(x, w, y);
        NotAllowed(w);
      }
    }
  }

  /** A single mode. */
  lemma OnlyMode(mode: string)
    requires ChangesReading(mode)
    ensures !ReadsPlainly(mode)
  {
    assert mode[0..|mode|] == mode && mode[0..0] == "" && mode[|mode|..|mode|] == "";
    assert IsMode(mode, 0, 0, |mode|, |mode|);
  }

  // ------------------------------------------------------- character sets

  lemma CharsetIs(name: string, k: nat)
    requires k < |V.UNSAFE_CHARSETS|
    ensures var base := V.UNSAFE_CHARSETS[k];
            Upper(name) == base || HasPrefix(Upper(name), base + "_") <==> IsCharset(name, base)
  {
    var base := V.UNSAFE_CHARSETS[k];
    SpellsUpper(name, base);
    if HasPrefix(Upper(name), base + "_") {
      assert Upper(name)[|base|] == (base + "_")[|base|] == '_';
      assert UpperChar(name[|base|]) == '_';
      forall i | 0 <= i < |base| ensures UpperChar(name[..|base|][i]) == base[i] {
        assert Upper(name)[i] == (base + "_")[i];
      }
    }
    if |name| > |base| && Spells(name[..|base|], base) && name[|base|] == '_' {
      forall i | 0 <= i <= |base| ensures Upper(name)[i] == (base + "_")[i] {
        assert i < |base| ==> UpperChar(name[..|base|][i]) == base[i];
      }
    }
  }

  /** The checker refuses exactly these. */
  lemma UnsafeCharsetIs(name: string)
    ensures V.UnsafeCharset(name) <==> HidesBackslash(name)
  {
    hide Upper, IsCharset;
    CharsetIs(name, 0);
    CharsetIs(name, 1);
    CharsetIs(name, 2);
    CharsetIs(name, 3);
    CharsetIs(name, 4);
  }
}
