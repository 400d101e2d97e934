/** The head of INSERT and REPLACE: a verb, its modifiers and a name, and where the body starts. */
module InsertHeads {
  import opened Text
  import opened SqlChecks
  import opened Statements
  import V = ValuesAutomaton
  import VG = ValuesGrammar
  import opened T = StatementTokens
  import F = InsertFeeding
  import opened StatementReading
  import opened LineStarts

  predicate IsWord(t: Token, word: string) {
    t.kind == 'w' && Spells(t.text, word)
  }

  predicate IsModifier(t: Token) {
    IsWord(t, "LOW_PRIORITY") || IsWord(t, "DELAYED") || IsWord(t, "HIGH_PRIORITY") || IsWord(t, "IGNORE") || IsWord(t, "INTO")
  }

  predicate IsInsertVerb(t: Token) {
    IsWord(t, "INSERT") || IsWord(t, "REPLACE")
  }

  /** One name, perhaps behind its qualifier: `a`, `d.a` as one word or with a quoted name behind the dot,
      or with the dot apart or before the second word. */
  predicate IsName(t: seq<Token>) {
    || |t| == 1
    || (|t| == 2 && ((t[0].kind == 'w' && t[0].text != "" && t[0].text[|t[0].text| - 1] == '.') ||
                     (t[1].kind == 'w' && t[1].text != "" && t[1].text[0] == '.')))
    || (|t| == 3 && t[1].kind == 'w' && t[1].text == ".")
  }

  /** The verb, any modifiers and the whole name. */
  predicate NamesTable(t: seq<Token>, i: nat) {
    1 <= i < |t| && IsInsertVerb(t[0]) && (forall k :: 1 <= k < i ==> IsModifier(t[k])) && !IsModifier(t[i]) && IsName(t[i..])
  }

  // ------------------------------------------------------------ the spelling

  lemma IsIsWord(t: Token, word: string)
    ensures t.Is(word) == IsWord(t, word)
  {
    SpellsUpper(t.text, word);
  }

  lemma ModifierIs(t: Token)
    ensures IsInsertModifier(t) == IsModifier(t)
  {
    hide IsWord, Token.Is;
    IsIsWord(t, "LOW_PRIORITY");
    IsIsWord(t, "DELAYED");
    IsIsWord(t, "HIGH_PRIORITY");
    IsIsWord(t, "IGNORE");
    IsIsWord(t, "INTO");
  }

  lemma VerbIs(t: Token)
    ensures IsInsertVerb(t) == (t.Is("INSERT") || t.Is("REPLACE"))
  {
    hide IsWord, Token.Is;
    IsIsWord(t, "INSERT");
    IsIsWord(t, "REPLACE");
  }

  lemma {:induction false} SkipsModifiers(t: seq<Token>, i: nat)
    requires i <= |t|
    ensures var j := SkipInsertModifiers(t, i);
            i <= j <= |t| && (forall k :: i <= k < j ==> IsModifier(t[k])) && (j < |t| ==> !IsModifier(t[j]))
    decreases |t| - i
  {
    hide IsInsertModifier, IsModifier;
    if i < |t| {
      ModifierIs(t[i]);
      if IsInsertModifier(t[i]) {
        SkipsModifiers(t, i + 1);
      }
    }
  }

  lemma NameEndIsName(t: seq<Token>, i: nat)
    requires i < |t| && NameEnd(t, i) <= |t|
    ensures IsName(t[i..NameEnd(t, i)])
  {
  }

  /** Where the body starts behind the name. */
  function BodyAt(t: seq<Token>): nat {
    var i := SkipInsertModifiers(t, 1);
    if i < |t| then NameEnd(t, i) else |t|
  }

  lemma NameIsWhole(t: seq<Token>)
    requires t != [] && IsInsertVerb(t[0]) && SkipInsertModifiers(t, 1) < |t| && BodyAt(t) <= |t|
    ensures NamesTable(t[..BodyAt(t)], SkipInsertModifiers(t, 1))
  {
    var (i, n) := (SkipInsertModifiers(t, 1), BodyAt(t));
    SkipsModifiers(t, 1);
    hide SkipInsertModifiers, IsName, IsModifier, IsInsertVerb, NameEnd;
    NameEndIsName(t, i);
    assert t[..n][i..] == t[i..n];
  }

  // --------------------------------------------------- how much of the body

  /** What a head that is allowed in the middle of a statement and starts a body shows. */
  lemma BodyStarts(database: string, t: seq<Token>, tail: Tail, values: Option<V.Values>)
    requires Lets(database, t, tail, values) && values.Some?
    ensures IsInsertVerb(t[0]) && SkipInsertModifiers(t, 1) < |t| && BodyAt(t) <= |t|
    ensures FeedTokens(V.INIT, t[BodyAt(t)..]) == values
    ensures ObjectName(database, t, SkipInsertModifiers(t, 1), false) == Accept
  {
    hide Waits, FeedTokens, ObjectName, CheckDDL, AllNamesOk, NameOk, CheckSet, NameEnd, SkipInsertModifiers, Token.Is, IsInsertVerb;
    VerbIs(t[0]);
    hide CheckInsert;
    var s :| Keeps(s, database, t) && CheckHead(s, false).Allowed? && CheckHead(s, false).st.values == values;
    OnlyInsertStarts(s);
    InsertStarts(s, values);
  }

  lemma InsertStarts(s: Stmt, values: Option<V.Values>)
    requires s.tokens != [] && CheckInsert(s, false).Allowed? && CheckInsert(s, false).st.values == values
    ensures var t := s.tokens; SkipInsertModifiers(t, 1) < |t| && BodyAt(t) <= |t| && FeedTokens(V.INIT, t[BodyAt(t)..]) == values
    ensures ObjectName(s.database, s.tokens, SkipInsertModifiers(s.tokens, 1), false) == Accept
  {
    hide FeedTokens, ObjectName, NameEnd, SkipInsertModifiers;
  }

  lemma OnlyInsertStarts(s: Stmt)
    requires s.tokens != [] && s.values.None? && CheckHead(s, false).Allowed? && CheckHead(s, false).st.values.Some?
    ensures s.tokens[0].Is("INSERT") || s.tokens[0].Is("REPLACE")
    ensures CheckHead(s, false) == CheckInsert(s, false)
  {
    hide FeedTokens, CheckTails, ObjectName, AllNamesOk, TriggerTable, AlterTable, DatabaseName, NameOk, CheckSet, NameEnd, SkipInsertModifiers, KindIndex,
         CheckInsert, Token.Is;
  }

  predicate IsExists(t: Token) {
    IsWord(t, "IF") || IsWord(t, "NOT") || IsWord(t, "EXISTS")
  }

  lemma ExistsIs(t: Token)
    ensures IsExistsWord(t) == IsExists(t)
  {
    hide IsWord, Token.Is;
    IsIsWord(t, "IF");
    IsIsWord(t, "NOT");
    IsIsWord(t, "EXISTS");
  }

  lemma {:induction false} SkipsExists(t: seq<Token>, i: nat, k: nat)
    requires i <= k < SkipExists(t, i)
    ensures k < |t| && IsExistsWord(t[k])
    decreases |t| - i
  {
    hide IsExistsWord;
    if i < k {
      SkipsExists(t, i + 1, k);
    }
  }

  lemma {:induction false} SameSkips(t: seq<Token>, p: seq<Token>, i: nat)
    requires i <= |p| <= |t| && p == t[..|p|] && SkipExists(t, i) < |p|
    ensures SkipExists(p, i) == SkipExists(t, i)
    decreases |t| - i
  {
    hide IsExistsWord;
    assert i < |p| ==> p[i] == t[i];
    if i < |p| && IsExistsWord(t[i]) {
      SameSkips(t, p, i + 1);
    }
  }

  lemma {:induction false} SameModifiers(t: seq<Token>, p: seq<Token>, i: nat)
    requires i <= |p| <= |t| && p == t[..|p|] && SkipInsertModifiers(t, i) < |p|
    ensures SkipInsertModifiers(p, i) == SkipInsertModifiers(t, i)
    decreases |t| - i
  {
    hide IsInsertModifier;
    assert i < |p| ==> p[i] == t[i];
    if i < |p| && IsInsertModifier(t[i]) {
      SameModifiers(t, p, i + 1);
    }
  }

  lemma ExistsIsPlain(t: Token)
    requires IsExistsWord(t)
    ensures t.kind == 'w' && t.text != "" && t.text[0] != '.' && t.text[|t.text| - 1] != '.' && Upper(t.text) != "VALUES" && t.text != "("
  {
    ExistsIs(t);
    assert forall k :: 0 <= k < |t.text| ==> 'A' <= UpperChar(t.text[k]) <= 'Z';
    assert |Upper(t.text)| == |t.text| <= 6;
  }

  /** A name called IF, NOT or EXISTS is one token. */
  lemma ExistsIsName(database: string, t: seq<Token>, i: nat)
    requires i < SkipExists(t, i) < |t| && QualifierOk(database, t[SkipExists(t, i)..])
    ensures i + 1 < |t| && NameEnd(t, i) == i + 1
  {
    var j := SkipExists(t, i);
    SkipsExists(t, i, i);
    ExistsIsPlain(t[i]);
    if i + 1 < j {
      SkipsExists(t, i, i + 1);
      ExistsIsPlain(t[i + 1]);
    } else {
      NoLeadingDot(database, t[j..]);
    }
  }

  lemma NoLeadingDot(database: string, t: seq<Token>)
    requires t != [] && QualifierOk(database, t)
    ensures t[0].kind == 'w' ==> !HasPrefix(t[0].text, ".")
  {
  }

  /** The name ends with the last token but one. */
  lemma NameIsLast(database: string, t: seq<Token>, i: nat, s: Stmt)
    requires 1 <= i && i == SkipInsertModifiers(t, 1) && ObjectName(database, t, i, false) == Accept
    requires |t| > 1 && Keeps(s, database, t[..|t| - 1]) && CheckInsert(s, false).NeedsMore?
    ensures NameEnd(t, SkipExists(t, i)) == |t| - 1
  {
    var (j, p) := (SkipExists(t, i), t[..|t| - 1]);
    SameSkips(t, p, i);
    SameModifiers(t, p, 1);
    if i < j {
      ExistsIsName(database, t, i);
    }
    assert t[j..][0] == p[j..][0];
    hide SkipExists, SkipInsertModifiers, FeedTokens;
    if j + 1 < |p| {
      assert p[j + 1] == t[j + 1] && t[j..][1] == p[j..][1];
    }
  }

  lemma KeepsInsert(s: Stmt)
    requires s.tokens != [] && (s.tokens[0].Is("INSERT") || s.tokens[0].Is("REPLACE"))
    ensures CheckHead(s, false) == CheckInsert(s, false)
  {
    hide CheckInsert;
  }

  lemma WaitedFor(database: string, t: seq<Token>, tail: Tail, values: Option<V.Values>) returns (s: Stmt)
    requires Lets(database, t, tail, values) && |t| > 1
    ensures Keeps(s, database, t[..|t| - 1]) && CheckHead(s, false).NeedsMore? && s.tokens[0] == t[0]
  {
    hide CheckHead;
    s :| Keeps(s, database, t[..|t| - 1]) && CheckHead(s, false).NeedsMore?;
  }

  lemma NameEndsLast(database: string, t: seq<Token>, tail: Tail, values: Option<V.Values>)
    requires Lets(database, t, tail, values) && |t| > 1 && IsInsertVerb(t[0])
    requires ObjectName(database, t, SkipInsertModifiers(t, 1), false) == Accept && SkipInsertModifiers(t, 1) >= 1
    ensures NameEnd(t, SkipExists(t, SkipInsertModifiers(t, 1))) == |t| - 1
  {
    VerbIs(t[0]);
    var s := WaitedFor(database, t, tail, values);
    hide Token.Is, IsInsertVerb, CheckHead, CheckInsert, SkipInsertModifiers, Lets;
    KeepsInsert(s);
    NameIsLast(database, t, SkipInsertModifiers(t, 1), s);
  }

  /** Of a body one token is known when the head is allowed, or two when the table is called IF, NOT or
      EXISTS: the check of names takes those words for no name. */
  lemma AtMostTwo(database: string, t: seq<Token>, tail: Tail, values: Option<V.Values>)
    requires Lets(database, t, tail, values) && values.Some? && F.AreTokens(t)
    ensures BodyAt(t) < |t| && |t| - BodyAt(t) <= 2
    ensures |t| - BodyAt(t) == 2 ==> IsExists(t[SkipInsertModifiers(t, 1)])
  {
    BodyStarts(database, t, tail, values);
    SkipsModifiers(t, 1);
    var i := SkipInsertModifiers(t, 1);
    var j := SkipExists(t, i);
    hide IsInsertVerb, FeedTokens, SkipInsertModifiers, IsModifier, IsWord, Lets, SkipExists, F.IsToken;
    NameEndsLast(database, t, tail, values);
    if i < j {
      ExistsIsName(database, t, i);
      SkipsExists(t, i, i);
      ExistsIs(t[i]);
      OneTokenName(t, i, j);
    }
  }

  lemma DottedNotFed(s: V.State, t: Token)
    requires s == V.Tuple || s == V.Column
    requires F.IsToken(t) && t.kind == 'w' && HasPrefix(t.text, ".")
    ensures V.Token(VG.Settled(s), t.kind, t.text).None?
  {
    assert t.text[0] == '.' && !IsWordByte(t.text[0]);
    if V.Token(VG.Settled(s), t.kind, t.text).Some? {
      F.WordFed(s, t.text);
    }
  }

  /** Behind a name called IF, NOT or EXISTS only one token can be a name that fits into a body. */
  lemma OneTokenName(t: seq<Token>, i: nat, j: nat)
    requires i + 1 < |t| && F.AreTokens(t) && i < j == SkipExists(t, i) < |t| && FeedTokens(V.INIT, t[i + 1..]).Some?
    ensures j == i + 1 && NameEnd(t, j) == j + 1
  {
    hide V.Token, SkipExists, F.IsToken;
    var first := t[i + 1];
    assert t[i + 1..][0] == first;
    F.TokenFed(V.Head, first);
    if i + 1 < j {
      SkipsExists(t, i, i + 1);
      ExistsIsPlain(first);
      assert false;
    }
    NoDotAtEnd(first.text);
    if j + 1 < |t| {
      var second := t[j + 1];
      assert t[i + 1..][1..][0] == second;
      if second.kind == 'w' && HasPrefix(second.text, ".") {
        DottedNotFed(V.Token(V.INIT, first.kind, first.text).value.state, second);
      }
    }
  }

  lemma NoDotAtEnd(w: string)
    requires Upper(w) == "VALUES" || w == "("
    ensures !HasSuffix(w, ".")
  {
    assert |Upper(w)| == |w|;
    assert Upper(w)[|w| - 1] == UpperChar(w[|w| - 1]);
  }
}
