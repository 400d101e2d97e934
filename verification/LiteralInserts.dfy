/** Every INSERT and REPLACE of an accepted dump inserts literals, and nothing else.

    The body is what the statement shows behind the name of its table, and the grammar is that of
    ValuesGrammar. One byte may break it: punctuation right behind VALUES is taken for white space. */
module LiteralInserts {
  import opened Text
  import opened SqlChecks
  import S = Statements
  import V = ValuesAutomaton
  import VG = ValuesGrammar
  import opened T = StatementTokens
  import F = InsertFeeding
  import SR = StatementReading
  import opened InsertHeads
  import opened IB = InsertBodies
  import FH = FinalHeads
  import LS = LiteralSyntax
  import L = DumpLexer
  import opened Sentences

  ghost predicate IsBodyOf(es: Shown, ins: VG.Insert)
    requires VG.WellBracketed(es, false)
  {
    LS.IsInsert(ins) && VG.ValidInsert(ins) && VG.Lexemes(es, "") == VG.Render(ins)
  }

  /** The events spell a body: perhaps column names, VALUES, and tuples of literals. */
  ghost predicate IsLiteralBody(es: Shown) {
    VG.WellBracketed(es, false) && exists ins :: IsBodyOf(es, ins)
  }

  /** From `h` on, behind the name of the table, they do, but for a byte that is dropped. */
  ghost predicate InsertsLiterals(es: Shown, h: nat) {
    && h <= |es| && InQuote(es[..h]) == Some(false) && NamesSome(TokensOf(es[..h])) && TokensOf(es[..h]) <= TokensOf(es)
    && (IsLiteralBody(es[h..]) || exists k :: DropsOne(es[h..], k))
  }

  /** The byte at `k` is taken for white space; with it the events spell no body. */
  ghost predicate DropsOne(es: Shown, k: nat) {
    IsDropped(es, k) && IsLiteralBody(es[k := VG.Gap]) && !IsLiteralBody(es)
  }

  /** The statement ends at the dot behind its qualifier, before the name of the table. */
  predicate EndsAtDot(t: seq<Token>, i: nat, j: nat) {
    && 1 <= i <= j < |t| && IsInsertVerb(t[0]) && (forall k :: 1 <= k < i ==> IsModifier(t[k])) && (forall k :: i <= k < j ==> IsExists(t[k]))
    && ((j + 1 == |t| && t[j].kind == 'w' && t[j].text != "" && t[j].text[|t[j].text| - 1] == '.') ||
        (j + 2 == |t| && t[j + 1].kind == 'w' && t[j + 1].text == "."))
  }

  // ------------------------------------------------------------- bodies

  lemma {:induction false} AcceptsIsFed(v: V.Values, es: Shown)
    ensures VG.Accepts(v, es) <==> VG.Fed(v, es).Some? && V.End(VG.Fed(v, es).value)
    decreases |es|
  {
    hide VG.Step, V.End;
    if es != [] && VG.Step(v, es[0]).Some? {
      AcceptsIsFed(VG.Step(v, es[0]).value, es[1..]);
    }
  }

  /** White space for a byte changes no quote. */
  lemma {:induction false} GapForByte(es: Shown, k: nat)
    requires k < |es| && es[k].Code?
    ensures InQuote(es[k := VG.Gap]) == InQuote(es)
    decreases |es|
  {
    var n := |es| - 1;
    var gs := es[k := VG.Gap];
    if k == n {
      assert gs[..n] == es[..n];
    } else {
      assert gs[..n] == es[..n][k := VG.Gap];
      GapForByte(es[..n], k);
    }
  }

  lemma SpellsBody(es: Shown)
    requires InQuote(es) == Some(false)
    ensures IsLiteralBody(es) <==> VG.Accepts(V.INIT, es)
  {
    ClosedIsBracketed(es);
    VG.AcceptsExactlyLiteralValues(es);
    hide LS.IsInsert, VG.ValidInsert, VG.Lexemes, VG.Render, VG.Accepts;
    if ins :| VG.ValidInsert(ins) && VG.Lexemes(es, "") == VG.Render(ins) {
      LS.InsertIs(ins);
      assert IsBodyOf(es, ins);
    }
    if ins :| IsBodyOf(es, ins) {
      assert VG.ValidInsert(ins) && VG.Lexemes(es, "") == VG.Render(ins);
    }
  }

  /** A body that ends. */
  lemma BodyEnds(x: S.Stmt, es: Shown, h: nat, dropped: Option<nat>)
    requires Filling(x, es, h, dropped) && InQuote(es) == Some(false) && S.Closing(x).Some? && ReadAll(es).kind == NUL
    ensures InsertsLiterals(es, h)
  {
    hide IsDropped, VG.Fed, NamesSome, V.End, IsLiteralBody, VG.Accepts;
    assert TokensOf(es) == ReadAll(es).done;
    var body := es[h..];
    QuotesFrom(es, h);
    if dropped.Some? {
      IsCode(body, dropped.value);
    }
    AcceptsIsFed(V.INIT, Heard(body, dropped));
    SpellsBody(body);
    if dropped.Some? {
      var k := dropped.value;
      GapForByte(body, k);
      SpellsBody(body[k := VG.Gap]);
      NoBodyWith(body, k);
      assert DropsOne(body, k);
    }
  }

  lemma IsCode(es: Shown, k: nat)
    requires IsDropped(es, k)
    ensures k < |es| && es[k].Code?
  {
  }

  // ------------------------------------------ a dropped byte spells no body

  lemma {:induction false} FedSplits(v: V.Values, a: Shown, b: Shown)
    ensures VG.Accepts(v, a + b) <==> VG.Fed(v, a).Some? && VG.Accepts(VG.Fed(v, a).value, b)
    decreases |a|
  {
    hide VG.Step, V.End;
    if a == [] {
      assert a + b == b;
    } else {
      assert (a + b)[1..] == a[1..] + b;
      if VG.Step(v, a[0]).Some? {
        FedSplits(VG.Step(v, a[0]).value, a[1..], b);
      }
    }
  }

  /** A word that can be neither VALUES nor a column. */
  predicate IsStuck(v: V.Values) {
    (v.state == V.Head || v.state == V.Column) && v.radix == V.NUL && exists i :: 0 <= i < |v.word| && (v.word[i] == '+' || v.word[i] == '-')
  }

  lemma {:induction false} StuckStays(v: V.Values, es: Shown)
    requires IsStuck(v) && InQuote(es) == Some(false)
    ensures !VG.Accepts(v, es)
    decreases |es|
  {
    StuckSpace(v);
    if es != [] {
      QuotesBothWays(es);
      hide InQuote;
      match es[0]
      case Code(b) =>
        if V.IsAtomByte(b) && V.AtomByte(v, b).Some? {
          StuckGrows(v, b);
          QuotesBothWays(es[1..]);
          StuckStays(V.AtomByte(v, b).value, es[1..]);
        }
      case _ =>
    }
  }

  lemma StuckSpace(v: V.Values)
    requires IsStuck(v)
    ensures V.Space(v).None?
  {
    var i :| 0 <= i < |v.word| && (v.word[i] == '+' || v.word[i] == '-');
    assert !IsWordByte(v.word[i]);
    assert Upper(v.word)[i] == v.word[i];
  }

  lemma StuckGrows(v: V.Values, b: char)
    requires IsStuck(v) && V.AtomByte(v, b).Some?
    ensures IsStuck(V.AtomByte(v, b).value)
  {
    var i :| 0 <= i < |v.word| && (v.word[i] == '+' || v.word[i] == '-');
    assert (v.word + [b])[i] == v.word[i];
  }

  /** What stands behind VALUES or a column stands nowhere behind punctuation. */
  lemma NotBoth(s: V.State, p: char, es: Shown)
    requires (s == V.Tuple || s == V.ColumnSep) && InQuote(es) == Some(false) && V.Punctuation(VG.Settled(s), p).Some?
    requires VG.Accepts(VG.Settled(s), es)
    ensures !VG.Accepts(V.Punctuation(VG.Settled(s), p).value, es)
  {
    hide VG.Accepts, VG.TakesAll;
    ClosedIsBracketed(es);
    var v := VG.Settled(s);
    var u := V.Punctuation(v, p).value;
    assert u == VG.Settled(u.state) && u.state != s;
    BothAreLexemes(v, es);
    BothAreLexemes(u, es);
    VG.LexemesAreProper(es, "");
    if s == V.Tuple {
      VG.TupleOpens(VG.Lexemes(es, ""));
    } else {
      VG.SeparatorFollows(s, VG.Lexemes(es, ""));
    }
    PunctRefused(u.state, VG.Lexemes(es, ""));
  }

  lemma BothAreLexemes(v: V.Values, es: Shown)
    requires VG.WellBracketed(es, false) && v == VG.Settled(v.state)
    ensures VG.Accepts(v, es) == VG.TakesAll(v, VG.Lexemes(es, ""))
  {
    VG.EventsAreLexemes(v, es, "");
    assert V.CodeBytes(v, "") == Some(v);
  }

  lemma PunctRefused(s: V.State, ls: seq<VG.Lexeme>)
    requires ls != [] && ls[0].Punct? && ls[0].c in {'(', ')', ','} && (s == V.Literal || s == V.Column || s == V.Keyword)
    ensures !VG.TakesAll(VG.Settled(s), ls)
  {
  }

  lemma {:induction false} QuotesBefore(es: Shown, k: nat)
    requires k <= |es| && InQuote(es).Some?
    ensures InQuote(es[..k]).Some?
    decreases |es|
  {
    if k == |es| {
      assert es[..k] == es;
    } else {
      assert es[..|es| - 1][..k] == es[..k];
      QuotesBefore(es[..|es| - 1], k);
    }
  }

  /** The word before the byte is still being read. */
  lemma WordBefore(es: Shown, k: nat)
    requires IsDropped(es, k) && InQuote(es).Some?
    ensures InQuote(es[..k]) == Some(false) && InQuote(es[..k + 1]) == Some(false)
    ensures var r := ReadAll(es[..k]); r.kind == 'w' && (r.done == [] || r.done == [Token('p', "(")])
  {
    var a := es[..k];
    QuotesBefore(es, k);
    QuotesBefore(es, k + 1);
    assert es[..k + 1] == a + [es[k]];
    QuotesNext(a, es[k]);
    assert a[|a| - 1] == es[k - 1];
    KindIs(a[..k - 1]);
  }

  lemma ParenOpens()
    ensures S.FeedTokens(V.INIT, [Token('p', "(")]) == Some(VG.Settled(V.Column))
  {
    F.FedOne(V.INIT, Token('p', "("));
    F.PunctFed(V.Head, '(');
    assert "(" == ['('];
  }

  /** The automaton in the middle of that word. */
  lemma WordFedSoFar(es: Shown) returns (s: V.State)
    requires InQuote(es) == Some(false) && VG.Fed(V.INIT, es).Some?
    requires var r := ReadAll(es); r.kind == 'w' && (r.done == [] || r.done == [Token('p', "(")])
    ensures (s == V.Head || s == V.Column) && VG.Fed(V.INIT, es).value == VG.Settled(s).(word := ReadAll(es).cur) && ReadAll(es).cur != ""
  {
    hide VG.Fed, ReadAll, InQuote, S.FeedTokens, InWord;
    ParenOpens();
    var r := ReadAll(es);
    s := if r.done == [] then V.Head else V.Column;
    KindIs(es);
    F.NoneFed(V.INIT, r.done);
    F.FedTokens(es, VG.Settled(s));
    var k := F.FirstAt(r.cur, |r.cur|);
    if k < |r.cur| {
      F.NoAtSign(VG.Settled(s), r.cur, k);
    }
    VG.WordBytes(VG.Settled(s), r.cur);
    assert "" + r.cur == r.cur;
  }

  lemma GapEndsWord(s: V.State, w: string)
    requires (s == V.Head || s == V.Column) && w != "" && V.Space(VG.Settled(s).(word := w)).Some?
    ensures V.Space(VG.Settled(s).(word := w)).value == VG.Settled(if s == V.Head then V.Tuple else V.ColumnSep)
  {
  }

  lemma SignSticks(s: V.State, w: string, p: char)
    requires (s == V.Head || s == V.Column) && (p == '+' || p == '-') && VG.Step(VG.Settled(s).(word := w), VG.Code(p)).Some?
    ensures IsStuck(VG.Step(VG.Settled(s).(word := w), VG.Code(p)).value)
  {
    assert (w + [p])[|w|] == p;
  }

  lemma PunctFollows(u: V.Values, p: char)
    requires !IsSpace(p) && !V.IsAtomByte(p)
    ensures VG.Step(u, VG.Code(p)) == match V.Space(u) case None => None case Some(v) => V.Punctuation(v, p)
  {
  }

  /** With the byte itself the events spell no body. */
  lemma NoBodyWith(es: Shown, k: nat)
    requires IsDropped(es, k) && InQuote(es) == Some(false) && VG.Accepts(V.INIT, es[k := VG.Gap])
    ensures !VG.Accepts(V.INIT, es)
  {
    WordBefore(es, k);
    hide VG.Accepts, VG.Fed, ReadAll, InQuote, IsStuck, VG.Step, V.Punctuation;
    var (a, p, rest) := (es[..k], es[k].b, es[k + 1..]);
    QuotesFrom(es, k + 1);
    assert es == (a + [VG.Code(p)]) + rest && es[k := VG.Gap] == (a + [VG.Gap]) + rest;
    FedSplits(V.INIT, a + [VG.Code(p)], rest);
    FedSplits(V.INIT, a + [VG.Gap], rest);
    F.FedNext(V.INIT, a, VG.Code(p));
    F.FedNext(V.INIT, a, VG.Gap);
    var s := WordFedSoFar(a);
    var u := VG.Fed(V.INIT, a).value;
    IsGap(u);
    GapEndsWord(s, u.word);
    if p == '+' || p == '-' {
      if VG.Step(u, VG.Code(p)).Some? {
        SignSticks(s, u.word, p);
        StuckStays(VG.Step(u, VG.Code(p)).value, rest);
      }
    } else {
      PunctFollows(u, p);
      if VG.Step(u, VG.Code(p)).Some? {
        NotBoth(V.Space(u).value.state, p, rest);
      }
    }
  }

  lemma IsGap(u: V.Values)
    ensures VG.Step(u, VG.Gap) == V.Space(u)
  {
  }

  // --------------------------------------------- heads that never are allowed

  /** Two tokens end no body. */
  lemma TooShort(t: seq<Token>, n: nat)
    requires n <= |t| <= n + 1 && F.AreTokens(t) && S.FeedTokens(V.INIT, t[n..]).Some?
    ensures !V.End(S.FeedTokens(V.INIT, t[n..]).value)
  {
    hide F.IsToken, V.Token;
    if n < |t| {
      assert t[n..] == [t[n]];
      F.FedOne(V.INIT, t[n]);
      F.TokenFed(V.Head, t[n]);
    }
  }

  /** An INSERT whose head was not allowed before its end holds no whole body. */
  lemma NoBodyYet(x: S.Stmt, s: S.Stmt)
    requires x.tokens != [] && s.tokens == x.tokens && s.database == x.database && F.AreTokens(x.tokens)
    requires S.CheckInsert(s, false).NeedsMore? && S.CheckInsert(x, true).Allowed?
    ensures var v := S.CheckInsert(x, true).st.values; v.Some? && !V.End(v.value)
  {
    hide S.FeedTokens, QualifierOk, F.IsToken, V.End, SkipInsertModifiers, SkipExists;
    var t := x.tokens;
    var i := SkipInsertModifiers(t, 1);
    var j := SkipExists(t, i);
    if i < j {
      ExistsIsName(x.database, t, i);
      OneTokenName(t, i, j);
    }
    TooShort(t, NameEnd(t, i));
  }

  lemma FinalInsert(x: S.Stmt)
    requires !x.accepted && x.tokens != [] && IsInsertVerb(x.tokens[0]) && S.Closing(x).Some?
    ensures S.CheckInsert(x, true).NeedsMore? || (S.CheckInsert(x, true).Allowed? && (S.CheckInsert(x, true).st.values.Some? ==> V.End(S.CheckInsert(x, true).st.values.value)))
    ensures S.CheckHead(x, true) == S.CheckInsert(x, true)
  {
    VerbIs(x.tokens[0]);
    hide S.CheckInsert, V.End, IsInsertVerb;
  }

  lemma WaitingInsert(x: S.Stmt, es: Shown)
    requires SR.Waiting(x, ReadAll(es)) && F.AreTokens(ReadAll(es).done) && S.Closing(x).Some?
    requires var t := ReadAll(es).done; t != [] && IsInsertVerb(t[0])
    ensures exists i, j :: EndsAtDot(ReadAll(es).done, i, j)
  {
    hide S.CheckHead, S.CheckInsert, S.Closing, ReadAll, IsInsertVerb, EndsAtDot, F.IsToken;
    FinalInsert(x);
    var t := x.tokens;
    var s :| SR.Keeps(s, x.database, t) && S.CheckHead(s, false).NeedsMore?;
    VerbIs(t[0]);
    KeepsInsert(s);
    if S.CheckInsert(x, true).Allowed? {
      NoBodyYet(x, s);
    }
    FH.WantsMoreExactly(x);
    CutIsSpelled(x.database, t);
  }

  lemma CutIsSpelled(database: string, t: seq<Token>)
    requires t != [] && IsInsertVerb(t[0]) && FH.NameCutOff(database, t)
    ensures EndsAtDot(t, SkipInsertModifiers(t, 1), SkipExists(t, SkipInsertModifiers(t, 1)))
  {
    VerbIs(t[0]);
    hide Token.Is, IsInsertVerb, QualifierOk, SkipInsertModifiers, IsModifier, IsExists;
    SkipsModifiers(t, 1);
    var i := SkipInsertModifiers(t, 1);
    forall k | i <= k < SkipExists(t, i) ensures k < |t| && IsExists(t[k]) {
      SkipsExists(t, i, k);
      ExistsIs(t[k]);
    }
  }

  /** An INSERT that is let through is followed to its end. */
  lemma InsertIsFollowed(database: string, t: seq<Token>, tail: S.Tail)
    requires SR.Lets(database, t, tail, None) && t != []
    ensures !IsInsertVerb(t[0])
  {
    VerbIs(t[0]);
    hide S.CheckHead, Token.Is, IsInsertVerb, SR.Waits;
    var s :| SR.Keeps(s, database, t) && S.CheckHead(s, false).Allowed? && S.CheckHead(s, false).st.values.None?;
    if t[0].Is("INSERT") || t[0].Is("REPLACE") {
      KeepsInsert(s);
      InsertFills(s);
    }
  }

  lemma InsertFills(s: S.Stmt)
    requires s.tokens != [] && S.CheckInsert(s, false).Allowed?
    ensures S.CheckInsert(s, false).st.values.Some?
  {
    hide S.FeedTokens, ObjectName, NameEnd, SkipInsertModifiers;
  }

  lemma OneInsert(database: string, es: Shown)
    requires Ends(database, es)
    requires var t := TokensOf(es); t != [] && IsInsertVerb(t[0])
    ensures (exists h :: InsertsLiterals(es, h)) || exists i, j :: EndsAtDot(TokensOf(es), i, j)
  {
    hide Filling, SR.Waiting, S.Closing, SR.Lets, InQuote, ReadAll, IsInsertVerb, InsertsLiterals, EndsAtDot, F.IsToken, S.CheckTails;
    var x: S.Stmt :| x.database == database && S.Closing(x).Some? && Kept(x, es) && (InQuote(es) == Some(false) || SR.Reads(x, ReadAll(es)));
    if SR.Waiting(x, ReadAll(es)) {
      WaitingInsert(x, es);
    } else if SR.Reads(x, ReadAll(es)) {
      var n: nat, tail :| SR.Passing(x, ReadAll(es), n, tail);
      LetsSome(x.database, ReadAll(es).done[..n], tail, None);
      InsertIsFollowed(x.database, ReadAll(es).done[..n], tail);
      assert false;
    } else {
      var h, dropped :| Filling(x, es, h, dropped);
      BodyEnds(x, es, h, dropped);
    }
  }

  lemma LetsSome(database: string, t: seq<Token>, tail: S.Tail, values: Option<V.Values>)
    requires SR.Lets(database, t, tail, values)
    ensures t != []
  {
  }

  /** Main result: what every INSERT and REPLACE of an accepted dump shows behind the name of its table
      spells literal values, unless the statement ends at the dot of its qualifier. */
  lemma InsertsAreLiteral(order: S.Order, text: string, database: string, k: nat)
    requires L.Accepts(order, text, database) && k < |Sentences.Sentences(text)|
    requires var t := TokensOf(Sentences.Sentences(text)[k]); t != [] && IsInsertVerb(t[0])
    ensures var es := Sentences.Sentences(text)[k];
            (exists h :: InsertsLiterals(es, h)) || exists i, j :: EndsAtDot(TokensOf(es), i, j)
  {
    hide L.Accepts, Sentences.Sentences, Ends, InsertsLiterals, EndsAtDot, TokensOf, IsInsertVerb;
    SentencesEnd(order, text, database, k);
    OneInsert(database, Sentences.Sentences(text)[k]);
  }
}
