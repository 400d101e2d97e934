/** How the scanner follows a statement from its first token: a head, then a tail or an INSERT body.

    `Take` is what one event does to it. `Kept` holds after any events: they are read as tokens while the
    head waits and behind it, and what follows the name of an INSERT is what its automaton was fed. */
module InsertBodies {
  import opened Text
  import opened SqlChecks
  import opened Statements
  import V = ValuesAutomaton
  import VG = ValuesGrammar
  import opened T = StatementTokens
  import F = InsertFeeding
  import opened StatementReading
  import opened InsertHeads

  function Take(st: Stmt, e: VG.Event): Option<Stmt> {
    match e
    case Code(b) => CodeByte(st, b)
    case Gap => Space(st)
    case Open(q) => StartQuote(st, q, false)
    case Bytes(bs) => QuoteText(st, bs)
    case Close => EndQuote(st)
  }

  ghost predicate NamesSome(t: seq<Token>) {
    exists i :: NamesTable(t, i)
  }

  /** A byte of punctuation right behind the word VALUES; or, in a table called IF, NOT or EXISTS, behind
      the first column. The head is allowed at that word, and the byte is taken for white space. */
  predicate IsDropped(es: Shown, k: nat) {
    && 0 < k < |es| && es[k].Code? && !IsSpace(es[k].b) && !InWord(es[k].b) && es[k - 1].Code? && InWord(es[k - 1].b)
    && var t := TokensOf(es[..k]);
       || (|t| == 1 && IsWord(t[0], "VALUES"))
       || (|t| == 2 && t[0] == Token('p', "(") && t[1].kind == 'w')
  }

  /** What the automaton hears. */
  function Heard(es: Shown, dropped: Option<nat>): Shown
    requires dropped.Some? ==> dropped.value < |es|
  {
    if dropped.Some? then es[dropped.value := VG.Gap] else es
  }

  /** The events from `h` on are those of a body. */
  ghost predicate Filling(st: Stmt, es: Shown, h: nat, dropped: Option<nat>) {
    && st.accepted && st.values.Some? && st.curKind == NONE
    && h <= |es| && InQuote(es[..h]) == Some(false) && NamesSome(TokensOf(es[..h])) && TokensOf(es[..h]) <= ReadAll(es).done
    && (dropped.Some? ==> IsDropped(es[h..], dropped.value))
    && VG.Fed(V.INIT, Heard(es[h..], dropped)) == st.values
    && (InQuote(es) == Some(true) <==> st.values.value.quote != V.NUL)
  }

  ghost predicate Kept(st: Stmt, es: Shown) {
    Reads(st, ReadAll(es)) || exists h, dropped :: Filling(st, es, h, dropped)
  }

  // ----------------------------------------------------- the body's start

  /** A head that is allowed and starts a body at its last token. */
  lemma Lands(st: Stmt, es: Shown)
    requires InQuote(es) == Some(false) && Landed(st, ReadAll(es)) && ReadAll(es).kind == NUL
    ensures exists h :: Filling(st, es, h, None)
  {
    hide Lets, InQuote, ReadAll, IsDropped, NamesTable, VG.Fed, SkipInsertModifiers, NameEnd, FeedTokens;
    var t := ReadAll(es).done;
    F.ReadsTokens(es);
    BodyStarts(st.database, t, NO_TAIL, st.values);
    AtMostTwo(st.database, t, NO_TAIL, st.values);
    NameIsWhole(t);
    var h := CutAt(es, BodyAt(t));
    QuotesFrom(es, h);
    F.StateFed(es[h..], st.values.value);
    F.FedTokens(es[h..], st.values.value);
    assert Filling(st, es, h, None);
  }

  /** The word at which it is allowed is the last of the body so far. */
  lemma LastWord(database: string, t: seq<Token>, values: Option<V.Values>)
    requires Lets(database, t, NO_TAIL, values) && values.Some? && F.AreTokens(t) && t[|t| - 1].kind == 'w'
    ensures BodyAt(t) <= |t|
    ensures var b := t[BodyAt(t)..];
            (|b| == 1 && IsWord(b[0], "VALUES")) || (|b| == 2 && b[0] == Token('p', "(") && b[1].kind == 'w')
    ensures values.value == VG.Settled(V.Tuple) || values.value == VG.Settled(V.ColumnSep)
  {
    hide Lets, SkipInsertModifiers, NameEnd, F.IsToken, IsWord, V.Token;
    BodyStarts(database, t, NO_TAIL, values);
    AtMostTwo(database, t, NO_TAIL, values);
    var b := t[BodyAt(t)..];
    F.TokenFed(V.Head, b[0]);
    IsIsWord(b[0], "VALUES");
    if |b| == 1 {
      assert b == [b[0]];
      F.FedOne(V.INIT, b[0]);
    } else {
      assert b == [b[0]] + [b[1]];
      F.FeedsNext(V.INIT, [b[0]], b[1]);
      F.FedOne(V.INIT, b[0]);
      SecondWord(V.Token(V.INIT, b[0].kind, b[0].text).value.state, b[1]);
    }
  }

  lemma SecondWord(s: V.State, t: Token)
    requires (s == V.Tuple || s == V.Column) && t.kind == 'w' && F.IsToken(t)
    ensures V.Token(VG.Settled(s), t.kind, t.text).Some? ==> s == V.Column && V.Token(VG.Settled(s), t.kind, t.text).value == VG.Settled(V.ColumnSep)
  {
    if V.Token(VG.Settled(s), t.kind, t.text).Some? {
      F.WordFed(s, t.text);
    }
  }

  /** The word being read is the last event. */
  lemma LastIsWord(es: Shown)
    requires InQuote(es) == Some(false) && ReadAll(es).kind == 'w'
    ensures es != [] && es[|es| - 1].Code? && InWord(es[|es| - 1].b)
  {
    hide IsSpace, InWord;
    KindIs(es[..|es| - 1]);
  }

  /** Punctuation right behind the word at which the head is allowed is dropped. */
  lemma Drops(st: Stmt, es: Shown, p: char)
    requires InQuote(es) == Some(false) && ReadAll(es).kind == 'w' && Landed(st, Flushed(ReadAll(es))) && !IsSpace(p) && !InWord(p)
    ensures exists h, dropped :: Filling(st, es + [VG.Code(p)], h, dropped)
  {
    hide Lets, InQuote, ReadAll, NamesTable, VG.Fed, SkipInsertModifiers, NameEnd, FeedTokens, InWord, IsSpace;
    var r := ReadAll(es);
    var t := Flushed(r).done;
    assert t == TokensOf(es);
    F.TokensAreTokens(es);
    LastWord(st.database, t, st.values);
    BodyStarts(st.database, t, NO_TAIL, st.values);
    NameIsWhole(t);
    var n := BodyAt(t);
    var h := CutAt(es, n);
    assert t[..n] == r.done[..n] && t[n..] == r.done[n..] + [Token('w', r.cur)];
    DropsAt(st, es, p, h, n);
  }

  lemma DropsAt(st: Stmt, es: Shown, p: char, h: nat, n: nat)
    requires InQuote(es) == Some(false) && ReadAll(es).kind == 'w' && !IsSpace(p) && !InWord(p)
    requires st.accepted && st.values.Some? && st.curKind == NONE
    requires n <= |ReadAll(es).done| && h <= |es| && InQuote(es[..h]) == Some(false) && NamesSome(TokensOf(es[..h]))
    requires TokensOf(es[..h]) <= ReadAll(es).done
    requires ReadAll(es[h..]) == ReadAll(es).(done := ReadAll(es).done[n..])
    requires var b := ReadAll(es).done[n..] + [Token('w', ReadAll(es).cur)];
             FeedTokens(V.INIT, b) == st.values &&
             ((|b| == 1 && IsWord(b[0], "VALUES")) || (|b| == 2 && b[0] == Token('p', "(") && b[1].kind == 'w'))
    ensures Filling(st, es + [VG.Code(p)], h, Some(|es| - h))
  {
    hide ReadAll, NamesSome, VG.Fed, FeedTokens, InWord, IsSpace, IsWord, InQuote;
    var body := es[h..];
    QuotesFrom(es, h);
    QuotesNext(body, VG.Gap);
    QuotesNext(es, VG.Code(p));
    ReadsNext(es, VG.Code(p));
    F.GrowsBy(ReadAll(es), VG.Code(p));
    ReadsNext(body, VG.Gap);
    F.StateFed(body + [VG.Gap], st.values.value);
    F.FedTokens(body + [VG.Gap], st.values.value);
    var all := es + [VG.Code(p)];
    assert all[..h] == es[..h] && all[h..] == body + [VG.Code(p)];
    assert all[h..][|es| - h := VG.Gap] == body + [VG.Gap];
    assert all[h..][..|es| - h] == body;
    KindNeedsEvents(body);
    LastIsWord(body);
  }

  lemma KindNeedsEvents(es: Shown)
    requires ReadAll(es).kind == 'w'
    ensures es != []
  {
  }

  // ------------------------------------------------------- one event more

  lemma StepQuotes(v: V.Values, e: VG.Event)
    requires VG.Step(v, e).Some?
    requires e.Open? ==> VG.IsQuote(e.q)
    ensures var u := VG.Step(v, e).value;
            match e
            case Open(q) => u.quote == q
            case Close => v.quote != V.NUL && u.quote == V.NUL
            case _ => u.quote == v.quote
  {
    hide V.IsNumber, V.IsIntroducer, V.IsColumnWord;
  }

  /** A body goes on. */
  lemma FillsOn(st: Stmt, es: Shown, h: nat, dropped: Option<nat>, e: VG.Event)
    requires Filling(st, es, h, dropped) && InQuote(es).Some? && QuoteAfter(InQuote(es).value, e).Some? && Take(st, e).Some?
    ensures Filling(Take(st, e).value, es + [e], h, dropped) && Take(st, e).value.database == st.database
  {
    hide V.CodeByte, V.Space, V.StartQuote, V.QuoteText, V.EndQuote, NamesSome, IsDropped, VG.Fed, VG.Step, ReadOne;
    var all := es + [e];
    assert all[..h] == es[..h] && all[h..] == es[h..] + [e];
    QuotesNext(es, e);
    ReadsNext(es, e);
    F.GrowsBy(ReadAll(es), e);
    BodyTakes(st, e);
    StepQuotes(st.values.value, e);
    if dropped.Some? {
      StaysDropped(es[h..], dropped.value, e);
      assert all[h..][dropped.value := VG.Gap] == es[h..][dropped.value := VG.Gap] + [e];
    }
    F.FedNext(V.INIT, Heard(es[h..], dropped), e);
  }

  lemma StaysDropped(es: Shown, k: nat, e: VG.Event)
    requires IsDropped(es, k)
    ensures k < |es| && IsDropped(es + [e], k)
  {
    hide IsSpace, InWord;
    assert (es + [e])[..k] == es[..k];
  }

  lemma BodyTakes(st: Stmt, e: VG.Event)
    requires InBody(st) && st.curKind == NONE && Take(st, e).Some?
    ensures VG.Step(st.values.value, e).Some?
    ensures var u := Take(st, e).value;
            u == st.(values := VG.Step(st.values.value, e), started := u.started)
  {
    hide V.Space, V.StartQuote, V.QuoteText, V.EndQuote, V.AtomByte, V.Punctuation, V.IsAtomByte, IsSpace;
  }

  lemma ReadsIgnores(a: Stmt, b: Stmt, r: Reading)
    requires Reads(a, r) && b == a.(vars := b.vars, varRefs := b.varRefs, started := b.started)
    ensures Reads(b, r)
  {
    hide Lets, Waits, CheckTails;
    if !Waiting(a, r) {
      var n, tail :| Passing(a, r, n, tail);
      assert Passing(b, r, n, tail);
    }
  }

  lemma ReadsFits(st: Stmt, es: Shown)
    requires Reads(st, ReadAll(es)) && InQuote(es).Some?
    ensures Fits(ReadAll(es)) && st.values.None? && st.curKind == ReadAll(es).kind
    ensures InQuote(es).value <==> VG.IsQuote(ReadAll(es).kind)
  {
    hide Lets, Waits, CheckTails, InWord, ReadAll;
    KindIs(es);
  }

  lemma GapRead(st: Stmt, es: Shown, e: VG.Event)
    requires Reads(st, ReadAll(es)) && InQuote(es).Some? && Flush(st).Some?
    requires InQuote(es + [e]) == Some(false) && ReadOne(ReadAll(es), e) == Flushed(ReadAll(es))
    ensures Kept(Flush(st).value, es + [e]) && Flush(st).value.database == st.database
  {
    hide Waiting, Passing, Landed, ReadAll, Flush, Filling, InQuote;
    ReadsFits(st, es);
    FlushReads(st, ReadAll(es));
    ReadsNext(es, e);
    if Landed(Flush(st).value, Flushed(ReadAll(es))) {
      Lands(Flush(st).value, es + [e]);
    }
  }

  lemma TextRead(st: Stmt, es: Shown, bs: string)
    requires Reads(st, ReadAll(es)) && InQuote(es) == Some(true) && QuoteText(st, bs).Some?
    ensures Kept(QuoteText(st, bs).value, es + [VG.Bytes(bs)]) && QuoteText(st, bs).value.database == st.database
  {
    hide Lets, Waits, CheckTails, ReadAll, InQuote;
    ReadsFits(st, es);
    ReadsNext(es, VG.Bytes(bs));
    var r := ReadAll(es);
    if !Waiting(st, r) {
      var n, tail :| Passing(st, r, n, tail);
      assert Passing(QuoteText(st, bs).value, ReadAll(es + [VG.Bytes(bs)]), n, tail);
    }
  }

  /** A word or string starts. */
  lemma TokenStarts(st: Stmt, r: Reading, kind: char, cur: string)
    requires Reads(st, r) && r.kind == NUL && (kind == 'w' || VG.IsQuote(kind))
    ensures Reads(st.(curKind := kind, cur := cur), r.(kind := kind, cur := cur))
  {
    hide Lets, Waits, CheckTails;
    if !Waiting(st, r) {
      var n, tail :| Passing(st, r, n, tail);
      assert Passing(st.(curKind := kind, cur := cur), r.(kind := kind, cur := cur), n, tail);
    }
  }

  lemma WordGrows(st: Stmt, r: Reading, b: char)
    requires Reads(st, r) && r.kind == 'w'
    ensures Reads(st.(cur := st.cur + [b]), r.(cur := r.cur + [b]))
  {
    hide Lets, Waits, CheckTails;
    if !Waiting(st, r) {
      var n, tail :| Passing(st, r, n, tail);
      assert Passing(st.(cur := st.cur + [b]), r.(cur := r.cur + [b]), n, tail);
    }
  }

  /** No string can follow a head that is allowed at the word before it. */
  lemma NoStringLands(st: Stmt, es: Shown, q: char)
    requires InQuote(es) == Some(false) && Landed(st, Flushed(ReadAll(es))) && ReadAll(es).kind == 'w'
    ensures V.StartQuote(st.values.value, q).None?
  {
    hide Lets, ReadAll, InQuote;
    F.TokensAreTokens(es);
    LastWord(st.database, TokensOf(es), st.values);
  }

  lemma OpenRead(st: Stmt, es: Shown, q: char)
    requires Reads(st, ReadAll(es)) && InQuote(es) == Some(false) && VG.IsQuote(q) && StartQuote(st, q, false).Some?
    ensures Kept(StartQuote(st, q, false).value, es + [VG.Open(q)]) && StartQuote(st, q, false).value.database == st.database
  {
    hide Waiting, Passing, Landed, ReadAll, Flush, Filling, InQuote, V.StartQuote;
    ReadsFits(st, es);
    var r := ReadAll(es);
    FlushReads(st, r);
    ReadsNext(es, VG.Open(q));
    var f := Flush(st).value;
    if Reads(f, Flushed(r)) {
      ReadsNoBody(f, Flushed(r));
      ReadsIgnores(f, f.(started := true), Flushed(r));
      TokenStarts(f.(started := true), Flushed(r), q, "");
    } else {
      NoStringLands(f, es, q);
      LandedIsBody(f, Flushed(r));
    }
  }

  lemma LandedIsBody(st: Stmt, r: Reading)
    requires Landed(st, r)
    ensures InBody(st) && InBody(st.(started := true))
  {
  }

  lemma ReadsNoBody(st: Stmt, r: Reading)
    requires Reads(st, r)
    ensures !InBody(st) && !InBody(st.(started := true)) && st.curKind == r.kind
  {
    hide Lets, Waits, CheckTails;
  }

  lemma PunctRead(st: Stmt, es: Shown, b: char)
    requires Reads(st, ReadAll(es)) && InQuote(es) == Some(false) && !IsSpace(b) && !InWord(b) && HeadByte(st, b).Some?
    ensures Kept(HeadByte(st, b).value, es + [VG.Code(b)]) && HeadByte(st, b).value.database == st.database
  {
    hide Waiting, Passing, ReadAll, Flush, Push, Filling, InQuote, IsWordByte, Lets, InWord;
    ReadsFits(st, es);
    var r := ReadAll(es);
    var p := Token('p', [b]);
    NoWord(st, b);
    FlushReads(st, r);
    ReadsNext(es, VG.Code(b));
    QuotesNext(es, VG.Code(b));
    var f := Flush(st).value;
    if Reads(f, Flushed(r)) {
      PushReads(f, p, Flushed(r), [b]);
      if Landed(Push(f, p).value, ReadAll(es + [VG.Code(b)])) {
        Lands(Push(f, p).value, es + [VG.Code(b)]);
      }
    } else {
      LandedDrops(f, b, Flushed(r));
      Drops(f, es, b);
    }
  }

  lemma NoWord(st: Stmt, b: char)
    requires !InWord(b)
    ensures HeadByte(st, b) == match Flush(st) case None => None case Some(f) => Push(f, Token('p', [b]))
  {
    hide Flush, Push;
  }

  lemma ByteRead(st: Stmt, es: Shown, b: char)
    requires Reads(st, ReadAll(es)) && InQuote(es) == Some(false) && !IsSpace(b) && InWord(b) && HeadByte(st, b).Some?
    ensures Kept(HeadByte(st, b).value, es + [VG.Code(b)]) && HeadByte(st, b).value.database == st.database
  {
    hide Waiting, Passing, ReadAll, Push, Filling, InQuote, Lets;
    ReadsFits(st, es);
    var r := ReadAll(es);
    ReadsNext(es, VG.Code(b));
    if r.kind == 'w' {
      WordGrows(st, r, b);
    } else {
      TokenStarts(st, r, 'w', [b]);
    }
  }

  lemma CodeRead(st: Stmt, es: Shown, b: char)
    requires Reads(st, ReadAll(es)) && InQuote(es) == Some(false) && CodeByte(st, b).Some?
    ensures Kept(CodeByte(st, b).value, es + [VG.Code(b)]) && CodeByte(st, b).value.database == st.database
  {
    hide Waiting, Passing, ReadAll, Push, Flush, Filling, InQuote, Lets, HeadByte, IsSpace, InWord, Kept, Reads;
    ReadsNoBody(st, ReadAll(es));
    if IsSpace(b) {
      QuotesNext(es, VG.Code(b));
      GapRead(st, es, VG.Code(b));
    } else {
      var s := st.(started := true);
      ReadsIgnores(st, s, ReadAll(es));
      if InWord(b) {
        ByteRead(s, es, b);
      } else {
        PunctRead(s, es, b);
      }
    }
  }

  /** What the scanner keeps of a statement follows what the statement shows. */
  lemma KeepsUp(st: Stmt, es: Shown, e: VG.Event)
    requires Kept(st, es) && InQuote(es).Some? && QuoteAfter(InQuote(es).value, e).Some? && Take(st, e).Some?
    ensures Kept(Take(st, e).value, es + [e]) && Take(st, e).value.database == st.database
  {
    hide ReadAll, Flush, Filling, InQuote, CodeByte, StartQuote, Reads;
    if Reads(st, ReadAll(es)) {
      ReadsNoBody(st, ReadAll(es));
      QuotesNext(es, e);
      match e
      case Code(b) => CodeRead(st, es, b);
      case Gap => GapRead(st, es, e);
      case Open(q) => OpenRead(st, es, q);
      case Bytes(bs) => TextRead(st, es, bs);
      case Close => GapRead(st, es, e);
    } else {
      var h, dropped :| Filling(st, es, h, dropped);
      FillsOn(st, es, h, dropped, e);
    }
  }
}
