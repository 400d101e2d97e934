/** The first tokens of an INSERT body are fed to the automaton whole, when the head is allowed. That is
    the same as feeding it what they were read from. */
module InsertFeeding {
  import opened Text
  import opened SqlChecks
  import V = ValuesAutomaton
  import opened VG = ValuesGrammar
  import opened StatementTokens
  import S = Statements

  // ------------------------------------------------------------ one token

  /** A token as the reading makes them. */
  predicate IsToken(t: Token) {
    if t.kind == 'w' then t.text != "" && forall k :: 0 <= k < |t.text| ==> InWord(t.text[k])
    else if t.kind == 'p' then |t.text| == 1 && !IsSpace(t.text[0]) && !InWord(t.text[0])
    else IsQuote(t.kind)
  }

  predicate AreTokens(ts: seq<Token>) {
    forall k :: 0 <= k < |ts| ==> IsToken(ts[k])
  }

  /** The token being read, if there is one. */
  predicate ReadsToken(r: Reading) {
    r.kind == NUL || IsToken(Token(r.kind, r.cur))
  }

  lemma ReadsOneToken(es: seq<Event>)
    requires InQuote(es).Some?
    ensures ReadsToken(ReadAll(es))
  {
    KindIs(es);
    hide ReadAll, InQuote, InWord, IsSpace;
  }

  lemma OneMore(r: Reading, e: Event)
    requires AreTokens(r.done) && ReadsToken(r)
    ensures AreTokens(ReadOne(r, e).done)
  {
    assert e.Code? && !IsSpace(e.b) && !InWord(e.b) ==> IsToken(Token('p', [e.b]));
    hide IsToken, InWord, IsSpace;
  }

  lemma {:induction false} ReadsTokens(es: seq<Event>)
    requires InQuote(es).Some?
    ensures AreTokens(ReadAll(es).done)
    decreases |es|
  {
    if es != [] {
      var m := |es| - 1;
      ReadsTokens(es[..m]);
      ReadsOneToken(es[..m]);
      hide ReadAll, InQuote, ReadsToken, AreTokens, IsToken;
      assert es == es[..m] + [es[m]];
      ReadsNext(es[..m], es[m]);
      OneMore(ReadAll(es[..m]), es[m]);
    }
  }

  lemma TokensAreTokens(es: seq<Event>)
    requires InQuote(es).Some?
    ensures AreTokens(TokensOf(es))
  {
    ReadsTokens(es);
    ReadsOneToken(es);
    hide ReadAll, InQuote, IsToken;
  }

  /** The states before the first literal. */
  predicate BeforeLiterals(s: V.State) {
    s == V.Head || s == V.Column || s == V.ColumnSep || s == V.Keyword || s == V.Tuple
  }

  /** An `@` fits into no body. */
  lemma {:induction false} NoAtSign(v: V.Values, w: string, k: nat)
    requires v.radix == V.NUL && v.state != V.Literal && k < |w| && w[k] == '@' && forall i :: 0 <= i < k ==> V.IsAtomByte(w[i])
    ensures V.CodeBytes(v, w).None?
    decreases k
  {
    if k > 0 && V.CodeByte(v, w[0]).Some? {
      NoAtSign(V.CodeByte(v, w[0]).value, w[1..], k - 1);
    }
  }

  /** The first byte of a word that is no byte of the automaton's words is an `@`. */
  lemma {:induction false} FirstAt(w: string, n: nat) returns (k: nat)
    requires n <= |w| && forall i :: 0 <= i < |w| ==> InWord(w[i])
    ensures k <= n && (forall i :: 0 <= i < k ==> V.IsAtomByte(w[i])) && (k < n ==> w[k] == '@')
  {
    if n == 0 {
      k := 0;
    } else {
      k := FirstAt(w, n - 1);
      if k == n - 1 && w[k] != '@' {
        k := n;
      }
    }
  }

  lemma WordFed(s: V.State, w: string)
    requires BeforeLiterals(s) && w != "" && (forall k :: 0 <= k < |w| ==> InWord(w[k])) && V.Token(Settled(s), 'w', w).Some?
    ensures V.Token(Settled(s), 'w', w) == V.EndWord(Settled(s), w)
  {
    var k := FirstAt(w, |w|);
    if k < |w| {
      NoAtSign(Settled(s), w, k);
    } else {
      PlainWord(s, w);
    }
  }

  lemma SignNotFed(s: V.State, b: char)
    requires BeforeLiterals(s) && (b == '+' || b == '-')
    ensures V.Token(Settled(s), 'p', [b]).None?
  {
    assert AtomWord([b]);
    PlainWord(s, [b]);
    assert Upper([b])[0] == b;
    assert !IsWordByte([b][0]);
  }

  /** A token fed before the first literal leaves the automaton between words. */
  lemma TokenFed(s: V.State, t: Token)
    requires BeforeLiterals(s) && IsToken(t) && V.Token(Settled(s), t.kind, t.text).Some?
    ensures var u := V.Token(Settled(s), t.kind, t.text).value;
            && u == Settled(u.state)
            && (s == V.Head ==> (u.state == V.Tuple && t.kind == 'w' && Upper(t.text) == "VALUES") || (u.state == V.Column && t == Token('p', "(")))
  {
    if t.kind == 'w' {
      WordFed(s, t.text);
    } else if t.kind == 'p' {
      var b := t.text[0];
      assert t.text == [b];
      if b == '+' || b == '-' {
        SignNotFed(s, b);
      } else {
        PunctFed(s, b);
      }
    }
  }

  lemma PunctFed(s: V.State, b: char)
    requires !IsSpace(b) && !InWord(b) && b != '+' && b != '-'
    ensures V.CodeByte(Settled(s), b) == V.Punctuation(Settled(s), b) == V.Token(Settled(s), 'p', [b])
    ensures V.Punctuation(Settled(s), b).Some? ==> var u := V.Punctuation(Settled(s), b).value; u == Settled(u.state)
  {
    assert [b][1..] == "";
    var v := Settled(s);
    assert V.CodeByte(v, b) == V.Punctuation(v, b);
    if V.CodeByte(v, b).Some? {
      assert V.CodeBytes(V.CodeByte(v, b).value, "") == V.CodeByte(v, b);
    }
  }

  // ------------------------------------------------------------ all of them

  lemma {:induction false} FeedsNext(v: V.Values, ts: seq<Token>, t: Token)
    ensures S.FeedTokens(v, ts + [t]) ==
            match S.FeedTokens(v, ts) case None => None case Some(u) => V.Token(u, t.kind, t.text)
    decreases |ts|
  {
    hide V.Token;
    if ts == [] {
      assert [t][1..] == [];
      if V.Token(v, t.kind, t.text).Some? {
        var u := V.Token(v, t.kind, t.text).value;
        assert S.FeedTokens(u, []) == Some(u);
      }
    } else {
      assert (ts + [t])[1..] == ts[1..] + [t];
      if V.Token(v, ts[0].kind, ts[0].text).Some? {
        FeedsNext(V.Token(v, ts[0].kind, ts[0].text).value, ts[1..], t);
      }
    }
  }

  lemma {:induction false} FedNext(v: V.Values, es: seq<Event>, e: Event)
    ensures Fed(v, es + [e]) == match Fed(v, es) case None => None case Some(u) => Step(u, e)
    decreases |es|
  {
    hide VG.Step;
    if es == [] {
      assert [e][1..] == [];
      if VG.Step(v, e).Some? {
        var u := VG.Step(v, e).value;
        assert Fed(u, []) == Some(u);
      }
    } else {
      assert (es + [e])[1..] == es[1..] + [e];
      if VG.Step(v, es[0]).Some? {
        FedNext(VG.Step(v, es[0]).value, es[1..], e);
      }
    }
  }

  /** The automaton between words and then in the token being read. */
  function Within(v: V.Values, r: Reading): Option<V.Values> {
    if r.kind == NUL then Some(v)
    else if r.kind == 'w' then V.CodeBytes(v, r.cur)
    else
      match V.StartQuote(v, r.kind)
      case None => None
      case Some(u) => V.QuoteText(u, r.cur)
  }

  /** The token being read ends. */
  lemma EndsToken(v: V.Values, r: Reading, e: Event)
    requires v == Settled(v.state) && BeforeLiterals(v.state) && V.Token(v, r.kind, r.cur).Some?
    requires (r.kind == 'w' && (e.Gap? || (e.Code? && IsSpace(e.b)))) || (IsQuote(r.kind) && e.Close?)
    requires IsToken(Token(r.kind, r.cur))
    ensures Within(v, r).Some? && VG.Step(Within(v, r).value, e) == V.Token(v, r.kind, r.cur)
  {
    hide V.CodeBytes, V.Space, V.StartQuote, V.QuoteText, V.EndQuote;
  }

  /** A word ends where a quote or punctuation follows. */
  lemma WordEnds(v: V.Values, r: Reading, e: Event)
    requires v == Settled(v.state) && BeforeLiterals(v.state) && V.Token(v, r.kind, r.cur).Some?
    requires r.kind == 'w' && IsToken(Token(r.kind, r.cur))
    requires e.Open? || (e.Code? && !IsSpace(e.b) && !V.IsAtomByte(e.b))
    ensures var u := V.Token(v, r.kind, r.cur).value;
            u == Settled(u.state) && Within(v, r).Some? && VG.Step(Within(v, r).value, e) == VG.Step(u, e)
  {
    TokenFed(v.state, Token(r.kind, r.cur));
    hide V.CodeBytes, V.Punctuation, V.EndWord;
    var u := V.Token(v, r.kind, r.cur).value;
    assert V.Space(u) == Some(u);
  }

  lemma Settles(v: V.Values, b: char)
    requires v == Settled(v.state)
    ensures V.Space(v) == Some(v)
    ensures !IsSpace(b) && !V.IsAtomByte(b) ==> V.CodeByte(v, b) == V.Punctuation(v, b)
    ensures V.StartQuote(v, b).Some? ==> V.QuoteText(V.StartQuote(v, b).value, "") == V.StartQuote(v, b)
  {
  }

  lemma OneByte(v: V.Values, b: char)
    ensures V.CodeBytes(v, [b]) == V.CodeByte(v, b)
  {
    assert "" + [b] == [b];
    CodeBytesAppend(v, "", b);
  }

  lemma OnePunct(v0: V.Values, b: char, v: V.Values)
    requires !IsSpace(b) && !InWord(b) && v0 == Settled(v0.state) && BeforeLiterals(v0.state)
    requires V.Token(v0, 'p', [b]) == Some(v)
    ensures !V.IsAtomByte(b) && V.CodeByte(v0, b) == Some(v) && v == Settled(v.state)
  {
    hide V.Token, V.CodeByte, V.Punctuation, IsSpace;
    if b == '+' || b == '-' {
      SignNotFed(v0.state, b);
    }
    PunctFed(v0.state, b);
  }

  /** One more token: what is fed before it is fed first. */
  lemma FeedsBefore(ts: seq<Token>, more: seq<Token>)
    requires S.FeedTokens(V.INIT, ts + more).Some?
    ensures S.FeedTokens(V.INIT, ts).Some?
    ensures S.FeedTokens(S.FeedTokens(V.INIT, ts).value, more) == S.FeedTokens(V.INIT, ts + more)
  {
    FeedsOn(V.INIT, ts, more);
  }

  lemma {:induction false} FeedsOn(v: V.Values, ts: seq<Token>, more: seq<Token>)
    ensures S.FeedTokens(v, ts + more) == match S.FeedTokens(v, ts) case None => None case Some(u) => S.FeedTokens(u, more)
    decreases |ts|
  {
    hide V.Token;
    if ts == [] {
      assert ts + more == more;
    } else {
      assert (ts + more)[1..] == ts[1..] + more;
      if V.Token(v, ts[0].kind, ts[0].text).Some? {
        FeedsOn(V.Token(v, ts[0].kind, ts[0].text).value, ts[1..], more);
      }
    }
  }

  lemma FedOne(v: V.Values, t: Token)
    ensures S.FeedTokens(v, [t]) == V.Token(v, t.kind, t.text)
  {
    hide V.Token;
    assert [] + [t] == [t];
    FeedsNext(v, [], t);
  }

  /** The state after at most two tokens. */
  lemma StateFed(es: seq<Event>, v: V.Values)
    requires InQuote(es).Some? && |ReadAll(es).done| <= 2 && S.FeedTokens(V.INIT, ReadAll(es).done) == Some(v)
    ensures var r := ReadAll(es);
            && v == Settled(v.state) && (r.done == [] ==> v == V.INIT)
            && (|r.done| == 1 ==> v.state == V.Tuple || v.state == V.Column)
  {
    ReadsTokens(es);
    hide ReadAll, InQuote, IsToken, V.Token;
    var ts := ReadAll(es).done;
    if |ts| > 0 {
      var t := ts[0];
      assert ts == [t] + ts[1..];
      FeedsBefore([t], ts[1..]);
      FedOne(V.INIT, t);
      TokenFed(V.Head, t);
      if |ts| == 2 {
        assert ts[1..] == [ts[1]];
        var u := S.FeedTokens(V.INIT, [t]).value;
        FedOne(u, ts[1]);
        TokenFed(u.state, ts[1]);
      } else {
        assert ts == [t];
      }
    }
  }

  function Then(x: Option<V.Values>, e: Event): Option<V.Values> {
    match x
    case None => None
    case Some(u) => VG.Step(u, e)
  }

  /** The token being read, if any, is fed. */
  predicate FlushFed(r: Reading, v0: V.Values, v: V.Values) {
    && v0 == Settled(v0.state)
    && if r.kind == NUL then v == v0
       else IsToken(Token(r.kind, r.cur)) && BeforeLiterals(v0.state) && V.Token(v0, r.kind, r.cur) == Some(v)
  }

  lemma GapFed(r: Reading, e: Event, v0: V.Values, v: V.Values)
    requires FlushFed(r, v0, v) && (e.Gap? || e.Close? || (e.Code? && IsSpace(e.b)))
    requires r.kind != NUL || !e.Close?
    requires r.kind != NUL ==> if e.Close? then IsQuote(r.kind) else r.kind == 'w'
    ensures Then(Within(v0, r), e) == Within(v, ReadOne(r, e))
  {
    hide V.Space, V.CodeBytes, V.StartQuote, V.QuoteText, V.EndQuote, V.Token, IsSpace, IsToken;
    if r.kind == NUL {
      Settles(v0, ' ');
    } else {
      EndsToken(v0, r, e);
    }
  }

  lemma OpenFed(r: Reading, q: char, v0: V.Values, v: V.Values)
    requires FlushFed(r, v0, v) && IsQuote(q) && (r.kind == NUL || r.kind == 'w') && (r.kind == NUL ==> r.cur == "")
    ensures Then(Within(v0, r), Open(q)) == Within(v, ReadOne(r, Open(q)))
  {
    hide V.Space, V.CodeBytes, V.StartQuote, V.QuoteText, V.EndQuote, V.Token, IsSpace, IsToken;
    if r.kind != NUL {
      WordEnds(v0, r, Open(q));
    }
    Settles(v, q);
  }

  lemma PunctEnds(r: Reading, b: char, v0: V.Values, v: V.Values)
    requires !IsSpace(b) && !InWord(b) && (r.kind == NUL || r.kind == 'w')
    requires v0 == Settled(v0.state) && BeforeLiterals(v0.state)
    requires r.kind != NUL ==> IsToken(Token(r.kind, r.cur)) && v0 == V.INIT
    requires S.FeedTokens(v0, (if r.kind == NUL then [] else [Token(r.kind, r.cur)]) + [Token('p', [b])]) == Some(v)
    ensures Then(Within(v0, r), Code(b)) == Some(v)
  {
    hide V.Space, V.CodeBytes, V.Token, IsSpace, IsToken, InWord;
    var p := Token('p', [b]);
    if r.kind == NUL {
      assert [] + [p] == [p];
      FedOne(v0, p);
      OnePunct(v0, b, v);
    } else {
      var w := Token(r.kind, r.cur);
      FeedsNext(v0, [w], p);
      FedOne(v0, w);
      var u := V.Token(v0, w.kind, w.text).value;
      TokenFed(V.Head, w);
      OnePunct(u, b, v);
      WordEnds(v0, r, Code(b));
    }
  }

  lemma TextFed(r0: Reading, v: V.Values, bs: string)
    requires IsQuote(r0.kind)
    ensures Then(Within(v, r0), Bytes(bs)) == Within(v, ReadOne(r0, Bytes(bs)))
  {
    hide V.StartQuote, V.QuoteText;
    if V.StartQuote(v, r0.kind).Some? {
      V.QuoteTextSplits(V.StartQuote(v, r0.kind).value, r0.cur, bs);
    }
  }

  lemma ByteFed(r0: Reading, v: V.Values, b: char)
    requires !IsSpace(b) && InWord(b) && (r0.kind == NUL || r0.kind == 'w')
    ensures Then(Within(v, r0), Code(b)) == Within(v, ReadOne(r0, Code(b)))
  {
    hide V.CodeByte, V.CodeBytes, IsSpace, InWord;
    if r0.kind == NUL {
      OneByte(v, b);
    } else {
      CodeBytesAppend(v, r0.cur, b);
    }
  }

  /** The tokens `e` ends, one of them perhaps `e` itself. */
  function Ended(r: Reading, e: Event): seq<Token> {
    ReadOne(r, e).done[|r.done|..]
  }

  lemma EndedIs(r: Reading, e: Event)
    requires !e.Bytes?
    ensures var flushed := if r.kind == NUL then [] else [Token(r.kind, r.cur)];
            if e.Code? && !IsSpace(e.b) then
              if !InWord(e.b) then Ended(r, e) == flushed + [Token('p', [e.b])]
              else Ended(r, e) == if r.kind == 'w' then [] else flushed
            else Ended(r, e) == flushed
  {
    hide IsSpace, InWord;
  }

  /** One more event. */
  lemma FedStep(r: Reading, e: Event, v0: V.Values, v: V.Values, open: bool)
    requires QuoteAfter(open, e).Some? && if open then IsQuote(r.kind) else r.kind == NUL || r.kind == 'w'
    requires if r.kind == NUL then r.cur == "" else IsToken(Token(r.kind, r.cur))
    requires v0 == Settled(v0.state) && v == Settled(v.state) && |ReadOne(r, e).done| <= 2
    requires (r.done == [] ==> v0 == V.INIT) && (|r.done| < 2 ==> BeforeLiterals(v0.state))
    requires S.FeedTokens(v0, Ended(r, e)) == Some(v)
    requires |ReadOne(r, e).done| < 2 || ReadOne(r, e).kind == NUL
    ensures Then(Within(v0, r), e) == Within(v, ReadOne(r, e))
  {
    hide V.CodeByte, V.CodeBytes, V.Token, V.StartQuote, V.QuoteText, V.EndQuote, V.Space, InWord, IsSpace, VG.Step, S.FeedTokens, Within, Ended, IsToken, Then;
    FedOne(v0, Token(r.kind, r.cur));
    NoneFed(v0, Ended(r, e));
    match e
    case Bytes(bs) =>
      TextFed(r, v0, bs);
      NothingEnds(r, bs);
    case Code(b) =>
      EndedIs(r, e);
      Sizes(r, e);
      if IsSpace(b) {
        GapFed(r, e, v0, v);
      } else if InWord(b) {
        ByteFed(r, v0, b);
      } else {
        PunctEnds(r, b, v0, v);
        PunctLeaves(r, b, v);
      }
    case Open(q) =>
      EndedIs(r, e);
      Sizes(r, e);
      OpenFed(r, q, v0, v);
    case _ =>
      EndedIs(r, e);
      Sizes(r, e);
      GapFed(r, e, v0, v);
  }

  lemma NothingEnds(r: Reading, bs: string)
    ensures Ended(r, Bytes(bs)) == []
  {
  }

  lemma PunctLeaves(r: Reading, b: char, v: V.Values)
    requires !IsSpace(b) && !InWord(b)
    ensures Within(v, ReadOne(r, Code(b))) == Some(v)
  {
    hide IsSpace, InWord;
  }

  lemma Sizes(r: Reading, e: Event)
    ensures |ReadOne(r, e).done| == |r.done| + |Ended(r, e)|
  {
    GrowsBy(r, e);
  }

  lemma NoneFed(v: V.Values, t: seq<Token>)
    ensures t == [] ==> S.FeedTokens(v, t) == Some(v)
  {
  }

  lemma {:induction false} FedTokens(es: seq<Event>, v: V.Values)
    requires InQuote(es).Some? && |ReadAll(es).done| <= 2 && S.FeedTokens(V.INIT, ReadAll(es).done) == Some(v)
    ensures var r := ReadAll(es);
            |r.done| < 2 || r.kind == NUL ==> Fed(V.INIT, es) == Within(v, r)
    decreases |es|
  {
    StateFed(es, v);
    hide V.CodeByte, V.Token, V.StartQuote, V.QuoteText, V.EndQuote, V.Space, InWord, IsSpace, S.FeedTokens, IsToken;
    if es != [] {
      var m := |es| - 1;
      var (init, e) := (es[..m], es[m]);
      assert es == init + [e];
      var r0 := ReadAll(init);
      ReadsNext(init, e);
      GrowsBy(r0, e);
      assert ReadAll(es).done == r0.done + Ended(r0, e);
      FeedsBefore(r0.done, Ended(r0, e));
      var v0 := S.FeedTokens(V.INIT, r0.done).value;
      StateFed(init, v0);
      FedTokens(init, v0);
      FedNext(V.INIT, init, e);
      ReadsWhole(init);
      if |ReadAll(es).done| < 2 || ReadAll(es).kind == NUL {
        Sizes(r0, e);
        StillShort(r0, e);
        FedStep(r0, e, v0, v, InQuote(init).value);
      }
    }
  }

  lemma ReadsWhole(es: seq<Event>)
    requires InQuote(es).Some?
    ensures var r := ReadAll(es);
            && (if InQuote(es).value then IsQuote(r.kind) else r.kind == NUL || r.kind == 'w')
            && if r.kind == NUL then r.cur == "" else IsToken(Token(r.kind, r.cur))
  {
    KindIs(es);
    hide InWord, ReadAll;
  }

  /** A third token is in the making only when something is being read. */
  lemma StillShort(r: Reading, e: Event)
    requires |ReadOne(r, e).done| < 2 || (ReadOne(r, e).kind == NUL && |ReadOne(r, e).done| == 2)
    ensures |r.done| < 2 || r.kind == NUL
  {
    hide IsSpace, InWord;
  }

  lemma GrowsBy(r: Reading, e: Event)
    ensures r.done <= ReadOne(r, e).done
  {
    hide IsSpace, InWord;
  }
}
