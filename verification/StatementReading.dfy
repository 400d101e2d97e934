/** What the scanner keeps of a statement, against the statement's own tokens.

    Until a head is allowed the scanner keeps the tokens read so far. Afterwards it keeps what CREATE
    TABLE's tail or an INSERT body leaves of them. `Kept` relates its state to everything the statement
    has shown since its start. */
module StatementReading {
  import opened Text
  import opened SqlChecks
  import opened Statements
  import V = ValuesAutomaton
  import VG = ValuesGrammar
  import opened T = StatementTokens

  type Shown = seq<VG.Event>

  /** A scanner that keeps exactly the tokens `t`, of which no head is allowed yet. */
  predicate Keeps(s: Stmt, database: string, t: seq<Token>) {
    t != [] && s.tokens == t && s.database == database && s.tail == NO_TAIL && s.values == None
  }

  /** The head waits for more tokens. */
  ghost predicate Waits(database: string, t: seq<Token>) {
    t == [] || exists s :: Keeps(s, database, t) && CheckHead(s, false).NeedsMore?
  }

  /** The head is allowed at its last token, and leaves this tail and this body. */
  ghost predicate Lets(database: string, t: seq<Token>, tail: Tail, values: Option<V.Values>) {
    t != [] && Waits(database, t[..|t| - 1]) &&
    exists s :: Keeps(s, database, t) && CheckHead(s, false).Allowed? &&
                CheckHead(s, false).st.tail == tail && CheckHead(s, false).st.values == values
  }

  /** No head is allowed yet. */
  ghost predicate Waiting(st: Stmt, r: Reading) {
    && !st.accepted && st.tail == NO_TAIL && st.values == None
    && st.tokens == r.done && st.curKind == r.kind && st.cur == r.cur
    && Waits(st.database, r.done)
  }

  /** The first `n` tokens were a head that is allowed; those behind it passed. */
  ghost predicate Passing(st: Stmt, r: Reading, n: nat, tail: Tail) {
    && st.accepted && st.values == None && n <= |r.done|
    && Lets(st.database, r.done[..n], tail, None) && CheckTails(tail, r.done[n..]) == Some(st.tail)
    && st.curKind == r.kind && (r.kind == 'w' ==> st.cur == r.cur)
  }

  /** The tokens are a head that is allowed just now, and a body starts. */
  ghost predicate Landed(st: Stmt, r: Reading) {
    st.accepted && st.curKind == NONE && st.tail == NO_TAIL && st.values.Some? && Lets(st.database, r.done, NO_TAIL, st.values)
  }

  // ------------------------------------------------------------ one token

  lemma HeadKeepsBody(s: Stmt, database: string, t: seq<Token>)
    requires Keeps(s, database, t) && CheckHead(s, false).Allowed?
    ensures var u := CheckHead(s, false).st;
            u.database == database && u.curKind == s.curKind && u.cur == s.cur && (u.values.Some? ==> u.tail == NO_TAIL)
  {
    hide FeedTokens, CheckTails, ObjectName, AllNamesOk, TriggerTable, AlterTable, DatabaseName, NameOk, Token.Is, CheckSet, NameEnd, SkipInsertModifiers, KindIndex;
  }

  /** A token pushed while a head waits. */
  lemma KeepsOn(st: Stmt, t: Token, r: Reading)
    requires Waiting(st, r) && r.kind == NUL && Push(st, t).Some?
    ensures var next := r.(done := r.done + [t]);
            var u := Push(st, t).value;
            && u.database == st.database
            && (Waiting(u, next) || Passing(u, next, |next.done|, u.tail) || Landed(u, next))
  {
    hide CheckHead, CheckTail;
    var s := st.(tokens := st.tokens + [t], size := st.size + |t.text|);
    var done := r.done + [t];
    assert Keeps(s, st.database, done);
    assert done[..|done| - 1] == r.done;
    if CheckHead(s, false).Allowed? {
      HeadKeepsBody(s, st.database, done);
      var u := CheckHead(s, false).st;
      assert Lets(st.database, done, u.tail, u.values);
      assert done[..|done|] == done && done[|done|..] == [];
    }
  }

  lemma {:induction false} TailsNext(tail: Tail, ts: seq<Token>, t: Token)
    ensures CheckTails(tail, ts + [t]) == match CheckTails(tail, ts) case None => None case Some(u) => CheckTail(u, t)
    decreases |ts|
  {
    hide CheckTail;
    if ts == [] {
      assert [t][1..] == [];
      if CheckTail(tail, t).Some? {
        assert CheckTails(CheckTail(tail, t).value, []) == CheckTail(tail, t);
      }
    } else {
      assert (ts + [t])[1..] == ts[1..] + [t];
      if CheckTail(tail, ts[0]).Some? {
        TailsNext(CheckTail(tail, ts[0]).value, ts[1..], t);
      }
    }
  }

  /** Of a string only its quote matters to a tail. */
  lemma StringsPass(tail: Tail, q: char, a: string, b: string)
    requires VG.IsQuote(q)
    ensures CheckTail(tail, Token(q, a)) == CheckTail(tail, Token(q, b))
  {
  }

  /** A token pushed behind an allowed head. */
  lemma PassesOn(st: Stmt, t: Token, r: Reading, text: string, n: nat, tail: Tail)
    requires Passing(st, r, n, tail) && r.kind == NUL && Push(st, t).Some?
    requires t.text == text || VG.IsQuote(t.kind)
    ensures Passing(Push(st, t).value, r.(done := r.done + [Token(t.kind, text)]), n, tail)
    ensures Push(st, t).value.database == st.database
  {
    hide CheckTail, Lets;
    var full := Token(t.kind, text);
    assert (r.done + [full])[..n] == r.done[..n] && (r.done + [full])[n..] == r.done[n..] + [full];
    TailsNext(tail, r.done[n..], full);
    if t.text != text {
      StringsPass(st.tail, t.kind, t.text, text);
    }
    assert t == Token(t.kind, t.text);
  }

  /** Behind a body's first tokens a byte of punctuation is dropped. */
  lemma LandedDrops(st: Stmt, b: char, r: Reading)
    requires Landed(st, r)
    ensures Push(st, Token('p', [b])) == Some(st)
  {
  }

  // -------------------------------------------------------- what is pushed

  /** Before a body starts: a head waits or was passed. */
  ghost predicate Reads(st: Stmt, r: Reading) {
    Waiting(st, r) || exists n, tail :: Passing(st, r, n, tail)
  }

  predicate Fits(r: Reading) {
    if r.kind == NUL then r.cur == "" else r.kind == 'w' || VG.IsQuote(r.kind)
  }

  lemma PushReads(st: Stmt, t: Token, r: Reading, text: string)
    requires Reads(st, r) && r.kind == NUL && Push(st, t).Some?
    requires t.text == text || (VG.IsQuote(t.kind) && st.accepted)
    ensures var next := r.(done := r.done + [Token(t.kind, text)]);
            Push(st, t).value.database == st.database && (Reads(Push(st, t).value, next) || Landed(Push(st, t).value, next))
  {
    hide Push, Waiting, Passing, Landed;
    if Waiting(st, r) {
      NotAccepted(st, r);
      KeepsOn(st, t, r);
      assert t == Token(t.kind, text);
    } else {
      var n, tail :| Passing(st, r, n, tail);
      PassesOn(st, t, r, text, n, tail);
    }
  }

  lemma NotAccepted(st: Stmt, r: Reading)
    requires Waiting(st, r)
    ensures !st.accepted && st.cur == r.cur
  {
  }

  lemma FlushReads(st: Stmt, r: Reading)
    requires Reads(st, r) && Fits(r) && Flush(st).Some?
    ensures var (f, next) := (Flush(st).value, Flushed(r));
            f.database == st.database && (Reads(f, next) || (r.kind != NUL && Landed(f, next)))
    ensures Flush(st).value.curKind == NONE || r.kind == NUL
  {
    hide Push;
    if r.kind != NUL {
      var s := st.(curKind := NONE, cur := "");
      var q := r.(kind := NUL, cur := "");
      NothingRead(st, r);
      PushReads(s, Token(st.curKind, st.cur), q, r.cur);
      PushLeavesNone(s, Token(st.curKind, st.cur));
    }
  }

  /** The token being read is taken away to be pushed. */
  lemma NothingRead(st: Stmt, r: Reading)
    requires Reads(st, r)
    ensures Reads(st.(curKind := NONE, cur := ""), r.(kind := NUL, cur := ""))
    ensures st.curKind == r.kind && (r.kind == 'w' || !st.accepted ==> st.cur == r.cur)
  {
    hide Lets, CheckTails, Waits;
    if !Waiting(st, r) {
      var n, tail :| Passing(st, r, n, tail);
      assert Passing(st.(curKind := NONE, cur := ""), r.(kind := NUL, cur := ""), n, tail);
    }
  }

  lemma PushLeavesNone(st: Stmt, t: Token)
    requires Push(st, t).Some?
    ensures Push(st, t).value.curKind == st.curKind
  {
    hide FeedTokens, CheckTails, ObjectName, AllNamesOk, TriggerTable, AlterTable, DatabaseName, NameOk, Token.Is, CheckSet, NameEnd, SkipInsertModifiers, KindIndex, CheckTail;
  }
}
