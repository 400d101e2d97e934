/** SET statements as the scan reads them: every token is kept, and every user variable recorded. */
module SetRuns {
  import opened Text
  import opened SqlChecks
  import S = Statements
  import opened DumpLexer
  import opened SessionSafety
  import opened TokenRuns

  function RefersAll(st: S.Stmt, ts: seq<Token>): S.Stmt
    decreases |ts|
  {
    if ts == [] then st else RefersAll(Refers(st, ts[0]), ts[1..])
  }

  /** The head of a SET statement, or the start of one. */
  predicate InSet(st: S.Stmt) {
    Resting(st) && !st.accepted && (st.tokens != [] ==> st.tokens[0].Is("SET"))
  }

  lemma PushesOne(st: S.Stmt, t: Token)
    requires InSet(st) && (st.tokens + [t])[0].Is("SET") && st.size + |t.text| <= MAX_HEAD
    ensures Pushed(st, t) == Some(Refers(st.(started := true), t).(tokens := st.tokens + [t], size := st.size + |t.text|))
    ensures InSet(Pushed(st, t).value)
  {
    var r := Refers(st.(started := true), t);
    RefersKeeps(st.(started := true), t);
    SetIsJudgedWhole(r.(tokens := r.tokens + [t], size := r.size + |t.text|));
    hide S.CheckHead, Refers;
  }

  /** A token of a SET statement is kept. */
  lemma SetKeeps(st: S.Stmt, t: Token)
    requires InSet(st) && st.tokens != [] && st.size + |t.text| <= MAX_HEAD
    ensures S.Push(st, t) == Some(st.(tokens := st.tokens + [t], size := st.size + |t.text|))
    ensures InSet(S.Push(st, t).value)
  {
    SetIsJudgedWhole(st.(tokens := st.tokens + [t], size := st.size + |t.text|));
    hide S.CheckHead;
  }

  /** Refers commutes with what pushing changes. */
  lemma RefersIgnores(st: S.Stmt, t: Token, tokens: seq<Token>, size: nat)
    ensures Refers(st.(started := true, tokens := tokens, size := size), t) ==
              Refers(st, t).(started := true, tokens := tokens, size := size)
  {
    hide VarKey;
  }

  lemma {:induction false} AllIgnore(st: S.Stmt, ts: seq<Token>, tokens: seq<Token>, size: nat)
    ensures RefersAll(st.(started := true, tokens := tokens, size := size), ts) ==
              RefersAll(st, ts).(started := true, tokens := tokens, size := size)
    decreases |ts|
  {
    hide Refers;
    if ts != [] {
      RefersIgnores(st, ts[0], tokens, size);
      AllIgnore(Refers(st, ts[0]), ts[1..], tokens, size);
    }
  }

  /** The tokens of a SET statement are all kept. */
  lemma {:induction false} PushesSet(st: S.Stmt, ts: seq<Token>)
    requires InSet(st) && ts != [] && (st.tokens + ts)[0].Is("SET") && st.size + |Written(ts)| <= MAX_HEAD
    ensures PushAll(st, ts).Some?
    ensures var u := PushAll(st, ts).value;
            InSet(u) && u == RefersAll(st, ts).(started := true, tokens := st.tokens + ts, size := u.size) && u.size <= st.size + |Written(ts)|
    decreases |ts|
  {
    hide Pushed, Refers, Token.Is;
    var t := ts[0];
    assert (st.tokens + [t])[0] == (st.tokens + ts)[0];
    assert |Written(ts)| == |t.text| + 1 + |Written(ts[1..])|;
    PushesOne(st, t);
    RefersIgnores(st, t, st.tokens, st.size);
    var u := Pushed(st, t).value;
    assert u == Refers(st, t).(started := true, tokens := st.tokens + [t], size := st.size + |t.text|);
    assert st.tokens + [t] + ts[1..] == st.tokens + ts;
    AllIgnore(Refers(st, t), ts[1..], st.tokens + [t], st.size + |t.text|);
    if ts[1..] != [] {
      PushesSet(u, ts[1..]);
    }
  }

  lemma {:induction false} RefersAdds(st: S.Stmt, a: seq<Token>, b: seq<Token>)
    ensures RefersAll(st, a + b) == RefersAll(RefersAll(st, a), b)
    decreases |a|
  {
    hide Refers;
    if a == [] {
      assert a + b == b;
    } else {
      assert (a + b)[1..] == a[1..] + b && (a + b)[0] == a[0];
      RefersAdds(Refers(st, a[0]), a[1..], b);
    }
  }

  /** Tokens without a user variable refer to none. */
  lemma {:induction false} RefersToNone(st: S.Stmt, ts: seq<Token>)
    requires forall k :: 0 <= k < |ts| ==> !(ts[k].kind == 'w' && Sigils(ts[k]) == 1)
    ensures RefersAll(st, ts) == st
    decreases |ts|
  {
    hide VarKey, S.UserVar;
    if ts != [] {
      RefersToNone(st, ts[1..]);
    }
  }
}
