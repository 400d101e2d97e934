/** What stands behind the name in the CREATE TABLE statements of an accepted dump.

    No column is generated, no option names a directory of the server, and every default is a literal or
    CURRENT_TIMESTAMP with nothing but a column attribute behind it. */
module TableTails {
  import opened Text
  import opened SqlChecks
  import S = Statements
  import V = ValuesAutomaton
  import N = NumberSyntax
  import opened LineStarts
  import opened InsertHeads
  import opened SR = StatementReading

  // -------------------------------------------------------------- the law

  predicate IsSign(t: Token) {
    t == Token('p', "+") || t == Token('p', "-")
  }

  /** The last DEFAULT of `ts` has nothing but signs behind it. */
  predicate AwaitsValue(ts: seq<Token>) {
    ts != [] && (IsWord(ts[|ts| - 1], "DEFAULT") || (IsSign(ts[|ts| - 1]) && AwaitsValue(ts[..|ts| - 1])))
  }

  /** The options a table's own DEFAULT is followed by. */
  predicate IsCharsetWord(t: Token) {
    IsWord(t, "CHARSET") || IsWord(t, "CHARACTER") || IsWord(t, "COLLATE")
  }

  ghost predicate SpellsNumber(w: string) {
    exists p: N.Parts :: p.Valid() && w == p.Text()
  }

  ghost predicate IsLiteralDefault(t: Token) {
    || t.kind == '\'' || t.kind == '"' || IsWord(t, "NULL") || IsWord(t, "CURRENT_TIMESTAMP") || IsCharsetWord(t)
    || (t.kind == 'w' && SpellsNumber(t.text))
  }

  /** What may stand behind the value `v` of a DEFAULT. */
  predicate MayFollowValue(v: Token, t: Token) {
    || t == Token('p', ",") || t == Token('p', ")") || (t == Token('p', "(") && IsWord(v, "CURRENT_TIMESTAMP"))
    || IsWord(t, "ON") || IsWord(t, "NOT") || IsWord(t, "NULL") || IsWord(t, "AUTO_INCREMENT") || IsWord(t, "UNIQUE")
    || IsWord(t, "PRIMARY") || IsWord(t, "COMMENT") || IsWord(t, "COLLATE") || IsWord(t, "COLUMN_FORMAT") || IsWord(t, "STORAGE")
    || IsWord(t, "REFERENCES") || IsWord(t, "CHECK") || IsWord(t, "INVISIBLE") || IsWord(t, "VISIBLE")
  }

  /** The token at `k` is the value of a column's DEFAULT. */
  predicate IsDefaultsValue(ts: seq<Token>, k: nat)
    requires k < |ts|
  {
    AwaitsValue(ts[..k]) && !IsSign(ts[k])
  }

  /** The token at `k` may stand where it stands. */
  ghost predicate MayStand(ts: seq<Token>, k: nat)
    requires k < |ts|
  {
    && !IsWord(ts[k], "GENERATED") && !IsWord(ts[k], "AS")
    && (IsWord(ts[k], "DIRECTORY") && k > 0 ==> !IsWord(ts[k - 1], "DATA") && !IsWord(ts[k - 1], "INDEX"))
    && (IsDefaultsValue(ts, k) ==> IsLiteralDefault(ts[k]))
    && (k > 0 && IsDefaultsValue(ts, k - 1) && !IsCharsetWord(ts[k - 1]) ==> MayFollowValue(ts[k - 1], ts[k]))
  }

  ghost predicate TailPasses(ts: seq<Token>) {
    forall k :: 0 <= k < |ts| ==> MayStand(ts, k)
  }

  // ------------------------------------------------------------ the checks

  const IN_TABLE := S.NO_TAIL.(table := true)

  /** What the scanner remembers of the tokens before. */
  predicate Remembers(u: S.Tail, ts: seq<Token>) {
    && u.table
    && u.defaultValue == AwaitsValue(ts)
    && u.defaultTail == (ts != [] && IsDefaultsValue(ts, |ts| - 1) && !IsCharsetWord(ts[|ts| - 1]))
    && ((u.word == "DATA" || u.word == "INDEX") <==> ts != [] && (IsWord(ts[|ts| - 1], "DATA") || IsWord(ts[|ts| - 1], "INDEX")))
    && (u.defaultTail ==> (u.word == "CURRENT_TIMESTAMP" <==> IsWord(ts[|ts| - 1], "CURRENT_TIMESTAMP")))
  }

  lemma WordIs(t: Token, word: string)
    requires word != ""
    ensures S.WordOf(t) == word <==> IsWord(t, word)
  {
    SpellsUpper(t.text, word);
  }

  lemma FollowsIs(tailWord: string, v: Token, t: Token)
    requires tailWord == "CURRENT_TIMESTAMP" <==> IsWord(v, "CURRENT_TIMESTAMP")
    ensures S.MayFollowDefault(tailWord, t) <==> MayFollowValue(v, t)
  {
    hide IsWord, Spells, Upper;
    AttributeIs(t);
  }

  lemma AttributeIs(t: Token)
    ensures (t.kind == 'w' && Upper(t.text) in {
              "ON", "NOT", "NULL", "AUTO_INCREMENT", "UNIQUE", "PRIMARY", "COMMENT", "COLLATE",
              "COLUMN_FORMAT", "STORAGE", "REFERENCES", "CHECK", "INVISIBLE", "VISIBLE"}) <==>
            IsWord(t, "ON") || IsWord(t, "NOT") || IsWord(t, "NULL") || IsWord(t, "AUTO_INCREMENT") || IsWord(t, "UNIQUE") ||
            IsWord(t, "PRIMARY") || IsWord(t, "COMMENT") || IsWord(t, "COLLATE") || IsWord(t, "COLUMN_FORMAT") || IsWord(t, "STORAGE") ||
            IsWord(t, "REFERENCES") || IsWord(t, "CHECK") || IsWord(t, "INVISIBLE") || IsWord(t, "VISIBLE")
  {
    hide Spells, Upper;
    SpellsUpper(t.text, "ON");
    SpellsUpper(t.text, "NOT");
    SpellsUpper(t.text, "NULL");
    SpellsUpper(t.text, "AUTO_INCREMENT");
    SpellsUpper(t.text, "UNIQUE");
    SpellsUpper(t.text, "PRIMARY");
    SpellsUpper(t.text, "COMMENT");
    SpellsUpper(t.text, "COLLATE");
    SpellsUpper(t.text, "COLUMN_FORMAT");
    SpellsUpper(t.text, "STORAGE");
    SpellsUpper(t.text, "REFERENCES");
    SpellsUpper(t.text, "CHECK");
    SpellsUpper(t.text, "INVISIBLE");
    SpellsUpper(t.text, "VISIBLE");
  }

  lemma CharsetIs(t: Token)
    ensures S.IsTableWordAfterDefault(t) <==> IsCharsetWord(t)
  {
    hide IsWord, Token.Is;
    IsIsWord(t, "CHARSET");
    IsIsWord(t, "CHARACTER");
    IsIsWord(t, "COLLATE");
  }

  lemma DefaultIs(t: Token)
    ensures S.IsDefaultValue(t) <==> IsLiteralDefault(t)
  {
    hide IsWord, Token.Is, V.IsNumber, S.IsTableWordAfterDefault, IsCharsetWord;
    IsIsWord(t, "NULL");
    IsIsWord(t, "CURRENT_TIMESTAMP");
    CharsetIs(t);
    N.NumberIsItsParts(t.text);
  }

  lemma LastStands(ts: seq<Token>, t: Token)
    ensures TailPasses(ts + [t]) <==> TailPasses(ts) && MayStand(ts + [t], |ts|)
  {
    hide MayStand;
    var all := ts + [t];
    forall k | 0 <= k < |ts| ensures MayStand(all, k) == MayStand(ts, k) {
      StandsAlike(ts, t, k);
    }
    if TailPasses(ts) && MayStand(all, |ts|) {
      forall k | 0 <= k < |all| ensures MayStand(all, k) {
        assert k < |ts| ==> MayStand(ts, k);
      }
    }
    if TailPasses(all) {
      forall k | 0 <= k < |ts| ensures MayStand(ts, k) {
        assert MayStand(all, k);
      }
    }
  }

  lemma StandsAlike(ts: seq<Token>, t: Token, k: nat)
    requires k < |ts|
    ensures MayStand(ts + [t], k) == MayStand(ts, k)
  {
    var all := ts + [t];
    assert all[..k] == ts[..k] && all[k] == ts[k];
    if k > 0 {
      assert all[..k - 1] == ts[..k - 1] && all[k - 1] == ts[k - 1];
    }
    hide IsWord, AwaitsValue, IsLiteralDefault, MayFollowValue, IsCharsetWord;
  }

  lemma WordsOf(t: Token)
    ensures t.Is("DIRECTORY") == IsWord(t, "DIRECTORY") && t.Is("GENERATED") == IsWord(t, "GENERATED") && t.Is("AS") == IsWord(t, "AS")
    ensures t.Is("DEFAULT") == IsWord(t, "DEFAULT")
    ensures (S.WordOf(t) == "DATA" || S.WordOf(t) == "INDEX") <==> IsWord(t, "DATA") || IsWord(t, "INDEX")
    ensures S.WordOf(t) == "CURRENT_TIMESTAMP" <==> IsWord(t, "CURRENT_TIMESTAMP")
    ensures IsSign(t) <==> t.IsPunct("+") || t.IsPunct("-")
    ensures IsSign(t) ==> !IsWord(t, "DATA") && !IsWord(t, "INDEX") && !IsWord(t, "DEFAULT")
  {
    IsIsWord(t, "DIRECTORY");
    IsIsWord(t, "GENERATED");
    IsIsWord(t, "AS");
    IsIsWord(t, "DEFAULT");
    WordIs(t, "DATA");
    WordIs(t, "INDEX");
    WordIs(t, "CURRENT_TIMESTAMP");
    hide Upper, Spells;
  }

  /** What the tokens before make of the next. */
  lemma NextStands(ts: seq<Token>, t: Token)
    ensures AwaitsValue(ts + [t]) <==> IsWord(t, "DEFAULT") || (IsSign(t) && AwaitsValue(ts))
    ensures IsDefaultsValue(ts + [t], |ts|) <==> AwaitsValue(ts) && !IsSign(t)
    ensures ts != [] ==> (IsDefaultsValue(ts + [t], |ts| - 1) <==> IsDefaultsValue(ts, |ts| - 1))
  {
    var all := ts + [t];
    assert all[..|ts|] == ts && all[|all| - 1] == t;
    if ts != [] {
      assert all[..|ts| - 1] == ts[..|ts| - 1];
    }
    hide IsWord;
  }

  /** What is awaited stands behind DEFAULT or a sign. */
  lemma NoOption(ts: seq<Token>)
    requires AwaitsValue(ts)
    ensures ts != [] && !IsWord(ts[|ts| - 1], "DATA") && !IsWord(ts[|ts| - 1], "INDEX")
  {
  }

  lemma TailStep(u: S.Tail, ts: seq<Token>, t: Token)
    requires Remembers(u, ts)
    ensures S.CheckTail(u, t).Some? <==> MayStand(ts + [t], |ts|)
    ensures S.CheckTail(u, t).Some? ==> Remembers(S.CheckTail(u, t).value, ts + [t])
  {
    hide IsWord, AwaitsValue, IsDefaultsValue, S.MayFollowDefault, MayFollowValue, IsLiteralDefault, S.IsDefaultValue, S.IsTableWordAfterDefault,
         IsCharsetWord, Token.Is, S.WordOf, Token.IsPunct;
    NextStands(ts, t);
    WordsOf(t);
    CharsetIs(t);
    DefaultIs(t);
    if AwaitsValue(ts) {
      NoOption(ts);
    }
    if u.defaultTail {
      FollowsIs(u.word, ts[|ts| - 1], t);
    }
  }

  /** Main result on tails: the tokens behind a table's name pass exactly when each may stand where it
      stands. */
  lemma {:induction false} TailsPass(ts: seq<Token>)
    ensures S.CheckTails(IN_TABLE, ts).Some? <==> TailPasses(ts)
    ensures S.CheckTails(IN_TABLE, ts).Some? ==> Remembers(S.CheckTails(IN_TABLE, ts).value, ts)
    decreases |ts|
  {
    hide S.CheckTail, Remembers, MayStand, TailPasses;
    if ts == [] {
      NothingRemembered();
    } else {
      var (init, t) := (ts[..|ts| - 1], ts[|ts| - 1]);
      assert ts == init + [t];
      TailsPass(init);
      TailsNext(IN_TABLE, init, t);
      LastStands(init, t);
      if S.CheckTails(IN_TABLE, init).Some? {
        TailStep(S.CheckTails(IN_TABLE, init).value, init, t);
      }
    }
  }

  lemma NothingRemembered()
    ensures Remembers(IN_TABLE, []) && TailPasses([])
  {
  }
}
