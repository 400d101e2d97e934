/** Every user variable the scanner reports has a name that a dump can write again: short, ASCII, and
    without a part that would be refused as a word. */
module SpokenNames {
  import opened Text
  import opened SqlChecks
  import S = Statements
  import F = StatementFrames
  import T = TokenRuns
  import opened DumpLexer
  import R = ScanRuns
  import opened Mentions
  import opened SessionModel
  import opened SessionSafety
  import opened LogRuns

  predicate Speakable(v: string) {
    1 < |v| <= 65 && v[0] == '@' && T.Sayable(v[1..]) && Upper(v) == v && forall k :: 0 <= k < |v| ==> v[k] as int < 0x80
  }

  predicate Known(names: set<string>) {
    forall v :: v in names ==> v == "" || Speakable(v)
  }

  // --------------------------------------------------------- upper case

  lemma UpperKeepsFileWords(w: string)
    ensures IsFileWord(Upper(w)) == IsFileWord(w)
  {
    assert Upper(Upper(w)) == Upper(w);
  }

  lemma {:induction false} SpokenUpper(word: string, long: bool, w: string)
    ensures T.Spoken(Upper(word), long, Upper(w)) ==
            match T.Spoken(word, long, w) case None => None case Some(x) => Some((Upper(x.0), x.1))
    decreases |w|
  {
    hide IsFileWord;
    UpperKeepsFileWords(word);
    if w != "" {
      var c := w[0];
      assert IsWordByte(UpperChar(c)) == IsWordByte(c) && (UpperChar(c) == '.') == (c == '.');
      assert Upper(w)[1..] == Upper(w[1..]) && Upper("") == "";
      assert Upper(word) + [UpperChar(c)] == Upper(word + [c]);
      SpokenUpper("", false, w[1..]);
      SpokenUpper(word, long, w[1..]);
      SpokenUpper(word, true, w[1..]);
      SpokenUpper(word + [c], long, w[1..]);
    }
  }

  lemma SayableUpper(w: string)
    requires T.Sayable(w)
    ensures T.Sayable(Upper(w))
  {
    hide IsFileWord, T.Spoken;
    SpokenUpper("", false, w);
    assert Upper("") == "";
    UpperKeepsFileWords(T.Spoken("", false, w).value.0);
  }

  lemma KeyIsSpeakable(name: string)
    requires T.Sayable(name) && |name| <= 64
    ensures Known({VarKey(name, false)})
  {
    hide T.Spoken, IsFileWord;
    SayableUpper(name);
    var v := VarKey(name, false);
    if v != "" {
      assert v[1..] == Upper(name);
      assert Upper(v) == v;
      forall k | 0 <= k < |v| ensures v[k] as int < 0x80 {
        if k > 0 {
          assert v[k] == UpperChar(name[k - 1]);
        }
      }
    }
  }

  // ----------------------------------------------- the name being read

  /** The name read so far can be written again, and the code word is its last part. */
  predicate Reading(text: string, i: nat, s: Scan) {
    && |s.varName| <= 64 && (forall k :: 0 <= k < |s.varName| ==> IsNameByte(s.varName[k]))
    && T.Spoken("", false, s.varName) == Some((s.word, s.wordLong))
    && if s.varName == "" then i < |text| && IsWordByte(text[i]) else IsWordByte(s.varName[0])
  }

  predicate SayInv(text: string, i: nat, s: Scan) {
    Known(s.stmt.varRefs) && (s.inVar && !s.varLong ==> Reading(text, i, s))
  }

  lemma {:induction false} SpokenMore(word: string, long: bool, w: string, c: char)
    requires T.Spoken(word, long, w).Some?
    ensures T.Spoken(word, long, w + [c]) == T.Spoken(T.Spoken(word, long, w).value.0, T.Spoken(word, long, w).value.1, [c])
    decreases |w|
  {
    hide IsFileWord;
    if w == "" {
      assert w + [c] == [c];
    } else {
      assert (w + [c])[1..] == w[1..] + [c] && (w + [c])[0] == w[0];
      if w[0] == '.' {
        SpokenMore("", false, w[1..], c);
      } else if !IsWordByte(w[0]) {
        SpokenMore(word, long, w[1..], c);
      } else if |word| < 16 {
        SpokenMore(word + [w[0]], long, w[1..], c);
      } else {
        SpokenMore(word, true, w[1..], c);
      }
    }
  }

  lemma AddsName(st: S.Stmt, name: string)
    requires Known(st.varRefs) && Known({name})
    ensures Known(S.UserVar(st, name).varRefs)
  {
    hide Speakable;
    assert name in {name};
  }

  /** The end of a name, at a byte that is no part of it. */
  lemma EndVarSays(text: string, i: nat, s: Scan)
    requires SayInv(text, i, s) && (i < |text| ==> !IsNameByte(text[i])) && (s.wordLong || !IsFileWord(s.word))
    ensures Known(EndVar(s).stmt.varRefs) && !EndVar(s).inVar
  {
    hide S.UserVar, T.Spoken, IsFileWord, Speakable;
    if s.inVar {
      if s.varLong {
        AddsName(s.stmt, "");
      } else {
        assert T.Sayable(s.varName);
        KeyIsSpeakable(s.varName);
        AddsName(s.stmt, VarKey(s.varName, false));
      }
    }
  }

  // -------------------------------------------------------------- steps

  /** What the bytes that end nothing of a name do before they are read. */
  lemma PreludeSays(text: string, i: nat, s: Scan)
    requires i < |text| && SayInv(text, i, s) && Prelude(s, text[i]).Some?
    ensures var (e, c) := (Prelude(s, text[i]).value, text[i]);
            && Known(e.stmt.varRefs)
            && (IsWordByte(c) ==> e == s)
            && (c == '.' ==> e == s.(word := "", wordLong := false) && (s.wordLong || !IsFileWord(s.word)))
            && (!IsNameByte(c) ==> !e.inVar && e.word == "" && !e.wordLong)
  {
    hide IsFileWord, EndVar, Reading, Known;
    if !IsNameByte(text[i]) {
      var w := EndWord(s).value;
      assert w == s.(word := "", wordLong := false);
      EndVarIgnoresWord(s);
      EndVarSays(text, i, s);
    }
  }

  lemma EndVarIgnoresWord(s: Scan)
    ensures EndVar(s.(word := "", wordLong := false)) == EndVar(s).(word := "", wordLong := false)
  {
    hide VarKey, S.UserVar;
  }

  /** One more byte of a name. */
  lemma NameByteSays(text: string, i: nat, s: Scan, e: Scan)
    requires i < |text| && Reading(text, i, s) && IsNameByte(text[i]) && |s.varName| < 64
    requires if text[i] == '.' then e == s.(word := "", wordLong := false) && (s.wordLong || !IsFileWord(s.word)) else e == s
    ensures Reading(text, i + 1, WordByte(e.(varName := s.varName + [text[i]]), text[i]))
  {
    hide IsFileWord;
    SpokenMore("", false, s.varName, text[i]);
    assert "" + [text[i]] == [text[i]];
    assert [text[i]][1..] == "";
    assert T.Spoken("", false, "") == Some(("", false));
    hide T.Spoken;
    NextPart(s, text[i]);
  }

  lemma NextPart(s: Scan, c: char)
    requires IsNameByte(c) && (c == '.' ==> s.wordLong || !IsFileWord(s.word))
    ensures T.Spoken(s.word, s.wordLong, [c]) ==
            Some(if c == '.' then ("", false) else var w := WordByte(s, c); (w.word, w.wordLong))
  {
    hide IsFileWord;
    assert [c][1..] == "";
  }

  lemma TrackSays(text: string, i: nat, s: Scan, e: Scan, prev: char)
    requires i < |text| && SayInv(text, i, s) && Prelude(s, text[i]) == Some(e.(prev := s.prev)) && (s.inVar ==> !s.lex.dead)
    ensures SayInv(text, i + 1, WordByte(TrackVar(text, i, e, prev, text[i]), text[i]))
  {
    PreludeSays(text, i, s);
    var c := text[i];
    hide Prelude, IsFileWord, Speakable;
    if e.lex.dead {
    } else if c == '@' {
      hide Reading;
      match VarStart(text, i, prev)
      case NoVar =>
      case Named => StartsReading(text, i, e.(inVar := true, varLong := false, varName := ""));
      case Nameless => AddsName(e.stmt, "");
    } else if e.inVar && !e.varLong {
      if |e.varName| < 64 {
        NameByteSays(text, i, s, e.(prev := s.prev));
      }
    }
  }

  lemma StartsReading(text: string, i: nat, s: Scan)
    requires i + 1 < |text| && IsWordByte(text[i + 1]) && s.varName == "" && s.word == "" && !s.wordLong
    ensures Reading(text, i + 1, s)
  {
  }

  lemma LineSays(order: S.Order, text: string, i: nat, s: Scan)
    requires i < |text| && Valid(s) && (!s.lex.mode.Code? || s.lex.bol) && !s.inVar && Step(order, text, i, s).Some?
    ensures var t := Step(order, text, i, s).value.1; t.stmt.varRefs == s.stmt.varRefs && !t.inVar
  {
    hide LexStep, S.QuoteText, S.EndQuote, UseOk;
    CodeEvents(text, i, s.lex);
    var out := LexStep(text, i, s.lex).value;
    match out.event
    case QuoteText(bs) => F.QuoteTextKeepsSession(s.stmt, bs);
    case CloseQuote(_) => F.EndQuoteKeepsSession(s.stmt);
    case _ =>
  }

  lemma NewlineSays(order: S.Order, text: string, i: nat, s: Scan)
    requires i < |text| && Valid(s) && s.lex.mode.Code? && !s.lex.bol && text[i] == '\n' && SayInv(text, i, s)
    requires Step(order, text, i, s).Some?
    ensures var t := Step(order, text, i, s).value.1; Known(t.stmt.varRefs) && !t.inVar
  {
    hide S.Space, IsFileWord, EndVar, Reading, Known;
    R.StepAtNewline(order, text, i, s);
    var n := s.(lex := s.lex.(bol := true), prev := ' ');
    EndVarKeepsWord(n);
    F.SpaceKeepsSession(EndVar(n).stmt);
    ReadingIgnoresLex(text, i, s, n);
    EndVarSays(text, i, n);
  }

  lemma EndVarKeepsWord(s: Scan)
    ensures EndVar(s).word == s.word && EndVar(s).wordLong == s.wordLong
  {
    hide VarKey, S.UserVar;
  }

  lemma ReadingIgnoresLex(text: string, i: nat, s: Scan, n: Scan)
    requires SayInv(text, i, s) && n == s.(lex := n.lex, prev := n.prev)
    ensures SayInv(text, i, n)
  {
    hide T.Spoken, Known;
  }

  lemma PunctuationSays(order: S.Order, text: string, i: nat, s: Scan)
    requires i < |text| && Valid(s) && PlainDelimiter(s.lex.delim) && s.lex.mode.Code? && !s.lex.bol && text[i] != '\n'
    requires SayInv(text, i, s) && Step(order, text, i, s).Some? && !LexStep(text, i, s.lex).value.event.Byte?
    ensures Prelude(s, text[i]).Some? && Known(Prelude(s, text[i]).value.stmt.varRefs)
    ensures var t := Step(order, text, i, s).value.1; Known(t.stmt.varRefs) && !t.inVar
  {
    hide LexStep, Prelude, Punctuate, Known, SayInv, S.Poison, S.Closing, S.Space, PlainDelimiter;
    PunctuationIsNoWord(text, i, s.lex);
    CodeEvents(text, i, s.lex);
    PreludeSays(text, i, s);
    var (e, event) := (Prelude(s, text[i]).value, LexStep(text, i, s.lex).value.event);
    if event.EndStatement? {
      EndIsPunctuation(order, e.stmt, event, s.lex.dead);
      NothingKnown();
    } else {
      PunctuateReports(order, e.stmt, event, s.lex.dead);
    }
  }

  lemma NothingKnown()
    ensures Known({})
  {
  }

  lemma ByteSays(order: S.Order, text: string, i: nat, s: Scan)
    requires i < |text| && Valid(s) && s.lex.mode.Code? && !s.lex.bol && (s.inVar ==> !s.lex.dead)
    requires SayInv(text, i, s) && Step(order, text, i, s).Some? && LexStep(text, i, s.lex).value.event.Byte?
    ensures var (j, t) := Step(order, text, i, s).value; j == i + 1 && SayInv(text, j, t)
  {
    hide LexStep, Prelude, SayInv, S.CodeByte, TrackVar, WordByte;
    ByteIsOneStep(text, i, s.lex);
    CodeEvents(text, i, s.lex);
    var c := text[i];
    var p := Prelude(s, c).value.(lex := s.lex);
    var w := WordByte(TrackVar(text, i, p.(prev := c), p.prev, c), c);
    TrackSays(text, i, s, p.(prev := c), p.prev);
    if !s.lex.dead {
      F.CodeByteKeepsSession(w.stmt, c);
      SayIgnoresStmt(text, i + 1, w, S.CodeByte(w.stmt, c).value);
    }
  }

  lemma SayIgnoresStmt(text: string, i: nat, s: Scan, st: S.Stmt)
    requires SayInv(text, i, s) && st.varRefs == s.stmt.varRefs
    ensures SayInv(text, i, s.(stmt := st))
  {
    hide T.Spoken, Known;
  }

  lemma SaysNothing(text: string, i: nat, s: Scan)
    requires Known(s.stmt.varRefs) && !s.inVar
    ensures SayInv(text, i, s)
  {
  }

  /** Every step keeps it. */
  lemma StepSays(order: S.Order, text: string, i: nat, s: Scan, p: nat)
    requires i < |text| && NameInv(text, i, s, p) && Valid(s) && SayInv(text, i, s) && Step(order, text, i, s).Some?
    ensures var (j, t) := Step(order, text, i, s).value; SayInv(text, j, t)
    ensures LexStep(text, i, s.lex).value.event.EndStatement? ==>
              Prelude(s, text[i]).Some? && Known(Prelude(s, text[i]).value.stmt.varRefs)
  {
    hide LexStep, Step, SayInv, Prelude, Known, InName, PlainDelimiter;
    var (j, t) := Step(order, text, i, s).value;
    CodeEvents(text, i, s.lex);
    if !s.lex.mode.Code? || s.lex.bol {
      RefsAreKnown(text, i, s);
      LineSays(order, text, i, s);
      SaysNothing(text, j, t);
    } else if text[i] == '\n' {
      NewlineSays(order, text, i, s);
      SaysNothing(text, j, t);
    } else if LexStep(text, i, s.lex).value.event.Byte? {
      ByteSays(order, text, i, s);
    } else {
      PunctuationSays(order, text, i, s);
      SaysNothing(text, j, t);
    }
  }

  lemma RefsAreKnown(text: string, i: nat, s: Scan)
    requires SayInv(text, i, s)
    ensures Known(s.stmt.varRefs)
  {
  }

  /** Every variable that some statement of the log mentions. */
  predicate AllKnown(log: seq<Ended>) {
    forall k :: 0 <= k < |log| ==> Known(log[k].mentioned)
  }

  /** Main result: while the checker still tracks variables, every variable a statement of the dump
      mentions has a name that can be written again, or none. */
  lemma {:induction false} MentionsAreSpeakable(order: S.Order, text: string, i: nat, s: Scan, mentioned: set<string>, p: nat, n: nat)
    requires i <= |text| && NameInv(text, i, s, p) && Valid(s) && SayInv(text, i, s)
    requires Reported(s.stmt, mentioned, Pending(text, s, p))
    requires R.After(order, text, i, s, n).Some? && R.After(order, text, i, s, n).value.1.stmt.vars.Tracked?
    ensures AllKnown(Logged(order, text, i, s, mentioned, n).0)
    decreases n
  {
    hide LexStep, Step, NameInv, Prelude, R.After, Pending, StepMentions, S.End, SayInv, Known, HeadTokens;
    R.AfterFirst(order, text, i, s, n);
    if n > 0 {
      var (j, t) := Step(order, text, i, s).value;
      StepSays(order, text, i, s, p);
      if LexStep(text, i, s.lex).value.event.EndStatement? {
        EndReports(order, text, i, s, mentioned, p);
        MentionsAreSpeakable(order, text, j, t, {}, p, n - 1);
        if Prelude(s, text[i]).value.stmt.vars.Untrusted? {
          EndStaysUntrusted(order, Prelude(s, text[i]).value.stmt);
          RunStaysUntrusted(order, text, j, t, {}, p, n - 1);
        }
        var e := Prelude(s, text[i]).value.stmt;
        assert mentioned == e.varRefs + {};
        assert e.varRefs + {} == e.varRefs;
      } else {
        var q := StepReports(order, text, i, s, mentioned, p);
        MentionsAreSpeakable(order, text, j, t, mentioned + StepMentions(text, i, s.lex), q, n - 1);
      }
    }
  }
}
