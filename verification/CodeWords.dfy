/** What an accepted dump holds outside quotes and comments: no word that writes a file on the
    database server, and no client command. Both are stated over positions of the text, by the
    lexer alone. */
module CodeWords {
  import opened Text
  import opened SqlChecks
  import S = Statements
  import opened DumpLexer
  import LS = LineStarts

  /** The byte at `k` is a byte of code, for a lexer at position `i` in state `x`. */
  predicate IsCode(text: string, i: nat, x: Lex, k: nat)
    requires i <= |text| && ValidLex(x)
    decreases |text| - i, if x.bol then 1 else 0
  {
    i < |text| && i <= k &&
    match LexStep(text, i, x)
    case None => false
    case Some(out) => if k < out.next then k == i && out.event.Byte? else IsCode(text, out.next, out.lex, k)
  }

  predicate IsCodeWordByte(text: string, i: nat, x: Lex, k: nat)
    requires i <= |text| && ValidLex(x)
  {
    k < |text| && IsWordByte(text[k]) && IsCode(text, i, x, k)
  }

  /** The byte at `k` is read in code mode, outside every quote and comment. */
  predicate InCode(text: string, i: nat, x: Lex, k: nat)
    requires i <= |text| && ValidLex(x)
    decreases |text| - i, if x.bol then 1 else 0
  {
    i < |text| && i <= k &&
    match LexStep(text, i, x)
    case None => false
    case Some(out) =>
      if k < out.next then x.mode.Code? && !x.bol && !out.event.LineComment? else InCode(text, out.next, out.lex, k)
  }

  /** Where no word is being read, none is kept. */
  predicate WordInv(s: Scan) {
    && Valid(s) && PlainDelimiter(s.lex.delim) && |s.word| <= 16
    && (s.lex.bol || !s.lex.mode.Code? ==> s.word == "" && !s.wordLong)
  }

  /** What one step does to the word being read. */
  lemma StepWord(order: S.Order, text: string, i: nat, s: Scan)
    requires i < |text| && WordInv(s) && Step(order, text, i, s).Some?
    ensures var t := Step(order, text, i, s).value.1;
            var word := LexStep(text, i, s.lex).value.event.Byte? && IsWordByte(text[i]);
            if !s.lex.mode.Code? || s.lex.bol then t.word == s.word && t.wordLong == s.wordLong
            else if !word then EndWord(s).Some? && t.word == "" && !t.wordLong
            else if |s.word| < 16 then t.word == s.word + [text[i]] && t.wordLong == s.wordLong
            else t.word == s.word && t.wordLong
  {
    hide LexStep, Check, EndWord;
    var out := LexStep(text, i, s.lex).value;
    if s.lex.mode.Code? && !s.lex.bol {
      PunctuationIsNoWord(text, i, s.lex);
      CodeStepWord(order, text, i, s, out);
    } else {
      LineStepWord(order, text, i, s, out);
    }
  }

  lemma LineStepWord(order: S.Order, text: string, i: nat, s: Scan, out: LexOut)
    requires i < |text| && Valid(s) && (!s.lex.mode.Code? || s.lex.bol) && LexStep(text, i, s.lex) == Some(out)
    requires Check(order, text, i, s, out).Some?
    ensures var t := Check(order, text, i, s, out).value; t.word == s.word && t.wordLong == s.wordLong
  {
    hide LexStep, S.QuoteText, S.EndQuote, UseOk;
    CodeEvents(text, i, s.lex);
  }

  lemma CodeStepWord(order: S.Order, text: string, i: nat, s: Scan, out: LexOut)
    requires i < |text| && WordInv(s) && s.lex.mode.Code? && !s.lex.bol && LexStep(text, i, s.lex) == Some(out)
    requires if out.event.Byte? then true else !IsWordByte(text[i])
    requires Check(order, text, i, s, out).Some?
    ensures var t := Check(order, text, i, s, out).value;
            if !(out.event.Byte? && IsWordByte(text[i])) then EndWord(s).Some? && t.word == "" && !t.wordLong
            else if |s.word| < 16 then t.word == s.word + [text[i]] && t.wordLong == s.wordLong
            else t.word == s.word && t.wordLong
  {
    hide LexStep, S.Space, S.UserVar, VarKey, IsFileWord, Apply, Prelude;
    CodeEvents(text, i, s.lex);
    if !out.event.Newline? {
      PreludeWord(s, text[i]);
      ApplyWord(order, text, i, Prelude(s, text[i]).value.(lex := out.lex), out.event, s.lex.dead);
    }
  }

  lemma PreludeWord(s: Scan, c: char)
    requires Prelude(s, c).Some?
    ensures var p := Prelude(s, c).value;
            if IsWordByte(c) then p == s else EndWord(s).Some? && p.word == "" && !p.wordLong
  {
    hide S.UserVar, VarKey, IsFileWord;
  }

  lemma ApplyWord(order: S.Order, text: string, i: nat, p: Scan, event: Event, dead: bool)
    requires i < |text| && Apply(order, text, i, p, event, dead).Some?
    ensures var t := Apply(order, text, i, p, event, dead).value;
            if !event.Byte? || !IsWordByte(text[i]) then t.word == p.word && t.wordLong == p.wordLong
            else if |p.word| < 16 then t.word == p.word + [text[i]] && t.wordLong == p.wordLong
            else t.word == p.word && t.wordLong
  {
    hide S.CodeByte, S.End, S.Space, S.StartQuote, S.UserVar, VarStart;
  }

  lemma StepKeepsWordInv(order: S.Order, text: string, i: nat, s: Scan)
    requires i < |text| && WordInv(s) && Step(order, text, i, s).Some?
    ensures WordInv(Step(order, text, i, s).value.1)
  {
    StepWord(order, text, i, s);
    DelimiterStaysPlain(text, i, s.lex);
    ByteIsOneStep(text, i, s.lex);
    hide LexStep, Check, PlainDelimiter;
  }

  // ---------------------------------------------------------- file words

  /** The word read so far is text[a..i], cut at 16 bytes. */
  predicate Reading(text: string, i: nat, s: Scan, a: nat)
    requires i <= |text|
  {
    a <= i && s.word == text[a..if i <= a + 16 then i else a + 16] && s.wordLong == (i > a + 16)
  }

  lemma EndedWord(text: string, i: nat, s: Scan, a: nat)
    requires i <= |text| && Reading(text, i, s, a) && EndWord(s).Some?
    ensures !IsFileWord(text[a..i])
  {
    if i <= a + 16 {
    } else {
      assert |text[a..i]| > 16 && |Upper(text[a..i])| > 16;
    }
  }

  /** [a, b) is a maximal run of word bytes of code at or after `i`, where `s` is being read. */
  ghost predicate WordAhead(text: string, i: nat, s: Scan, a: nat, b: nat)
    requires i <= |text| && Valid(s)
  {
    && a < b <= |text| && i <= b
    && (forall k :: a <= k < b && i <= k ==> IsCodeWordByte(text, i, s.lex, k))
    && !IsCodeWordByte(text, i, s.lex, b)
    && (i < a ==> !IsCodeWordByte(text, i, s.lex, a - 1))
    && (a <= i ==> Reading(text, i, s, a))
  }

  /** What is code after a step does not depend on the step. */
  lemma CodeAfterStep(order: S.Order, text: string, i: nat, s: Scan, k: nat)
    requires i < |text| && Valid(s) && Step(order, text, i, s).Some?
    ensures var (j, t) := Step(order, text, i, s).value;
            && (k >= j ==> IsCodeWordByte(text, i, s.lex, k) == IsCodeWordByte(text, j, t.lex, k))
            && (i < k < j ==> !IsCodeWordByte(text, i, s.lex, k))
            && (i < j ==> IsCodeWordByte(text, i, s.lex, i) == (IsWordByte(text[i]) && LexStep(text, i, s.lex).value.event.Byte?))
  {
    hide LexStep, Step;
  }

  lemma StepBeforeWord(order: S.Order, text: string, i: nat, s: Scan, a: nat)
    requires i < |text| && WordInv(s) && Step(order, text, i, s).Some? && i < a
    requires IsCodeWordByte(text, i, s.lex, a) && !IsCodeWordByte(text, i, s.lex, a - 1)
    ensures var (j, t) := Step(order, text, i, s).value;
            j <= a && (j == a ==> t.word == "" && !t.wordLong)
  {
    hide LexStep, Step, IsCodeWordByte;
    StepWord(order, text, i, s);
    CodeAfterStep(order, text, i, s, a);
    ByteIsOneStep(text, i, s.lex);
  }

  lemma StepInWord(order: S.Order, text: string, i: nat, s: Scan, a: nat)
    requires i < |text| && WordInv(s) && Step(order, text, i, s).Some? && a <= i
    requires IsCodeWordByte(text, i, s.lex, i) && Reading(text, i, s, a)
    ensures var (j, t) := Step(order, text, i, s).value;
            j <= i + 1 && Reading(text, j, t, a)
  {
    hide LexStep, Step;
    StepWord(order, text, i, s);
    CodeAfterStep(order, text, i, s, i);
    ByteIsOneStep(text, i, s.lex);
  }

  lemma StepToWord(order: S.Order, text: string, i: nat, s: Scan, a: nat, b: nat)
    requires i < |text| && WordInv(s) && WordAhead(text, i, s, a, b) && i < b && Step(order, text, i, s).Some?
    ensures var (j, t) := Step(order, text, i, s).value; WordAhead(text, j, t, a, b)
  {
    hide LexStep, Step, IsCodeWordByte;
    var (j, t) := Step(order, text, i, s).value;
    if i < a {
      StepBeforeWord(order, text, i, s, a);
      CodeAfterStep(order, text, i, s, a - 1);
    } else {
      StepInWord(order, text, i, s, a);
    }
    forall k | a <= k <= b && j <= k ensures IsCodeWordByte(text, j, t.lex, k) == IsCodeWordByte(text, i, s.lex, k) {
      CodeAfterStep(order, text, i, s, k);
    }
  }

  lemma {:induction false} RunReadsNoFileWord(order: S.Order, text: string, i: nat, s: Scan, a: nat, b: nat)
    requires i <= |text| && WordInv(s) && WordAhead(text, i, s, a, b) && Run(order, text, i, s)
    ensures !IsFileWord(text[a..b])
    decreases |text| - i, if s.lex.bol then 1 else 0
  {
    if i == b {
      if i == |text| {
        EndedWord(text, i, EndVar(s), a);
      } else {
        StepWord(order, text, i, s);
        hide LexStep, Step;
        EndedWord(text, i, s, a);
      }
    } else {
      StepKeepsWordInv(order, text, i, s);
      StepToWord(order, text, i, s, a, b);
      hide LexStep, Step, WordInv, WordAhead;
      var (j, t) := Step(order, text, i, s).value;
      RunReadsNoFileWord(order, text, j, t, a, b);
    }
  }

  lemma FileWordIs(w: string)
    ensures IsFileWord(w) <==> LS.Spells(w, "OUTFILE") || LS.Spells(w, "DUMPFILE")
  {
    LS.SpellsUpper(w, "OUTFILE");
    LS.SpellsUpper(w, "DUMPFILE");
    hide LS.Spells, Upper;
  }

  lemma StartsAhead(text: string, database: string, a: nat, b: nat)
    requires a < b <= |text| && forall k :: a <= k < b ==> IsCodeWordByte(text, 0, START, k)
    requires (a > 0 ==> !IsCodeWordByte(text, 0, START, a - 1)) && !IsCodeWordByte(text, 0, START, b)
    ensures WordInv(Begin(database)) && WordAhead(text, 0, Begin(database), a, b)
  {
    hide IsCodeWordByte;
  }

  /** Main result: in an accepted dump no maximal word of code is OUTFILE or DUMPFILE in any case. */
  lemma NoFileWords(order: S.Order, text: string, database: string, a: nat, b: nat)
    requires Accepts(order, text, database) && a < b <= |text|
    requires forall k :: a <= k < b ==> IsCodeWordByte(text, 0, START, k)
    requires a > 0 ==> !IsCodeWordByte(text, 0, START, a - 1)
    requires !IsCodeWordByte(text, 0, START, b)
    ensures !LS.Spells(text[a..b], "OUTFILE") && !LS.Spells(text[a..b], "DUMPFILE")
  {
    FileWordIs(text[a..b]);
    StartsAhead(text, database, a, b);
    hide Run, IsCodeWordByte, WordInv, WordAhead, Begin, LS.Spells, IsFileWord;
    RunReadsNoFileWord(order, text, 0, Begin(database), a, b);
  }

  // ---------------------------------------------------------- backslashes

  lemma DelimiterBytes(text: string, i: nat, delim: string, k: nat)
    ensures DelimiterAt(text, i, delim) && i <= k < i + |delim| ==> text[k] == delim[k - i]
  {
    if DelimiterAt(text, i, delim) && i <= k < i + |delim| {
      assert text[k] == text[i..i + |delim|][k - i];
    }
  }

  lemma BackslashStep(text: string, i: nat, x: Lex, k: nat)
    requires i < |text| && ValidLex(x) && x.mode.Code? && !x.bol && PlainDelimiter(x.delim)
    requires LexStep(text, i, x).Some? && !LexStep(text, i, x).value.event.LineComment?
    requires i <= k < LexStep(text, i, x).value.next && text[k] == '\\'
    ensures At(text, k + 1, '-')
  {
    var out := LexStep(text, i, x).value;
    DelimiterBytes(text, i, x.delim, k);
  }

  lemma {:induction false} RunReadsNoCommand(order: S.Order, text: string, i: nat, s: Scan, k: nat)
    requires i <= |text| && Valid(s) && PlainDelimiter(s.lex.delim) && Run(order, text, i, s)
    requires InCode(text, i, s.lex, k) && At(text, k, '\\')
    ensures At(text, k + 1, '-')
    decreases |text| - i, if s.lex.bol then 1 else 0
  {
    hide Step, PlainDelimiter, LexStep;
    var (j, t) := Step(order, text, i, s).value;
    if k < j {
      BackslashStep(text, i, s.lex, k);
    } else {
      DelimiterStaysPlain(text, i, s.lex);
      RunReadsNoCommand(order, text, j, t, k);
    }
  }

  /** Main result: in an accepted dump every backslash of code is the start of `\-`. */
  lemma BackslashesAreSandboxMarks(order: S.Order, text: string, database: string, k: nat)
    requires Accepts(order, text, database) && InCode(text, 0, START, k) && At(text, k, '\\')
    ensures At(text, k + 1, '-')
  {
    hide Run, InCode;
    RunReadsNoCommand(order, text, 0, Begin(database), k);
  }
}
