/** dumpScanner of internal/cmd/dumpscan.go: the buffered scanner, updated in place.

    `View(bol)` is the scanner's state as a value, with `bol` telling whether it is about to look
    for client commands at a line start. `Tied(bol)` says that this is the state of the pure scan at
    the same position of the text, and that the pure scan of the rest gives the verdict on the dump.
    Every method keeps that, so the scanner refines the pure scan for every dump and every split of
    it into reads. */
module DumpScan {
  import opened Text
  import opened SqlChecks
  import S = Statements
  import opened StmtChecker
  import opened BufferedReader
  import L = DumpLexer
  import R = ScanRuns
  import F = ReadFaults
  import B = StatementBounds

  const MAX_DELIMITER := 16

  class DumpScanner {
    const r: Reader
    const stmt: StmtCheck
    ghost const verdict: bool   // what the pure scan says of the whole dump
    ghost var st: S.Stmt        // what `stmt` holds while it has not refused
    ghost var steps: nat        // how many steps of the pure scan were taken

    var delim: string
    var mode: L.Mode            // the source's state and quote
    var cond: bool
    var dead: bool
    var prev: char
    var word: string
    var wordLong: bool
    var varName: string
    var inVar: bool
    var varLong: bool

    ghost function Repr(): set<object>
      reads this, stmt
    {
      {this, r, stmt} + stmt.Repr()
    }

    ghost predicate StmtOk()
      reads `st, stmt, stmt.vars, stmt.values
    {
      stmt.vars.Bounded() && (!stmt.err ==> st == stmt.State())
    }

    ghost predicate Valid()
      reads this, r, stmt, stmt.vars, stmt.values
    {
      r.Valid() && StmtOk() && 0 < |delim| <= MAX_DELIMITER
    }

    ghost function LexView(bol: bool): L.Lex
      reads `mode, `cond, `dead, `delim
    {
      L.Lex(mode, bol, cond, dead, delim)
    }

    ghost function View(bol: bool): L.Scan
      reads this
    {
      L.Scan(LexView(bol), prev, word, wordLong, inVar, varLong, varName, st)
    }

    constructor (chunks: seq<string>, faults: nat, database: string, order: S.Order)
      requires forall k :: 0 <= k < |chunks| ==> chunks[k] != ""
      ensures fresh(Repr()) && Valid() && r.text == Flatten(chunks) && r.pos == 0 && r.faults == faults && mode.Code?
      ensures stmt.order == order && verdict == F.Accepts(order, r.text, database, faults)
      ensures !stmt.err && View(true) == L.Begin(database) && stmt.database == database && steps == 0
    {
      hide Flatten, F.Accepts;
      delim, mode, cond, dead, prev := ";", L.Code, false, false, ' ';
      word, wordLong, varName, inVar, varLong := "", false, "", false, false;
      r := new Reader(chunks, faults);
      stmt := new StmtCheck(database, order);
      verdict := F.Accepts(order, Flatten(chunks), database, faults);
      st := S.Fresh(database, S.Tracked(map[], {}), 0);
      steps := 0;
    }

    /** The pure scan of the text is in the state `s` at position `i` after this many steps. */
    ghost predicate Reached(i: nat, s: L.Scan)
      reads `steps
    {
      R.After(stmt.order, r.text, 0, L.Begin(stmt.database), steps) == Some((i, s))
    }

    /** The scanner's state is the pure scan's at its position, where the end of the text is the
        same at a line start and within a line. */
    ghost predicate Follows(bol: bool)
      reads this, r
    {
      Reached(r.pos, View(bol)) || (r.pos == |r.text| && Reached(r.pos, View(true)))
    }

    /** Nothing refused so far, the state is the pure scan's, and its verdict on the rest is the dump's. */
    ghost predicate Tied(bol: bool)
      reads this, r, stmt, stmt.vars, stmt.values
    {
      && Valid() && !stmt.err && R.Inv(View(bol)) && verdict == F.Run(stmt.order, r.text, r.pos, View(bol), r.faults)
      && Follows(bol)
    }

    /** The step the pure scan takes at position `i` from the current state. */
    ghost function StepAt(i: nat, bol: bool): Option<(nat, L.Scan, nat)>
      requires i < |r.text| && L.Valid(View(bol))
      reads this, r
    {
      F.Step(stmt.order, r.text, i, View(bol), r.faults)
    }

    /** The scanner refused, or took exactly this step. */
    ghost predicate Took(step: Option<(nat, L.Scan, nat)>, good: bool, bol: bool)
      reads this, r, stmt
    {
      match step
      case None => !good || stmt.err
      case Some((j, s, faults)) => good && !stmt.err && r.pos == j && View(bol) == s && r.faults == faults
    }

    // ------------------------------------------------------ small pieces

    /** Consumes the next byte if it is `c`. */
    method Next(c: char) returns (found: bool)
      requires r.Valid()
      modifies r
      ensures r.Valid() && found == At(r.text, old(r.pos), c)
      ensures r.pos == old(r.pos) + if found then 1 else 0
      ensures r.faults == F.Less(old(r.faults), F.Past(r.text, old(r.pos), 1))
    {
      var b := r.Peek(1);
      found := |b| > 0 && b[0] == c;
      if found {
        r.Discard(1);
      }
    }

    method PeekByte() returns (b: Option<char>)
      requires r.Valid()
      modifies r`buf, r`chunks, r`faults, r`staged
      ensures r.Valid() && b == if r.pos < |r.text| then Some(r.text[r.pos]) else None
      ensures r.faults == F.Less(old(r.faults), F.Past(r.text, r.pos, 1))
    {
      hide Flatten;
      var head := r.Peek(1);
      b := if head == "" then None else Some(head[0]);
    }

    method EndWord() returns (good: bool)
      modifies this`word, this`wordLong
      ensures good == !(!old(wordLong) && L.IsFileWord(old(word)))
      ensures word == "" && !wordLong
    {
      var w, long := word, wordLong;
      word, wordLong := "", false;
      if long || |w| < 7 {
        return true;
      }
      good := Upper(w) != "OUTFILE" && Upper(w) != "DUMPFILE";
    }

    method EndVar()
      requires StmtOk() && !stmt.err
      modifies this`inVar, this`st, stmt.Repr()
      ensures StmtOk() && stmt.Repr() == old(stmt.Repr()) && !stmt.err
      ensures View(false) == L.EndVar(old(View(false))) && View(true) == L.EndVar(old(View(true)))
    {
      hide L.VarKey, S.UserVar;
      if !inVar {
        return;
      }
      inVar := false;
      stmt.UserVar(L.VarKey(varName, varLong));
      st := stmt.State();
    }

    /** Records a mention of a user variable that cannot be named. */
    method NamelessVar()
      requires StmtOk() && !stmt.err
      modifies this`st, stmt.Repr()
      ensures StmtOk() && stmt.Repr() == old(stmt.Repr()) && !stmt.err
      ensures st == S.UserVar(old(st), "")
    {
      hide S.UserVar;
      stmt.UserVar("");
      st := stmt.State();
    }

    /** The statement checker refused, or is in the state `next`. */
    ghost predicate Fed(next: Option<S.Stmt>)
      reads this, stmt
    {
      match next
      case None => stmt.err
      case Some(x) => !stmt.err && st == x
    }

    method FeedByte(c: char)
      requires StmtOk() && !stmt.err
      modifies this`st, stmt.Repr()
      ensures StmtOk() && fresh(stmt.Repr() - old(stmt.Repr())) && Fed(S.CodeByte(old(st), c))
    {
      hide S.CodeByte;
      stmt.CodeByte(c);
      st := stmt.State();
    }

    method FeedText(bs: string)
      requires StmtOk() && !stmt.err
      modifies this`st, stmt.Repr()
      ensures StmtOk() && stmt.Repr() == old(stmt.Repr()) && Fed(S.QuoteText(old(st), bs))
    {
      hide S.QuoteText;
      stmt.QuoteText(bs);
      st := stmt.State();
    }

    method FeedEndQuote()
      requires StmtOk() && !stmt.err
      modifies this`st, stmt.Repr()
      ensures StmtOk() && fresh(stmt.Repr() - old(stmt.Repr())) && Fed(S.EndQuote(old(st)))
    {
      hide S.EndQuote;
      stmt.EndQuote();
      st := stmt.State();
    }

    method FeedSpace()
      requires StmtOk() && !stmt.err
      modifies this`st, stmt.Repr()
      ensures StmtOk() && fresh(stmt.Repr() - old(stmt.Repr())) && Fed(S.Space(old(st)))
    {
      hide S.Space;
      stmt.Space();
      st := stmt.State();
    }

    method FeedStartQuote(q: char, wasDead: bool)
      requires StmtOk() && !stmt.err
      modifies this`st, stmt.Repr()
      ensures StmtOk() && fresh(stmt.Repr() - old(stmt.Repr())) && Fed(S.StartQuote(old(st), q, wasDead))
    {
      hide S.StartQuote;
      stmt.StartQuote(q, wasDead);
      st := stmt.State();
    }

    method FeedEnd()
      requires StmtOk() && !stmt.err
      modifies this`st, stmt.Repr()
      ensures StmtOk() && fresh(stmt.Repr() - old(stmt.Repr())) && Fed(S.End(stmt.order, old(st)))
    {
      hide S.End;
      var _ := stmt.End();
      st := stmt.State();
    }

    method FeedStarted(never: bool)
      requires StmtOk()
      modifies this`st, stmt`started
      ensures StmtOk() && stmt.err == old(stmt.err)
      ensures !stmt.err ==> st == old(st).(started := old(st).started || !never)
    {
      stmt.started := stmt.started || !never;
      st := stmt.State();
    }

    /** What the `@` just read starts. */
    method PeekVar(before: char) returns (kind: L.VarKind)
      requires r.Valid() && r.pos > 0
      modifies r`buf, r`chunks, r`faults, r`staged
      ensures r.Valid() && kind == L.VarStart(r.text, r.pos - 1, before)
      ensures r.faults == F.Less(old(r.faults), F.VarPeeks(r.text, r.pos - 1, before))
    {
      hide Flatten;
      if before == '@' || before == '\'' || before == '"' || before == '`' {
        return L.NoVar;
      }
      var b := PeekByte();
      if b == Some('@') {
        return L.NoVar;
      }
      kind := if b.Some? && IsWordByte(b.value) then L.Named else L.Nameless;
    }

    method StartVar(before: char)
      requires r.Valid() && StmtOk() && !stmt.err && r.pos > 0
      modifies this`inVar, this`varLong, this`varName, this`st, r`buf, r`chunks, r`faults, r`staged, stmt.Repr()
      ensures r.Valid() && StmtOk() && stmt.Repr() == old(stmt.Repr()) && !stmt.err
      ensures View(false) == L.StartVar(r.text, r.pos - 1, old(View(false)), before)
      ensures r.faults == F.Less(old(r.faults), F.VarPeeks(r.text, r.pos - 1, before))
    {
      hide StmtOk, Reader.Valid, S.UserVar, Flatten, L.VarStart, F.VarPeeks;
      var kind := PeekVar(before);
      match kind {
        case NoVar =>
        case Named => inVar, varLong, varName := true, false, "";
        case Nameless => NamelessVar();
      }
    }

    /** Reports whether the `-` just read starts a comment, and consumes the second dash if so. */
    method DashComment() returns (found: bool)
      requires r.Valid() && r.pos > 0 && At(r.text, r.pos - 1, '-')
      modifies r
      ensures r.Valid() && found == L.CommentLine(r.text, old(r.pos) - 1)
      ensures r.pos == old(r.pos) + if found then 1 else 0
      ensures found ==> At(r.text, old(r.pos), '-')
      ensures r.faults == F.Less(old(r.faults), F.Past(r.text, old(r.pos), 2))
    {
      var b := r.Peek(2);
      if |b| == 0 || b[0] != '-' || (|b| == 2 && !IsSpace(b[1])) {
        return false;
      }
      r.Discard(1);
      found := true;
    }

    /** Discards the rest of the line, leaving the newline unread. */
    method LineComment()
      requires r.Valid()
      modifies r
      ensures r.Valid() && r.pos == L.LineEnd(r.text, old(r.pos))
      ensures r.faults == F.Less(old(r.faults), F.Past(r.text, r.pos, 1))
    {
      hide Flatten;
      while true
        invariant r.Valid() && old(r.pos) <= r.pos <= |r.text| && r.NoNewline(old(r.pos), r.pos) && r.faults == old(r.faults)
        decreases |r.text| - r.pos, |r.buf| == 0
      {
        var i := IndexOf(r.buf, '\n');
        r.PrefixIsClear(i);
        if i < |r.buf| {
          r.Discard(i);
          L.LineEndIs(r.text, old(r.pos), r.pos);
          return;
        }
        r.Discard(|r.buf|);
        var b := r.Peek(1);
        if b == "" {
          L.LineEndIs(r.text, old(r.pos), r.pos);
          return;
        }
      }
    }
  
    // ---------------------------------------------------------- quotes

    method SkipQuoted()
      requires Tied(false) && mode.Quote?
      modifies r, this`st, this`steps, stmt.Repr()
      ensures Valid() && old(r.pos) <= r.pos && stmt.Repr() == old(stmt.Repr())
      ensures if stmt.err then !verdict else Tied(false)
    {
      hide StmtOk, Reader.Valid, R.Inv, S.QuoteText, F.Run, PlainLength, Flatten, R.After, StmtCheck.State;
      var n := PlainLength(r.buf, mode.q, cond);
      var bs := r.buf[..n];
      PlainTextAhead(n);
      QuotedTextAhead(View(false), r.pos + n);
      NotAtLineStart();
      QuotedStepsAhead(View(false), r.pos + n);
      TakeText(bs);
    }

    /** Consumes the buffered text `bs`, each byte of it a step of the pure scan. */
    method TakeText(bs: string)
      requires Valid() && !stmt.err && |bs| <= |r.buf|
      modifies r, this`st, this`steps, stmt.Repr()
      ensures Valid() && stmt.Repr() == old(stmt.Repr()) && r.pos == old(r.pos) + |bs| && steps == old(steps) + |bs|
      ensures r.faults == old(r.faults)
      ensures Fed(S.QuoteText(old(st), bs))
    {
      hide StmtOk, Reader.Valid, S.QuoteText, Flatten, StmtCheck.State;
      r.Discard(|bs|);
      FeedText(bs);
      steps := steps + |bs|;
    }

    /** Inside a quote the scanner's state is the pure scan's also at the end of the text. */
    lemma NotAtLineStart()
      requires Follows(false) && mode.Quote?
      ensures Reached(r.pos, View(false))
    {
      hide R.After;
      if !Reached(r.pos, View(false)) {
        assert Reached(r.pos, View(true));
        R.AfterIsValid(stmt.order, r.text, 0, L.Begin(stmt.database), steps);
      }
    }

    /** The plain bytes at the front of the buffer are the next bytes of the text. */
    lemma PlainTextAhead(n: nat)
      requires r.Valid() && mode.Quote? && n == PlainLength(r.buf, mode.q, cond)
      ensures r.pos + n <= |r.text| && r.buf[..n] == r.text[r.pos..r.pos + n]
      ensures forall k :: r.pos <= k < r.pos + n ==> R.PlainInQuote(r.text[k], mode.q, cond)
    {
      if n > 0 {
        r.BufferAt(n - 1);
      }
      forall k | 0 <= k < n ensures r.buf[k] == r.text[r.pos + k] {
        r.BufferAt(k);
      }
      forall k | r.pos <= k < r.pos + n ensures R.PlainInQuote(r.text[k], mode.q, cond) {
        r.BufferAt(k - r.pos);
      }
    }

    /** Skipping to `e` keeps the verdict of the pure scan `s`. */
    lemma QuotedTextAhead(s: L.Scan, e: nat)
      requires R.Inv(s) && s.lex.mode.Quote? && r.pos <= e <= |r.text|
      requires forall k :: r.pos <= k < e ==> R.PlainInQuote(r.text[k], s.lex.mode.q, s.lex.cond)
      ensures var st := S.QuoteText(s.stmt, r.text[r.pos..e]);
              if st.None? then !F.Run(stmt.order, r.text, r.pos, s, r.faults)
              else R.Inv(s.(stmt := st.value)) &&
                   F.Run(stmt.order, r.text, r.pos, s, r.faults) == F.Run(stmt.order, r.text, e, s.(stmt := st.value), r.faults)
    {
      var bs := r.text[r.pos..e];
      if S.QuoteText(s.stmt, bs).Some? {
        B.QuoteTextKeepsInv(s.stmt, bs);
      }
      hide S.QuoteText, F.Run;
      F.QuotedRun(stmt.order, r.text, r.pos, s, e, r.faults);
    }

    /** Skipping to `e` is as many steps of the pure scan. */
    lemma QuotedStepsAhead(s: L.Scan, e: nat)
      requires R.Inv(s) && s.lex.mode.Quote? && r.pos <= e <= |r.text| && Reached(r.pos, s)
      requires forall k :: r.pos <= k < e ==> R.PlainInQuote(r.text[k], s.lex.mode.q, s.lex.cond)
      ensures var st := S.QuoteText(s.stmt, r.text[r.pos..e]);
              st.Some? ==>
                R.After(stmt.order, r.text, 0, L.Begin(stmt.database), steps + (e - r.pos)) == Some((e, s.(stmt := st.value)))
    {
      hide S.QuoteText, R.After, R.PlainInQuote;
      if S.QuoteText(s.stmt, r.text[r.pos..e]).Some? {
        R.QuotedSteps(stmt.order, r.text, r.pos, s, e);
        R.AfterAdds(stmt.order, r.text, 0, L.Begin(stmt.database), steps, e - r.pos);
      }
    }

    /** One more step of the pure scan. */
    lemma OneStepOn(i: nat, s: L.Scan)
      requires i < |r.text| && L.Valid(s) && Reached(i, s)
      ensures R.After(stmt.order, r.text, 0, L.Begin(stmt.database), steps + 1) == L.Step(stmt.order, r.text, i, s)
    {
      hide R.After, L.Step;
      R.AfterAdds(stmt.order, r.text, 0, L.Begin(stmt.database), steps, 1);
      R.AfterOne(stmt.order, r.text, i, s);
    }

    /** Reads what follows the quoted byte `c` and reports what they mean together. */
    method ReadQuoted(c: char) returns (event: Option<L.Event>)
      requires r.Valid() && mode.Quote? && r.pos > 0 && r.text[r.pos - 1] == c && c != '\n'
      modifies r, this`mode
      ensures r.Valid() && old(r.pos) <= r.pos
      ensures var step := L.QuoteStep(r.text, old(r.pos) - 1, old(LexView(false)));
              var left := F.Less(old(r.faults), F.QuotePeeks(r.text, old(r.pos) - 1, old(LexView(false))));
              if step.None? || (c == '\\' && old(r.pos) == |r.text| && left > 0) then event.None?
              else event == Some(step.value.event) && r.pos == step.value.next && LexView(false) == step.value.lex && r.faults == left
    {
      var q := mode.q;
      if c == '\\' && q == '`' {
        return None;
      }
      if c == '*' && cond {
        var closes := Next('/');
        if closes {
          return None;
        }
      }
      if c == '\\' {
        var e, got := r.ReadByte();
        if !got.Delivered? {
          return if got.EOF? then Some(L.Skip) else None;
        }
        if e == '*' && cond {
          var closes := Next('/');
          if closes {
            return None;
          }
        }
        return Some(L.QuoteText(['\\', e]));
      }
      if c == q {
        var doubled := Next(q);
        if doubled {
          return if q == '`' then None else Some(L.QuoteText([c, c]));
        }
        mode := L.Code;
        return Some(L.CloseQuote(c));
      }
      return Some(L.QuoteText([c]));
    }

    method Quoted(c: char) returns (good: bool)
      requires Valid() && !stmt.err && mode.Quote? && r.pos > 0 && r.text[r.pos - 1] == c && c != '\n'
      modifies Repr()
      ensures Valid() && fresh(stmt.Repr() - old(stmt.Repr()))
      ensures Took(old(StepAt(r.pos - 1, false)), good, false)
    {
      hide StmtOk, Reader.Valid, S.QuoteText, S.EndQuote, L.QuoteStep, F.Step, Flatten, StmtCheck.State, F.QuotePeeks;
      r.InText();
      F.StepInQuote(stmt.order, r.text, r.pos - 1, View(false), r.faults);
      var event := ReadQuoted(c);
      if event == None || event.value.Skip? {
        return event.Some?;
      }
      good := true;
      assert View(false) == old(View(false)).(lex := LexView(false));
      hide View, LexView;
      ApplyQuoted(event.value, c);
    }

    /** Applies what was read in a quote at the byte `c`. */
    method ApplyQuoted(event: L.Event, c: char)
      requires StmtOk() && !stmt.err
      modifies this`prev, this`st, stmt.Repr()
      ensures StmtOk() && fresh(stmt.Repr() - old(stmt.Repr()))
      ensures var next := if event.QuoteText? then S.QuoteText(old(st), event.bs) else S.EndQuote(old(st));
              if next.None? then stmt.err
              else !stmt.err && View(false) == old(View(false)).(prev := if event.QuoteText? then old(prev) else c, stmt := next.value)
    {
      hide S.QuoteText, S.EndQuote;
      if event.QuoteText? {
        FeedText(event.bs);
      } else {
        prev := c;
        FeedEndQuote();
      }
    }

    // ------------------------------------------------------------ code

    /** Reads what follows the code byte `c` and reports what they mean together. */
    method ReadCode(c: char) returns (event: Option<L.Event>)
      requires r.Valid() && mode.Code? && 0 < |delim| <= MAX_DELIMITER
      requires r.pos > 0 && r.text[r.pos - 1] == c && c != '\n'
      modifies r, this`mode, this`cond, this`dead
      ensures r.Valid()
      ensures var step := L.CodeStep(r.text, old(r.pos) - 1, old(LexView(false)));
              if step.None? then event.None?
              else event == Some(step.value.event) && r.pos == step.value.next && LexView(false) == step.value.lex
      ensures event.Some? ==> r.faults == F.Less(old(r.faults), F.EventPeeks(r.text, old(r.pos) - 1, old(LexView(false))))
    {
      hide Reader.Valid, Flatten, L.PunctuationStep, L.DelimiterAt, F.PunctuationPeeks, F.DelimiterPeeks, F.Past;
      var ends := DelimiterFollows(c);
      if ends {
        if cond {
          return None;
        }
        r.Discard(|delim| - 1);
        return Some(L.EndStatement);
      }
      if c == ':' && !dead {
        var b := PeekByte();
        if b == Some('=') {
          return None;
        }
      }
      if c == '\'' || c == '"' || c == '`' {
        mode := L.Quote(c);
        return Some(L.OpenQuote(c));
      }
      if c == '\\' {
        var dash := Next('-');
        return if dash then Some(L.Sandbox) else None;
      }
      event := ReadPunctuation(c);
    }

    /** The part of ReadCode for comments and their ends. */
    method ReadPunctuation(c: char) returns (event: Option<L.Event>)
      requires r.Valid() && mode.Code? && r.pos > 0 && r.text[r.pos - 1] == c
      requires c !in ['\n', '\\', '\'', '"', '`']
      modifies r, this`mode, this`cond, this`dead
      ensures r.Valid()
      ensures var step := L.PunctuationStep(r.text, old(r.pos) - 1, old(LexView(false)));
              if step.None? then event.None?
              else event == Some(step.value.event) && r.pos == step.value.next && LexView(false) == step.value.lex
      ensures event.Some? ==> r.faults == F.Less(old(r.faults), F.PunctuationPeeks(r.text, old(r.pos) - 1, old(LexView(false))))
    {
      hide Reader.Valid, L.OpenStep, L.LineEnd, F.OpenPeeks;
      r.InText();
      var comment := c == '#';
      if c == '-' {
        comment := DashComment();
      }
      if comment {
        if cond {
          return None;
        }
        L.LineEndSkips(r.text, old(r.pos), r.pos);
        LineComment();
        return Some(L.LineComment);
      }
      if c == '/' {
        var opens := Next('*');
        if opens {
          event := OpenComment();
          return;
        }
      }
      if c == '*' && cond {
        var closes := Next('/');
        if closes {
          cond, dead := false, false;
          return Some(L.CloseCond);
        }
      }
      return Some(L.Byte(c));
    }

    method DelimiterFollows(c: char) returns (found: bool)
      requires r.Valid() && 0 < |delim| <= MAX_DELIMITER && r.pos > 0 && r.text[r.pos - 1] == c
      modifies r`buf, r`chunks, r`faults, r`staged
      ensures r.Valid() && found == L.DelimiterAt(r.text, r.pos - 1, delim)
      ensures found ==> |r.buf| >= |delim| - 1
      ensures r.faults == F.Less(old(r.faults), F.DelimiterPeeks(r.text, r.pos - 1, delim))
    {
      if c != delim[0] {
        return false;
      }
      var rest := r.Peek(|delim| - 1);
      found := rest == delim[1..];
      RestOfDelimiter(rest, r.text, r.pos - 1, delim);
    }

    /** Consumes the `n` bytes that make the comment just opened a versioned one, if it is one. */
    method ReadOpener() returns (n: nat, hint: bool)
      requires r.Valid() && r.pos > 1 && At(r.text, r.pos - 2, '/') && At(r.text, r.pos - 1, '*')
      modifies r
      ensures r.Valid() && r.pos == old(r.pos) + n
      ensures L.CondOpener(r.text, old(r.pos) - 2) == if n == 0 then 0 else n + 2
      ensures n == 0 ==> hint == At(r.text, old(r.pos), '+')
      ensures r.faults == F.Less(old(r.faults), F.Past(r.text, old(r.pos), 2))
    {
      hide Flatten;
      var b := r.Peek(2);
      n := if |b| > 0 && b[0] == '!' then 1 else if |b| > 1 && b[0] == 'M' && b[1] == '!' then 2 else 0;
      hint := |b| > 0 && b[0] == '+';
      r.Discard(n);
    }

    /** Handles the bytes after the two that open a comment. */
    method OpenComment() returns (event: Option<L.Event>)
      requires r.Valid() && mode.Code? && r.pos > 1 && At(r.text, r.pos - 2, '/') && At(r.text, r.pos - 1, '*')
      modifies r, this`mode, this`cond, this`dead
      ensures r.Valid()
      ensures var step := L.OpenStep(r.text, old(r.pos) - 2, old(LexView(false)));
              if step.None? then event.None?
              else event == Some(step.value.event) && r.pos == step.value.next && LexView(false) == step.value.lex
      ensures event.Some? ==> r.faults == F.Less(old(r.faults), F.OpenPeeks(r.text, old(r.pos) - 2))
    {
      hide Reader.Valid, L.VersionEnd, L.NeverRun, Flatten;
      if cond {
        return None;
      }
      var n, hint := ReadOpener();
      if n == 0 {
        if hint {
          return None;
        }
        mode := L.Comment;
        return Some(L.OpenComment);
      }
      cond := true;
      dead := ReadVersion();
      event := Some(L.OpenCond(dead));
    }

    /** Discards a versioned comment's version and reports whether no server has it. */
    method ReadVersion() returns (never: bool)
      requires r.Valid()
      modifies r
      ensures r.Valid()
      ensures r.pos == L.VersionEnd(r.text, old(r.pos)) && never == L.NeverRun(r.text, old(r.pos))
      ensures r.faults == F.Less(old(r.faults), F.Past(r.text, old(r.pos), 6))
    {
      hide L.DigitsLength, Flatten;
      var digits := r.Peek(6);
      var n := L.DigitsLength(digits, 0, 6);
      DigitsAhead(digits);
      r.Discard(n);
      never := digits[..n] == "999999";
    }

    lemma DigitsAhead(digits: string)
      requires r.Valid() && |digits| == (if r.pos + 6 <= |r.text| then 6 else |r.text| - r.pos)
      requires forall k :: 0 <= k < |digits| ==> digits[k] == r.text[r.pos + k]
      ensures var n := L.DigitsLength(digits, 0, 6);
              n == L.DigitsLength(r.text, r.pos, 6) && digits[..n] == r.text[r.pos..r.pos + n]
    {
      hide L.DigitsLength, Flatten;
      SameDigits(digits, 0, r.text, r.pos, 6);
    }
  
    /** Ends the word and the user variable that a byte outside words ends. */
    method Prelude(c: char) returns (good: bool)
      requires StmtOk() && !stmt.err
      modifies this`word, this`wordLong, this`inVar, this`st, stmt.Repr()
      ensures StmtOk() && stmt.Repr() == old(stmt.Repr()) && !stmt.err
      ensures match L.Prelude(old(View(false)), c) case None => !good case Some(p) => good && View(false) == p
    {
      hide StmtOk, L.IsFileWord, L.EndVar;
      good := true;
      if !IsWordByte(c) {
        good := EndWord();
        if good && c != '.' {
          EndVar();
        }
      }
    }

    method TrackVar(c: char)
      requires r.Valid() && StmtOk() && !stmt.err && r.pos > 0
      modifies this`prev, this`inVar, this`varLong, this`varName, this`st, r`buf, r`chunks, r`faults, r`staged, stmt.Repr()
      ensures r.Valid() && StmtOk() && stmt.Repr() == old(stmt.Repr()) && !stmt.err
      ensures View(false) == L.TrackVar(r.text, r.pos - 1, old(View(false)).(prev := c), old(prev), c)
      ensures r.faults == F.Less(old(r.faults), if c == '@' && !old(dead) then F.VarPeeks(r.text, r.pos - 1, old(prev)) else 0)
    {
      hide StmtOk, Reader.Valid, L.StartVar, Flatten, F.VarPeeks;
      var before := prev;
      prev := c;
      if !dead {
        if c == '@' {
          StartVar(before);
        } else if c == ':' {
        } else if inVar {
          if |varName| < R.MAX_VAR_NAME {
            varName := varName + [c];
          } else {
            varLong := true;
          }
        }
      }
    }

    method AddToWord(c: char)
      modifies this`word, this`wordLong
      ensures View(false) == L.WordByte(old(View(false)), c)
    {
      if IsWordByte(c) {
        if |word| < R.MAX_CODE_WORD {
          word := word + [c];
        } else {
          wordLong := true;
        }
      }
    }

    /** A byte of code: part of a word, of a user variable's name and of the statement. */
    method PlainByte(c: char)
      requires Valid() && !stmt.err && r.pos > 0
      modifies Repr()
      ensures Valid() && fresh(stmt.Repr() - old(stmt.Repr())) && r.pos == old(r.pos)
      ensures match L.PlainByte(r.text, r.pos - 1, old(View(false)), c)
              case None => stmt.err
              case Some(p) => !stmt.err && View(false) == p
      ensures r.faults == F.Less(old(r.faults), if c == '@' && !old(dead) then F.VarPeeks(r.text, r.pos - 1, old(prev)) else 0)
    {
      hide StmtOk, Reader.Valid, S.CodeByte, L.TrackVar, L.WordByte, Flatten, F.VarPeeks;
      TrackVar(c);
      AddToWord(c);
      if !dead {
        FeedByte(c);
      }
    }

    /** What a piece of punctuation means for the statement. */
    method Punctuate(event: L.Event, wasDead: bool)
      requires StmtOk() && !stmt.err && !event.Byte?
      modifies this`st, stmt.Repr()
      ensures StmtOk() && fresh(stmt.Repr() - old(stmt.Repr()))
      ensures Fed(L.Punctuate(stmt.order, old(st), event, wasDead))
    {
      hide StmtOk, S.End, S.StartQuote, S.Space;
      match event {
        case EndStatement =>
          FeedEnd();
        case OpenQuote(q) =>
          FeedStartQuote(q, wasDead);
        case OpenCond(never) =>
          FeedSpace();
          FeedStarted(never);
        case LineComment | OpenComment | CloseCond =>
          FeedSpace();
        case _ =>
      }
    }

    /** Applies what was read at text[i], the byte `c`. */
    method Apply(event: L.Event, c: char, wasDead: bool, ghost i: nat)
      requires Valid() && !stmt.err && At(r.text, i, c) && (event.Byte? ==> r.pos == i + 1)
      modifies Repr()
      ensures Valid() && fresh(stmt.Repr() - old(stmt.Repr())) && r.pos == old(r.pos)
      ensures match L.Apply(stmt.order, r.text, i, old(View(false)), event, wasDead)
              case None => stmt.err
              case Some(p) => !stmt.err && View(false) == p
      ensures r.faults == F.Less(old(r.faults), if event.Byte? then F.BytePeeks(r.text, i, old(dead), old(prev)) else 0)
    {
      hide StmtOk, Reader.Valid, L.PlainByte, L.Punctuate, Flatten, StmtCheck.State, F.VarPeeks;
      if event.Byte? {
        PlainByte(c);
      } else {
        prev := L.PrevAfter(event, c);
        Punctuate(event, wasDead);
      }
    }

    /** Ends what the code byte `c` ends and reads what follows it. */
    method ReadEvent(c: char) returns (event: Option<L.Event>)
      requires Valid() && !stmt.err && mode.Code? && r.pos > 0 && r.text[r.pos - 1] == c && c != '\n'
      modifies Repr()
      ensures Valid() && stmt.Repr() == old(stmt.Repr()) && !stmt.err
      ensures var step := L.CodeStep(r.text, old(r.pos) - 1, old(LexView(false)));
              var p := L.Prelude(old(View(false)), c);
              if step.None? || p.None? then event.None?
              else event == Some(step.value.event) && r.pos == step.value.next &&
                   View(false) == p.value.(lex := step.value.lex.(bol := false))
      ensures event.Some? ==> r.faults == F.Less(old(r.faults), F.EventPeeks(r.text, old(r.pos) - 1, old(LexView(false))))
    {
      hide StmtOk, Reader.Valid, L.CodeStep, L.Prelude, Flatten, StmtCheck.State, F.EventPeeks;
      var good := Prelude(c);
      if !good {
        return None;
      }
      event := ReadCode(c);
    }

    /** Handles one byte other than a newline read in code mode. */
    method Code(c: char) returns (good: bool)
      requires Valid() && !stmt.err && mode.Code? && r.pos > 0 && r.text[r.pos - 1] == c && c != '\n'
      modifies Repr()
      ensures Valid() && fresh(stmt.Repr() - old(stmt.Repr()))
      ensures Took(old(StepAt(r.pos - 1, false)), good, false)
    {
      hide StmtOk, Reader.Valid, F.Step, L.CodeStep, L.Prelude, L.Apply, Flatten, F.EventPeeks, F.BytePeeks;
      r.InText();
      F.StepInCode(stmt.order, r.text, r.pos - 1, View(false), r.faults);
      var wasDead := dead;
      var event := ReadEvent(c);
      good := event.Some?;
      if good {
        Apply(event.value, c, wasDead, old(r.pos) - 1);
      }
    }

    // ------------------------------------------------------ line starts

    method CommentAhead() returns (found: bool)
      requires r.Valid()
      modifies r`buf, r`chunks, r`faults, r`staged
      ensures r.Valid() && found == L.CommentLine(r.text, r.pos) && (found ==> r.pos < |r.text|)
      ensures r.faults == F.Less(old(r.faults), F.Past(r.text, r.pos, 3))
    {
      hide Flatten;
      var head := r.Peek(3);
      found := |head| > 0 && (head[0] == '#' || ("--" <= head && (|head| == 2 || IsSpace(head[2]))));
      if |head| >= 2 {
        assert "--" <= head <==> head[0] == '-' && head[1] == '-';
      }
    }

    /** The line at `i` has no newline: reading it reads at the end of the text. */
    ghost predicate LastLine(i: nat)
      requires i <= |r.text|
    {
      L.LineEnd(r.text, i) == |r.text|
    }

    /** Discards through the next newline and reports the end of the text, or a failed read there. */
    method SkipLine() returns (eof: bool, good: bool)
      requires r.Valid()
      modifies r
      ensures r.Valid() && r.pos == L.NextLine(r.text, old(r.pos)) && eof == (LastLine(old(r.pos)) && good)
      ensures good == (LastLine(old(r.pos)) ==> old(r.faults) == 0) && (good ==> r.faults == old(r.faults))
    {
      hide Flatten, L.LineEnd;
      while true
        invariant r.Valid() && old(r.pos) <= r.pos && r.NoNewline(old(r.pos), r.pos) && r.faults == old(r.faults)
        decreases |r.text| - r.pos
      {
        var slice := r.ReadSlice();
        if slice.Found? {
          L.LineEndIs(r.text, old(r.pos), r.pos - 1);
          return false, true;
        } else if !slice.Full? {
          L.LineEndIs(r.text, old(r.pos), r.pos);
          return slice.AtEnd?, slice.AtEnd?;
        }
      }
    }

    method SkipBlanks()
      requires r.Valid()
      modifies r
      ensures r.Valid() && r.pos == L.BlanksEnd(r.text, old(r.pos))
      ensures r.faults == F.Less(old(r.faults), F.Past(r.text, r.pos, 1))
    {
      hide Flatten;
      while true
        invariant r.Valid() && L.BlanksEnd(r.text, r.pos) == L.BlanksEnd(r.text, old(r.pos)) && r.faults == old(r.faults)
        decreases |r.text| - r.pos
      {
        var b := r.Peek(1);
        if b == "" || !IsLineSpace(b[0]) {
          return;
        }
        r.Discard(1);
      }
    }

    /** The word at the start of a line and whether white space follows it. */
    method PeekWord() returns (word: string, blank: bool)
      requires r.Valid()
      modifies r`buf, r`chunks, r`faults, r`staged
      ensures r.Valid() && word == L.LineWord(r.text, r.pos) && |r.buf| >= |word|
      ensures word != "" ==> (blank <==> r.pos + |word| < |r.text| && IsLineSpace(r.text[r.pos + |word|]))
      ensures r.faults == F.Less(old(r.faults), F.Past(r.text, r.pos, 33))
    {
      hide Flatten, Upper, L.WordLength;
      var peek := r.Peek(33);
      var n := 0;
      while n < |peek| && IsWordByte(peek[n])
        invariant n <= |peek| && forall k :: r.pos <= k < r.pos + n ==> IsWordByte(r.text[k])
      {
        n := n + 1;
      }
      L.WordLengthIs(r.text, r.pos, n, 33);
      SamePrefix(peek, n, r.text, r.pos);
      if n == 0 || n > 32 {
        return "", false;
      }
      word, blank := Upper(peek[..n]), n < |peek| && IsLineSpace(peek[n]);
    }

    /** The rest of the line, consuming the newline; lines longer than `max` are refused. */
    method ReadLine(max: nat) returns (arg: string, eof: bool, good: bool)
      requires r.Valid()
      modifies r
      ensures r.Valid()
      ensures var e := L.LineEnd(r.text, old(r.pos));
              && good == (e - old(r.pos) <= max && (LastLine(old(r.pos)) ==> old(r.faults) == 0))
              && (good ==> arg == r.text[old(r.pos)..e] && r.pos == L.NextLine(r.text, old(r.pos)) &&
                           r.faults == old(r.faults) && eof == LastLine(old(r.pos)))
    {
      hide Flatten, L.LineEnd;
      arg := "";
      while true
        invariant r.Valid() && r.pos == old(r.pos) + |arg| && |arg| <= max && r.NoNewline(old(r.pos), r.pos)
        invariant arg == r.text[old(r.pos)..r.pos] && r.faults == old(r.faults)
        decreases |r.text| - r.pos
      {
        L.LineEndSkips(r.text, old(r.pos), r.pos);
        var c, got := r.ReadByte();
        if !got.Delivered? {
          L.LineEndIs(r.text, old(r.pos), r.pos);
          return arg, got.EOF?, got.EOF?;
        }
        if c == '\n' {
          L.LineEndIs(r.text, old(r.pos), r.pos - 1);
          return arg, false, true;
        }
        if |arg| == max {
          return "", false, false;
        }
        arg := arg + [c];
      }
    }

    method SetDelimiter(arg: string) returns (good: bool)
      requires Valid()
      modifies this`delim
      ensures Valid() && good == (!stmt.started && DelimiterOk(arg))
      ensures delim == if good then TrimSpace(arg) else old(delim)
    {
      hide TrimSpace, Flatten;
      if stmt.started {
        return false;
      }
      var f := TrimSpace(arg);
      if |f| == 0 || |f| > MAX_DELIMITER {
        return false;
      }
      for i := 0 to |f|
        invariant forall k :: 0 <= k < i ==> DelimiterByte(f[k])
      {
        if !DelimiterByte(f[i]) {
          return false;
        }
      }
      delim, good := f, true;
    }

    /** Reads the argument of a use command. */
    method ReadUse() returns (eof: bool, event: Option<L.Event>)
      requires r.Valid()
      modifies r
      ensures r.Valid() && (event.Some? ==> r.faults == old(r.faults) && eof == LastLine(old(r.pos)))
      ensures var arg := r.text[old(r.pos)..L.LineEnd(r.text, old(r.pos))];
              if |arg| > L.MAX_COMMAND_LINE || (LastLine(old(r.pos)) && old(r.faults) > 0) then event.None?
              else event == Some(L.UseCommand(arg)) && r.pos == L.NextLine(r.text, old(r.pos))
    {
      hide Reader.Valid, L.NextLine, L.LineEnd, Flatten;
      var arg, end, ok := ReadLine(L.MAX_COMMAND_LINE);
      return end, if ok then Some(L.UseCommand(arg)) else None;
    }

    /** Reads and applies the argument of a delimiter command. */
    method ReadDelimiter() returns (eof: bool, event: Option<L.Event>)
      requires Valid()
      modifies r, this`delim
      ensures Valid() && (event.Some? ==> r.faults == old(r.faults) && eof == LastLine(old(r.pos)))
      ensures var arg := r.text[old(r.pos)..L.LineEnd(r.text, old(r.pos))];
              if |arg| > L.MAX_COMMAND_LINE || !DelimiterOk(arg) || stmt.started || (LastLine(old(r.pos)) && old(r.faults) > 0)
              then event.None?
              else event == Some(L.DelimiterCommand(arg)) && delim == TrimSpace(arg) && r.pos == L.NextLine(r.text, old(r.pos))
    {
      hide StmtOk, Reader.Valid, L.NextLine, L.LineEnd, DelimiterOk, TrimSpace, Flatten, StmtCheck.State;
      var arg, end, ok := ReadLine(L.MAX_COMMAND_LINE);
      if ok {
        ok := SetDelimiter(arg);
      }
      return end, if ok then Some(L.DelimiterCommand(arg)) else None;
    }

    /** Handles the first word of a line. */
    method ReadCommand() returns (consumed: bool, eof: bool, event: Option<L.Event>)
      requires Valid() && !stmt.err && mode.Code?
      modifies r, this`delim
      ensures Valid() && (event.Some? && eof ==> r.pos == |r.text|)
      ensures var step := L.LineCommand(r.text, old(r.pos), old(LexView(true)));
              var left := F.Less(old(r.faults), F.Past(r.text, old(r.pos), 33));
              var end := step.Some? && EndsInLine(step.value);
              if step.None? || (step.value.event.DelimiterCommand? && stmt.started) || (end && left > 0) then event.None?
              else event == Some(step.value.event) && r.pos == step.value.next && LexView(consumed) == step.value.lex &&
                   r.faults == left && eof == end
    {
      hide LastLine, StmtOk, Reader.Valid, L.NextLine, L.LineEnd, L.LineWord, L.IsClientCommand, DelimiterOk, TrimSpace, Flatten, StmtCheck.State, F.Past;
      var word, blank := PeekWord();
      WordBefore(r.pos);
      if word != "" {
        LastLineEnds(r.pos + |word|);
      }
      if L.IsClientCommand(word) {
        return false, false, None;
      }
      if word == "USE" {
        r.Discard(|word|);
        consumed := true;
        eof, event := ReadUse();
        return;
      }
      if word == "DELIMITER" && blank {
        if cond {
          return false, false, None;
        }
        r.Discard(|word|);
        consumed := true;
        eof, event := ReadDelimiter();
        return;
      }
      return false, false, Some(L.Skip);
    }

    /** The line step read a line that is not ended by a newline. */
    ghost predicate EndsInLine(out: L.LexOut) {
      out.lex.bol && out.next == |r.text| && (r.text == "" || r.text[|r.text| - 1] != '\n')
    }

    /** Reading the last line leaves no newline behind. */
    lemma LastLineEnds(i: nat)
      requires i <= |r.text| && (i == |r.text| ==> i > 0 && r.text[i - 1] != '\n')
      ensures LastLine(i) <==> L.NextLine(r.text, i) == |r.text| && r.text[|r.text| - 1] != '\n'
    {
    }

    lemma WordBefore(i: nat)
      requires i <= |r.text|
      ensures var w := L.LineWord(r.text, i); w != "" ==> r.text[i + |w| - 1] != '\n'
    {
      hide Upper;
    }

    lemma MirrorsStmt()
      requires StmtOk() && !stmt.err
      ensures st.started == stmt.started && st.database == stmt.database
    {
    }

    /** Handles the start of a line read in code mode. It consumes the whole line when that is a
        comment or an allowed client command, and otherwise only leading white space. */
    method LineStart() returns (consumed: bool, eof: bool, good: bool)
      requires Valid() && !stmt.err && mode.Code?
      modifies r, this`delim
      ensures Valid() && (good && eof ==> r.pos == |r.text| && r.faults == 0)
      ensures old(r.pos) == |r.text| ==>
                good && !consumed && !eof && r.pos == |r.text| && View(false) == old(View(false)) && r.faults == F.Less(old(r.faults), 3)
      ensures old(r.pos) < |r.text| ==> Took(old(StepAt(r.pos, true)), good, consumed)
    {
      hide StmtOk, Reader.Valid, L.Step, L.LineStart, UseOk, Flatten, StmtCheck.State, F.LinePeeks;
      MirrorsStmt();
      if r.pos < |r.text| {
        R.StepAtLineStart(stmt.order, r.text, r.pos, View(true));
      } else {
        NothingLeft(r.text, View(true).lex);
      }
      var event;
      consumed, eof, event := ReadLineStart();
      good := event.Some? && (event.value.UseCommand? ==> UseOk(event.value.arg, delim, stmt.database));
    }

    /** Reads the start of a line, and all of it if it is a comment or a client command. */
    method ReadLineStart() returns (consumed: bool, eof: bool, event: Option<L.Event>)
      requires Valid() && !stmt.err && mode.Code?
      modifies r, this`delim
      ensures Valid()
      ensures var step := L.LineStart(r.text, old(r.pos), old(LexView(true)));
              var left := F.Less(old(r.faults), F.LinePeeks(r.text, old(r.pos)));
              var end := step.Some? && EndsInLine(step.value);
              if step.None? || (step.value.event.DelimiterCommand? && stmt.started) || (end && left > 0) then event.None?
              else event == Some(step.value.event) && r.pos == step.value.next && LexView(consumed) == step.value.lex &&
                   r.faults == left && eof == end
    {
      hide StmtOk, Reader.Valid, L.NextLine, L.LineEnd, L.BlanksEnd, L.LineCommand, L.CommentLine, Flatten, StmtCheck.State, F.Past;
      var comment := CommentAhead();
      if comment {
        if cond {
          return true, false, None;
        }
        LastLineEnds(r.pos);
        var good;
        eof, good := SkipLine();
        return true, eof, if good then Some(L.Skip) else None;
      }
      SkipBlanks();
      consumed, eof, event := ReadCommand();
    }

    // ----------------------------------------------------------- lines

    /** Handles the newline that ends a line of code. */
    method EndLine() returns (good: bool)
      requires StmtOk() && !stmt.err
      modifies this`prev, this`word, this`wordLong, this`inVar, this`st, stmt.Repr()
      ensures StmtOk() && fresh(stmt.Repr() - old(stmt.Repr()))
      ensures match L.LineEnded(old(View(true)))
              case None => !good || stmt.err
              case Some(s) => good && !stmt.err && View(true) == s
    {
      hide StmtOk, S.Space, L.EndVar, L.IsFileWord, StmtCheck.State;
      SpaceAtLineEnd();
      good := EndWord();
    }

    method SpaceAtLineEnd()
      requires StmtOk() && !stmt.err
      modifies this`prev, this`inVar, this`st, stmt.Repr()
      ensures StmtOk() && fresh(stmt.Repr() - old(stmt.Repr()))
      ensures var v := L.EndVar(old(View(true)).(prev := ' '));
              Fed(S.Space(v.stmt)) && (!stmt.err ==> View(true) == v.(stmt := st))
    {
      hide StmtOk, S.Space, L.EndVar, StmtCheck.State;
      prev := ' ';
      EndVar();
      FeedSpace();
    }

    /** Handles the byte `c`, which is not a newline. */
    method OneByte(c: char) returns (good: bool)
      requires Valid() && !stmt.err && r.pos > 0 && r.text[r.pos - 1] == c && c != '\n'
      modifies Repr()
      ensures Valid() && fresh(stmt.Repr() - old(stmt.Repr()))
      ensures Took(old(StepAt(r.pos - 1, false)), good, false)
    {
      hide StmtOk, Reader.Valid, L.Step, Flatten, StmtCheck.State;
      r.InText();
      match mode {
        case Comment =>
          R.StepInComment(stmt.order, r.text, r.pos - 1, View(false));
          if c == '*' {
            var closes := Next('/');
            if closes {
              mode, prev := L.Code, ' ';
            }
          }
          good := true;
        case Quote(_) =>
          good := Quoted(c);
        case Code =>
          good := Code(c);
      }
    }

    /** Takes one step of the pure scan at the byte `c` just read, which may end the line. */
    method Advance(c: char) returns (ended: bool, good: bool)
      requires Valid() && !stmt.err && r.pos > 0 && r.text[r.pos - 1] == c
      modifies Repr()
      ensures Valid() && fresh(stmt.Repr() - old(stmt.Repr()))
      ensures Took(old(StepAt(r.pos - 1, false)), good, ended && mode.Code?)
    {
      hide StmtOk, Reader.Valid, L.Step, Flatten, StmtCheck.State;
      r.InText();
      if c == '\n' {
        R.StepAtNewline(stmt.order, r.text, r.pos - 1, View(false));
        ended, good := true, true;
        if mode.Code? {
          good := EndLine();
        }
      } else {
        ended := false;
        good := OneByte(c);
      }
    }

    /** Handles the byte `c` just read, keeping the verdict of the pure scan and its state. */
    method Handle(c: char) returns (ended: bool, good: bool)
      requires Valid() && !stmt.err && R.Inv(View(false)) && r.pos > 0 && r.text[r.pos - 1] == c
      requires verdict == F.Run(stmt.order, r.text, r.pos - 1, View(false), r.faults) && Reached(r.pos - 1, View(false))
      modifies Repr()
      ensures Valid() && fresh(stmt.Repr() - old(stmt.Repr()))
      ensures if good && !stmt.err then Tied(ended && mode.Code?) && old(r.pos) <= r.pos else !verdict
    {
      hide StmtOk, Reader.Valid, F.Run, L.Step, F.Step, R.Inv, Flatten, StmtCheck.State, R.After;
      r.InText();
      F.RunStep(stmt.order, r.text, r.pos - 1, View(false), r.faults);
      OneStepOn(r.pos - 1, View(false));
      ghost var taken := steps + 1;
      ended, good := Advance(c);
      steps := taken;
    }

    /** Scans through the newline that ends the line and reports the end of the text. It stops at
        the first refusal. */
    method RestOfLine() returns (eof: bool, good: bool)
      requires Tied(false)
      modifies Repr()
      ensures Valid() && fresh(stmt.Repr() - old(stmt.Repr()))
      ensures if !good || stmt.err then !verdict
              else if eof then r.pos == |r.text| && r.faults == 0 && Tied(false) else Tied(mode.Code?)
      ensures good && !stmt.err && !eof ==> old(r.pos) < r.pos
    {
      hide Reader.Valid, F.Run, L.Step, R.Inv, Flatten, StmtCheck.State, StmtOk, R.After;
      while !stmt.err
        invariant Valid() && fresh(stmt.Repr() - old(stmt.Repr()))
        invariant if stmt.err then !verdict else Tied(false) && old(r.pos) <= r.pos
        decreases !stmt.err, |r.text| - r.pos
      {
        if mode.Quote? {
          SkipQuoted();
          if stmt.err {
            break;
          }
        }
        var c, got := ReadNext();
        if !got.Delivered? {
          return got.EOF?, got.EOF?;
        }
        var ended;
        ended, good := Handle(c);
        if ended || !good {
          return false, good;
        }
      }
      return false, true;
    }

    /** At the end of the text a failed read is reported. */
    lemma AtEndOfText()
      requires Tied(false) && r.pos == |r.text|
      ensures r.faults > 0 ==> !verdict
    {
      hide L.Finish;
    }

    /** Reads the byte of the next step. */
    method ReadNext() returns (c: char, got: Filled)
      requires Tied(false)
      modifies r
      ensures Valid() && match got {
                case Delivered => At(r.text, old(r.pos), c) && r.pos == old(r.pos) + 1 && r.faults == old(r.faults)
                case Fault => !verdict
                case EOF => Tied(false) && r.pos == |r.text| && r.faults == 0
              }
    {
      hide Reader.Valid, F.Run, Flatten, StmtCheck.State, R.Inv, R.After;
      if r.pos == |r.text| {
        AtEndOfText();
      }
      c, got := r.ReadByte();
    }

    /** LineStart as a step of the whole scan. */
    method StartLine() returns (consumed: bool, eof: bool, good: bool)
      requires Tied(true) && mode.Code?
      modifies r, this`delim, this`steps
      ensures r.Valid() && if good then Tied(consumed) && mode.Code? else !verdict
      ensures good && eof ==> r.pos == |r.text| && r.faults == 0
      ensures good ==> old(r.pos) <= r.pos && (consumed ==> old(r.pos) < r.pos || eof)
    {
      hide StmtOk, Reader.Valid, L.Step, F.Step, Flatten, StmtCheck.State, B.Inv, L.Finish, R.After;
      ghost var i, s := r.pos, View(true);
      if i < |r.text| {
        F.RunStep(stmt.order, r.text, i, s, r.faults);
        OneStepOn(i, s);
        steps := steps + 1;
      } else {
        R.FinishIgnoresLineStart(stmt.order, s, LexView(false));
      }
      consumed, eof, good := LineStart();
    }

    /** The end of the text: the client sends a statement left open. */
    method Finish() returns (ok: bool)
      requires Tied(mode.Code?) || Tied(false)
      requires r.pos == |r.text| && r.faults == 0
      modifies Repr()
      ensures r.Valid() && ok == verdict && r.pos == old(r.pos)
    {
      hide StmtOk, Reader.Valid, S.End, L.Step, Flatten, L.EndVar, L.IsFileWord, StmtCheck.State, R.Inv, R.After, Follows;
      R.FinishIgnoresLineStart(stmt.order, View(mode.Code?), LexView(false));
      EndVar();
      ok := EndWord();
      if ok {
        FeedEnd();
        ok := !stmt.err;
      }
    }

    /** Scans the whole dump. */
    method Run() returns (ok: bool)
      requires Tied(true) && mode.Code?
      modifies Repr()
      ensures r.Valid() && ok == verdict && (ok ==> r.pos == |r.text|)
    {
      hide StmtOk, Reader.Valid, F.Run, L.Step, R.Inv, Flatten, StmtCheck.State, R.After;
      while true
        invariant Tied(mode.Code?) && fresh(stmt.Repr() - old(stmt.Repr()))
        decreases |r.text| - r.pos
      {
        var consumed, eof := false, false;
        if mode.Code? {
          var good;
          consumed, eof, good := StartLine();
          if !good {
            return false;
          }
        }
        if !consumed {
          var good;
          eof, good := RestOfLine();
          if !good || stmt.err {
            return false;
          }
        }
        if eof {
          ok := Finish();
          return;
        }
      }
    }
  }

  /** scanDump: the verdict on a dump delivered in `chunks`, after which `faults` reads fail before the
      end, and the copy of what was read. */
  method ScanDump(chunks: seq<string>, faults: nat, database: string, order: S.Order) returns (ok: bool, staged: string)
    requires forall k :: 0 <= k < |chunks| ==> chunks[k] != ""
    ensures ok == F.Accepts(order, Flatten(chunks), database, faults)
    ensures faults == 0 ==> ok == L.Accepts(order, Flatten(chunks), database)
    ensures staged <= Flatten(chunks) && (ok ==> staged == Flatten(chunks))
  {
    hide F.Run, Flatten;
    F.FaultsSurface(order, Flatten(chunks), database, faults);
    var s := new DumpScanner(chunks, faults, database, order);
    R.StartsBounded(database);
    assert s.Reached(0, L.Begin(database));
    ok := s.Run();
    staged := s.r.staged;
    s.r.AllRead();
  }

  /** A delimiter stands where its first byte and the rest of it do. */
  lemma RestOfDelimiter(rest: string, text: string, i: nat, delim: string)
    requires i < |text| && delim != "" && text[i] == delim[0]
    requires |rest| == if i + |delim| <= |text| then |delim| - 1 else |text| - i - 1
    requires forall k :: 0 <= k < |rest| ==> rest[k] == text[i + 1 + k]
    ensures rest == delim[1..] <==> L.DelimiterAt(text, i, delim)
  {
    if i + |delim| <= |text| {
      assert text[i..i + |delim|] == [text[i]] + rest;
      assert delim == [delim[0]] + delim[1..];
    }
  }

  lemma SamePrefix(head: string, n: nat, text: string, i: nat)
    requires n <= |head| && i + |head| <= |text| && forall k :: 0 <= k < |head| ==> head[k] == text[i + k]
    ensures head[..n] == text[i..i + n]
  {
  }

  lemma NothingLeft(text: string, x: L.Lex)
    requires x.mode.Code? && x.bol
    ensures L.LineStart(text, |text|, x) == Some(L.LexOut(|text|, x.(bol := false), L.Skip)) && F.LinePeeks(text, |text|) == 3
  {
  }

  lemma {:induction false} SameDigits(a: string, i: nat, b: string, j: nat, max: nat)
    requires i <= |a| && j <= |b|
    requires |a| - i == if j + max <= |b| then max else |b| - j
    requires forall k :: i <= k < |a| ==> a[k] == b[j + (k - i)]
    ensures L.DigitsLength(a, i, max) == L.DigitsLength(b, j, max)
    decreases max
  {
    if max > 0 && i < |a| {
      SameDigits(a, i + 1, b, j + 1, max - 1);
    }
  }

  /** The length of the buffered run of bytes inside a quote at which nothing can end. */
  function PlainLength(buf: string, q: char, cond: bool): (n: nat)
    ensures n <= |buf| && forall k :: 0 <= k < n ==> R.PlainInQuote(buf[k], q, cond)
    ensures n < |buf| ==> !R.PlainInQuote(buf[n], q, cond)
  {
    if buf == "" || !R.PlainInQuote(buf[0], q, cond) then 0 else 1 + PlainLength(buf[1..], q, cond)
  }
}
