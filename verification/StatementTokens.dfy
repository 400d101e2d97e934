/** The tokens a statement is made of, read from its bytes of code, its gaps and its quoted text.

    This is a reference reading: it knows nothing of what the scanner keeps, and takes the last event
    after all those before it. */
module StatementTokens {
  import opened Text
  import opened SqlChecks
  import opened VG = ValuesGrammar

  /** A byte that makes a word grow: `@` and `.` are kept in words. */
  predicate InWord(b: char) {
    IsWordByte(b) || b == '@' || b == '.'
  }

  const NUL := '\0'

  /** The tokens read, and the kind and text of the one being read; `NUL` when there is none. */
  datatype Reading = Reading(done: seq<Token>, kind: char, cur: string)

  const NOTHING := Reading([], NUL, "")

  function Flushed(r: Reading): Reading {
    if r.kind == NUL then r else Reading(r.done + [Token(r.kind, r.cur)], NUL, "")
  }

  function ReadOne(r: Reading, e: Event): Reading {
    match e
    case Gap => Flushed(r)
    case Close => Flushed(r)
    case Open(q) => Flushed(r).(kind := q)
    case Bytes(bs) => if r.kind == NUL || r.kind == 'w' then r else r.(cur := r.cur + bs)
    case Code(b) =>
      if IsSpace(b) then Flushed(r)
      else if !InWord(b) then Flushed(r).(done := Flushed(r).done + [Token('p', [b])])
      else if r.kind == 'w' then r.(cur := r.cur + [b])
      else Flushed(r).(kind := 'w', cur := [b])
  }

  function ReadAll(es: seq<Event>): Reading
    decreases |es|
  {
    if es == [] then NOTHING else ReadOne(ReadAll(es[..|es| - 1]), es[|es| - 1])
  }

  function TokensOf(es: seq<Event>): seq<Token> {
    Flushed(ReadAll(es)).done
  }

  lemma ReadsNext(es: seq<Event>, e: Event)
    ensures ReadAll(es + [e]) == ReadOne(ReadAll(es), e)
  {
    assert (es + [e])[..|es|] == es;
  }

  // ---------------------------------------------------------------- quotes

  /** Whether a quote is open after `e`; `None` when `e` does not fit. */
  function QuoteAfter(open: bool, e: Event): Option<bool> {
    match e
    case Open(q) => if open || !IsQuote(q) then None else Some(true)
    case Bytes(_) => if open then Some(true) else None
    case Close => if open then Some(false) else None
    case _ => if open then None else Some(false)
  }

  /** Whether a quote is open after `es`, none being open before; `None` when they do not fit. */
  function InQuote(es: seq<Event>): Option<bool>
    decreases |es|
  {
    if es == [] then Some(false)
    else
      match InQuote(es[..|es| - 1])
      case None => None
      case Some(open) => QuoteAfter(open, es[|es| - 1])
  }

  lemma QuotesNext(es: seq<Event>, e: Event)
    ensures InQuote(es + [e]) == match InQuote(es) case None => None case Some(open) => QuoteAfter(open, e)
  {
    assert (es + [e])[..|es|] == es;
  }

  /** From a place where no quote is open, the rest is read alike. */
  lemma {:induction false} QuotesFrom(es: seq<Event>, h: nat)
    requires h <= |es| && InQuote(es[..h]) == Some(false)
    ensures InQuote(es) == InQuote(es[h..])
    decreases |es|
  {
    if h == |es| {
      assert es[..h] == es && es[h..] == [];
    } else {
      var n := |es| - 1;
      assert es[..n][..h] == es[..h] && es[..n][h..] == es[h..][..n - h];
      QuotesFrom(es[..n], h);
    }
  }

  /** The same from the front. */
  function QuotesOf(open: bool, es: seq<Event>): Option<bool>
    decreases |es|
  {
    if es == [] then Some(open)
    else
      match QuoteAfter(open, es[0])
      case None => None
      case Some(next) => QuotesOf(next, es[1..])
  }

  lemma {:induction false} QuotesOfNext(open: bool, es: seq<Event>, e: Event)
    ensures QuotesOf(open, es + [e]) == match QuotesOf(open, es) case None => None case Some(o) => QuoteAfter(o, e)
    decreases |es|
  {
    if es == [] {
      assert [e][1..] == [];
      assert QuotesOf(open, [e]) == match QuoteAfter(open, e) case None => None case Some(o) => QuotesOf(o, []);
    } else {
      assert (es + [e])[1..] == es[1..] + [e];
      if QuoteAfter(open, es[0]).Some? {
        QuotesOfNext(QuoteAfter(open, es[0]).value, es[1..], e);
      }
    }
  }

  lemma {:induction false} QuotesBothWays(es: seq<Event>)
    ensures InQuote(es) == QuotesOf(false, es)
    decreases |es|
  {
    if es != [] {
      var n := |es| - 1;
      QuotesBothWays(es[..n]);
      QuotesOfNext(false, es[..n], es[n]);
      assert es == es[..n] + [es[n]];
    }
  }

  lemma {:induction false} QuotesClose(open: bool, es: seq<Event>)
    requires QuotesOf(open, es) == Some(false)
    ensures WellBracketed(es, open)
    decreases |es|
  {
    if es != [] {
      QuotesClose(QuoteAfter(open, es[0]).value, es[1..]);
    }
  }

  /** Events after which no quote is open are well bracketed. */
  lemma ClosedIsBracketed(es: seq<Event>)
    requires InQuote(es) == Some(false)
    ensures WellBracketed(es, false)
  {
    QuotesBothWays(es);
    QuotesClose(false, es);
  }

  // ------------------------------------------------------ what is being read

  /** The token being read is a string exactly while its quote is open. */
  lemma {:induction false} KindIs(es: seq<Event>)
    requires InQuote(es).Some?
    ensures var r := ReadAll(es); if InQuote(es).value then IsQuote(r.kind) else r.kind == NUL || r.kind == 'w'
    ensures ReadAll(es).kind == NUL ==> ReadAll(es).cur == ""
    ensures ReadAll(es).kind == 'w' ==> ReadAll(es).cur != "" && forall k :: 0 <= k < |ReadAll(es).cur| ==> InWord(ReadAll(es).cur[k])
    decreases |es|
  {
    hide InWord, IsSpace;
    if es != [] {
      KindIs(es[..|es| - 1]);
    }
  }

  // ---------------------------------------------------------------- cutting

  /** A reading is split where one of its tokens ends: what follows is read alike from there. */
  lemma {:induction false} CutAt(es: seq<Event>, n: nat) returns (h: nat)
    requires InQuote(es).Some? && n <= |ReadAll(es).done|
    ensures h <= |es| && InQuote(es[..h]) == Some(false) && TokensOf(es[..h]) == ReadAll(es).done[..n]
    ensures ReadAll(es[h..]) == ReadAll(es).(done := ReadAll(es).done[n..])
    decreases |es|
  {
    var r := ReadAll(es);
    if es == [] {
      h := 0;
    } else {
      var m := |es| - 1;
      var (init, e) := (es[..m], es[m]);
      var r0 := ReadAll(init);
      KindIs(init);
      if n <= |r0.done| {
        h := CutAt(init, n);
        CutGrows(es, h, n);
      } else if n == |r0.done| + 1 && r0.kind != NUL && !e.Close? {
        h := m;
        assert es[m..] == [e];
        ReadsNext([], e);
        assert [] + [e] == [e];
      } else {
        h := |es|;
        assert es[..h] == es && es[h..] == [];
        assert n == |r.done|;
      }
    }
  }

  lemma CutGrows(es: seq<Event>, h: nat, n: nat)
    requires h < |es|
    requires var init := es[..|es| - 1];
             n <= |ReadAll(init).done| && InQuote(init[..h]) == Some(false) && TokensOf(init[..h]) == ReadAll(init).done[..n] &&
             ReadAll(init[h..]) == ReadAll(init).(done := ReadAll(init).done[n..])
    ensures InQuote(es[..h]) == Some(false) && TokensOf(es[..h]) == ReadAll(es).done[..n]
    ensures ReadAll(es[h..]) == ReadAll(es).(done := ReadAll(es).done[n..])
  {
    var m := |es| - 1;
    assert es[..m][..h] == es[..h];
    assert es[h..] == es[..m][h..] + [es[m]];
    ReadsNext(es[..m][h..], es[m]);
    hide IsSpace, InWord;
    ReadsAfter(ReadAll(es[..m]), n, es[m]);
  }

  /** Reading on does not depend on the tokens read before. */
  lemma ReadsAfter(r: Reading, n: nat, e: Event)
    requires n <= |r.done|
    ensures n <= |ReadOne(r, e).done| && ReadOne(r, e).done[..n] == r.done[..n]
    ensures ReadOne(r.(done := r.done[n..]), e) == ReadOne(r, e).(done := ReadOne(r, e).done[n..])
  {
    hide IsSpace, InWord;
  }
}
