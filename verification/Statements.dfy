/** The statement checker of internal/cmd/dumpscan.go as functions on values.

    `Stmt` is everything stmtCheck and userVars hold; every function is one of their methods,
    and `None` means the dump is refused. StmtCheck.dfy updates the same state in place. */
module Statements {
  import opened Text
  import V = ValuesAutomaton
  import opened SqlChecks

  /** The user variables that still hold a saved system variable. The source's flag `all`
      makes every variable untrusted, whatever the two collections hold. */
  datatype Vars = Untrusted | Tracked(saved: map<string, string>, poisoned: set<string>) {
    predicate Trusted(name: string, sysvar: string) {
      Tracked? && name !in poisoned && (if name in saved then saved[name] else "") == sysvar
    }
  }

  datatype Stmt = Stmt(
    database: string,
    started: bool,
    accepted: bool,
    tokens: seq<Token>,
    size: nat,
    cur: string,
    curKind: char,
    vars: Vars,
    varRefs: set<string>,
    setVars: set<string>,
    values: Option<V.Values>,
    tail: Tail,
    count: nat)                       // statements ended so far

  /** What is remembered after a head is allowed. `table` is set inside CREATE TABLE. */
  datatype Tail = Tail(table: bool, word: string, defaultValue: bool, defaultTail: bool)

  const NO_TAIL := Tail(false, "", false, false)

  const NONE := '\0'

  function Fresh(database: string, vars: Vars, count: nat): Stmt {
    Stmt(database, false, false, [], 0, "", NONE, vars, {}, {}, None, NO_TAIL, count)
  }

  /** The order in which Go ranges over the set of variables of the n-th statement. Go leaves
      it open, so every result is about every order. */
  type Order = (nat, set<string>) -> seq<string>

  ghost predicate IsOrder(order: Order) {
    forall n: nat, s: set<string> :: Enumerates(order(n, s), s)
  }

  ghost predicate Enumerates(q: seq<string>, s: set<string>) {
    |q| == |s| && forall x :: x in s <==> x in q
  }

  // ------------------------------------------------------- user variables

  function UserVar(st: Stmt, name: string): Stmt {
    if name in st.varRefs then st
    else if |st.varRefs| >= MAX_TOKENS then st.(vars := Untrusted)
    else st.(varRefs := st.varRefs + {name})
  }

  function Poison(vars: Vars, names: seq<string>, accounted: set<string>): Vars
    decreases |names|
  {
    if names == [] then vars
    else Poison(PoisonOne(vars, names[0], accounted), names[1..], accounted)
  }

  function PoisonOne(vars: Vars, name: string, accounted: set<string>): Vars {
    if name in accounted || vars.Untrusted? then vars
    else if name == "" || |vars.poisoned| >= MAX_TOKENS then Untrusted
    else vars.(poisoned := vars.poisoned + {name})
  }

  // ------------------------------------------------------------ CREATE TABLE tails

  predicate MayFollowDefault(tailWord: string, t: Token) {
    || t.IsPunct(",") || t.IsPunct(")") || (t.IsPunct("(") && tailWord == "CURRENT_TIMESTAMP")
    || (t.kind == 'w' && Upper(t.text) in {
          "ON", "NOT", "NULL", "AUTO_INCREMENT", "UNIQUE", "PRIMARY", "COMMENT", "COLLATE",
          "COLUMN_FORMAT", "STORAGE", "REFERENCES", "CHECK", "INVISIBLE", "VISIBLE"})
  }

  predicate IsTableWordAfterDefault(t: Token) {
    t.Is("CHARSET") || t.Is("CHARACTER") || t.Is("COLLATE")
  }

  predicate IsDefaultValue(t: Token) {
    t.kind == '\'' || t.kind == '"' || t.Is("NULL") || t.Is("CURRENT_TIMESTAMP") ||
    IsTableWordAfterDefault(t) || (t.kind == 'w' && V.IsNumber(t.text))
  }

  function CheckTail(tail: Tail, t: Token): Option<Tail> {
    if (tail.word == "DATA" || tail.word == "INDEX") && t.Is("DIRECTORY") then None
    else if !tail.table then Some(tail.(word := WordOf(t)))
    else if t.Is("GENERATED") || t.Is("AS") then None
    else if tail.defaultTail && !MayFollowDefault(tail.word, t) then None
    else if tail.defaultValue && (t.IsPunct("+") || t.IsPunct("-")) then Some(tail.(defaultTail := false))
    else if tail.defaultValue && !IsDefaultValue(t) then None
    else Some(Tail(true, WordOf(t), t.Is("DEFAULT"), tail.defaultValue && !IsTableWordAfterDefault(t)))
  }

  function WordOf(t: Token): string {
    if t.kind == 'w' then Upper(t.text) else ""
  }

  function CheckTails(tail: Tail, ts: seq<Token>): Option<Tail>
    decreases |ts|
  {
    if ts == [] then Some(tail)
    else
      match CheckTail(tail, ts[0])
      case None => None
      case Some(u) => CheckTails(u, ts[1..])
  }

  // ------------------------------------------------------------------ SET

  function SaveVar(vars: Vars, name: string, sysvar: string): Vars {
    match vars
    case Untrusted => Untrusted
    case Tracked(saved, poisoned) =>
      if |saved| >= MAX_TOKENS && (name !in saved || saved[name] == "") then Untrusted
      else Tracked(saved[name := sysvar], poisoned)
  }

  function CheckAssignment(st: Stmt, a: seq<Token>): Option<Stmt> {
    if a == [] then Some(st)
    else if IsNames(a[0]) then
      if NamesIndex(a) < |a| && ClientCharsetOk(a[NamesIndex(a)]) then Some(st) else None
    else
      var eq := EqualsIndex(a);
      var name := Target(a);
      if eq == |a| then
        if IsLexical(name) || HasPrefix(name, "@") then None else Some(st)
      else
        var rhs := a[eq + 1..];
        if IsUserVar(name) then
          match SavedFrom(rhs)
          case None => None
          case Some(sysvar) =>
            Some(st.(vars := SaveVar(st.vars, name, sysvar), setVars := st.setVars + {name}))
        else if |rhs| == 1 && rhs[0].kind == 'w' && IsUserVar(rhs[0].text) then
          var v := Upper(rhs[0].text);
          if st.vars.Trusted(v, name) then Some(st.(setVars := st.setVars + {v})) else None
        else if name == "SQL_MODE" then
          if SQLModeOk(rhs) then Some(st) else None
        else if name == "CHARACTER_SET_CLIENT" then
          if |rhs| == 1 && ClientCharsetOk(rhs[0]) then Some(st) else None
        else Some(st)
  }

  function CheckAssignments(st: Stmt, parts: seq<seq<Token>>): Option<Stmt>
    decreases |parts|
  {
    if parts == [] then Some(st)
    else
      match CheckAssignment(st, parts[0])
      case None => None
      case Some(s) => CheckAssignments(s, parts[1..])
  }

  predicate NamesUnsafeCharset(t: seq<Token>) {
    exists i :: 0 <= i < |t| && t[i].kind != 'p' && V.UnsafeCharset(t[i].text)
  }

  function CheckSet(st: Stmt, t: seq<Token>): Option<Stmt> {
    if (t != [] && t[0].Is("STATEMENT")) || NamesUnsafeCharset(t) then None
    else CheckAssignments(st.(setVars := {}), SplitAssignments(t, 0, []))
  }

  // ------------------------------------------------------ statement heads

  datatype Head = Refused | NeedsMore | Allowed(st: Stmt)

  function Judge(st: Stmt, v: Verdict): Head {
    match v
    case Refuse => Refused
    case More => NeedsMore
    case Accept => Allowed(st)
  }

  function Require(st: Stmt, ok: bool): Head {
    if ok then Allowed(st) else Refused
  }

  function FeedTokens(v: V.Values, t: seq<Token>): Option<V.Values>
    decreases |t|
  {
    if t == [] then Some(v)
    else
      match V.Token(v, t[0].kind, t[0].text)
      case None => None
      case Some(u) => FeedTokens(u, t[1..])
  }

  function CheckInsert(st: Stmt, final: bool): Head
    requires st.tokens != []
  {
    var t := st.tokens;
    var i := SkipInsertModifiers(t, 1);
    match ObjectName(st.database, t, i, final)
    case Refuse => Refused
    case More => NeedsMore
    case Accept =>
      if i >= |t| || NameEnd(t, i) > |t| then if final then Refused else NeedsMore
      else
        match FeedTokens(V.INIT, t[NameEnd(t, i)..])
        case None => Refused
        case Some(v) => Allowed(st.(values := Some(v)))
  }

  function CheckCreate(st: Stmt, kind: string, name: nat, final: bool): Head {
    match ObjectName(st.database, st.tokens, name, final)
    case Refuse => Refused
    case More => NeedsMore
    case Accept =>
      if kind == "TABLE" then
        match CheckTails(st.tail.(table := true), st.tokens[NameEnd(st.tokens, SkipExists(st.tokens, name))..])
        case None => Refused
        case Some(u) => Allowed(st.(tail := u))
      else if kind == "TRIGGER" then Judge(st, TriggerTable(st.database, st.tokens, name, final))
      else Allowed(st)
  }

  function CheckDDL(st: Stmt, final: bool): Head
    requires st.tokens != []
  {
    var t := st.tokens;
    var verb := Upper(t[0].text);
    var k := KindIndex(t, 1);
    if k == |t| then if final then Refused else NeedsMore
    else
      var kind := Upper(t[k].text);
      var name := k + 1;
      if IsDDLObject(kind) && verb == "DROP" then
        if !final then NeedsMore else Require(st, AllNamesOk(st.database, t[name..]))
      else if kind == "TABLE" && verb == "ALTER" then Judge(st, AlterTable(st.database, t, name, final))
      else if IsDDLObject(kind) && verb == "CREATE" then CheckCreate(st, kind, name, final)
      else if (kind == "DATABASE" || kind == "SCHEMA") && verb != "DROP" then
        Judge(st, DatabaseName(st.database, verb, t[name..], final))
      else Refused
  }

  function CheckLock(st: Stmt, final: bool): Head
    requires st.tokens != []
  {
    var t := st.tokens;
    if |t| < 2 then if final then Refused else NeedsMore
    else if !t[1].Is("TABLES") && !t[1].Is("TABLE") then Refused
    else if t[0].Is("UNLOCK") then Allowed(st)
    else if !final then NeedsMore
    else Require(st, AllNamesOk(st.database, t[2..]))
  }

  function CheckHead(st: Stmt, final: bool): Head
    requires st.tokens != []
  {
    var t := st.tokens;
    if t[0].Is("COMMIT") then Allowed(st)
    else if t[0].Is("INSERT") || t[0].Is("REPLACE") then CheckInsert(st, final)
    else if t[0].Is("LOCK") || t[0].Is("UNLOCK") then CheckLock(st, final)
    else if t[0].Is("SET") then
      if !final then NeedsMore
      else
        match CheckSet(st, t[1..])
        case None => Refused
        case Some(s) => Allowed(s)
    else if t[0].Is("USE") then
      if |t| < 2 then if final then Refused else NeedsMore
      else Require(st, NameOk(st.database, t[1]))
    else if t[0].Is("CREATE") || t[0].Is("DROP") || t[0].Is("ALTER") then CheckDDL(st, final)
    else Refused
  }

  // --------------------------------------------------------- event stream

  /** Judges the head again after a token. */
  function Judged(s: Stmt): Option<Stmt>
    requires s.tokens != []
  {
    match CheckHead(s, false)
    case Refused => None
    case NeedsMore => if |s.tokens| > MAX_TOKENS && !s.tokens[0].Is("SET") then None else Some(s)
    case Allowed(u) => Some(u.(accepted := true, tokens := []))
  }

  /** A token of a head that is not allowed yet is kept and the head judged again. */
  function Keep(st: Stmt, t: Token): Option<Stmt> {
    var s := st.(tokens := st.tokens + [t], size := st.size + |t.text|);
    if s.size > MAX_HEAD then None else Judged(s)
  }

  function Push(st: Stmt, t: Token): Option<Stmt> {
    if !st.accepted then Keep(st, t)
    else
      match CheckTail(st.tail, t)
      case None => None
      case Some(u) => Some(st.(tail := u))
  }

  function Flush(st: Stmt): Option<Stmt> {
    if st.curKind == NONE then Some(st)
    else Push(st.(curKind := NONE, cur := ""), Token(st.curKind, st.cur))
  }

  predicate InBody(st: Stmt) {
    st.accepted && st.values.Some?
  }

  function WithBody(st: Stmt, v: Option<V.Values>): Option<Stmt> {
    match v
    case None => None
    case Some(_) => Some(st.(values := v))
  }

  function Space(st: Stmt): Option<Stmt> {
    if InBody(st) then WithBody(st, V.Space(st.values.value)) else Flush(st)
  }

  /** A byte that is neither white space nor part of an INSERT body. */
  function HeadByte(st: Stmt, b: char): Option<Stmt> {
    var word := IsWordByte(b) || b == '@' || b == '.';
    if st.curKind == 'w' && word then
      if |st.cur| >= MAX_HEAD then None else Some(st.(cur := st.cur + [b]))
    else
      match Flush(st)
      case None => None
      case Some(f) => if word then Some(f.(curKind := 'w', cur := [b])) else Push(f, Token('p', [b]))
  }

  function CodeByte(st: Stmt, b: char): Option<Stmt> {
    if IsSpace(b) then Space(st)
    else
      var s := st.(started := true);
      if InBody(s) then WithBody(s, V.CodeByte(s.values.value, b)) else HeadByte(s, b)
  }

  function StartQuote(st: Stmt, q: char, dead: bool): Option<Stmt> {
    match Flush(st)
    case None => None
    case Some(f) =>
      if dead then Some(f)
      else
        var s := f.(started := true);
        if InBody(s) then WithBody(s, V.StartQuote(s.values.value, q)) else Some(s.(curKind := q, cur := ""))
  }

  function QuoteText(st: Stmt, bs: string): Option<Stmt> {
    if InBody(st) then WithBody(st, V.QuoteText(st.values.value, bs))
    else if st.accepted || st.curKind == NONE || st.curKind == 'w' then Some(st)
    else if st.size + |st.cur| + |bs| > MAX_HEAD then None
    else Some(st.(cur := st.cur + bs))
  }

  function EndQuote(st: Stmt): Option<Stmt> {
    if InBody(st) then WithBody(st, V.EndQuote(st.values.value)) else Flush(st)
  }

  /** A statement whose tokens were all read passes the final head check. As in the source, a
      head that still wants more tokens is let through here. */
  function FinalHead(st: Stmt): Option<Stmt> {
    if st.accepted || st.tokens == [] then Some(st)
    else
      match CheckHead(st, true)
      case Refused => None
      case NeedsMore => Some(st)
      case Allowed(s) => Some(s)
  }

  /** The final head check and, for INSERT and REPLACE, the end of the body. */
  function Closing(st: Stmt): Option<Stmt> {
    match FinalHead(st)
    case None => None
    case Some(f) => if f.values.Some? && !V.End(f.values.value) then None else Some(f)
  }

  /** The state in which the statement after `st` starts. */
  function Next(order: Order, st: Stmt): Stmt {
    Fresh(st.database, Poison(st.vars, order(st.count, st.varRefs), st.setVars), st.count + 1)
  }

  function End(order: Order, st: Stmt): Option<Stmt> {
    match Space(st)
    case None => None
    case Some(s) =>
      match Closing(s)
      case None => None
      case Some(f) => Some(Next(order, f))
  }
}
