/** The checks of internal/cmd/dumpscan.go that only read their arguments: names, qualifiers,
    assignments and the values SET may give sql_mode and the client character set. */
module SqlChecks {
  import opened Text
  import opened ValuesAutomaton

  const MAX_HEAD := 0x1_0000      // maxStatementHead
  const MAX_TOKENS := 48          // maxHeadTokens

  /** `kind` is 'w' for a word, 'p' for a punctuation byte, or the quote byte. */
  datatype Token = Token(kind: char, text: string) {
    predicate Is(word: string) {
      kind == 'w' && Upper(text) == word
    }

    predicate IsPunct(s: string) {
      kind == 'p' && text == s
    }
  }

  datatype Verdict = Refuse | More | Accept

  predicate IsExistsWord(t: Token) {
    t.Is("IF") || t.Is("NOT") || t.Is("EXISTS")
  }

  /** The index after any IF [NOT] EXISTS words starting at `i`. */
  function SkipExists(t: seq<Token>, i: nat): (j: nat)
    ensures i <= j
    ensures i <= |t| ==> j <= |t|
    ensures j < |t| ==> !IsExistsWord(t[j])
    decreases |t| - i
  {
    if i < |t| && IsExistsWord(t[i]) then SkipExists(t, i + 1) else i
  }

  predicate IsInsertModifier(t: Token) {
    t.Is("LOW_PRIORITY") || t.Is("DELAYED") || t.Is("HIGH_PRIORITY") || t.Is("IGNORE") || t.Is("INTO")
  }

  function SkipInsertModifiers(t: seq<Token>, i: nat): (j: nat)
    ensures i <= j
    decreases |t| - i
  {
    if i < |t| && IsInsertModifier(t[i]) then SkipInsertModifiers(t, i + 1) else i
  }

  /** The index of the token after the name starting at t[i]. */
  function NameEnd(t: seq<Token>, i: nat): (e: nat)
    requires i < |t|
    ensures i < e <= i + 3
  {
    var j := i + 1;
    if t[i].kind == 'w' && HasSuffix(t[i].text, ".") then j + 1
    else if j < |t| && t[j].kind == 'w' && t[j].text == "." then j + 2
    else if j < |t| && t[j].kind == 'w' && HasPrefix(t[j].text, ".") then j + 1
    else j
  }

  /** A name is unqualified, or qualified with the target database. */
  predicate QualifierOk(database: string, t: seq<Token>)
    requires t != []
  {
    if t[0].kind == 'w' && '.' in t[0].text then
      database != "" && t[0].text[..IndexOf(t[0].text, '.')] == database
    else if |t| > 1 && t[1].kind == 'w' && HasPrefix(t[1].text, ".") then
      database != "" && t[0].text == database
    else true
  }

  predicate AllNamesOk(database: string, t: seq<Token>) {
    forall i :: 0 <= i < |t| ==>
      (t[i].kind == 'w' && !HasPrefix(t[i].text, ".")) || t[i].kind == '`' ==> QualifierOk(database, t[i..])
  }

  predicate NameOk(database: string, t: Token) {
    database != "" && (t.kind == 'w' || t.kind == '`' || t.kind == '"' || t.kind == '\'') && t.text == database
  }

  function ObjectName(database: string, t: seq<Token>, i: nat, final: bool): (r: Verdict)
    ensures r == Accept ==> SkipExists(t, i) < |t| && NameEnd(t, SkipExists(t, i)) <= |t|
  {
    var j := SkipExists(t, i);
    if j + 1 >= |t| && !final then More
    else if j >= |t| then Refuse
    else if !QualifierOk(database, t[j..]) then Refuse
    else if NameEnd(t, j) > |t| || (NameEnd(t, j) == |t| && !final) then More
    else Accept
  }

  /** The index of the ON that names a trigger's table, or a number past the search window. */
  function FindOn(t: seq<Token>, j: nat, stop: nat): (k: nat)
    ensures j <= k
    decreases stop - j
  {
    if j < |t| && j < stop && !t[j].Is("ON") then FindOn(t, j + 1, stop) else j
  }

  function TriggerTable(database: string, t: seq<Token>, i: nat, final: bool): Verdict {
    var j := FindOn(t, i + 1, i + 8);
    if j < |t| && j < i + 8 then ObjectName(database, t, j + 1, final)
    else if |t| < i + 8 && !final then More
    else Refuse
  }

  function AlterTable(database: string, t: seq<Token>, i: nat, final: bool): Verdict {
    if !final then More
    else if i < |t| && QualifierOk(database, t[i..]) &&
            var e := NameEnd(t, i); |t| == e + 2 && (t[e].Is("DISABLE") || t[e].Is("ENABLE")) && t[e + 1].Is("KEYS")
    then Accept
    else Refuse
  }

  function DatabaseName(database: string, verb: string, rest: seq<Token>, final: bool): Verdict {
    var j := SkipExists(rest, 0);
    if j >= |rest| then if final then Refuse else More
    else if verb == "ALTER" && (rest[j].Is("CHARACTER") || rest[j].Is("CHARSET") || rest[j].Is("DEFAULT") || rest[j].Is("COLLATE")) then
      Accept
    else if NameOk(database, rest[j]) then Accept
    else Refuse
  }

  predicate IsDDLModifier(kind: string) {
    kind in {
      "OR", "REPLACE", "ALGORITHM", "UNDEFINED", "MERGE", "TEMPTABLE", "DEFINER", "CURRENT_USER", "SQL",
      "SECURITY", "INVOKER", "TEMPORARY", "AGGREGATE", "ONLINE", "OFFLINE", "IGNORE"}
  }

  predicate IsDDLObject(kind: string) {
    kind in {"TABLE", "VIEW", "TRIGGER", "PROCEDURE", "FUNCTION", "EVENT"}
  }

  predicate SkippedInDDL(t: Token) {
    t.kind != 'w' || IsDDLModifier(Upper(t.text)) || '@' in t.text
  }

  /** The index of the token naming the kind of object, or |t|. */
  function KindIndex(t: seq<Token>, i: nat): (k: nat)
    requires i <= |t|
    ensures i <= k <= |t|
    ensures k < |t| ==> !SkippedInDDL(t[k])
    decreases |t| - i
  {
    if i < |t| && SkippedInDDL(t[i]) then KindIndex(t, i + 1) else i
  }

  // ------------------------------------------------------------------ SET

  /** A SET statement's tokens split at commas outside parentheses. */
  function SplitAssignments(t: seq<Token>, depth: int, cur: seq<Token>): (parts: seq<seq<Token>>)
    ensures parts != []
    decreases |t|
  {
    if t == [] then [cur]
    else if t[0].IsPunct("(") then SplitAssignments(t[1..], depth + 1, cur + [t[0]])
    else if t[0].IsPunct(")") then SplitAssignments(t[1..], depth - 1, cur + [t[0]])
    else if t[0].IsPunct(",") && depth == 0 then [cur] + SplitAssignments(t[1..], depth, [])
    else SplitAssignments(t[1..], depth, cur + [t[0]])
  }

  /** The index of the first `=` in an assignment, or |a|. */
  function EqualsIndex(a: seq<Token>): (i: nat)
    ensures i <= |a|
    ensures i < |a| ==> a[i].IsPunct("=")
  {
    if a == [] || a[0].IsPunct("=") then 0 else 1 + EqualsIndex(a[1..])
  }

  predicate IsScopeWord(t: Token) {
    t.Is("GLOBAL") || t.Is("SESSION") || t.Is("LOCAL") || t.Is("PERSIST") || t.Is("PERSIST_ONLY")
  }

  function JoinName(t: seq<Token>): string {
    if t == [] then "" else (if IsScopeWord(t[0]) then "" else Upper(t[0].text)) + JoinName(t[1..])
  }

  function TrimScope(name: string): string {
    if HasPrefix(name, "@@SESSION.") then name[10..]
    else if HasPrefix(name, "@@LOCAL.") then name[8..]
    else if HasPrefix(name, "@@") then name[2..]
    else name
  }

  /** The name an assignment gives a value to, upper case and without scope. */
  function Target(a: seq<Token>): string {
    TrimScope(JoinName(a[..EqualsIndex(a)]))
  }

  predicate IsUserVar(word: string) {
    HasPrefix(word, "@") && !HasPrefix(word, "@@")
  }

  /** The session system variable `rhs` reads, if it is exactly @@name or a session scope of it. */
  function SavedFrom(rhs: seq<Token>): Option<string> {
    if |rhs| != 1 || rhs[0].kind != 'w' || !HasPrefix(rhs[0].text, "@@") then None
    else
      var name := TrimScope(Upper(rhs[0].text));
      if name == "" || '.' in name || '@' in name then None else Some(name)
  }

  predicate SafeNoMode(mode: string) {
    mode in {
      "NO_AUTO_CREATE_USER", "NO_AUTO_VALUE_ON_ZERO", "NO_DIR_IN_CREATE", "NO_ENGINE_SUBSTITUTION",
      "NO_FIELD_OPTIONS", "NO_KEY_OPTIONS", "NO_TABLE_OPTIONS", "NO_UNSIGNED_SUBTRACTION",
      "NO_ZERO_DATE", "NO_ZERO_IN_DATE"}
  }

  predicate SafeStrictMode(mode: string) {
    mode in {
      "ALLOW_INVALID_DATES", "ERROR_FOR_DIVISION_BY_ZERO", "STRICT_ALL_TABLES", "STRICT_TRANS_TABLES",
      "TIME_ROUND_FRACTIONAL", "TIME_TRUNCATE_FRACTIONAL", "TRADITIONAL"}
  }

  predicate SafeReadingMode(mode: string) {
    mode in {
      "", "EMPTY_STRING_IS_NULL", "HIGH_NOT_PRECEDENCE", "IGNORE_BAD_TABLE_OPTIONS", "IGNORE_SPACE",
      "ONLY_FULL_GROUP_BY", "PAD_CHAR_TO_FULL_LENGTH", "PIPES_AS_CONCAT", "REAL_AS_FLOAT",
      "SIMULTANEOUS_ASSIGNMENT"}
  }

  /** The modes that leave the reading of quotes and backslashes alone. */
  predicate SafeMode(mode: string) {
    SafeNoMode(mode) || SafeStrictMode(mode) || SafeReadingMode(mode)
  }

  /** Every mode in a comma-separated list leaves quoting alone. */
  predicate SafeModeList(s: string) {
    var modes := Split(s, ',');
    forall k :: 0 <= k < |modes| ==> SafeMode(Upper(TrimSpace(modes[k])))
  }

  predicate SQLModeOk(rhs: seq<Token>) {
    |rhs| == 1 && (rhs[0].kind == '\'' || rhs[0].kind == '"') && '\\' !in rhs[0].text && SafeModeList(rhs[0].text)
  }

  predicate IsLetter(c: char) {
    'a' <= c <= 'z' || 'A' <= c <= 'Z'
  }

  predicate ClientCharsetOk(t: Token) {
    && (t.kind == 'w' || t.kind == '\'' || t.kind == '"')
    && t.text != "" && Upper(t.text) != "DEFAULT"
    && (forall i :: 0 <= i < |t.text| ==> IsLetter(t.text[i]) || (i > 0 && (IsDigit(t.text[i]) || t.text[i] == '_')))
    && !UnsafeCharset(t.text)
  }

  predicate IsNames(t: Token) {
    t.Is("NAMES") || t.Is("CHARSET") || t.Is("CHARACTER")
  }

  /** Where SET NAMES, SET CHARSET and SET CHARACTER SET write the character set. */
  function NamesIndex(a: seq<Token>): nat
    requires a != []
  {
    if a[0].Is("CHARACTER") then 2 else 1
  }

  predicate IsLexical(name: string) {
    name == "SQL_MODE" || name == "CHARACTER_SET_CLIENT"
  }

  // ----------------------------------------------------------- client USE

  /** The name an argument of the client's use command means. */
  function UseName(arg: string, delim: string): string {
    var n := TrimSpace(TrimSuffix(TrimSpace(TrimSuffix(TrimSpace(arg), delim)), ";"));
    if |n| >= 2 && (n[0] == '`' || n[0] == '\'' || n[0] == '"') && n[|n| - 1] == n[0] then n[1..|n| - 1] else n
  }

  predicate UseOk(arg: string, delim: string, database: string) {
    database != "" && UseName(arg, delim) == database
  }

  /** A byte that cannot open a quote, comment or name. */
  predicate DelimiterByte(c: char) {
    !IsSpace(c) && !IsWordByte(c) && c !in ['\'', '"', '`', '\\', '#', '-', '/', '*', '@', '.']
  }

  predicate PlainDelimiter(delim: string) {
    forall k :: 0 <= k < |delim| ==> DelimiterByte(delim[k])
  }

  predicate DelimiterOk(arg: string) {
    var f := TrimSpace(arg);
    0 < |f| <= 16 && PlainDelimiter(f)
  }
}
