/** The session an accepted dump runs in, as an abstract machine.

    A world holds the session's system variables and the user variables. SET statements assign
    left to right. A user variable that a statement leaves open may take any value at any time after
    it, as a trigger or routine might write it. Which ones it leaves open is accounted for in two
    ways: by statement, as the checker does, and by mention. */
module SessionModel {
  import opened Text
  import opened ValuesAutomaton
  import opened SqlChecks
  import opened Mentions
  import M = ReadingModes

  datatype World = World(sys: string -> string, user: string -> string)

  const SQL_MODE := "SQL_MODE"
  const CLIENT_CHARSET := "CHARACTER_SET_CLIENT"

  /** A value that leaves the reading of quotes and backslashes alone. */
  ghost predicate SafeValue(name: string, value: string) {
    && (name == SQL_MODE ==> M.ReadsPlainly(value))
    && (name == CLIENT_CHARSET ==> !M.HidesBackslash(value))
  }

  ghost predicate SafeWorld(w: World) {
    forall n: string :: SafeValue(n, w.sys(n))
  }

  ghost predicate SameSys(a: World, b: World) {
    forall n: string :: a.sys(n) == b.sys(n)
  }

  /** Time passes: variables in `dirty` change. The name "" stands for every variable. */
  ghost predicate Elapses(dirty: set<string>, a: World, b: World) {
    SameSys(a, b) && ("" !in dirty ==> forall v: string :: v !in dirty ==> a.user(v) == b.user(v))
  }

  predicate PlainText(t: Token) {
    (t.kind == '\'' || t.kind == '"') && '\\' !in t.text && t.kind !in t.text
  }

  predicate PlainName(t: Token) {
    && t.kind == 'w' && t.text != "" && Upper(t.text) != "DEFAULT" && IsLetter(t.text[0])
    && forall i :: 0 <= i < |t.text| ==> IsLetter(t.text[i]) || IsDigit(t.text[i]) || t.text[i] == '_'
  }

  /** `v` is a value the expression `rhs` may have. Of an expression this model does not
      interpret, any value is. */
  ghost predicate MayBe(rhs: seq<Token>, w: World, v: string) {
    if |rhs| != 1 then true
    else if PlainText(rhs[0]) || PlainName(rhs[0]) then v == rhs[0].text
    else if SavedFrom(rhs).Some? then v == w.sys(SavedFrom(rhs).value)
    else if rhs[0].kind == 'w' && IsUserVar(rhs[0].text) then v == w.user(Upper(rhs[0].text))
    else true
  }

  ghost predicate Puts(f: string -> string, name: string, v: string, g: string -> string) {
    g(name) == v && forall n: string :: n != name ==> g(n) == f(n)
  }

  /** The right-hand side of an assignment; empty when there is none. */
  function Value(a: seq<Token>): seq<Token>
    requires a != []
  {
    if IsNames(a[0]) then if NamesIndex(a) < |a| then [a[NamesIndex(a)]] else []
    else if EqualsIndex(a) < |a| then a[EqualsIndex(a) + 1..]
    else []
  }

  /** What a SET assignment gives a value to. */
  function Assigned(a: seq<Token>): string
    requires a != []
  {
    if IsNames(a[0]) then CLIENT_CHARSET else Target(a)
  }

  /** A word that sends this assignment and the ones after it to another scope than the session. */
  predicate IsElsewhere(t: Token) {
    t.Is("GLOBAL") || t.Is("PERSIST") || t.Is("PERSIST_ONLY")
  }

  predicate SetsElsewhere(parts: seq<seq<Token>>) {
    exists k, i :: 0 <= k < |parts| && 0 <= i < |parts[k]| && IsElsewhere(parts[k][i])
  }

  /** One assignment. One to a system variable leaves the session alone only if it may be to another
      scope. */
  ghost predicate Assigns(a: seq<Token>, elsewhere: bool, w: World, z: World) {
    if a == [] then SameSys(w, z) && forall v: string :: w.user(v) == z.user(v)
    else exists v: string :: MayBe(Value(a), w, v) && Gives(a, elsewhere, w, v, z)
  }

  /** What giving the value `v` does. */
  ghost predicate Gives(a: seq<Token>, elsewhere: bool, w: World, v: string, z: World)
    requires a != []
  {
    if IsUserVar(Assigned(a)) && !IsNames(a[0]) then SameSys(w, z) && Puts(w.user, Assigned(a), v, z.user)
    else
      && (forall u: string :: w.user(u) == z.user(u))
      && (Puts(w.sys, Assigned(a), v, z.sys) || (elsewhere && !IsNames(a[0]) && SameSys(w, z)))
  }

  ghost predicate TimedAssigns(a: seq<Token>, elsewhere: bool, dirty: set<string>, w: World, z: World) {
    exists u: World :: Elapses(dirty, w, u) && Assigns(a, elsewhere, u, z)
  }

  /** The worlds assignments go through: before the first and after each. */
  ghost predicate Performs(parts: seq<seq<Token>>, elsewhere: bool, dirty: set<string>, w: World, ws: seq<World>) {
    && |ws| == |parts| + 1 && Elapses(dirty, w, ws[0])
    && forall k :: 0 <= k < |parts| ==> TimedAssigns(parts[k], elsewhere, dirty, ws[k], ws[k + 1])
  }

  /** The worlds one statement goes through. */
  ghost predicate Executes(parts: seq<seq<Token>>, dirty: set<string>, w: World, ws: seq<World>) {
    Performs(parts, SetsElsewhere(parts), dirty, w, ws)
  }

  /** How mentions of user variables are accounted for. */
  datatype Accounting = ByStatement | ByMention

  /** A statement of the dump: the tokens of its head, and the user variables it mentions. */
  datatype Ended = Ended(tokens: seq<Token>, mentioned: set<string>) {
    predicate IsSet() {
      tokens != [] && tokens[0].Is("SET")
    }

    function Parts(): seq<seq<Token>> {
      if IsSet() then SplitAssignments(tokens[1..], 0, []) else []
    }

    /** The tracked variables this statement also mentions outside the tracked forms. */
    function Forgiven(): set<string> {
      mentioned * TrackedNames(Parts()) * LooseNames(Parts())
    }

    /** The variables this statement leaves open to later writes: by statement, those it does not save
        or restore; by mention, also those it mentions elsewhere. */
    function Dirtied(how: Accounting): set<string> {
      match how
      case ByStatement => mentioned - TrackedNames(Parts())
      case ByMention => mentioned - TrackedNames(Parts()) + Forgiven()
    }
  }

  /** The variable an assignment saves a system variable in, or restores one from. */
  function TrackedName(a: seq<Token>): set<string> {
    if a == [] || IsNames(a[0]) || EqualsIndex(a) == |a| then {}
    else if IsUserVar(Target(a)) then {Target(a)}
    else
      var rhs := a[EqualsIndex(a) + 1..];
      if |rhs| == 1 && rhs[0].kind == 'w' && IsUserVar(rhs[0].text) then {Upper(rhs[0].text)} else {}
  }

  function TrackedNames(parts: seq<seq<Token>>): set<string> {
    if parts == [] then {} else TrackedName(parts[0]) + TrackedNames(parts[1..])
  }

  // --------------------------------------- mentions outside the tracked forms

  /** The user variables a word of code mentions from position `p` on. */
  function NamesIn(w: string, p: nat): set<string>
    requires p <= |w|
    decreases |w| - p
  {
    if p == |w| then {} else (if w[p] == '@' then MentionAt(w, p) else {}) + NamesIn(w, p + 1)
  }

  function TokenNames(ts: seq<Token>): set<string> {
    if ts == [] then {} else (if ts[0].kind == 'w' then NamesIn(ts[0].text, 0) else {}) + TokenNames(ts[1..])
  }

  /** The tokens that do not themselves spell `name`. */
  function Beside(ts: seq<Token>, name: string): seq<Token> {
    if ts == [] then [] else (if Upper(ts[0].text) == name then [] else [ts[0]]) + Beside(ts[1..], name)
  }

  /** The tokens of an assignment other than the one that names the variable it saves or restores. */
  function Loose(a: seq<Token>): seq<Token> {
    if TrackedName(a) == {} then a
    else if IsUserVar(Target(a)) then Beside(a[..EqualsIndex(a)], Target(a)) + a[EqualsIndex(a)..]
    else a[..EqualsIndex(a)]
  }

  function LooseNames(parts: seq<seq<Token>>): set<string> {
    if parts == [] then {} else TokenNames(Loose(parts[0])) + LooseNames(parts[1..])
  }

  // ------------------------------------------ variables put back while open

  /** Nothing vouches for the value of `v` any more. */
  predicate IsOpen(v: string, dirty: set<string>) {
    v in dirty || "" in dirty
  }

  /** The user variable an assignment puts into a system variable; none if it does not. */
  function PutBack(a: seq<Token>): Option<string> {
    if a == [] || IsNames(a[0]) || EqualsIndex(a) == |a| || IsUserVar(Target(a)) then None
    else
      var rhs := a[EqualsIndex(a) + 1..];
      if |rhs| == 1 && rhs[0].kind == 'w' && IsUserVar(rhs[0].text) then Some(Upper(rhs[0].text)) else None
  }

  /** The assignment puts an open variable into sql_mode or the client character set. */
  predicate PutsOpen(a: seq<Token>, dirty: set<string>) {
    PutBack(a).Some? && IsLexical(Target(a)) && IsOpen(PutBack(a).value, dirty)
  }

  predicate AnyPutsOpen(parts: seq<seq<Token>>, dirty: set<string>) {
    exists k :: 0 <= k < |parts| && PutsOpen(parts[k], dirty)
  }

  /** Some statement puts an open variable into sql_mode or the client character set. */
  predicate Exposed(how: Accounting, log: seq<Ended>, dirty: set<string>) {
    log != [] && (AnyPutsOpen(log[0].Parts(), dirty) || Exposed(how, log[1..], dirty + log[0].Dirtied(how)))
  }

  // ------------------------------------------------------------- traces

  /** The worlds a list of statements goes through, statement by statement. */
  ghost predicate Traces(how: Accounting, log: seq<Ended>, dirty: set<string>, w: World, tr: seq<seq<World>>)
    decreases |log|
  {
    && |tr| == |log|
    && (log != [] ==>
          && Executes(log[0].Parts(), dirty, w, tr[0])
          && Traces(how, log[1..], dirty + log[0].Dirtied(how), tr[0][|tr[0]| - 1], tr[1..]))
  }

  function LastWorld(tr: seq<seq<World>>, w: World): World {
    if tr == [] || tr[|tr| - 1] == [] then w else tr[|tr| - 1][|tr[|tr| - 1]| - 1]
  }

  ghost predicate AllSafe(tr: seq<seq<World>>) {
    forall j, k :: 0 <= j < |tr| && 0 <= k < |tr[j]| ==> SafeWorld(tr[j][k])
  }

  /** The session the import's preamble sets up. */
  ghost predicate AfterPreamble(w: World) {
    w.sys(SQL_MODE) == "NO_AUTO_VALUE_ON_ZERO" && w.sys(CLIENT_CHARSET) == "utf8mb4"
  }

  lemma SingleModeIsSafe(s: string)
    requires s != "" && !IsSpace(s[0]) && !IsSpace(s[|s| - 1]) && ',' !in s && SafeMode(s)
    requires forall i :: 0 <= i < |s| ==> UpperChar(s[i]) == s[i]
    ensures SafeModeList(s)
  {
    hide SafeMode;
    assert IndexOf(s, ',') == |s|;
    assert Split(s, ',') == [s];
    assert TrimLeft(s) == s && TrimRight(s) == s;
    assert Upper(s) == s;
  }

  lemma PreambleIsSafe(w: World)
    requires AfterPreamble(w)
    ensures SafeWorld(w)
  {
    hide SafeModeList, UnsafeCharset, IsSpace, UpperChar, M.ReadsPlainly, M.HidesBackslash;
    PreambleModeIsSafe();
    PreambleCharsetIsSafe();
    M.SafeListReadsPlainly("NO_AUTO_VALUE_ON_ZERO");
    M.UnsafeCharsetIs("utf8mb4");
  }

  lemma PreambleModeIsSafe()
    ensures SafeModeList("NO_AUTO_VALUE_ON_ZERO")
  {
    hide SafeModeList;
    SingleModeIsSafe("NO_AUTO_VALUE_ON_ZERO");
  }

  lemma PreambleCharsetIsSafe()
    ensures !UnsafeCharset("utf8mb4")
  {
    assert |Upper("utf8mb4")| == 7 && Upper("utf8mb4")[0] == 'U';
  }
}
