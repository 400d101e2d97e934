/** The command builder of internal/wpcli/builder.go and the shell's reading of what it writes. */
module CommandBuilder {
  import opened Text
  import opened ShellWords
  import opened ShellQuoting
  import opened SortedStrings

  // ------------------------------------------------------------ quoting

  /** Every single quote ends the quoting, is escaped on its own, and starts it again. */
  function Replaced(s: string): string {
    if s == "" then "" else (if s[0] == '\'' then "'\\''" else [s[0]]) + Replaced(s[1..])
  }

  function ShellEscape(s: string): string {
    "'" + Replaced(s) + "'"
  }

  const HOME := "\"$HOME\""

  /** Keeps the remote expansion of a leading ~/. */
  function PathEscape(path: string): string {
    if path == "~" || path == "~/" then HOME
    else if HasPrefix(path, "~/") then HOME + "/" + ShellEscape(path[2..])
    else ShellEscape(path)
  }

  /** A byte the shell keeps as it is wherever it stands. */
  predicate Ordinary(c: char) {
    !IsBlank(c) && c != '\'' && c != '"' && c != '\\' && !IsSyntax(c) && !IsGlob(c) && c != '#' && c != '~'
  }

  predicate IsOrdinary(s: string) {
    forall i :: 0 <= i < |s| ==> Ordinary(s[i])
  }

  /** From `i` to `j` the line is part of one word, and `text` is what that part means. */
  predicate Means(line: string, i: nat, j: nat, text: string)
    requires i <= j <= |line|
  {
    Unquote(line, i, j) == text && forall k :: i <= k < j ==> MarkAt(line, k) == Kept || MarkAt(line, k) == Quoting
  }

  lemma MeansJoins(line: string, i: nat, j: nat, k: nat, a: string, b: string)
    requires i <= j <= k <= |line| && Means(line, i, j, a) && Means(line, j, k, b)
    ensures Means(line, i, k, a + b)
  {
    hide MarkAt, Unquote;
    UnquoteJoins(line, i, j, k);
  }

  lemma OneKept(line: string, i: nat)
    requires i < |line| && MarkAt(line, i) == Kept
    ensures Means(line, i, i + 1, [line[i]])
  {
    assert Unquote(line, i, i) == "";
  }

  lemma OneQuoting(line: string, i: nat)
    requires i < |line| && MarkAt(line, i) == Quoting
    ensures Means(line, i, i + 1, "")
  {
    assert Unquote(line, i, i) == "";
  }

  lemma {:induction false} OrdinaryRun(line: string, i: nat, j: nat)
    requires i <= j <= |line| && StateAt(line, i).Plain? && IsOrdinary(line[i..j])
    ensures StateAt(line, j).Plain? && Means(line, i, j, line[i..j])
    decreases j
  {
    hide Means, Ordinary, MarkAt, StateAt;
    if i == j {
      MeansNothing(line, i);
      assert line[i..i] == "";
    } else {
      assert line[i..j] == line[i..j - 1] + [line[j - 1]];
      assert line[i..j][j - 1 - i] == line[j - 1];
      PrefixIsOrdinary(line, i, j);
      OrdinaryRun(line, i, j - 1);
      OrdinaryByte(line, j - 1);
      OneKept(line, j - 1);
      MeansJoins(line, i, j - 1, j, line[i..j - 1], [line[j - 1]]);
    }
  }

  lemma PrefixIsOrdinary(line: string, i: nat, j: nat)
    requires i < j <= |line| && IsOrdinary(line[i..j])
    ensures IsOrdinary(line[i..j - 1]) && Ordinary(line[j - 1])
  {
    hide Ordinary;
    assert line[i..j][j - 1 - i] == line[j - 1];
    var front := line[i..j - 1];
    forall k | 0 <= k < |front| ensures Ordinary(front[k]) {
      assert line[i..j][k] == front[k];
    }
  }

  lemma MeansNothing(line: string, i: nat)
    requires i <= |line|
    ensures Means(line, i, i, "")
  {
  }

  lemma OrdinaryByte(line: string, i: nat)
    requires i < |line| && StateAt(line, i).Plain? && Ordinary(line[i])
    ensures StateAt(line, i + 1).Plain? && MarkAt(line, i) == Kept
  {
    hide IsSyntax, IsGlob, StartsWord, IsBlank;
  }

  lemma OpenQuote(line: string, i: nat)
    requires i < |line| && StateAt(line, i).Plain? && line[i] == '\''
    ensures StateAt(line, i + 1).Single? && Means(line, i, i + 1, "")
  {
    hide IsSyntax, IsGlob, StartsWord;
    OneQuoting(line, i);
  }

  lemma CloseQuote(line: string, i: nat)
    requires i < |line| && StateAt(line, i).Single? && line[i] == '\''
    ensures StateAt(line, i + 1).Plain? && Means(line, i, i + 1, "")
  {
    OneQuoting(line, i);
  }

  lemma EscapedQuote(line: string, i: nat)
    requires i + 1 < |line| && StateAt(line, i).Plain? && line[i] == '\\' && line[i + 1] == '\''
    ensures StateAt(line, i + 2).Plain? && Means(line, i, i + 2, "'")
  {
    hide IsSyntax, IsGlob, StartsWord;
    assert StateAt(line, i + 1).Escaped?;
    OneQuoting(line, i);
    OneKept(line, i + 1);
    hide Means;
    MeansJoins(line, i, i + 1, i + 2, "", [line[i + 1]]);
    assert "" + [line[i + 1]] == "'";
  }

  lemma QuoteInQuotes(line: string, i: nat)
    requires i + 4 <= |line| && StateAt(line, i).Single? && line[i..i + 4] == "'\\''"
    ensures StateAt(line, i + 4).Single? && Means(line, i, i + 4, "'")
  {
    assert line[i] == line[i..i + 4][0] && line[i + 1] == line[i..i + 4][1];
    assert line[i + 2] == line[i..i + 4][2] && line[i + 3] == line[i..i + 4][3];
    hide Means, StateAt;
    CloseQuote(line, i);
    EscapedQuote(line, i + 1);
    OpenQuote(line, i + 3);
    MeansJoins(line, i, i + 1, i + 3, "", "'");
    MeansJoins(line, i, i + 3, i + 4, "" + "'", "");
    assert "" + "'" + "" == "'";
  }

  /** What stands between the quotes of an escaped value means the value. */
  lemma {:induction false} ReplacedRun(line: string, i: nat, v: string)
    requires i + |Replaced(v)| <= |line| && StateAt(line, i).Single? && line[i..i + |Replaced(v)|] == Replaced(v)
    ensures StateAt(line, i + |Replaced(v)|).Single? && Means(line, i, i + |Replaced(v)|, v)
    decreases |v|
  {
    hide Means, StateAt;
    if v == "" {
      MeansNothing(line, i);
    } else {
      var head := if v[0] == '\'' then "'\\''" else [v[0]];
      var rest := Replaced(v[1..]);
      assert Replaced(v) == head + rest;
      var j := i + |head|;
      Sliced(line, i, head, rest);
      if v[0] == '\'' {
        QuoteInQuotes(line, i);
      } else {
        assert line[i] == line[i..j][0];
        SingleByte(line, i);
        OneKept(line, i);
      }
      assert StateAt(line, j).Single? && Means(line, i, j, [v[0]]);
      ReplacedRun(line, j, v[1..]);
      MeansJoins(line, i, j, j + |rest|, [v[0]], v[1..]);
      assert [v[0]] + v[1..] == v;
    }
  }

  lemma Sliced(line: string, i: nat, a: string, b: string)
    requires i + |a| + |b| <= |line| && line[i..i + |a + b|] == a + b
    ensures line[i..i + |a|] == a && line[i + |a|..i + |a| + |b|] == b
  {
    assert line[i..i + |a|] == line[i..i + |a + b|][..|a|];
    assert line[i + |a|..i + |a| + |b|] == line[i..i + |a + b|][|a|..];
  }

  /** An escaped value at `i` means the value. */
  lemma EscapedRun(line: string, i: nat, v: string)
    requires i + |ShellEscape(v)| <= |line| && StateAt(line, i).Plain? && line[i..i + |ShellEscape(v)|] == ShellEscape(v)
    ensures StateAt(line, i + |ShellEscape(v)|).Plain? && Means(line, i, i + |ShellEscape(v)|, v)
  {
    hide Means, StateAt, Replaced;
    var r := Replaced(v);
    Sliced(line, i, "'", r + "'");
    assert "'" + (r + "'") == ShellEscape(v);
    Sliced(line, i + 1, r, "'");
    var j := i + 1 + |r|;
    assert line[i] == line[i..i + 1][0] && line[j] == line[j..j + 1][0];
    OpenQuote(line, i);
    ReplacedRun(line, i + 1, v);
    CloseQuote(line, j);
    MeansJoins(line, i, i + 1, j, "", v);
    MeansJoins(line, i, j, j + 1, "" + v, "");
    assert "" + v + "" == v;
  }

  // ----------------------------------------------------------- one word

  /** A blank followed by a part that means `text` is the one word `text`. */
  lemma OneWord(line: string, text: string)
    requires |line| > 1 && IsBlank(line[0]) && StateAt(line, |line|).Plain? && Means(line, 1, |line|, text)
    ensures Words(line) == Some([text])
  {
    hide StateAt, Unquote;
    BlankFirst(line);
    hide MarkAt;
    FieldEndIs(line, 1, |line|);
    assert Fields(line, |line|) == [];
    assert Fields(line, 1) == [text];
  }

  lemma AfterBlank(line: string)
    requires line != "" && IsBlank(line[0])
    ensures StateAt(line, 1).Plain?
  {
  }

  /** A plain word and an escaped value, either of which may be missing, are one word. */
  lemma PlainThenEscaped(plain: string, v: string)
    requires IsOrdinary(plain)
    ensures Words(" " + plain + ShellEscape(v)) == Some([plain + v])
  {
    hide StateAt, Means, Words, IsOrdinary, ShellEscape;
    var line := " " + plain + ShellEscape(v);
    AfterBlank(line);
    var j := 1 + |plain|;
    assert line[1..j] == plain;
    OrdinaryRun(line, 1, j);
    assert line[j..j + |ShellEscape(v)|] == ShellEscape(v);
    EscapedRun(line, j, v);
    MeansJoins(line, 1, j, |line|, plain, v);
    EscapedIsLong(v);
    OneWord(line, plain + v);
  }

  lemma EscapedIsLong(v: string)
    ensures |ShellEscape(v)| >= 2
  {
  }

  lemma PlainWord(plain: string)
    requires IsOrdinary(plain) && plain != ""
    ensures Words(" " + plain) == Some([plain])
  {
    hide StateAt, Means, Words, IsOrdinary;
    var line := " " + plain;
    AfterBlank(line);
    assert line[1..|line|] == plain;
    OrdinaryRun(line, 1, |line|);
    OneWord(line, plain);
  }

  // --------------------------------------------------------- commands

  /** Pieces of a command line, each after a blank. */
  function Joined(pieces: seq<string>): string {
    if pieces == [] then "" else Joined(pieces[..|pieces| - 1]) + " " + pieces[|pieces| - 1]
  }

  /** A command as a value, with the order its flags are written in. */
  datatype Cmd = Cmd(parts: seq<string>, args: seq<string>, format: string, flags: map<string, string>,
                     keys: seq<string>, bools: seq<string>) {
    predicate Valid() {
      forall k :: k in keys ==> k in flags
    }
  }

  function ArgPieces(args: seq<string>): seq<string> {
    seq(|args|, i requires 0 <= i < |args| => ShellEscape(args[i]))
  }

  function FormatPieces(format: string): seq<string> {
    if format == "" then [] else ["--format=" + ShellEscape(format)]
  }

  function FlagPieces(keys: seq<string>, flags: map<string, string>): seq<string>
    requires forall k :: k in keys ==> k in flags
  {
    seq(|keys|, i requires 0 <= i < |keys| => "--" + keys[i] + "=" + ShellEscape(flags[keys[i]]))
  }

  function BoolPieces(bools: seq<string>): seq<string> {
    seq(|bools|, i requires 0 <= i < |bools| => "--" + bools[i])
  }

  function Pieces(c: Cmd): seq<string>
    requires c.Valid()
  {
    c.parts + ArgPieces(c.args) + FormatPieces(c.format) + FlagPieces(c.keys, c.flags) + BoolPieces(c.bools)
  }

  function BuildText(c: Cmd, wpPath: string): string
    requires c.Valid()
  {
    "cd " + PathEscape(wpPath) + " && " + "wp" + Joined(Pieces(c))
  }

  function FlagWords(keys: seq<string>, flags: map<string, string>): seq<string>
    requires forall k :: k in keys ==> k in flags
  {
    seq(|keys|, i requires 0 <= i < |keys| => "--" + keys[i] + "=" + flags[keys[i]])
  }

  /** The words wp is meant to receive. */
  function Argv(c: Cmd): seq<string>
    requires c.Valid()
  {
    ["wp"] + c.parts + c.args + (if c.format == "" then [] else ["--format=" + c.format])
    + FlagWords(c.keys, c.flags) + BoolPieces(c.bools)
  }

  lemma JoinedAppends(a: seq<string>, x: string)
    ensures Joined(a + [x]) == Joined(a) + " " + x
  {
    assert (a + [x])[..|a|] == a;
  }

  class Command {
    const parts: seq<string>
    var flags: map<string, string>
    var boolFlags: seq<string>
    var args: seq<string>
    var format: string

    constructor (parts: seq<string>)
      ensures this.parts == parts && flags == map[] && boolFlags == [] && args == [] && format == ""
    {
      this.parts := parts;
      flags, boolFlags, args, format := map[], [], [], "";
    }

    method Flag(key: string, value: string)
      modifies this`flags
      ensures flags == old(flags)[key := value]
    {
      flags := flags[key := value];
    }

    method BoolFlag(key: string)
      modifies this`boolFlags
      ensures boolFlags == old(boolFlags) + [key]
    {
      boolFlags := boolFlags + [key];
    }

    method Format(f: string)
      modifies this`format
      ensures format == f
    {
      format := f;
    }

    method Arg(value: string)
      modifies this`args
      ensures args == old(args) + [value]
    {
      args := args + [value];
    }

    /** The command with its flags in the order they are written. */
    ghost function View(): (c: Cmd)
      reads this
      ensures c.Valid()
    {
      var keys := SortedSet(flags.Keys);
      assert forall k :: k in keys ==> k in flags by {
        forall k | k in keys ensures k in flags {
          assert k in multiset(keys);
        }
      }
      Cmd(parts, args, format, flags, keys, Sorted(boolFlags))
    }

    /** The keys of the flags in order, whatever order the map gives them in. */
    method SortedKeys() returns (keys: seq<string>)
      ensures keys == View().keys
    {
      var left := flags.Keys;
      keys := [];
      while left != {}
        invariant multiset(keys) == multiset(flags.Keys) - multiset(left) && left <= flags.Keys
        decreases |left|
      {
        var k :| k in left;
        left := left - {k};
        keys := keys + [k];
      }
      keys := Sort(keys);
      SortedIsUnique(keys, SortedSet(flags.Keys));
    }

    /** Appends each of a list of pieces to what was written. */
    static method Append(text: string, ghost before: seq<string>, pieces: seq<string>) returns (r: string)
      requires text == Joined(before)
      ensures r == Joined(before + pieces)
    {
      r := text;
      assert before + pieces[..0] == before;
      for i := 0 to |pieces|
        invariant r == Joined(before + pieces[..i])
      {
        JoinedAppends(before + pieces[..i], pieces[i]);
        assert before + pieces[..i + 1] == before + pieces[..i] + [pieces[i]];
        r := r + " " + pieces[i];
      }
      assert pieces[..|pieces|] == pieces;
    }

    method Build(wpPath: string) returns (text: string)
      ensures text == BuildText(View(), wpPath)
    {
      hide Joined, PathEscape, SortedSet, Sorted;
      ghost var c := View();
      ghost var done: seq<string> := [];
      var b := "";
      StartsEmpty();
      b := Append(b, done, parts);
      done := done + parts;
      b := Append(b, done, ArgPieces(args));
      done := done + ArgPieces(args);
      b := Append(b, done, FormatPieces(format));
      done := done + FormatPieces(format);
      var keys := SortedKeys();
      b := Append(b, done, FlagPieces(keys, flags));
      done := done + FlagPieces(keys, flags);
      var sorted := Sort(boolFlags);
      b := Append(b, done, BoolPieces(sorted));
      done := done + BoolPieces(sorted);
      assert done == Pieces(c);
      text := "cd " + PathEscape(wpPath) + " && " + "wp" + b;
    }
  }

  lemma StartsEmpty()
    ensures Joined([]) == ""
  {
  }

  // -------------------------------------------------------- round trips

  /** Pieces that are each one word after a blank follow each other as words. */
  lemma {:induction false} JoinedWords(first: string, pieces: seq<string>, words: seq<string>)
    requires Words(first).Some? && |pieces| == |words|
    requires forall i :: 0 <= i < |pieces| ==> Words(" " + pieces[i]) == Some([words[i]])
    ensures Words(first + Joined(pieces)) == Some(Words(first).value + words)
    decreases |pieces|
  {
    hide Words;
    if pieces == [] {
      assert first + Joined(pieces) == first;
      assert Words(first).value + words == Words(first).value;
    } else {
      var n := |pieces| - 1;
      JoinedWords(first, pieces[..n], words[..n]);
      var last := " " + pieces[n];
      WordsJoin(first + Joined(pieces[..n]), last);
      assert first + Joined(pieces) == first + Joined(pieces[..n]) + last;
      assert Words(first).value + words[..n] + [words[n]] == Words(first).value + words;
    }
  }

  /** Parts and flag names the builder writes unquoted. */
  predicate PlainNames(c: Cmd) {
    && (forall i :: 0 <= i < |c.parts| ==> c.parts[i] != "" && IsOrdinary(c.parts[i]))
    && (forall i :: 0 <= i < |c.keys| ==> IsOrdinary(c.keys[i]))
    && (forall i :: 0 <= i < |c.bools| ==> IsOrdinary(c.bools[i]))
  }

  predicate EachIsWord(pieces: seq<string>, words: seq<string>) {
    |pieces| == |words| && forall i :: 0 <= i < |pieces| ==> Words(" " + pieces[i]) == Some([words[i]])
  }

  lemma WordsFollow(a: seq<string>, b: seq<string>, c: seq<string>, d: seq<string>)
    requires EachIsWord(a, b) && EachIsWord(c, d)
    ensures EachIsWord(a + c, b + d)
  {
    hide Words;
  }

  lemma EscapedWord(v: string)
    ensures Words(" " + ShellEscape(v)) == Some([v])
  {
    hide Words, ShellEscape;
    PlainThenEscaped("", v);
    assert " " + "" + ShellEscape(v) == " " + ShellEscape(v) && "" + v == v;
  }

  lemma OptionIsOrdinary(k: string)
    requires IsOrdinary(k)
    ensures IsOrdinary("--" + k) && IsOrdinary("--" + k + "=")
  {
    hide IsSyntax, IsGlob, Ordinary;
    assert Ordinary('-') && Ordinary('=') by {
      DashIsOrdinary();
    }
  }

  lemma DashIsOrdinary()
    ensures Ordinary('-') && Ordinary('=')
  {
  }

  lemma FormatIsOrdinary()
    ensures IsOrdinary("--format=")
  {
    assert "--format=" == "--" + "format" + "=";
    assert IsOrdinary("format");
    hide Ordinary;
    OptionIsOrdinary("format");
  }

  lemma PartsAreWords(c: Cmd)
    requires PlainNames(c)
    ensures EachIsWord(c.parts, c.parts)
  {
    hide Words, IsOrdinary;
    forall i | 0 <= i < |c.parts| ensures Words(" " + c.parts[i]) == Some([c.parts[i]]) {
      PlainWord(c.parts[i]);
    }
  }

  lemma ArgsAreWords(args: seq<string>)
    ensures EachIsWord(ArgPieces(args), args)
  {
    hide Words, ShellEscape;
    forall i | 0 <= i < |args| ensures Words(" " + ShellEscape(args[i])) == Some([args[i]]) {
      EscapedWord(args[i]);
    }
  }

  lemma FormatIsWord(format: string)
    ensures EachIsWord(FormatPieces(format), if format == "" then [] else ["--format=" + format])
  {
    hide Words, ShellEscape, IsOrdinary;
    FormatIsOrdinary();
    PlainThenEscaped("--format=", format);
    assert " " + ("--format=" + ShellEscape(format)) == " " + "--format=" + ShellEscape(format);
  }

  lemma FlagsAreWords(keys: seq<string>, flags: map<string, string>)
    requires (forall k :: k in keys ==> k in flags) && forall i :: 0 <= i < |keys| ==> IsOrdinary(keys[i])
    ensures EachIsWord(FlagPieces(keys, flags), FlagWords(keys, flags))
  {
    hide Words, ShellEscape, IsOrdinary;
    forall i | 0 <= i < |keys|
      ensures Words(" " + ("--" + keys[i] + "=" + ShellEscape(flags[keys[i]]))) == Some(["--" + keys[i] + "=" + flags[keys[i]]])
    {
      var name := "--" + keys[i] + "=";
      OptionIsOrdinary(keys[i]);
      PlainThenEscaped(name, flags[keys[i]]);
      assert " " + (name + ShellEscape(flags[keys[i]])) == " " + name + ShellEscape(flags[keys[i]]);
    }
  }

  lemma BoolsAreWords(bools: seq<string>)
    requires forall i :: 0 <= i < |bools| ==> IsOrdinary(bools[i])
    ensures EachIsWord(BoolPieces(bools), BoolPieces(bools))
  {
    hide Words, IsOrdinary;
    forall i | 0 <= i < |bools| ensures Words(" " + ("--" + bools[i])) == Some(["--" + bools[i]]) {
      OptionIsOrdinary(bools[i]);
      PlainWord("--" + bools[i]);
    }
  }

  lemma WpIsWord()
    ensures Words("wp") == Some(["wp"])
  {
    assert StateAt("wp", 1) == Plain && StateAt("wp", 2) == Plain;
    assert MarkAt("wp", 0) == Kept && MarkAt("wp", 1) == Kept;
    FieldEndIs("wp", 0, 2);
    assert Unquote("wp", 0, 1) == "w" && Unquote("wp", 0, 2) == "wp";
    assert Fields("wp", 2) == [];
    assert Fields("wp", 0) == ["wp"];
  }

  lemma CdIsWord()
    ensures Words("cd") == Some(["cd"])
  {
    assert StateAt("cd", 1) == Plain && StateAt("cd", 2) == Plain;
    assert MarkAt("cd", 0) == Kept && MarkAt("cd", 1) == Kept;
    FieldEndIs("cd", 0, 2);
    assert Unquote("cd", 0, 1) == "c" && Unquote("cd", 0, 2) == "cd";
    assert Fields("cd", 2) == [];
    assert Fields("cd", 0) == ["cd"];
  }

  lemma AfterCd(plain: string, v: string)
    requires IsOrdinary(plain)
    ensures Words("cd " + plain + ShellEscape(v)) == Some(["cd", plain + v])
  {
    hide Words, ShellEscape, IsOrdinary;
    CdIsWord();
    PlainThenEscaped(plain, v);
    var rest := " " + plain + ShellEscape(v);
    assert rest[0] == ' ';
    WordsJoin("cd", rest);
    assert ["cd"] + [plain + v] == ["cd", plain + v];
    assert "cd" + rest == "cd " + plain + ShellEscape(v);
  }

  /** A path is read back as itself, unless it is `~` or starts with `~/`. */
  lemma PathIsRead(path: string)
    requires path != "~" && !HasPrefix(path, "~/")
    ensures Words("cd " + PathEscape(path)) == Some(["cd", path])
  {
    hide Words, ShellEscape;
    AfterCd("", path);
    assert "cd " + "" + ShellEscape(path) == "cd " + ShellEscape(path);
    assert "" + path == path;
  }

  /** Of `~` and `~/` the shell reads its home directory, and of any other path below it the expansion of
      that directory and, as it is, the rest of the path behind it. */
  lemma HomeIsRead(rest: string)
    ensures PathEscape("~") == "\"$HOME\"" && PathEscape("~/") == "\"$HOME\""
    ensures rest != "" ==> HasPrefix(PathEscape("~/" + rest), "\"$HOME\"")
    ensures rest != "" ==> Words("cd " + PathEscape("~/" + rest)[7..]) == Some(["cd", "/" + rest])
  {
    hide Words, ShellEscape;
    var text := "\"$HOME\"" + "/" + ShellEscape(rest);
    assert ("~/" + rest)[2..] == rest;
    assert text[..7] == "\"$HOME\"";
    assert text[7..] == "/" + ShellEscape(rest);
    SlashIsOrdinary();
    AfterCd("/", rest);
    assert "cd " + "/" + ShellEscape(rest) == "cd " + ("/" + ShellEscape(rest));
  }

  lemma SlashIsOrdinary()
    ensures IsOrdinary("/")
  {
  }

  /** Main result: of the text after ` && `, the splitter gives back wp, the parts, the arguments,
      the format flag, the flags and the bool flags unchanged, for arbitrary values. */
  lemma BuildRoundTrip(c: Cmd, wpPath: string)
    requires c.Valid() && PlainNames(c)
    ensures var text := BuildText(c, wpPath);
            var head := "cd " + PathEscape(wpPath) + " && ";
            head <= text && Words(text[|head|..]) == Some(Argv(c))
  {
    hide Words, ArgPieces, FormatPieces, FlagPieces, FlagWords, BoolPieces, Joined, PathEscape, EachIsWord, IsOrdinary;
    PartsAreWords(c);
    ArgsAreWords(c.args);
    FormatIsWord(c.format);
    FlagsAreWords(c.keys, c.flags);
    BoolsAreWords(c.bools);
    var format := if c.format == "" then [] else ["--format=" + c.format];
    var flags := FlagWords(c.keys, c.flags);
    WordsFollow(c.parts, c.parts, ArgPieces(c.args), c.args);
    WordsFollow(c.parts + ArgPieces(c.args), c.parts + c.args, FormatPieces(c.format), format);
    WordsFollow(c.parts + ArgPieces(c.args) + FormatPieces(c.format), c.parts + c.args + format,
                FlagPieces(c.keys, c.flags), flags);
    var words := c.parts + c.args + format + flags + BoolPieces(c.bools);
    WordsFollow(c.parts + ArgPieces(c.args) + FormatPieces(c.format) + FlagPieces(c.keys, c.flags),
                c.parts + c.args + format + flags, BoolPieces(c.bools), BoolPieces(c.bools));
    WpIsWord();
    WordsOfPieces(Pieces(c), words);
    assert Argv(c) == ["wp"] + words;
    var head := "cd " + PathEscape(wpPath) + " && ";
    assert BuildText(c, wpPath) == head + ("wp" + Joined(Pieces(c)));
  }

  lemma WordsOfPieces(pieces: seq<string>, words: seq<string>)
    requires EachIsWord(pieces, words)
    ensures Words("wp" + Joined(pieces)) == Some(["wp"] + words)
  {
    hide Words, Joined;
    WpIsWord();
    JoinedWords("wp", pieces, words);
  }

  // --------------------------------------------------------- two parses

  /** The words of each word of a line, as checkRawArgs reads it for a gateway that parses twice. */
  function Reparsed(words: seq<string>): Option<seq<string>> {
    if words == [] then Some([])
    else
      match (Reparsed(words[..|words| - 1]), Words(words[|words| - 1]))
      case (Some(a), Some(b)) => Some(a + b)
      case _ => None
  }

  lemma {:induction false} ReparsedFails(words: seq<string>, i: nat)
    requires i < |words| && Words(words[i]) == None
    ensures Reparsed(words) == None
  {
    hide Words;
    if i < |words| - 1 {
      ReparsedFails(words[..|words| - 1], i);
    }
  }

  /** Parses each word of a line again and puts the results together. */
  method ParseAgain(words: seq<string>) returns (inner: Option<seq<string>>)
    ensures inner == Reparsed(words)
  {
    hide Words;
    var all: seq<string> := [];
    for i := 0 to |words|
      invariant Reparsed(words[..i]) == Some(all)
    {
      var ws := ShellWords.ShellWords(words[i]);
      if ws == None {
        ReparsedFails(words, i);
        return None;
      }
      assert words[..i + 1][..i] == words[..i];
      all := all + ws.value;
    }
    assert words[..|words|] == words;
    inner := Some(all);
  }

  function Twice(vs: seq<string>): seq<string> {
    seq(|vs|, i requires 0 <= i < |vs| => ShellEscape(ShellEscape(vs[i])))
  }

  lemma EscapedAlone(v: string)
    ensures Words(ShellEscape(v)) == Some([v])
  {
    hide Means, Replaced, StateAt;
    var line := ShellEscape(v);
    assert StateAt(line, 0).Plain? by {
      AtStart(line);
    }
    assert line[0..0 + |line|] == line;
    EscapedRun(line, 0, v);
    OneField(line, v);
  }

  lemma AtStart(line: string)
    ensures StateAt(line, 0).Plain?
  {
  }

  lemma OneField(line: string, text: string)
    requires line != "" && StateAt(line, |line|).Plain? && Means(line, 0, |line|, text)
    ensures Words(line) == Some([text])
  {
    hide StateAt, Unquote, MarkAt;
    FieldEndIs(line, 0, |line|);
    assert Fields(line, |line|) == [];
    assert MarkAt(line, 0) != Blank;
    assert Fields(line, 0) == [text];
  }

  lemma {:induction false} ReparsedEscapes(vs: seq<string>)
    ensures Reparsed(ArgPieces(vs)) == Some(vs)
    decreases |vs|
  {
    hide Words, ShellEscape;
    if vs != [] {
      var n := |vs| - 1;
      ReparsedEscapes(vs[..n]);
      EscapedAlone(vs[n]);
      assert ArgPieces(vs)[..n] == ArgPieces(vs[..n]);
      assert vs == vs[..n] + [vs[n]];
    }
  }

  /** Values escaped twice survive the two parses. */
  lemma TwiceEscapedSurvives(vs: seq<string>)
    ensures var words := Words("wp" + Joined(Twice(vs)));
            words == Some(["wp"] + ArgPieces(vs)) && Reparsed(words.value) == Some(["wp"] + vs)
  {
    hide Words, ShellEscape, Joined;
    ArgsAreWords(ArgPieces(vs));
    assert Twice(vs) == ArgPieces(ArgPieces(vs));
    WordsOfPieces(Twice(vs), ArgPieces(vs));
    ReparsedEscapes(vs);
    WpIsWord();
    ReparsedCons("wp", ArgPieces(vs), vs);
  }

  lemma {:induction false} ReparsedCons(w: string, words: seq<string>, vs: seq<string>)
    requires Words(w) == Some([w]) && Reparsed(words) == Some(vs)
    ensures Reparsed([w] + words) == Some([w] + vs)
    decreases |words|
  {
    hide Words;
    if words == [] {
      assert [w] + words == [w] && [w][..0] == [];
      assert Reparsed([w]) == Some([] + [w]);
      assert [] + [w] == [w] + vs;
    } else {
      var n := |words| - 1;
      var a := Reparsed(words[..n]).value;
      ReparsedCons(w, words[..n], a);
      assert ([w] + words)[..n + 1] == [w] + words[..n];
      assert [w] + a + Words(words[n]).value == [w] + vs;
    }
  }
}
