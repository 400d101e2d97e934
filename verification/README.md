# Verified model of wpgo's dump scanner, SSH pool, shell words, batch runs and dump files

wpgo manages WordPress sites over SSH. This project models the parts of it whose correctness is
hardest to see from one function, and proves properties of whole runs of them:

- **The SQL dump scanner** (`internal/cmd/dumpscan.go`, `internal/cmd/dumpvalues.go`). A dump is
  scanned as it streams in, before anything is imported. `DumpLexer.dfy` is a byte-at-a-time lexer
  and scan of the text as functions; `DumpScanner.dfy`, `StmtCheck.dfy`, `DumpValues.dfy` and
  `Reader.dfy` are the classes of the source, updated in place over a 64 KiB buffer, proved to refine
  it for every dump and every split of it into reads. On the functions rest the results about what an
  accepted dump is. They are told from the text: what a line may start with, what each statement shows,
  cut into tokens by a reading of its own, and which of those tokens, byte for byte, its statements, its
  INSERT bodies, its table tails and its SET assignments are made of. Others say how the scan's reading
  of quotes and comments follows the client's, where versioned comments end, which names statements
  stay with, what memory the scan keeps, which failed reads it notices, and what session the SET
  statements leave behind.
- **The SSH pool and rate limiter** (`internal/ssh/pool.go`, `internal/ssh/ratelimit.go`, and the
  lease protocol of `internal/ssh/client.go`). Callers are interleaved steps over semaphore slots,
  key locks and the connection table; the invariants hold in every run of any number of callers.
- **The shell word splitter and the command builder** (`internal/cmd/raw_guard.go`,
  `internal/wpcli/builder.go`). The splitter's loop is proved against a position-wise reading of the
  quoting rules of sections 2.2, 2.3 and 2.6.7 of the POSIX.1-2017 Shell Command Language, the lines it
  takes are proved to be those of a grammar, and what the builder writes to be read back unchanged.
- **Batch runs** (`internal/batch/executor.go`), **dump files** (`internal/cmd/dump.go`) and **the
  restore protocol** (`internal/cmd/db_import.go`).

`dafny verify dfyconfig.toml` checks everything.

## How the files fit together

| files | role |
|---|---|
| `Text`, `SortedStrings` | bytes, strings, sorting |
| `DumpValues`, `ValuesGrammar`, `NumberSyntax`, `LiteralSyntax` | the automaton for INSERT bodies, in place and as functions; the grammar it accepts, what a number is, and the grammar byte for byte |
| `SqlChecks`, `Statements`, `StmtCheck`, `StatementBounds`, `StatementFrames` | the statement checker as functions and in place; what it keeps and leaves alone |
| `StatementNames`, `StatementHeads`, `FinalHeads` | the verbs and names it allows, for one head and along a dump; the heads it lets through unchecked |
| `DumpLexer`, `ScanRuns`, `ReadFaults`, `Reader`, `DumpScanner` | the pure scan, its runs, which failed reads it notices, the buffered reader and the scanner that refines the scan |
| `TokenRuns`, `DumpPrefixes`, `LogRuns` | reading written tokens back, the same steps whatever follows a line, the statements a run ends |
| `LineStarts`, `PlainReading`, `SandboxLine` | what lines of an accepted dump may start with, the client's reading byte by byte and that the scan follows it, the first line of a MariaDB dump |
| `StatementTokens`, `StatementReading`, `Sentences` | a statement as what it shows and the tokens of that, against what the scanner keeps of it; the statements of a dump |
| `InsertFeeding`, `InsertHeads`, `InsertBodies`, `LiteralInserts`, `DroppedBytes` | where an INSERT's body starts and that all of it reaches the automaton; what bodies accepted dumps hold, and the byte that may be dropped |
| `StatementForms`, `TableTails`, `SetForms` | the statements of an accepted dump word by word: their kinds, the tails of CREATE TABLE, the assignments of SET |
| `VersionedComments`, `VersionedCommentsExact`, `CodeWords` | lexical results on accepted dumps |
| `ReadingModes` | which modes and character sets change the reading of quotes and backslashes |
| `SessionModel`, `SetStatements`, `Mentions`, `SessionSafety` | the session a dump runs in, what keeps it safe, and why by statement it is |
| `OpenSessions` | exactly which dumps keep the session safe, however variables are accounted for |
| `SessionReading`, `SetRuns`, `SpokenNames`, `ForgivenMentions` | the session with variables accounted for by mention, and the dumps after which it is not safe |
| `PoisonOrder`, `GivenUpRuns`, `OrderVerdicts`, `OrderDump` | what the order of Go's maps changes in one statement, the scan with every variable given up, exactly when the order decides a verdict, and a dump on which it does |
| `PoolTable`, `ConnectionPool`, `PoolSafety`, `PoolEffects`, `RateLimiter` | the pool's table, its callers as a state machine, its invariants, what each step does by who uses a connection; the limiter |
| `ShellWords`, `ShellGrammar`, `ShellQuoting`, `CommandBuilder` | the splitter, the lines it takes as a grammar, joined lines, the builder and the round trips |
| `BatchExecutor`, `DumpTail`, `SaveDump` | batches, dump tails, saved dumps |
| `RestoreDb`, `DumpCuts`, `Preamble` | restores, the copy an unnoticed error cuts off, and the statements an import starts with |

## Conventions

A byte is a `char` with the same code, a Go string or byte slice a `string`; case is folded for ASCII
letters. Errors are compared as verdicts, not by their text. Clocks, randomness, the network and other
processes are parameters or steps that may go either way. A function stands beside each method that
changes state, and the method's postcondition ties the new state to it; the results are about the
functions, so they hold of the methods. Go ranges over a map in an order it leaves open: the scanner's
results are for every such order (the parameter `order`).

## What the model shows about the code

- The final head check lets a statement through when it still wants more tokens at its end
  (`checkHead(true)` returning false without an error, internal/cmd/dumpscan.go:766-770). Those heads
  are exactly the ones whose object name is cut off after its dot (`FinalHeads.WantsMoreExactly`); the
  dump `INSERT INTO db.` is accepted (`FinalHeads.InsertIntoDbIsAccepted`).
- When the word at which an INSERT's head is allowed, VALUES for one, ends at a byte of punctuation, that
  byte goes to the check of CREATE TABLE's tail, which passes it, and not to the INSERT body
  (internal/cmd/dumpscan.go:646-671). The body is checked as if white space stood there: it spells
  literal values, or it does with that one byte taken for white space and then not with the byte itself
  (`LiteralInserts.InsertsAreLiteral`). `INSERT INTO t VALUES,(1)` is accepted
  (`DroppedBytes.CommaIsAccepted`), and `VALUES(1)` without a space is refused.
- The check of names passes over IF, NOT and EXISTS, the start of an INSERT's body does not: behind a
  table called by one of these words two tokens of the body are known before the head is allowed
  (`InsertHeads.AtMostTwo`).
- A failed read of the dump, or a failed write of its staged copy, refuses the dump only if it reaches
  the scanner as the error of a byte or line it reads. bufio forgets an error it has reported, and the
  scanner drops the errors of its look-aheads, so each look-ahead past the end swallows one failure;
  `counter.err` is looked at only after the scan has failed (internal/cmd/db_import.go:221-226).
  `ReadFaults.FaultsSurface` says exactly when a failure surfaces, `ReadFaults.CutsAtLinesAreMissed`
  that one at the start of a line does not, and `DumpCuts.CutDumpIsImported` gives a dump of two lines
  of which the first alone is staged and imported.
- User variables are accounted for by statement, not by mention: a SET statement that saves a variable
  may mention it elsewhere as well, and the variable stays trusted. However they are accounted for, a
  dump keeps the session safe exactly when no statement of it puts a variable that is open by then into
  sql_mode or the client character set (`OpenSessions.SessionIsSafeExactly`). By statement no accepted
  dump does (`SessionSafety.NothingIsExposed`, and so `SessionSafety.SessionStaysSafe`). By mention an
  accepted dump can: `ForgivenMentions.ForgivenDump` is one, and every prefix that leaves a trusted
  variable open by mention extends to one (`ForgivenMentions.ForgivenIsExploitable`).
- The order in which Go ranges over a map decides whether a dump is accepted when a statement brings the
  poisoned names to 48 with one that was poisoned before (`PoisonOrder.OrderMatters`) and a later SET
  puts a user variable back. A dump accepted in one order is accepted in every order exactly when no
  such SET follows such a statement (`OrderVerdicts.VerdictIsOrderFree`);
  `OrderDump.OrderDecidesDump` gives a dump that is accepted in one order and refused in another.
- Versioned comments end where a skipping server ends them exactly when the database name holds no
  comment end: a `use` line inside one is read whole (`VersionedCommentsExact.NameConditionIsExact`).
- The delay floor of the rate limiter holds exactly for delays up to 30 seconds
  (`RateLimiter.FloorNeedsCap`).

## Model

| member | source | states |
|---|---|---|
| DumpScan.ScanDump | internal/cmd/dumpscan.go:60-72 | the buffered scan accepts exactly the texts the byte-at-a-time scan accepts, however the text is split into reads, and with failed reads after the text exactly those `ReadFaults.Accepts` does; an accepting scan consumed what was delivered to its end, so the copy made of what it read is all of it |
| DumpScan.DumpScanner.constructor | internal/cmd/dumpscan.go:60-67 | a new scanner is the pure scan at the start of the text, with the delimiter `;` and nothing tracked |
| DumpScan.DumpScanner.Run | internal/cmd/dumpscan.go:121-147 | the verdict of the whole run is the pure scan's with the same failed reads; on success the text is used up |
| DumpScan.DumpScanner.StartLine | internal/cmd/dumpscan.go:125-127 | a line start read through the buffer leaves the scanner in the pure scan's state at that position and the verdict of the rest unchanged, or refuses what the pure scan refuses |
| DumpScan.DumpScanner.LineStart | internal/cmd/dumpscan.go:152-201 | client comments, client commands, `use` and `delimiter` lines are taken exactly as the pure scan's line step takes them; what may stand there is said by the results of `LineStarts` |
| DumpScan.DumpScanner.ReadCommand | internal/cmd/dumpscan.go:171-200 | the first word of a line, its blanks and its argument agree with the text, and a DELIMITER inside a statement is refused |
| DumpScan.DumpScanner.SkipLine | internal/cmd/dumpscan.go:204-217 | whatever the buffer holds, exactly the rest of the line and its newline are skipped |
| DumpScan.DumpScanner.ReadLine | internal/cmd/dumpscan.go:221-239 | the line's text is returned whole, and refused exactly when it is longer than the limit |
| DumpScan.DumpScanner.SetDelimiter | internal/cmd/dumpscan.go:241-258 | a delimiter is taken exactly when no statement has started and it is one field of up to 16 plain punctuation bytes |
| DumpScan.DumpScanner.RestOfLine | internal/cmd/dumpscan.go:275-312 | after the rest of a line, skipped in buffered runs inside quotes, the code, quote and comment state and everything else kept are the pure scan's at the same position |
| DumpScan.DumpScanner.Handle | internal/cmd/dumpscan.go:280-309 | each byte read takes the scanner to the pure scan's next state |
| DumpScan.DumpScanner.EndLine | internal/cmd/dumpscan.go:287-293 | the newline that ends a line of code ends a variable, a token and a word |
| DumpScan.DumpScanner.SkipQuoted | internal/cmd/dumpscan.go:316-328 | skipping a buffered run inside a quote reaches the state that reading it byte by byte reaches |
| DumpScan.DumpScanner.Quoted | internal/cmd/dumpscan.go:330-363 | escapes, doubled quotes and closing quotes are one step of the pure scan each |
| DumpScan.DumpScanner.Code | internal/cmd/dumpscan.go:375-447 | a byte of code and what must be read after it are one step of the pure scan |
| DumpScan.DumpScanner.ReadEvent | internal/cmd/dumpscan.go:376-435 | a byte outside words ends the word and the variable before it, and what follows is read as the lexer reads it |
| DumpScan.DumpScanner.DelimiterFollows | internal/cmd/dumpscan.go:386-393 | the delimiter is found exactly where it stands in the text, also across reads |
| DumpScan.DumpScanner.LineComment | internal/cmd/dumpscan.go:498-511 | a comment is skipped up to its newline, whatever chunk is buffered |
| DumpScan.DumpScanner.DashComment | internal/cmd/dumpscan.go:488-495 | a dash starts a comment exactly when a second dash and then white space or the end follows |
| DumpScan.DumpScanner.OpenComment | internal/cmd/dumpscan.go:514-542 | comments, versioned comments and refused hints are told apart as the lexer does |
| DumpScan.DumpScanner.ReadVersion | internal/cmd/dumpscan.go:531-538 | up to six version digits are consumed, and 999999 marks a comment no server runs |
| DumpScan.DumpScanner.EndWord | internal/cmd/dumpscan.go:545-557 | the word just read is refused exactly when it is OUTFILE or DUMPFILE in any case, and forgotten either way |
| DumpScan.DumpScanner.EndVar | internal/cmd/dumpscan.go:474-484 | a variable's name is reported once, as unnamed when it is too long or not ASCII |
| DumpScan.DumpScanner.StartVar | internal/cmd/dumpscan.go:456-469 | an `@` starts a name, is unnamed, or is none, by the bytes around it |
| DumpScan.DumpScanner.TrackVar | internal/cmd/dumpscan.go:395-410 | the bytes of a variable's name are collected up to 64 |
| DumpScan.DumpScanner.PlainByte | internal/cmd/dumpscan.go:436-446 | a byte of code goes to the word, the variable and the statement, but not to the statement in a comment no server runs |
| BufferedReader.Reader.Peek | internal/cmd/dumpscan.go:157-171 | peeking gives the next bytes of the text, or all that are left, across reads; past the end it swallows one failed read |
| BufferedReader.Reader.ReadSlice | internal/cmd/dumpscan.go:204-217 | a slice ends at the first newline, at a full buffer without one, at a failed read or at the end of the text |
| BufferedReader.Reader.ReadByte | internal/cmd/dumpscan.go:280-286 | the next byte of the text; at its end a failed read if one is left, or the end |
| BufferedReader.Reader.AllRead | internal/cmd/db_import.go:220-231 | the copy is a prefix of the source, and all of it once the text is used up |
| ReadFaults.FaultsSurface | internal/cmd/dumpscan.go:157-287 | with failed reads after the text, the scan accepts exactly the accepted texts whose look-aheads past the end, before the first byte or line read there, are at least as many as the failed reads |
| ReadFaults.CutsAtLinesAreMissed | internal/cmd/dumpscan.go:152-171 | an accepted dump cut off at the end of a line of code is accepted though up to three reads fail after the cut |
| ReadFaults.OnlyTheEndSwallows | internal/cmd/dumpscan.go:157-287 | how many failed reads are swallowed depends only on the last 33 bytes and the state in which the scan reaches them |
| ReadFaults.QuotedRun | internal/cmd/dumpscan.go:314-328 | a run of plain quoted bytes read one at a time gives the verdict its text read at once gives |
| ScanRuns.QuotedSteps | internal/cmd/dumpscan.go:314-328 | a run of plain quoted bytes is as many steps of the pure scan as it has bytes, and ends in the state its text fed at once gives |
| ScanRuns.StepInQuote | internal/cmd/dumpscan.go:330-363 | a quoted step by what it reads: skipped, kept as text, or the end of the quote |
| ScanRuns.StepInCode | internal/cmd/dumpscan.go:375-447 | a code step is what the lexer reads, then the checks on it |
| ReadFaults.RunStep | internal/cmd/dumpscan.go:121-147 | one step keeps the invariant and the verdict of the run |
| ScanRuns.RetainedStateIsBounded | internal/cmd/dumpscan.go:583-589 | in every run over every text, statement text and the current token stay within 64 KiB, heads other than SET within 48 tokens, every collection of variable names within 48, the code word within 16 bytes and a name within 64 |
| TokenRuns.ReadToEnd | internal/cmd/dumpscan.go:646-754 | words and punctuation written apart, up to the end of the text, are read back as the tokens they are |
| LogRuns.SameRun | internal/cmd/dumpscan.go:121-147 | steps that stay before the end of a line end the same statements and reach the same state whatever text follows the line |
| StatementBounds.CodeByteKeepsInv | internal/cmd/dumpscan.go:646-671 | the memory bounds survive every byte of code |
| StatementBounds.QuoteTextKeepsInv | internal/cmd/dumpscan.go:694-711 | the memory bounds survive every piece of quoted text |
| StatementBounds.EndKeepsInv | internal/cmd/dumpscan.go:763-788 | the memory bounds survive the end of every statement, however its variables are ordered |
| StatementBounds.QuoteTextSplits | internal/cmd/dumpscan.go:694-711 | splitting quoted text between calls does not matter |
| StatementBounds.SaveStaysBounded | internal/cmd/dumpscan.go:1142-1147 | saving a variable keeps at most 48 saved names |
| StatementNames.OnlyDumpStatements | internal/cmd/dumpscan.go:793-850 | in every run a head that is kept starts with one of the ten verbs dumps use |
| StatementNames.OtherVerbsAreRefused | internal/cmd/dumpscan.go:793-850 | any other first token is refused at once |
| StatementNames.NamesStayInDatabase | internal/cmd/dumpscan.go:915-935 | the name that CREATE, INSERT, REPLACE or a trigger's ON is allowed for, put together from all its tokens, is unqualified or qualified with the target database |
| StatementHeads.HeadStays | internal/cmd/dumpscan.go:793-1039 | every object an allowed head names, of every verb, stays in the target database: INSERT, REPLACE, CREATE and a trigger's table, all names of DROP and LOCK TABLES, ALTER TABLE, USE, CREATE and ALTER DATABASE |
| StatementHeads.DumpStaysInDatabase | internal/cmd/dumpscan.go:730-788 | along every dump, each statement that ends before anything is refused was allowed with a head whose names stay in the database, is blank, or is cut off after the dot of its name |
| FinalHeads.WantsMoreExactly | internal/cmd/dumpscan.go:793-948 | a complete head still wants more, and so is let through, exactly when the name of its object, or of a trigger's table, is cut off after its dot |
| FinalHeads.UnfinishedInsertIsAccepted | internal/cmd/dumpscan.go:763-769 | for every database whose name can be written as a word, the dump `INSERT INTO` with that name and a dot is accepted |
| FinalHeads.InsertIntoDbIsAccepted | internal/cmd/dumpscan.go:763-769 | the dump `INSERT INTO db.` is accepted for the database `db` |
| StmtChecker.StmtCheck.UserVar | internal/cmd/dumpscan.go:632-644 | a mention is recorded once, and too many make every variable untrusted |
| StmtChecker.StmtCheck.CodeByte | internal/cmd/dumpscan.go:646-671 | a byte of code joins a token, ends one, or goes to the INSERT body; refusals are exactly the specification's |
| StmtChecker.StmtCheck.Space | internal/cmd/dumpscan.go:673-679 | white space and comments end a token |
| StmtChecker.StmtCheck.StartQuote | internal/cmd/dumpscan.go:681-692 | a quote ends a token and starts one, except in a comment no server runs |
| StmtChecker.StmtCheck.QuoteText | internal/cmd/dumpscan.go:694-711 | quoted text is kept only while the head still is, within the size limit |
| StmtChecker.StmtCheck.EndQuote | internal/cmd/dumpscan.go:713-719 | the end of a quote ends its token |
| StmtChecker.StmtCheck.Flush | internal/cmd/dumpscan.go:721-728 | the token in progress is pushed once |
| StmtChecker.StmtCheck.Push | internal/cmd/dumpscan.go:730-754 | a token is judged with the head before it, or with the CREATE TABLE tail after it |
| StmtChecker.StmtCheck.CheckHead | internal/cmd/dumpscan.go:793-850 | a head is refused, allowed or wants more as the specification says, and only an allowed one changes the state; what heads are allowed, and that an INSERT's body is followed, is said by `StatementForms.HeadIs` and `LiteralInserts.InsertsAreLiteral` |
| StmtChecker.StmtCheck.CheckDDL | internal/cmd/dumpscan.go:865-915 | CREATE, DROP and ALTER are judged by the object they name |
| StmtChecker.StmtCheck.CheckTail | internal/cmd/dumpscan.go:1269-1310 | one token of a tail passes exactly when the specification says; which tails pass is `TableTails.TailsPass` |
| StmtChecker.StmtCheck.CheckSet | internal/cmd/dumpscan.go:1044-1060 | SET is checked assignment by assignment, left to right |
| StmtChecker.StmtCheck.CheckAssignment | internal/cmd/dumpscan.go:1099-1168 | one assignment saves, restores or sets a variable, or is refused, as the specification says; which assignments pass is said by `SetForms.SetsAreHarmless` |
| StmtChecker.StmtCheck.End | internal/cmd/dumpscan.go:763-788 | the end of a statement checks its head and body, poisons what it leaves open and starts the next one afresh |
| StmtChecker.UserVars.Trusted | internal/cmd/dumpscan.go:626-630 | a variable is trusted exactly when it is not poisoned and was last saved from the same system variable |
| StmtChecker.UserVars.Save | internal/cmd/dumpscan.go:1142-1147 | at most 48 names are saved; one more makes every variable untrusted |
| StmtChecker.UserVars.Poison | internal/cmd/dumpscan.go:771-785 | every name not accounted for is poisoned, in the order given |
| ValuesAutomaton.DumpValues.Code | internal/cmd/dumpvalues.go:56-102 | a byte of an INSERT body outside quotes does what the automaton's step does |
| ValuesAutomaton.DumpValues.Gap | internal/cmd/dumpvalues.go:104-165 | white space and comments between the words of a body end a literal |
| ValuesAutomaton.DumpValues.Open | internal/cmd/dumpvalues.go:167-180 | a quote opens a string, a name or the digits of X'..' and B'..' |
| ValuesAutomaton.DumpValues.Text | internal/cmd/dumpvalues.go:182-191 | quoted text is unbounded, digits are checked |
| ValuesAutomaton.DumpValues.Close | internal/cmd/dumpvalues.go:193-204 | the end of a quote completes what it opened |
| ValuesAutomaton.DumpValues.Feed | internal/cmd/dumpvalues.go:38-54 | a token of the head is fed as the bytes and quotes it was made of |
| ValuesAutomaton.DumpValues.Finish | internal/cmd/dumpvalues.go:206-214 | a body is complete after a tuple |
| ValuesGrammar.RetainsAtMost128Bytes | internal/cmd/dumpvalues.go:68-78 | over any events, for strings and digit runs of any length, the automaton keeps at most 128 bytes |
| ValuesAutomaton.QuoteTextSplits | internal/cmd/dumpvalues.go:182-191 | splitting quoted text between calls does not matter |
| ValuesGrammar.AcceptsExactlyLiteralValues | internal/cmd/dumpvalues.go:34-214 | the automaton accepts a well-bracketed event stream exactly when it spells an optional non-empty column list, VALUES, and one or more non-empty tuples of literals, for unbounded strings and digit runs |
| NumberSyntax.NumberIsItsParts | internal/cmd/dumpvalues.go:11 | a word is a number exactly when it is an optional sign, digits on at least one side of a point that may be missing, and an optional exponent of e, an optional sign and digits |
| ValuesGrammar.EventsAreLexemes | internal/cmd/dumpvalues.go:56-204 | byte events and the lexemes they spell are accepted alike |
| ValuesGrammar.Spelled | internal/cmd/dumpvalues.go:56-165 | every accepted list of lexemes is the rendering of an INSERT body of the grammar |
| ValuesGrammar.Taken | internal/cmd/dumpvalues.go:56-165 | the rendering of every INSERT body of the grammar is accepted |
| ValuesGrammar.LiteralTaken | internal/cmd/dumpvalues.go:104-165 | where a value may stand, the automaton takes NULL, a number with an optional spaced sign, 0x and 0b digits, X, B, N and introduced strings, and plain strings |
| ValuesGrammar.OneLiteral | internal/cmd/dumpvalues.go:104-165 | where a value may stand, what the automaton takes starts with one of those literals, and with nothing else |
| LineStarts.NoClientCommands | internal/cmd/dumpscan.go:152-201 | at every position of an accepted dump where a line starts in code and is no comment line, its first word is none of system, source, connect, tee, pager, edit, charset, in any case |
| LineStarts.UseNamesDatabase | internal/cmd/dumpscan.go:261-272 | such a line that starts with `use` names the target database, as it is or in quotes, perhaps with a semicolon and the delimiter behind it |
| LineStarts.DelimiterLine | internal/cmd/dumpscan.go:241-258 | a `delimiter` line of up to 1024 bytes is taken exactly between statements, outside versioned comments and when its argument is up to 16 bytes of plain punctuation |
| LineStarts.DelimiterIsTaken | internal/cmd/dumpscan.go:241-258 | every such delimiter, `;;` for one, ends the statements behind the line |
| LineStarts.DelimitersArePlain | internal/cmd/dumpscan.go:241-258 | no `delimiter` line of an accepted dump gives anything else |
| LineStarts.CodeHoldsNoCommand | internal/cmd/dumpscan.go:395-434 | no accepted dump holds `:=` outside quotes, comments and comments no server runs, nor `/*+` outside quotes and comments, nor a comment inside a versioned comment |
| PlainReading.ScanReadsAsClient | internal/cmd/dumpscan.go:275-542 | wherever the scan of a text stands, its mode of code, quote and comment is that of a reading of the text one byte at a time, which knows nothing of the scan's steps |
| SandboxLine.SandboxLineIsPassed | internal/cmd/dumpscan.go:514-542 | behind the line `/*M!999999\- enable the sandbox mode */` at its start, a dump is judged by what follows the line |
| StatementTokens.CutAt | internal/cmd/dumpscan.go:646-728 | what a statement shows can be cut behind each of its tokens, and is read on alike from there |
| InsertFeeding.FedTokens | internal/cmd/dumpvalues.go:38-54 | feeding the automaton the first tokens of a body is feeding it the bytes and quotes they were read from |
| InsertHeads.AtMostTwo | internal/cmd/dumpscan.go:804-822 | when the head of an INSERT is allowed one token of its body is known, or two when the table is called IF, NOT or EXISTS |
| InsertBodies.KeepsUp | internal/cmd/dumpscan.go:646-754 | after any events of a statement the scanner keeps the tokens they make while its head waits, has let the tail pass behind it, or has fed its automaton all events behind the name of the table |
| Sentences.StepSeen | internal/cmd/dumpscan.go:375-447 | what a step of the scan shows the statement checker is what the text of the step shows |
| Sentences.SentencesEnd | internal/cmd/dumpscan.go:763-788 | every statement of an accepted dump was let through at its end as what the text showed of it |
| LiteralInserts.InsertsAreLiteral | internal/cmd/dumpscan.go:804-822 | for every INSERT and REPLACE of an accepted dump, what its text shows behind the name of its table is well bracketed and spells an optional column list, VALUES and tuples of literals, but for one byte of punctuation right behind the word that completes the head; or the statement ends at the dot behind its qualifier |
| LiteralInserts.NoBodyWith | internal/cmd/dumpscan.go:646-671 | where that byte is taken for white space, the events with the byte itself spell no body |
| LiteralSyntax.InsertIs | internal/cmd/dumpvalues.go:104-165 | the grammar of bodies byte for byte: keyword, columns, numbers, digits, introducers and strings |
| DroppedBytes.CommaIsAccepted | internal/cmd/dumpscan.go:646-671 | `INSERT INTO t VALUES,(1)` is accepted for every database |
| TableTails.TailsPass | internal/cmd/dumpscan.go:1269-1310 | the tokens behind a table's name pass exactly when none is GENERATED or AS, no DIRECTORY follows DATA or INDEX, and every DEFAULT is followed by signs, a literal or CURRENT_TIMESTAMP, and then a column attribute, a comma or a bracket |
| StatementForms.TablesAreLiteral | internal/cmd/dumpscan.go:865-911 | so pass the tokens behind the name of every table an accepted dump creates, unless the statement ends at the dot of its qualifier |
| StatementForms.HeadIs | internal/cmd/dumpscan.go:793-1039 | any head but that of INSERT, REPLACE and SET is allowed at the end of its statement exactly when it is, word by word, one of the statements mysqldump writes, and every object it names has no qualifier or that of the target database; a head that is allowed earlier is one |
| StatementForms.OnlyDumpedStatements | internal/cmd/dumpscan.go:793-850 | every statement of an accepted dump, by its own tokens, is an INSERT, REPLACE or SET, one of those statements, whole or as far as its head goes, or a CREATE that ends in a dot |
| ReadingModes.SafeListReadsPlainly | internal/cmd/dumpscan.go:1198-1229 | no list of modes the checker allows holds NO_BACKSLASH_ESCAPES, ANSI_QUOTES or a combination mode that includes it, in any case and with any white space |
| ReadingModes.UnsafeCharsetIs | internal/cmd/dumpscan.go:1062-1071 | the character sets the checker refuses are big5, cp932, gbk, gb18030 and sjis in any case, and their collations |
| SetForms.SetsAreHarmless | internal/cmd/dumpscan.go:1044-1168 | every assignment of every SET statement of an accepted dump, cut at commas outside parentheses, gives sql_mode one quoted list of plain modes or a user variable, the client character set a plain one or a user variable, and a user variable only a system variable; no SET STATEMENT, and no unsafe character set named anywhere |
| VersionedComments.CommentsEndAtFirstEnd | internal/cmd/dumpscan.go:317-350 | a versioned comment the scan closes is closed at the first `*/` after its opener, and one it leaves open has none, so a server that skips it resumes at the same byte |
| VersionedComments.StepHasNoEnd | internal/cmd/dumpscan.go:420-434 | a step inside a versioned comment that does not close it passes no `*/`, even across quotes, escapes and newlines |
| VersionedComments.UseArgumentIsEndFree | internal/cmd/dumpscan.go:261-272 | the argument of use holds a `*/` only if the name it means does |
| VersionedComments.Opening | internal/cmd/dumpscan.go:514-542 | a versioned comment starts at its opener only, never inside another, and its version holds no `*/` |
| VersionedCommentsExact.NameConditionIsExact | internal/cmd/dumpscan.go:184-200 | for every database name some argument of `use` spells, the comments of every accepted dump end at their first `*/` exactly when the name holds none |
| VersionedCommentsExact.NameHidesEnd | internal/cmd/dumpscan.go:184-200 | whatever argument of `use` spells a name that holds a `*/`, it hides a comment end from the scan |
| VersionedCommentsExact.DumpIsAccepted | internal/cmd/dumpscan.go:184-200 | the dump with this argument inside a versioned comment is accepted |
| VersionedCommentsExact.ShortNamesAreNameable | internal/cmd/dumpscan.go:261-272 | an argument of `use` can spell every name of up to 1022 bytes without a newline |
| CodeWords.NoFileWords | internal/cmd/dumpscan.go:545-557 | in an accepted dump no maximal word outside quotes and comments is OUTFILE or DUMPFILE in any case, wherever reads, comments, quotes or the end of the text split it |
| CodeWords.BackslashesAreSandboxMarks | internal/cmd/dumpscan.go:416-421 | in an accepted dump every backslash outside quotes and comments starts `\-` |
| CodeWords.StepWord | internal/cmd/dumpscan.go:376-385 | what one step does to the word being read |
| DumpLexer.PunctuationIsNoWord | internal/cmd/dumpscan.go:386-435 | nothing that means something to the scanner is a byte of a word |
| SessionSafety.SessionStaysSafe | internal/cmd/dumpscan.go:614-644 | execute every statement of an accepted dump from the preamble's session, let every user variable that an earlier statement mentions but does not itself save or restore take any value at any time: sql_mode never holds a mode that changes how quotes or backslashes are read, and the client character set is never one in which the byte of a backslash may end another character |
| SessionSafety.SetIsJudgedWhole | internal/cmd/dumpscan.go:836-840 | no token of a SET statement decides it before its end |
| SessionSafety.EndAgrees | internal/cmd/dumpscan.go:763-788 | a statement that ends and puts no open variable back leaves the tracked variables in agreement with the session, whatever it leaves open |
| SessionSafety.EndCovers | internal/cmd/dumpscan.go:763-788 | by statement, a statement that ends put no open variable back, and every variable it leaves open is poisoned or all are given up |
| SessionSafety.RunIsSafe | internal/cmd/dumpscan.go:614-644 | however variables are accounted for, a run in which no statement puts an open variable back keeps every session safe |
| SessionSafety.NothingIsExposed | internal/cmd/dumpscan.go:614-644 | no statement of an accepted dump puts a variable that, by statement, is open into sql_mode or the client character set |
| OpenSessions.SessionIsSafeExactly | internal/cmd/dumpscan.go:614-644 | from every session the preamble sets up, and by statement as by mention, all a dump can go through is safe if and only if no statement of it puts a variable that is open by then into sql_mode or the client character set |
| OpenSessions.ExposedHarms | internal/cmd/dumpscan.go:1150-1157 | a dump that puts an open variable back can make every session unsafe, from wherever it starts |
| SessionSafety.PoisonCovers | internal/cmd/dumpscan.go:771-785 | every variable mentioned and not accounted for is poisoned, or all are given up |
| SetStatements.AssignmentsAgree | internal/cmd/dumpscan.go:1044-1060 | every session a checked SET statement goes through is safe, and agrees with the tracked variables at its end, when it puts no open variable back |
| SetStatements.AssignmentAgrees | internal/cmd/dumpscan.go:1099-1168 | one checked assignment that puts no open variable back keeps the session safe and the tracked variables in agreement with it |
| SetStatements.AssignmentsCover | internal/cmd/dumpscan.go:1044-1060 | a checked SET statement puts no variable back that is open, while every open variable is poisoned |
| SetStatements.LexicalValueIsSafe | internal/cmd/dumpscan.go:1148-1168 | the value given to sql_mode or the client character set is safe, also when it comes from a variable that is not open |
| SetStatements.ModeListHoldsNoQuote | internal/cmd/dumpscan.go:1202-1229 | an allowed list of modes holds no quote, so its text is its value |
| SessionModel.PreambleIsSafe | internal/cmd/db_import.go:130-136 | a session with the preamble's sql_mode and character set reads quotes and backslashes plainly |
| Preamble.PreambleSetsSession | internal/cmd/db_import.go:130-136 | executing the two statements of the preamble in any session leaves its sql_mode and client character set the ones the scanner assumes |
| Preamble.PreambleIsRead | internal/cmd/db_import.go:130-136 | the text of the preamble is read as exactly those two statements, and accepted |
| Preamble.ImportStaysSafe | internal/cmd/db_import.go:191-194 | in whatever session an import starts, the preamble and then every statement of an accepted dump leave it safe throughout |
| Mentions.ByteStepReports | internal/cmd/dumpscan.go:456-469 | a byte of code reports exactly the variables whose `@` stands there in the text |
| Mentions.EndVarReports | internal/cmd/dumpscan.go:474-484 | a name is reported as the run of name bytes after its `@`, when that run ends |
| Mentions.PunctuationReports | internal/cmd/dumpscan.go:376-435 | no name is lost at comments, quotes or the end of a statement |
| Mentions.StepReports | internal/cmd/dumpscan.go:456-484 | along a statement, every user variable whose `@` stands in its code was reported to the checker or is being read |
| SpokenNames.MentionsAreSpeakable | internal/cmd/dumpscan.go:456-484 | while the checker tracks variables, each one it was told of has a name that can be written again as one token, or is the unnamed one |
| SessionReading.MentionInTrackedStatementIsForgiven | internal/cmd/dumpscan.go:771-785 | `SET @m = @@sql_mode, x = (@m)` is allowed, saves `@m` and leaves nothing to be poisoned |
| ForgivenMentions.SessionStaysSafeByMention | internal/cmd/dumpscan.go:614-644 | a special case of the exact condition: by mention, a dump in which no SET statement mentions a variable it tracks outside the tracked forms keeps the session safe |
| ForgivenMentions.ForgivenIsExploitable | internal/cmd/dumpscan.go:1136-1157 | after any prefix of whole lines in which a variable still trusted for sql_mode or the client character set is mentioned outside the tracked forms, two more lines make a dump that is accepted and, by mention, can end every session unsafe |
| ForgivenMentions.ForgivenDump | internal/cmd/dumpscan.go:771-785 | the dump that saves sql_mode in `@m`, mentions `@m` in the same statement and then sets sql_mode to `@m` is accepted for every database and can make every session unsafe |
| PoisonOrder.OrderMatters | internal/cmd/dumpscan.go:771-785 | two orders of a statement's variables give different results exactly when they bring the poisoned names to 48 and one of them was poisoned before |
| OrderVerdicts.RestoreNeedsTrust | internal/cmd/dumpscan.go:1150-1157 | SET of sql_mode or the client character set to a variable is accepted exactly when the variable is trusted for it |
| OrderVerdicts.OrderDecidesVerdict | internal/cmd/dumpscan.go:771-785 | at one end of a statement: where two orders give different variables, a saved variable that is not poisoned may be put back after one of them and not after the other |
| OrderVerdicts.SettledDumpsHaveOneVerdict | internal/cmd/dumpscan.go:763-788 | a special case of the exact condition, for any text: when no statement ends where orders differ, the verdict is the same in every order |
| OrderVerdicts.VerdictIsOrderFree | internal/cmd/dumpscan.go:763-788 | a dump accepted in one order is accepted in every order if and only if, read in it, no SET that puts a user variable back follows a statement that ends where orders differ |
| OrderVerdicts.OneVerdictExactly | internal/cmd/dumpscan.go:763-788 | all orders agree on a text exactly when no order that accepts it reads such a SET after such an end |
| GivenUpRuns.RunLost | internal/cmd/dumpscan.go:121-147 | with every variable given up, and in any order, the rest of a text is accepted exactly when it was accepted before and none of its statements puts a user variable back |
| OrderDump.OrderDecidesDump | internal/cmd/dumpscan.go:771-785 | for every database one dump is accepted in one order and refused in another: it saves sql_mode, leaves 47 names open, then one of them and a new one, and puts sql_mode back |
| PoolSafety.LeasedClientsStayOpen | internal/ssh/pool.go:68-167 | in every interleaving no step but Close, and the holder's own Remove, closes a client that a caller leases |
| PoolSafety.LeasedEntryStays | internal/ssh/pool.go:182-200 | while the pool is open, a leased entry stays the entry of its key and open until its only holder removes it |
| PoolSafety.NoConnectionIsLost | internal/ssh/pool.go:132-179 | every client dial returned is held by one Get, is in the table or is closed; a closed pool's table stays empty |
| PoolSafety.AddReplacesNothing | internal/ssh/pool.go:143-157 | adding an entry never replaces a live one |
| PoolSafety.SlotsAreConserved | internal/ssh/ratelimit.go:95-138 | a host's occupied slots are its callers that hold one, never more than MaxConns, so every failing exit freed its slot once |
| PoolSafety.NoDeadlock | internal/ssh/pool.go:68-167 | while any call is under way some caller can take its next step |
| PoolSafety.StepKeepsInv | internal/ssh/pool.go:68-256 | every step of every caller keeps the invariants |
| PoolSafety.CountStep | internal/ssh/pool.go:90-121 | an entry's `active` is always the number of its callers |
| PoolSafety.PairStep | internal/ssh/pool.go:91-102 | a connection is probed only by a caller that is alone with it |
| PoolSafety.ShutBy | internal/ssh/client.go:64-88 | who may close a leased client in one step, under the protocol of one Get, at most one Remove and one release |
| PoolEffects.RemoveCloses | internal/ssh/pool.go:182-200 | in every reachable state Remove closes the connection of its key and deletes the entry exactly when no other caller uses it, and otherwise changes nothing |
| PoolEffects.LookUpJoins | internal/ssh/pool.go:76-102 | the lookup joins the connection of its key and probes it exactly when no caller uses it; without one it dials, in a closed pool it fails |
| PoolEffects.DropCloses | internal/ssh/pool.go:115-129 | a connection that failed its probe is closed, is no longer the one of its key, and its caller has left it, to dial unless it was cancelled |
| PoolEffects.AddEnters | internal/ssh/pool.go:149-157 | a new connection becomes that of its key, with the time noted, and stays open; in a closed pool it is closed and the call fails |
| PoolEffects.ReleaseLeaves | internal/ssh/pool.go:159-165 | a release leaves the connection where it is, with the time noted |
| PoolEffects.ReapCloses | internal/ssh/pool.go:233-256 | the reaper closes exactly the connections that no caller uses and that were not used for longer than the timeout |
| PoolEffects.CloseClosesAll | internal/ssh/pool.go:170-179 | Close closes every connection of the table, and only those, and empties it |
| PoolTable.Pool.Lookup | internal/ssh/pool.go:83-95 | the lookup joins the entry of the key and tells whether others use it |
| PoolTable.Pool.DropDead | internal/ssh/pool.go:117-123 | a dead connection leaves the table, its entry is left and its client closed |
| PoolTable.Pool.Add | internal/ssh/pool.go:143-157 | a new connection enters the table, or is closed when the pool is |
| PoolTable.Pool.Release | internal/ssh/pool.go:159-165 | a release leaves the entry and notes the time |
| PoolTable.Pool.RemoveKey | internal/ssh/pool.go:188-199 | the entry of the key is closed and deleted as the specification says; in reachable states that is exactly when no other caller uses it, by `PoolEffects.RemoveCloses` |
| PoolTable.Pool.ReapIdle | internal/ssh/pool.go:238-256 | exactly the connections idle beyond the timeout and without callers are closed, in whatever order |
| PoolTable.Pool.CloseAll | internal/ssh/pool.go:170-179 | Close closes every connection of the table and empties it |
| RateLimiter.DelaysHold | internal/ssh/ratelimit.go:146-172 | with 0 < Delay <= 30s, in every run the delay stays between Delay and 30s and reserved slots are at least Delay apart |
| RateLimiter.StartsAreSpaced | internal/ssh/ratelimit.go:95-138 | by any time T at most (T - t0) / Delay commands have started, t0 being the first reservation |
| RateLimiter.ErrorsDouble | internal/ssh/ratelimit.go:146-156 | in a run without successes, n errors make the delay 2^n times what it was, and 30 seconds at most |
| RateLimiter.SuccessesHalve | internal/ssh/ratelimit.go:160-172 | in a run without errors, n successes halve the delay n times, down to the base delay |
| RateLimiter.SlotsAreEarliest | internal/ssh/ratelimit.go:105-114 | while there are no errors each slot is as early as it can be: the greatest, over the callers up to it, of the time the caller reserved and one delay for each slot from that caller's on |
| RateLimiter.FloorNeedsCap | internal/ssh/ratelimit.go:146-156 | the floor holds in every run exactly when Delay is at most 30 seconds |
| RateLimiter.HostBucket.Reserve | internal/ssh/ratelimit.go:105-114 | the slot reserved is the later of now and the last slot, plus the delay |
| RateLimiter.HostBucket.OnTransportError | internal/ssh/ratelimit.go:146-156 | an error doubles the delay up to 30 seconds |
| RateLimiter.HostBucket.OnSuccess | internal/ssh/ratelimit.go:160-172 | a success halves the delay down to its base |
| ShellWords.ShellWords | internal/cmd/raw_guard.go:314-395 | words are returned exactly when every byte is literal or quoted and every quote closed, and they are the fields after quote removal |
| ShellGrammar.WordsAreWritten | internal/cmd/raw_guard.go:314-395 | words are returned exactly for the lines of a grammar: blanks, bytes that mean nothing to the shell, a backslash and a byte that is no newline, single quotes around anything without one, and double quotes in which nothing expands and a backslash escapes only `$`, a backtick, a double quote and itself; they are the words so written |
| ShellGrammar.WholeIsRead | internal/cmd/raw_guard.go:314-395 | every line of the grammar is split into the words it writes |
| ShellWords.SingleText | internal/cmd/raw_guard.go:335-342 | everything up to the next single quote is kept |
| ShellWords.DoubleText | internal/cmd/raw_guard.go:343-367 | in double quotes only the four bytes are escaped, and expansions and line continuations are refused |
| ShellWords.SingleQuoted | internal/cmd/raw_guard.go:335-342 | single-quoted text is literal whatever it holds |
| ShellQuoting.WordsJoin | internal/cmd/raw_guard.go:175-180 | literal lines joined at a blank are literal, and their words follow each other |
| CommandBuilder.BuildRoundTrip | internal/wpcli/builder.go:50-99 | of the text after ` && ` the splitter gives back wp, the parts, the arguments, the format flag, the key-sorted flags and the sorted bool flags unchanged, for arbitrary values |
| CommandBuilder.PathIsRead | internal/wpcli/builder.go:136-144 | `cd` and a path are read back as the path itself, unless it is `~` or starts with `~/` |
| CommandBuilder.HomeIsRead | internal/wpcli/builder.go:136-144 | of `~` and `~/` the shell reads its home directory, and of other paths below it the expansion of that directory and the rest as it is |
| CommandBuilder.TwiceEscapedSurvives | internal/cmd/raw_guard.go:189-200 | values escaped twice survive the two parses |
| CommandBuilder.ParseAgain | internal/cmd/raw_guard.go:192-199 | the second parse returns the words of every word in order, or fails when one of them does not parse |
| CommandBuilder.EscapedAlone | internal/wpcli/builder.go:146-152 | an escaped value is one word, the value itself |
| CommandBuilder.PlainThenEscaped | internal/wpcli/builder.go:81-86 | a flag with an escaped value is one word |
| CommandBuilder.Command.Build | internal/wpcli/builder.go:52-99 | the text written, with the flags in key order whatever order the map gives |
| CommandBuilder.Command.SortedKeys | internal/wpcli/builder.go:74-79 | the flags' keys in byte order, each once |
| SortedStrings.SortedIsUnique | internal/wpcli/builder.go:74-91 | there is one sorted order, so the output is deterministic |
| BatchExecutor.BatchIsComplete | internal/batch/executor.go:169-243 | a finished parallel batch has exactly one result for each input site, those of one host in input order |
| BatchExecutor.ResultsAreReported | internal/batch/executor.go:195-236 | the results of a parallel batch are, in order, one for each command that returned or site that was skipped: its site, OK with what the command returned, FAILED with its error, or SKIPPED after a cancellation; no command is begun after one |
| BatchExecutor.HostsRunOneAtATime | internal/batch/executor.go:187-236 | no two sites of one host run at once |
| BatchExecutor.ConcurrencyHolds | internal/batch/executor.go:187-236 | in every state of every run at most Concurrency groups run |
| BatchExecutor.EveryScheduleEnds | internal/batch/executor.go:187-239 | a run takes at most a fixed number of steps that are no cancellation, and one in which no such step can be taken is done |
| BatchExecutor.NobodyIsStuck | internal/batch/executor.go:187-239 | while a goroutine is not done, some step can be taken |
| BatchExecutor.StepKeepsInv | internal/batch/executor.go:187-236 | every step keeps each host's results its first sites in order and the slots counted |
| BatchExecutor.GroupByCanonicalHost | internal/batch/executor.go:246-256 | every host's group is its sites in input order, with the alias for a site without a host |
| BatchExecutor.GroupHolds | internal/batch/executor.go:246-257 | the group of a host holds exactly the sites resolved to it, and those without a host whose alias it is |
| BatchExecutor.StartParallel | internal/batch/executor.go:174-187 | one group for each host, each site in exactly one |
| BatchExecutor.ExecuteSequential | internal/batch/executor.go:126-165 | one result for each site in order, skipped exactly when the context was cancelled before it |
| DumpTail.TailDecides | internal/cmd/dump.go:172-179 | the kept bytes show the trailer exactly when the whole stream's last non-blank line starts with it and the start of that line is known to be kept |
| DumpTail.VerifiedIs | internal/cmd/dump.go:142-179 | a dump is verified exactly when it exited 0 and its last line that is not blank starts with `-- Dump completed`, with the newline before that line among the last 4096 bytes, or nothing before those |
| DumpTail.TailWriter.Write | internal/cmd/dump.go:161-168 | after any write the count is the total and the buffer the last 4096 bytes of everything written |
| DumpTail.TailWriter.Ends | internal/cmd/dump.go:172-179 | the writer's answer is about the whole stream |
| DumpTail.TailWriter.Verify | internal/cmd/dump.go:142-153 | a dump passes exactly when it exited 0, is not empty and shows its trailer |
| DumpTail.WriteAll | internal/cmd/dump.go:155-168 | any sequence of writes is kept as one write of the whole would be |
| SaveDump.Saver.Save | internal/cmd/dump.go:86-138 | among processes that create files, no file of theirs changes, a saved dump is exactly the bytes streamed and verified, an error other than a temp file left behind published nothing, and each error has its cause |
| SaveDump.Saver.Publish | internal/cmd/dump.go:109-127 | the link is made exactly for a verified stream, synced and closed, where no file is; otherwise the first thing that went wrong is reported |
| SaveDump.Saver.Copy | internal/cmd/dump.go:107-112 | the temp file and the tail hold the whole stream |
| SaveDump.Saver.OpenTemp | internal/cmd/dump.go:87-94 | nothing is created when the destination exists |
| SaveDump.Saver.RemoveTemp | internal/cmd/dump.go:95-105 | the temp file is removed whatever happened, and only it |
| SaveDump.FileSystem.Link | internal/cmd/dump.go:122-127 | a link never replaces a file |
| RestoreDb.RestoreDB | internal/cmd/db_import.go:146-205 | the import runs exactly when the restore is confirmed, what was copied is not empty and was accepted, and a backup succeeded and is not empty, after them, and receives exactly the preamble and the copied bytes, which are the whole source unless a read or write of the copy failed; each action is taken exactly when it may be, in that order, the staged copy is removed last, and an error is returned exactly when a dry run could not stage or an import was not run or failed |
| RestoreDb.StageDump | internal/cmd/db_import.go:209-231 | a dump is staged exactly when what was copied is not empty and the scan accepts it, noticing no failure; the staged bytes are a prefix of the source's, and all of them when no read or write failed |
| RestoreDb.CountWriter.Write | internal/cmd/db_import.go:240-247 | the bytes written are counted, also those of a write that fails, and the first error is kept |
| DumpCuts.CutDumpIsImported | internal/cmd/db_import.go:220-231 | for every database, a confirmed restore of a dump of two lines whose second cannot be copied imports the first line alone |
| DumpCuts.FirstIsAccepted | internal/cmd/dumpscan.go:152-171 | the first line is accepted with and without the failed read behind it |

## Left out

- Unicode: bytes are folded and trimmed as ASCII; the source's EqualFold, Fields and TrimSpace also know letters and white space outside ASCII.
- Error texts, line numbers and which of several errors comes first: only verdicts are compared.
- Failed reads after which reading succeeds again: a failure of the source or of its copy ends what is delivered, and may be reported any number of times before the end is. One in the middle would cut a look-ahead short there, and what the scan reads would depend on where its buffer ends.
- After a refusal the source may read one more byte of the line; the model stops at once. The verdict is the same.
- The scanner tracks a user variable after it has read what follows the byte rather than before; only single bytes of code are tracked, so the state after each step is the same.
- What a server does with a dump beyond the abstract session: statements are read as the checker's tokens, versioned comments are taken as run, and a trigger's or routine's own SET statements are not executed.
- SessionSafety.SessionStaysSafe: user variables are accounted for by statement, as the code does; by mention the exact condition is OpenSessions.SessionIsSafeExactly.
- ForgivenMentions.ForgivenIsExploitable: the prefix ends between statements at the start of a line, outside comments; which whole dumps are unsafe is OpenSessions.SessionIsSafeExactly.
- LiteralInserts.InsertsAreLiteral: says what accepted dumps hold, not that every INSERT of the grammar is accepted; `VALUES(1)` without a space is refused by the code.
- StatementForms.OnlyDumpedStatements: what stands behind the head of a view, trigger, routine or event is not looked at, as in the code.
- No bound on the number of SET tokens is claimed, only on their text: empty quoted strings add tokens of size 0.
- Pool entries are identified with their clients and the table is a map of values: two pointers to one entry are one key of it. The sizes of Go integers and time overflow are not modelled.
- execInternal: only its lease protocol, one Get, at most one Remove and one release; sessions, buffers and exit codes are not part of this model.
- dial, keepalive, SSH handshakes, agents, sessions and signals: steps that succeed, fail or are cancelled.
- The registry of buckets and the per-host configuration of the rate limiter: one bucket stands for each host.
- The safety tiers, dry runs, progress output and durations of batches: single-branch facts. A check of the context and the call or append after it are one step.
- parseWPArgs, checkWPInvocation and the flag tables of `wpgo raw`: reading one branch settles them.
- CacheKey of the command builder; the two sides of ` && ` are read back apart, as the splitter refuses that operator.
- CommandBuilder.BuildRoundTrip: parts and flag names are plain bytes, as the builder writes them unquoted; values are arbitrary.
- The source sorts with its library; here an insertion sort stands for it, and sorting is shown to have one result.
- Other processes create files but do not delete or rewrite them; symbolic links, fsync of the directory and file modes are not modelled, and SHA-256 is any function of the bytes.
- The SQLite cache, SSH configuration parsing, metadata, host-type detection, MCP serving and output formatting.
