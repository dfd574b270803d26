# go-sieve in Dafny

A model of go-sieve, an interpreter for the Sieve mail filtering language (RFC 5228 and extensions) with a
ManageSieve client and server (RFC 5804), and proofs about it. `dafny verify dfyconfig.toml` checks everything.

The code that works step by step is modelled step by step: readers, cursors, encoders, the run-time state and the
loading script are classes, and the loops are loops. Each such method is proved equal to a function (`Lex`, `Parse`,
`Block`, `Replay`, `ReadCommand`, ...), and the results below are proved about those functions, for all inputs, all
scripts, all script repositories and all answers of the host.

| component | files | main results |
|---|---|---|
| lexer | `Tokens` `Lexer` `LexerLoops` `Writer` `LexerRoundTrip` `DotStuffing` `Layout` `LayoutLexes` `LayoutComplete` | which texts lex, and to what, exactly; lexing undoes writing |
| parser | `Ast` `Parser` `ParserLoops` `Printer` `ParserRoundTrip` `ParserLimits` `ParserBraces` `ParserNumbers` `Syntax` `SyntaxParses` `SyntaxComplete` `FrontEnd` | which tokens parse, and to which tree, exactly; print, write, lex, parse is the identity exactly within the limits; what is left unread, exactly |
| interpreter | `Mime` `State` `Commands` `Interpreter` `Runtime` `RunInduction` `ActionSteps` `IncludeSteps` `Ledger` `Redirects` `Delivery` `Stops` `Includes` `Loops` `Conditionals` | every run ends; the exact effect of every command; include isolation; loops and breaks; the action ledger; which script texts cannot lose mail and which must; one flag implements structured conditionals |
| matching | `Wildcards` `Truncation` `Glob` `GlobMeaning` | the compiled pattern means the glob; captures; quoting; cutting at a byte limit |
| header edits | `HeaderEdits` | the in-place replay of the edit log; what every edit does to what is visible; deletion is a filter, exactly when |
| ManageSieve | `ByteInput` `Wire` `WireLoops` `WireGrammar` `WireReads` `WireComplete` `WireRoundTrip` `WireReplies` | which octets are read as which command, status or listing, exactly; what is written is read back, exactly within the limits |
| loader, numbers, dates | `Guards` `GuardSites` `LoadedPipes` `Numeric` `Julian` | which scripts load under `require` and `ihave`, exactly; extension checks after loading; two numeric readers agree; Modified Julian days count days |

The lexer, the parser and the wire decoder are each compared with a grammar that does not mention them. `Layout`,
`Syntax` and `WireGrammar` say how every token list, tree or message may be spelled, with comments, blanks, either
line end, trailing commas and needless escapes; `LayoutLexes`, `SyntaxParses` and `WireReads` read every spelling to
its value exactly within the limits; `LayoutComplete`, `SyntaxComplete` and `WireComplete` show that nothing else is
accepted. `SyntaxComplete.ReadExactly` puts the first two together: which source texts read as which tree.

`RunInduction` proves once that a relation kept by every step relates the ends of every run; the ledger, redirect,
delivery, include, loop and record results are instances of it. `Sequences`, `Decimal` and `Wrappers` are shared
helpers. Termination of every run, over cyclic repositories too, is part of the definition of `Block` and of the
`RuntimeData` methods: includes still possible, then size of the command list.

No proof rests on automatic induction: every lemma for which Dafny would try it carries `{:induction false}`.

Conventions: octets and runes are `char`, a byte string is a `string`. Errors carry no text, tokens no positions.
Integers are unbounded; where the width matters (numbers in scripts, quantifier products, literal sizes, `uint64`
values) it is written out. The World of the interpreter stands for tests, variable expansion, host policy, the
repository and the message tree: arbitrary functions, so every result holds for any of them.

Where the code departs from what its documentation, its tests or an RFC say, the model follows the code, a lemma
shows the departure, and another says exactly when the promise holds:

- `lexer/lex_fuzz_test.go` expects whatever was lexed to lex again after writing; a short identifier that begins
  with `t` near the end of the text does not (`RelexCanFail`, exactly: `LexUndoesWrite`).
- A stray closing brace ends a parse without an error (`StrayBraceDropsTheRest`, exactly: `ReadsUpToStrayBrace`).
- A dot-stuffed first line keeps its extra dot and an empty multi-line literal is not recognised (`FirstLine`,
  `EmptyBodyIsMissed`, exactly: `ReadingUndoesStuffing`).
- A number whose quantifier product wraps around to a negative value prints as a text that does not lex
  (`WrappedNumberIsLost`, exactly: `RereadIsStable`).
- `stop` and `return` skip the implicit keep (`StopAloneLosesMail`). A text without them cannot lose the message
  (`DeliversWithoutStop`); a text that stops at its top level and holds no cancelling command must (`StopLosesMail`).
- `redirect :list ""` is recorded like a redirect to an empty address, which the address list does not get
  (`NamelessListBreaksProjection`, exactly: `RedirectKeepsProjection`; over whole runs: `RunKeepsProjection`).
- `pipe :try` records actions past the limit (`TryPipeExceedsLimit`; nothing else does: `RunKeepsLedger`).
- A pipe that only an `ihave` block allows loads and then always fails (`GuardedPipeLoadsAndFails`, exactly:
  `LoadedPipeFails`).
- A bare `else` runs or not by the flag an earlier chain left (`BareElseIsNotRefined`, exactly:
  `LeadingBranchesGoByStaleFlag`).
- A pattern that ends in a backslash loses its end anchor, and `?` does not match LF
  (`TrailingBackslashAcceptsMore`, `CompiledMeaning`, `AgreesWithRfcExactlyWithoutQuestionMark`).
- The guard that follows truncation of a quoted string can split a quoted backslash (`GuardSplitsPair`, exactly:
  `GuardedCutIsQuotedPrefix`).
- A recorded empty header value deletes the whole field (`EmptyValueWipesField`, exactly: `DeleteIsFilter`).
- A ManageSieve status without a code loses its code arguments (`ArgumentsWithoutCodeAreLost`, exactly:
  `StatusSurvives`).
- Literal bytes count against the limit named for non-literal command length (`LiteralBytesAreCounted`, exactly:
  `CommandRoundTrip`).

## Model

| member | source | states |
|---|---|---|
| LexerLoops.TokenStream | lexer/lex.go:61-207 | the byte-reader loop with unread and lookahead computes `Lex`, on every input and under every limit |
| LexerLoops.ReadCrlf | lexer/lex.go:19-41 | consumes CRLF or LF, fails on a lone CR, and leaves exactly the rest |
| LexerLoops.ReadIdentifier | lexer/lex.go:232-256 | reads the longest run of identifier characters and unreads one byte |
| LexerLoops.ReadNumber | lexer/lex.go:258-296 | digits, 64-bit overflow and the K, M, G quantifier |
| LexerLoops.SkipHashComment | lexer/lex.go:298-319 | skips to and over the line end, or to the end of input |
| LexerLoops.SkipBlockComment | lexer/lex.go:321-338 | skips to the first star-slash, fails without one |
| LexerLoops.ReadQuoted | lexer/lex.go:340-383 | the escape flag loop computes the quoted string under the byte limit |
| LexerLoops.ReadMultiline | lexer/lex.go:385-435 | the two-flag loop computes the dot-stuffed literal under the byte limit |
| LexerLoops.ReadTextLine | lexer/lex.go:146-172 | blanks, comment and line end after `text:` |
| Writer.Write | lexer/write.go:10-59 | writes every token followed by one space |
| Writer.WriteString | lexer/write.go:61-76 | escapes exactly quotes and backslashes |
| LexerRoundTrip.LexYieldsLexable | lexer/lex.go:61-207 | every token of a successful run is spellable: CR and LF only as CRLF, identifiers and numbers in range, strings within the limit |
| LexerRoundTrip.LexUndoesWrite | lexer/write.go:10-76 | on every list of spellable tokens Lex of Write returns the list or fails, and fails exactly when a `t`-identifier lacks four following bytes or a limit is hit |
| LexerRoundTrip.RelexIsStable | lexer/lex_fuzz_test.go:35-54 | what any input lexed to comes back after writing, exactly when every peek is long enough |
| LexerRoundTrip.RelexCanFail | lexer/lex.go:133-139 | the input for which it does not |
| DotStuffing.ReadingUndoesStuffing | lexer/lex.go:385-435 | reading a stuffed body returns the lines joined by CRLF and exactly the rest, if and only if there is a first line without a leading dot and the limit admits it |
| DotStuffing.FirstLine | lexer/lex.go:385-435 | what is read for every list of lines: the first line keeps its stuffing |
| DotStuffing.EmptyBodyIsMissed | lexer/lex.go:385-435 | the terminator alone is never read as the empty text |
| DotStuffing.TextTokenRoundTrip | lexer/lex.go:133-178 | the same for the whole `text:` token of the lexer |
| LayoutLexes.LayoutLexesToTokens | lexer/lex.go:61-207 | every spelling of a token list, with blanks, CRLF or LF, both kinds of comment anywhere, a comment after `text:` and needless escapes, lexes to exactly those tokens when the token count and the string sizes are within the limits, and is refused otherwise |
| LayoutComplete.LexExactly | lexer/lex.go:61-207 | a text lexes to a token list if and only if the lexical grammar spells that list so within the limits |
| ParserLoops.Stream.Last | lexer/stream.go:12-17 | the token last popped |
| ParserLoops.Stream.Pop | lexer/stream.go:19-25 | returns and passes the next token, nothing at the end |
| ParserLoops.Stream.Peek | lexer/stream.go:27-33 | the next token, cursor unmoved |
| ParserLoops.ParseTokens | parser/parse.go:12-16 | the mutually recursive loops over the shared cursor compute `Parse` |
| ParserLoops.ParseCommands | parser/parse.go:18-73 | the command loop, its limits and where the cursor is left, as the specification says |
| ParserLoops.ReadArgs | parser/parse.go:75-146 | arguments, then tests; a second parenthesised list replaces the first |
| ParserLoops.ReadTestList | parser/parse.go:148-184 | the need-a-comma loop over tests |
| ParserLoops.ReadStringList | parser/parse.go:186-212 | the need-a-comma loop over strings |
| ParserRoundTrip.ParseUndoesPrint | parser/parse.go:18-212 | a printed tree parses to itself when block and test depths are within the limits, and is refused otherwise |
| SyntaxParses.SyntaxParsesToTrees | parser/parse.go:18-212 | every spelling of a tree, with trailing commas, with tests before a test list that the list replaces and with any quantifier, parses to that tree when both nestings are within the limits and is refused otherwise, a stray closing brace ending it |
| SyntaxComplete.ParseExactly | parser/parse.go:18-212 | a token list parses to a tree if and only if the grammar spells that tree so within the limits |
| SyntaxComplete.ReadExactly | sieve.go:51-62 | a source text reads as a tree if and only if the two grammars together spell that tree so |
| ParserNumbers.ParseSeesAmounts | lexer/token.go:49-62 | token lists that differ only in how amounts are written, K being 1024, M 1048576 and G 1073741824, parse to the same tree |
| ParserNumbers.ReadSeesAmounts | parser/parse.go:106-108 | so do source texts, in any layout |
| ParserLimits.ParseSound | parser/parse.go:18-184 | every accepted token list yields a tree within both limits whose numbers are 64-bit |
| ParserLimits.ReparseIsStable | parser/parse.go:18-212 | parse, print, parse gives the same tree for every accepted token list |
| ParserBraces.ReadsUpToStrayBrace | parser/parse.go:34-35 | an accepted list is read to its end exactly when it has no unmatched closing brace; otherwise exactly what follows that brace stays unread |
| ParserBraces.StrayBraceDropsTheRest | parser/parse.go:34-35 | anything may follow a stray brace without an error |
| FrontEnd.ReadUndoesSource | sieve.go:51-62 | print, write, lex, parse returns the tree, or an error exactly when a negative number, a peek, a string, the token count or a depth is not admitted |
| FrontEnd.RereadIsStable | sieve.go:51-62 | the tree that any source text reads as comes back from its canonical text under exactly the same condition |
| FrontEnd.WrappedNumberIsLost | parser/parse.go:75-146 | a source text whose tree does not: its number wraps to -2^63 |
| Mime.DescendantsArePreorder | interp/mime.go:46-53 | every proper descendant, each once, in depth-first pre-order |
| Runtime.RuntimeData.constructor | interp/runtime.go:424-435 | the state a run starts in |
| Runtime.RuntimeData.OnAction | interp/runtime.go:416-422 | records the action, then fails past the limit |
| Runtime.RuntimeData.ExecFileInto | interp/action.go:24-77 | a mailbox is filed into once; the implicit keep goes unless `:copy` |
| Runtime.RuntimeData.ExecRedirect | interp/action.go:85-128 | policy, address or list redirect, implicit keep |
| Runtime.RuntimeData.ExecKeep | interp/action.go:134-150 | explicit keep |
| Runtime.RuntimeData.ExecFinal | interp/action.go:154-162 | discard, and in the same way reject and ereject |
| Runtime.RuntimeData.ExecNotify | interp/notify.go:29-52 | an empty method fails, others are recorded |
| Runtime.RuntimeData.ExecPipe | interp/pipe.go:46-105 | name and argument checks, one run per program, `:try` swallows every failure after the extension check |
| Runtime.RuntimeData.ExecSet | interp/runtime.go:366-414 | truncation, name spaces, and where the value is stored |
| Runtime.RuntimeData.ExecGlobal | interp/include.go:190-204 | declares name by name up to the first bad one |
| Runtime.RuntimeData.Execute | interp/control.go:13-67 | any command, with if, elsif and else over the one flag, changes the state as `Exec` says |
| Runtime.RuntimeData.ExecuteConditional | interp/control.go:13-27 | test, block, then flag |
| Runtime.RuntimeData.ExecuteLoop | interp/mime.go:260-284 | the part stack is pushed and popped around every turn; break handling |
| Runtime.RuntimeData.ExecuteInclude | interp/include.go:73-147 | loader, `:once`, cycle and depth checks in their order |
| Runtime.RuntimeData.ExecuteIncluded | interp/include.go:149-174 | saves the caller's fields, runs, restores them and marks `:once` |
| Runtime.RuntimeData.ExecuteScript | interp/script.go:141-170 | stop and return leave early; otherwise the implicit keep when no action cancelled it |
| ActionSteps.FileIntoStep | interp/action.go:24-77 | the whole new state: nothing for a mailbox already filed into, else the action, the mailbox and, unless `:copy`, no implicit keep; past the limit only the action, and an error |
| ActionSteps.RedirectStep | interp/action.go:85-128 | the whole new state by policy answer: error, nothing, or the action with address or full list name, the address list and the implicit keep |
| ActionSteps.KeepStep | interp/action.go:134-150 | the explicit keep is recorded and the keep flag set |
| ActionSteps.DiscardStep | interp/action.go:154-162 | discard is recorded and the implicit keep cancelled |
| ActionSteps.RejectStep | interp/action.go:272-278 | the same with the expanded reason |
| ActionSteps.ERejectStep | interp/action.go:284-290 | the same for ereject |
| ActionSteps.NotifyStep | interp/notify.go:29-52 | an empty expanded method fails; others are recorded and leave the implicit keep |
| ActionSteps.PipeStep | interp/pipe.go:46-105 | the whole new state for each of extension, program name, arguments, repeated program, `:try`, `:copy` and the limit |
| ActionSteps.SetStep | interp/runtime.go:366-414 | which map gets which name, each refusal, and the cut of any octet string before the last octet within the limit that can start a character: of valid UTF-8 the longest valid prefix |
| ActionSteps.GlobalStep | interp/include.go:190-204 | exactly the lowered names before the first with a dot are declared |
| ActionSteps.ScriptStep | interp/script.go:141-170 | the implicit keep is added exactly when the run came to its end and no action took the message; how a script ends is exactly how its block does |
| ActionSteps.RunRecordGrows | interp/script.go:141-184 | over every run the recorded actions, mailboxes and redirect addresses only grow at the end |
| ActionSteps.BlockRecordsAll | interp/script.go:141-184 | a block of actions that runs to its end has recorded each action it asks for, in the state that command found |
| ActionSteps.UnaskedIsNotRecorded | interp/action.go:85-162 | a command other than fileinto and pipe that asks for no action records none |
| IncludeSteps.BegunIncludeRuns | interp/include.go:106-174 | an include begins if and only if a loader is set, its key is neither used up by `:once` nor pending, fewer than four are pending, the location is personal or global and the script loads; then the new state is that of the script run on cleared locals, the caller's restored |
| IncludeSteps.OtherIncludeAnswers | interp/include.go:73-147 | the answer of every include that does not begin: the key marked, nothing, or an error |
| IncludeSteps.RecordedExactlyWhenBegun | interp/include.go:149-174 | an include adds to the history of begun scripts first itself, and only if it begins |
| RunInduction.BlockKeeps | interp/script.go:141-184 | a relation kept by every plain command, loop turn and include relates the two ends of every run |
| Ledger.RunKeepsLedger | interp/action.go:24-162 | through every run that does not fail: mailboxes are the distinct in-order projection of fileinto actions, keep flags agree with the list, only `:try` pipes lie past the limit |
| Redirects.RedirectKeepsProjection | interp/action.go:85-128 | a redirect that does not fail keeps redirect addresses the in-order projection of address redirects if and only if it is not an allowed one to a list without a name |
| Redirects.NamelessListBreaksProjection | interp/action.go:101-127 | the script that breaks it under a policy that allows everything |
| Redirects.RunKeepsProjection | interp/action.go:101-127 | without `redirect :list` in the script and the repository every run keeps it, whatever the policy |
| Redirects.PolicyKeepsProjection | interp/action.go:101-127 | so does every run under a policy that refuses the empty target |
| Redirects.RunKeepsNamed | interp/action.go:101-127 | every run of any script keeps the two lists equal but for empty addresses |
| Delivery.NormalRunsDeliver | interp/script.go:141-170 | every run to its end leaves an action that takes the message, and an implicit keep is appended, last and once, exactly when none did before |
| Delivery.StopAloneLosesMail | interp/script.go:143-148 | the script of one stop leaves no action at all |
| Stops.DeliversWithoutStop | interp/script.go:141-170 | without stop in the script and the repository and return in the script's own text, every successful run leaves an action that takes the message |
| Stops.StopLosesMail | interp/script.go:141-170 | without a cancelling command in the script and the repository, a stop or return at the script's top level loses the message in every successful run |
| Delivery.LimitHoldsWithoutTry | interp/runtime.go:416-422 | without `pipe :try` anywhere no successful run, implicit keep included, has more actions than a set limit |
| Delivery.TryPipeExceedsLimit | interp/pipe.go:90-94 | with it, one can |
| Includes.StacksStayShort | interp/include.go:49-63 | in every run over every repository the pending keys are distinct and at most four, at every include that began |
| Includes.OnceRunsAtMostOnce | interp/include.go:79-99 | per run at most one inclusion begun by `:once` executes for each key |
| Includes.IncludeRestoresCaller | interp/include.go:149-173 | on every outcome the caller's script, variables, declarations, match variables and stack are as before |
| Includes.IncludeHidesCaller | interp/include.go:149-173 | the included script cannot depend on the caller's local state |
| Includes.ReturnEndsHere | interp/script.go:174-184 | no return leaves an included script |
| Loops.LoopVisits | interp/mime.go:260-275 | the parts visited at the loop's own depth are a prefix of its list, in order, each once; the loop's whole result is that of the last turn, run on the last of them, a break out of this loop aside; parts are left over only when that turn ended early; the part stack is restored |
| Loops.ForEveryPartVisits | interp/mime.go:238-275 | the list walked: at the top of a multipart message every part below the root, of a single part the root itself, in a loop every part below the current one and none if that is gone, each once, in document order; what was visited is a prefix of it and the result is that of the last turn |
| Loops.UnbrokenLoopVisitsAll | interp/mime.go:260-275 | a loop whose turns all end normally visits the whole list |
| Loops.ForEveryPartNeedsTree | interp/mime.go:239-242 | without a part tree the loop does nothing, with a broken one it fails |
| Loops.BlockBreaks | interp/mime.go:264-271 | a break that leaves a block carries a name no loop around it there takes, unnamed ones never leaving a loop |
| Loops.EnclosedBreaksStayInside | interp/mime.go:288-302 | where every break has its loop in the text, none reaches the top |
| Conditionals.BlockRefines | interp/control.go:13-67 | on every well-formed script, nested and included ones too, the shared flag gives the state and outcome of running exactly the first true branch of each chain, whatever the flag was before |
| Conditionals.BareElseIsNotRefined | interp/control.go:57-67 | the script of one bare else keeps the message where the structured semantics does nothing |
| Conditionals.LeadingBranchesGoByStaleFlag | interp/control.go:34-67 | a block that starts with elsif or else skips or runs those branches by the flag found, and agrees with the structured semantics if and only if the flag is up or running them makes no difference |
| Wildcards.QuoteWildcard | interp/value_modifiers.go:10-23 | escapes exactly star, question mark and backslash |
| Glob.PatternToRegex | interp/match.go:21-64 | the one-pass loop with an escape flag emits the text of the compiled expression |
| Glob.EmittedTextIsFaithful | interp/match.go:21-64 | reading the emitted text by regular expression syntax gives back that expression, so no pattern character turns into syntax |
| GlobMeaning.CompiledMeaning | interp/match.go:21-64 | the expression accepts exactly the glob's strings, `?` excluding LF, for any folding; with a trailing backslash exactly their extensions |
| GlobMeaning.CompiledAcceptsGlob | interp/match.go:21-64 | the first half, for patterns that do not end inside an escape |
| GlobMeaning.DanglingAcceptsExtensions | interp/match.go:56-59 | the second half, for those that do |
| GlobMeaning.TrailingBackslashAcceptsMore | interp/match.go:56-59 | a pattern and value that show it |
| GlobMeaning.AgreesWithRfcExactlyWithoutQuestionMark | interp/match.go:33-34 | the accepted strings are those of section 2.7.1 of RFC 5228 if and only if the pattern has no unescaped question mark |
| GlobMeaning.MatchFits | interp/match.go:21-64 | captures are one per unescaped wildcard, in order, and fit the value |
| GlobMeaning.FitsRefills | interp/match.go:21-64 | captures put back for the wildcards rebuild the value up to folding |
| GlobMeaning.CapturesRebuildValue | interp/match.go:21-64 | and exactly, without folding |
| GlobMeaning.MatchIsShortest | interp/match.go:35-36 | a match exists whenever captures fit, and from the left each wildcard takes as little as it can (section 3.2 of RFC 5229) |
| GlobMeaning.QuotedMatchesItself | interp/value_modifiers.go:10-23 | a quoted string as a pattern matches that string and no other |
| Truncation.TruncateValue | interp/runtime.go:370-380 | the backward loop finds the cut point |
| Truncation.TruncateKeepsLongestUtf8 | interp/runtime.go:366-380 | of valid UTF-8 the longest valid prefix within the limit is kept |
| Truncation.QuoteAndCut | interp/value_modifiers.go:72-92 | the modifier's truncation loop and trailing backslash guard |
| Truncation.GuardedCutIsQuotedPrefix | interp/value_modifiers.go:72-92 | a cut quoted value is the quoting of a prefix of the source if and only if the cut does not fall right after a quoted backslash; storing it changes nothing |
| Truncation.BackslashFreeIsCutCleanly | interp/value_modifiers.go:72-92 | always so for a source without backslashes |
| Truncation.GuardSplitsPair | interp/value_modifiers.go:86-88 | a source for which it is not |
| HeaderEdits.ApplyEdits | interp/editheader.go:130-176 | the in-place replay equals the fold of the edits over the values and leaves its input untouched |
| HeaderEdits.DeleteFirst | interp/editheader.go:159-168 | in-place removal of the first occurrence |
| HeaderEdits.ExecuteDelete | interp/editheader.go:66-127 | the edits appended by deleteheader |
| HeaderEdits.AddedValueIsVisible | interp/editheader.go:23-56 | addheader puts its value before, or with `:last` after, the visible values of its field and leaves other fields alone; with what is no field name it does nothing |
| HeaderEdits.DeleteUndoesAdd | interp/editheader.go:66-127 | deleteheader `:index 1` from the same end undoes it |
| HeaderEdits.DeleteIsFilter | interp/editheader.go:66-127 | deleteheader by pattern leaves the visible values minus exactly the matching ones, in order, if and only if no empty value matches or all values do |
| HeaderEdits.DeleteIndexRemovesOne | interp/editheader.go:66-127 | with `:index` that one value goes when present and matching, else nothing |
| HeaderEdits.DeleteWithoutPatterns | interp/editheader.go:66-127 | without patterns the value `:index` counts from either end goes, or without `:index` every value |
| HeaderEdits.OtherNamesAreRefused | interp/editheader.go:66-95 | with an ill-formed or protected name, or patterns over an unreadable header, nothing is recorded |
| HeaderEdits.OtherFieldsKept | interp/editheader.go:130-176 | other fields stay as they were |
| HeaderEdits.EmptyValueWipesField | interp/editheader.go:120-123 | the values for which the filter law fails |
| Guards.Script.RequiresExtension | interp/script.go:75-96 | succeeds exactly when the extension was required or is named by an enclosing true ihave, and records the latter |
| Guards.Script.LoadRequire | interp/load_control.go:10-48 | grants allowed names in order up to the first refused |
| Guards.Script.LoadCondBlock | interp/load_control.go:64-88 | a false ihave skips its block; counters are restored on success and error |
| Guards.Script.LoadGuarded | interp/load_control.go:72-87 | a true ihave's names are in scope for its block only |
| Guards.Script.CheckOne | interp/load_vacation.go:9-11 | one of several extensions is enough, or the loader only asks and goes on |
| Guards.Script.LoadTest | interp/load_ihave.go:9-33 | a test checks the extensions it needs, ihave its own |
| Guards.Script.LoadSpec | interp/load_generic.go:201-233 | tests, then block |
| Guards.Script.LoadBlock | interp/load.go:215-228 | commands in order up to the first refused |
| Guards.LoadScript | interp/load.go:198-213 | the counting loader equals a reference loader that carries a set of names in scope; all counters end at zero |
| GuardSites.LoadsExactly | interp/load.go:198-213 | a script loads if and only if at every place that needs an extension one of those it asks for was required before or is named by a true ihave around it, every required name is supported and nothing is malformed; then the required and the reported extensions are exactly those named and those drawn from a guard |
| Guards.ExtensionsReportGrants | interp/script.go:62-73 | Extensions lists every extension any check granted while loading |
| Guards.GuardsEndWithLoading | interp/script.go:75-96 | once a script is loaded a check succeeds if and only if a require of the text names the extension, those in blocks of a false ihave aside |
| Guards.CheckAfterLoading | interp/pipe.go:46-49 | so does the check that a command makes when it runs |
| LoadedPipes.LoadedPipeFails | interp/pipe.go:46-49 | a loaded pipe fails that check, records nothing and fails even with `:try`, if and only if no require of the text names its extension |
| LoadedPipes.GuardedPipeLoadsAndFails | interp/pipe.go:107-110 | the script that loads under a true ihave and fails whenever it runs |
| Numeric.NumericValue | interp/test_string.go:77-102 | scan and parse gives the value of the digit prefix, or none |
| Numeric.NumericValueReader | interp/test_body.go:100-154 | so does the streaming reader, on every input |
| Numeric.OverflowTest | interp/test_body.go:130-154 | its overflow test is exact |
| Numeric.NumericExactly | interp/test_string.go:77-102 | a text has a numeric value if and only if it is that number, perhaps after zeros, not followed by a digit, and at most 2^64 - 1, for every notion of digit that includes the ASCII ones |
| Julian.TomorrowIsOneMore | interp/date.go:81-89 | each Gregorian date from year 0 on has the number of the day before plus one |
| Julian.CountsDaysSinceEpoch | interp/date.go:80-89 | the number is the count of days since 1858-11-17 |
| WireLoops.Encoder.WriteString | managesieve/internal/wire/codec.go:31-42 | sticky errors; nothing is written while a literal is open |
| WireLoops.Encoder.Quoted | managesieve/internal/wire/codec.go:52-68 | the escaping loop |
| WireLoops.Encoder.Literal | managesieve/internal/wire/codec.go:94-111 | writes the head and opens the literal |
| WireLoops.Encoder.String | managesieve/internal/wire/codec.go:78-92 | quoted or literal form, the encoder ready again |
| WireLoops.LiteralWriter.Write | managesieve/internal/wire/codec.go:138-145 | never more than announced |
| WireLoops.LiteralWriter.Close | managesieve/internal/wire/codec.go:147-153 | fails exactly when less than announced was written |
| WireLoops.WriteCommand | managesieve/client/client.go:626-639 | the argument loop writes the command text |
| WireLoops.WriteStatus | managesieve/server/conn.go:522-539 | the status line, with a default kind and arguments only beside a code |
| WireLoops.WriteListing | managesieve/server/conn.go:387-406 | one line per script, then OK |
| WireLoops.Decoder.ExpectCRLF | managesieve/internal/wire/codec.go:177-192 | CRLF or LF |
| WireLoops.Decoder.SkipSP | managesieve/internal/wire/codec.go:194-205 | spaces, failing at the end of input |
| WireLoops.Decoder.ReadAtom | managesieve/internal/wire/codec.go:211-240 | the atom loop under its limit and the command budget |
| WireLoops.Decoder.ReadQuoted | managesieve/internal/wire/codec.go:263-288 | the quoted string loop under its limit and the command budget |
| WireLoops.Decoder.ReadLiteral | managesieve/internal/wire/codec.go:290-342 | size, limits, line end, exact bytes |
| WireLoops.Decoder.ReadString | managesieve/internal/wire/codec.go:246-261 | either form |
| WireLoops.Decoder.ReadToken | managesieve/internal/wire/codec.go:348-360 | string or atom |
| WireLoops.Decoder.ReadCommand | managesieve/internal/wire/codec.go:362-390 | name and arguments, reader just past the line |
| WireLoops.Decoder.ReadStatusLine | managesieve/internal/wire/codec.go:403-476 | kind, code, arguments, text |
| WireLoops.Decoder.ReadScripts | managesieve/client/client.go:334-360 | the client's loop collects entries up to an OK status |
| WireLoops.Decoder.ReadScript | managesieve/internal/wire/codec.go:514-542 | a listing line |
| WireRoundTrip.StringReads | managesieve/internal/wire/codec.go:246-342 | every string, whatever its bytes and whatever follows, is read back whole and nothing more, exactly when the limits admit it |
| WireRoundTrip.QuotedExactly | managesieve/internal/wire/codec.go:563-576 | a string is written quoted if and only if it has at most 1024 octets and no control character |
| WireRoundTrip.CommandRoundTrip | managesieve/internal/wire/codec.go:362-401 | every command is read back with its arguments in order and exactly the rest, or refused, exactly by the atom, quoted, literal, count and total byte limits, literal bytes included |
| WireRoundTrip.LiteralBytesAreCounted | managesieve/internal/wire/codec.go:330-332 | one byte in a literal exceeds a limit that the command without it meets |
| WireRoundTrip.CommandsAreSelfDelimiting | managesieve/client/client.go:626-639 | streams that agree as bytes agree on the command and on what follows |
| WireReplies.StatusRoundTrip | managesieve/internal/wire/codec.go:403-476 | every status is read back in canonical form and exactly the rest, or refused, exactly by kind and limits |
| WireReplies.StatusSurvives | managesieve/server/conn.go:522-539 | it comes back unchanged if and only if it is admitted, has a kind, an upper-case code and no arguments without a code |
| WireReplies.ArgumentsWithoutCodeAreLost | managesieve/server/conn.go:522-539 | a status with arguments and no code arrives without them |
| WireReplies.ListingRoundTrip | managesieve/internal/wire/codec.go:514-549 | the listing written is the listing collected, in order and with the active marks, exactly when the client's limits admit every line |
| WireReads.CallReads | managesieve/internal/wire/codec.go:362-401 | every spelling of a command, with any blanks, either line end, escapes and literal forms, is read to its name and values and not a byte further, exactly within the limits |
| WireComplete.CommandExactly | managesieve/internal/wire/codec.go:362-401 | a command is read if and only if the octets begin with such a spelling of it |
| WireComplete.StatusExactly | managesieve/internal/wire/codec.go:403-476 | the same for a status line, which the end of input may cut after its code |
| WireComplete.ListingExactly | managesieve/client/client.go:334-360 | the same for a listing up to its OK status |

## Left out

- Matching engines: what Go's regexp package does with an expression is the semantics written in `GlobMeaning`; the `:regex` match type is not modelled.
- MIME parsing: the part tree is given; parts are named by address, so two parts are never confused.
- Variable expansion, `decodeEncodedChars`, tests, comparators and host policies are arbitrary functions of the state.
- IMAP flags (setflag, addflag, removeflag, `:flags`), vacation, duplicate, report, filter, extracttext, relational comparisons, `mailboxid` and `special-use`: they would add easy members.
- Per-command loaders other than require, if, ihave and the tail of LoadSpec, gob Save and Restore, test suite commands, `cmd/sieve-run`.
- Contexts, I/O errors of readers and writers, token positions, error texts, debug logging.
- SASL, TLS, sockets, timeouts, capabilities, sessions and the other ManageSieve handlers.
- IncludeState is part of the run-time state here instead of a shared pointer, and `begun` and `visits` are history that the source does not keep.
- Runtime.RuntimeData.ExecNotify: records the method only, because importance, options, sender and text are copied through unread.
- Runtime.RuntimeData.ExecFileInto: the action's flags, `:create`, `:specialuse` and `:mailboxid` are left out, and the mailbox they resolve to is the host's answer, because nothing else reads them.
- Runtime.RuntimeData.ExecKeep: the action's flags are left out with the IMAP flag commands.
- Runtime.RuntimeData.ExecFinal: discard's reset of the flags is left out with the IMAP flag commands.
- ParserLoops.ParseTokens: a negative block limit is an error here; the source panics on it, since it asks for the last token before any was popped.
- Truncation.QuoteAndCut: octets that are not valid UTF-8 are copied; the source ranges over runes and replaces each by U+FFFD. The same holds for the quoting it uses.
- Guards.Script.LoadTest: what LoadSpec thinks of the arguments is given, so an extension that only adds tags shows as asked for and not in which tags fit.
- Stops.DeliversWithoutStop: one direction, because whether a stop inside a branch is reached is up to the tests; `Stops.StopLosesMail` is the converse at the top level.
- Delivery.LimitHoldsWithoutTry: one direction; which of the recorded actions exceed the limit is settled exactly by `RunKeepsLedger`.
- WireReplies.StatusRoundTrip: upper-casing is that of ASCII text; a kind or a code that is not an atom is not considered, since the writer does not quote them.
- WireRoundTrip.CommandRoundTrip: the command name must upper-case to an atom, which the writer takes for granted.
