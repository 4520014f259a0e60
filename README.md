# exectest scheme interpreter, modelled in Dafny

`exectest` is a Go testing helper. A test hands `Execute` a binary and a
*scheme*: a text that declares files to create in a fresh directory
(`--file:`), command-line arguments (`--arg:`), environment entries
(`--env:`), the stdin to feed (`--stdin`), and the expected stdout, stderr
(`--stdout`, `--stderr`) and exit code (`--return-code:`). Lines that are
no directive are payload of the block opened last. `{dir}` in payload,
arguments and entries stands for the fixture directory. Stdin is the only
block where it is not replaced.

This project models the core of `executor.go`:

- `toLines` (module `Lines`): the line splitter. It is written once as a
  function over the scanner's tokens (`ToLines`) and once as the scanner
  loop (`ScanLines`), proved equal to it.
- `evaluateVariables` (module `Variables`): the left-to-right,
  non-overlapping replacement of `{dir}`.
- The parsing loop of `prepareScheme` and its `saveFile` closure, in two
  forms:
  - module `Scheme`: a pure fold over the lines with a state record
    (`ParseState`, where the four boolean flags become one `Mode`);
  - module `Interpreter`: a class with the source's four boolean fields
    and local variables, whose methods are proved to perform the fold's
    steps.
- `assertReturnCode` and `assertNoDiff` (module `Assertions`): whether
  each check marks the test failed.

The Go library functions the core relies on are modelled in module
`GoStrings`: `strings.HasPrefix`, `strings.TrimSpace` with Go's
`unicode.IsSpace` set, and `strconv.Atoi` on a 64-bit platform.

Module `SchemeProperties` defines, line by line and independently of the
fold, what a parsed scheme must hold:

- the text of each block;
- the files;
- the arguments and environment entries, in order;
- the last return code;
- the first fatal error.

It then proves the fold equal to those definitions.

Module `Scenarios` works the schemes of `executor_test.go` through the
model. For example, it proves that the three orderings of files and stdout
describe the same run.

A `t.Fatalf` while parsing becomes the `Failure` side of a `Result`. The
temporary directory `t.TempDir()` becomes the parameter `dir`.

## Model

| member | source | states |
|---|---|---|
| GoStrings.TrimSpaceRemovesSpace | executor.go:212-213 | `TrimSpace` cuts exactly the leading and trailing white space: everything removed is white space and the result neither starts nor ends with it |
| GoStrings.TrimSpaceAround | executor.go:195-196 | trimmed text surrounded by white space comes back out of `TrimSpace` unchanged |
| GoStrings.Atoi | executor.go:215 | an accepted text is an optional sign and then only decimal digits, the value's magnitude is what those digits denote, and it lies in the 64-bit range; a sign and digits whose signed value fits, `-9223372036854775808` in any spelling included, are always accepted |
| GoStrings.AtoiCanonical | executor.go:215 | an accepted text is the decimal text of its value up to a leading sign and leading zeros, with a `-` for every negative value and none for a positive one, zero carrying either sign (the converse of `AtoiFormatInt`) |
| GoStrings.AtoiFormatInt | executor.go:215 | `Atoi` reads back every 64-bit integer printed in decimal (inverse of `FormatInt`) |
| GoStrings.AtoiRejectsSpace | executor.go:213-217 | any white space left in the text makes `Atoi` fail, which is why the value is trimmed first |
| Lines.ToLines | executor.go:288-298 | `toLines`: one line per scanner token, so there are at most as many lines as characters and none exactly for the empty text |
| Lines.LineEnd | executor.go:292 | the scanner's cut point is the first newline at or after `from`, or the end of the text |
| Lines.IndexNewline | executor.go:292 | the loop search for the next newline stops where `LineEnd` says |
| Lines.ScanLines | executor.go:288-298 | the scanner loop (token, then a newline appended, then the slice appended) yields exactly `ToLines(data)` |
| Lines.ToLinesAreLines | executor.go:292-295 | every element ends in exactly one newline and holds no other; the result is empty exactly for the empty text |
| Lines.ToLinesConcat | executor.go:288-298 | splitting the glued text of well-formed lines gives those lines back (round trip) |
| Lines.ConcatToLines | executor.go:288-298 | without carriage returns, the glued lines are the text itself plus a final newline when it lacked one (round trip the other way) |
| Lines.ToLinesFinalNewline | executor.go:288-298 | a missing final newline makes no difference to the lines |
| Variables.Substitute | executor.go:282-285 | `evaluateVariables`: the result holds only characters of the text or of the directory, and keeps every character of the text that is not one of `{dir}` |
| Variables.SubstituteWithoutPlaceholder | executor.go:282-285 | text with no `{dir}` is returned unchanged |
| Variables.SubstituteWithoutBrace | executor.go:282-285 | text with no `{` is returned unchanged |
| Variables.SubstituteFirstOccurrence | executor.go:282-285 | left to right and non-overlapping: text before the first `{dir}` is kept, that occurrence becomes `dir`, and replacement resumes after it |
| Variables.SubstitutePlaceholder | executor.go:282-285 | `{dir}` on its own becomes the directory |
| Variables.SubstituteIdentity | executor.go:282-285 | replacing `{dir}` by `{dir}` changes nothing |
| Variables.SubstituteAppendAfterNewline | executor.go:237-250 | substituting line by line, as the loop does, equals substituting the joined text, since no `{dir}` spans a newline |
| Scheme.LineError | executor.go:212-234 | only `--return-code:` and `--env:` lines raise errors; a return-code line raises one exactly when `Atoi` rejects its trimmed text, and reports that text; an `--env:` line raises one exactly when its trimmed, substituted entry holds no `=`, and reports that entry |
| Scheme.Step | executor.go:178-256 | one loop pass aborts exactly when the line raises an error, with that error; a non-payload line leaves the three streams alone; a line that opens no block leaves the mode, the stored files and the pending file name alone |
| Scheme.SaveFile | executor.go:169-176 | `saveFile(name)` stores the pending file only if a file block is open, then starts an empty file `name` |
| Scheme.Run | executor.go:178-256 | the loop over the lines: when it completes, no line raised an error; when it aborts, its error is the one some line raises |
| Scheme.Parse | executor.go:141-259 | `prepareScheme`: a scheme that parses has no erring line and keeps the directory; one that aborts reports an error some line of it raises |
| Scheme.RunAppend | executor.go:178 | the loop over `xs + ys` is the loop over `ys` started where the loop over `xs` ended |
| SchemeProperties.DirectivesExclusive | executor.go:179-235 | no line carries two directive prefixes, so a line is a given directive exactly when it starts with that directive's prefix (the test order decides nothing), and payload exactly when it starts with none of them, so any other `--` line is payload |
| SchemeProperties.RunError | executor.go:212-234 | the loop aborts exactly when some line raises an error, and then with the error of the first such line |
| SchemeProperties.FirstErrorAt | executor.go:212-234 | the first erring line's error is the one reported |
| SchemeProperties.NoFirstError | executor.go:212-234 | with no erring line there is no abort |
| SchemeProperties.StepStreams | executor.go:237-255 | one line sets the next mode and appends to each stream exactly the payload routed to it |
| SchemeProperties.RunStreams | executor.go:178-256 | after the loop, each of stdout, stderr and stdin is its old text plus the payload met while its block was open |
| SchemeProperties.StdinIgnoresDir | executor.go:252-254 | the stdin block does not depend on the directory |
| SchemeProperties.StdinBlockVerbatim | executor.go:252-254 | an open stdin block collects its payload lines verbatim |
| SchemeProperties.SubstituteLines | executor.go:237-250 | substituting lines one at a time equals substituting their joined text |
| SchemeProperties.MapSubstitute | executor.go:237-250 | substitution line by line keeps the number of lines |
| SchemeProperties.OutputBlockSubstituted | executor.go:237-246 | an open stdout or stderr block collects its payload with `{dir}` replaced |
| SchemeProperties.OutputBlockLines | executor.go:237-246 | the same, stated line by line |
| SchemeProperties.StepFilesOpen | executor.go:169-210 | a block directive stores the pending file; a `--file:` line starts a new one under its name |
| SchemeProperties.StepFilesPayload | executor.go:247-250 | a payload line adds its substituted text to the pending file |
| SchemeProperties.StepFilesOther | executor.go:212-235 | a return code, argument or environment line leaves the pending file alone and does not close the file block |
| SchemeProperties.StepFiles | executor.go:169-250 | one line moves its share of the pending file into the stored files |
| SchemeProperties.RunFiles | executor.go:178-259 | the files after the loop are those before it, plus the open block run to its end, plus every file the lines declare |
| SchemeProperties.FilesRefKeys | executor.go:195-201 | a name is a file of the scheme exactly when some `--file:` line gives it |
| SchemeProperties.FilesRefLastOpener | executor.go:169-176 | the last `--file:` line of a name decides that file's content (last write wins) |
| SchemeProperties.FileBlockSubstituted | executor.go:247-250 | a file block holds the text of its payload lines with `{dir}` replaced |
| SchemeProperties.FileTextLines | executor.go:247-250 | the same, stated line by line |
| SchemeProperties.StepScalars | executor.go:212-235 | one line appends its substituted argument or entry (an entry always with `=`) and sets the return code it parses |
| SchemeProperties.RunArgs | executor.go:221-225 | the arguments are the `--arg:` values, trimmed and substituted, in line order |
| SchemeProperties.RunEnv | executor.go:227-234 | the environment is the `--env:` entries, trimmed and substituted, in line order |
| SchemeProperties.RunReturnCode | executor.go:212-219 | the expected code is the value of the last `--return-code:` line, or the code before the loop |
| SchemeProperties.RunEnvWellFormed | executor.go:230-233 | every entry of a scheme that parses is a `KEY=VALUE` pair |
| SchemeProperties.ReturnCodeDefault | executor.go:153 | without a `--return-code:` line the expected code keeps its default |
| SchemeProperties.ReturnCodeLastWins | executor.go:212-219 | the last `--return-code:` line wins |
| SchemeProperties.ParseError | executor.go:141-259 | `prepareScheme` aborts exactly on the first erring line of the scheme, with its error |
| SchemeProperties.ParseContents | executor.go:141-259 | a scheme that parses yields: the three blocks; the arguments and entries in order, each entry a `KEY=VALUE`; the last return code or 0; the declared files; and the directory |
| Interpreter.FileModeFlag | executor.go:257-259 | with at most one flag set, the mode is the file block exactly when `isFile` is set |
| Interpreter.SchemeParser.constructor | executor.go:150-167 | a fresh parser is the fold's initial state with all four flags lowered |
| Interpreter.SchemeParser.SaveFile | executor.go:169-176 | the closure performs the fold's `SaveFile` and keeps at most one flag set |
| Interpreter.SchemeParser.Enter | executor.go:179-210 | a block directive saves the file and raises exactly the flag of its block |
| Interpreter.SchemeParser.AppendPayload | executor.go:237-255 | a payload line performs the fold's step and leaves the flags alone |
| Interpreter.SchemeParser.ProcessLine | executor.go:178-256 | one pass of the loop body performs the fold's `Step` (or reports its error); it sets the flags a block directive demands and leaves them alone otherwise |
| Interpreter.PrepareScheme | executor.go:141-259 | the loop over a fresh parser, followed by the final `saveFile`, returns exactly `Parse(scheme, dir)` |
| Assertions.ReturnCodeCheck | executor.go:77-84 | `assertReturnCode` against a parsed scheme fails exactly when the command's code differs from the scheme's last `--return-code:` value, or from 0 when it has none |
| Assertions.StdoutCheck | executor.go:86-95 | `assertNoDiff` on stdout against a parsed scheme fails exactly when the command's output and the payload of the scheme's stdout blocks split into different lines |
| Assertions.StderrCheck | executor.go:86-95 | `assertNoDiff` on stderr against a parsed scheme fails exactly when the command's error output and the payload of the scheme's stderr blocks split into different lines |
| Assertions.MissingFinalNewlineIgnored | executor.go:86-95 | a final newline missing from either side is no difference |
| Assertions.ToLinesTerminated | executor.go:288-298 | a text and the text with its final newline supplied split to the same lines |
| Assertions.OutputDiffersIff | executor.go:86-95 | without carriage returns, the outputs differ exactly when they still differ once each ends in a newline |
| Scenarios.PayloadLine | executor.go:179-235 | a line not starting with `-` is payload |
| Scenarios.UnknownDirectiveLine | executor.go:179-235 | a line whose third character starts none of the directive names (`stderr`, `stdout`, `stdin`, `file:`, `return-code:`, `arg:`, `env:`) is payload, `--` or not |
| Scenarios.BlockLines | executor.go:179-210 | the block directives are recognised by prefix alone, so `--stdoutX` opens stdout |
| Scenarios.FileLine | executor.go:195-196 | a `--file:` line names the trimmed file |
| Scenarios.ReturnCodeLine | executor.go:212-213 | a `--return-code:` line carries its trimmed text |
| Scenarios.ArgLine | executor.go:221-222 | an `--arg:` line carries its trimmed value |
| Scenarios.EnvLine | executor.go:227-228 | an `--env:` line carries its trimmed entry |
| Scenarios.DropWhileIdle | executor.go:237-255 | a payload line with no block open changes nothing |
| Scenarios.StdoutAfterFilesParse | executor_test.go:12-20 | two empty files are declared, and stdout lists their names |
| Scenarios.StdoutBeforeFilesParse | executor_test.go:22-30 | the same plan, with the stdout block first |
| Scenarios.StdoutBetweenFilesParse | executor_test.go:32-40 | the same plan, with the stdout block between the files |
| Scenarios.OrderingsAgree | executor_test.go:12-40 | the three orderings parse to the same plan |
| Scenarios.TestStdoutAfterFiles | executor_test.go:12-20 | the test's own scheme, with files `a.txt` and `b.txt` |
| Scenarios.EmptySchemeParse | executor_test.go:130-132 | the empty scheme expects no output, no files and exit code 0 |
| Scenarios.UnknownDirectiveDropped | executor_test.go:134-139 | an unknown directive outside a block is dropped |
| Scenarios.UnknownDirectiveInBlock | executor.go:237-246 | inside a block, an unknown directive is text of that block |
| Scenarios.TestUnknownPrefixIsIgnored | executor_test.go:134-139 | the test's own scheme expects no output |
| Scenarios.StdinFeedingParse | executor_test.go:75-82 | the same line goes to stdin verbatim and to the expected stdout with `{dir}` replaced |
| Scenarios.FormatIntValue | executor_test.go:88 | a printed integer is one trimmed line |
| Scenarios.NonZeroReturnCodeParse | executor_test.go:84-90 | two arguments and `--return-code: n` give exactly those arguments and code `n` |
| Scenarios.BadReturnCodeParse | executor.go:212-218 | a return code `Atoi` rejects aborts the parse |
| Scenarios.MalformedEnvParse | executor.go:227-232 | an entry without `=` aborts the parse, even after a file is declared |
| Scenarios.SubstituteSuffix | executor.go:282-285 | a `{dir}` after text without `{` becomes the directory |
| Scenarios.PlaceholderParse | executor_test.go:178-186 | `{dir}` in an environment entry and in an argument becomes the directory |
| Scenarios.FileContentParse | executor_test.go:120-128 | a file's text has `{dir}` replaced, an `--arg:` line leaves the file open, and the stdout block that follows stores it |

## Left out

- The disk writes after the loop (`os.MkdirAll`, `os.WriteFile`, executor.go:261-269) and their `t.Fatalf` are left out. The model stops at the map of files to write.
- `executeCommand`, the orchestration in `Execute`, `ExecuteForFile`, `t.Cleanup` and `t.Logf` are left out. Each is process, file-system or logging I/O.
- `t.TempDir()` is not modelled. The directory is the parameter `dir`.
- The `files` map is keyed by the trimmed name, not by `filepath.Join(dir, name)`. Path cleaning is not modelled.
- The diff text of `cmp.Diff` and the messages of `t.Errorf` are left out. Only the pass/fail outcome of each assertion is modelled.
- The scanner's 1 MB token limit (`scanner.Buffer`) is not modelled. Lines are unbounded.
- Go strings are bytes, but here they are sequences of characters. UTF-8 encoding is not modelled, and `unicode.IsSpace` is applied per character.
- GoStrings.Atoi: `strconv.Atoi`'s error values (syntax or range) are reduced to `None`. The platform is taken to have a 64-bit `int`.
- GoStrings.TrimSpace: its own contract only bounds the length. What it removes is stated in `TrimSpaceRemovesSpace`.
- The three scenario orderings are proved for any plain file names. The names used in the tests are instantiated only for `TestExecuteStdoutAfterFiles`.
- Two behaviours of the code may surprise a reader of the directive names or of `TestExecuteUnknownPrefixIsIgnored` (executor_test.go:134-139). The model follows the code.
  - A line that starts with `--` and names no known directive is ordinary payload, not a line that is always ignored: it is dropped only when no block is open and kept as text inside an open block (`UnknownDirectiveDropped`, `UnknownDirectiveInBlock`).
  - `--stdout`, `--stderr` and `--stdin` are recognised by prefix, not as exact tokens, so `--stdoutX` opens the stdout block (`BlockLines`).
