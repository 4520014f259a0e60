/**
 * Schemes from the package's own tests, worked through the model: the
 * three orderings of files and stdout that describe the same directory,
 * an unknown directive, an expected exit code, and the error paths.
 */
module Scenarios {
  import opened Wrappers
  import opened GoStrings
  import opened Lines
  import opened Variables
  import opened Scheme
  import opened SchemeProperties
  import opened Seqs

  // ---------------------------------------------------------------------
  // Recognising concrete lines
  // ---------------------------------------------------------------------

  lemma NotPrefixAt(line: string, p: string, i: nat)
    requires i < |line| && i < |p| && line[i] != p[i]
    ensures !HasPrefix(line, p)
  {
    if |p| <= |line| {
      assert line[..|p|][i] == line[i];
    }
  }

  /** A line that does not start with `-` is payload. */
  lemma PayloadLine(line: string)
    requires line != [] && line[0] != '-'
    ensures Classify(line) == Payload
  {
    NotPrefixAt(line, StderrPrefix, 0);
    NotPrefixAt(line, StdoutPrefix, 0);
    NotPrefixAt(line, FilePrefix, 0);
    NotPrefixAt(line, StdinPrefix, 0);
    NotPrefixAt(line, ReturnCodePrefix, 0);
    NotPrefixAt(line, ArgPrefix, 0);
    NotPrefixAt(line, EnvPrefix, 0);
  }

  /**
   * A line whose third character starts none of the directive names
   * (`stderr`, `stdout`, `stdin`, `file:`, `return-code:`, `arg:`, `env:`)
   * is payload, `--` or not.
   */
  lemma UnknownDirectiveLine(line: string)
    requires |line| > 2 && line[2] !in "sfrae"
    ensures Classify(line) == Payload
  {
    NotPrefixAt(line, StderrPrefix, 2);
    NotPrefixAt(line, StdoutPrefix, 2);
    NotPrefixAt(line, FilePrefix, 2);
    NotPrefixAt(line, StdinPrefix, 2);
    NotPrefixAt(line, ReturnCodePrefix, 2);
    NotPrefixAt(line, ArgPrefix, 2);
    NotPrefixAt(line, EnvPrefix, 2);
  }

  /** The text after a prefix, then white space, then trimmed text and a newline. */
  lemma AfterPrefix(p: string, pre: string, v: string)
    requires AllSpace(pre) && v != [] && Trimmed(v)
    ensures HasPrefix(p + pre + v + "\n", p)
    ensures (p + pre + v + "\n")[|p|..] == pre + v + "\n"
    ensures TrimSpace((p + pre + v + "\n")[|p|..]) == v
  {
    var line := p + pre + v + "\n";
    assert line == p + (pre + v + "\n");
    assert AllSpace("\n");
    TrimSpaceAround(pre, v, "\n");
  }

  lemma FileLine(pre: string, name: string)
    requires AllSpace(pre) && name != [] && Trimmed(name)
    ensures Classify(FilePrefix + pre + name + "\n") == OpenFile(name)
  {
    var line := FilePrefix + pre + name + "\n";
    AfterPrefix(FilePrefix, pre, name);
    assert line[2] == 'f';
    NotPrefixAt(line, StderrPrefix, 2);
    NotPrefixAt(line, StdoutPrefix, 2);
  }

  lemma ReturnCodeLine(pre: string, text: string)
    requires AllSpace(pre) && text != [] && Trimmed(text)
    ensures Classify(ReturnCodePrefix + pre + text + "\n") == SetReturnCode(text)
  {
    var line := ReturnCodePrefix + pre + text + "\n";
    AfterPrefix(ReturnCodePrefix, pre, text);
    assert line[2] == 'r';
    NotPrefixAt(line, StderrPrefix, 2);
    NotPrefixAt(line, StdoutPrefix, 2);
    NotPrefixAt(line, FilePrefix, 2);
    NotPrefixAt(line, StdinPrefix, 2);
  }

  lemma ArgLine(pre: string, value: string)
    requires AllSpace(pre) && value != [] && Trimmed(value)
    ensures Classify(ArgPrefix + pre + value + "\n") == AddArg(value)
  {
    var line := ArgPrefix + pre + value + "\n";
    AfterPrefix(ArgPrefix, pre, value);
    assert line[2] == 'a';
    NotPrefixAt(line, StderrPrefix, 2);
    NotPrefixAt(line, StdoutPrefix, 2);
    NotPrefixAt(line, FilePrefix, 2);
    NotPrefixAt(line, StdinPrefix, 2);
    NotPrefixAt(line, ReturnCodePrefix, 2);
  }

  lemma EnvLine(pre: string, entry: string)
    requires AllSpace(pre) && entry != [] && Trimmed(entry)
    ensures Classify(EnvPrefix + pre + entry + "\n") == AddEnv(entry)
  {
    var line := EnvPrefix + pre + entry + "\n";
    AfterPrefix(EnvPrefix, pre, entry);
    assert line[2] == 'e';
    NotPrefixAt(line, StderrPrefix, 2);
    NotPrefixAt(line, StdoutPrefix, 2);
    NotPrefixAt(line, FilePrefix, 2);
    NotPrefixAt(line, StdinPrefix, 2);
    NotPrefixAt(line, ReturnCodePrefix, 2);
    NotPrefixAt(line, ArgPrefix, 2);
  }

  /** Block directives are recognised by prefix alone: `--stdoutX` opens stdout too. */
  lemma BlockLines(rest: string)
    ensures Classify(StderrPrefix + rest) == OpenStderr
    ensures Classify(StdoutPrefix + rest) == OpenStdout
    ensures Classify(StdinPrefix + rest) == OpenStdin
  {
    var e, o, i := StderrPrefix + rest, StdoutPrefix + rest, StdinPrefix + rest;
    assert e[..|StderrPrefix|] == StderrPrefix;
    assert o[..|StdoutPrefix|] == StdoutPrefix && o[5] == 'o';
    NotPrefixAt(o, StderrPrefix, 5);
    assert i[..|StdinPrefix|] == StdinPrefix && i[2] == 's' && i[5] == 'i';
    NotPrefixAt(i, StderrPrefix, 5);
    NotPrefixAt(i, StdoutPrefix, 5);
    NotPrefixAt(i, FilePrefix, 2);
  }

  // ---------------------------------------------------------------------
  // One line at a time
  // ---------------------------------------------------------------------

  /** A block directive stores the open file and switches blocks. */
  lemma StepOpen(st: ParseState, line: string, dir: string)
    requires OpensBlock(Classify(line))
    ensures Step(st, line, dir) == Success(SaveFile(st, if Classify(line).OpenFile? then Classify(line).name else "").(mode := Opened(Classify(line))))
  {
  }

  /** An `--arg:` line appends its substituted value to the arguments. */
  lemma StepArg(st: ParseState, line: string, dir: string)
    requires Classify(line).AddArg?
    ensures Step(st, line, dir) == Success(st.(args := st.args + [Substitute(Classify(line).value, dir)]))
  {
  }

  /** An `--env:` line whose substituted entry holds `=` appends that entry to the environment. */
  lemma StepEnv(st: ParseState, line: string, dir: string)
    requires Classify(line).AddEnv? && '=' in Substitute(Classify(line).entry, dir)
    ensures Step(st, line, dir) == Success(st.(env := st.env + [Substitute(Classify(line).entry, dir)]))
  {
  }

  /** A `--return-code:` line that `Atoi` accepts sets the return code. */
  lemma StepReturnCode(st: ParseState, line: string, dir: string, code: int)
    requires Classify(line).SetReturnCode? && Atoi(Classify(line).text) == Some(code)
    ensures Step(st, line, dir) == Success(st.(returnCode := code))
  {
  }

  /** A `--return-code:` line that `Atoi` rejects aborts. */
  lemma StepBadReturnCode(st: ParseState, line: string, dir: string)
    requires Classify(line).SetReturnCode? && Atoi(Classify(line).text) == None
    ensures Step(st, line, dir) == Failure(BadReturnCode(Classify(line).text))
  {
  }

  /** An `--env:` line whose substituted entry has no `=` aborts. */
  lemma StepMalformedEnv(st: ParseState, line: string, dir: string)
    requires Classify(line).AddEnv? && '=' !in Substitute(Classify(line).entry, dir)
    ensures Step(st, line, dir) == Failure(MalformedEnv(Substitute(Classify(line).entry, dir)))
  {
  }

  /** A payload line goes to the open block, substituted unless the block is stdin, or is dropped. */
  lemma StepPayload(st: ParseState, line: string, dir: string)
    requires Classify(line) == Payload
    ensures Step(st, line, dir) == Success(
      match st.mode
      case InStderr => st.(stderr := st.stderr + Substitute(line, dir))
      case InStdout => st.(stdout := st.stdout + Substitute(line, dir))
      case InFile => st.(fileContent := st.fileContent + Substitute(line, dir))
      case InStdin => st.(stdin := st.stdin + line)
      case Idle => st)
  {
  }

  /** A payload line without `{` is appended unchanged to the open block, or dropped. */
  lemma StepPlainPayload(st: ParseState, line: string, dir: string)
    requires Classify(line) == Payload && '{' !in line
    ensures Step(st, line, dir) == Success(
      match st.mode
      case InStderr => st.(stderr := st.stderr + line)
      case InStdout => st.(stdout := st.stdout + line)
      case InFile => st.(fileContent := st.fileContent + line)
      case InStdin => st.(stdin := st.stdin + line)
      case Idle => st)
  {
    SubstituteWithoutBrace(line, dir);
  }

  // ---------------------------------------------------------------------
  // The lines of the test schemes, and what the scanner makes of them
  // ---------------------------------------------------------------------

  /** A file name that the tests use: one plain word, on one line, not starting with `-`. */
  predicate PlainName(a: string)
  {
    a != [] && Trimmed(a) && a[0] != '-' && '\n' !in a && '{' !in a
  }

  /** The lines of a scheme that declares files `a` and `b` and then lists them on stdout. */
  function StdoutAfterFilesLines(a: string, b: string): seq<string>
  {
    ["\n", FilePrefix + a + "\n", FilePrefix + b + "\n", StdoutPrefix + "\n", a + "\n", b + "\n"]
  }

  /** The same with the stdout block first. */
  function StdoutBeforeFilesLines(a: string, b: string): seq<string>
  {
    ["\n", StdoutPrefix + "\n", a + "\n", b + "\n", FilePrefix + a + "\n", FilePrefix + b + "\n"]
  }

  /** The same with the stdout block between the two files. */
  function StdoutBetweenFilesLines(a: string, b: string): seq<string>
  {
    ["\n", FilePrefix + a + "\n", StdoutPrefix + "\n", a + "\n", b + "\n", FilePrefix + b + "\n"]
  }

  /** What all three schemes describe: two empty files, and `ls` printing their names. */
  function TwoFilesListed(a: string, b: string, dir: string): Plan
  {
    Plan(a + "\n" + b + "\n", "", "", 0, [], [], map[a := "", b := ""], dir)
  }

  /** Lines that a scanner gives back unchanged once they are glued together. */
  predicate PlainLines(lines: seq<string>)
  {
    forall k :: 0 <= k < |lines| ==> IsPlainLine(lines[k])
  }

  /** A scheme glued from plain lines parses to what the loop over those lines ends in. */
  lemma ParseOfRun(lines: seq<string>, dir: string, st: ParseState)
    requires PlainLines(lines) && Run(Initial, lines, dir) == Success(st)
    ensures Parse(Concat(lines), dir) == Success(Finish(st, dir))
  {
    ToLinesConcat(lines);
  }

  /** A scheme glued from plain lines aborts with the error the loop over those lines stops at. */
  lemma ParseOfAbort(lines: seq<string>, dir: string, e: SchemeError)
    requires PlainLines(lines) && Run(Initial, lines, dir) == Failure(e)
    ensures Parse(Concat(lines), dir) == Failure(e)
  {
    ToLinesConcat(lines);
  }

  /** A line of text without a newline or a final carriage return is plain. */
  lemma PlainLineOf(x: string)
    requires '\n' !in x && (x == [] || x[|x| - 1] != '\r')
    ensures IsPlainLine(x + "\n")
  {
    assert (x + "\n")[..|x|] == x;
  }

  /** How the lines that mention a file name are classified. */
  lemma NameLines(a: string)
    requires PlainName(a)
    ensures Classify(FilePrefix + a + "\n") == OpenFile(a)
    ensures Classify(a + "\n") == Payload && '{' !in a + "\n"
  {
    FileLine("", a);
    assert FilePrefix + "" + a + "\n" == FilePrefix + a + "\n";
    PayloadLine(a + "\n");
  }

  lemma NamePlainLines(a: string)
    requires PlainName(a)
    ensures IsPlainLine(FilePrefix + a + "\n") && IsPlainLine(a + "\n")
  {
    PlainLineOf(a);
    assert (FilePrefix + a)[|FilePrefix + a| - 1] == a[|a| - 1];
    PlainLineOf(FilePrefix + a);
  }

  /** How the blank line and the two bare block directives are classified. */
  lemma FixedLines()
    ensures Classify("\n") == Payload && '{' !in "\n"
    ensures Classify(StdoutPrefix + "\n") == OpenStdout
    ensures Classify(StdinPrefix + "\n") == OpenStdin
  {
    PayloadLine("\n");
    BlockLines("\n");
  }

  lemma FixedPlainLines()
    ensures IsPlainLine("\n") && IsPlainLine(StdoutPrefix + "\n") && IsPlainLine(StdinPrefix + "\n")
  {
    PlainLineOf("");
    PlainLineOf(StdoutPrefix);
    PlainLineOf(StdinPrefix);
  }

  /** The three schemes are made of plain lines. */
  lemma TwoFilesPlain(a: string, b: string)
    requires PlainName(a) && PlainName(b)
    ensures PlainLines(StdoutAfterFilesLines(a, b))
    ensures PlainLines(StdoutBeforeFilesLines(a, b))
    ensures PlainLines(StdoutBetweenFilesLines(a, b))
  {
    NamePlainLines(a);
    NamePlainLines(b);
    FixedPlainLines();
  }

  // ---------------------------------------------------------------------
  // Segments of the loop, for any lines of the right kind
  // ---------------------------------------------------------------------

  /** A payload line while no block is open changes nothing. */
  lemma DropWhileIdle(st: ParseState, line: string, dir: string)
    requires st.mode == Idle && Classify(line) == Payload
    ensures Run(st, [line], dir) == Success(st)
  {
    StepPayload(st, line, dir);
    RunOne(st, line, dir, st);
  }

  /** A `--file:` line: the open file is stored and an empty file `name` is opened. */
  lemma OpenFileRun(st: ParseState, fl: string, name: string, dir: string)
    requires Classify(fl) == OpenFile(name)
    ensures Run(st, [fl], dir) == Success(SaveFile(st, name).(mode := InFile))
  {
    StepOpen(st, fl, dir);
    RunOne(st, fl, dir, SaveFile(st, name).(mode := InFile));
  }

  /** Two `--file:` lines in a row: the first file is stored empty and the second is open. */
  lemma TwoFileLinesRun(st: ParseState, fa: string, fb: string, a: string, b: string, dir: string)
    requires Classify(fa) == OpenFile(a) && Classify(fb) == OpenFile(b)
    ensures Run(st, [fa, fb], dir) == Success(SaveFile(SaveFile(st, a).(mode := InFile), b).(mode := InFile))
  {
    var s1 := SaveFile(st, a).(mode := InFile);
    StepOpen(st, fa, dir);
    StepOpen(s1, fb, dir);
    RunTwo(st, fa, fb, dir, s1, SaveFile(s1, b).(mode := InFile));
  }

  /** A stdout directive and two text lines without `{`: stdout grows by the two lines. */
  lemma StdoutBlockRun(st: ParseState, so: string, la: string, lb: string, dir: string)
    requires Classify(so) == OpenStdout && Classify(la) == Payload && Classify(lb) == Payload
    requires '{' !in la && '{' !in lb
    ensures Run(st, [so, la, lb], dir) == Success(SaveFile(st, "").(mode := InStdout, stdout := st.stdout + la + lb))
  {
    var s1 := SaveFile(st, "").(mode := InStdout);
    var s2 := s1.(stdout := st.stdout + la);
    var s3 := s1.(stdout := st.stdout + la + lb);
    StepOpen(st, so, dir);
    RunCons(st, so, [la, lb], dir, s1);
    StepPlainPayload(s1, la, dir);
    StepPlainPayload(s2, lb, dir);
    RunTwo(s1, la, lb, dir, s2, s3);
    Split3(so, la, lb);
  }

  // ---------------------------------------------------------------------
  // executor_test.go: stdout after, before and between the files
  // ---------------------------------------------------------------------

  /** A line dropped while no block is open leaves the rest of the loop as it was. */
  lemma SkipIdleLine(st: ParseState, blank: string, rest: seq<string>, dir: string)
    requires st.mode == Idle && Classify(blank) == Payload
    ensures Run(st, [blank] + rest, dir) == Run(st, rest, dir)
  {
    DropWhileIdle(st, blank, dir);
    RunAppend(st, [blank], rest, dir, st);
  }

  /** Two `--file:` lines, then a stdout block with two text lines. */
  lemma FilesThenStdoutRun(fa: string, fb: string, so: string, la: string, lb: string,
                           a: string, b: string, dir: string)
    requires Classify(la) == Payload && Classify(lb) == Payload && '{' !in la && '{' !in lb
    requires Classify(fa) == OpenFile(a) && Classify(fb) == OpenFile(b) && Classify(so) == OpenStdout
    ensures Run(Initial, [fa, fb, so, la, lb], dir)
      == Success(ParseState(InStdout, la + lb, "", "", 0, [], [], map[a := "", b := ""], "", ""))
  {
    var s2 := SaveFile(SaveFile(Initial, a).(mode := InFile), b).(mode := InFile);
    TwoFileLinesRun(Initial, fa, fb, a, b, dir);
    StdoutBlockRun(s2, so, la, lb, dir);
    RunAppend(Initial, [fa, fb], [so, la, lb], dir, s2);
    Split5(fa, fb, so, la, lb);
    AppendEmpty(la);
  }

  /**
   * A line dropped while no block is open, two `--file:` lines, a stdout
   * directive and two text lines: the files are stored empty and stdout
   * holds the two lines.
   */
  lemma StdoutAfterFilesRun(blank: string, fa: string, fb: string, so: string, la: string, lb: string,
                            a: string, b: string, dir: string)
    requires Classify(blank) == Payload && Classify(la) == Payload && Classify(lb) == Payload
    requires '{' !in la && '{' !in lb
    requires Classify(fa) == OpenFile(a) && Classify(fb) == OpenFile(b) && Classify(so) == OpenStdout
    ensures Run(Initial, [blank, fa, fb, so, la, lb], dir)
      == Success(ParseState(InStdout, la + lb, "", "", 0, [], [], map[a := "", b := ""], "", ""))
  {
    SkipIdleLine(Initial, blank, [fa, fb, so, la, lb], dir);
    FilesThenStdoutRun(fa, fb, so, la, lb, a, b, dir);
    Split6(blank, fa, fb, so, la, lb);
  }

  lemma StdoutAfterFilesParse(a: string, b: string, dir: string)
    requires PlainName(a) && PlainName(b)
    ensures Parse(Concat(StdoutAfterFilesLines(a, b)), dir) == Success(TwoFilesListed(a, b, dir))
  {
    var st := ParseState(InStdout, (a + "\n") + (b + "\n"), "", "", 0, [], [], map[a := "", b := ""], "", "");
    NameLines(a);
    NameLines(b);
    FixedLines();
    StdoutAfterFilesRun("\n", FilePrefix + a + "\n", FilePrefix + b + "\n", StdoutPrefix + "\n", a + "\n", b + "\n", a, b, dir);
    TwoFilesPlain(a, b);
    ParseOfRun(StdoutAfterFilesLines(a, b), dir, st);
    AppendAssoc(a + "\n", b, "\n");
  }

  /** A stdout block with two text lines, then two `--file:` lines. */
  lemma StdoutThenFilesRun(so: string, la: string, lb: string, fa: string, fb: string,
                           a: string, b: string, dir: string)
    requires Classify(la) == Payload && Classify(lb) == Payload && '{' !in la && '{' !in lb
    requires Classify(fa) == OpenFile(a) && Classify(fb) == OpenFile(b) && Classify(so) == OpenStdout
    ensures Run(Initial, [so, la, lb, fa, fb], dir)
      == Success(ParseState(InFile, la + lb, "", "", 0, [], [], map[a := ""], b, ""))
  {
    var s3 := SaveFile(Initial, "").(mode := InStdout, stdout := "" + la + lb);
    StdoutBlockRun(Initial, so, la, lb, dir);
    TwoFileLinesRun(s3, fa, fb, a, b, dir);
    RunAppend(Initial, [so, la, lb], [fa, fb], dir, s3);
    Split5(so, la, lb, fa, fb);
    AppendEmpty(la);
  }

  /** The stdout block first: its two lines, then two `--file:` lines. */
  lemma StdoutBeforeFilesRun(blank: string, so: string, la: string, lb: string, fa: string, fb: string,
                             a: string, b: string, dir: string)
    requires Classify(blank) == Payload && Classify(la) == Payload && Classify(lb) == Payload
    requires '{' !in la && '{' !in lb
    requires Classify(fa) == OpenFile(a) && Classify(fb) == OpenFile(b) && Classify(so) == OpenStdout
    ensures Run(Initial, [blank, so, la, lb, fa, fb], dir)
      == Success(ParseState(InFile, la + lb, "", "", 0, [], [], map[a := ""], b, ""))
  {
    SkipIdleLine(Initial, blank, [so, la, lb, fa, fb], dir);
    StdoutThenFilesRun(so, la, lb, fa, fb, a, b, dir);
    Split6(blank, so, la, lb, fa, fb);
  }

  lemma StdoutBeforeFilesParse(a: string, b: string, dir: string)
    requires PlainName(a) && PlainName(b)
    ensures Parse(Concat(StdoutBeforeFilesLines(a, b)), dir) == Success(TwoFilesListed(a, b, dir))
  {
    var st := ParseState(InFile, (a + "\n") + (b + "\n"), "", "", 0, [], [], map[a := ""], b, "");
    NameLines(a);
    NameLines(b);
    FixedLines();
    StdoutBeforeFilesRun("\n", StdoutPrefix + "\n", a + "\n", b + "\n", FilePrefix + a + "\n", FilePrefix + b + "\n", a, b, dir);
    TwoFilesPlain(a, b);
    ParseOfRun(StdoutBeforeFilesLines(a, b), dir, st);
    AppendAssoc(a + "\n", b, "\n");
    assert FlushedFiles(st) == map[a := "", b := ""];
  }

  /** A stdout block with two text lines, then a `--file:` line. */
  lemma StdoutThenFileRun(st: ParseState, so: string, la: string, lb: string, fb: string, b: string, dir: string)
    requires Classify(la) == Payload && Classify(lb) == Payload && '{' !in la && '{' !in lb
    requires Classify(fb) == OpenFile(b) && Classify(so) == OpenStdout
    ensures Run(st, [so, la, lb, fb], dir)
      == Success(SaveFile(SaveFile(st, "").(mode := InStdout, stdout := st.stdout + la + lb), b).(mode := InFile))
  {
    var s4 := SaveFile(st, "").(mode := InStdout, stdout := st.stdout + la + lb);
    StdoutBlockRun(st, so, la, lb, dir);
    OpenFileRun(s4, fb, b, dir);
    RunAppend(st, [so, la, lb], [fb], dir, s4);
    Split4(so, la, lb, fb);
  }

  /** A `--file:` line, a stdout block with two text lines, then another `--file:` line. */
  lemma FileStdoutFileRun(fa: string, so: string, la: string, lb: string, fb: string,
                          a: string, b: string, dir: string)
    requires Classify(la) == Payload && Classify(lb) == Payload && '{' !in la && '{' !in lb
    requires Classify(fa) == OpenFile(a) && Classify(fb) == OpenFile(b) && Classify(so) == OpenStdout
    ensures Run(Initial, [fa, so, la, lb, fb], dir)
      == Success(ParseState(InFile, la + lb, "", "", 0, [], [], map[a := ""], b, ""))
  {
    var s1 := SaveFile(Initial, a).(mode := InFile);
    OpenFileRun(Initial, fa, a, dir);
    StdoutThenFileRun(s1, so, la, lb, fb, b, dir);
    RunAppend(Initial, [fa], [so, la, lb, fb], dir, s1);
    Split5(fa, so, la, lb, fb);
    AppendEmpty(la);
  }

  /** The stdout block between the two `--file:` lines. */
  lemma StdoutBetweenFilesRun(blank: string, fa: string, so: string, la: string, lb: string, fb: string,
                              a: string, b: string, dir: string)
    requires Classify(blank) == Payload && Classify(la) == Payload && Classify(lb) == Payload
    requires '{' !in la && '{' !in lb
    requires Classify(fa) == OpenFile(a) && Classify(fb) == OpenFile(b) && Classify(so) == OpenStdout
    ensures Run(Initial, [blank, fa, so, la, lb, fb], dir)
      == Success(ParseState(InFile, la + lb, "", "", 0, [], [], map[a := ""], b, ""))
  {
    SkipIdleLine(Initial, blank, [fa, so, la, lb, fb], dir);
    FileStdoutFileRun(fa, so, la, lb, fb, a, b, dir);
    Split6(blank, fa, so, la, lb, fb);
  }

  lemma StdoutBetweenFilesParse(a: string, b: string, dir: string)
    requires PlainName(a) && PlainName(b)
    ensures Parse(Concat(StdoutBetweenFilesLines(a, b)), dir) == Success(TwoFilesListed(a, b, dir))
  {
    var st := ParseState(InFile, (a + "\n") + (b + "\n"), "", "", 0, [], [], map[a := ""], b, "");
    NameLines(a);
    NameLines(b);
    FixedLines();
    StdoutBetweenFilesRun("\n", FilePrefix + a + "\n", StdoutPrefix + "\n", a + "\n", b + "\n", FilePrefix + b + "\n", a, b, dir);
    TwoFilesPlain(a, b);
    ParseOfRun(StdoutBetweenFilesLines(a, b), dir, st);
    AppendAssoc(a + "\n", b, "\n");
    assert FlushedFiles(st) == map[a := "", b := ""];
  }

  /** Where the stdout block stands among the file blocks makes no difference. */
  lemma OrderingsAgree(a: string, b: string, dir: string)
    requires PlainName(a) && PlainName(b)
    ensures Parse(Concat(StdoutAfterFilesLines(a, b)), dir) == Parse(Concat(StdoutBeforeFilesLines(a, b)), dir)
    ensures Parse(Concat(StdoutAfterFilesLines(a, b)), dir) == Parse(Concat(StdoutBetweenFilesLines(a, b)), dir)
  {
    StdoutAfterFilesParse(a, b, dir);
    StdoutBeforeFilesParse(a, b, dir);
    StdoutBetweenFilesParse(a, b, dir);
  }

  /** The scheme of `TestExecuteStdoutAfterFiles`, with its two file names. */
  lemma TestStdoutAfterFiles(dir: string)
    ensures Parse(Concat(StdoutAfterFilesLines("a.txt", "b.txt")), dir) == Success(TwoFilesListed("a.txt", "b.txt", dir))
  {
    assert PlainName("a.txt") && PlainName("b.txt");
    StdoutAfterFilesParse("a.txt", "b.txt", dir);
  }

  // ---------------------------------------------------------------------
  // executor_test.go: the empty scheme and an unknown directive
  // ---------------------------------------------------------------------

  /** `TestExecuteEmptySchemeNoPrefixesBinaryThatSucceeds`: nothing to prepare, exit code 0 expected. */
  lemma EmptySchemeParse(dir: string)
    ensures Parse("", dir) == Success(Plan("", "", "", 0, [], [], map[], dir))
  {
    ToLinesAreLines("");
  }

  /** A line that looks like a directive and is none, such as `--unknown:something`. */
  predicate UnknownDirective(u: string)
  {
    IsPlainLine(u) && |u| > 2 && u[2] !in "sfrae" && '{' !in u
  }

  /** Two payload lines while no block is open, then a stdout directive: nothing is kept. */
  lemma IdleLinesRun(blank: string, u: string, so: string, dir: string)
    requires Classify(blank) == Payload && Classify(u) == Payload && Classify(so) == OpenStdout
    ensures Run(Initial, [blank, u, so], dir) == Success(Initial.(mode := InStdout))
  {
    StepPayload(Initial, blank, dir);
    StepPayload(Initial, u, dir);
    RunTwo(Initial, blank, u, dir, Initial, Initial);
    StepOpen(Initial, so, dir);
    RunOne(Initial, so, dir, Initial.(mode := InStdout));
    RunAppend(Initial, [blank, u], [so], dir, Initial);
    Split3(blank, u, so);
  }

  /** A stdout directive, then a payload line without `{`: stdout holds the line. */
  lemma StdoutLineRun(so: string, u: string, dir: string)
    requires Classify(so) == OpenStdout && Classify(u) == Payload && '{' !in u
    ensures Run(Initial, [so, u], dir) == Success(Initial.(mode := InStdout, stdout := u))
  {
    var s1 := Initial.(mode := InStdout);
    StepOpen(Initial, so, dir);
    StepPlainPayload(s1, u, dir);
    AppendEmpty(u);
    RunTwo(Initial, so, u, dir, s1, s1.(stdout := u));
  }

  /** How the lines around an unknown directive are classified, and that the scanner gives them back. */
  lemma UnknownDirectiveLinesFacts(u: string)
    requires UnknownDirective(u)
    ensures Classify(u) == Payload
    ensures Classify("\n") == Payload && Classify(StdoutPrefix + "\n") == OpenStdout
    ensures PlainLines(["\n", u, StdoutPrefix + "\n"]) && PlainLines([StdoutPrefix + "\n", u])
  {
    UnknownDirectiveLine(u);
    FixedLines();
    FixedPlainLines();
  }

  /**
   * `TestExecuteUnknownPrefixIsIgnored`: an unknown directive outside a
   * block is dropped and the expected output stays empty.
   */
  lemma UnknownDirectiveDropped(u: string, dir: string)
    requires UnknownDirective(u)
    ensures Parse(Concat(["\n", u, StdoutPrefix + "\n"]), dir) == Success(Plan("", "", "", 0, [], [], map[], dir))
  {
    UnknownDirectiveLinesFacts(u);
    IdleLinesRun("\n", u, StdoutPrefix + "\n", dir);
    ParseOfRun(["\n", u, StdoutPrefix + "\n"], dir, Initial.(mode := InStdout));
  }

  /** Inside a block the same line is text of that block. */
  lemma UnknownDirectiveInBlock(u: string, dir: string)
    requires UnknownDirective(u)
    ensures Parse(Concat([StdoutPrefix + "\n", u]), dir) == Success(Plan(u, "", "", 0, [], [], map[], dir))
  {
    UnknownDirectiveLinesFacts(u);
    StdoutLineRun(StdoutPrefix + "\n", u, dir);
    ParseOfRun([StdoutPrefix + "\n", u], dir, Initial.(mode := InStdout, stdout := u));
  }

  /** The line of `TestExecuteUnknownPrefixIsIgnored` is an unknown directive. */
  lemma SomethingIsUnknown()
    ensures UnknownDirective("--unknown:something\n")
  {
  }

  /** The scheme of `TestExecuteUnknownPrefixIsIgnored`, with its own line. */
  lemma TestUnknownPrefixIsIgnored(dir: string)
    ensures Parse(Concat(["\n", "--unknown:something\n", StdoutPrefix + "\n"]), dir)
      == Success(Plan("", "", "", 0, [], [], map[], dir))
  {
    SomethingIsUnknown();
    UnknownDirectiveDropped("--unknown:something\n", dir);
  }

  // ---------------------------------------------------------------------
  // executor_test.go: stdin, exit codes, placeholders, aborts
  // ---------------------------------------------------------------------

  /**
   * The fold over a stdin block and then a stdout block, each holding the
   * same payload line: stdin gets the line as written, stdout the line
   * with `{dir}` replaced.
   */
  lemma StdinFeedingRun(openIn: string, t: string, openOut: string, dir: string)
    requires Classify(openIn) == OpenStdin && Classify(openOut) == OpenStdout && Classify(t) == Payload
    ensures Run(Initial, [openIn, t, openOut, t], dir)
      == Success(Initial.(mode := InStdout, stdin := t, stdout := Substitute(t, dir)))
  {
    var s1 := SaveFile(Initial, "").(mode := InStdin);
    var s2 := s1.(stdin := t);
    var s3 := SaveFile(s2, "").(mode := InStdout);
    var s4 := s3.(stdout := Substitute(t, dir));
    StepOpen(Initial, openIn, dir);
    StepPayload(s1, t, dir);
    AppendEmpty(t);
    RunTwo(Initial, openIn, t, dir, s1, s2);
    StepOpen(s2, openOut, dir);
    StepPayload(s3, t, dir);
    AppendEmpty(Substitute(t, dir));
    RunTwo(s2, openOut, t, dir, s3, s4);
    RunAppend(Initial, [openIn, t], [openOut, t], dir, s2);
    Split4(openIn, t, openOut, t);
  }

  /** How the lines of the stdin scheme are classified, and that the scanner gives them back. */
  lemma StdinFeedingLinesFacts(t: string)
    requires IsPlainLine(t) && t[0] != '-'
    ensures Classify(t) == Payload
    ensures Classify(StdinPrefix + "\n") == OpenStdin && Classify(StdoutPrefix + "\n") == OpenStdout
    ensures Classify("\n") == Payload
    ensures PlainLines(["\n", StdinPrefix + "\n", t, StdoutPrefix + "\n", t])
  {
    PayloadLine(t);
    FixedLines();
    FixedPlainLines();
  }

  /**
   * `TestExecuteStdinFeedingCat`: the same line goes to stdin as written
   * and to the expected stdout with `{dir}` replaced. The scheme starts
   * with the blank line its raw string opens with.
   */
  lemma StdinFeedingParse(t: string, dir: string)
    requires IsPlainLine(t) && t[0] != '-'
    ensures Parse(Concat(["\n", StdinPrefix + "\n", t, StdoutPrefix + "\n", t]), dir)
      == Success(Plan(Substitute(t, dir), "", t, 0, [], [], map[], dir))
  {
    var body := [StdinPrefix + "\n", t, StdoutPrefix + "\n", t];
    StdinFeedingLinesFacts(t);
    StdinFeedingRun(StdinPrefix + "\n", t, StdoutPrefix + "\n", dir);
    SkipIdleLine(Initial, "\n", body, dir);
    Split5("\n", StdinPrefix + "\n", t, StdoutPrefix + "\n", t);
    ParseOfRun(["\n"] + body, dir,
      Initial.(mode := InStdout, stdin := t, stdout := Substitute(t, dir)));
  }

  /** A directive's value as the tests write one: one line of text, trimmed. */
  predicate OneLineValue(x: string)
  {
    x != [] && Trimmed(x) && '\n' !in x
  }

  /** A directive line with a one-line value is a line the scanner gives back unchanged. */
  lemma DirectiveLine(p: string, x: string)
    requires '\n' !in p && OneLineValue(x)
    ensures IsPlainLine(p + x + "\n")
  {
    var l := p + x + "\n";
    assert l[..|l| - 1] == p + x;
    assert l[|l| - 2] == x[|x| - 1];
  }

  lemma ArgValueLine(x: string, dir: string)
    requires OneLineValue(x) && '{' !in x
    ensures Classify(ArgPrefix + x + "\n") == AddArg(x) && IsPlainLine(ArgPrefix + x + "\n")
    ensures Substitute(x, dir) == x
  {
    ArgLine("", x);
    assert ArgPrefix + "" + x + "\n" == ArgPrefix + x + "\n";
    DirectiveLine(ArgPrefix, x);
    SubstituteWithoutBrace(x, dir);
  }

  /** `%d` output is one trimmed line. */
  lemma FormatIntValue(n: int)
    ensures OneLineValue(FormatInt(n))
  {
    var d := Decimal(if n < 0 then -n else n);
    assert IsDigit(d[0]) && IsDigit(d[|d| - 1]);
    var f := FormatInt(n);
    forall k | 0 <= k < |f| ensures f[k] != '\n' {
      if n < 0 && k > 0 {
        assert f[k] == d[k - 1];
      }
    }
  }

  /** `TestExecuteNonZeroReturnCode`: two arguments, then an exit code after a blank, as in `--return-code: 42`. */
  function ReturnCodeLines(x: string, y: string, n: int): seq<string>
  {
    ["\n", ArgPrefix + x + "\n", ArgPrefix + y + "\n", ReturnCodePrefix + " " + FormatInt(n) + "\n"]
  }

  /** A line dropped while no block is open, then an `--arg:` line. */
  lemma BlankArgRun(blank: string, ax: string, x: string, dir: string)
    requires Classify(blank) == Payload && Classify(ax) == AddArg(x)
    ensures Run(Initial, [blank, ax], dir) == Success(Initial.(args := [Substitute(x, dir)]))
  {
    StepPayload(Initial, blank, dir);
    StepArg(Initial, ax, dir);
    AppendEmpty([Substitute(x, dir)]);
    RunTwo(Initial, blank, ax, dir, Initial, Initial.(args := [Substitute(x, dir)]));
  }

  /** An `--arg:` line, then a `--return-code:` line that parses. */
  lemma ArgCodeRun(st: ParseState, ay: string, rc: string, y: string, text: string, n: int, dir: string)
    requires Classify(ay) == AddArg(y) && Classify(rc) == SetReturnCode(text) && Atoi(text) == Some(n)
    ensures Run(st, [ay, rc], dir) == Success(st.(args := st.args + [Substitute(y, dir)], returnCode := n))
  {
    var s1 := st.(args := st.args + [Substitute(y, dir)]);
    StepArg(st, ay, dir);
    StepReturnCode(s1, rc, dir, n);
    RunTwo(st, ay, rc, dir, s1, s1.(returnCode := n));
  }

  /** A dropped line, two `--arg:` lines and a `--return-code:` line that parses. */
  lemma ArgsAndCodeRun(blank: string, ax: string, ay: string, rc: string, x: string, y: string, text: string, n: int, dir: string)
    requires Classify(blank) == Payload && Classify(ax) == AddArg(x) && Classify(ay) == AddArg(y)
    requires Classify(rc) == SetReturnCode(text) && Atoi(text) == Some(n)
    ensures Run(Initial, [blank, ax, ay, rc], dir)
      == Success(Initial.(returnCode := n, args := [Substitute(x, dir), Substitute(y, dir)]))
  {
    var s1 := Initial.(args := [Substitute(x, dir)]);
    BlankArgRun(blank, ax, x, dir);
    ArgCodeRun(s1, ay, rc, y, text, n, dir);
    RunAppend(Initial, [blank, ax], [ay, rc], dir, s1);
    Split4(blank, ax, ay, rc);
    Split2(Substitute(x, dir), Substitute(y, dir));
  }

  /** The `--return-code:` line of `ReturnCodeLines`: classified and plain. */
  lemma FormattedCodeLine(n: int)
    ensures Classify(ReturnCodePrefix + " " + FormatInt(n) + "\n") == SetReturnCode(FormatInt(n))
    ensures IsPlainLine(ReturnCodePrefix + " " + FormatInt(n) + "\n")
  {
    FormatIntValue(n);
    assert AllSpace(" ");
    ReturnCodeLine(" ", FormatInt(n));
    DirectiveLine(ReturnCodePrefix + " ", FormatInt(n));
  }

  /** How the lines of `ReturnCodeLines` are classified, and that the scanner gives them back. */
  lemma ReturnCodeLinesFacts(x: string, y: string, n: int, dir: string)
    requires OneLineValue(x) && '{' !in x && OneLineValue(y) && '{' !in y
    ensures Classify("\n") == Payload
    ensures Classify(ArgPrefix + x + "\n") == AddArg(x) && Substitute(x, dir) == x
    ensures Classify(ArgPrefix + y + "\n") == AddArg(y) && Substitute(y, dir) == y
    ensures Classify(ReturnCodePrefix + " " + FormatInt(n) + "\n") == SetReturnCode(FormatInt(n))
    ensures PlainLines(ReturnCodeLines(x, y, n))
  {
    FixedLines();
    FixedPlainLines();
    ArgValueLine(x, dir);
    ArgValueLine(y, dir);
    FormattedCodeLine(n);
  }

  lemma NonZeroReturnCodeParse(x: string, y: string, n: int, dir: string)
    requires OneLineValue(x) && '{' !in x && OneLineValue(y) && '{' !in y
    requires MinInt64 <= n <= MaxInt64
    ensures Parse(Concat(ReturnCodeLines(x, y, n)), dir) == Success(Plan("", "", "", n, [x, y], [], map[], dir))
  {
    ReturnCodeLinesFacts(x, y, n, dir);
    AtoiFormatInt(n);
    ArgsAndCodeRun("\n", ArgPrefix + x + "\n", ArgPrefix + y + "\n", ReturnCodePrefix + " " + FormatInt(n) + "\n",
      x, y, FormatInt(n), n, dir);
    ParseOfRun(ReturnCodeLines(x, y, n), dir, Initial.(returnCode := n, args := [x, y]));
  }

  /** A `--return-code:` line with a one-line value: classified and plain. */
  lemma ReturnCodeValueLine(x: string)
    requires OneLineValue(x)
    ensures Classify(ReturnCodePrefix + x + "\n") == SetReturnCode(x)
    ensures PlainLines([ReturnCodePrefix + x + "\n"])
  {
    ReturnCodeLine("", x);
    assert ReturnCodePrefix + "" + x + "\n" == ReturnCodePrefix + x + "\n";
    DirectiveLine(ReturnCodePrefix, x);
  }

  /** A return code `Atoi` rejects aborts the test. */
  lemma BadReturnCodeParse(x: string, dir: string)
    requires OneLineValue(x) && Atoi(x) == None
    ensures Parse(Concat([ReturnCodePrefix + x + "\n"]), dir) == Failure(BadReturnCode(x))
  {
    var line := ReturnCodePrefix + x + "\n";
    ReturnCodeValueLine(x);
    StepBadReturnCode(Initial, line, dir);
    RunFails(Initial, line, [], dir, BadReturnCode(x));
    AppendEmpty([line]);
    ParseOfAbort([line], dir, BadReturnCode(x));
  }

  /** A `--file:` line, then a line that aborts. */
  lemma FileThenAbortRun(fl: string, bad: string, name: string, e: SchemeError, dir: string)
    requires Classify(fl) == OpenFile(name) && Step(SaveFile(Initial, name).(mode := InFile), bad, dir) == Failure(e)
    ensures Run(Initial, [fl, bad], dir) == Failure(e)
  {
    var s1 := SaveFile(Initial, name).(mode := InFile);
    OpenFileRun(Initial, fl, name, dir);
    RunFails(s1, bad, [], dir, e);
    AppendEmpty([bad]);
    RunAppend(Initial, [fl], [bad], dir, s1);
    Split2(fl, bad);
  }

  /** How the lines of the malformed environment scheme are classified, and that the scanner gives them back. */
  lemma MalformedEnvLinesFacts(a: string, x: string, dir: string)
    requires PlainName(a) && OneLineValue(x) && '{' !in x
    ensures Classify(FilePrefix + a + "\n") == OpenFile(a)
    ensures Classify(EnvPrefix + x + "\n") == AddEnv(x) && Substitute(x, dir) == x
    ensures PlainLines([FilePrefix + a + "\n", EnvPrefix + x + "\n"])
  {
    NameLines(a);
    NamePlainLines(a);
    EnvLine("", x);
    assert EnvPrefix + "" + x + "\n" == EnvPrefix + x + "\n";
    DirectiveLine(EnvPrefix, x);
    SubstituteWithoutBrace(x, dir);
  }

  /** An environment entry without `=` aborts the test, before any file is written. */
  lemma MalformedEnvParse(a: string, x: string, dir: string)
    requires PlainName(a) && OneLineValue(x) && '{' !in x && '=' !in x
    ensures Parse(Concat([FilePrefix + a + "\n", EnvPrefix + x + "\n"]), dir) == Failure(MalformedEnv(x))
  {
    MalformedEnvLinesFacts(a, x, dir);
    StepMalformedEnv(SaveFile(Initial, a).(mode := InFile), EnvPrefix + x + "\n", dir);
    FileThenAbortRun(FilePrefix + a + "\n", EnvPrefix + x + "\n", a, MalformedEnv(x), dir);
    ParseOfAbort([FilePrefix + a + "\n", EnvPrefix + x + "\n"], dir, MalformedEnv(x));
  }

  /** `{dir}` at the end of a text without `{`. */
  lemma SubstituteSuffix(k: string, dir: string)
    requires '{' !in k
    ensures Substitute(k + Placeholder, dir) == k + dir
  {
    var s := k + Placeholder;
    assert s[|k|..|k| + |Placeholder|] == Placeholder;
    forall i | 0 <= i < |k| ensures !OccursAt(s, i) {
      if i + |Placeholder| <= |s| {
        assert s[i..i + |Placeholder|][0] == s[i] == k[i];
      }
    }
    SubstituteFirstOccurrence(s, |k|, dir);
    assert s[..|k|] == k;
    assert s[|k| + |Placeholder|..] == [];
  }

  /**
   * `TestExecuteEnvVariableWithPlaceholder` and
   * `TestExecuteMultipleArgsWithDirPlaceholder`: `{dir}` in an environment
   * entry and in an argument becomes the fixture directory.
   */
  function PlaceholderLines(k: string): seq<string>
  {
    [EnvPrefix + (k + Placeholder) + "\n", ArgPrefix + Placeholder + "\n"]
  }

  /** The left-hand part of an environment entry, up to and including `=`. */
  predicate EntryHead(k: string)
  {
    k != [] && !IsSpace(k[0]) && '\n' !in k && '{' !in k && '=' in k
  }

  lemma PlaceholderValues(k: string)
    requires EntryHead(k)
    ensures OneLineValue(k + Placeholder) && OneLineValue(Placeholder)
  {
    var v := k + Placeholder;
    assert v[0] == k[0] && v[|v| - 1] == '}';
  }

  /** An `--env:` line whose entry holds `=` once substituted, then an `--arg:` line. */
  lemma EnvArgRun(le: string, la: string, e: string, v: string, dir: string)
    requires Classify(le) == AddEnv(e) && '=' in Substitute(e, dir) && Classify(la) == AddArg(v)
    ensures Run(Initial, [le, la], dir)
      == Success(Initial.(env := [Substitute(e, dir)], args := [Substitute(v, dir)]))
  {
    var s1 := Initial.(env := [Substitute(e, dir)]);
    StepEnv(Initial, le, dir);
    AppendEmpty([Substitute(e, dir)]);
    StepArg(s1, la, dir);
    AppendEmpty([Substitute(v, dir)]);
    RunTwo(Initial, le, la, dir, s1, s1.(args := [Substitute(v, dir)]));
  }

  /** The `--env:` line of `PlaceholderLines`: classified, substituted, and plain. */
  lemma EnvPlaceholderLine(k: string, dir: string)
    requires EntryHead(k)
    ensures Classify(EnvPrefix + (k + Placeholder) + "\n") == AddEnv(k + Placeholder)
    ensures Substitute(k + Placeholder, dir) == k + dir && '=' in k + dir
    ensures IsPlainLine(EnvPrefix + (k + Placeholder) + "\n")
  {
    var v := k + Placeholder;
    PlaceholderValues(k);
    EnvLine("", v);
    assert EnvPrefix + "" + v + "\n" == EnvPrefix + v + "\n";
    SubstituteSuffix(k, dir);
    var j :| 0 <= j < |k| && k[j] == '=';
    assert (k + dir)[j] == '=';
    DirectiveLine(EnvPrefix, v);
  }

  /** The `--arg:` line of `PlaceholderLines`: classified, substituted, and plain. */
  lemma ArgPlaceholderLine(dir: string)
    ensures Classify(ArgPrefix + Placeholder + "\n") == AddArg(Placeholder)
    ensures Substitute(Placeholder, dir) == dir
    ensures IsPlainLine(ArgPrefix + Placeholder + "\n")
  {
    assert OneLineValue(Placeholder);
    ArgLine("", Placeholder);
    assert ArgPrefix + "" + Placeholder + "\n" == ArgPrefix + Placeholder + "\n";
    SubstitutePlaceholder(dir);
    DirectiveLine(ArgPrefix, Placeholder);
  }

  lemma PlaceholderLinesPlain(k: string)
    requires IsPlainLine(EnvPrefix + (k + Placeholder) + "\n") && IsPlainLine(ArgPrefix + Placeholder + "\n")
    ensures PlainLines(PlaceholderLines(k))
  {
  }

  lemma PlaceholderParse(k: string, dir: string)
    requires EntryHead(k)
    ensures Parse(Concat(PlaceholderLines(k)), dir) == Success(Plan("", "", "", 0, [dir], [k + dir], map[], dir))
  {
    EnvPlaceholderLine(k, dir);
    ArgPlaceholderLine(dir);
    PlaceholderLinesPlain(k);
    EnvArgRun(EnvPrefix + (k + Placeholder) + "\n", ArgPrefix + Placeholder + "\n", k + Placeholder, Placeholder, dir);
    ParseOfRun(PlaceholderLines(k), dir, Initial.(args := [dir], env := [k + dir]));
  }

  /**
   * `TestExecuteVariableSubstitutionInsideFileContent`: a file's text has
   * `{dir}` replaced, an `--arg:` line does not close the file block, and
   * the stdout block that follows stores the file. The scheme starts with
   * the blank line its raw string opens with.
   */
  function FileContentLines(a: string, t: string): seq<string>
  {
    ["\n", FilePrefix + a + "\n", t, ArgPrefix + a + "\n", StdoutPrefix + "\n", t]
  }

  /** A `--file:` line and a text line, then an `--arg:` line that leaves the file open. */
  lemma FileWithArgRun(fl: string, t: string, al: string, name: string, v: string, dir: string)
    requires Classify(fl) == OpenFile(name) && Classify(t) == Payload && Classify(al) == AddArg(v)
    ensures Run(Initial, [fl, t, al], dir)
      == Success(ParseState(InFile, "", "", "", 0, [Substitute(v, dir)], [], map[], name, Substitute(t, dir)))
  {
    var s1 := SaveFile(Initial, name).(mode := InFile);
    var s2 := s1.(fileContent := Substitute(t, dir));
    var s3 := s2.(args := [Substitute(v, dir)]);
    StepOpen(Initial, fl, dir);
    StepPayload(s1, t, dir);
    AppendEmpty(Substitute(t, dir));
    RunTwo(Initial, fl, t, dir, s1, s2);
    StepArg(s2, al, dir);
    AppendEmpty([Substitute(v, dir)]);
    RunOne(s2, al, dir, s3);
    RunAppend(Initial, [fl, t], [al], dir, s2);
    Split3(fl, t, al);
  }

  /** The file block with an `--arg:` line in it, closed by a stdout block holding the same text line. */
  lemma FileContentRun(fl: string, t: string, al: string, so: string, name: string, v: string, dir: string)
    requires Classify(fl) == OpenFile(name) && Classify(t) == Payload && Classify(al) == AddArg(v)
    requires Classify(so) == OpenStdout
    ensures Run(Initial, [fl, t, al, so, t], dir) == Success(
      ParseState(InStdout, Substitute(t, dir), "", "", 0, [Substitute(v, dir)], [], map[name := Substitute(t, dir)], "", ""))
  {
    var s3 := ParseState(InFile, "", "", "", 0, [Substitute(v, dir)], [], map[], name, Substitute(t, dir));
    var s4 := SaveFile(s3, "").(mode := InStdout);
    var s5 := s4.(stdout := Substitute(t, dir));
    FileWithArgRun(fl, t, al, name, v, dir);
    StepOpen(s3, so, dir);
    StepPayload(s4, t, dir);
    AppendEmpty(Substitute(t, dir));
    RunTwo(s3, so, t, dir, s4, s5);
    RunAppend(Initial, [fl, t, al], [so, t], dir, s3);
    Split5(fl, t, al, so, t);
  }

  /** How the lines of `FileContentLines` are classified, and that the scanner gives them back. */
  lemma FileContentLinesFacts(a: string, t: string, dir: string)
    requires PlainName(a) && IsPlainLine(t) && t[0] != '-'
    ensures Classify(FilePrefix + a + "\n") == OpenFile(a)
    ensures Classify(t) == Payload
    ensures Classify(ArgPrefix + a + "\n") == AddArg(a) && Substitute(a, dir) == a
    ensures Classify(StdoutPrefix + "\n") == OpenStdout && Classify("\n") == Payload
    ensures PlainLines(FileContentLines(a, t))
  {
    NameLines(a);
    NamePlainLines(a);
    PayloadLine(t);
    ArgValueLine(a, dir);
    FixedLines();
    FixedPlainLines();
  }

  lemma FileContentParse(a: string, t: string, dir: string)
    requires PlainName(a) && IsPlainLine(t) && t[0] != '-'
    ensures Parse(Concat(FileContentLines(a, t)), dir)
      == Success(Plan(Substitute(t, dir), "", "", 0, [a], [], map[a := Substitute(t, dir)], dir))
  {
    var body := [FilePrefix + a + "\n", t, ArgPrefix + a + "\n", StdoutPrefix + "\n", t];
    FileContentLinesFacts(a, t, dir);
    FileContentRun(FilePrefix + a + "\n", t, ArgPrefix + a + "\n", StdoutPrefix + "\n", a, a, dir);
    SkipIdleLine(Initial, "\n", body, dir);
    Split6("\n", FilePrefix + a + "\n", t, ArgPrefix + a + "\n", StdoutPrefix + "\n", t);
    ParseOfRun(["\n"] + body, dir,
      ParseState(InStdout, Substitute(t, dir), "", "", 0, [a], [], map[a := Substitute(t, dir)], "", ""));
  }
}
