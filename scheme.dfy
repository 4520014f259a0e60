/**
 * The scheme interpreter of `prepareScheme`, as a pure fold over the lines
 * of the scheme. The four boolean mode flags of the source become one
 * `Mode`; the three `strings.Builder`s, the `args` and `env` slices, the
 * return code, the `files` map and the pending file (`currentFileName`,
 * `currentFile`) become fields of `ParseState`.
 */
module Scheme {
  import opened Wrappers
  import opened GoStrings
  import opened Lines
  import opened Variables
  import opened Seqs

  const FilePrefix: string := "--file:"
  const StdoutPrefix: string := "--stdout"
  const StderrPrefix: string := "--stderr"
  const StdinPrefix: string := "--stdin"
  const EnvPrefix: string := "--env:"
  const ArgPrefix: string := "--arg:"
  const ReturnCodePrefix: string := "--return-code:"

  /** The seven directive prefixes, in the order the loop tests them. */
  const Prefixes: seq<string> :=
    [StderrPrefix, StdoutPrefix, FilePrefix, StdinPrefix, ReturnCodePrefix, ArgPrefix, EnvPrefix]

  /** Which block payload lines currently go to. */
  datatype Mode = Idle | InStdout | InStderr | InStdin | InFile

  /** What a line is, decided by the first prefix it carries in the source's order. */
  datatype Directive =
    | OpenStderr
    | OpenStdout
    | OpenFile(name: string)
    | OpenStdin
    | SetReturnCode(text: string)
    | AddArg(value: string)
    | AddEnv(entry: string)
    | Payload

  /**
   * The prefix tests of the loop body, in their order: `--stderr`,
   * `--stdout`, `--file:`, `--stdin`, `--return-code:`, `--arg:`, `--env:`.
   * The text after a `--file:`, `--return-code:`, `--arg:` or `--env:`
   * prefix is trimmed of white space (which removes the line's newline).
   */
  function Classify(line: string): Directive
  {
    if HasPrefix(line, StderrPrefix) then OpenStderr
    else if HasPrefix(line, StdoutPrefix) then OpenStdout
    else if HasPrefix(line, FilePrefix) then OpenFile(TrimSpace(line[|FilePrefix|..]))
    else if HasPrefix(line, StdinPrefix) then OpenStdin
    else if HasPrefix(line, ReturnCodePrefix) then SetReturnCode(TrimSpace(line[|ReturnCodePrefix|..]))
    else if HasPrefix(line, ArgPrefix) then AddArg(TrimSpace(line[|ArgPrefix|..]))
    else if HasPrefix(line, EnvPrefix) then AddEnv(TrimSpace(line[|EnvPrefix|..]))
    else Payload
  }

  predicate OpensBlock(d: Directive)
  {
    d.OpenStderr? || d.OpenStdout? || d.OpenFile? || d.OpenStdin?
  }

  /** The two ways a scheme aborts the test (`t.Fatalf`) while it is parsed. */
  datatype SchemeError =
    | BadReturnCode(text: string)
    | MalformedEnv(entry: string)

  /** Everything `prepareScheme` keeps while it walks the lines. */
  datatype ParseState = ParseState(
    mode: Mode,
    stdout: string,
    stderr: string,
    stdin: string,
    returnCode: int,
    args: seq<string>,
    env: seq<string>,
    files: map<string, string>,
    fileName: string,
    fileContent: string)

  const Initial: ParseState := ParseState(Idle, "", "", "", 0, [], [], map[], "", "")

  /** The `files` map once the pending file, if a file block is open, is stored. */
  function FlushedFiles(st: ParseState): map<string, string>
  {
    if st.mode == InFile then st.files[st.fileName := st.fileContent] else st.files
  }

  /** The `saveFile` closure: store the open file, then start an empty pending file `name`. */
  function SaveFile(st: ParseState, name: string): (r: ParseState)
    ensures r.files == FlushedFiles(st) && r.fileName == name && r.fileContent == ""
    ensures r.mode == st.mode
  {
    st.(files := FlushedFiles(st), fileName := name, fileContent := "")
  }

  /** The error a line raises whatever the state, if any. */
  function LineError(line: string, dir: string): (r: Option<SchemeError>)
    ensures r.Some? ==> Classify(line).SetReturnCode? || Classify(line).AddEnv?
    ensures Classify(line).SetReturnCode? ==>
      (r.Some? <==> Atoi(Classify(line).text).None?) && (r.Some? ==> r.value == BadReturnCode(Classify(line).text))
    ensures r.Some? && r.value.MalformedEnv? ==> '=' !in r.value.entry
    ensures Classify(line).AddEnv? ==>
      (r.Some? <==> '=' !in Substitute(Classify(line).entry, dir))
      && (r.Some? ==> r.value == MalformedEnv(Substitute(Classify(line).entry, dir)))
  {
    match Classify(line)
    case SetReturnCode(text) => if Atoi(text).None? then Some(BadReturnCode(text)) else None
    case AddEnv(entry) =>
      var kv := Substitute(entry, dir);
      if '=' !in kv then Some(MalformedEnv(kv)) else None
    case _ => None
  }

  /** The loop body of `prepareScheme` for one line. */
  function Step(st: ParseState, line: string, dir: string): (r: Result<ParseState, SchemeError>)
    ensures r.Failure? <==> LineError(line, dir).Some?
    ensures r.Failure? ==> r.error == LineError(line, dir).value
    ensures r.Success? && Classify(line) != Payload ==>
      r.value.stdout == st.stdout && r.value.stderr == st.stderr && r.value.stdin == st.stdin
    ensures r.Success? && !OpensBlock(Classify(line)) ==>
      r.value.mode == st.mode && r.value.files == st.files && r.value.fileName == st.fileName
  {
    match Classify(line)
    case OpenStderr => Success(SaveFile(st, "").(mode := InStderr))
    case OpenStdout => Success(SaveFile(st, "").(mode := InStdout))
    case OpenFile(name) => Success(SaveFile(st, name).(mode := InFile))
    case OpenStdin => Success(SaveFile(st, "").(mode := InStdin))
    case SetReturnCode(text) =>
      (match Atoi(text)
       case None => Failure(BadReturnCode(text))
       case Some(code) => Success(st.(returnCode := code)))
    case AddArg(value) => Success(st.(args := st.args + [Substitute(value, dir)]))
    case AddEnv(entry) =>
      var kv := Substitute(entry, dir);
      if '=' !in kv then Failure(MalformedEnv(kv)) else Success(st.(env := st.env + [kv]))
    case Payload =>
      Success(match st.mode
        case InStderr => st.(stderr := st.stderr + Substitute(line, dir))
        case InStdout => st.(stdout := st.stdout + Substitute(line, dir))
        case InFile => st.(fileContent := st.fileContent + Substitute(line, dir))
        case InStdin => st.(stdin := st.stdin + line)
        case Idle => st)
  }

  /** The `for` loop over the lines, from state `st`; the first error stops it. */
  function Run(st: ParseState, lines: seq<string>, dir: string): (r: Result<ParseState, SchemeError>)
    ensures r.Success? ==> forall k | 0 <= k < |lines| :: LineError(lines[k], dir).None?
    ensures r.Failure? ==> exists k | 0 <= k < |lines| :: LineError(lines[k], dir) == Some(r.error)
    decreases |lines|
  {
    if lines == [] then Success(st)
    else
      match Step(st, lines[0], dir)
      case Failure(e) => Failure(e)
      case Success(next) => Run(next, lines[1..], dir)
  }

  /** The loop moves past a line that does not abort. */
  lemma RunStep(st: ParseState, lines: seq<string>, dir: string, next: ParseState)
    requires lines != [] && Step(st, lines[0], dir) == Success(next)
    ensures Run(st, lines, dir) == Run(next, lines[1..], dir)
  {
  }

  /** The loop moves past a first line that does not abort. */
  lemma RunCons(st: ParseState, line: string, rest: seq<string>, dir: string, next: ParseState)
    requires Step(st, line, dir) == Success(next)
    ensures Run(st, [line] + rest, dir) == Run(next, rest, dir)
  {
    HeadTail(line, rest);
  }

  /** A single line that does not abort. */
  lemma RunOne(st: ParseState, line: string, dir: string, next: ParseState)
    requires Step(st, line, dir) == Success(next)
    ensures Run(st, [line], dir) == Success(next)
  {
    RunCons(st, line, [], dir, next);
    AppendEmpty([line]);
  }

  /** Two lines, neither of which aborts. */
  lemma RunTwo(st: ParseState, l1: string, l2: string, dir: string, s1: ParseState, s2: ParseState)
    requires Step(st, l1, dir) == Success(s1) && Step(s1, l2, dir) == Success(s2)
    ensures Run(st, [l1, l2], dir) == Success(s2)
  {
    RunCons(st, l1, [l2], dir, s1);
    RunOne(s1, l2, dir, s2);
    Split2(l1, l2);
  }

  /** A loop that ends without an error did not abort at its first line. */
  lemma RunPassed(st: ParseState, lines: seq<string>, dir: string)
    requires lines != [] && Run(st, lines, dir).Success?
    ensures Step(st, lines[0], dir).Success?
  {
  }

  /** The loop over `xs + ys` runs over `xs`, then goes on over `ys` from where it stopped. */
  lemma {:induction false} RunAppend(st: ParseState, xs: seq<string>, ys: seq<string>, dir: string, mid: ParseState)
    requires Run(st, xs, dir) == Success(mid)
    ensures Run(st, xs + ys, dir) == Run(mid, ys, dir)
    decreases |xs|
  {
    if xs == [] {
      assert xs + ys == ys;
    } else {
      RunPassed(st, xs, dir);
      var next := Step(st, xs[0], dir).value;
      RunStep(st, xs, dir, next);
      RunAppend(next, xs[1..], ys, dir, mid);
      ConsAppend(xs, ys);
      RunStep(st, xs + ys, dir, next);
    }
  }

  /** The loop stops at a first line that aborts. */
  lemma RunFails(st: ParseState, line: string, rest: seq<string>, dir: string, e: SchemeError)
    requires Step(st, line, dir) == Failure(e)
    ensures Run(st, [line] + rest, dir) == Failure(e)
  {
    HeadTail(line, rest);
  }

  /** The loop stops at a line that aborts. */
  lemma RunAbort(st: ParseState, lines: seq<string>, dir: string, e: SchemeError)
    requires lines != [] && Step(st, lines[0], dir) == Failure(e)
    ensures Run(st, lines, dir) == Failure(e)
  {
  }

  /** The parsed scheme (`schemeResult`) together with the file map it writes. */
  datatype Plan = Plan(
    stdout: string,
    stderr: string,
    stdin: string,
    returnCode: int,
    args: seq<string>,
    env: seq<string>,
    files: map<string, string>,
    dir: string)

  /** After the loop: a file block still open is stored. */
  function Finish(st: ParseState, dir: string): Plan
  {
    Plan(st.stdout, st.stderr, st.stdin, st.returnCode, st.args, st.env, FlushedFiles(st), dir)
  }

  /** `prepareScheme(scheme)` with fixture directory `dir`, up to the writing of the files. */
  function Parse(scheme: string, dir: string): (r: Result<Plan, SchemeError>)
    ensures r.Success? ==> forall k | 0 <= k < |ToLines(scheme)| :: LineError(ToLines(scheme)[k], dir).None?
    ensures r.Failure? ==> exists k | 0 <= k < |ToLines(scheme)| :: LineError(ToLines(scheme)[k], dir) == Some(r.error)
    ensures r.Success? ==> r.value.dir == dir
  {
    match Run(Initial, ToLines(scheme), dir)
    case Failure(e) => Failure(e)
    case Success(st) => Success(Finish(st, dir))
  }
}
