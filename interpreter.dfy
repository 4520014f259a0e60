/**
 * `prepareScheme` in the source's own shape: the local variables that the
 * loop and the `saveFile` closure update become the fields of a parser
 * object, with the four boolean mode flags kept as four fields. Every
 * method is tied to the fold of module `Scheme`.
 */
module Interpreter {
  import opened Wrappers
  import opened GoStrings
  import opened Lines
  import opened Variables
  import opened Scheme

  /** At most one of the four mode flags is set. */
  predicate AtMostOne(a: bool, b: bool, c: bool, d: bool)
  {
    (if a then 1 else 0) + (if b then 1 else 0) + (if c then 1 else 0) + (if d then 1 else 0) <= 1
  }

  /** The mode the flags select, tested in the order the payload branches test them. */
  function ModeOf(isStdout: bool, isStderr: bool, isStdin: bool, isFile: bool): Mode
  {
    if isStderr then InStderr
    else if isStdout then InStdout
    else if isFile then InFile
    else if isStdin then InStdin
    else Idle
  }

  /** With at most one flag set, the mode is `InFile` exactly when the file flag is set. */
  lemma FileModeFlag(isStdout: bool, isStderr: bool, isStdin: bool, isFile: bool)
    requires AtMostOne(isStdout, isStderr, isStdin, isFile)
    ensures ModeOf(isStdout, isStderr, isStdin, isFile) == InFile <==> isFile
  {
  }

  class SchemeParser {
    const dir: string
    var isStdout: bool
    var isStderr: bool
    var isStdin: bool
    var isFile: bool
    var stdout: string
    var stderr: string
    var stdin: string
    var returnCode: int
    var args: seq<string>
    var env: seq<string>
    var files: map<string, string>
    var currentFileName: string
    var currentFile: string

    ghost predicate Valid()
      reads this
    {
      AtMostOne(isStdout, isStderr, isStdin, isFile)
    }

    /** The parser's state as the fold sees it. */
    ghost function State(): ParseState
      reads this
    {
      ParseState(ModeOf(isStdout, isStderr, isStdin, isFile), stdout, stderr, stdin,
        returnCode, args, env, files, currentFileName, currentFile)
    }

    constructor (dir: string)
      ensures Valid() && State() == Initial && this.dir == dir
      ensures !isStdout && !isStderr && !isStdin && !isFile
    {
      this.dir := dir;
      isStdout, isStderr, isStdin, isFile := false, false, false, false;
      stdout, stderr, stdin := "", "", "";
      returnCode := 0;
      args, env := [], [];
      files := map[];
      currentFileName, currentFile := "", "";
    }

    /** The `saveFile` closure. */
    method SaveFile(name: string)
      requires Valid()
      modifies this`files, this`currentFileName, this`currentFile
      ensures Valid()
      ensures State() == Scheme.SaveFile(old(State()), name)
    {
      if isFile {
        files := files[currentFileName := currentFile];
      }
      currentFileName := name;
      currentFile := "";
    }

    /**
     * The common tail of the four block directives: `saveFile(name)`, then
     * the flag of block `m` is raised and the other three are lowered.
     */
    method Enter(m: Mode, name: string)
      requires Valid() && m != Idle
      modifies this
      ensures Valid()
      ensures State() == Scheme.SaveFile(old(State()), name).(mode := m)
      ensures isStderr == (m == InStderr) && isStdout == (m == InStdout)
      ensures isFile == (m == InFile) && isStdin == (m == InStdin)
    {
      SaveFile(name);
      isFile, isStderr, isStdin, isStdout := m == InFile, m == InStderr, m == InStdin, m == InStdout;
    }

    /** A line that is no directive goes to the open block, or nowhere. */
    method AppendPayload(line: string)
      requires Valid() && Classify(line) == Payload
      modifies this
      ensures Valid()
      ensures isFile == old(isFile) && isStderr == old(isStderr) && isStdin == old(isStdin) && isStdout == old(isStdout)
      ensures Step(old(State()), line, dir) == Success(State())
    {
      if isStderr {
        stderr := stderr + Substitute(line, dir);
      } else if isStdout {
        stdout := stdout + Substitute(line, dir);
      } else if isFile {
        currentFile := currentFile + Substitute(line, dir);
      } else if isStdin {
        stdin := stdin + line;
      }
    }

    /**
     * One pass of the loop body: the prefix tests (`Classify`), then the
     * branch they select. A `Some` result is the `t.Fatalf` that ends the
     * test; the fields are then of no further interest.
     */
    method ProcessLine(line: string) returns (err: Option<SchemeError>)
      requires Valid()
      modifies this
      ensures Valid()
      ensures Step(old(State()), line, dir) == if err.None? then Success(State()) else Failure(err.value)
      ensures Classify(line).OpenStderr? ==> !isFile && isStderr && !isStdin && !isStdout
      ensures Classify(line).OpenStdout? ==> !isFile && !isStderr && !isStdin && isStdout
      ensures Classify(line).OpenFile? ==> isFile && !isStderr && !isStdin && !isStdout
      ensures Classify(line).OpenStdin? ==> !isFile && !isStderr && isStdin && !isStdout
      ensures !OpensBlock(Classify(line)) ==>
        isFile == old(isFile) && isStderr == old(isStderr) && isStdin == old(isStdin) && isStdout == old(isStdout)
    {
      err := None;
      match Classify(line)
      case OpenStderr =>
        Enter(InStderr, "");
      case OpenStdout =>
        Enter(InStdout, "");
      case OpenFile(fileName) =>
        Enter(InFile, fileName);
      case OpenStdin =>
        Enter(InStdin, "");
      case SetReturnCode(rtCodeText) =>
        var code := Atoi(rtCodeText);
        if code.None? {
          return Some(BadReturnCode(rtCodeText));
        }
        returnCode := code.value;
      case AddArg(arg) =>
        args := args + [Substitute(arg, dir)];
      case AddEnv(entry) =>
        var kv := Substitute(entry, dir);
        if '=' !in kv {
          return Some(MalformedEnv(kv));
        }
        env := env + [kv];
      case Payload =>
        AppendPayload(line);
    }
  }

  /**
   * `prepareScheme` up to the writing of the files: split the scheme,
   * feed every line to a fresh parser, stop at the first fatal error,
   * store a file block still open, and return the parsed scheme.
   */
  method PrepareScheme(scheme: string, dir: string) returns (r: Result<Plan, SchemeError>)
    ensures r == Parse(scheme, dir)
  {
    var lines := ScanLines(scheme);
    var p := new SchemeParser(dir);
    var i := 0;
    while i < |lines|
      invariant 0 <= i <= |lines|
      invariant p.Valid() && p.dir == dir
      invariant Run(Initial, lines, dir) == Run(p.State(), lines[i..], dir)
    {
      ghost var before := p.State();
      var err := p.ProcessLine(lines[i]);
      assert lines[i..][0] == lines[i];
      if err.Some? {
        RunAbort(before, lines[i..], dir, err.value);
        return Failure(err.value);
      }
      RunStep(before, lines[i..], dir, p.State());
      assert lines[i..][1..] == lines[i + 1..];
      i := i + 1;
    }
    assert lines[i..] == [];
    FileModeFlag(p.isStdout, p.isStderr, p.isStdin, p.isFile);
    if p.isFile {
      p.SaveFile("");
    }
    r := Success(Plan(p.stdout, p.stderr, p.stdin, p.returnCode, p.args, p.env, p.files, dir));
  }
}
