/**
 * What a parsed scheme holds, stated line by line and independently of the
 * fold in module `Scheme`: which directive a line is, where each payload
 * line ends up, which line aborts the parse, and what every file, argument,
 * environment entry and the return code come out as.
 */
module SchemeProperties {
  import opened Wrappers
  import opened GoStrings
  import opened Lines
  import opened Variables
  import opened Scheme
  import opened Seqs

  // ---------------------------------------------------------------------
  // Recognising directives
  // ---------------------------------------------------------------------

  /** Two prefixes that differ at index 2 or 5 never start the same line. */
  lemma PrefixExcludes(line: string, p: string, q: string)
    requires |p| > 5 && |q| > 5 && (p[2] != q[2] || p[5] != q[5])
    ensures HasPrefix(line, p) ==> !HasPrefix(line, q)
  {
    if HasPrefix(line, p) {
      assert line[2] == line[..|p|][2] == p[2];
      assert line[5] == line[..|p|][5] == p[5];
      if |q| <= |line| {
        assert line[..|q|][2] == line[2] && line[..|q|][5] == line[5];
      }
    }
  }

  /**
   * No line starts with two of the seven prefixes, so the order in which
   * the loop tests them decides nothing: a line is a given directive
   * exactly when it starts with that directive's prefix, and payload
   * exactly when it starts with none of them.
   */
  lemma DirectivesExclusive(line: string)
    ensures Classify(line).OpenStderr? <==> HasPrefix(line, StderrPrefix)
    ensures Classify(line).OpenStdout? <==> HasPrefix(line, StdoutPrefix)
    ensures Classify(line).OpenFile? <==> HasPrefix(line, FilePrefix)
    ensures Classify(line).OpenStdin? <==> HasPrefix(line, StdinPrefix)
    ensures Classify(line).SetReturnCode? <==> HasPrefix(line, ReturnCodePrefix)
    ensures Classify(line).AddArg? <==> HasPrefix(line, ArgPrefix)
    ensures Classify(line).AddEnv? <==> HasPrefix(line, EnvPrefix)
    ensures Classify(line) == Payload <==> forall p | p in Prefixes :: !HasPrefix(line, p)
  {
    PrefixExcludes(line, StderrPrefix, StdoutPrefix);
    PrefixExcludes(line, StderrPrefix, FilePrefix);
    PrefixExcludes(line, StderrPrefix, StdinPrefix);
    PrefixExcludes(line, StderrPrefix, ReturnCodePrefix);
    PrefixExcludes(line, StderrPrefix, ArgPrefix);
    PrefixExcludes(line, StderrPrefix, EnvPrefix);
    PrefixExcludes(line, StdoutPrefix, FilePrefix);
    PrefixExcludes(line, StdoutPrefix, StdinPrefix);
    PrefixExcludes(line, StdoutPrefix, ReturnCodePrefix);
    PrefixExcludes(line, StdoutPrefix, ArgPrefix);
    PrefixExcludes(line, StdoutPrefix, EnvPrefix);
    PrefixExcludes(line, FilePrefix, StdinPrefix);
    PrefixExcludes(line, FilePrefix, ReturnCodePrefix);
    PrefixExcludes(line, FilePrefix, ArgPrefix);
    PrefixExcludes(line, FilePrefix, EnvPrefix);
    PrefixExcludes(line, StdinPrefix, ReturnCodePrefix);
    PrefixExcludes(line, StdinPrefix, ArgPrefix);
    PrefixExcludes(line, StdinPrefix, EnvPrefix);
    PrefixExcludes(line, ReturnCodePrefix, ArgPrefix);
    PrefixExcludes(line, ReturnCodePrefix, EnvPrefix);
    PrefixExcludes(line, ArgPrefix, EnvPrefix);
  }

  /** The block a block directive opens. */
  function Opened(d: Directive): (m: Mode)
    requires OpensBlock(d)
    ensures m != Idle
  {
    match d
    case OpenStderr => InStderr
    case OpenStdout => InStdout
    case OpenFile(_) => InFile
    case OpenStdin => InStdin
  }

  lemma UnionAssoc<K, V>(a: map<K, V>, b: map<K, V>, c: map<K, V>)
    ensures a + b + c == a + (b + c)
  {
  }

  // ---------------------------------------------------------------------
  // Aborts
  // ---------------------------------------------------------------------

  /** The error of the first line that raises one, if any. */
  function FirstError(lines: seq<string>, dir: string): Option<SchemeError>
  {
    if lines == [] then None
    else if LineError(lines[0], dir).Some? then LineError(lines[0], dir)
    else FirstError(lines[1..], dir)
  }

  /**
   * The loop aborts exactly when some line raises an error, with the error
   * of the first such line, whatever the state it starts from.
   */
  lemma {:induction false} RunError(st: ParseState, lines: seq<string>, dir: string)
    ensures Run(st, lines, dir).Failure? <==> FirstError(lines, dir).Some?
    ensures Run(st, lines, dir).Failure? ==> Run(st, lines, dir).error == FirstError(lines, dir).value
    decreases |lines|
  {
    if lines != [] {
      var s := Step(st, lines[0], dir);
      if s.Success? {
        RunError(s.value, lines[1..], dir);
      }
    }
  }

  /** `FirstError` finds the erring line of least index. */
  lemma {:induction false} FirstErrorAt(lines: seq<string>, dir: string, k: nat)
    requires k < |lines| && LineError(lines[k], dir).Some?
    requires forall j :: 0 <= j < k ==> LineError(lines[j], dir).None?
    ensures FirstError(lines, dir) == LineError(lines[k], dir)
    decreases k
  {
    if k > 0 {
      assert LineError(lines[0], dir).None?;
      assert lines[1..][k - 1] == lines[k];
      forall j | 0 <= j < k - 1
        ensures LineError(lines[1..][j], dir).None?
      {
        assert lines[1..][j] == lines[j + 1];
      }
      FirstErrorAt(lines[1..], dir, k - 1);
    }
  }

  /** Without an erring line there is no abort. */
  lemma {:induction false} NoFirstError(lines: seq<string>, dir: string)
    requires forall j :: 0 <= j < |lines| ==> LineError(lines[j], dir).None?
    ensures FirstError(lines, dir) == None
    decreases |lines|
  {
    if lines != [] {
      assert LineError(lines[0], dir).None?;
      forall j | 0 <= j < |lines| - 1
        ensures LineError(lines[1..][j], dir).None?
      {
        assert lines[1..][j] == lines[j + 1];
      }
      NoFirstError(lines[1..], dir);
    }
  }

  // ---------------------------------------------------------------------
  // Output blocks
  // ---------------------------------------------------------------------

  /** What a payload line contributes to block `target`: stdin keeps it verbatim. */
  function Emit(line: string, target: Mode, dir: string): string
  {
    if target == InStdin then line else Substitute(line, dir)
  }

  /** The open block after `line`. */
  function NextMode(line: string, m: Mode): Mode
  {
    var d := Classify(line);
    if OpensBlock(d) then Opened(d) else m
  }

  /** What `line` appends to block `target` when the open block is `m`. */
  function Routed(line: string, m: Mode, target: Mode, dir: string): string
  {
    if Classify(line) == Payload && m == target then Emit(line, target, dir) else ""
  }

  /**
   * The text that block `target` collects from `lines` when the open block
   * is `m` at their start: the payload lines met while `target` is open.
   */
  function BlockText(lines: seq<string>, m: Mode, target: Mode, dir: string): string
  {
    if lines == [] then ""
    else Routed(lines[0], m, target, dir) + BlockText(lines[1..], NextMode(lines[0], m), target, dir)
  }

  lemma StepStreams(st: ParseState, line: string, dir: string)
    requires Step(st, line, dir).Success?
    ensures Step(st, line, dir).value.mode == NextMode(line, st.mode)
    ensures Step(st, line, dir).value.stdout == st.stdout + Routed(line, st.mode, InStdout, dir)
    ensures Step(st, line, dir).value.stderr == st.stderr + Routed(line, st.mode, InStderr, dir)
    ensures Step(st, line, dir).value.stdin == st.stdin + Routed(line, st.mode, InStdin, dir)
  {
  }

  /** The three streams grow by exactly the payload routed to them. */
  lemma {:induction false} RunStreams(st: ParseState, lines: seq<string>, dir: string)
    requires Run(st, lines, dir).Success?
    ensures Run(st, lines, dir).value.stdout == st.stdout + BlockText(lines, st.mode, InStdout, dir)
    ensures Run(st, lines, dir).value.stderr == st.stderr + BlockText(lines, st.mode, InStderr, dir)
    ensures Run(st, lines, dir).value.stdin == st.stdin + BlockText(lines, st.mode, InStdin, dir)
    decreases |lines|
  {
    if lines != [] {
      var line, rest := lines[0], lines[1..];
      var next := Step(st, line, dir).value;
      RunStreams(next, rest, dir);
      StepStreams(st, line, dir);
      AppendAssoc(st.stdout, Routed(line, st.mode, InStdout, dir), BlockText(rest, next.mode, InStdout, dir));
      AppendAssoc(st.stderr, Routed(line, st.mode, InStderr, dir), BlockText(rest, next.mode, InStderr, dir));
      AppendAssoc(st.stdin, Routed(line, st.mode, InStdin, dir), BlockText(rest, next.mode, InStdin, dir));
    }
  }

  /** The stdin block never has `{dir}` replaced: it does not depend on the directory. */
  lemma {:induction false} StdinIgnoresDir(lines: seq<string>, m: Mode, dir1: string, dir2: string)
    ensures BlockText(lines, m, InStdin, dir1) == BlockText(lines, m, InStdin, dir2)
    decreases |lines|
  {
    if lines != [] {
      StdinIgnoresDir(lines[1..], NextMode(lines[0], m), dir1, dir2);
    }
  }

  /** Lines that are all payload. */
  predicate AllPayload(lines: seq<string>)
  {
    forall k :: 0 <= k < |lines| ==> Classify(lines[k]) == Payload
  }

  /** Lines as the splitter yields them. */
  predicate AllLines(lines: seq<string>)
  {
    forall k :: 0 <= k < |lines| ==> IsLine(lines[k])
  }

  /** An open stdin block collects the raw text of its payload lines. */
  lemma {:induction false} StdinBlockVerbatim(lines: seq<string>, dir: string)
    requires AllPayload(lines)
    ensures BlockText(lines, InStdin, InStdin, dir) == Concat(lines)
    decreases |lines|
  {
    if lines != [] {
      assert Classify(lines[0]) == Payload;
      assert AllPayload(lines[1..]) by {
        forall k | 0 <= k < |lines| - 1 ensures Classify(lines[1..][k]) == Payload {
          assert lines[1..][k] == lines[k + 1];
        }
      }
      StdinBlockVerbatim(lines[1..], dir);
    }
  }

  /**
   * Substituting the lines one at a time, as the loop does, gives the same
   * text as substituting the whole block at once.
   */
  lemma {:induction false} SubstituteLines(lines: seq<string>, dir: string)
    requires AllLines(lines)
    ensures Concat(MapSubstitute(lines, dir)) == Substitute(Concat(lines), dir)
    decreases |lines|
  {
    if lines != [] {
      assert IsLine(lines[0]);
      assert AllLines(lines[1..]) by {
        forall k | 0 <= k < |lines| - 1 ensures IsLine(lines[1..][k]) {
          assert lines[1..][k] == lines[k + 1];
        }
      }
      SubstituteLines(lines[1..], dir);
      SubstituteAppendAfterNewline(lines[0], Concat(lines[1..]), dir);
      ConcatCons(Substitute(lines[0], dir), MapSubstitute(lines[1..], dir));
    }
  }

  /** Every line substituted. */
  function MapSubstitute(lines: seq<string>, dir: string): (r: seq<string>)
    ensures |r| == |lines|
  {
    if lines == [] then [] else [Substitute(lines[0], dir)] + MapSubstitute(lines[1..], dir)
  }

  /** An open stdout (or stderr) block collects its payload with `{dir}` replaced. */
  lemma {:induction false} OutputBlockSubstituted(lines: seq<string>, m: Mode, dir: string)
    requires m == InStdout || m == InStderr
    requires AllPayload(lines) && AllLines(lines)
    ensures BlockText(lines, m, m, dir) == Substitute(Concat(lines), dir)
  {
    OutputBlockLines(lines, m, dir);
    SubstituteLines(lines, dir);
  }

  lemma {:induction false} OutputBlockLines(lines: seq<string>, m: Mode, dir: string)
    requires m == InStdout || m == InStderr
    requires AllPayload(lines)
    ensures BlockText(lines, m, m, dir) == Concat(MapSubstitute(lines, dir))
    decreases |lines|
  {
    if lines != [] {
      assert Classify(lines[0]) == Payload;
      assert AllPayload(lines[1..]) by {
        forall k | 0 <= k < |lines| - 1 ensures Classify(lines[1..][k]) == Payload {
          assert lines[1..][k] == lines[k + 1];
        }
      }
      OutputBlockLines(lines[1..], m, dir);
      ConcatCons(Substitute(lines[0], dir), MapSubstitute(lines[1..], dir));
    }
  }

  // ---------------------------------------------------------------------
  // Files
  // ---------------------------------------------------------------------

  /**
   * The content of a file whose block starts at `lines`: the payload lines,
   * with `{dir}` replaced, up to the next block directive; a return code,
   * argument or environment directive in between does not end the block.
   */
  function FileText(lines: seq<string>, dir: string): string
  {
    if lines == [] then ""
    else
      var d := Classify(lines[0]);
      if OpensBlock(d) then ""
      else if d == Payload then Substitute(lines[0], dir) + FileText(lines[1..], dir)
      else FileText(lines[1..], dir)
  }

  /** The file the first of `lines` declares, with the block after it, if it is a `--file:` line. */
  function Declared(lines: seq<string>, dir: string): map<string, string>
    requires lines != []
  {
    match Classify(lines[0])
    case OpenFile(name) => map[name := FileText(lines[1..], dir)]
    case _ => map[]
  }

  /**
   * The files that `lines` declare: every `--file:` line maps its name to
   * the block that follows it, a later block of the same name replacing an
   * earlier one.
   */
  function FilesRef(lines: seq<string>, dir: string): map<string, string>
  {
    if lines == [] then map[] else Declared(lines, dir) + FilesRef(lines[1..], dir)
  }

  /** The files once an open block, extended by `extra`, is stored. */
  function PendingFiles(st: ParseState, extra: string): map<string, string>
  {
    if st.mode == InFile then st.files[st.fileName := st.fileContent + extra] else st.files
  }

  /** A block directive stores the pending file; a `--file:` line starts a new one. */
  lemma StepFilesOpen(st: ParseState, line: string, rest: string, dir: string)
    requires OpensBlock(Classify(line))
    ensures Step(st, line, dir).Success?
    ensures PendingFiles(Step(st, line, dir).value, rest)
      == if Classify(line).OpenFile? then FlushedFiles(st)[Classify(line).name := rest] else FlushedFiles(st)
  {
    assert st.fileContent + "" == st.fileContent;
    if Classify(line).OpenFile? {
      assert "" + rest == rest;
    }
  }

  /** A payload line adds its text to the pending file, if a file block is open. */
  lemma StepFilesPayload(st: ParseState, line: string, rest: string, dir: string)
    requires Classify(line) == Payload
    ensures Step(st, line, dir).Success?
    ensures PendingFiles(Step(st, line, dir).value, rest) == PendingFiles(st, Substitute(line, dir) + rest)
  {
    if st.mode == InFile {
      assert st.fileContent + Substitute(line, dir) + rest == st.fileContent + (Substitute(line, dir) + rest);
    }
  }

  /** A `--return-code:`, `--arg:` or `--env:` line leaves the pending file alone. */
  lemma StepFilesOther(st: ParseState, line: string, rest: string, dir: string)
    requires !OpensBlock(Classify(line)) && Classify(line) != Payload && Step(st, line, dir).Success?
    ensures PendingFiles(Step(st, line, dir).value, rest) == PendingFiles(st, rest)
  {
  }

  /** One line moves its share of the pending file into the stored files. */
  lemma StepFiles(st: ParseState, lines: seq<string>, dir: string)
    requires lines != [] && Step(st, lines[0], dir).Success?
    ensures PendingFiles(Step(st, lines[0], dir).value, FileText(lines[1..], dir))
      == PendingFiles(st, FileText(lines, dir)) + Declared(lines, dir)
  {
    var line, rest := lines[0], FileText(lines[1..], dir);
    var d := Classify(line);
    if OpensBlock(d) {
      StepFilesOpen(st, line, rest, dir);
      assert FileText(lines, dir) == "" && st.fileContent + "" == st.fileContent;
      assert PendingFiles(st, "") == FlushedFiles(st);
      if d.OpenFile? {
        assert FlushedFiles(st)[d.name := rest] == FlushedFiles(st) + map[d.name := rest];
      } else {
        assert FlushedFiles(st) + map[] == FlushedFiles(st);
      }
    } else if d == Payload {
      StepFilesPayload(st, line, rest, dir);
      assert PendingFiles(st, FileText(lines, dir)) + map[] == PendingFiles(st, FileText(lines, dir));
    } else {
      StepFilesOther(st, line, rest, dir);
      assert PendingFiles(st, FileText(lines, dir)) + map[] == PendingFiles(st, FileText(lines, dir));
    }
  }

  /** The stored files after the loop are those before it, the open block run to its end, and those the lines declare. */
  lemma {:induction false} RunFiles(st: ParseState, lines: seq<string>, dir: string)
    requires Run(st, lines, dir).Success?
    ensures FlushedFiles(Run(st, lines, dir).value) == PendingFiles(st, FileText(lines, dir)) + FilesRef(lines, dir)
    decreases |lines|
  {
    if lines == [] {
      assert st.fileContent + "" == st.fileContent;
    } else {
      var next := Step(st, lines[0], dir).value;
      RunFiles(next, lines[1..], dir);
      StepFiles(st, lines, dir);
      UnionAssoc(PendingFiles(st, FileText(lines, dir)), Declared(lines, dir), FilesRef(lines[1..], dir));
    }
  }

  /** A name is a file of the scheme exactly when some `--file:` line gives it. */
  lemma {:induction false} FilesRefKeys(lines: seq<string>, dir: string, name: string)
    ensures name in FilesRef(lines, dir) <==> exists k :: 0 <= k < |lines| && Classify(lines[k]) == OpenFile(name)
    decreases |lines|
  {
    if lines != [] {
      FilesRefKeys(lines[1..], dir, name);
      if name in FilesRef(lines[1..], dir) {
        var k :| 0 <= k < |lines[1..]| && Classify(lines[1..][k]) == OpenFile(name);
        assert Classify(lines[k + 1]) == OpenFile(name);
      }
      if exists k :: 0 <= k < |lines| && Classify(lines[k]) == OpenFile(name) {
        var k :| 0 <= k < |lines| && Classify(lines[k]) == OpenFile(name);
        if k > 0 {
          assert Classify(lines[1..][k - 1]) == OpenFile(name);
        }
      }
    }
  }

  /** The last `--file:` line of a name decides that file's content. */
  lemma {:induction false} FilesRefLastOpener(lines: seq<string>, dir: string, k: nat)
    requires k < |lines| && Classify(lines[k]).OpenFile?
    requires forall j :: k < j < |lines| ==> Classify(lines[j]) != Classify(lines[k])
    ensures Classify(lines[k]).name in FilesRef(lines, dir)
    ensures FilesRef(lines, dir)[Classify(lines[k]).name] == FileText(lines[k + 1..], dir)
    decreases k
  {
    var name := Classify(lines[k]).name;
    var rest := lines[1..];
    if k == 0 {
      forall j | 0 <= j < |rest|
        ensures Classify(rest[j]) != OpenFile(name)
      {
        assert rest[j] == lines[j + 1];
      }
      FilesRefKeys(rest, dir, name);
    } else {
      assert rest[k - 1] == lines[k];
      forall j | k - 1 < j < |rest|
        ensures Classify(rest[j]) != Classify(rest[k - 1])
      {
        assert rest[j] == lines[j + 1];
      }
      FilesRefLastOpener(rest, dir, k - 1);
      assert rest[k..] == lines[k + 1..];
    }
  }

  /** A file block of payload lines holds their text with `{dir}` replaced. */
  lemma {:induction false} FileBlockSubstituted(lines: seq<string>, dir: string)
    requires AllPayload(lines) && AllLines(lines)
    ensures FileText(lines, dir) == Substitute(Concat(lines), dir)
  {
    FileTextLines(lines, dir);
    SubstituteLines(lines, dir);
  }

  lemma {:induction false} FileTextLines(lines: seq<string>, dir: string)
    requires AllPayload(lines)
    ensures FileText(lines, dir) == Concat(MapSubstitute(lines, dir))
    decreases |lines|
  {
    if lines != [] {
      assert Classify(lines[0]) == Payload;
      assert AllPayload(lines[1..]) by {
        forall k | 0 <= k < |lines| - 1 ensures Classify(lines[1..][k]) == Payload {
          assert lines[1..][k] == lines[k + 1];
        }
      }
      FileTextLines(lines[1..], dir);
      ConcatCons(Substitute(lines[0], dir), MapSubstitute(lines[1..], dir));
    }
  }

  // ---------------------------------------------------------------------
  // Arguments, environment, return code
  // ---------------------------------------------------------------------

  /** The argument a line adds: the trimmed, substituted value of an `--arg:` line. */
  function ArgOf(line: string, dir: string): seq<string>
  {
    match Classify(line) case AddArg(v) => [Substitute(v, dir)] case _ => []
  }

  /** The entry a line adds: the trimmed, substituted text of an `--env:` line. */
  function EnvOf(line: string, dir: string): seq<string>
  {
    match Classify(line) case AddEnv(e) => [Substitute(e, dir)] case _ => []
  }

  /** The expected code after a line: the value of a `--return-code:` line that parses. */
  function CodeAfter(line: string, code: int): int
  {
    match Classify(line)
    case SetReturnCode(text) => if Atoi(text).Some? then Atoi(text).value else code
    case _ => code
  }

  /** The `--arg:` values in the order of their lines. */
  function ArgsRef(lines: seq<string>, dir: string): seq<string>
  {
    if lines == [] then [] else ArgOf(lines[0], dir) + ArgsRef(lines[1..], dir)
  }

  /** The `--env:` entries in the order of their lines. */
  function EnvRef(lines: seq<string>, dir: string): seq<string>
  {
    if lines == [] then [] else EnvOf(lines[0], dir) + EnvRef(lines[1..], dir)
  }

  /** The value of the last `--return-code:` line that parses, or `default`. */
  function LastReturnCode(lines: seq<string>, default: int): int
  {
    if lines == [] then default else LastReturnCode(lines[1..], CodeAfter(lines[0], default))
  }

  lemma StepScalars(st: ParseState, line: string, dir: string)
    requires Step(st, line, dir).Success?
    ensures Step(st, line, dir).value.args == st.args + ArgOf(line, dir)
    ensures Step(st, line, dir).value.env == st.env + EnvOf(line, dir)
    ensures Step(st, line, dir).value.returnCode == CodeAfter(line, st.returnCode)
    ensures forall e | e in EnvOf(line, dir) :: '=' in e
  {
  }

  /** The arguments after the loop: those before it, then the lines' `--arg:` values in order. */
  lemma {:induction false} RunArgs(st: ParseState, lines: seq<string>, dir: string)
    requires Run(st, lines, dir).Success?
    ensures Run(st, lines, dir).value.args == st.args + ArgsRef(lines, dir)
    decreases |lines|
  {
    if lines != [] {
      var next := Step(st, lines[0], dir).value;
      RunArgs(next, lines[1..], dir);
      StepScalars(st, lines[0], dir);
      AppendAssoc(st.args, ArgOf(lines[0], dir), ArgsRef(lines[1..], dir));
    }
  }

  /** The environment after the loop: the entries before it, then the lines' `--env:` entries in order. */
  lemma {:induction false} RunEnv(st: ParseState, lines: seq<string>, dir: string)
    requires Run(st, lines, dir).Success?
    ensures Run(st, lines, dir).value.env == st.env + EnvRef(lines, dir)
    decreases |lines|
  {
    if lines != [] {
      var next := Step(st, lines[0], dir).value;
      RunEnv(next, lines[1..], dir);
      StepScalars(st, lines[0], dir);
      AppendAssoc(st.env, EnvOf(lines[0], dir), EnvRef(lines[1..], dir));
    }
  }

  /** The expected code after the loop: the last `--return-code:` value, or the code before it. */
  lemma {:induction false} RunReturnCode(st: ParseState, lines: seq<string>, dir: string)
    requires Run(st, lines, dir).Success?
    ensures Run(st, lines, dir).value.returnCode == LastReturnCode(lines, st.returnCode)
    decreases |lines|
  {
    if lines != [] {
      var next := Step(st, lines[0], dir).value;
      RunReturnCode(next, lines[1..], dir);
      StepScalars(st, lines[0], dir);
    }
  }

  /** Every environment entry of a scheme that parses is a `KEY=VALUE` pair. */
  lemma {:induction false} RunEnvWellFormed(st: ParseState, lines: seq<string>, dir: string)
    requires Run(st, lines, dir).Success?
    ensures forall e | e in EnvRef(lines, dir) :: '=' in e
    decreases |lines|
  {
    if lines != [] {
      var next := Step(st, lines[0], dir).value;
      RunEnvWellFormed(next, lines[1..], dir);
      StepScalars(st, lines[0], dir);
    }
  }

  /** No `--return-code:` line after index `k` of `lines` means none after `k - 1` of its tail. */
  lemma NoReturnCodeInTail(lines: seq<string>, k: int)
    requires lines != [] && -1 <= k
    requires forall j :: k < j < |lines| ==> !Classify(lines[j]).SetReturnCode?
    ensures forall j :: 0 <= j && k - 1 < j < |lines| - 1 ==> !Classify(lines[1..][j]).SetReturnCode?
  {
    forall j | 0 <= j && k - 1 < j < |lines| - 1
      ensures !Classify(lines[1..][j]).SetReturnCode?
    {
      assert lines[1..][j] == lines[j + 1];
    }
  }

  /** Without a `--return-code:` line the expected code stays at its default. */
  lemma {:induction false} ReturnCodeDefault(lines: seq<string>, default: int)
    requires forall j :: 0 <= j < |lines| ==> !Classify(lines[j]).SetReturnCode?
    ensures LastReturnCode(lines, default) == default
    decreases |lines|
  {
    if lines != [] {
      NoReturnCodeInTail(lines, -1);
      ReturnCodeDefault(lines[1..], default);
    }
  }

  /** A `--return-code:` line that parses sets the expected code to its value. */
  lemma CodeAfterReturnCode(line: string, code: int)
    requires Classify(line).SetReturnCode? && Atoi(Classify(line).text).Some?
    ensures CodeAfter(line, code) == Atoi(Classify(line).text).value
  {
  }

  /** The last `--return-code:` line wins. */
  lemma {:induction false} ReturnCodeLastWins(lines: seq<string>, default: int, k: nat)
    requires k < |lines| && Classify(lines[k]).SetReturnCode? && Atoi(Classify(lines[k]).text).Some?
    requires forall j :: k < j < |lines| ==> !Classify(lines[j]).SetReturnCode?
    ensures LastReturnCode(lines, default) == Atoi(Classify(lines[k]).text).value
    decreases k
  {
    var rest := lines[1..];
    NoReturnCodeInTail(lines, k);
    if k == 0 {
      CodeAfterReturnCode(lines[0], default);
      ReturnCodeDefault(rest, CodeAfter(lines[0], default));
    } else {
      assert rest[k - 1] == lines[k];
      ReturnCodeLastWins(rest, CodeAfter(lines[0], default), k - 1);
    }
  }

  // ---------------------------------------------------------------------
  // The whole scheme
  // ---------------------------------------------------------------------

  /** `prepareScheme` aborts exactly on the first erring line of the scheme. */
  lemma ParseError(scheme: string, dir: string)
    ensures Parse(scheme, dir).Failure? <==> FirstError(ToLines(scheme), dir).Some?
    ensures Parse(scheme, dir).Failure? ==> Parse(scheme, dir).error == FirstError(ToLines(scheme), dir).value
  {
    RunError(Initial, ToLines(scheme), dir);
  }

  /**
   * A scheme that parses yields, from its lines: the three blocks, the
   * arguments and environment entries in order (each entry a `KEY=VALUE`),
   * the last return code or 0, and the declared files.
   */
  lemma ParseContents(scheme: string, dir: string)
    requires Parse(scheme, dir).Success?
    ensures Parse(scheme, dir).value.stdout == BlockText(ToLines(scheme), Idle, InStdout, dir)
    ensures Parse(scheme, dir).value.stderr == BlockText(ToLines(scheme), Idle, InStderr, dir)
    ensures Parse(scheme, dir).value.stdin == BlockText(ToLines(scheme), Idle, InStdin, dir)
    ensures Parse(scheme, dir).value.args == ArgsRef(ToLines(scheme), dir)
    ensures Parse(scheme, dir).value.env == EnvRef(ToLines(scheme), dir)
    ensures forall e | e in Parse(scheme, dir).value.env :: '=' in e
    ensures Parse(scheme, dir).value.returnCode == LastReturnCode(ToLines(scheme), 0)
    ensures Parse(scheme, dir).value.files == FilesRef(ToLines(scheme), dir)
    ensures Parse(scheme, dir).value.dir == dir
  {
    var lines := ToLines(scheme);
    RunStreams(Initial, lines, dir);
    RunArgs(Initial, lines, dir);
    RunEnv(Initial, lines, dir);
    RunReturnCode(Initial, lines, dir);
    RunEnvWellFormed(Initial, lines, dir);
    RunFiles(Initial, lines, dir);
    assert map[] + FilesRef(lines, dir) == FilesRef(lines, dir);
  }
}
