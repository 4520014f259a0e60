/**
 * The checks `Execute` makes once the command has run: the exit code
 * against the expected one, and each output stream against the expected
 * text, compared line by line.
 */
module Assertions {
  import opened Lines
  import opened Scheme
  import opened SchemeProperties

  /** `assertReturnCode`: whether the test is marked failed. */
  function ReturnCodeFailed(want: int, got: int): bool
  {
    got != want
  }

  /**
   * `assertNoDiff`: whether the test is marked failed. Both texts are split
   * by the line splitter and the two lists of lines must be equal.
   */
  function OutputDiffers(want: string, got: string): bool
  {
    ToLines(want) != ToLines(got)
  }

  /** A final newline missing from either side does not count as a difference. */
  lemma MissingFinalNewlineIgnored(want: string, got: string)
    requires want != [] && want[|want| - 1] != '\n'
    requires got == want + "\n"
    ensures !OutputDiffers(want, got) && !OutputDiffers(got, want)
  {
    ToLinesFinalNewline(want);
  }

  /** The lines of a text and of the text with its final newline supplied agree. */
  lemma ToLinesTerminated(s: string)
    ensures ToLines(Terminated(s)) == ToLines(s)
  {
    if s != [] && s[|s| - 1] != '\n' {
      ToLinesFinalNewline(s);
    }
  }

  /**
   * For texts without carriage returns the comparison is exact up to the
   * final newline: they differ exactly when they still differ once each
   * ends in a newline.
   */
  lemma OutputDiffersIff(want: string, got: string)
    requires '\r' !in want && '\r' !in got
    ensures OutputDiffers(want, got) <==> Terminated(want) != Terminated(got)
  {
    ToLinesTerminated(want);
    ToLinesTerminated(got);
    ConcatToLines(want);
    ConcatToLines(got);
  }

  /**
   * The exit-code check against a parsed scheme: the test fails exactly when
   * the command's code differs from the value of the scheme's last
   * `--return-code:` line, or from 0 when the scheme has none.
   */
  lemma ReturnCodeCheck(scheme: string, dir: string, got: int)
    requires Parse(scheme, dir).Success?
    ensures ReturnCodeFailed(Parse(scheme, dir).value.returnCode, got) <==> got != LastReturnCode(ToLines(scheme), 0)
    ensures (forall j :: 0 <= j < |ToLines(scheme)| ==> !Classify(ToLines(scheme)[j]).SetReturnCode?) ==>
      (ReturnCodeFailed(Parse(scheme, dir).value.returnCode, got) <==> got != 0)
  {
    ParseContents(scheme, dir);
    if forall j :: 0 <= j < |ToLines(scheme)| ==> !Classify(ToLines(scheme)[j]).SetReturnCode? {
      ReturnCodeDefault(ToLines(scheme), 0);
    }
  }

  /**
   * The stdout check against a parsed scheme: the test fails exactly when
   * the command's output and the payload of the scheme's stdout blocks split
   * into different lines.
   */
  lemma StdoutCheck(scheme: string, dir: string, got: string)
    requires Parse(scheme, dir).Success?
    ensures OutputDiffers(Parse(scheme, dir).value.stdout, got) <==>
      ToLines(BlockText(ToLines(scheme), Idle, InStdout, dir)) != ToLines(got)
  {
    ParseContents(scheme, dir);
  }

  /** The stderr check against a parsed scheme, alike. */
  lemma StderrCheck(scheme: string, dir: string, got: string)
    requires Parse(scheme, dir).Success?
    ensures OutputDiffers(Parse(scheme, dir).value.stderr, got) <==>
      ToLines(BlockText(ToLines(scheme), Idle, InStderr, dir)) != ToLines(got)
  {
    ParseContents(scheme, dir);
  }
}
