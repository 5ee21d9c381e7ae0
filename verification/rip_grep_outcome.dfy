/**
 * The result interpreter of the ripgrep wrapper: the body of the callback
 * that `execFile` calls when the `rg` child process ends, which turns the
 * process outcome into a `RipGrepResult`.
 */
module RipGrepOutcome {
  import opened Wrappers
  import opened TextLines

  /**
   * The value of `err.code`: a numeric exit status, or a symbolic system
   * error code such as `ENOENT` when the process could not be started.
   */
  datatype ErrorCode = Status(n: int) | Symbol(name: string)

  /**
   * The error `execFile` hands to its callback. `code` is `None` when the
   * error has no `code` field or it is `null` (a process killed by a
   * signal); `text` is `String(err)`.
   */
  datatype ExecError = ExecError(code: Option<ErrorCode>, text: string)

  /** `RipGrepResult`; `exitCode` is `None` for `null`. */
  datatype RipGrepResult = RipGrepResult(
    success: bool,
    lines: seq<string>,
    exitCode: Option<ErrorCode>,
    stderr: string)

  /** ripgrep's exit status for "the search ran and found nothing". */
  const NoMatchStatus: ErrorCode := Status(1)

  /** The result reported for "no matches". */
  const NoMatch: RipGrepResult := RipGrepResult(true, [], Some(NoMatchStatus), "")

  /** What the result promises every caller: success carries no error text, and lines are non-empty and break-free. */
  predicate WellFormed(r: RipGrepResult) {
    && (r.success ==> r.stderr == "")
    && (forall l :: l in r.lines ==> l != "" && '\n' !in l)
  }

  /**
   * The callback body. Without an error the search succeeded; an error
   * whose code is exactly 1 is ripgrep's "no matches"; any other error,
   * including one without a code, is a failure that keeps the partial
   * output and reports the captured stderr, or the error's text when
   * stderr is empty.
   */
  function Interpret(err: Option<ExecError>, stdout: string, stderr: string): (r: RipGrepResult)
    ensures WellFormed(r)
    ensures r.success <==> (err.None? || err.value.code == Some(NoMatchStatus))
    ensures err.Some? && err.value.code == Some(NoMatchStatus) ==> r == NoMatch
    ensures r.exitCode == Some(NoMatchStatus) ==> r == NoMatch
    ensures !r.success ==> r.exitCode == err.value.code
    ensures !r.success && (stderr != "" || err.value.text != "") ==> r.stderr != ""
  {
    match err
    case Some(e) =>
      if e.code == Some(NoMatchStatus) then
        NoMatch
      else
        RipGrepResult(false, ParseLines(stdout), e.code, if stderr != "" then stderr else e.text)
    case None =>
      RipGrepResult(true, ParseLines(stdout), Some(Status(0)), "")
  }

  /** A clean exit is a success with status 0, no error text, and the parsed output. */
  lemma CleanExit(stdout: string, stderr: string)
    ensures Interpret(None, stdout, stderr) == RipGrepResult(true, ParseLines(stdout), Some(Status(0)), "")
  {
  }

  /** Exit status 1 always reports "no matches", whatever the process printed. */
  lemma NoMatchIgnoresOutput(e: ExecError, stdout: string, stderr: string)
    requires e.code == Some(NoMatchStatus)
    ensures Interpret(Some(e), stdout, stderr) == NoMatch
  {
  }

  /**
   * Any other error is a failure that carries its code (or `null`), the
   * parsed partial output, and the captured stderr or else the error text.
   */
  lemma FailureKeepsDiagnostics(e: ExecError, stdout: string, stderr: string)
    requires e.code != Some(NoMatchStatus)
    ensures var r := Interpret(Some(e), stdout, stderr);
            && !r.success
            && r.exitCode == e.code
            && r.lines == ParseLines(stdout)
            && r.stderr == (if stderr != "" then stderr else e.text)
  {
  }

  /** A successful result has status 0 or 1, and status 0 only for a run without error. */
  lemma SuccessStatus(err: Option<ExecError>, stdout: string, stderr: string)
    ensures var r := Interpret(err, stdout, stderr);
            r.success ==> (r.exitCode == Some(Status(0)) <==> err.None?)
                          && (r.exitCode == Some(Status(0)) || r.exitCode == Some(NoMatchStatus))
  {
  }

  /** A run that printed nothing but blanks reports no lines, whatever its outcome. */
  lemma BlankOutputNoLines(err: Option<ExecError>, stdout: string, stderr: string)
    requires Blank(stdout, 0, |stdout|)
    ensures Interpret(err, stdout, stderr).lines == []
  {
    ParseLinesEmpty(stdout);
  }

  /** A clean run that prints one match line. */
  lemma ScenarioOneMatch()
    ensures Interpret(None, "a:3:x\n", "")
            == RipGrepResult(true, ["a:3:x"], Some(Status(0)), "")
  {
    ParseSingleMatch();
  }

  /**
   * A bundled binary missing at its resolved path: Node reports the spawn
   * error, naming that path, with the symbolic code `ENOENT`, which the wrapper passes through as
   * the exit code; the error text becomes stderr.
   */
  lemma ScenarioMissingBinary()
    ensures Interpret(Some(ExecError(Some(Symbol("ENOENT")), "Error: spawn /opt/app/vendor/ripgrep/x64-linux/rg ENOENT")), "", "")
            == RipGrepResult(false, [], Some(Symbol("ENOENT")), "Error: spawn /opt/app/vendor/ripgrep/x64-linux/rg ENOENT")
  {
    BlankOutputNoLines(Some(ExecError(Some(Symbol("ENOENT")), "Error: spawn /opt/app/vendor/ripgrep/x64-linux/rg ENOENT")), "", "");
  }
}
