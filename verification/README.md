# ripgrep wrapper model

A Dafny model of `src/utils/ripgrep.ts` from neovate-code. The module
wraps the `rg` (ripgrep) executable for the agent's search tools. It:

- picks the executable to run: the command the search-path lookup
  returned, whenever that is not `"rg"`, or else the copy bundled under
  `vendor/ripgrep/`, laid out per platform and architecture below an install root that depends on whether the code
  runs from sources (Bun or the test environment) or from a build;
- calls `execFile` with the caller's arguments followed by the target, a
  10 000 000-byte output buffer and a 60 000 ms timeout;
- turns the process outcome `(err, stdout, stderr)` into a
  `RipGrepResult { success, lines, exitCode, stderr }`. A clean exit is a
  success with status 0. Exit status 1 means "no matches" and is also a
  success with no lines, whatever stdout held. Any other error is a
  failure that keeps the parsed partial output. On a clean exit and on a
  failure, lines are `stdout.trim().split('\n').filter(Boolean)`.

All of this is pure logic over values, so the model is made of datatypes,
functions and lemmas:

- `wrappers.dfy` (`Wrappers`): `Option`, standing for JavaScript's
  `null` or an absent field.
- `text_lines.dfy` (`TextLines`): the line parser. It has three string
  functions, each proved against a partner:
  - `Trim` against the unique infix with only blanks outside it and no
    blank at either end (`IsTrimOf`, `TrimUnique`);
  - `Split` against `Join`, in both directions;
  - `NonEmpty` against the multiset of the input without empty lines,
    and against concatenation.
- `rip_grep_binary.dfy` (`RipGrepBinary`): `rootDir` and `ripgrepPath()`.
  Paths are sequences of segments.
- `rip_grep_outcome.dfy` (`RipGrepOutcome`): the `RipGrepResult` record and
  the `execFile` callback (`Interpret`).
- `rip_grep.dfy` (`RipGrep`): the `execFile` call that `ripGrep(args,
  target)` makes (`PlanInvocation`).

Three behaviours of the code are worth stating plainly:

- **Lines are not trimmed one by one.** Only the whole captured output is
  trimmed (`src/utils/ripgrep.ts:63`, `:71`). An inner line therefore keeps
  a trailing `\r` or leading spaces, as `ParseKeepsInnerCarriageReturn`
  shows. `ParseLinesEnds` states what does hold: the first line does not
  start with a blank and the last line does not end with one.
- **A missing binary gives a symbolic exit code, not `null`.** The code
  takes `err.code` whenever the error has a `code` field
  (`src/utils/ripgrep.ts:56`). For a spawn failure that field is the string
  `'ENOENT'`, and the `as number` cast is erased at run time. `ErrorCode`
  therefore has a `Symbol` case, and `ScenarioMissingBinary` shows `ENOENT`
  reaching `exitCode`.
- **The root is computed once.** `rootDir` is a module-level constant
  (`src/utils/ripgrep.ts:22-25`), fixed when the module loads.
  `RootDir` is a function of the module's directory and the
  development/test flag. Neither changes after loading.

The record `RipGrepResult` (`src/utils/ripgrep.ts:10-15`) is the datatype
`RipGrepOutcome.RipGrepResult`. Its `exitCode` is an `Option<ErrorCode>`
so that it can hold `null` and symbolic codes. The condition
`isLocal() || process.env.NODE_ENV === 'test'` (`src/utils/ripgrep.ts:23`)
is the predicate `RipGrepBinary.IsDevOrTest`. Its effect on the executable
that runs is stated by `RipGrep.PlanInvocation` and
`RipGrep.BundleDepthFollowsEnvironment`.

## Model

| member | source | states |
|---|---|---|
| TextLines.Trim | src/utils/ripgrep.ts:63 | `stdout.trim()` is the infix of the output with only blank characters (JavaScript WhiteSpace and LineTerminator) before and after it, and neither starting nor ending with a blank |
| TextLines.TrimUnique | src/utils/ripgrep.ts:63 | any infix with only blanks outside it and no blank at its ends is the trimmed text, so that property determines trimming |
| TextLines.TrimIdempotent | src/utils/ripgrep.ts:63 | trimming already trimmed text changes nothing |
| TextLines.Split | src/utils/ripgrep.ts:63 | `split('\n')` yields at least one piece, no piece holds a line break, and joining the pieces with `'\n'` gives the text back |
| TextLines.SplitJoin | src/utils/ripgrep.ts:63 | splitting undoes joining for any non-empty list of lines without breaks |
| TextLines.NonEmpty | src/utils/ripgrep.ts:63 | `filter(Boolean)` keeps only non-empty strings, each taken from the input, and changes nothing when no string is empty |
| TextLines.NonEmptyCounts | src/utils/ripgrep.ts:63 | the filter keeps every non-empty line exactly as many times as it occurs and drops every empty one |
| TextLines.NonEmptyAppend | src/utils/ripgrep.ts:63 | the filter distributes over concatenation, so the kept lines stay in their original order |
| TextLines.ParseLines | src/utils/ripgrep.ts:71 | every reported line is non-empty and holds no line break |
| TextLines.ParseLinesEmpty | src/utils/ripgrep.ts:71 | no lines are reported exactly when the output is all blanks, including the empty output |
| TextLines.JoinParseLines | src/utils/ripgrep.ts:71 | joining the reported lines gives back the trimmed output exactly when that output has no empty line between two breaks |
| TextLines.ParseLinesEnds | src/utils/ripgrep.ts:71 | only the whole output is trimmed: the first line starts and the last line ends with a non-blank character |
| TextLines.ParseSingleMatch | src/utils/ripgrep.ts:71 | one match line with its trailing break is reported as one line without the break |
| TextLines.ParseKeepsInnerCarriageReturn | src/utils/ripgrep.ts:63 | with CRLF output, the last line loses its `\r` to the trim but inner lines keep theirs |
| RipGrepOutcome.Interpret | src/utils/ripgrep.ts:54-76 | success exactly when there was no error or the code is 1; an error with code 1 gives the fixed no-matches result, and that is the only result with code 1; a failure carries the error's code (or null); a failure with any diagnostic text reports non-empty stderr; success never carries stderr; all lines are non-empty and break-free |
| RipGrepOutcome.CleanExit | src/utils/ripgrep.ts:68-75 | no error gives a success with status 0, the parsed output and empty stderr, whatever stderr held |
| RipGrepOutcome.NoMatchIgnoresOutput | src/utils/ripgrep.ts:56-58 | code 1 gives success, no lines, exit code 1 and empty stderr, whatever the process printed |
| RipGrepOutcome.FailureKeepsDiagnostics | src/utils/ripgrep.ts:59-66 | any other error is a failure carrying the code, the parsed partial output, and the captured stderr or, when that is empty, the error's text |
| RipGrepOutcome.SuccessStatus | src/utils/ripgrep.ts:55-75 | a success has exit code 0 or 1, and exit code 0 exactly when there was no error |
| RipGrepOutcome.BlankOutputNoLines | src/utils/ripgrep.ts:54-76 | output with nothing but blanks yields no lines, whatever the outcome |
| RipGrepOutcome.ScenarioOneMatch | src/utils/ripgrep.ts:68-75 | a clean run printing one match line yields that one line with status 0 |
| RipGrepOutcome.ScenarioMissingBinary | src/utils/ripgrep.ts:56-66 | a spawn failure with code `ENOENT` and no output is a failure with no lines, `ENOENT` as exit code and the error text as stderr |
| RipGrepBinary.Parent | src/utils/ripgrep.ts:24-25 | `path.resolve(p, '..')` is a prefix of `p` one segment shorter, and the filesystem root is its own parent |
| RipGrepBinary.RootDir | src/utils/ripgrep.ts:22-25 | the root is a prefix of the module's directory, two levels up when the development/test flag is set and one level up otherwise, stopping at the filesystem root |
| RipGrepBinary.DevRootIsOneLevelHigher | src/utils/ripgrep.ts:22-25 | the development/test root is the parent of the build root |
| RipGrepBinary.RipgrepPath | src/utils/ripgrep.ts:27-39 | a search-path lookup that found something other than `"rg"` is used as is; otherwise the bundle is `<root>/vendor/ripgrep/x64-win32/rg.exe` on Windows and `<root>/vendor/ripgrep/<arch>-<platform>/rg` elsewhere |
| RipGrepBinary.WindowsIgnoresArch | src/utils/ripgrep.ts:33-34 | on Windows the architecture plays no part in the choice |
| RipGrepBinary.OtherPlatformsSeparateArch | src/utils/ripgrep.ts:35-36 | on other platforms two different architectures never resolve to the same bundled executable |
| RipGrep.PlanInvocation | src/utils/ripgrep.ts:22-53 | `execFile` gets the caller's arguments followed by the target, a 10 000 000-byte buffer and a 60 000 ms timeout; it runs the search-path binary exactly when the lookup found one; the executable is `ripgrepPath()` under the root chosen by `isLocal() \|\| NODE_ENV === 'test'` for the host's module directory |
| RipGrep.BundleDepthFollowsEnvironment | src/utils/ripgrep.ts:22-37 | the bundled executable lies below the module directory's grandparent, and two levels above the module's directory (rather than one) exactly when running under Bun or with `NODE_ENV` equal to `test` |
| RipGrep.ScenarioBuildOnLinux | src/utils/ripgrep.ts:22-53 | a build in `/opt/app/dist` on x64 Linux without `rg` installed runs `/opt/app/vendor/ripgrep/x64-linux/rg` |
| RipGrep.ScenarioDevelopmentOnWindowsArm | src/utils/ripgrep.ts:22-53 | under Bun in `/work/app/src/utils` on arm64 Windows, the x64 Windows bundle two levels up is used |
| RipGrep.ScenarioSearchPathCommand | src/utils/ripgrep.ts:28-30 | a command returned by the search-path lookup other than `"rg"` is run whatever the host, arguments and target |

## Left out

- Spawning the process: `execFile`, its asynchrony and the returned
  `Promise` are not modelled. The callback's inputs
  `(err, stdout, stderr)` are parameters of `Interpret`. The buffer and
  timeout limits are recorded as constants but not enforced. What happens
  when they trip appears only as an error value passed in.
- `findActualExecutable` (from `spawn-rx`) is not part of this model. The
  `cmd` it returns is the `probe` parameter. The model does not say what the
  lookup returns for aliases, wrapper scripts or shims (such as an
  `rg.cmd` on Windows); whatever it returns, other than `"rg"` itself, is
  run as is.
- `isLocal()` is not part of this model. Its result is the `isBun` field
  of `Host`. `process.env`, `process.platform` and `process.arch` are
  fields of `Host` too.
- `fileURLToPath(import.meta.url)`, `path.dirname` and `path.resolve` are
  not modelled as string operations. Paths are normalised absolute paths
  given as segment sequences. `..` takes off the last segment, and the
  root is its own parent. Symbolic links and drive letters are not
  modelled.
- The `debug` logging on the failure path is left out; it has no effect
  on the result.
- RipGrepOutcome.Interpret: an error whose `code` field is present but
  `undefined` yields an `undefined` exit code in the source. The model
  folds this into `None`, the same as `null`. `String(err)` is given as
  the error's `text` rather than computed.
- Strings are sequences of Unicode scalar values rather than UTF-16 code
  units. Every character `trim` removes and `'\n'` lie in the Basic
  Multilingual Plane, so trimming, splitting and filtering are the same
  on any well-formed string. Lone surrogates cannot be written.
