# bactopia build helper, modelled in Dafny

`bin/helpers/bactopia-build.py` is the command behind `bactopia build`. It
builds the Conda environments Bactopia needs from a directory of environment
files, one sub-directory per platform family (`linux`, `mac`). This project
models what the helper does once its arguments are parsed, and proves
properties of that model:

- **Pure helpers.** These are `set_log_level`, `get_platform` and
  `check_md5sum`. `check_md5sum` compares the first lines of two files after
  `str.rstrip()`.
- **Derived names.** These are the version tag `M.m.x`, the environment name
  (basename without its last extension), the `.md5` path (every `.yml`
  replaced by `.md5`), the install prefix and the `env-built.txt` marker.
  The Python string operations they use are modelled exactly:
  - `readline` with universal newlines;
  - `rstrip` with Python's whitespace set;
  - `split`, `replace`, `os.path.basename` and `os.path.splitext`;
  - `sorted` on paths, which orders them by code point.
- **Per-environment decision.** Each file is filtered out by `--envname`,
  skipped when up to date, or built (with or without `--force`). When its
  marker exists but its `.md5` file is missing and `--force` is off,
  reading the `.md5` file raises and the helper stops. Without a marker, or
  with `--force`, such an environment is built all the same.
- **Retry loop.** A method whose loop follows the source's `retry`,
  `allow_fail` and `success` variables step by step. It is proved equal to
  a specification function, and the properties of the loop (number of runs,
  backoff sleeps, how it ends) are proved about that function.
- **Whole run.** A method that follows the main block step by step:
  - the platform check;
  - the refusal to run when `envs-build-<tag>.txt` exists and `--force` is
    not given;
  - the sorted listing of the environment files;
  - the loop over them;
  - the `cp` of each `.md5` file onto its marker;
  - the final `touch`.

  It is proved equal to a specification function. Lemmas about that
  function state what a run writes, when it exits 0, that every conda
  command carries `--force` exactly when asked, and that a second run after
  a successful one builds nothing.

The outside world is a set of parameters:
- The files on disk are a map from path to contents.
- The names in the platform directory are a sequence.
- `sys.platform` is a string.
- The external command is a function from the global number of a conda
  command (1, 2, ... within one run of the helper) to its outcome.
- A sleep is recorded as its duration.
- `sys.exit(code)` becomes an exit status `code % 256`. An uncaught
  exception becomes status 1.

Behaviour of the code that the model keeps as written. The bullets on the
retry loop and on `cp` take `execute` (line 85) and the sleep (line 197) as
corrected, as under "## Findings". As the code stands, the first failing
command, `conda` or `cp`, ends the helper with status 1:
- The batch file is checked as `envs-build-<tag>.txt` (line 150) but
  touched as `envs-built-<tag>.txt` (line 201). The model keeps the two
  names distinct. So a completed batch never stops a later run:
  `BuildBatchProperties.SuccessfulRunEffects`.
- With `--max_retry` r, the command runs at most max(2, r + 3) times. The
  option's help text (line 121) reads as a maximum number of attempts.
  `allow_fail` is set at the failure where the count before it exceeds r.
  The run after that failure is the last.
- The last run is made with `allow_fail`. If it fails, `execute` ends the
  process with the command's status, so the loop always ends.
- An empty `--envname` filters nothing, because of the truthiness test at
  line 166.
- The `.md5` path replaces `.yml` whatever `--ext` says (line 161).
- An environment without its `.md5` file and without a marker is built,
  but the `cp` onto the marker (line 200) fails and is ignored. No marker
  is written, so every later run builds it again:
  `BuildBatchProperties.MissingMd5RebuiltEveryRun`.

## Model

| member | source | states |
|---|---|---|
| BuildHelper.SetLogLevel | bin/helpers/bactopia-build.py:44-46 | `--silent` gives ERROR even with `--verbose`; `--verbose` alone gives DEBUG; neither gives INFO |
| BuildHelper.Emits | bin/helpers/bactopia-build.py:79-80 | defined by its body: the logger's filter, a record passes when its level is at least the effective level; used by BuildHelper.CommandOutputOnlyWhenVerbose |
| BuildHelper.LogsCommandOutput | bin/helpers/bactopia-build.py:78 | defined by its body: the test `get_log_level() == 'DEBUG'` (lines 62-64), true exactly at the effective level DEBUG; used by BuildHelper.CommandOutputOnlyWhenVerbose |
| BuildHelper.CommandOutputOnlyWhenVerbose | bin/helpers/bactopia-build.py:78-80 | a command's captured output is logged, and the STDOUT (11) and STDERR (12) levels pass the logger, exactly when `--verbose` is given without `--silent` |
| BuildHelper.GetPlatform | bin/helpers/bactopia-build.py:33-41 | "win32" and only it is refused; "darwin" and only it maps to `mac`; every other platform maps to `linux` |
| PyStrings.IsSpace | bin/helpers/bactopia-build.py:54 | defined by its body: the code points Python's `str.isspace` accepts, which `rstrip()` removes; used by PyStrings.RStrip |
| PyStrings.RStrip | bin/helpers/bactopia-build.py:54 | `rstrip()` keeps a prefix, drops only whitespace, and what it keeps does not end in whitespace |
| PyStrings.RStripUnique | bin/helpers/bactopia-build.py:54 | those three properties determine the result of `rstrip()` |
| PyStrings.RStripAppendSpace | bin/helpers/bactopia-build.py:54 | appending whitespace does not change what `rstrip()` keeps |
| PyStrings.RStripIdempotent | bin/helpers/bactopia-build.py:54 | stripping twice is stripping once |
| PyStrings.ReadLine | bin/helpers/bactopia-build.py:54 | defined by its body; what it returns is stated in PyStrings.ReadLineIsFirstLine |
| PyStrings.ReadLineIsFirstLine | bin/helpers/bactopia-build.py:54 | `readline()` returns the whole text when it has no line terminator; otherwise the text before the first terminator followed by "\n" |
| PyStrings.ReadLineAppend | bin/helpers/bactopia-build.py:54 | `readline()` reads through text without a line terminator and continues on what follows |
| PyStrings.ReadLineStopsAtTerminator | bin/helpers/bactopia-build.py:54 | `readline()` returns the first line and "\n", whatever follows the first terminator |
| BuildHelper.Fingerprint | bin/helpers/bactopia-build.py:54 | what `check_md5sum` reads from a file is a prefix of its contents, holds no line terminator and does not end in whitespace |
| BuildHelper.FingerprintIsFirstLine | bin/helpers/bactopia-build.py:53-57 | what `check_md5sum` reads from a file is its first line without trailing whitespace; blanks, the terminator and later lines do not matter |
| BuildHelper.CheckMd5sum | bin/helpers/bactopia-build.py:49-59 | the comparison fails (raises) exactly when one of the two files is missing |
| BuildHelper.CheckMd5sumSymmetric | bin/helpers/bactopia-build.py:49-59 | the comparison is symmetric, and a readable file agrees with itself |
| BuildHelper.CheckMd5sumComparesFirstLines | bin/helpers/bactopia-build.py:49-59 | two readable files agree exactly when their first lines agree after `rstrip()`, whatever follows those lines |
| PyStrings.Split | bin/helpers/bactopia-build.py:139 | `split('.')` gives at least one part; the parts, joined by '.', give back the string; no part holds '.' |
| PyStrings.SplitJoin | bin/helpers/bactopia-build.py:139 | splitting undoes joining parts that do not hold the separator |
| BuildHelper.ContainerVersion | bin/helpers/bactopia-build.py:139-140 | defined by its body; its result is stated in BuildHelper.ContainerVersionOf |
| BuildHelper.ContainerVersionOf | bin/helpers/bactopia-build.py:139-140 | a version "M.m.p" gets the tag "M.m.x" |
| BuildHelper.ContainerVersionOfRelease | bin/helpers/bactopia-build.py:139-140 | VERSION "1.5.6" (line 25) gets the tag "1.5.x" |
| PyStrings.Basename | bin/helpers/bactopia-build.py:160 | `basename` is the suffix after the last '/' and holds no '/' |
| PyStrings.BasenameOfEntry | bin/helpers/bactopia-build.py:160 | the basename of "dir/name" is "name" |
| PyStrings.LastDot | bin/helpers/bactopia-build.py:160 | the index of the last '.', or -1 when there is none |
| PyStrings.StripExtension | bin/helpers/bactopia-build.py:160 | `splitext(name)[0]` is a prefix of the name; when shorter, it is not empty and is followed by the name's last '.' |
| PyStrings.LastDotUnique | bin/helpers/bactopia-build.py:160 | the last '.' is the one with no '.' after it |
| PyStrings.StripExtensionOfSuffix | bin/helpers/bactopia-build.py:160 | a name not starting with '.' that ends with a suffix starting with '.' loses exactly that suffix's part from its last '.' |
| PyStrings.StripExtensionInjective | bin/helpers/bactopia-build.py:160 | names ending with the same ".ext", not starting with '.', keep distinct stems |
| PyStrings.StripExtensionOfStem | bin/helpers/bactopia-build.py:160 | `splitext(stem + "." + ext)[0]` is `stem` for a dot-free extension and a stem not starting with '.' |
| BuildHelper.EnvName | bin/helpers/bactopia-build.py:160 | an environment name holds no '/' |
| BuildHelper.EnvNameOfListedFile | bin/helpers/bactopia-build.py:160 | the environment of "dir/stem.ext" is named "stem" |
| PyStrings.ReplaceAll | bin/helpers/bactopia-build.py:161 | defined by its body; PyStrings.ReplaceAbsent and PyStrings.ReplaceSameLength state its general properties, and BuildHelper.Md5PathSplit states, for ".yml" and ".md5", that each occurrence is replaced left to right |
| PyStrings.ReplaceAbsent | bin/helpers/bactopia-build.py:161 | `replace` returns its input when the pattern does not occur |
| PyStrings.ReplaceSameLength | bin/helpers/bactopia-build.py:161 | replacing by a string of the same length keeps the length |
| BuildHelper.Md5Path | bin/helpers/bactopia-build.py:161 | defined by its body; BuildHelper.Md5PathSplit states that every ".yml" becomes ".md5", and BuildHelper.Md5PathWithoutYml, BuildHelper.Md5PathOfYml and BuildHelper.Md5PathLength state the other properties |
| BuildHelper.Md5PathWithoutYml | bin/helpers/bactopia-build.py:161 | a path without ".yml" is its own `.md5` path |
| BuildHelper.Md5PathOfYml | bin/helpers/bactopia-build.py:161 | "a.yml" has the `.md5` path "a.md5" when ".yml" occurs only at its end |
| BuildHelper.Md5PathSplit | bin/helpers/bactopia-build.py:161 | every ".yml" becomes ".md5": the first occurrence is replaced and the rest of the path is handled the same way, so "d/foo.yml.yml" becomes "d/foo.md5.md5" and a ".yml" in a directory name is replaced too |
| BuildHelper.Md5PathLength | bin/helpers/bactopia-build.py:161 | the `.md5` path is as long as the environment file's path |
| BuildHelper.PrefixPath | bin/helpers/bactopia-build.py:162 | defined by its body; BuildHelper.MarkerPath states that the marker lies inside it |
| BuildHelper.MarkerPath | bin/helpers/bactopia-build.py:162-163 | the marker is `env-built.txt` inside the prefix `install_path/envname-tag` |
| BuildHelper.MarkerPathsDistinct | bin/helpers/bactopia-build.py:163 | environments with different names have different markers |
| BuildHelper.FinishCheckPath | bin/helpers/bactopia-build.py:150 | defined by its body; properties in BuildHelper.FinishPathsDiffer and BuildHelper.MarkerIsNotFinishCheck |
| BuildHelper.FinishWrittenPath | bin/helpers/bactopia-build.py:201 | defined by its body; properties in BuildHelper.FinishPathsDiffer |
| BuildHelper.FinishPathsDiffer | bin/helpers/bactopia-build.py:150 | the batch file that is checked is never the one that is touched (line 201) |
| BuildHelper.MarkerIsNotFinishCheck | bin/helpers/bactopia-build.py:150 | no marker is the checked batch file, for a tag not ending in 't' |
| BuildHelper.Selected | bin/helpers/bactopia-build.py:166-168 | defined by its body; its role is stated in BuildHelper.Decide (filtered iff not selected) |
| BuildHelper.Decide | bin/helpers/bactopia-build.py:164-185 | filtered iff `--envname` names another environment; built iff `--force`, or no marker, or the fingerprints differ; skipped iff no `--force` and the fingerprints agree; stops iff the marker exists without its `.md5` file; the command gets `--force` iff `--force` or `--is_bactopia` |
| BuildHelper.Copy | bin/helpers/bactopia-build.py:200 | defined by its body; properties in BuildHelper.CopiedMarkerIsUpToDate and BuildBatchProperties.MissingMd5RebuiltEveryRun |
| BuildHelper.Touch | bin/helpers/bactopia-build.py:201 | defined by its body; properties in BuildBatchProperties.TouchKeepsExisting |
| BuildHelper.CopiedMarkerIsUpToDate | bin/helpers/bactopia-build.py:200 | once the `.md5` file is copied onto the marker, the next decision without `--force` skips the environment |
| BuildHelper.CondaCommand | bin/helpers/bactopia-build.py:191 | the command ends with `--force` exactly when it is asked for |
| RetryLoop.Execute | bin/helpers/bactopia-build.py:67-90 | `execute` ends the process iff the command fails under `allow_fail`, then with the command's status; otherwise it returns true iff the command succeeded |
| RetryLoop.ExecuteAsWritten | bin/helpers/bactopia-build.py:85-90 | as written, every failure ends the process with status 1 |
| RetryLoop.ExecuteAsWrittenNeverRetries | bin/helpers/bactopia-build.py:85-90 | a first failure that should return `None` ends the process as written |
| RetryLoop.AllowFailAfter | bin/helpers/bactopia-build.py:193-194 | `allow_fail` turns on at the first failure whose count before it exceeds `max_retry`; no earlier failure turns it on |
| RetryLoop.Backoff | bin/helpers/bactopia-build.py:195-197 | the j-th sleep lasts 30 * j seconds |
| RetryLoop.FirstSuccess | bin/helpers/bactopia-build.py:190-199 | the first succeeding run in a range: every run before it fails |
| RetryLoop.RetryRun | bin/helpers/bactopia-build.py:187-199 | the loop runs the command between 1 and `AllowFailAfter + 1` times; every run but the last fails; it builds iff the last run succeeds; otherwise it ends after the `allow_fail` run with that run's status; it sleeps after each failure that is retried |
| RetryLoop.RetryBuild | bin/helpers/bactopia-build.py:187-199 | the loop over `retry`, `allow_fail` and `success` computes `RetryRun` |
| RetryLoop.FirstSuccessAt | bin/helpers/bactopia-build.py:187-199 | a command first succeeding on run k is run exactly k times, with a sleep of 30 * j after the j-th failure, and the environment is built |
| RetryLoop.AlwaysFailingCommand | bin/helpers/bactopia-build.py:190-197 | a command that always fails runs max(2, `max_retry` + 3) times and ends the process with the last run's non-zero status |
| RetryLoop.RetryRunAsWritten | bin/helpers/bactopia-build.py:85-90 | with `execute` as written, the loop stops at its first failure with status 1, before it reaches its sleep |
| RetryLoop.RetryAsWrittenStopsAtFirstFailure | bin/helpers/bactopia-build.py:85-90 | a command failing once and then succeeding is built on its second run by the intended loop but ends the helper with status 1 with `execute` as written |
| RetryLoop.RetryRunSleepAsWritten | bin/helpers/bactopia-build.py:197 | with the intended `execute` and the sleep as written, the loop runs once, never sleeps, builds iff that run succeeds, and otherwise ends with status 1 |
| RetryLoop.SleepAsWrittenStopsAtFirstFailure | bin/helpers/bactopia-build.py:197 | a command failing once and then succeeding is built on its second run by the intended loop but ends the helper with status 1 with the sleep as written |
| PathSort.LexLe | bin/helpers/bactopia-build.py:157 | defined by its body: Python's code-point order on strings, used by `sorted`; its order properties are stated in the four lemmas below |
| PathSort.LexLeReflexive | bin/helpers/bactopia-build.py:157 | Python's string order is reflexive |
| PathSort.LexLeTotal | bin/helpers/bactopia-build.py:157 | Python's string order is total |
| PathSort.LexLeTransitive | bin/helpers/bactopia-build.py:157 | Python's string order is transitive |
| PathSort.LexLeAntisymmetric | bin/helpers/bactopia-build.py:157 | Python's string order is antisymmetric |
| PathSort.InsertSorted | bin/helpers/bactopia-build.py:157 | inserting into a sorted list keeps it sorted |
| PathSort.DistinctPermutation | bin/helpers/bactopia-build.py:157 | sorting a list without repeated paths gives a list without repeated paths |
| PathSort.SortPaths | bin/helpers/bactopia-build.py:157 | `sorted` returns a sorted permutation of its input |
| BuildBatch.MatchesExt | bin/helpers/bactopia-build.py:157 | defined by its body: the match of `*.<ext>`, which skips names starting with '.'; BuildBatch.GlobMembers states the listing in its terms |
| BuildBatch.Glob | bin/helpers/bactopia-build.py:157 | the listing has at most one path per directory entry; its members are stated in BuildBatch.GlobMembers |
| BuildBatch.GlobMembers | bin/helpers/bactopia-build.py:157 | the listing holds exactly the non-hidden names ending in ".ext", as paths in the directory |
| BuildBatch.ListedEntry | bin/helpers/bactopia-build.py:157 | every listed path is "dir/e" for a matching entry e |
| BuildBatch.EntryPathsDiffer | bin/helpers/bactopia-build.py:157 | distinct entries give distinct paths |
| BuildBatch.GlobDistinct | bin/helpers/bactopia-build.py:157 | a listing of distinct entries holds no path twice |
| BuildBatch.EnvFiles | bin/helpers/bactopia-build.py:157 | the environment files are the listing, sorted |
| BuildBatch.ExitStatus | bin/helpers/bactopia-build.py:88 | `sys.exit(code)` gives a status in 0..255 that differs from the code by a multiple of 256, and the code itself when it is already in 0..255 |
| BuildBatch.ExitStatusOfFailure | bin/helpers/bactopia-build.py:88 | `sys.exit` with a failed command's status gives a non-zero exit status |
| BuildBatch.BuildEnv | bin/helpers/bactopia-build.py:159-200 | defined by its body; BuildBatch.BuildEnvFile computes it step by step, and the BuildBatchProperties lemmas state its effects |
| BuildBatch.BuildAll | bin/helpers/bactopia-build.py:158-200 | defined by its body; its effects are stated in BuildBatchProperties.BuildAllFrame, BuildAllLeavesUpToDate, BuildAllIdle and BuildAllForceFlag |
| BuildBatch.Run | bin/helpers/bactopia-build.py:138-206 | defined by its body; BuildBatch.BuildEnvironments computes it step by step, and BuildBatchProperties.RunStatusZero, RunForceFlag, SuccessfulRunEffects and RerunBuildsNothing state its effects |
| BuildBatch.BuildEnvFile | bin/helpers/bactopia-build.py:159-200 | one pass of the `for` body computes the per-environment specification |
| BuildBatch.BuildEnvironments | bin/helpers/bactopia-build.py:148-206 | the main block, step by step, computes the specification of a run |
| BuildBatchProperties.HaltedStaysHalted | bin/helpers/bactopia-build.py:88 | once the process has ended, the rest of the loop does nothing |
| BuildBatchProperties.BuildEnvFrame | bin/helpers/bactopia-build.py:159-200 | one environment changes no file but its marker |
| BuildBatchProperties.BuildAllFrame | bin/helpers/bactopia-build.py:159-200 | the loop changes no file but the markers of its environments |
| BuildBatchProperties.BuildEnvFirstSuccess | bin/helpers/bactopia-build.py:183-200 | an environment to build whose command first succeeds on run k: k commands, sleeps 30..30*(k-1), exactly one copy of the `.md5` file onto the marker |
| BuildBatchProperties.BuildEnvLeavesUpToDate | bin/helpers/bactopia-build.py:170-200 | a selected environment with its `.md5` file is up to date after its pass, unless the process ended |
| BuildBatchProperties.ListingNamesDistinct | bin/helpers/bactopia-build.py:157-160 | distinct entries of one directory that match "*.<ext>" give environment files with distinct names |
| BuildBatchProperties.MissingMd5RebuiltEveryRun | bin/helpers/bactopia-build.py:170-200 | a selected environment with neither marker nor `.md5` file is built with at least one conda command, the file system is unchanged, and the next decision is to build it again |
| BuildBatchProperties.SeparatedHead | bin/helpers/bactopia-build.py:160-163 | with distinct names, the first file's marker and `.md5` file are apart from the other files' markers and `.md5` files |
| BuildBatchProperties.UpToDateTransfers | bin/helpers/bactopia-build.py:172-173 | whether an environment is up to date depends only on its marker and its `.md5` file |
| BuildBatchProperties.BuildAllLeavesUpToDate | bin/helpers/bactopia-build.py:158-200 | a loop that does not end the process leaves up to date every selected environment whose `.md5` file exists, given distinct names and no marker that is a `.md5` file |
| BuildBatchProperties.BuildAllIdle | bin/helpers/bactopia-build.py:170-176 | a loop over environments that are all filtered out or up to date runs nothing and changes nothing |
| BuildBatchProperties.TouchKeepsExisting | bin/helpers/bactopia-build.py:201 | `touch` does not change a file that exists |
| BuildBatchProperties.HaltedStatusNonzero | bin/helpers/bactopia-build.py:85-88 | a loop that ends the process ends it with a non-zero status |
| BuildBatchProperties.RunStatusZero | bin/helpers/bactopia-build.py:150-206 | exit status 0 exactly when the platform is supported, the batch is not refused, files are found, and no environment ends the process |
| BuildBatchProperties.BuildAllForceFlag | bin/helpers/bactopia-build.py:164-191 | every conda command the loop runs ends in `--force` exactly when `--force` or `--is_bactopia` is given |
| BuildBatchProperties.RunForceFlag | bin/helpers/bactopia-build.py:164-191 | the same for a whole run |
| BuildBatchProperties.SuccessfulRunEffects | bin/helpers/bactopia-build.py:150-201 | after a run that exits 0, on a directory listing without repeated names, when no marker is a `.md5` file (`MarkersApart`) and every selected environment has its `.md5` file: every selected environment is up to date, the batch file is touched, and the checked batch file is still absent if it was absent |
| BuildBatchProperties.RerunBuildsNothing | bin/helpers/bactopia-build.py:150-201 | on a directory listing without repeated names, when no marker is a `.md5` file (`MarkersApart`) and every selected environment has its `.md5` file, a second run without `--force` after a successful run runs no conda command and changes no file |
| BuildScenarios.SingleListing | bin/helpers/bactopia-build.py:157 | a directory holding one matching name lists that one path |
| BuildScenarios.RunSingle | bin/helpers/bactopia-build.py:157-201 | a run over one file is that file's pass followed by the touch of the batch file |
| BuildScenarios.FreshEnv | bin/helpers/bactopia-build.py:170-200 | an environment without a marker, whose command first succeeds on run k, takes k commands with the backoff sleeps, and its `.md5` file is copied onto its marker |
| BuildScenarios.SingleFreshBuild | bin/helpers/bactopia-build.py:157-201 | one fresh environment whose command first succeeds on run k: exit 0, k commands, sleeps 30..30*(k-1), the marker holds the fingerprint |
| BuildScenarios.NothingToBuild | bin/helpers/bactopia-build.py:202-206 | no matching file: exit 1, no command, no file written |
| BuildScenarios.BatchAlreadyBuilt | bin/helpers/bactopia-build.py:150-155 | the checked batch file present and no `--force`: exit 1 before any environment is looked at |

## Left out

- Argument parsing: `argparse`, `--help`, `--version`, the help printed when there are no arguments, and the unused `--default` option (lines 94-137). The parsed values are the `Args` datatype.
- Log records: their text, format and timestamps, and `logging.basicConfig`. Only the chosen level and whether command output reaches the log are modelled. `get_log_level` (lines 62-64) is the test "effective level is DEBUG".
- `execute`'s `directory`, `capture`, `stdout_file` and `stderr_file` parameters. The helper always leaves them at their defaults.
- Process spawning through the `executor` library. Each conda command is an outcome chosen by the `Runner` parameter.
- `cp` and `touch` are map updates: `cp` copies the contents when the source exists and does nothing otherwise. No other failure of these two commands is modelled, and the helper ignores their results.
- `os.path.abspath` (lines 148-149): paths are taken as given.
- `glob` is modelled for the pattern `*.<ext>` only. The directory part of the pattern (`--conda_envs` and the platform name) is taken literally, although `glob` would expand `*`, `?` and `[...]` in it. Metacharacters inside `--ext` are not modelled either, and neither is the kind of entry (file, directory, link). Hidden names are skipped, as `glob` does.
- Real sleeping and the clock: a sleep is recorded as its duration.
- BuildBatch.BuildEnv: of what `conda env create` does, only the marker file is modelled, and conda is assumed never to remove it. With `--force`, conda removes the environment already at the prefix, its marker included, before building; a build that then fails leaves the marker removed, while the model keeps the file system unchanged.
- Decoding a file as text: a file's contents are already a string.
- Changes made to the files by other processes while the helper runs.
- PathSort.SortPaths: specified as a sorted permutation of its input. The lemma that these two properties determine the list is not included.
- BuildBatchProperties.SuccessfulRunEffects: assumes that no marker is a `.md5` file (`MarkersApart`), which depends on where `--install_path` points. That environment names are distinct is proved from a directory listing without repeated names (`ListingNamesDistinct`).
- BuildBatchProperties.RerunBuildsNothing: assumes, as SuccessfulRunEffects does, that no marker is a `.md5` file (`MarkersApart`), which depends on where `--install_path` points, and that the directory listing has no repeated names.

## Findings

| source | as written | input that shows it | evidently intended | confidence | as-written member | corrected member |
|---|---|---|---|---|---|---|
| bin/helpers/bactopia-build.py:85 | `except executor.ExternalCommandFailed` names a module that is never imported (line 70 imports only `ExternalCommand`), so any failure raises NameError and ends the helper with status 1 | a conda command failing with status 2 while `allow_fail` is False | return `None` so the loop retries; under `allow_fail`, exit with the command's status | not executed | RetryLoop.ExecuteAsWrittenNeverRetries | RetryLoop.Execute |
| bin/helpers/bactopia-build.py:197 | `sys.sleep(30 * retry)`: the `sys` module has no `sleep`, so the first failure that is retried raises AttributeError and ends the helper with status 1 | a command failing once with status 2 and then succeeding, `--max_retry 5` | sleep 30 * retry seconds (`time.sleep`) and run the command again; as the code stands the NameError of line 85 is raised first, so this is reached only once line 85 is corrected | not executed | RetryLoop.SleepAsWrittenStopsAtFirstFailure | RetryLoop.RetryBuild |

The rest of the model uses the corrected behaviour. This also covers the
`cp` and `touch` calls: as written, a failing `cp` would end the helper
through the same NameError. In the corrected model it is ignored.
