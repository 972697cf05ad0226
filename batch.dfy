/** The main block of the helper (lines 138-206): refuse a second batch
    without `--force`, list the environment files of the platform in sorted
    order, decide for each whether to build it, build it with retries, copy
    its `.md5` file onto its marker, and touch the batch file at the end. */
module BuildBatch {
  import opened Wrappers
  import opened PyStrings
  import opened PathSort
  import opened BuildHelper
  import opened RetryLoop

  /** What a run of the helper did: its exit status, the files on disk
      afterwards, every conda command it ran (one entry per run, in order)
      and the sleeps between retries. */
  datatype RunResult = RunResult(status: int, fs: FileSystem, commands: seq<string>, sleeps: seq<nat>)

  /** A run in the middle of the loop over environment files; `halted` holds
      the exit status once the process has ended. */
  datatype Progress = Progress(fs: FileSystem, commands: seq<string>, sleeps: seq<nat>, halted: Option<int>)

  /** The status a process gets from `sys.exit(code)`: the code's low
      eight bits, so a code already in 0..255 is kept. */
  function ExitStatus(code: int): (status: int)
    ensures 0 <= status < 256
    ensures exists m :: code == 256 * m + status
    ensures 0 <= code < 256 ==> status == code
  {
    assert code == 256 * (code / 256) + code % 256;
    code % 256
  }

  /** A failed command's exit status ends the helper with a non-zero status. */
  lemma ExitStatusOfFailure(code: ReturnCode)
    ensures 0 < ExitStatus(code) < 256
  {
  }

  /** `n` copies of the same command. */
  function Repeat(cmd: string, n: nat): (r: seq<string>)
    ensures |r| == n
    ensures forall i :: 0 <= i < n ==> r[i] == cmd
  {
    if n == 0 then [] else Repeat(cmd, n - 1) + [cmd]
  }

  // ---------------------------------------------------------------------
  // Listing the environment files
  // ---------------------------------------------------------------------

  /** `glob` with the pattern "*.<ext>" matches names that end in ".<ext>"
      and, like every pattern not starting with '.', skips hidden names. */
  predicate MatchesExt(name: string, ext: string) {
    name != [] && name[0] != '.' && EndsWith(name, "." + ext)
  }

  /** `glob.glob` of the pattern "*.<ext>" inside `dir`, given the names in `dir`. */
  function Glob(dir: string, entries: seq<string>, ext: string): (r: seq<string>)
    ensures |r| <= |entries|
  {
    if entries == [] then []
    else if MatchesExt(entries[0], ext) then [dir + "/" + entries[0]] + Glob(dir, entries[1..], ext)
    else Glob(dir, entries[1..], ext)
  }

  /** The listing holds exactly the matching entries, as paths in `dir`. */
  lemma {:induction false} GlobMembers(dir: string, entries: seq<string>, ext: string, p: string)
    ensures p in Glob(dir, entries, ext) <==>
              exists e :: e in entries && MatchesExt(e, ext) && p == dir + "/" + e
    decreases |entries|
  {
    if entries != [] {
      GlobMembers(dir, entries[1..], ext, p);
      assert entries == [entries[0]] + entries[1..];
      if p in Glob(dir, entries, ext) && p !in Glob(dir, entries[1..], ext) {
        assert MatchesExt(entries[0], ext) && p == dir + "/" + entries[0];
      }
    }
  }

  /** Each listed path names the entry it comes from. */
  lemma ListedEntry(dir: string, entries: seq<string>, ext: string, p: string) returns (e: string)
    requires p in Glob(dir, entries, ext)
    ensures e in entries && MatchesExt(e, ext) && p == dir + "/" + e
  {
    GlobMembers(dir, entries, ext, p);
    e :| e in entries && MatchesExt(e, ext) && p == dir + "/" + e;
  }

  /** Paths in one directory differ when the entries do. */
  lemma EntryPathsDiffer(dir: string, e1: string, e2: string)
    requires e1 != e2
    ensures dir + "/" + e1 != dir + "/" + e2
  {
    var a := dir + "/";
    assert (a + e1)[|a|..] == e1 && (a + e2)[|a|..] == e2;
  }

  /** A directory listing without repetition gives a listing without repetition. */
  lemma {:induction false} GlobDistinct(dir: string, entries: seq<string>, ext: string)
    requires Distinct(entries)
    ensures Distinct(Glob(dir, entries, ext))
    decreases |entries|
  {
    if entries != [] {
      var e0, rest := entries[0], entries[1..];
      assert Distinct(rest) by {
        forall i, j | 0 <= i < j < |rest| ensures rest[i] != rest[j] {
          assert rest[i] == entries[i + 1] && rest[j] == entries[j + 1];
        }
      }
      GlobDistinct(dir, rest, ext);
      if MatchesExt(e0, ext) {
        var g := Glob(dir, rest, ext);
        forall k | 0 <= k < |g| ensures g[k] != dir + "/" + e0 {
          assert g[k] in g;
          var e := ListedEntry(dir, rest, ext, g[k]);
          var m :| 0 <= m < |rest| && rest[m] == e;
          assert entries[m + 1] == e;
          EntryPathsDiffer(dir, e, e0);
        }
        DistinctCons(dir + "/" + e0, g);
      }
    }
  }

  /** `env_files`: the platform's files with the extension, sorted. */
  function EnvFiles(args: Args, ostype: string, entries: seq<string>): (files: seq<string>)
    ensures Sorted(files)
    ensures multiset(files) == multiset(Glob(args.condaEnvs + "/" + ostype, entries, args.ext))
  {
    SortPaths(Glob(args.condaEnvs + "/" + ostype, entries, args.ext))
  }

  // ---------------------------------------------------------------------
  // One environment, then all of them
  // ---------------------------------------------------------------------

  /** The body of the `for` loop for one environment file. The conda
      command's first run is the world's invocation `|p.commands| + 1`. */
  function BuildEnv(p: Progress, args: Args, cv: string, envFile: string, world: Runner): Progress {
    if p.halted.Some? then p
    else
      match Decide(p.fs, args, cv, envFile)
      case Filtered => p
      case UpToDate => p
      case MissingFingerprint => p.(halted := Some(1))
      case Build(force) =>
        var cmd := CondaCommand(envFile, PrefixPath(args.installPath, EnvName(envFile), cv), force);
        var run := RetryRun(world, |p.commands| + 1, args.maxRetry);
        var commands := p.commands + Repeat(cmd, run.invocations);
        var sleeps := p.sleeps + run.sleeps;
        match run.end
        case Built =>
          Progress(Copy(p.fs, Md5Path(envFile), MarkerOf(args, cv, envFile)), commands, sleeps, None)
        case Terminated(code) =>
          Progress(p.fs, commands, sleeps, Some(ExitStatus(code)))
  }

  /** The `for` loop over the files, in order, until the process ends. */
  function BuildAll(p: Progress, args: Args, cv: string, files: seq<string>, world: Runner): Progress
    decreases |files|
  {
    if files == [] || p.halted.Some? then p
    else BuildAll(BuildEnv(p, args, cv, files[0], world), args, cv, files[1..], world)
  }

  /** One run of the helper after argument parsing, on `sys.platform`
      `platform`, with the names `entries` in the platform's directory. */
  function Run(args: Args, platform: string, fs: FileSystem, entries: seq<string>, world: Runner): RunResult {
    match GetPlatform(platform)
    case Unsupported => RunResult(1, fs, [], [])
    case Family(ostype) =>
      var cv := CONTAINER_VERSION;
      if !args.force && FinishCheckPath(args.installPath, cv) in fs then RunResult(1, fs, [], [])
      else
        var files := EnvFiles(args, ostype, entries);
        if files == [] then RunResult(1, fs, [], [])
        else
          var p := BuildAll(Progress(fs, [], [], None), args, cv, files, world);
          if p.halted.Some? then RunResult(p.halted.value, p.fs, p.commands, p.sleeps)
          else RunResult(0, Touch(p.fs, FinishWrittenPath(args.installPath, cv)), p.commands, p.sleeps)
  }

  /** The body of the loop for one file, step by step: decide, build with
      retries, then copy the `.md5` file onto the marker. */
  method BuildEnvFile(p: Progress, args: Args, cv: string, envFile: string, world: Runner)
    returns (q: Progress)
    requires p.halted.None?
    ensures q == BuildEnv(p, args, cv, envFile, world)
  {
    q := p;
    match Decide(p.fs, args, cv, envFile) {
      case Filtered =>
      case UpToDate =>
      case MissingFingerprint =>
        q := p.(halted := Some(1));
      case Build(force) =>
        var prefix := PrefixPath(args.installPath, EnvName(envFile), cv);
        var cmd := CondaCommand(envFile, prefix, force);
        var run := RetryBuild(world, |p.commands| + 1, args.maxRetry);
        var commands := p.commands + Repeat(cmd, run.invocations);
        var sleeps := p.sleeps + run.sleeps;
        if run.end.Terminated? {
          q := Progress(p.fs, commands, sleeps, Some(ExitStatus(run.end.code)));
        } else {
          q := Progress(Copy(p.fs, Md5Path(envFile), MarkerOf(args, cv, envFile)), commands, sleeps, None);
        }
    }
  }

  /** The main block, step by step. */
  method BuildEnvironments(args: Args, platform: string, fs: FileSystem, entries: seq<string>, world: Runner)
    returns (res: RunResult)
    ensures res == Run(args, platform, fs, entries, world)
  {
    var ostype: string;
    match GetPlatform(platform) {
      case Unsupported =>
        return RunResult(1, fs, [], []);
      case Family(dir) =>
        ostype := dir;
    }
    var cv := CONTAINER_VERSION;
    if !args.force && FinishCheckPath(args.installPath, cv) in fs {
      return RunResult(1, fs, [], []);
    }
    var envFiles := EnvFiles(args, ostype, entries);
    if envFiles == [] {
      return RunResult(1, fs, [], []);
    }
    var disk := fs;
    var commands: seq<string> := [];
    var sleeps: seq<nat> := [];
    for i := 0 to |envFiles|
      invariant BuildAll(Progress(disk, commands, sleeps, None), args, cv, envFiles[i..], world)
                == BuildAll(Progress(fs, [], [], None), args, cv, envFiles, world)
    {
      assert envFiles[i..][1..] == envFiles[i + 1..];
      var q := BuildEnvFile(Progress(disk, commands, sleeps, None), args, cv, envFiles[i], world);
      if q.halted.Some? {
        return RunResult(q.halted.value, q.fs, q.commands, q.sleeps);
      }
      disk, commands, sleeps := q.fs, q.commands, q.sleeps;
    }
    disk := Touch(disk, FinishWrittenPath(args.installPath, cv));
    res := RunResult(0, disk, commands, sleeps);
  }
}
