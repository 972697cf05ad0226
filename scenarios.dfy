/** Whole runs of the helper: a fresh build of one environment, possibly
    after failures, an empty platform directory, and a batch that was
    already built. */
module BuildScenarios {
  import opened Wrappers
  import opened BuildHelper
  import opened RetryLoop
  import opened BuildBatch
  import opened BuildBatchProperties

  /** A directory holding one matching name lists that one path. */
  lemma SingleListing(args: Args, ostype: string, name: string)
    requires MatchesExt(name, args.ext)
    ensures EnvFiles(args, ostype, [name]) == [args.condaEnvs + "/" + ostype + "/" + name]
  {
    assert [name][1..] == [];
  }

  /** A run over a directory holding one matching name is the processing
      of that one file followed by the touch of the batch file. */
  lemma RunSingle(args: Args, platform: string, fs: FileSystem, name: string, world: Runner)
    requires GetPlatform(platform).Family?
    requires MatchesExt(name, args.ext)
    requires args.force || FinishCheckPath(args.installPath, CONTAINER_VERSION) !in fs
    ensures var f := args.condaEnvs + "/" + GetPlatform(platform).dir + "/" + name;
            var p := BuildEnv(Progress(fs, [], [], None), args, CONTAINER_VERSION, f, world);
            Run(args, platform, fs, [name], world) ==
              if p.halted.Some? then RunResult(p.halted.value, p.fs, p.commands, p.sleeps)
              else RunResult(0, Touch(p.fs, FinishWrittenPath(args.installPath, CONTAINER_VERSION)), p.commands, p.sleeps)
  {
    var f := args.condaEnvs + "/" + GetPlatform(platform).dir + "/" + name;
    SingleListing(args, GetPlatform(platform).dir, name);
    var p0 := Progress(fs, [], [], None);
    var p1 := BuildEnv(p0, args, CONTAINER_VERSION, f, world);
    assert [f][1..] == [];
    assert BuildAll(p1, args, CONTAINER_VERSION, [], world) == p1;
  }

  /** A selected environment without a marker, whose command first
      succeeds on its k-th run, is built by k commands with the backoff
      sleeps in between, and its `.md5` file is copied onto its marker. */
  lemma FreshEnv(fs: FileSystem, args: Args, f: string, world: Runner, k: nat)
    requires Selected(args, f) && MarkerOf(args, CONTAINER_VERSION, f) !in fs
    requires Md5Path(f) in fs
    requires 1 <= k <= AllowFailAfter(args.maxRetry) + 1
    requires forall n :: 1 <= n < k ==> world(n).Failed?
    requires world(k).Succeeded?
    ensures var p := BuildEnv(Progress(fs, [], [], None), args, CONTAINER_VERSION, f, world);
            && p.halted.None?
            && |p.commands| == k
            && p.sleeps == Backoff(k - 1)
            && p.fs == fs[MarkerOf(args, CONTAINER_VERSION, f) := fs[Md5Path(f)]]
  {
    var p0 := Progress(fs, [], [], None);
    assert Decide(fs, args, CONTAINER_VERSION, f).Build?;
    BuildEnvFirstSuccess(p0, args, CONTAINER_VERSION, f, world, k);
  }

  /** A platform directory holding one environment file that is not built
      yet, with its `.md5` file present, and a command that first succeeds on
      its k-th run: the helper runs the command k times, sleeps 30, 60, ...
      seconds in between, copies the fingerprint onto the marker and exits
      with status 0. */
  lemma SingleFreshBuild(args: Args, platform: string, fs: FileSystem, name: string, world: Runner, k: nat,
                         f: string)
    requires GetPlatform(platform).Family?
    requires MatchesExt(name, args.ext)
    requires f == args.condaEnvs + "/" + GetPlatform(platform).dir + "/" + name
    requires args.force || FinishCheckPath(args.installPath, CONTAINER_VERSION) !in fs
    requires Selected(args, f) && MarkerOf(args, CONTAINER_VERSION, f) !in fs && Md5Path(f) in fs
    requires 1 <= k <= AllowFailAfter(args.maxRetry) + 1
    requires forall n :: 1 <= n < k ==> world(n).Failed?
    requires world(k).Succeeded?
    ensures Run(args, platform, fs, [name], world).status == 0
    ensures |Run(args, platform, fs, [name], world).commands| == k
    ensures Run(args, platform, fs, [name], world).sleeps == Backoff(k - 1)
    ensures MarkerOf(args, CONTAINER_VERSION, f) in Run(args, platform, fs, [name], world).fs
    ensures Run(args, platform, fs, [name], world).fs[MarkerOf(args, CONTAINER_VERSION, f)] == fs[Md5Path(f)]
  {
    RunSingle(args, platform, fs, name, world);
    FreshEnv(fs, args, f, world, k);
    var p1 := BuildEnv(Progress(fs, [], [], None), args, CONTAINER_VERSION, f, world);
    TouchKeepsExisting(p1.fs, FinishWrittenPath(args.installPath, CONTAINER_VERSION), MarkerOf(args, CONTAINER_VERSION, f));
  }

  /** No matching file in the platform directory: exit 1, nothing run,
      nothing written. */
  lemma NothingToBuild(args: Args, platform: string, fs: FileSystem, entries: seq<string>, world: Runner)
    requires GetPlatform(platform).Family?
    requires args.force || FinishCheckPath(args.installPath, CONTAINER_VERSION) !in fs
    requires forall e :: e in entries ==> !MatchesExt(e, args.ext)
    ensures Run(args, platform, fs, entries, world) == RunResult(1, fs, [], [])
  {
    var dir := args.condaEnvs + "/" + GetPlatform(platform).dir;
    var files := EnvFiles(args, GetPlatform(platform).dir, entries);
    if files != [] {
      assert files[0] in multiset(Glob(dir, entries, args.ext));
      GlobMembers(dir, entries, args.ext, files[0]);
      assert false;
    }
  }

  /** A batch already built and no `--force`: exit 1 before any environment
      is looked at. */
  lemma BatchAlreadyBuilt(args: Args, platform: string, fs: FileSystem, entries: seq<string>, world: Runner)
    requires GetPlatform(platform).Family?
    requires !args.force && FinishCheckPath(args.installPath, CONTAINER_VERSION) in fs
    ensures Run(args, platform, fs, entries, world) == RunResult(1, fs, [], [])
  {
  }
}
