/** What a run of the helper guarantees: which files it writes, that a
    successful run leaves every selected environment up to date so that a
    second run builds nothing, that every conda command carries `--force`
    exactly when asked, and when the exit status is 0. */
module BuildBatchProperties {
  import opened Wrappers
  import opened PyStrings
  import opened BuildHelper
  import opened RetryLoop
  import opened BuildBatch

  /** `fs1` and `fs2` agree on the file `q`. */
  predicate SameAt(fs1: FileSystem, fs2: FileSystem, q: string) {
    (q in fs1 <==> q in fs2) && (q in fs1 ==> fs1[q] == fs2[q])
  }

  /** The marker files of `files`: the only files a loop over them writes. */
  function Markers(args: Args, cv: string, files: seq<string>): set<string> {
    set f | f in files :: MarkerOf(args, cv, f)
  }

  /** The environment is built and its marker agrees with its `.md5` file. */
  predicate UpToDateIn(fs: FileSystem, args: Args, cv: string, envFile: string) {
    MarkerOf(args, cv, envFile) in fs &&
    CheckMd5sum(fs, Md5Path(envFile), MarkerOf(args, cv, envFile)) == Some(true)
  }

  /** No marker of `files` is the `.md5` file of one of them. */
  predicate MarkersApart(args: Args, cv: string, files: seq<string>) {
    forall i, j :: 0 <= i < |files| && 0 <= j < |files| ==>
      MarkerOf(args, cv, files[i]) != Md5Path(files[j])
  }

  /** Environments with distinct names, none of whose markers is a `.md5` file. */
  predicate Separated(args: Args, cv: string, files: seq<string>) {
    (forall i, j :: 0 <= i < j < |files| ==> EnvName(files[i]) != EnvName(files[j]))
    && MarkersApart(args, cv, files)
  }

  /** Distinct entries of one directory that match "*.<ext>" keep distinct
      environment names: a listing never builds one environment twice. */
  lemma ListingNamesDistinct(args: Args, ostype: string, entries: seq<string>)
    requires PathSort.Distinct(entries)
    requires forall e :: e in entries ==> '/' !in e
    ensures forall i, j :: 0 <= i < j < |EnvFiles(args, ostype, entries)| ==>
              EnvName(EnvFiles(args, ostype, entries)[i]) != EnvName(EnvFiles(args, ostype, entries)[j])
  {
    var dir := args.condaEnvs + "/" + ostype;
    var g := Glob(dir, entries, args.ext);
    var files := EnvFiles(args, ostype, entries);
    GlobDistinct(dir, entries, args.ext);
    PathSort.DistinctPermutation(files, g);
    forall i, j | 0 <= i < j < |files| ensures EnvName(files[i]) != EnvName(files[j]) {
      assert files[i] in multiset(g) && files[j] in multiset(g);
      var ei := ListedEntry(dir, entries, args.ext, files[i]);
      var ej := ListedEntry(dir, entries, args.ext, files[j]);
      BasenameOfEntry(dir, ei);
      BasenameOfEntry(dir, ej);
      StripExtensionInjective(ei, ej, "." + args.ext);
      assert files[i] != files[j];
    }
  }

  /** Once the process has ended, the rest of the loop does nothing. */
  lemma HaltedStaysHalted(p: Progress, args: Args, cv: string, files: seq<string>, world: Runner)
    requires p.halted.Some?
    ensures BuildAll(p, args, cv, files, world) == p
  {
  }

  /** One environment writes its marker and nothing else; commands and
      sleeps are only appended to. */
  lemma BuildEnvFrame(p: Progress, args: Args, cv: string, envFile: string, world: Runner, q: string)
    requires q != MarkerOf(args, cv, envFile)
    ensures SameAt(BuildEnv(p, args, cv, envFile, world).fs, p.fs, q)
  {
    if p.halted.None? && Decide(p.fs, args, cv, envFile).Build? {
      var p1 := BuildEnv(p, args, cv, envFile, world);
      var run := RetryRun(world, |p.commands| + 1, args.maxRetry);
      if run.end.Built? {
        assert p1.fs == Copy(p.fs, Md5Path(envFile), MarkerOf(args, cv, envFile));
      } else {
        assert p1.fs == p.fs;
      }
    }
  }

  /** The loop writes the markers of its files and nothing else. */
  lemma {:induction false} BuildAllFrame(p: Progress, args: Args, cv: string, files: seq<string>,
                                         world: Runner, q: string)
    requires q !in Markers(args, cv, files)
    ensures SameAt(BuildAll(p, args, cv, files, world).fs, p.fs, q)
    decreases |files|
  {
    if files != [] && p.halted.None? {
      var p1 := BuildEnv(p, args, cv, files[0], world);
      assert files[0] in files;
      BuildEnvFrame(p, args, cv, files[0], world, q);
      assert Markers(args, cv, files[1..]) <= Markers(args, cv, files) by {
        forall m | m in Markers(args, cv, files[1..]) ensures m in Markers(args, cv, files) {
          var f :| f in files[1..] && m == MarkerOf(args, cv, f);
          assert f in files;
        }
      }
      BuildAllFrame(p1, args, cv, files[1..], world, q);
    }
  }

  /** An environment that needs building, with a command that first
      succeeds on its k-th run (k not beyond the `allow_fail` run): k
      commands, sleeps of 30, 60, ..., 30 * (k - 1) seconds, and one copy of
      the `.md5` file onto the marker. */
  lemma BuildEnvFirstSuccess(p: Progress, args: Args, cv: string, envFile: string, world: Runner, k: nat)
    requires p.halted.None? && Decide(p.fs, args, cv, envFile).Build?
    requires 1 <= k <= AllowFailAfter(args.maxRetry) + 1
    requires forall n :: |p.commands| + 1 <= n < |p.commands| + k ==> world(n).Failed?
    requires world(|p.commands| + k).Succeeded?
    ensures BuildEnv(p, args, cv, envFile, world) ==
              Progress(Copy(p.fs, Md5Path(envFile), MarkerOf(args, cv, envFile)),
                       p.commands + Repeat(CondaCommand(envFile, PrefixPath(args.installPath, EnvName(envFile), cv),
                                                        args.force || args.isBactopia), k),
                       p.sleeps + Backoff(k - 1), None)
  {
    FirstSuccessAt(world, |p.commands| + 1, args.maxRetry, k);
    var run := RetryRun(world, |p.commands| + 1, args.maxRetry);
    assert run == BuildRun(k, Backoff(k - 1), Built);
    assert Decide(p.fs, args, cv, envFile) == Build(args.force || args.isBactopia);
  }

  /** Processing one selected environment, when the process goes on, leaves
      it up to date. */
  lemma BuildEnvLeavesUpToDate(p: Progress, args: Args, cv: string, envFile: string, world: Runner)
    requires p.halted.None? && Selected(args, envFile)
    requires Md5Path(envFile) in p.fs && Md5Path(envFile) != MarkerOf(args, cv, envFile)
    requires BuildEnv(p, args, cv, envFile, world).halted.None?
    ensures UpToDateIn(BuildEnv(p, args, cv, envFile, world).fs, args, cv, envFile)
  {
  }

  /** An environment whose `.md5` file and marker are both missing is built,
      with at least one conda command, yet no marker can be copied: the file
      system is unchanged and the next pass decides to build it again. */
  lemma MissingMd5RebuiltEveryRun(p: Progress, args: Args, cv: string, envFile: string, world: Runner)
    requires p.halted.None? && Selected(args, envFile)
    requires MarkerOf(args, cv, envFile) !in p.fs && Md5Path(envFile) !in p.fs
    ensures |BuildEnv(p, args, cv, envFile, world).commands| > |p.commands|
    ensures BuildEnv(p, args, cv, envFile, world).fs == p.fs
    ensures Decide(BuildEnv(p, args, cv, envFile, world).fs, args, cv, envFile).Build?
  {
    var run := RetryRun(world, |p.commands| + 1, args.maxRetry);
    var cmd := CondaCommand(envFile, PrefixPath(args.installPath, EnvName(envFile), cv), args.force || args.isBactopia);
    assert BuildEnv(p, args, cv, envFile, world).commands == p.commands + Repeat(cmd, run.invocations);
  }

  /** Separation holds of the files after the first. */
  lemma SeparatedTail(args: Args, cv: string, files: seq<string>)
    requires files != [] && Separated(args, cv, files)
    ensures Separated(args, cv, files[1..])
  {
    var t := files[1..];
    forall i, j | 0 <= i < j < |t| ensures EnvName(t[i]) != EnvName(t[j]) {
      assert t[i] == files[i + 1] && t[j] == files[j + 1];
    }
    forall i, j | 0 <= i < |t| && 0 <= j < |t| ensures MarkerOf(args, cv, t[i]) != Md5Path(t[j]) {
      assert t[i] == files[i + 1] && t[j] == files[j + 1];
    }
  }

  /** The first file's marker and `.md5` file are apart from the other
      files' markers and `.md5` files. */
  lemma SeparatedHead(args: Args, cv: string, files: seq<string>)
    requires files != [] && Separated(args, cv, files)
    ensures MarkerOf(args, cv, files[0]) != Md5Path(files[0])
    ensures MarkerOf(args, cv, files[0]) !in Markers(args, cv, files[1..])
    ensures Md5Path(files[0]) !in Markers(args, cv, files[1..])
    ensures forall f :: f in files[1..] ==> Md5Path(f) != MarkerOf(args, cv, files[0])
  {
    var h, t := files[0], files[1..];
    forall f | f in t
      ensures MarkerOf(args, cv, f) != MarkerOf(args, cv, h)
      ensures MarkerOf(args, cv, f) != Md5Path(h)
      ensures Md5Path(f) != MarkerOf(args, cv, h)
    {
      var j :| 0 <= j < |t| && t[j] == f;
      assert f == files[j + 1];
      assert EnvName(files[0]) != EnvName(files[j + 1]);
      MarkerPathsDistinct(args.installPath, EnvName(f), EnvName(h), cv);
      assert MarkerOf(args, cv, files[j + 1]) != Md5Path(files[0]);
      assert MarkerOf(args, cv, files[0]) != Md5Path(files[j + 1]);
    }
  }

  /** Whether an environment is up to date depends only on its two files. */
  lemma UpToDateTransfers(fs1: FileSystem, fs2: FileSystem, args: Args, cv: string, envFile: string)
    requires SameAt(fs1, fs2, MarkerOf(args, cv, envFile)) && SameAt(fs1, fs2, Md5Path(envFile))
    requires UpToDateIn(fs2, args, cv, envFile)
    ensures UpToDateIn(fs1, args, cv, envFile)
  {
  }

  /** A loop that does not end the process leaves every selected environment
      whose `.md5` file exists up to date. */
  lemma {:induction false} BuildAllLeavesUpToDate(p: Progress, args: Args, cv: string,
                                                  files: seq<string>, world: Runner)
    requires p.halted.None?
    requires Separated(args, cv, files)
    requires forall f :: f in files && Selected(args, f) ==> Md5Path(f) in p.fs
    requires BuildAll(p, args, cv, files, world).halted.None?
    ensures forall f :: f in files && Selected(args, f) ==>
              UpToDateIn(BuildAll(p, args, cv, files, world).fs, args, cv, f)
    decreases |files|
  {
    if files != [] {
      var h, t := files[0], files[1..];
      var p1 := BuildEnv(p, args, cv, h, world);
      var r := BuildAll(p1, args, cv, t, world);
      assert BuildAll(p, args, cv, files, world) == r;
      if p1.halted.Some? {
        HaltedStaysHalted(p1, args, cv, t, world);
      }
      SeparatedTail(args, cv, files);
      SeparatedHead(args, cv, files);
      forall f | f in t && Selected(args, f) ensures Md5Path(f) in p1.fs {
        BuildEnvFrame(p, args, cv, h, world, Md5Path(f));
      }
      BuildAllLeavesUpToDate(p1, args, cv, t, world);
      if Selected(args, h) {
        BuildEnvLeavesUpToDate(p, args, cv, h, world);
        BuildAllFrame(p1, args, cv, t, world, MarkerOf(args, cv, h));
        BuildAllFrame(p1, args, cv, t, world, Md5Path(h));
        UpToDateTransfers(r.fs, p1.fs, args, cv, h);
      }
    }
  }

  /** A loop over environments that are all filtered out or up to date runs
      nothing and changes nothing. */
  lemma {:induction false} BuildAllIdle(p: Progress, args: Args, cv: string, files: seq<string>, world: Runner)
    requires forall f :: f in files ==>
               Decide(p.fs, args, cv, f).Filtered? || Decide(p.fs, args, cv, f).UpToDate?
    ensures BuildAll(p, args, cv, files, world) == p
    decreases |files|
  {
    if files != [] && p.halted.None? {
      assert files[0] in files;
      assert BuildEnv(p, args, cv, files[0], world) == p;
      forall f | f in files[1..] ensures f in files { }
      BuildAllIdle(p, args, cv, files[1..], world);
    }
  }

  /** Touching a file never changes a file that exists. */
  lemma TouchKeepsExisting(fs: FileSystem, path: string, q: string)
    requires q in fs
    ensures q in Touch(fs, path) && Touch(fs, path)[q] == fs[q]
  {
  }

  /** A run that ends the process early ends it with a non-zero status. */
  lemma {:induction false} HaltedStatusNonzero(p: Progress, args: Args, cv: string, files: seq<string>, world: Runner)
    requires p.halted.None?
    requires BuildAll(p, args, cv, files, world).halted.Some?
    ensures BuildAll(p, args, cv, files, world).halted.value != 0
    decreases |files|
  {
    var p1 := BuildEnv(p, args, cv, files[0], world);
    if p1.halted.Some? {
      HaltedStaysHalted(p1, args, cv, files[1..], world);
      match Decide(p.fs, args, cv, files[0])
      case MissingFingerprint =>
      case Build(force) =>
        ExitStatusOfFailure(RetryRun(world, |p.commands| + 1, args.maxRetry).end.code);
    } else {
      HaltedStatusNonzero(p1, args, cv, files[1..], world);
    }
  }

  /** The helper exits with status 0 exactly when the platform is supported,
      the batch is not refused, there are environment files, and none of
      them ends the process. */
  lemma RunStatusZero(args: Args, platform: string, fs: FileSystem, entries: seq<string>, world: Runner)
    ensures Run(args, platform, fs, entries, world).status == 0 <==>
              GetPlatform(platform).Family? &&
              (args.force || FinishCheckPath(args.installPath, CONTAINER_VERSION) !in fs) &&
              EnvFiles(args, GetPlatform(platform).dir, entries) != [] &&
              BuildAll(Progress(fs, [], [], None), args, CONTAINER_VERSION,
                       EnvFiles(args, GetPlatform(platform).dir, entries), world).halted.None?
  {
    if GetPlatform(platform).Family? {
      var files := EnvFiles(args, GetPlatform(platform).dir, entries);
      var p := BuildAll(Progress(fs, [], [], None), args, CONTAINER_VERSION, files, world);
      if p.halted.Some? {
        HaltedStatusNonzero(Progress(fs, [], [], None), args, CONTAINER_VERSION, files, world);
      }
    }
  }

  /** Every conda command a loop runs ends with `--force` exactly when
      `--force` or `--is_bactopia` is given. */
  lemma {:induction false} BuildAllForceFlag(p: Progress, args: Args, cv: string, files: seq<string>, world: Runner)
    requires forall c :: c in p.commands ==> (EndsWith(c, "--force") <==> args.force || args.isBactopia)
    ensures forall c :: c in BuildAll(p, args, cv, files, world).commands ==>
              (EndsWith(c, "--force") <==> args.force || args.isBactopia)
    decreases |files|
  {
    if files != [] && p.halted.None? {
      var p1 := BuildEnv(p, args, cv, files[0], world);
      forall c | c in p1.commands ensures EndsWith(c, "--force") <==> args.force || args.isBactopia {
        if c !in p.commands {
          match Decide(p.fs, args, cv, files[0])
          case Build(force) =>
            var cmd := CondaCommand(files[0], PrefixPath(args.installPath, EnvName(files[0]), cv), force);
            var run := RetryRun(world, |p.commands| + 1, args.maxRetry);
            assert p1.commands == p.commands + Repeat(cmd, run.invocations);
            assert c == cmd;
        }
      }
      BuildAllForceFlag(p1, args, cv, files[1..], world);
    }
  }

  /** The same for a whole run. */
  lemma RunForceFlag(args: Args, platform: string, fs: FileSystem, entries: seq<string>, world: Runner)
    ensures forall c :: c in Run(args, platform, fs, entries, world).commands ==>
              (EndsWith(c, "--force") <==> args.force || args.isBactopia)
  {
    if GetPlatform(platform).Family? {
      var files := EnvFiles(args, GetPlatform(platform).dir, entries);
      BuildAllForceFlag(Progress(fs, [], [], None), args, CONTAINER_VERSION, files, world);
    }
  }

  /** A successful run leaves every selected environment up to date and the
      written batch file in place, while the batch file that is checked
      stays absent: the next run without `--force` is not refused by it. */
  lemma SuccessfulRunEffects(args: Args, platform: string, fs: FileSystem, entries: seq<string>, world: Runner)
    requires GetPlatform(platform).Family?
    requires PathSort.Distinct(entries) && forall e :: e in entries ==> '/' !in e
    requires MarkersApart(args, CONTAINER_VERSION, EnvFiles(args, GetPlatform(platform).dir, entries))
    requires forall f :: f in EnvFiles(args, GetPlatform(platform).dir, entries) && Selected(args, f) ==>
               Md5Path(f) in fs
    requires Run(args, platform, fs, entries, world).status == 0
    ensures forall f :: f in EnvFiles(args, GetPlatform(platform).dir, entries) && Selected(args, f) ==>
              UpToDateIn(Run(args, platform, fs, entries, world).fs, args, CONTAINER_VERSION, f)
    ensures FinishWrittenPath(args.installPath, CONTAINER_VERSION) in Run(args, platform, fs, entries, world).fs
    ensures FinishCheckPath(args.installPath, CONTAINER_VERSION) !in fs ==>
              FinishCheckPath(args.installPath, CONTAINER_VERSION) !in Run(args, platform, fs, entries, world).fs
  {
    var cv := CONTAINER_VERSION;
    var files := EnvFiles(args, GetPlatform(platform).dir, entries);
    var p0 := Progress(fs, [], [], None);
    var p := BuildAll(p0, args, cv, files, world);
    RunStatusZero(args, platform, fs, entries, world);
    ListingNamesDistinct(args, GetPlatform(platform).dir, entries);
    var fs1 := Touch(p.fs, FinishWrittenPath(args.installPath, cv));
    assert Run(args, platform, fs, entries, world).fs == fs1;
    BuildAllLeavesUpToDate(p0, args, cv, files, world);
    forall f | f in files && Selected(args, f) ensures UpToDateIn(fs1, args, cv, f) {
      TouchKeepsExisting(p.fs, FinishWrittenPath(args.installPath, cv), MarkerOf(args, cv, f));
      TouchKeepsExisting(p.fs, FinishWrittenPath(args.installPath, cv), Md5Path(f));
    }
    var check := FinishCheckPath(args.installPath, cv);
    if check !in fs {
      forall f | f in files ensures MarkerOf(args, cv, f) != check {
        MarkerIsNotFinishCheck(args.installPath, EnvName(f), cv);
      }
      assert check !in Markers(args, cv, files);
      BuildAllFrame(p0, args, cv, files, world, check);
      FinishPathsDiffer(args.installPath, cv);
    }
  }

  /** Idempotence: after a successful run, running again without `--force`
      runs no conda command and changes no file, provided every selected
      environment has its `.md5` file. */
  lemma RerunBuildsNothing(args: Args, platform: string, fs: FileSystem, entries: seq<string>,
                           world: Runner, world2: Runner)
    requires GetPlatform(platform).Family?
    requires PathSort.Distinct(entries) && forall e :: e in entries ==> '/' !in e
    requires MarkersApart(args, CONTAINER_VERSION, EnvFiles(args, GetPlatform(platform).dir, entries))
    requires forall f :: f in EnvFiles(args, GetPlatform(platform).dir, entries) && Selected(args, f) ==>
               Md5Path(f) in fs
    requires Run(args, platform, fs, entries, world).status == 0
    ensures Run(args.(force := false), platform, Run(args, platform, fs, entries, world).fs, entries, world2).commands == []
    ensures Run(args.(force := false), platform, Run(args, platform, fs, entries, world).fs, entries, world2).fs
            == Run(args, platform, fs, entries, world).fs
  {
    var cv := CONTAINER_VERSION;
    var args2 := args.(force := false);
    var fs1 := Run(args, platform, fs, entries, world).fs;
    SuccessfulRunEffects(args, platform, fs, entries, world);
    RunStatusZero(args, platform, fs, entries, world);
    var files := EnvFiles(args, GetPlatform(platform).dir, entries);
    assert EnvFiles(args2, GetPlatform(platform).dir, entries) == files;
    if !(FinishCheckPath(args.installPath, cv) in fs1) {
      forall f | f in files
        ensures Decide(fs1, args2, cv, f).Filtered? || Decide(fs1, args2, cv, f).UpToDate?
      {
        assert Selected(args2, f) == Selected(args, f);
        assert MarkerOf(args2, cv, f) == MarkerOf(args, cv, f);
      }
      BuildAllIdle(Progress(fs1, [], [], None), args2, cv, files, world2);
    }
  }
}
