/** The pure parts of `bin/helpers/bactopia-build.py`: the log level, the
    platform directory, the comparison of `.md5` fingerprint files, the names
    and paths derived for each Conda environment, and the decision whether an
    environment is built, skipped or filtered out. */
module BuildHelper {
  import opened Wrappers
  import opened PyStrings

  /** The release the helper belongs to. */
  const VERSION: string := "1.5.6"

  // Logging levels: Python's standard ones and the two the helper adds for
  // the captured standard output and standard error of a command.
  const DEBUG: int := 10
  const INFO: int := 20
  const ERROR: int := 40
  const STDOUT: int := 11
  const STDERR: int := 12

  /** `set_log_level(error, debug)`: `--silent` wins over `--verbose`. */
  function SetLogLevel(error: bool, debug: bool): (level: int)
    ensures error ==> level == ERROR
    ensures !error && debug ==> level == DEBUG
    ensures !error && !debug ==> level == INFO
  {
    if error then ERROR else if debug then DEBUG else INFO
  }

  /** The logger emits a record whose level is at least the effective level. */
  predicate Emits(effective: int, level: int) {
    level >= effective
  }

  /** `execute` hands the captured output to the logger only when the
      effective level is named 'DEBUG'. */
  predicate LogsCommandOutput(effective: int) {
    effective == DEBUG
  }

  /** Command output reaches the log exactly when `--verbose` is given without
      `--silent`; the STDOUT and STDERR levels would be filtered out otherwise. */
  lemma CommandOutputOnlyWhenVerbose(silent: bool, verbose: bool)
    ensures LogsCommandOutput(SetLogLevel(silent, verbose)) <==> verbose && !silent
    ensures Emits(SetLogLevel(silent, verbose), STDOUT) <==> verbose && !silent
    ensures Emits(SetLogLevel(silent, verbose), STDERR) <==> verbose && !silent
  {
  }

  // ---------------------------------------------------------------------
  // Platform
  // ---------------------------------------------------------------------

  /** The directory of environment files for the platform, or the refusal
      to run on Windows (which ends the process with status 1). */
  datatype Platform = Family(dir: string) | Unsupported

  /** `get_platform()`, given the value of `sys.platform`. */
  function GetPlatform(platform: string): (p: Platform)
    ensures p.Unsupported? <==> platform == "win32"
    ensures p.Family? ==> p.dir == "mac" || p.dir == "linux"
    ensures p.Family? ==> (p.dir == "mac" <==> platform == "darwin")
  {
    if platform == "darwin" then Family("mac")
    else if platform == "win32" then Unsupported
    else Family("linux")
  }

  // ---------------------------------------------------------------------
  // Fingerprints
  // ---------------------------------------------------------------------

  /** Files on disk: path to contents. */
  type FileSystem = map<string, string>

  /** What `check_md5sum` reads from one file: `f.readline().rstrip()`. */
  function Fingerprint(contents: string): (fp: string)
    ensures |fp| <= |contents| && fp == contents[..|fp|]
    ensures NoLineEnd(fp) && (fp == [] || !IsSpace(fp[|fp| - 1]))
  {
    ReadLineIsFirstLine(contents);
    RStrip(ReadLine(contents))
  }

  /** A fingerprint is the first line without its trailing whitespace:
      trailing blanks, the line terminator and whatever follows it do not
      matter. */
  lemma FingerprintIsFirstLine(line: string, blanks: string, rest: string)
    requires NoLineEnd(line) && NoLineEnd(blanks) && AllSpace(blanks)
    requires rest == [] || IsLineEnd(rest[0])
    ensures Fingerprint(line + blanks + rest) == RStrip(line)
  {
    ReadLineAppend(line + blanks, rest);
    assert line + blanks + rest == (line + blanks) + rest;
    var tail := ReadLine(rest);
    assert tail == [] || tail == "\n";
    assert AllSpace(blanks + tail);
    assert line + blanks + tail == line + (blanks + tail);
    RStripAppendSpace(line, blanks + tail);
  }

  /** `check_md5sum(expected_md5, current_md5)`; reading a file that does not
      exist raises, which is `None` here. */
  function CheckMd5sum(fs: FileSystem, expectedMd5: string, currentMd5: string): (r: Option<bool>)
    ensures r.None? <==> expectedMd5 !in fs || currentMd5 !in fs
  {
    if expectedMd5 !in fs || currentMd5 !in fs then None
    else Some(Fingerprint(fs[expectedMd5]) == Fingerprint(fs[currentMd5]))
  }

  /** The comparison does not depend on which file is "expected", and a
      readable file agrees with itself. */
  lemma CheckMd5sumSymmetric(fs: FileSystem, a: string, b: string)
    ensures CheckMd5sum(fs, a, b) == CheckMd5sum(fs, b, a)
    ensures a in fs ==> CheckMd5sum(fs, a, a) == Some(true)
  {
  }

  /** Two readable files agree exactly when their first lines agree once
      trailing whitespace is stripped, whatever follows those lines. */
  lemma CheckMd5sumComparesFirstLines(fs: FileSystem, a: string, b: string,
                                      la: string, lb: string, ra: string, rb: string)
    requires a in fs && b in fs
    requires NoLineEnd(la) && NoLineEnd(lb)
    requires ra == [] || IsLineEnd(ra[0])
    requires rb == [] || IsLineEnd(rb[0])
    requires fs[a] == la + ra && fs[b] == lb + rb
    ensures CheckMd5sum(fs, a, b) == Some(RStrip(la) == RStrip(lb))
  {
    assert la + [] + ra == la + ra;
    assert lb + [] + rb == lb + rb;
    FingerprintIsFirstLine(la, [], ra);
    FingerprintIsFirstLine(lb, [], rb);
  }

  // ---------------------------------------------------------------------
  // Names and paths
  // ---------------------------------------------------------------------

  /** `CONTAINER_VERSION`: the first two dot-separated fields of the version
      followed by ".x"; a version without exactly three fields makes the
      unpacking raise, which is `None` here. */
  function ContainerVersion(version: string): Option<string> {
    var parts := Split(version, '.');
    if |parts| == 3 then Some(parts[0] + "." + parts[1] + ".x") else None
  }

  /** "M.m.p" becomes "M.m.x". */
  lemma ContainerVersionOf(major: string, minor: string, patch: string)
    requires '.' !in major && '.' !in minor && '.' !in patch
    ensures ContainerVersion(major + "." + minor + "." + patch) == Some(major + "." + minor + ".x")
  {
    var parts := [major, minor, patch];
    assert parts[1..] == [minor, patch] && parts[1..][1..] == [patch];
    assert Join([minor, patch], '.') == minor + "." + patch;
    assert Join(parts, '.') == major + "." + (minor + "." + patch);
    assert major + "." + (minor + "." + patch) == major + "." + minor + "." + patch;
    SplitJoin(parts, '.');
  }

  /** The version tag of the environments this release builds. */
  const CONTAINER_VERSION: string := "1.5.x"

  /** The tag is the one lines 139-140 derive from VERSION. */
  lemma ContainerVersionOfRelease()
    ensures ContainerVersion(VERSION) == Some(CONTAINER_VERSION)
  {
    ContainerVersionOf("1", "5", "6");
    assert "1" + "." + "5" + "." + "6" == VERSION;
    assert "1" + "." + "5" + ".x" == CONTAINER_VERSION;
  }

  /** `os.path.splitext(os.path.basename(env_file))[0]`. */
  function EnvName(envFile: string): (name: string)
    ensures '/' !in name
  {
    StripExtension(Basename(envFile))
  }

  /** The environment of "<dir>/<stem>.<ext>" is named "<stem>". */
  lemma EnvNameOfListedFile(dir: string, stem: string, ext: string)
    requires '/' !in stem && '/' !in ext && '.' !in ext
    requires |stem| > 0 && stem[0] != '.'
    ensures EnvName(dir + "/" + stem + "." + ext) == stem
  {
    assert dir + "/" + stem + "." + ext == dir + "/" + (stem + "." + ext);
    BasenameOfEntry(dir, stem + "." + ext);
    StripExtensionOfStem(stem, ext);
  }

  /** `env_file.replace('.yml', '.md5')`, whatever `--ext` says. */
  function Md5Path(envFile: string): string {
    ReplaceAll(envFile, ".yml", ".md5")
  }

  /** A path without ".yml" is its own `.md5` path. */
  lemma Md5PathWithoutYml(envFile: string)
    requires forall i :: !OccursAt(envFile, ".yml", i)
    ensures Md5Path(envFile) == envFile
  {
    ReplaceAbsent(envFile, ".yml", ".md5");
  }

  /** A non-empty `a` without ".yml" in it does not start "<a>.yml" with ".yml". */
  lemma YmlNotAtFront(a: string)
    requires a != []
    requires !OccursAt(a, ".yml", 0)
    ensures !OccursAt(a + ".yml", ".yml", 0)
  {
    var s := a + ".yml";
    if |a| >= 4 {
      assert s[..4] == a[..4];
    } else {
      assert s[|a|] == '.';
      assert s[..4][|a|] == '.';
    }
  }

  /** "<a>.yml" has the `.md5` path "<a>.md5" when ".yml" occurs only at its end. */
  lemma {:induction false} Md5PathOfYml(a: string)
    requires forall i :: !OccursAt(a, ".yml", i)
    ensures Md5Path(a + ".yml") == a + ".md5"
    decreases |a|
  {
    var s := a + ".yml";
    if a == [] {
      assert s == ".yml";
      assert s[4..] == [];
    } else {
      YmlNotAtFront(a);
      NoOccurrenceInTail(a, ".yml");
      assert s[1..] == a[1..] + ".yml";
      Md5PathOfYml(a[1..]);
      assert [a[0]] + (a[1..] + ".md5") == a + ".md5";
    }
  }

  /** Every ".yml" becomes ".md5", left to right: the first occurrence is
      replaced and the rest of the path is treated the same way. */
  lemma {:induction false} Md5PathSplit(a: string, b: string)
    requires forall i :: !OccursAt(a, ".yml", i)
    ensures Md5Path(a + ".yml" + b) == a + ".md5" + Md5Path(b)
    decreases |a|
  {
    var s := a + ".yml" + b;
    if a == [] {
      assert s[..4] == ".yml";
      assert s[4..] == b;
    } else {
      YmlNotAtFront(a);
      assert s[..4] == (a + ".yml")[..4];
      NoOccurrenceInTail(a, ".yml");
      assert s[1..] == a[1..] + ".yml" + b;
      Md5PathSplit(a[1..], b);
      assert [a[0]] + (a[1..] + ".md5" + Md5Path(b)) == a + ".md5" + Md5Path(b);
    }
  }

  /** The `.md5` path is as long as the environment file's path. */
  lemma Md5PathLength(envFile: string)
    ensures |Md5Path(envFile)| == |envFile|
  {
    ReplaceSameLength(envFile, ".yml", ".md5");
  }

  /** `prefix`: where `conda env create` installs the environment. */
  function PrefixPath(installPath: string, envName: string, cv: string): string {
    installPath + "/" + envName + "-" + cv
  }

  /** `envbuilt_file`, spelled out separately in the source, is the marker
      file inside the prefix. */
  function MarkerPath(installPath: string, envName: string, cv: string): (p: string)
    ensures p == PrefixPath(installPath, envName, cv) + "/env-built.txt"
  {
    installPath + "/" + envName + "-" + cv + "/env-built.txt"
  }

  /** Different environment names never share a marker file. */
  lemma MarkerPathsDistinct(installPath: string, n1: string, n2: string, cv: string)
    requires n1 != n2
    ensures MarkerPath(installPath, n1, cv) != MarkerPath(installPath, n2, cv)
  {
    var p1 := MarkerPath(installPath, n1, cv);
    var p2 := MarkerPath(installPath, n2, cv);
    if |n1| == |n2| {
      assert n1 == p1[|installPath| + 1..|installPath| + 1 + |n1|];
      assert n2 == p2[|installPath| + 1..|installPath| + 1 + |n2|];
    } else {
      assert |p1| != |p2|;
    }
  }

  /** `finish_file`, whose presence stops a run without `--force`. */
  function FinishCheckPath(installPath: string, cv: string): string {
    installPath + "/envs-build-" + cv + ".txt"
  }

  /** The batch file a completed run touches. */
  function FinishWrittenPath(installPath: string, cv: string): string {
    installPath + "/envs-built-" + cv + ".txt"
  }

  /** The batch file that is checked is never the one that is written. */
  lemma FinishPathsDiffer(installPath: string, cv: string)
    ensures FinishCheckPath(installPath, cv) != FinishWrittenPath(installPath, cv)
  {
    assert FinishCheckPath(installPath, cv)[|installPath| + 10] == 'd';
    assert FinishWrittenPath(installPath, cv)[|installPath| + 10] == 't';
  }

  /** No environment's marker is the checked batch file, when the version
      tag does not end in 't' (as "1.5.x" does not). */
  lemma MarkerIsNotFinishCheck(installPath: string, envName: string, cv: string)
    requires cv != [] && cv[|cv| - 1] != 't'
    ensures MarkerPath(installPath, envName, cv) != FinishCheckPath(installPath, cv)
  {
    var m := MarkerPath(installPath, envName, cv);
    var c := FinishCheckPath(installPath, cv);
    assert m[|m| - 5] == 't';
    assert c[|c| - 5] == cv[|cv| - 1];
  }

  // ---------------------------------------------------------------------
  // Per-environment decision
  // ---------------------------------------------------------------------

  /** The command-line options the main block reads. */
  datatype Args = Args(
    condaEnvs: string,        // directory holding one sub-directory per platform
    installPath: string,      // where environments are installed
    ext: string,              // `--ext`, "yml" by default
    envname: Option<string>,  // `--envname`
    maxRetry: int,            // `--max_retry`, 5 by default
    force: bool,              // `--force`
    isBactopia: bool,         // `--is_bactopia`
    verbose: bool,            // `--verbose`
    silent: bool              // `--silent`
  )

  /** `--envname` filters only when it is given and not empty. */
  predicate Selected(args: Args, envFile: string) {
    args.envname.None? || args.envname.value == "" || args.envname.value == EnvName(envFile)
  }

  function MarkerOf(args: Args, cv: string, envFile: string): string {
    MarkerPath(args.installPath, EnvName(envFile), cv)
  }

  /** What the main block does with one environment file. */
  datatype Decision =
    | Filtered                 // another `--envname` was asked for
    | UpToDate                 // marker present and fingerprints agree: skipped
    | Build(force: bool)       // run `conda env create`, with `--force` or not
    | MissingFingerprint       // marker present but the `.md5` file is not: `check_md5sum` raises

  /** The build decision of lines 164-185 of the helper. */
  function Decide(fs: FileSystem, args: Args, cv: string, envFile: string): (d: Decision)
    ensures d.Filtered? <==> !Selected(args, envFile)
    ensures d.Build? <==>
              (Selected(args, envFile) &&
               (args.force || MarkerOf(args, cv, envFile) !in fs
                || CheckMd5sum(fs, Md5Path(envFile), MarkerOf(args, cv, envFile)) == Some(false)))
    ensures d.UpToDate? <==>
              (Selected(args, envFile) && !args.force &&
               CheckMd5sum(fs, Md5Path(envFile), MarkerOf(args, cv, envFile)) == Some(true))
    ensures d.MissingFingerprint? <==>
              (Selected(args, envFile) && !args.force &&
               MarkerOf(args, cv, envFile) in fs && Md5Path(envFile) !in fs)
    ensures d.Build? ==> (d.force <==> args.force || args.isBactopia)
  {
    var marker := MarkerOf(args, cv, envFile);
    if !Selected(args, envFile) then Filtered
    else if marker in fs && !args.force then
      match CheckMd5sum(fs, Md5Path(envFile), marker)
      case None => MissingFingerprint
      case Some(current) => if current then UpToDate else Build(args.isBactopia)
    else Build(args.force || args.isBactopia)
  }

  /** `cp src dst`; a missing source makes `cp` fail, which the helper ignores. */
  function Copy(fs: FileSystem, src: string, dst: string): FileSystem {
    if src in fs then fs[dst := fs[src]] else fs
  }

  /** `touch path`: creates an empty file, leaves an existing one as it is. */
  function Touch(fs: FileSystem, path: string): FileSystem {
    if path in fs then fs else fs[path := ""]
  }

  /** Once the `.md5` file is copied onto the marker, the next decision
      without `--force` skips the environment. */
  lemma CopiedMarkerIsUpToDate(fs: FileSystem, args: Args, cv: string, envFile: string)
    requires Md5Path(envFile) in fs
    requires Md5Path(envFile) != MarkerOf(args, cv, envFile)
    requires Selected(args, envFile) && !args.force
    ensures Decide(Copy(fs, Md5Path(envFile), MarkerOf(args, cv, envFile)), args, cv, envFile) == UpToDate
  {
  }

  /** `f'conda env create -f {env_file} --prefix {prefix} {force}'`. */
  function CondaCommand(envFile: string, prefix: string, force: bool): (cmd: string)
    ensures EndsWith(cmd, "--force") <==> force
  {
    var cmd := "conda env create -f " + envFile + " --prefix " + prefix + " "
      + (if force then "--force" else "");
    assert !force ==> cmd[|cmd| - 1] == ' ';
    cmd
  }
}
