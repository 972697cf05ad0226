/** `execute` and the retry loop of lines 187-200 of the helper: the conda
    command is run until it succeeds; after enough failures the next run is
    made with `allow_fail`, and its failure ends the process with the
    command's exit status. */
module RetryLoop {

  /** The exit status of a failed command: never 0, and within what a
      process can report. */
  type ReturnCode = c: int | c != 0 && -256 < c < 256 witness 1

  /** What one run of an external command did. */
  datatype CmdResult = Succeeded | Failed(returncode: ReturnCode)

  /** The outside world: `world(n)` is what the n-th conda command of a run
      of the helper does (n counts from 1). */
  type Runner = nat -> CmdResult

  /** What `execute` does: it returns (True, or None on failure), or it ends
      the process through `sys.exit`. */
  datatype Executed = Returned(ok: bool) | ExitedWith(code: int)

  /** `execute(cmd, allow_fail=allowFail)` for a command that does `result`. */
  function Execute(result: CmdResult, allowFail: bool): (r: Executed)
    ensures r.ExitedWith? <==> result.Failed? && allowFail
    ensures r.ExitedWith? ==> r.code == result.returncode
    ensures r.Returned? ==> (r.ok <==> result.Succeeded?)
  {
    match result
    case Succeeded => Returned(true)
    case Failed(code) => if allowFail then ExitedWith(code) else Returned(false)
  }

  /** `execute` as written: the `except` clause names the module `executor`,
      which is never imported, so any failure raises NameError and the
      process ends with status 1. */
  function ExecuteAsWritten(result: CmdResult, allowFail: bool): (r: Executed)
    ensures r.ExitedWith? <==> result.Failed?
    ensures r.ExitedWith? ==> r.code == 1
  {
    match result
    case Succeeded => Returned(true)
    case Failed(_) => ExitedWith(1)
  }

  /** A first failure that `execute` means to report as `None` (so that the
      loop retries) ends the process as written. */
  lemma ExecuteAsWrittenNeverRetries(code: ReturnCode)
    ensures Execute(Failed(code), false) == Returned(false)
    ensures ExecuteAsWritten(Failed(code), false) == ExitedWith(1)
  {
  }

  /** After this many failures `allow_fail` is on: the failure at which the
      count before it (`retry`) exceeds `max_retry`. */
  function AllowFailAfter(maxRetry: int): (k: nat)
    ensures k >= 1 && k - 1 > maxRetry
    ensures k == 1 || k - 2 <= maxRetry
  {
    if maxRetry + 2 >= 1 then maxRetry + 2 else 1
  }

  /** The sleeps after the first `n` failures: 30, 60, ..., 30 * n seconds. */
  function Backoff(n: nat): (s: seq<nat>)
    ensures |s| == n
    ensures forall j :: 0 <= j < n ==> s[j] == 30 * (j + 1)
  {
    if n == 0 then [] else Backoff(n - 1) + [30 * n]
  }

  /** The first invocation in `from..last` that succeeds, or `last + 1`. */
  function FirstSuccess(world: Runner, from: nat, last: nat): (k: nat)
    requires from <= last + 1
    ensures from <= k <= last + 1
    ensures forall n :: from <= n < k ==> world(n).Failed?
    ensures k <= last ==> world(k).Succeeded?
    decreases last + 1 - from
  {
    if from > last || world(from).Succeeded? then from
    else FirstSuccess(world, from + 1, last)
  }

  /** How one environment's build ended. */
  datatype BuildEnd = Built | Terminated(code: int)

  /** One pass of the retry loop: how many times conda ran, the sleeps in
      between, and how it ended. */
  datatype BuildRun = BuildRun(invocations: nat, sleeps: seq<nat>, end: BuildEnd)

  /** The retry loop when its first command is the world's invocation
      `first`: it stops at the first success, or at the invocation made with
      `allow_fail`, whose failure ends the process. */
  function RetryRun(world: Runner, first: nat, maxRetry: int): (run: BuildRun)
    ensures 1 <= run.invocations <= AllowFailAfter(maxRetry) + 1
    ensures forall n :: first <= n < first + run.invocations - 1 ==> world(n).Failed?
    ensures run.end.Built? <==> world(first + run.invocations - 1).Succeeded?
    ensures run.end.Terminated? ==>
              run.invocations == AllowFailAfter(maxRetry) + 1 &&
              run.end.code == world(first + run.invocations - 1).returncode
    ensures run.sleeps == Backoff(run.invocations - 1)
  {
    var last := first + AllowFailAfter(maxRetry);
    var k := FirstSuccess(world, first, last);
    if k <= last then BuildRun(k - first + 1, Backoff(k - first), Built)
    else BuildRun(last - first + 1, Backoff(last - first), Terminated(world(last).returncode))
  }

  /** The loop of lines 187-199, run with the intended `execute`. */
  method RetryBuild(world: Runner, first: nat, maxRetry: int) returns (run: BuildRun)
    ensures run == RetryRun(world, first, maxRetry)
  {
    var retry: nat := 0;
    var allowFail := false;
    var success := false;
    var sleeps: seq<nat> := [];
    var n: nat := 0;  // commands run so far
    while !success
      invariant !success ==> retry == n && n <= AllowFailAfter(maxRetry)
      invariant !success ==> (allowFail <==> n == AllowFailAfter(maxRetry))
      invariant !success ==> forall m :: first <= m < first + n ==> world(m).Failed?
      invariant !success ==> sleeps == Backoff(n)
      invariant success ==> 1 <= n <= AllowFailAfter(maxRetry) + 1
      invariant success ==> world(first + n - 1).Succeeded?
      invariant success ==> forall m :: first <= m < first + n - 1 ==> world(m).Failed?
      invariant success ==> sleeps == Backoff(n - 1)
      decreases AllowFailAfter(maxRetry) + 1 - n
    {
      n := n + 1;
      var result := Execute(world(first + n - 1), allowFail);
      match result
      case ExitedWith(code) =>
        run := BuildRun(n, sleeps, Terminated(code));
        return;
      case Returned(ok) =>
        if !ok {
          if retry > maxRetry {
            allowFail := true;
          }
          retry := retry + 1;
          sleeps := sleeps + [30 * retry];
        } else {
          success := true;
        }
    }
    run := BuildRun(n, sleeps, Built);
  }

  /** If the command first succeeds on invocation k (k not beyond the
      `allow_fail` one), the loop runs it exactly k times, sleeping 30 * j
      after the j-th failure, and ends built. */
  lemma FirstSuccessAt(world: Runner, first: nat, maxRetry: int, k: nat)
    requires 1 <= k <= AllowFailAfter(maxRetry) + 1
    requires forall n :: first <= n < first + k - 1 ==> world(n).Failed?
    requires world(first + k - 1).Succeeded?
    ensures RetryRun(world, first, maxRetry).invocations == k
    ensures RetryRun(world, first, maxRetry).end == Built
    ensures forall j :: 1 <= j < k ==> RetryRun(world, first, maxRetry).sleeps[j - 1] == 30 * j
  {
    var run := RetryRun(world, first, maxRetry);
    assert first <= first + run.invocations - 1;
  }

  /** A command that always fails is run max(2, maxRetry + 3) times: the
      last run is made with `allow_fail` and ends the process with that
      run's exit status, which is never 0. */
  lemma AlwaysFailingCommand(world: Runner, first: nat, maxRetry: int)
    requires forall n :: first <= n ==> world(n).Failed?
    ensures RetryRun(world, first, maxRetry).invocations ==
              (if maxRetry + 3 >= 2 then maxRetry + 3 else 2)
    ensures RetryRun(world, first, maxRetry).end ==
              Terminated(world(first + RetryRun(world, first, maxRetry).invocations - 1).returncode)
    ensures RetryRun(world, first, maxRetry).end.code != 0
  {
    var run := RetryRun(world, first, maxRetry);
    assert world(first + run.invocations - 1).Failed?;
  }

  /** The loop as written: `execute` (line 85) turns the first failure
      into the end of the process with status 1, before the loop can reach
      its sleep. */
  function RetryRunAsWritten(world: Runner, first: nat): (run: BuildRun)
    ensures run.invocations == 1 && run.sleeps == []
    ensures run.end.Built? <==> world(first).Succeeded?
    ensures run.end.Terminated? ==> run.end.code == 1
  {
    var failed := ExecuteAsWritten(world(first), false).ExitedWith?;
    if failed then BuildRun(1, [], Terminated(1)) else BuildRun(1, [], Built)
  }

  /** The loop with the intended `execute` but the sleep as written: the
      `sys` module has no `sleep`, so the first failure that `execute`
      reports as `None` reaches line 197, raises AttributeError and ends the
      process with status 1 before any sleep happens. */
  function RetryRunSleepAsWritten(world: Runner, first: nat): (run: BuildRun)
    ensures run.invocations == 1 && run.sleeps == []
    ensures run.end.Built? <==> world(first).Succeeded?
    ensures run.end.Terminated? ==> run.end.code == 1
  {
    // The first run is made with `allow_fail` off (line 188).
    if Execute(world(first), false) == Returned(true) then BuildRun(1, [], Built)
    else BuildRun(1, [], Terminated(1))
  }

  /** A command that fails once with exit status 2 and then succeeds is
      built on its second run by the intended loop, but ends the helper with
      status 1 as written (line 85). */
  lemma RetryAsWrittenStopsAtFirstFailure(world: Runner, first: nat, maxRetry: int)
    requires world(first) == Failed(2) && world(first + 1) == Succeeded
    ensures RetryRunAsWritten(world, first) == BuildRun(1, [], Terminated(1))
    ensures RetryRun(world, first, maxRetry) == BuildRun(2, [30], Built)
  {
    FirstSuccessAt(world, first, maxRetry, 2);
    var run := RetryRun(world, first, maxRetry);
    assert run.sleeps == Backoff(1);
  }

  /** The same command, with `execute` corrected, still ends the helper with
      status 1 and no sleep, through `sys.sleep` (line 197). */
  lemma SleepAsWrittenStopsAtFirstFailure(world: Runner, first: nat, maxRetry: int)
    requires world(first) == Failed(2) && world(first + 1) == Succeeded
    ensures RetryRunSleepAsWritten(world, first) == BuildRun(1, [], Terminated(1))
    ensures RetryRun(world, first, maxRetry) == BuildRun(2, [30], Built)
  {
    RetryAsWrittenStopsAtFirstFailure(world, first, maxRetry);
  }
}
