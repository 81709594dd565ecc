/** The task runner as configured with `exitOnError: true`: tasks are taken
    in list order; a disabled task is passed over, a skipped one is marked
    skipped, any other is started; the first started task that fails ends
    the run, and no task after it is started. The runner itself is a
    foreign library; this module states only that contract. */
module Runner {
  import opened Wrappers
  import opened Tasks
  import opened FileSystem
  import opened Files

  // ---------------------------------------------------------------------
  // What a successful action does to the disk
  // ---------------------------------------------------------------------

  /** The paths a `strip: 1` extraction of the archive creates below `dest`. */
  function Extracted(dest: string, archive: set<string>): set<string> {
    set e | e in archive :: PathJoin(dest, e)
  }

  /** The disk after the action of a task completes. Installs, `git init`
      and the version check write nothing the model tracks. */
  function Effect(a: Action, d: Disk, archive: set<string>): Disk {
    match a
    case MakeDirectory(dir) => d.MakeDir(dir)
    case DownloadRelease(target) => d.Touch(target)
    case ExtractRelease(_, dest) => d.AddAll(Extracted(dest, archive))
    case WriteEnvFile(appDir, creds) => d.WriteFile(EnvPath(appDir), DotEnv(creds))
    case WriteScriptsConfig(appDir, n, f) => ConfigWritten(d, appDir, n, f)
    case RemoveTemplates(appDir, rm) => d.RemoveTrees(RemovalTargets(appDir, rm))
    case InitGit(_) => d
    case InstallPackages(_, _) => d
    case CheckCompatibility => d
    case RunShell(_, _) => d
  }

  /** Actions whose effect on the disk the model does not track. */
  predicate Untracked(a: Action) {
    a.InitGit? || a.InstallPackages? || a.CheckCompatibility? || a.RunShell?
  }

  /** Carries out a task's action on the mutable disk. */
  method Perform(a: Action, fs: Fs, archive: set<string>)
    modifies fs
    ensures fs.Snapshot() == Effect(a, old(fs.Snapshot()), archive)
  {
    match a {
      case MakeDirectory(dir) => fs.MakeDir(dir);
      case DownloadRelease(target) => fs.Touch(target);
      case ExtractRelease(_, dest) => fs.AddAll(Extracted(dest, archive));
      case WriteEnvFile(appDir, creds) => WriteDotEnv(fs, appDir, creds);
      case WriteScriptsConfig(appDir, n, f) => WriteConfigJson(fs, appDir, n, f);
      case RemoveTemplates(appDir, rm) => RemoveUnusedTemplates(fs, appDir, rm);
      case InitGit(_) =>
      case InstallPackages(_, _) =>
      case CheckCompatibility =>
      case RunShell(_, _) =>
    }
  }

  // ---------------------------------------------------------------------
  // The run, as a specification
  // ---------------------------------------------------------------------

  /** Task `j` is started and its action fails. */
  predicate Fails(steps: seq<Step>, faults: map<nat, string>, j: nat)
    requires j < |steps|
  {
    Runs(steps[j]) && j in faults
  }

  /** The first task at or after `from` that is started and fails. */
  function FirstFailure(steps: seq<Step>, faults: map<nat, string>, from: nat): (r: Option<nat>)
    requires from <= |steps|
    ensures r.Some? ==> from <= r.value < |steps| && Fails(steps, faults, r.value)
    ensures r.Some? ==> forall j: nat :: from <= j < r.value ==> !Fails(steps, faults, j)
    ensures r.None? ==> forall j: nat :: from <= j < |steps| ==> !Fails(steps, faults, j)
    decreases |steps| - from
  {
    if from == |steps| then None
    else if Fails(steps, faults, from) then Some(from)
    else FirstFailure(steps, faults, from + 1)
  }

  /** What the run reports: completion exactly when no started task fails;
      otherwise the first failing task, its title and its error. */
  function Outcome(steps: seq<Step>, faults: map<nat, string>): (r: RunResult)
    ensures r == Completed <==> forall j: nat :: j < |steps| ==> !Fails(steps, faults, j)
    ensures r.FailedAt? ==>
      && r.index < |steps| && Fails(steps, faults, r.index)
      && r.title == steps[r.index].title && r.error == faults[r.index]
      && forall j: nat :: j < r.index ==> !Fails(steps, faults, j)
  {
    match FirstFailure(steps, faults, 0)
    case None => Completed
    case Some(k) => FailedAt(k, steps[k].title, faults[k])
  }

  /** How many tasks the run gets through before it stops: all of them, or
      those before the failing one. */
  function Reached(steps: seq<Step>, faults: map<nat, string>): (n: nat)
    ensures n <= |steps|
    ensures forall j: nat :: j < n ==> !Fails(steps, faults, j)
    ensures n < |steps| ==> Fails(steps, faults, n)
    ensures Outcome(steps, faults) == Completed ==> n == |steps|
    ensures Outcome(steps, faults).FailedAt? ==> n == Outcome(steps, faults).index
  {
    match FirstFailure(steps, faults, 0)
    case None => |steps|
    case Some(k) => k
  }

  /** Where task `i` ends up. A task after the failing one is never started;
      a task that is started succeeds unless its action fails. */
  function StateOf(steps: seq<Step>, faults: map<nat, string>, i: nat): (s: StepState)
    requires i < |steps|
    ensures s == Aborted <==> Outcome(steps, faults).FailedAt? && Outcome(steps, faults).index < i
    ensures s == Succeeded <==> i < Reached(steps, faults) && Runs(steps[i])
    ensures s.Failed? <==> Outcome(steps, faults).FailedAt? && Outcome(steps, faults).index == i
    ensures s.Skipped? ==> steps[i].enabled && steps[i].skip == Some(s.reason)
    ensures s == Disabled ==> !steps[i].enabled
  {
    var reached := Reached(steps, faults);
    if i > reached then Aborted
    else if !steps[i].enabled then Disabled
    else if steps[i].skip.Some? then Skipped(steps[i].skip.value)
    else if i in faults then assert Fails(steps, faults, i); Failed(faults[i])
    else Succeeded
  }

  /** The disk after the first `n` tasks, each started task applying its
      effect unless it fails. */
  function Applied(d: Disk, steps: seq<Step>, faults: map<nat, string>, archive: set<string>, n: nat): Disk
    requires n <= |steps|
  {
    if n == 0 then d
    else
      var before := Applied(d, steps, faults, archive, n - 1);
      if Fails(steps, faults, n - 1) || !Runs(steps[n - 1]) then before
      else Effect(steps[n - 1].action, before, archive)
  }

  // ---------------------------------------------------------------------
  // The run, as a loop
  // ---------------------------------------------------------------------

  /** `new Listr(steps, { exitOnError: true }).run()`. */
  method Run(steps: array<Step>, fs: Fs, world: World) returns (result: RunResult, states: seq<StepState>)
    modifies fs
    ensures result == Outcome(steps[..], world.faults)
    ensures |states| == steps.Length
    ensures forall i :: 0 <= i < steps.Length ==> states[i] == StateOf(steps[..], world.faults, i)
    ensures fs.Snapshot() ==
      Applied(old(fs.Snapshot()), steps[..], world.faults, world.archive, Reached(steps[..], world.faults))
  {
    ghost var all := steps[..];
    ghost var d0 := fs.Snapshot();
    states := [];
    result := Completed;
    var i: nat := 0;
    while i < steps.Length
      invariant i <= steps.Length
      invariant |states| == i
      invariant forall j: nat :: j < i ==> !Fails(all, world.faults, j)
      invariant forall j :: 0 <= j < i ==> states[j] == StateOf(all, world.faults, j)
      invariant fs.Snapshot() == Applied(d0, all, world.faults, world.archive, i)
    {
      var s := steps[i];
      if !s.enabled {
        states := states + [Disabled];
      } else if s.skip.Some? {
        states := states + [Skipped(s.skip.value)];
      } else if i in world.faults {
        break;
      } else {
        Perform(s.action, fs, world.archive);
        states := states + [Succeeded];
      }
      i := i + 1;
    }
    if i < steps.Length {
      assert Fails(all, world.faults, i);
      result := FailedAt(i, steps[i].title, world.faults[i]);
      states := states + [Failed(world.faults[i])] + seq(steps.Length - i - 1, _ => Aborted);
    }
  }

  /** Hands a task list to the runner, as the array it works on. */
  method RunList(steps: seq<Step>, fs: Fs, world: World) returns (outcome: RunResult, states: seq<StepState>)
    modifies fs
    ensures outcome == Outcome(steps, world.faults)
    ensures |states| == |steps|
    ensures forall i :: 0 <= i < |steps| ==> states[i] == StateOf(steps, world.faults, i)
    ensures fs.Snapshot() == Applied(old(fs.Snapshot()), steps, world.faults, world.archive, Reached(steps, world.faults))
  {
    var tasks := new Step[|steps|](i requires 0 <= i < |steps| => steps[i]);
    assert tasks[..] == steps;
    outcome, states := Run(tasks, fs, world);
  }

  // ---------------------------------------------------------------------
  // Properties of the run
  // ---------------------------------------------------------------------

  /** Disk effects depend only on the tasks before `n`. */
  lemma {:induction false} AppliedPrefix(d: Disk, a: seq<Step>, b: seq<Step>, faults: map<nat, string>, archive: set<string>, n: nat)
    requires n <= |a| && n <= |b| && a[..n] == b[..n]
    ensures Applied(d, a, faults, archive, n) == Applied(d, b, faults, archive, n)
  {
    if n > 0 {
      assert a[..n - 1] == b[..n - 1];
      assert a[n - 1] == a[..n][n - 1] == b[..n][n - 1] == b[n - 1];
      AppliedPrefix(d, a, b, faults, archive, n - 1);
    }
  }

  /** Nothing after the first failure is started: two task lists that agree
      up to and including the failing task give the same report and the
      same disk, whatever follows. */
  lemma LaterStepsNeverStart(d: Disk, a: seq<Step>, b: seq<Step>, faults: map<nat, string>, archive: set<string>)
    requires Outcome(a, faults).FailedAt?
    requires Outcome(a, faults).index < |b|
    requires a[..Outcome(a, faults).index + 1] == b[..Outcome(a, faults).index + 1]
    ensures Outcome(b, faults) == Outcome(a, faults)
    ensures Reached(b, faults) == Reached(a, faults)
    ensures Applied(d, a, faults, archive, Reached(a, faults)) == Applied(d, b, faults, archive, Reached(b, faults))
  {
    var k := Outcome(a, faults).index;
    forall j: nat | j <= k
      ensures a[j] == b[j]
    {
      assert a[j] == a[..k + 1][j] && b[j] == b[..k + 1][j];
    }
    assert Fails(b, faults, k);
    forall j: nat | j < k
      ensures !Fails(b, faults, j)
    {
      assert !Fails(a, faults, j);
    }
    assert a[..k] == b[..k];
    AppliedPrefix(d, a, b, faults, archive, k);
  }

  /** Tasks whose actions leave no tracked trace do not change the disk,
      whether they run, fail or are passed over. */
  lemma {:induction false} UntrackedTail(d: Disk, steps: seq<Step>, faults: map<nat, string>, archive: set<string>, n: nat, m: nat)
    requires n <= m <= |steps|
    requires forall j :: n <= j < m ==> Untracked(steps[j].action)
    ensures Applied(d, steps, faults, archive, m) == Applied(d, steps, faults, archive, n)
    decreases m - n
  {
    if n < m {
      UntrackedTail(d, steps, faults, archive, n, m - 1);
    }
  }

  /** Tasks the runner does not start (disabled or skipped) leave the disk
      as it was: a list of which no task is started changes nothing. */
  lemma {:induction false} NotStartedHasNoEffect(d: Disk, steps: seq<Step>, faults: map<nat, string>, archive: set<string>, n: nat)
    requires n <= |steps|
    requires forall j :: 0 <= j < n ==> !Runs(steps[j])
    ensures Applied(d, steps, faults, archive, n) == d
  {
    if n > 0 {
      NotStartedHasNoEffect(d, steps, faults, archive, n - 1);
    }
  }
}
