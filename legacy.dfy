/** The standalone entry point (src/create-grandstack-app.js): sanitises the
    project name, applies two exit gates, then runs two groups of tasks,
    creating the project and installing packages, stopping at the first
    failure. */
module Legacy {
  import opened Wrappers
  import opened Strings
  import opened Options
  import opened Tasks
  import opened FileSystem
  import opened Files
  import opened Runner

  // ---------------------------------------------------------------------
  // Names, paths and the package manager
  // ---------------------------------------------------------------------

  /** `projectName.replace(/,/g, "-")` */
  function TargetDir(projectName: string): (r: string)
    ensures |r| == |projectName|
    ensures ',' !in r
    ensures forall i :: 0 <= i < |r| ==> r[i] == (if projectName[i] == ',' then '-' else projectName[i])
    ensures r == "" <==> projectName == ""
  {
    ReplaceChar(projectName, ',', '-')
  }

  /** `path.resolve(cwd, target)` without normalisation: an absolute target
      stands alone, a relative one is placed under `cwd`. */
  function Resolve(cwd: string, target: string): (r: string)
    ensures StartsWith(target, "/") ==> r == target
    ensures !StartsWith(target, "/") ==> r == PathJoin(cwd, target)
  {
    if StartsWith(target, "/") then target else PathJoin(cwd, target)
  }

  /** `program.useNpm ? false : shouldUseYarn()`, where `yarnProbe` says
      whether `yarnpkg --version` succeeds. */
  function UseYarn(useNpm: bool, yarnProbe: bool): (r: bool)
    ensures r <==> !useNpm && yarnProbe
  {
    if useNpm then false else yarnProbe
  }

  function InstallCommand(useYarn: bool): (c: string)
    ensures c == "yarn install" <==> useYarn
    ensures c == "npm install" <==> !useYarn
  {
    if useYarn then "yarn install" else "npm install"
  }

  // ---------------------------------------------------------------------
  // The two task groups
  // ---------------------------------------------------------------------

  const CompatibilityTitle: string := "Checking compatibility"
  const ApiInstallTitle: string := "Installing dependencies for 'api'"
  const UiInstallTitle: string := "Installing dependencies for 'ui-react'"

  /** `createProjectTasks({ newAppDir })`: directory, download, extract. */
  function ProjectTasks(appDirExists: bool, newAppDir: string, tmpPath: string): (steps: seq<Step>)
    ensures |steps| == 3 && forall i :: 0 <= i < 3 ==> Runs(steps[i])
    ensures appDirExists ==> StartsWith(steps[0].title, "Using")
    ensures !appDirExists ==> StartsWith(steps[0].title, "Creating") && !StartsWith(steps[0].title, "Using")
    ensures steps[0].title == DirectoryTitle(appDirExists, newAppDir) && steps[0].action == MakeDirectory(newAppDir)
    ensures steps[1].title == DownloadTitle && steps[1].action == DownloadRelease(tmpPath)
    ensures steps[2].title == ExtractTitle && steps[2].action == ExtractRelease(tmpPath, newAppDir)
  {
    var title := DirectoryTitle(appDirExists, newAppDir);
    assert title[0] == (if appDirExists then 'U' else 'C');
    [ Plain(title, MakeDirectory(newAppDir)),
      Plain(DownloadTitle, DownloadRelease(tmpPath)),
      Plain(ExtractTitle, ExtractRelease(tmpPath, newAppDir)) ]
  }

  /** `installNodeModulesTasks({ newAppDir })`: the version check, then one
      shell install in `api` and one in `ui-react`. */
  function InstallTasks(newAppDir: string, useYarn: bool): (steps: seq<Step>)
    ensures |steps| == 3 && forall i :: 0 <= i < 3 ==> Runs(steps[i])
    ensures steps[0].title == CompatibilityTitle && steps[0].action == CheckCompatibility
    ensures steps[1].title == ApiInstallTitle && steps[1].action == RunShell(InstallCommand(useYarn), PathJoin(newAppDir, "api"))
    ensures steps[2].title == UiInstallTitle && steps[2].action == RunShell(InstallCommand(useYarn), PathJoin(newAppDir, "ui-react"))
  {
    var command := InstallCommand(useYarn);
    [ Plain(CompatibilityTitle, CheckCompatibility),
      Plain(ApiInstallTitle, RunShell(command, PathJoin(newAppDir, "api"))),
      Plain(UiInstallTitle, RunShell(command, PathJoin(newAppDir, "ui-react"))) ]
  }

  // ---------------------------------------------------------------------
  // The compatibility message
  // ---------------------------------------------------------------------

  /** One entry of the version checker's `versions` report. */
  datatype ToolVersion = ToolVersion(name: string, version: string, wanted: string)

  /** What the version checker reports, keys in report order. */
  datatype VersionCheck = VersionCheck(isSatisfied: bool, versions: seq<ToolVersion>)

  function IncompatibilityLine(t: ToolVersion): string {
    t.name + " " + t.wanted + " required, but found " + t.version
  }

  function IncompatibilityLines(versions: seq<ToolVersion>): (r: seq<string>)
    ensures |r| == |versions|
    ensures forall i :: 0 <= i < |versions| ==> r[i] == IncompatibilityLine(versions[i])
  {
    if versions == [] then [] else [IncompatibilityLine(versions[0])] + IncompatibilityLines(versions[1..])
  }

  /** The message of the error the version check rejects with. */
  function CompatibilityError(versions: seq<ToolVersion>): (r: string)
    ensures versions == [] ==> r == ""
    ensures |versions| >= 1 ==> StartsWith(r, IncompatibilityLine(versions[0]))
  {
    Join(IncompatibilityLines(versions), "\n")
  }

  predicate SingleLineFields(t: ToolVersion) {
    OneLine(t.name) && OneLine(t.version) && OneLine(t.wanted)
  }

  lemma IncompatibilityLineIsLine(t: ToolVersion)
    requires SingleLineFields(t)
    ensures OneLine(IncompatibilityLine(t))
  {
    assert OneLine(" ") && OneLine(" required, but found ");
    OneLineConcat(t.name, " ");
    OneLineConcat(t.name + " ", t.wanted);
    OneLineConcat(t.name + " " + t.wanted, " required, but found ");
    OneLineConcat(t.name + " " + t.wanted + " required, but found ", t.version);
  }

  /** The message has exactly one line per reported tool, in report order. */
  lemma CompatibilityErrorLines(versions: seq<ToolVersion>)
    requires |versions| >= 1
    requires forall i :: 0 <= i < |versions| ==> SingleLineFields(versions[i])
    ensures Split(CompatibilityError(versions), '\n') == IncompatibilityLines(versions)
  {
    var lines := IncompatibilityLines(versions);
    forall i | 0 <= i < |lines|
      ensures '\n' !in lines[i]
    {
      IncompatibilityLineIsLine(versions[i]);
    }
    SplitJoin(lines, '\n');
  }

  /** The failures of the install group: the version check fails exactly
      when it is not satisfied; the installs fail as `installFaults` says. */
  function InstallFaults(check: VersionCheck, installFaults: map<nat, string>): (f: map<nat, string>)
    ensures 0 in f <==> !check.isSatisfied
    ensures 0 in f ==> f[0] == CompatibilityError(check.versions)
    ensures forall j: nat :: j != 0 ==> (j in f <==> j in installFaults)
    ensures forall j: nat :: j != 0 && j in f ==> f[j] == installFaults[j]
  {
    if check.isSatisfied then installFaults - {0}
    else installFaults[0 := CompatibilityError(check.versions)]
  }

  // ---------------------------------------------------------------------
  // The whole program
  // ---------------------------------------------------------------------

  const NoDirectoryMessage: string := "No project directory specified"
  const TrialThanksPrefix: string := "Thanks for trying out GRANDstack! We've created your app in '"
  const DocsLink: string := "You can find documentation at: https://grandstack.io/docs"

  function NotEmptyMessage(newAppDir: string): string {
    "'" + newAppDir + "' already exists and is not empty."
  }

  function ThanksMessages(newAppDir: string): seq<string> {
    [ TrialThanksPrefix + newAppDir + "'", DocsLink ]
  }

  /** How the program ends: the process exits with a code and message (an
      uncaught exception also exits with code 1, its error as the message),
      or the thanks are printed. */
  datatype Ending = Ended(exit: Exit) | Thanked(messages: seq<string>)

  /** The program as a function of its inputs and the starting disk: the
      ending and the disk it leaves. */
  function Program(projectName: string, useNpm: bool, yarnProbe: bool, cwd: string, d: Disk, tmpPath: string,
                   world: World, check: VersionCheck, installFaults: map<nat, string>): (r: (Ending, Disk))
    ensures r.0.Ended? ==> r.0.exit.code == 1
    ensures TargetDir(projectName) == "" ==> r == (Ended(Exit(1, NoDirectoryMessage)), d)
    ensures var newAppDir := Resolve(cwd, TargetDir(projectName));
      (TargetDir(projectName) != "" && d.IsFile(newAppDir)) ==>
      r == (Ended(Exit(1, NotADirectory(newAppDir))), d)
    ensures var newAppDir := Resolve(cwd, TargetDir(projectName));
      (TargetDir(projectName) != "" && d.Exists(newAppDir) && !d.IsFile(newAppDir) && d.HasChildren(newAppDir)) ==>
      r == (Ended(Exit(1, NotEmptyMessage(newAppDir))), d)
    ensures var newAppDir := Resolve(cwd, TargetDir(projectName));
      (TargetDir(projectName) != "" && !d.IsFile(newAppDir) && !(d.Exists(newAppDir) && d.HasChildren(newAppDir))) ==>
      r == Pipeline(d, d.Exists(newAppDir), newAppDir, UseYarn(useNpm, yarnProbe), tmpPath,
                    world, InstallFaults(check, installFaults))
  {
    var targetDir := TargetDir(projectName);
    if targetDir == "" then (Ended(Exit(1, NoDirectoryMessage)), d)
    else
      var newAppDir := Resolve(cwd, targetDir);
      var faults2 := InstallFaults(check, installFaults);
      if !d.Exists(newAppDir) then Pipeline(d, false, newAppDir, UseYarn(useNpm, yarnProbe), tmpPath, world, faults2)
      else match d.ReadDirNonEmpty(newAppDir)
        case Err(e) => (Ended(Exit(1, e)), d)
        case Ok(nonEmpty) =>
          if nonEmpty then (Ended(Exit(1, NotEmptyMessage(newAppDir))), d)
          else Pipeline(d, true, newAppDir, UseYarn(useNpm, yarnProbe), tmpPath, world, faults2)
  }

  /** The outer task list: "Create GRANDstack App" runs the project group;
      only if it completes does "Installing Packages" run the install group.
      Either failure ends the process with code 1 and the task's error, on
      the disk the failed group left. */
  function Pipeline(d: Disk, appDirExists: bool, newAppDir: string, useYarn: bool, tmpPath: string,
                    world: World, installFaults: map<nat, string>): (r: (Ending, Disk))
    ensures r.0.Ended? ==> r.0.exit.code == 1
    ensures var group1 := ProjectTasks(appDirExists, newAppDir, tmpPath);
      var outcome1 := Outcome(group1, world.faults);
      outcome1.FailedAt? ==>
        r == (Ended(Exit(1, outcome1.error)), Applied(d, group1, world.faults, world.archive, outcome1.index))
    ensures var group1 := ProjectTasks(appDirExists, newAppDir, tmpPath);
      var group2 := InstallTasks(newAppDir, useYarn);
      var d1 := Applied(d, group1, world.faults, world.archive, |group1|);
      var outcome2 := Outcome(group2, installFaults);
      Outcome(group1, world.faults) == Completed && outcome2.FailedAt? ==>
        r == (Ended(Exit(1, outcome2.error)), Applied(d1, group2, installFaults, world.archive, outcome2.index))
    ensures var group1 := ProjectTasks(appDirExists, newAppDir, tmpPath);
      var group2 := InstallTasks(newAppDir, useYarn);
      r.0.Thanked? <==> Outcome(group1, world.faults) == Completed && Outcome(group2, installFaults) == Completed
    ensures var group1 := ProjectTasks(appDirExists, newAppDir, tmpPath);
      var group2 := InstallTasks(newAppDir, useYarn);
      var d1 := Applied(d, group1, world.faults, world.archive, |group1|);
      r.0.Thanked? ==>
        r == (Thanked(ThanksMessages(newAppDir)), Applied(d1, group2, installFaults, world.archive, |group2|))
  {
    var group1 := ProjectTasks(appDirExists, newAppDir, tmpPath);
    var d1 := Applied(d, group1, world.faults, world.archive, Reached(group1, world.faults));
    match Outcome(group1, world.faults)
    case FailedAt(_, _, e) => (Ended(Exit(1, e)), d1)
    case Completed =>
      var group2 := InstallTasks(newAppDir, useYarn);
      var d2 := Applied(d1, group2, installFaults, world.archive, Reached(group2, installFaults));
      match Outcome(group2, installFaults)
      case FailedAt(_, _, e) => (Ended(Exit(1, e)), d2)
      case Completed => (Thanked(ThanksMessages(newAppDir)), d2)
  }

  /** The program run on the mutable disk; `world.faults` are the failures
      of the project tasks. */
  method CreateGrandstackApp(projectName: string, useNpm: bool, yarnProbe: bool, cwd: string, fs: Fs, tmpPath: string,
                             world: World, check: VersionCheck, installFaults: map<nat, string>)
    returns (r: Ending)
    modifies fs
    ensures (r, fs.Snapshot()) ==
      Program(projectName, useNpm, yarnProbe, cwd, old(fs.Snapshot()), tmpPath, world, check, installFaults)
  {
    var targetDir := TargetDir(projectName);
    if targetDir == "" {
      return Ended(Exit(1, NoDirectoryMessage));
    }
    var newAppDir := Resolve(cwd, targetDir);
    var appDirExists := fs.Exists(newAppDir);
    if appDirExists {
      var listing := fs.ReadDirNonEmpty(newAppDir);
      if listing.Err? {
        return Ended(Exit(1, listing.error));
      }
      if listing.value {
        return Ended(Exit(1, NotEmptyMessage(newAppDir)));
      }
    }
    r := RunPipeline(fs, appDirExists, newAppDir, UseYarn(useNpm, yarnProbe), tmpPath,
                     world, InstallFaults(check, installFaults));
  }

  method RunPipeline(fs: Fs, appDirExists: bool, newAppDir: string, useYarn: bool, tmpPath: string,
                     world: World, installFaults: map<nat, string>)
    returns (r: Ending)
    modifies fs
    ensures (r, fs.Snapshot()) ==
      Pipeline(old(fs.Snapshot()), appDirExists, newAppDir, useYarn, tmpPath, world, installFaults)
  {
    var group1 := ProjectTasks(appDirExists, newAppDir, tmpPath);
    var outcome1, _ := RunList(group1, fs, world);
    if outcome1.FailedAt? {
      return Ended(Exit(1, outcome1.error));
    }
    var group2 := InstallTasks(newAppDir, useYarn);
    var outcome2, _ := RunList(group2, fs, World(installFaults, world.archive));
    if outcome2.FailedAt? {
      return Ended(Exit(1, outcome2.error));
    }
    r := Thanked(ThanksMessages(newAppDir));
  }

  // ---------------------------------------------------------------------
  // Properties of the program
  // ---------------------------------------------------------------------

  /** A run of tasks that all start completes exactly when none of them
      has a fault. */
  lemma AllStartCompletes(steps: seq<Step>, faults: map<nat, string>)
    requires forall i :: 0 <= i < |steps| ==> Runs(steps[i])
    ensures Outcome(steps, faults) == Completed <==> forall j: nat :: j < |steps| ==> j !in faults
  {
    if Outcome(steps, faults) != Completed {
      var k := Outcome(steps, faults).index;
      assert Fails(steps, faults, k);
    } else {
      forall j: nat | j < |steps|
        ensures j !in faults
      {
        assert !Fails(steps, faults, j);
      }
    }
  }

  /** The thanks are printed exactly when the name is non-empty, the
      target is not a regular file and is absent or an empty directory, no
      project task fails, the version
      check is satisfied and neither install fails; every other ending
      exits with code 1. */
  lemma ThanksIffEverythingSucceeds(projectName: string, useNpm: bool, yarnProbe: bool, cwd: string, d: Disk,
                                    tmpPath: string, world: World, check: VersionCheck, installFaults: map<nat, string>)
    ensures var newAppDir := Resolve(cwd, TargetDir(projectName));
      Program(projectName, useNpm, yarnProbe, cwd, d, tmpPath, world, check, installFaults).0.Thanked? <==>
        && projectName != ""
        && !d.IsFile(newAppDir)
        && !(d.Exists(newAppDir) && d.HasChildren(newAppDir))
        && 0 !in world.faults && 1 !in world.faults && 2 !in world.faults
        && check.isSatisfied
        && 1 !in installFaults && 2 !in installFaults
  {
    var newAppDir := Resolve(cwd, TargetDir(projectName));
    var group1 := ProjectTasks(d.Exists(newAppDir), newAppDir, tmpPath);
    var group2 := InstallTasks(newAppDir, UseYarn(useNpm, yarnProbe));
    var faults2 := InstallFaults(check, installFaults);
    AllStartCompletes(group1, world.faults);
    AllStartCompletes(group2, faults2);
  }

  /** The install group never starts when a project task fails: whichever
      project task fails first, its error ends the process and the disk is
      what the project tasks before it left. */
  lemma ProjectFailureSkipsInstalls(projectName: string, useNpm: bool, yarnProbe: bool, cwd: string, d: Disk,
                                    tmpPath: string, world: World, check: VersionCheck, installFaults: map<nat, string>,
                                    k: nat)
    requires projectName != ""
    requires var newAppDir := Resolve(cwd, TargetDir(projectName));
      !d.IsFile(newAppDir) && !(d.Exists(newAppDir) && d.HasChildren(newAppDir))
    requires k < 3 && k in world.faults && forall j: nat :: j < k ==> j !in world.faults
    ensures var newAppDir := Resolve(cwd, TargetDir(projectName));
      Program(projectName, useNpm, yarnProbe, cwd, d, tmpPath, world, check, installFaults) ==
      (Ended(Exit(1, world.faults[k])), Applied(d, ProjectTasks(d.Exists(newAppDir), newAppDir, tmpPath), world.faults, world.archive, k))
  {
    var newAppDir := Resolve(cwd, TargetDir(projectName));
    var group1 := ProjectTasks(d.Exists(newAppDir), newAppDir, tmpPath);
    assert Fails(group1, world.faults, k);
    assert forall j: nat :: j < k ==> !Fails(group1, world.faults, j);
    assert Outcome(group1, world.faults).index == k;
  }
}
