/** `createApp` (src/utils/main.js): assembles the full task list from the
    resolved configuration and runs it, stopping at the first failure. */
module Main {
  import opened Wrappers
  import opened Strings
  import opened Options
  import opened Tasks
  import opened FileSystem
  import opened Files
  import opened Runner

  const InstallHint: string := "Pass --install to automatically install dependencies"

  /** The `skip` answer of every install task. */
  function InstallSkip(runInstall: bool): (r: Option<string>)
    ensures r.Some? <==> !runInstall
    ensures r.Some? ==> r.value == InstallHint
  {
    if !runInstall then Some(InstallHint) else None
  }

  /** `prefer: useNpm ? 'npm' : 'yarn'` */
  function Prefer(useNpm: bool): (p: PackageManager)
    ensures p == Npm <==> useNpm
  {
    if useNpm then Npm else Yarn
  }

  /** `web-<template, lowercased>` */
  function WebDir(templateChoice: string): string {
    "web-" + Lower(templateChoice)
  }

  /** `checkReact(...)`: one install task for the web directory when its
      name contains `react`, none otherwise. */
  function CheckReact(templateChoice: string, useNpm: bool, runInstall: bool, appDir: string): (steps: seq<Step>)
    ensures |steps| <= 1
    ensures |steps| == 1 <==> Contains(WebDir(templateChoice), "react")
    ensures |steps| == 1 ==>
      && steps[0].title == "Installing " + WebDir(templateChoice) + " dependencies"
      && steps[0].action == InstallPackages(PathJoin(appDir, WebDir(templateChoice)), Prefer(useNpm))
      && steps[0].enabled
      && steps[0].skip == InstallSkip(runInstall)
  {
    var templateName := WebDir(templateChoice);
    if Contains(templateName, "react") then
      [Step("Installing " + templateName + " dependencies",
            InstallPackages(PathJoin(appDir, templateName), Prefer(useNpm)),
            true, InstallSkip(runInstall))]
    else []
  }

  /** Both React templates get a web install task, in `web-react` and
      `web-react-ts`; Angular gets none. */
  lemma CheckReactPerTemplate(useNpm: bool, runInstall: bool, appDir: string)
    ensures |CheckReact("React", useNpm, runInstall, appDir)| == 1
    ensures CheckReact("React", useNpm, runInstall, appDir)[0].action ==
      InstallPackages(PathJoin(appDir, "web-react"), Prefer(useNpm))
    ensures |CheckReact("React-TS", useNpm, runInstall, appDir)| == 1
    ensures CheckReact("React-TS", useNpm, runInstall, appDir)[0].action ==
      InstallPackages(PathJoin(appDir, "web-react-ts"), Prefer(useNpm))
    ensures CheckReact("Angular", useNpm, runInstall, appDir) == []
  {
    ReactDir();
    ReactTsDir();
    ReactHasReact();
    AngularHasNoReact();
  }

  lemma ReactHasReact()
    ensures Contains("web-react", "react") && Contains("web-react-ts", "react")
  {
    ContainsAt("web-react", "react");
    assert StartsWith("web-react"[4..], "react");
    ContainsAt("web-react-ts", "react");
    assert StartsWith("web-react-ts"[4..], "react");
  }

  lemma ReactDir()
    ensures WebDir("React") == "web-react"
  {
    LowerByChars("React", "react");
  }

  lemma ReactTsDir()
    ensures WebDir("React-TS") == "web-react-ts"
  {
    LowerByChars("React-TS", "react-ts");
  }

  lemma AngularHasNoReact()
    ensures !Contains(WebDir("Angular"), "react")
  {
    LowerByChars("Angular", "angular");
    NoReactInWebAngular();
  }

  lemma NoReactInWebAngular()
    ensures !Contains("web-" + "angular", "react")
  {
    var s := "web-" + "angular";
    ContainsAt(s, "react");
    forall k | 0 <= k <= |s|
      ensures !StartsWith(s[k..], "react")
    {
      if k <= 6 {
        assert s[k..][0] == s[k] && s[k] != 'r';
      }
    }
  }

  // ---------------------------------------------------------------------
  // The task list
  // ---------------------------------------------------------------------

  const GitTitle: string := "Initialize git"
  const RootInstallTitle: string := "Installing GRANDstack CLI and dependencies"
  const ApiInstallTitle: string := "Installing api dependencies"

  /** The list `createApp` hands to the runner: the six project tasks (with
      no template name or file name), then git, then the root and api
      installs, then the web install from `checkReact`. */
  function CreateAppSteps(fs: Fs, config: Config, appDir: string, tmpPath: string): (steps: seq<Step>)
    reads fs
    ensures |steps| == 9 + |CheckReact(config.template, config.useNpm, config.runInstall, appDir)|
    ensures steps[..6] == CreateProjectTasks(fs, appDir, config.rmTemplates, None, None, config.creds, tmpPath)
    ensures steps[6] == Step(GitTitle, InitGit(appDir), config.gitInit, None)
    ensures steps[6].enabled <==> config.gitInit
    ensures steps[7].title == RootInstallTitle && steps[7].action == InstallPackages(appDir, Prefer(config.useNpm))
    ensures steps[8].title == ApiInstallTitle && steps[8].action == InstallPackages(PathJoin(appDir, "api"), Prefer(config.useNpm))
    ensures steps[9..] == CheckReact(config.template, config.useNpm, config.runInstall, appDir)
    ensures forall i :: 7 <= i < |steps| ==>
      && steps[i].action.InstallPackages?
      && steps[i].action.prefer == Prefer(config.useNpm)
      && steps[i].enabled
      && (steps[i].skip.Some? <==> !config.runInstall)
      && (steps[i].skip.Some? ==> steps[i].skip.value == InstallHint)
  {
    var prefer := Prefer(config.useNpm);
    var skip := InstallSkip(config.runInstall);
    CreateProjectTasks(fs, appDir, config.rmTemplates, None, None, config.creds, tmpPath) +
    [ Step(GitTitle, InitGit(appDir), config.gitInit, None),
      Step(RootInstallTitle, InstallPackages(appDir, prefer), true, skip),
      Step(ApiInstallTitle, InstallPackages(PathJoin(appDir, "api"), prefer), true, skip) ] +
    CheckReact(config.template, config.useNpm, config.runInstall, appDir)
  }

  // ---------------------------------------------------------------------
  // `createApp`
  // ---------------------------------------------------------------------

  datatype AppResult =
      /** `checkAppDir` ended the process */
    | Exited(exit: Exit)
      /** `checkAppDir` threw: the promise rejects before any task runs */
    | Threw(error: string)
      /** the run completed: the success messages, then `true` */
    | Created(messages: seq<string>)
      /** the run stopped at a failing task: the promise rejects with its error */
    | Rejected(index: nat, error: string)

  const ThanksPrefix: string := "Thanks for using GRANDstack! We've created your app in '"
  const DocsMessage: string := "You can find documentation at: https://grandstack.io/docs"
  const StartHint: string := "To start your GRANDstack web application and GraphQL API run:\n\n        cd "
  const StartCommand: string := "\n        npm run start\n\n"
  const SeedHint: string :=
    "Then (optionally) to seed the database with sample data, " +
    "in the api/ directory in another terminal run:\n\n" +
    "        npm run seedDb\n"

  /** Three messages: the thanks naming the app directory, the
      documentation link, and the start and seed hints naming the project
      path; both names can be read back out of them. */
  function SuccessMessages(appDir: string, projectPath: string): (r: seq<string>)
    ensures |r| == 3
    ensures |r[0]| == |ThanksPrefix| + |appDir| + 1 && r[0][|ThanksPrefix|..|r[0]| - 1] == appDir
    ensures r[1] == DocsMessage
    ensures |r[2]| >= |StartHint| + |projectPath| && r[2][|StartHint|..|StartHint| + |projectPath|] == projectPath
  {
    [ ThanksPrefix + appDir + "'", DocsMessage, StartHint + projectPath + StartCommand + SeedHint ]
  }

  /** What `createApp` ends with, given how the run went. */
  function Conclusion(outcome: RunResult, appDir: string, projectPath: string): (r: AppResult)
    ensures r.Created? <==> outcome == Completed
    ensures r.Rejected? ==> outcome == FailedAt(r.index, outcome.title, r.error)
    ensures !r.Exited? && !r.Threw?
    ensures r.Created? ==> r.messages == SuccessMessages(appDir, projectPath)
  {
    match outcome
    case Completed => Created(SuccessMessages(appDir, projectPath))
    case FailedAt(k, _, e) => Rejected(k, e)
  }

  /** `createApp(options)`. `appDir` is the directory the tasks work in
      (see README: as written, `checkAppDir` returns nothing); the
      non-empty check applies to `projectPath`. */
  method CreateApp(config: Config, fs: Fs, appDir: string, tmpPath: string, world: World)
    returns (r: AppResult, states: seq<StepState>)
    modifies fs
    ensures old(CheckAppDir(fs, config.projectPath)).Exits? ==>
      r == Exited(old(CheckAppDir(fs, config.projectPath)).exit) && states == [] &&
      fs.Snapshot() == old(fs.Snapshot())
    ensures old(CheckAppDir(fs, config.projectPath)).Throws? ==>
      r == Threw(old(CheckAppDir(fs, config.projectPath)).error) && states == [] &&
      fs.Snapshot() == old(fs.Snapshot())
    ensures old(CheckAppDir(fs, config.projectPath)).Pass? ==>
      var steps := old(CreateAppSteps(fs, config, appDir, tmpPath));
      && r == Conclusion(Outcome(steps, world.faults), appDir, config.projectPath)
      && |states| == |steps|
      && (forall i :: 0 <= i < |steps| ==> states[i] == StateOf(steps, world.faults, i))
      && fs.Snapshot() == Applied(old(fs.Snapshot()), steps, world.faults, world.archive, Reached(steps, world.faults))
  {
    var gate := CheckAppDir(fs, config.projectPath);
    if gate.Exits? {
      return Exited(gate.exit), [];
    } else if gate.Throws? {
      return Threw(gate.error), [];
    }
    var steps := CreateAppSteps(fs, config, appDir, tmpPath);
    var outcome;
    outcome, states := RunList(steps, fs, world);
    r := Conclusion(outcome, appDir, config.projectPath);
  }

  // ---------------------------------------------------------------------
  // What a completed run leaves on the disk
  // ---------------------------------------------------------------------

  /** The tasks after the project tasks track nothing on the disk. */
  lemma AfterProjectTasksUntracked(fs: Fs, config: Config, appDir: string, tmpPath: string)
    ensures var steps := CreateAppSteps(fs, config, appDir, tmpPath);
      forall j :: 6 <= j < |steps| ==> Untracked(steps[j].action)
  {
  }

  /** The disk after a completed run equals the disk right after the
      unused templates were removed. */
  lemma CompletedRunStopsAtRemoval(d: Disk, steps: seq<Step>, faults: map<nat, string>, archive: set<string>,
                                   fs: Fs, config: Config, appDir: string, tmpPath: string)
    requires steps == CreateAppSteps(fs, config, appDir, tmpPath)
    requires Outcome(steps, faults) == Completed
    ensures Applied(d, steps, faults, archive, |steps|) ==
      Applied(d, steps, faults, archive, 5).RemoveTrees(RemovalTargets(appDir, config.rmTemplates))
  {
    AfterProjectTasksUntracked(fs, config, appDir, tmpPath);
    UntrackedTail(d, steps, faults, archive, 6, |steps|);
    assert steps[5] == steps[..6][5];
    assert !Fails(steps, faults, 5);
  }

  /** After a completed run, nothing is left at or below
      `<appDir>/<choice>` for any removed template. */
  lemma CompletedRunRemovesTemplates(d: Disk, fs: Fs, config: Config, appDir: string, tmpPath: string, world: World)
    requires Outcome(CreateAppSteps(fs, config, appDir, tmpPath), world.faults) == Completed
    ensures var steps := CreateAppSteps(fs, config, appDir, tmpPath);
      forall q, c ::
        (q in Applied(d, steps, world.faults, world.archive, Reached(steps, world.faults)).entries && c in config.rmTemplates) ==>
        !AtOrUnder(q, PathJoin(appDir, c))
  {
    var steps := CreateAppSteps(fs, config, appDir, tmpPath);
    CompletedRunStopsAtRemoval(d, steps, world.faults, world.archive, fs, config, appDir, tmpPath);
    RemovalTouchesOnlyChoices(Applied(d, steps, world.faults, world.archive, 5), appDir, config.rmTemplates);
  }

  /** The `.env` path is neither the scripts configuration file nor below
      any directory whose name does not start with `a`. */
  lemma EnvPathApart(appDir: string, c: string)
    requires |c| > 0 && c[0] != 'a'
    ensures EnvPath(appDir) != ConfigFile(appDir)
    ensures !AtOrUnder(EnvPath(appDir), PathJoin(appDir, c))
  {
    var n := |appDir| + 1;
    assert EnvPath(appDir)[n] == 'a';
    assert ConfigFile(appDir)[n] == 's';
    var p := PathJoin(appDir, c);
    assert p[n] == c[0];
  }

  /** After a completed run with templates from the fixed list, the API's
      `.env` holds the text built from the chosen credentials: neither the
      scripts configuration nor the template removal touches it. */
  lemma CompletedRunWritesEnv(d: Disk, fs: Fs, config: Config, appDir: string, tmpPath: string, world: World)
    requires forall c :: c in config.rmTemplates ==> c in TemplateOpts
    requires Outcome(CreateAppSteps(fs, config, appDir, tmpPath), world.faults) == Completed
    ensures var final := Applied(d, CreateAppSteps(fs, config, appDir, tmpPath), world.faults, world.archive,
                                 Reached(CreateAppSteps(fs, config, appDir, tmpPath), world.faults));
      EnvPath(appDir) in final.contents && final.contents[EnvPath(appDir)] == DotEnv(config.creds)
  {
    var steps := CreateAppSteps(fs, config, appDir, tmpPath);
    CompletedRunStopsAtRemoval(d, steps, world.faults, world.archive, fs, config, appDir, tmpPath);
    assert steps[3] == steps[..6][3] && steps[4] == steps[..6][4];
    assert !Fails(steps, world.faults, 3) && !Fails(steps, world.faults, 4);
    EnvWrittenBeforeRemoval(d, steps, world.faults, world.archive, appDir, config.creds);
    RemovalSparesEnv(Applied(d, steps, world.faults, world.archive, 5), appDir, config.rmTemplates);
  }

  /** Once the `.env` task and the scripts configuration task have run,
      the `.env` file holds the credentials' text. */
  lemma EnvWrittenBeforeRemoval(d: Disk, steps: seq<Step>, faults: map<nat, string>, archive: set<string>,
                                appDir: string, creds: Credentials)
    requires |steps| >= 5
    requires steps[3].action == WriteEnvFile(appDir, creds) && Runs(steps[3]) && !Fails(steps, faults, 3)
    requires steps[4].action == WriteScriptsConfig(appDir, None, None) && Runs(steps[4]) && !Fails(steps, faults, 4)
    ensures EnvPath(appDir) in Applied(d, steps, faults, archive, 5).contents
    ensures Applied(d, steps, faults, archive, 5).contents[EnvPath(appDir)] == DotEnv(creds)
  {
    var after4 := Applied(d, steps, faults, archive, 4);
    assert after4.contents[EnvPath(appDir)] == DotEnv(creds);
    EnvPathApart(appDir, "React");
    assert Applied(d, steps, faults, archive, 5) == ConfigWritten(after4, appDir, None, None);
  }

  /** Removing templates from the fixed list keeps the `.env` file as it is. */
  lemma RemovalSparesEnv(d: Disk, appDir: string, rmTemplates: seq<string>)
    requires forall c :: c in rmTemplates ==> c in TemplateOpts
    requires EnvPath(appDir) in d.contents
    ensures var after := d.RemoveTrees(RemovalTargets(appDir, rmTemplates));
      EnvPath(appDir) in after.contents && after.contents[EnvPath(appDir)] == d.contents[EnvPath(appDir)]
  {
    var env := EnvPath(appDir);
    var targets := RemovalTargets(appDir, rmTemplates);
    RemoveTreesExactly(d, targets);
    forall t | t in targets
      ensures !AtOrUnder(env, t)
    {
      var i :| 0 <= i < |targets| && targets[i] == t;
      var c := rmTemplates[i];
      assert c in TemplateOpts;
      assert c[0] != 'a';
      EnvPathApart(appDir, c);
    }
  }
}
