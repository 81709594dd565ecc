/** The task records handed to the task runner: a title, what the task does,
    and the `enabled` and `skip` answers the runner consults before starting
    it. A task's work is named by an `Action`; what the work does to the disk
    is given in module Runner. */
module Tasks {
  import opened Wrappers
  import opened Options

  datatype PackageManager = Npm | Yarn

  datatype Action =
      /** `fs.mkdirSync(dir, { recursive: true })` */
    | MakeDirectory(dir: string)
      /** look up the latest release and stream its archive to `target` */
    | DownloadRelease(target: string)
      /** `decompress(archive, dest, { strip: 1 })` */
    | ExtractRelease(archive: string, dest: string)
      /** `writeDotEnv({ newAppDir: appDir, ...creds })` */
    | WriteEnvFile(appDir: string, creds: Credentials)
      /** `writeConfigJson({ newAppDir: appDir, templateName, templateFileName })` */
    | WriteScriptsConfig(appDir: string, templateName: Option<string>, templateFileName: Option<string>)
      /** `removeUnusedTemplates({ newAppDir: appDir, rmTemplates })` */
    | RemoveTemplates(appDir: string, rmTemplates: seq<string>)
      /** `git init` in `dir` */
    | InitGit(dir: string)
      /** `projectInstall({ cwd, prefer })` */
    | InstallPackages(cwd: string, prefer: PackageManager)
      /** the Node.js version check */
    | CheckCompatibility
      /** a shell command run in `cwd` */
    | RunShell(command: string, cwd: string)

  /** A task: `enabled` is what its `enabled` callback answers (true when it
      has none); `skip` is the reason its `skip` callback returns, `None`
      when it returns `undefined` or there is no callback. */
  datatype Step = Step(title: string, action: Action, enabled: bool, skip: Option<string>)

  /** A task with neither an `enabled` nor a `skip` callback. */
  function Plain(title: string, action: Action): Step {
    Step(title, action, true, None)
  }

  /** The runner starts a task's action only when the task is enabled and
      not skipped. */
  predicate Runs(s: Step) {
    s.enabled && s.skip.None?
  }

  /** Where a task ends up after a run. */
  datatype StepState = Disabled | Skipped(reason: string) | Succeeded | Failed(error: string) | Aborted

  datatype RunResult = Completed | FailedAt(index: nat, title: string, error: string)

  /** What the outside world decides: `faults[i]` is the error the action of
      task `i` fails with if started; `archive` lists the paths inside the
      release archive, first path component already stripped. */
  datatype World = World(faults: map<nat, string>, archive: set<string>)
}
