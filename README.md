# create-grandstack-app, modelled in Dafny

`create-grandstack-app` scaffolds a GRANDstack project. It reads its command
line and possibly asks some questions, which gives a configuration. From that
it builds an ordered list of tasks:

- create the target directory;
- download and extract the starter release;
- write `api/.env` with the Neo4j credentials;
- write `scripts/config/index.json`;
- delete the templates that were not chosen;
- optionally run `git init`;
- optionally install dependencies.

The task runner takes the tasks in order and stops at the first failure. This
project models that decision logic and proves what it promises. The network,
the archive tool, the subprocesses and the runner library are not modelled:
their results are inputs.

Modules, in dependency order:

- `Wrappers` (`wrappers.dfy`): `Option` and `Result`.
- `Strings` (`strings.dfy`): the JavaScript string operations the code uses. These are ASCII `toLowerCase`, `includes`, `join`, `split` on one character, and a global one-character `replace`. It also proves that `split` undoes `join`.
- `Json` (`json.dfy`): `JSON.stringify` of an object whose values are strings or `undefined`. A key whose value is `undefined` is omitted. The module has a decoder and proves the round trip.
- `Options` (`options.dfy`) covers `src/utils/options.js`:
  - argument parsing as the `arg` library (assumed at version 4) does it: the alias table, bundles of one-letter options, `--name=value` and the `--` terminator;
  - the `--yes` branch and the interactive branch of `promptForMissingOptions`;
  - the questions pushed onto the prompt list;
  - the `rmTemplates` filter.
- `Tasks` (`tasks.dfy`): task records with a title, an action, the `enabled` answer and the `skip` answer. It also holds the task states, the run result, and the `World`, which says which task fails and with what error and what the release archive contains.
- `FileSystem` (`filesystem.dfy`): the disk is a set of paths, the subset of them that are regular files, and the known text of the files the program writes. Listing a regular file as a directory throws. The class `Fs` is the mutable disk, and each of its methods is tied to a pure `Disk` function.
- `Files` (`files.dfy`) covers `src/utils/file.js`:
  - `checkAppDir`;
  - the exact `.env` text and reading its values back;
  - the scripts configuration file;
  - `removeUnusedTemplates`;
  - `createProjectTasks`.
- `Runner` (`runner.dfy`) is the fail-fast contract the code configures with `exitOnError: true`. It has a specification (`FirstFailure`, `Outcome`, `StateOf`, `Applied`) and a `Run` method over an array of tasks, proved against it.
- `Main` (`main.dfy`) covers `createApp` in `src/utils/main.js`:
  - `checkReact`;
  - the full task list;
  - the run;
  - what a completed run leaves on the disk.
- `Legacy` (`legacy.dfy`) covers the standalone `src/create-grandstack-app.js`:
  - sanitising the project name;
  - the two exit gates, and the directory listing that throws on a regular file;
  - the yarn/npm choice;
  - the two task groups;
  - the compatibility message;
  - the nested run.

Where the code and the description of the program differ, the model follows
the code:

- An unknown option prints `unknown option` and exits with code **0**.
- The default URI is `bolt://localhost:7687`.
- There are three templates (React, React-TS, Angular).
- `checkAppDir` returns nothing, so in `createApp` the variable `newAppDir` is `undefined`. `Main.CreateApp` therefore takes the working directory as its own parameter, `appDir`, and applies the non-empty check to `projectPath` as the code does. With the code exactly as written, the first task would be titled `Creating directory 'undefined'`. Its `mkdirSync(undefined)` would throw, and that first failure would end the run. In the model, that case is a fault on task 0.
- `createApp` passes no template name or file name to `createProjectTasks`, so the scripts configuration written is `{}` (`Files.ConfigJsonUndefined`).
- With `--yes`, `rmTemplates` is computed from the default `React`, whatever template was given (`Options.YesModeRemovesAngular`).
- The option parser is assumed to be the `arg` library at version 4; no package manifest is part of this model, and the parser model depends on that version. It reads a single-dash token of more than two characters as a bundle of one-letter options. So `-un` is read as `-u -n`, which are unknown, and it is rejected with exit code 0 wherever it appears before `--` (`Options.UseNpmAliasRejected`); after `--` it is an operand like any other. Only `--use-npm` sets `useNpm`. In the other direction, `-gy` is accepted and sets both flags (`Options.UnbundlingEquivalent`). The model keeps the `-un` entry in the table, where it can never be looked up.
- `removeUnusedTemplates` deletes `<appDir>/React-TS` and `<appDir>/Angular`, the option names as given. `checkReact` names the template directories `web-<lowercase name>`. So the removal most likely aims at directories that the starter does not contain. The model deletes exactly the paths the code names.

## Model

| member | source | states |
|---|---|---|
| Options.Canonical | src/utils/options.js:37-47 | Every spelling in the table maps to one of the five long flags, and a long spelling maps to itself. |
| Options.LongName | src/utils/options.js:34-51 | The name of a long option is the part of the token before its first `=`, which it does not contain. |
| Options.Unbundle | src/utils/options.js:34-51 | A bundle of letters becomes one `-<letter>` option per letter, in order. |
| Options.OptionNames | src/utils/options.js:34-51 | Each option token stands for at least one name; a long token or a two-character token stands for exactly one. |
| Options.OptionNamesShaped | src/utils/options.js:34-51 | Every name an option token stands for looks like an option, and no name longer than two characters starts with a single dash. |
| Options.WordsShaped | src/utils/options.js:34-51 | The same holds for every name looked up in a whole command line. |
| Options.Scan | src/utils/options.js:36-51 | Scanning succeeds iff every option name before `--` is in the table. The recorded flags are exactly the table entries of those names. The positionals are the non-option tokens before `--`, then every token after it. |
| Options.CanonicalSpellings | src/utils/options.js:37-46 | `--yes` is set by exactly `--yes` and `-y`, `--git` by `--git` and `-g`, `--install` by `--install` and `-i`, `--use-npm` by `--use-npm` and `-un`. |
| Options.FlagsNamed | src/utils/options.js:37-53 | Among well-formed names, a flag is set iff its long form or its alias occurs; `--use-npm` is set iff the long form occurs, since `-un` is never a name. |
| Options.ParseArgumentsIntoOptions | src/utils/options.js:34-64 | Parsing fails iff some option name before `--` is not in the table; failing means exit code 0 with "unknown option". `skipPrompts`, `gitInit` and `runInstall` are true iff the long form or the one-letter alias is among the names. `useNpm` is true iff `--use-npm` is. `projectPath` and `template` are the first and second operands. |
| Options.ParseByWords | src/utils/options.js:34-64 | Two command lines in which either every name is known in both or some name is unknown in both, which set the same flags and have the same operands, parse to the same result. |
| Options.WordsAppend | src/utils/options.js:34-51 | Before any `--`, the names of two token lists laid end to end are the names of the first, then those of the second. |
| Options.OperandsAppend | src/utils/options.js:34-51 | Before any `--`, the operands of two token lists laid end to end are those of the first, then those of the second. |
| Options.LettersAreWords | src/utils/options.js:34-51 | Letters written as separate one-letter options name themselves and contribute no operand. |
| Options.UnbundlingEquivalent | src/utils/options.js:34-51 | Writing a bundle such as `-gy` as separate options `-g -y`, anywhere before `--`, gives the same parse. |
| Options.SwapName | src/utils/options.js:37-46 | Swapping one name for another with the same table entry changes neither whether all names are known nor the flags set. |
| Options.AliasesEquivalent | src/utils/options.js:37-46 | Writing a one-letter alias in place of its long form, or the other way round, anywhere before `--`, gives the same parse. |
| Options.UseNpmAliasRejected | src/utils/options.js:45-63 | A command line with `-un` anywhere before `--` is rejected as an unknown option: exit code 0 with "unknown option". |
| Options.UnknownLetter | src/utils/options.js:37-47 | A two-character option other than `-g`, `-y` and `-i` is not in the table. |
| Options.QuestionsAsked | src/utils/options.js:86-110 | The template question is asked iff no truthy template was given, and it is asked first. The git question is asked iff `gitInit` is false. The four API questions always follow. Nothing is asked when the prompts are skipped. |
| Options.RemovedTemplates | src/utils/options.js:115-117 | A template is removed iff it is in the list and its lowercase differs from the chosen template's lowercase. |
| Options.RemovedTemplatesDropsOne | src/utils/options.js:115-117 | When exactly one entry matches the choice, the result is the list with that entry cut out, order preserved. |
| Options.RemovedTemplatesKeepsAll | src/utils/options.js:115-117 | When no entry matches, the list is returned whole. |
| Options.TemplateChoiceRemovesOthers | src/utils/options.js:4 | Choosing one of React, React-TS and Angular (in any letter case) removes exactly the other two, in list order. |
| Options.UnknownTemplateRemovesAll | src/utils/options.js:115-117 | A choice matching no template removes all three. |
| Options.DefaultRemoval | src/utils/options.js:78-80 | Against the default `React`, the removed templates are `["React-TS", "Angular"]`. |
| Options.PromptForMissingOptions | src/utils/options.js:66-122 | Path and template take their truthy given value, else the default (`--yes`) or the answer (interactive). `gitInit` is the given flag or the answer to the git question. With `--yes`, the credentials are `bolt://localhost:7687`, not encrypted, `neo4j`, `letmein`, and `rmTemplates` is `["React-TS","Angular"]`. In interactive mode, the credentials are the answers and `rmTemplates` filters by the chosen template. |
| Options.UnaskedAnswersIgnored | src/utils/options.js:106-121 | Answers to questions that were not asked do not affect the result. |
| Options.YesModeRemovesAngular | src/utils/options.js:78-81 | `--yes` with template Angular keeps Angular as the template but also lists it for removal. |
| Options.InteractiveRemovalExcludesChoice | src/utils/options.js:111-118 | In interactive mode the chosen template is never removed. Choosing one of the three removes two. |
| Strings.Lower | src/utils/options.js:79 | Same length; each ASCII capital is lowered and every other character is kept. |
| Strings.ContainsAt | src/utils/main.js:25 | `includes` holds iff the text starts with the substring at some position. |
| Strings.SplitJoin | src/utils/file.js:166 | Splitting a join of separator-free parts on the separator gives the parts back. |
| Strings.JoinPrefixed | src/utils/file.js:165-166 | The prefix before a join whose separator ends with the prefix equals joining the prefixed parts. |
| Strings.ReplaceChar | src/create-grandstack-app.js:62 | Same length; each occurrence of the character is replaced and every other character is kept. |
| Json.DecodeEscaped | src/utils/file.js:79 | A `JSON.stringify`-escaped string followed by a closing quote decodes back to the original string and the rest of the text. |
| Json.DecodeMemberText | src/utils/file.js:79 | A `"key":"value"` member decodes to its key and value. |
| Json.DecodeMemberList | src/utils/file.js:79 | A comma-joined member list followed by `}` decodes to the members in order. |
| Json.Stringify | src/utils/file.js:79 | The text is wrapped in braces. It is `{}` exactly when no property has a defined value. |
| Json.StringifyDecodes | src/utils/file.js:74-79 | The stringified object decodes to exactly the defined properties, in order. Keys with undefined values are absent. |
| FileSystem.Disk.ReadDirNonEmpty | src/utils/file.js:11 | Listing throws iff the path is missing or is a regular file; the error for a regular file is `ENOTDIR`. Otherwise the answer is whether something lies below the path. |
| FileSystem.Disk.RemoveTree | src/utils/file.js:105 | An entry survives iff it is neither the removed path nor below it; known contents of survivors are unchanged. |
| FileSystem.RemoveTreesExactly | src/utils/file.js:104-113 | After removing several trees, an entry survives iff it lies at or under none of them. Surviving contents are unchanged. |
| FileSystem.Fs.MakeDir | src/utils/file.js:137 | The disk afterwards is the old disk with the directory added. |
| FileSystem.Fs.Touch | src/utils/file.js:89-100 | The downloaded file exists afterwards, with unknown contents. |
| FileSystem.Fs.WriteFile | src/utils/file.js:62 | The file exists afterwards with exactly the written text; the rest is unchanged. |
| FileSystem.Fs.AddAll | src/utils/file.js:149 | The extracted paths exist afterwards, with unknown contents. |
| FileSystem.Fs.RemoveTree | src/utils/file.js:105 | The disk afterwards is the old disk without the tree. |
| Files.CheckAppDir | src/utils/file.js:10-22 | The directory listing throws, with `ENOTDIR`, iff the path is a regular file. The process exits, with code 1 and the `ALREADYEXISTS` notice, iff the path is an existing directory with something below it. Otherwise the check passes, with no effect and no value. |
| Files.DotEnvLines | src/utils/file.js:45-60 | Sixteen lines: the fixed header, the `NEO4J_URI`, `NEO4J_USER` and `NEO4J_PASSWORD` lines with the credentials, the fixed footer. |
| Files.DotEnvSplits | src/utils/file.js:45-60 | The `.env` text is exactly the 16 fixed and credential lines, joined by newlines. |
| Files.DotEnvRoundTrip | src/utils/file.js:42-62 | Reading `NEO4J_URI`, `NEO4J_USER` and `NEO4J_PASSWORD` back from the text gives the credentials verbatim when they hold no newline. `NEO4J_DATABASE` is unset because its line is a comment. |
| Files.DotEnvFixedPart | src/utils/file.js:36-60 | Lines 5-7 are the credential lines in order. The commented database line and the three GraphQL server lines are fixed. The text ignores the encryption flag. |
| Files.WriteDotEnv | src/utils/file.js:36-63 | Writes the `.env` text to `<appDir>/api/.env`, and nothing else. |
| Files.ConfigJson | src/utils/file.js:74-79 | The configuration text is a JSON object, and it is `{}` exactly when neither the template name nor the file name is defined. |
| Files.ConfigJsonKeys | src/utils/file.js:74-79 | The configuration decodes to exactly `templateFileName` and then `templateName`, each present iff defined. |
| Files.ConfigJsonUndefined | src/utils/main.js:54 | With neither value passed, the configuration file holds `{}`. |
| Files.WriteConfigJson | src/utils/file.js:65-80 | Creates `<appDir>/scripts/config` only if it is absent, then writes `index.json` with the configuration text. |
| Files.RemovalTargets | src/utils/file.js:104-105 | One target per entry of `rmTemplates`, namely `<appDir>/<entry>`, in order. |
| Files.RemoveUnusedTemplates | src/utils/file.js:102-117 | The disk afterwards is the old disk with every target tree removed, one after another. |
| Files.RemovalTouchesOnlyChoices | src/utils/file.js:102-113 | An entry survives the removal iff it lies at or under `<appDir>/<c>` for no entry `c`. Nothing else is deleted. |
| Files.RemovalTitle | src/utils/file.js:165-166 | The title starts with the heading and a newline. An empty list leaves a single empty bullet. |
| Files.RemovalTitleLines | src/utils/file.js:165-166 | The removal title is the heading line followed by one `✔`-marked line per template, in order. |
| Files.CreateProjectTasks | src/utils/file.js:119-170 | Six tasks, all run, in the order directory, download, extract, env file, scripts configuration, removal, each with its title. The first title is `Using directory '<appDir>'` if the directory exists, else `Creating directory '<appDir>'`. The last title lists the templates to remove. |
| Runner.Perform | src/utils/file.js:136-167 | Carrying out an action changes the disk exactly as `Effect` says. |
| Runner.FirstFailure | src/utils/main.js:86 | The result is the first task at or after the start that is started and fails. With no result, no such task exists. |
| Runner.Outcome | src/utils/main.js:86-89 | The run completes iff no started task fails. Otherwise it reports the first failing task with its title and error. |
| Runner.Reached | src/utils/main.js:86 | The run gets through every task before the failing one, or through all tasks. |
| Runner.StateOf | src/utils/main.js:52-89 | A task is aborted iff it comes after the failing one, and failed iff it is the failing one. It succeeds iff it is started before the stop. A skipped task keeps its skip reason, and a disabled task is one whose `enabled` is false. |
| Runner.Run | src/utils/main.js:86-89 | The loop's result, its per-task states and the final disk equal `Outcome`, `StateOf` and the effects of the started tasks before the stop. |
| Runner.LaterStepsNeverStart | src/utils/main.js:86 | Two task lists that agree up to the failing task report the same result and leave the same disk, whatever follows it. |
| Runner.UntrackedTail | src/utils/main.js:55-84 | Git, install and version-check tasks leave the disk as it was. |
| Runner.NotStartedHasNoEffect | src/utils/main.js:55-59 | Tasks that are disabled or skipped do not change the disk. |
| Main.InstallSkip | src/utils/main.js:35-38 | An install is skipped, with the `--install` hint as reason, iff installing was not requested. |
| Main.Prefer | src/utils/main.js:33 | npm is preferred iff `useNpm`, otherwise yarn. |
| Main.CheckReact | src/utils/main.js:23-44 | One install task in `<appDir>/web-<lowercase template>` iff that name contains "react". It carries the install skip rule and package manager; otherwise there is no task. |
| Main.CheckReactPerTemplate | src/utils/main.js:24-25 | React installs in `web-react` and React-TS in `web-react-ts`; Angular gets no task. |
| Main.CreateAppSteps | src/utils/main.js:52-85 | The six project tasks come first, then git (enabled iff `gitInit`), then root, api and web installs, with their titles. Every install prefers npm iff `useNpm` and is skipped iff `runInstall` is false. |
| Main.SuccessMessages | src/utils/main.js:90-106 | Three messages: the thanks, from which the app directory can be read back; the documentation link; the start and seed hints, from which the project path can be read back. |
| Main.Conclusion | src/utils/main.js:89-107 | The result is created, with exactly the success messages, iff the run completed. Otherwise the result is the failing task's error. |
| Main.CreateApp | src/utils/main.js:8-108 | A non-empty existing directory at `projectPath` ends the process before anything runs. A regular file there makes the promise reject with `ENOTDIR` before anything runs. In both cases the disk is untouched. Otherwise the task list runs with fail-fast semantics, and the result, task states and disk are as the runner specification says. |
| Main.CompletedRunStopsAtRemoval | src/utils/main.js:55-85 | After a completed run, the disk is the disk right after the template removal. |
| Main.CompletedRunRemovesTemplates | src/utils/main.js:52-89 | After a completed run, nothing remains at or under `<appDir>/<c>` for any removed template `c`. |
| Main.CompletedRunWritesEnv | src/utils/main.js:52-89 | After a completed run, `<appDir>/api/.env` holds exactly the text built from the configured credentials. |
| Legacy.TargetDir | src/create-grandstack-app.js:62 | Same length, no commas, every comma becomes a dash and other characters are unchanged. The result is empty iff the name is empty. |
| Legacy.Resolve | src/create-grandstack-app.js:80 | An absolute target is kept; a relative one is placed under the working directory. |
| Legacy.UseYarn | src/create-grandstack-app.js:30-39 | Yarn is used iff `--use-npm` is absent and the yarn probe succeeds. |
| Legacy.InstallCommand | src/create-grandstack-app.js:144 | `yarn install` iff yarn is used, else `npm install`. |
| Legacy.ProjectTasks | src/create-grandstack-app.js:88-114 | Exactly directory, download, extract, with their titles. The first title starts with "Using" iff the directory existed, else with "Creating". |
| Legacy.InstallTasks | src/create-grandstack-app.js:116-160 | Exactly the version check, then the shell install in `api`, then the shell install in `ui-react`, with their titles. |
| Legacy.IncompatibilityLines | src/create-grandstack-app.js:132-135 | One `<name> <wanted> required, but found <version>` line per reported tool, in order. |
| Legacy.CompatibilityError | src/create-grandstack-app.js:132-136 | No reported tool gives an empty message; otherwise the message starts with the first tool's line. |
| Legacy.CompatibilityErrorLines | src/create-grandstack-app.js:127-136 | The error message splits on newlines into exactly those lines. |
| Legacy.InstallFaults | src/create-grandstack-app.js:127-137 | The version check fails iff it is unsatisfied, with the compatibility message; the installs fail as given. |
| Legacy.Program | src/create-grandstack-app.js:62-188 | An empty name exits with code 1. A regular file at the target makes the listing throw, which exits with code 1 and the `ENOTDIR` error. An existing non-empty directory exits with code 1. In these cases the disk is untouched. Otherwise the two task groups run. Every ending other than the thanks exits with code 1. |
| Legacy.Pipeline | src/create-grandstack-app.js:162-188 | A failing project task exits with code 1 and its error, on the disk the project tasks before it left. When the project group completes, a failing install task exits the same way, on the disk the install tasks before it left. The thanks are printed iff both groups complete, and the disk is then the one all tasks left. |
| Legacy.RunPipeline | src/create-grandstack-app.js:162-188 | Running the two groups on the disk gives the ending and the disk that `Pipeline` describes. |
| Legacy.CreateGrandstackApp | src/create-grandstack-app.js:19-188 | The program on the mutable disk ends, and leaves the disk, exactly as `Program` describes. |
| Legacy.AllStartCompletes | src/create-grandstack-app.js:173 | A run whose tasks all start completes iff none of them has a fault. |
| Legacy.ThanksIffEverythingSucceeds | src/create-grandstack-app.js:176-188 | The thanks are printed iff the name is non-empty, the target is not a regular file and is absent or an empty directory, no project task fails, the version check is satisfied and neither install fails. |
| Legacy.ProjectFailureSkipsInstalls | src/create-grandstack-app.js:162-188 | If the first failing project task is task `k`, the program exits with that task's error. The disk is the one the project tasks before `k` left, so no install starts. |

## Left out

- Options.ParseArgumentsIntoOptions: `--init-db` is accepted and ignored. Options that take values are not modelled, since the table has none. The `arg` library's `permissive` and `stopAtPositional` modes are not modelled, since the code uses neither.
- Strings.Lower: lowercases ASCII letters only.
- Files.WriteConfigJson: does not model that the non-recursive `mkdirSync` throws when `<appDir>/scripts` is missing. Every failure of a task, this one included, comes from the fault map in `World`.
- FileSystem.Fs.MakeDir: adds only the named directory. The parents a recursive `mkdirSync` creates are not added. When the path is an existing regular file, the model turns it into a directory, whereas the real `mkdirSync` throws; only the fault map can produce that failure, and in `Main` the case is reachable because the gate checks `projectPath`, not `appDir`.
- FileSystem.Disk.AddAll: the extracted entries are not known to be files or directories. They are never counted as regular files.
- Runner.Applied: a failing task leaves the disk as it found it. The traces a real failure can leave are not modelled: the temporary file `createWriteStream` has already created, a partly extracted archive, or parents created by `mkdirSync`. The disk that `Runner.Run`, `Main.CreateApp`, `Legacy.Pipeline` and `Legacy.ProjectFailureSkipsInstalls` promise after a failure therefore leaves those traces out.
- The network: the release lookup and the streaming download succeed or fail as the fault map says, and the archive listing is an input.
- The archive tool: `decompress` with `strip: 1` is not modelled. The stripped listing is given, and the extracted files' bytes are unknown.
- Temporary file naming (`tmp`): the temporary path is a parameter.
- Subprocesses: `git init`, the package-manager installs, the `yarnpkg --version` probe and the Node version checker are not modelled. Their results are inputs: a fault, a boolean, or a version report.
- `removeUnusedTemplates` is asynchronous and does not await `rimraf`; a `rimraf` error exits the process from a callback. The model applies the deletions in order within the task, and delete errors are not modelled.
- The task runner's rendering, its `collapse` option and the states it shows for tasks after a failure. Those tasks are modelled as never started (`Aborted`).
- Prompt UI, colours and console layout. Messages are kept only where they decide an exit or appear in a task title.
- `path.resolve` and `path.join` normalisation: paths are strings joined with `/`.
- Concurrency and promises: the runs are sequential, and `process.exit` is a result value.
- `commander` handling of a missing `<project-directory>` argument: the legacy model takes the project name as a string.
- `src/cli.js` is not part of this model. It is glue that parses, prompts and calls `createApp` without awaiting it.
