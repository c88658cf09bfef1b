# lazy: file-name parsing, project directories, and the run and create flows

lazy is a command-line tool that files source code into per-language project
directories and runs it. This Dafny project models three parts of its `cmd`
package:

- **cmd/root.go.** `getExtensionIndex` finds where a name's extension
  starts. `hasExtension` guards both commands. `getDirPath` derives the
  project directory: `~/Documents/<ext>_projects/`, or
  `~\<ext>_projects\` on Windows. These are pure functions. The operating
  system and the home directory are parameters. A Go panic is the value
  `Panic(fault)` of `Outcomes.Result`.
- **cmd/run.go.** `checkAndRun` checks the name, searches for the source,
  moves to its project root and calls `run`. `run` compiles the file if
  needed, busy-waits for the output, then executes it. Both are methods
  on `Host.Process`. That class holds the existing paths, the working
  directory, the child processes started and the lines printed. Each
  method is proved equal to a spec function over a `Host.World` snapshot,
  and the flow properties are lemmas about those functions.
- **cmd/create.go.** This covers `createCmd`'s dispatch over its
  arguments, `checkAndRunCreate`, `createFile` and `createDir`, modelled
  the same way.

Helpers whose code is not part of this model become oracles in
`RunCmd.RunEnv` and `CreateCmd.CreateEnv`: `searchFile`, `getOutputName`,
`isAlreadyCompiled`, and failures of mkdir, write and process execution.
`compile` is recorded as a `CompileJob` child; what it produces shows only
in the trace of polls below. What each `os.Stat` of the wait loop reports is a finite trace,
`RunEnv.polls`. When the trace runs out with the output still missing, `run`
ends as `RunHung`, which stands for the endless spin.

Where what the code evidently means to do and what it does differ, the
model follows what it does:

- Both commands guard on `hasExtension` and have an `else` branch that
  prints "The file must have an extension" (cmd/run.go:70-73,
  cmd/create.go:75-77); cmd/run.go:51 says the guard is there to "make
  sure the file has an extension". So a dot-free name was meant to get that
  line. But `hasExtension` calls `getExtensionIndex`, and for a dot-free
  name `strings.Index` returns -1, so `filepath[dot]` at cmd/root.go:99
  panics with an index out of range first. Both commands therefore panic
  on such a name, and the "must have an extension" lines are never
  printed. The `RunCmd.NeverAsksForExtension` and
  `CreateCmd.NeverAsksForExtension` lemmas prove this, and name the lines
  each command can print instead.
- The empty name is a special case. `run` checks for it first and prints
  "No file was given". `create` has no such check, so it panics.
- For multi-dot names the "extension" token is not the text after the last
  dot. `archive.tar.gz` gives the token `.gz` and the directory
  `.gz_projects`. `a.b.c.d` gives `c.d`. `Root.ExtensionTokenSpec` proves
  the general rule.

## Model

| member | source | states |
|---|---|---|
| Strings.IndexSpec | cmd/root.go:96 | `strings.Index` for one character: -1 exactly when the character is absent, otherwise the position of its first occurrence |
| Strings.LastIndexSpec | cmd/root.go:95-107 | the position of the last occurrence of a character, used to state the closed form: -1 exactly when it is absent, no occurrence after it |
| Strings.CountZero | cmd/root.go:99 | `strings.Count` of one character is 0 exactly when the character is absent |
| Strings.IndexFindsCounted | cmd/root.go:96-99 | the count is positive exactly when `strings.Index` finds the character |
| Strings.CountWithinFirstAndLast | cmd/root.go:99 | a character that occurs at all occurs at least once and at most (last - first + 1) times; exactly once when its first and last positions coincide |
| Strings.CountAfterFirst | cmd/root.go:99-101 | the text after the first occurrence holds one occurrence fewer |
| Strings.LastIndexAfterFirst | cmd/root.go:101-102 | when another occurrence follows the first, the last one is the last of the rest, shifted by where the rest starts |
| Strings.LastIndexIsUnique | cmd/root.go:95-107 | the last occurrence is the one position holding the character with none after it |
| Root.ExtensionIndex | cmd/root.go:95-107 | getExtensionIndex: panics (index out of range) exactly when the name has no '.', otherwise returns last dot's position - (number of dots - 1); the recursion is on a strictly shorter suffix |
| Root.ClosedFormStep | cmd/root.go:99-104 | with more than one dot, the suffix after the first dot still holds a dot (so the recursive call does not panic), and the closed form of the name is the first dot's position plus the closed form of that suffix |
| Root.ClosedFormBase | cmd/root.go:96-106 | with a single dot the closed form is the first dot's position |
| Root.ExtensionIndexPanicsIff | cmd/root.go:96-99 | getExtensionIndex panics exactly on dot-free names, and only with the index-out-of-range fault |
| Root.ExtensionIndexBounds | cmd/root.go:95-107 | for a name holding '.', the index lies between the first and the last dot, so in [0, \|name\| - 1] |
| Root.ExtensionIndexOfSingleDot | cmd/root.go:96-106 | a name with exactly one '.' gets that dot's position |
| Root.ExtensionTokenSpec | cmd/root.go:85-88 | the token `file[dot+1:]` is a proper suffix of the name, one character longer than the text after the last dot for every extra dot; it is that text for one dot and still holds the last dot (at position k - 2) for k >= 2 dots; a dot-free name panics |
| Root.HasExtensionIff | cmd/root.go:118-124 | hasExtension is true exactly for names holding '.', panics on all others, and never returns false |
| Root.DirPathSpec | cmd/root.go:74-92 | getDirPath panics on a dot-free name, then if the home directory is unavailable; otherwise it is `home\<token>_projects\` on Windows and `home/Documents/<token>_projects/` elsewhere |
| Root.JoinedLayout | cmd/root.go:84-89 | the `filepath.Join` calls plus the trailing separator spell out exactly those two layouts |
| Root.ProjectDirShape | cmd/root.go:84-89 | each layout starts with the home directory followed by the separator and ends with the host separator |
| Root.DirPathShape | cmd/root.go:84-89 | every directory getDirPath returns lies under the (available) home directory and ends with the host separator |
| Root.DirPathOkIff | cmd/root.go:74-92 | getDirPath yields a path exactly when the name holds '.' and the home directory is known |
| FilePath.BaseSpec | cmd/run.go:65 | `filepath.Base`: "." for the empty path, the separator for an all-separator path, otherwise a non-empty separator-free final element of the path |
| FilePath.TrimTrailingSeparatorsSpec | cmd/run.go:65 | trimming keeps a prefix that does not end in a separator and drops only separators |
| FilePath.LastElementSpec | cmd/run.go:65 | the last element is a separator-free suffix, preceded by a separator unless it is the whole string |
| RunCmd.ExecCommandShape | cmd/run.go:96 | the executed command is exactly "./" + outName + ".o", and distinct output names give distinct commands |
| RunCmd.Run | cmd/run.go:77-107 | run, as a method over the process state: its new state and result are RunSpec of the old state (compile unless compiled, wait loop over the stat replies, then execute) |
| RunCmd.CheckAndRun | cmd/run.go:45-74 | checkAndRun, as a method: its new state and outcome are CheckAndRunSpec of the old state |
| RunCmd.RunFrame | cmd/run.go:77-107 | run keeps the working directory, starts every child in it, and only appends children, messages (all "compiled" lines) and paths |
| RunCmd.CompiledSkipsCompile | cmd/run.go:80-96 | an already compiled artifact is executed directly: no compile job, no wait, no message, no new path, never hangs |
| RunCmd.WaitExit | cmd/run.go:82-92 | past the wait loop, a compile job was started first, the loop stopped at the first stat not reporting "does not exist", the output path then exists or the stat failed otherwise, and the "compiled" line is printed |
| RunCmd.HangIff | cmd/run.go:81-90 | run spins forever exactly when a compile was needed and no stat ever reports anything but "does not exist" |
| RunCmd.ExecErrorIff | cmd/run.go:96-106 | unless it hangs, run's last child executes "./" + outName + ".o" in the working directory, and run returns an error exactly when that execution does |
| RunCmd.EmptyNameOnlyPrints | cmd/run.go:46-49 | an empty name prints "No file was given" and changes nothing else, before any extension check, search or chdir |
| RunCmd.DotFreeNamePanics | cmd/run.go:52 | a non-empty dot-free name panics in hasExtension with the world unchanged: no search, no chdir, no message |
| RunCmd.SearchErrorAborts | cmd/run.go:53-56 | a search error panics before any chdir, with the world unchanged |
| RunCmd.NotFoundKeepsCwd | cmd/run.go:58-61 | when the search finds nothing, only "Couldn't find source file" is printed: working directory, children and paths are unchanged and run is not invoked |
| RunCmd.NamedSourceIsSearched | cmd/run.go:52-53 | a non-empty name holding '.' always reaches the search with the current working directory |
| RunCmd.FoundRunsBaseNameAtRoot | cmd/run.go:63-69 | after a successful search the working directory is the root path, run receives Base of the found path, every child starts in the root path, the command hangs iff run hangs, and panics with the run error iff the execution fails, printing "Could not run file" |
| RunCmd.NeverAsksForExtension | cmd/run.go:70-73 | the "must have an extension" line is never printed; checkAndRun only appends lines, and each is "No file was given", "Couldn't find source file" for this name, a "compiled" line or "Could not run" |
| CreateCmd.CreateDir | cmd/create.go:122-134 | createDir, as a method: its new state and result are CreateDirSpec of the old state |
| CreateCmd.CreateFile | cmd/create.go:85-119 | createFile, as a method: its new state and result are CreateFileSpec of the old state |
| CreateCmd.CheckAndRunCreate | cmd/create.go:67-79 | checkAndRunCreate, as a method: its new state and outcome are CheckAndRunCreateSpec of the old state |
| CreateCmd.CreateCommand | cmd/create.go:34-56 | createCmd's Run, as a method with a loop over the arguments: its new state and outcome are CreateCommandSpec of the old state |
| CreateCmd.BatchStopsAtPanic | cmd/create.go:36-38 | once an argument panics, the later arguments are never processed |
| CreateCmd.CreateDirResult | cmd/create.go:122-134 | createDir touches only the paths; on return the directory is getDirPath(name) and exists, added only when missing; on a panic nothing changed and the cause is getDirPath or os.Mkdir of a missing directory |
| CreateCmd.CreateDirIdempotent | cmd/create.go:126-131 | calling createDir again after it returned gives the same directory and changes nothing |
| CreateCmd.Openers | cmd/create.go:95-114 | createFile starts at most one opener, and none exactly when neither -o nor -t is given |
| CreateCmd.CreateFileResult | cmd/create.go:85-119 | the file getDirPath(name) + name exists after a successful write, next to its directory; the openers are the only children; "File created at" with that path is printed exactly on success; a failed write adds no file, child or line |
| CreateCmd.DotFreeNameTouchesNothing | cmd/create.go:69 | a dot-free name panics in hasExtension and touches no directory or file, starts nothing, prints nothing |
| CreateCmd.NamedFileIsCreated | cmd/create.go:69-70 | a name holding '.' always reaches createFile |
| CreateCmd.NeverAsksForExtension | cmd/create.go:75-77 | the "must have an extension" line is never printed; at most one line is appended, and it is "File created" or "Couldn't create" for this name |
| CreateCmd.AfterGuardMessages | cmd/create.go:70-74 | past the guard, at most one line is appended, and it is "File created" or "Couldn't create" for this name |
| CreateCmd.BatchFrame | cmd/create.go:35-38 | the multi-argument loop never starts a child (both flags off), never changes the working directory and only adds paths |
| CreateCmd.StepFrame | cmd/create.go:37 | one step of the loop keeps the children and the working directory and only adds paths |
| CreateCmd.StepCreated | cmd/create.go:37 | a step of the loop that returns has created its argument's file and printed exactly its path |
| CreateCmd.TargetFiles | cmd/create.go:36-37 | one target file per argument |
| CreateCmd.TargetFilesAt | cmd/create.go:36-37 | the i-th target file is the one for the i-th argument |
| CreateCmd.CreatedEachExtend | cmd/create.go:36-38 | creating one more file after a run of created files extends the run, in order |
| CreateCmd.BatchLast | cmd/create.go:36-38 | a loop that returned first returned on all but the last argument, then ran the last with both flags off |
| CreateCmd.BatchCreatesTargets | cmd/create.go:35-38 | a loop that returns has created every argument's target file and printed their paths, in argument order |
| CreateCmd.BatchCreatesEach | cmd/create.go:35-38 | for each argument in order: getDirPath(arg) + arg exists afterwards and the i-th new line is "File created at" that path; nothing else is printed |
| CreateCmd.CreateCommandDispatch | cmd/create.go:35-54 | with several arguments every one is processed with both flags off and no child is started; with one argument the -o and -t values are passed through unchanged |

## Left out

- `initConfig`, the viper configuration and the cobra command wiring are not modelled. Cobra itself refuses an empty argument list for `create`, so `CreateCmd.CreateCommand` requires at least one argument. A failing `GetBool` for the flags is not modelled either.
- `getBasePath` relies on `runtime.Caller`. The script path is not modelled: an `OpenInTerminal` child records only the directory and name the script receives.
- `op.Run`, `os.Setenv` and the bash script run as recorded children. Whether the script fails is the oracle `CreateEnv.scriptFails`. The error of `op.Run` is ignored, as in the source.
- Real process spawning and stdin/stdout/stderr forwarding are not modelled. A child records what was started. The run command's children (`CompileJob`, `Exec`) carry the working directory they start in. `OpenWithApp` carries the file path, and `OpenInTerminal` the project directory and name passed to the script.
- The bodies of `searchFile`, `getOutputName`, `isAlreadyCompiled` and `compile` are not part of this model. The first three are oracles in `RunEnv`; `compile` is the recorded `CompileJob` child, and its effect is the `polls` trace. `isAlreadyCompiled` and `searchFile` see the working directory as an argument.
- Timing and termination of the busy-wait are not modelled. The stat replies are a finite trace, and running out of replies means the loop never ends (`Hung`).
- RunCmd.RunSpec: the "compiled" line records the output path, not `filepath.Dir` of it.
- RunCmd.RunSpec: a finished compile adds the output path only when the stat reports that it exists. Files a compile job or an executed program create otherwise are not modelled.
- RunCmd.CheckAndRun: `os.Chdir` always succeeds. The source ignores its error.
- CreateCmd.CreateDir: a stat error other than "does not exist" counts as "exists", so no mkdir happens, as in the source. Which paths exist is the model's set of paths.
- FilePath.Join is plain concatenation with the separator. `filepath.Join`'s cleaning (collapsing separators, resolving `..`) is not modelled, and on Windows `filepath.Base` does not strip a volume name.
- Go strings are byte strings. The model uses one `char` per byte, which matches for ASCII names.
- `os.WriteFile` truncating an existing file is not modelled: the path is recorded as existing either way.
