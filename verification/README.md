# gadget: a verified model of the watcher, the builder and the shells

gadget is a development loop for Go programs. It watches a project's source
tree. When a relevant file changes, it rebuilds the program, restarts it on a
negotiated address, and attaches the `dlv` debugger to the new process. This
project models its core in Dafny and proves what that core promises.

- **The path classifier** (`isExcluded`, watcher.go). `Classifier.Excluded`
  is a pure function giving the rule precedence as the code applies it.
  `Watcher.Watcher.IsExcluded` is the early-return loop version, proved equal
  to it.
- **Watch-set registration** (`newWatcher`, `getNestedPaths`, `watchDir`,
  `watch`). The file system is an oracle:
  - `stat` maps each path that `os.Stat` can read to whether it is a
    directory;
  - a tree walk is either the list of entries `filepath.WalkDir` visits,
    or a root that `os.Lstat` cannot read (a symbolic link, even a
    dangling one, is read and walked as a single non-directory entry).

  The watch list `fsWatching` is a field that the methods append to. Each
  method is specified by a function (`AfterWatchDir`, `RegisterAll`) whose
  properties are lemmas.
- **Event gating and debounce** (`watchLoop`, `endWatch`). This is a discrete
  state machine on the watcher:
  - the pause flag;
  - the single timer slot keyed `"fileModified"`;
  - a counter of `onEvent` calls.

  Its actions are an incoming event, a timer firing, the callback returning,
  and `endWatch`.
- **The process supervisor** (`builder`, builder.go). These are oracles,
  passed as parameters:
  - the compiler's exit status;
  - which ports can be bound;
  - the process ids the system hands out.

  The builder keeps the memoised address and debugger port, and the handles
  of the application and debugger it launched. It also records, as model
  state, the set of processes still alive and the kill order.
- **The shells** (shell.go and cmd/shell.go). These model `splitCommand` and
  the fixed command registries: seven commands in the main shell, only
  `make` in the `cmd` package.

Modules:

- `Wrappers` holds `Option`.
- `Strings` holds the parts of Go's `strings` and `strconv` that the core
  uses, with their lemmas.
- `Config` holds the configuration value.
- `Classifier`, `Watcher`, `Builder`, `Shell` and `CmdShell` hold the four
  components.

Behaviours of the code that a reader may not expect, and that the model
keeps:

- **Directory scoping uses the last match.** The comment at
  watcher.go:96-98 suggests the closer (longer) match decides. The code records the length of the last
  matching entry in list order (watcher.go:106-108, 116-118).
  `Classifier.LastVersusLongest` proves that the two agree when the entries
  are listed from shorter to longer. `Classifier.LastMatchIsNotLongestMatch`
  gives a rule set where they do not.
- **An included file is still excluded if it is empty or ends in `~`.**
  The include-file loop returns early, but the code tests the empty
  path and the `~` suffix first (watcher.go:73-80).
- **Duplicate directories are not suppressed.** Only the parent directory of a file
  is de-duplicated. A directory is appended every time it is registered
  (watcher.go:151-168; `Watcher.DirectoryRegisteredTwice`).
- **`endWatch` can leave the watcher watching.** When closing the subscription fails, the code
  returns with `isWatching` still true (watcher.go:276-281).
- **An application that fails to start is fatal.** Start failures are
  only reported (builder.go:96-98), but when the application fails to start, its
  `Process` is nil, and `runDebugger` dereferences it (builder.go:129). The
  model ends that cycle with the `AppNotRunning` outcome. A debugger that
  fails to start is only reported (builder.go:158-161). The model then
  launches a debugger handle without a pid.
- **A walk never reports an error, but an unreadable root panics.**
  `newWatcher` checks the error of each walk, but the callback of
  `getNestedPaths` ignores its error argument and always returns `nil`
  (watcher.go:289-299), so the error checks at watcher.go:28-30 and 34-36
  never fire. A root that `os.Lstat` cannot read reaches the callback with a nil
  entry, and `info.IsDir()` then panics (watcher.go:295) unless the root's
  path contains a `.`. That root may be the project path or an included
  directory. The model gives `None` there (`Watcher.NestedPaths`), and
  `NewWatcher` then returns `None`. A directory whose listing fails is passed
  to the callback twice, so it appears twice in the walk and in the list.
- **The dot filter looks at the whole path.** A walked path is skipped when
  it contains `.` anywhere, not just in a leading-dot segment (watcher.go:291).
  The filter returns `nil` rather than skipping the directory, so every entry
  below a dotted directory is dropped as well. `Watcher.DottedRootHidesTree`
  states this for a walk whose entries all begin with the walked root. That
  holds when the root is a clean path such as `/home/u/my.app`. `WalkDir`
  builds child paths with `filepath.Join`, which cleans them, so a root such
  as `./proj` yields children such as `proj/a`, which are kept. Included
  directories and the parents of included files are registered whatever the
  project path is.

## Model

| member | source | states |
|---|---|---|
| Strings.Split | shell.go:99 | `strings.Split` with a one-character separator always yields at least one field. Its meaning is fixed by the next three lemmas. |
| Strings.JoinSplit | shell.go:99 | Joining the fields of `strings.Split(s, sep)` with `sep` gives back `s`. |
| Strings.SplitFields | shell.go:99 | `strings.Split` yields one more field than there are separators, and no field contains the separator. |
| Strings.FirstField | shell.go:99-104 | The first field of a split is a prefix of the input with no separator in it. It is the whole input when there is no separator; otherwise a separator follows it. |
| Strings.LastFieldSuffix | watcher.go:125-126 | The last field of a split is a separator-free suffix of the input. A separator precedes it unless it is the whole input, which happens exactly when there is one field. |
| Strings.ParseNatToString | builder.go:77 | Decimal formatting (`strconv.Itoa`) of a natural number parses back to that number. |
| Strings.NatToString | builder.go:77 | `strconv.Itoa` of a natural number: at least one character, a single one exactly below 10, and a leading `0` only for zero itself. |
| Strings.NatToStringDigits | builder.go:126 | The decimal text of a port or pid consists of digits only. |
| Config.WithBinaryExcluded | config/config.go:37 | Loading a configuration appends `path + "/" + name` to the excluded files and changes nothing else. |
| Classifier.Excluded | watcher.go:71-141 | The rules in their order of precedence. A path is excluded only for a reason: it is empty, a backup file, an excluded file or directory, below a non-empty excluded directory, or caught by a file-name rule. An included file that is neither empty nor a backup file is never excluded. |
| Classifier.LastPrefixLen | watcher.go:99-119 | The recorded match length is 0, or the length of a listed directory that is a prefix of the path; it never exceeds the path's length. |
| Classifier.FileName | watcher.go:125-126 | The file name is a suffix of the path that contains no `/`; a path without `/` is its own file name. |
| Classifier.NameExcluded | watcher.go:128-138 | With no prefix and no extension rules no name is excluded; an empty prefix or extension rule excludes every name. |
| Classifier.LastPrefixLenIsLastMatch | watcher.go:101-108 | The match length is that of the last matching entry in list order, whatever earlier matches were. |
| Classifier.LastPrefixLenNoMatch | watcher.go:99-108 | With no matching entry the match length stays 0. |
| Classifier.LastVersusLongest | watcher.go:99-123 | The last match is never longer than the longest match, and equals it when the entries are listed from shorter to longer. |
| Classifier.EmptyOrBackupExcluded | watcher.go:73-80 | The empty path and any path ending in `~` are excluded, whatever the rule lists say. |
| Classifier.IncludedFileWins | watcher.go:83-87 | A non-empty, non-`~` path equal to an included file is not excluded, even if an excluded file or directory also matches it. |
| Classifier.ExcludedFileExcluded | watcher.go:89-94 | A path equal to an excluded file, and not an included file, is excluded. |
| Classifier.ExactDirectoryRules | watcher.go:101-114 | An exact excluded directory is excluded even if it is also an included directory. Failing that, an exact included directory is not excluded. |
| Classifier.DirectoryScoping | watcher.go:99-140 | With no exact rule, a longer last excluded match means excluded. Otherwise the result is exactly whether the file-name prefix or extension rules match. |
| Classifier.NestedIncludeCarvesOut | watcher.go:99-123 | With an included directory inside an excluded one, a path below the excluded directory is excluded iff it is not below the included one. |
| Classifier.PrefixIsNotSegmentAware | watcher.go:106-108 | Excluding `/p/vendor` also excludes `/p/vendorX/a.go`: matching is by characters, not path segments. |
| Classifier.LastMatchIsNotLongestMatch | watcher.go:99-123 | Excluded `/p/v/x` then `/p`, included `/p/v`: `/p/v/x/f` is not excluded, although the longest excluded match is longer than the longest included one. |
| Classifier.NoRulesExcludeOnlyBackups | watcher.go:71-141 | With all rule lists empty, exactly the empty path and `~` files are excluded. |
| Classifier.BuiltBinaryIgnored | config/config.go:37 | Once loading has appended the binary's path to the excluded files, the watcher ignores the built binary unless that path is an included file. |
| Classifier.FileNameIsLastSegment | watcher.go:125-126 | The name tested by the prefix and extension rules is the text after the last `/`. |
| Watcher.NestedDirs | watcher.go:289-297 | The directories a walk keeps are no more than the entries walked, and none contains a `.`. |
| Watcher.NestedDirsAppend | watcher.go:287-300 | Filtering a walk is compositional: the filter of a concatenation is the concatenation of the filters, so walk order is kept. |
| Watcher.NestedDirsMembers | watcher.go:289-297 | A path is kept iff some walked entry with that path is a directory whose path contains no `.`. |
| Watcher.DottedRootHidesTree | watcher.go:291-293 | When every walked path begins with the root and the root contains a `.`, nothing is kept. |
| Watcher.NestedPaths | watcher.go:287-300 | `getNestedPaths` panics exactly when `os.Lstat` cannot read the root and its path has no `.`. It never reports an error, and nothing it returns contains a `.`. |
| Watcher.GetNestedPaths | watcher.go:287-300 | The loop collects exactly the kept directories in walk order. For an unreadable root it panics, or returns nothing if the root has a `.`. |
| Watcher.IncludeDirPaths | watcher.go:32-39 | The directories collected from the included directories never contain a `.`. |
| Watcher.IncludeDirPathsMembers | watcher.go:32-39 | The include-directory part exists iff no included directory's walk panics. It then holds exactly the kept directories of the walk of some included directory. |
| Watcher.IncludeDirPathsPanics | watcher.go:32-39 | One panicking walk of an included directory makes the whole watch list panic. |
| Watcher.CollectIncludeDirs | watcher.go:32-39 | The loop over the included directories computes exactly the include-directory part, stopping at a panicking walk. |
| Watcher.WatchPaths | watcher.go:26-47 | The included files always end the assembled watch list. |
| Watcher.WatchPathsMembers | watcher.go:26-47 | The initial watch list exists iff neither the project walk nor an included directory's walk panics. It then holds exactly three kinds of path: kept directories under the project path, kept directories under an included directory, and the included files. |
| Watcher.ParentDir | watcher.go:154 | `filepath.Dir` of a clean path: `.` when the path has no `/`, and otherwise a prefix of the path. |
| Watcher.ParentDirJoin | watcher.go:154 | Below the root, a path is its parent directory, a `/`, and its file name. |
| Watcher.WatchTarget | watcher.go:151-164 | A directory is watched as itself. A file is watched through its parent: `.` when the path has no `/`, and otherwise a prefix of the path. |
| Watcher.AfterWatchDir | watcher.go:143-173 | Registering one path keeps the old watch list as a prefix and appends at most one entry. |
| Watcher.FileRegisteredOnce | watcher.go:151-168 | Registering the same file twice adds its parent at most once. |
| Watcher.DirectoryRegisteredTwice | watcher.go:151-168 | Registering a directory twice lists it twice. |
| Watcher.RegisterAll | watcher.go:61-63 | Registering a list of paths only appends, at most one entry per path. |
| Watcher.RegisterAllCovers | watcher.go:61-63 | After registration, each path that could be stat'ed has its directory watched: the path itself, or its parent for a file. |
| Watcher.RegisterFilesNoDuplicates | watcher.go:152-168 | Registering only files keeps a duplicate-free watch list duplicate-free. |
| Watcher.Watcher.constructor | watcher.go:43-46 | A new watcher holds the configuration and watch list, watches nothing, is not paused and has an empty timer slot. It is settled: paused exactly while a fired callback runs. |
| Watcher.Watcher.IsExcluded | watcher.go:71-141 | The rule loops with their early returns compute exactly `Classifier.Excluded`. |
| Watcher.Watcher.WatchDir | watcher.go:143-182 | A path that fails to stat changes nothing. A file whose parent is watched changes nothing. Otherwise the directory, or the file's parent, is appended. Nothing else changes. |
| Watcher.Watcher.Watch | watcher.go:49-68 | Every path of the watch list is registered in order, and the watcher is then watching. |
| Watcher.Watcher.WatchEach | watcher.go:61-63 | Calling `watchDir` on each path in order gives exactly `RegisterAll` of the old list; nothing else changes. |
| Watcher.Watcher.HandleEvent | watcher.go:204-269 | An event is accepted iff events are not paused and its path is not excluded. A dropped event changes nothing. An accepted event arms the single slot. A created directory's kept subdirectories are registered. A settled watcher stays settled. |
| Watcher.Watcher.TimerFired | watcher.go:237-260 | If events are not paused, firing pauses them and invokes `onEvent` exactly once. If they are paused, firing only clears the slot. A settled watcher stays settled. |
| Watcher.Watcher.CallbackFinished | watcher.go:251-260 | When `onEvent` returns, events are unpaused, the slot is empty and no further call happens. |
| Watcher.Watcher.EndWatch | watcher.go:274-285 | The watcher stops watching unless closing fails; nothing else changes. |
| Watcher.NewWatcher | watcher.go:26-47 | Panics iff one of the walks panics. Otherwise the watch list is exactly the assembled list, and the new watcher is settled. |
| Watcher.DebounceCoalescesBurst | watcher.go:204-269 | A burst of any number of accepted events, followed by one firing, invokes `onEvent` exactly once. Events during the callback are dropped: whatever the file system reports for them, the watch list is unchanged. Afterwards nothing is pending. |
| Builder.Listen | builder.go:175-191 | Binding a non-zero port succeeds iff it is a valid port that can be bound, and then yields that port. |
| Builder.ListenerPort | builder.go:174-192 | The preferred port when it can be bound; otherwise the system-assigned port. Fails iff both binds fail. |
| Builder.ListenerPortAvoidsHeld | builder.go:174-192 | Negotiation never hands out a port that a running process holds: one that cannot be bound and that the system does not assign. |
| Builder.AppAddress | builder.go:77 | The address is `localhost:` followed by a non-empty run of decimal digits. |
| Builder.AddressRoundTrip | builder.go:77 | The port can be read back from the negotiated address `localhost:<port>`. |
| Builder.CompilerArgs | builder.go:48-50 | The compiler argv has four fixed words, then the build arguments in their original order. |
| Builder.CompilerArgsRoundTrip | builder.go:48-52 | The compiler is asked to build the project directory into the configured name, with the extra arguments in order. |
| Builder.DebuggerArgs | builder.go:124-132 | Seven `dlv` arguments starting with `attach` and `--listen=:`. The port and the pid fields consist of digits only, so the port field holds no further `:`. |
| Builder.AppCmd | builder.go:80-81 | The application runs as `path/name` with the address as its only argument, in the project directory, with the inherited environment. |
| Builder.DebuggerCmd | builder.go:140-143 | The debugger runs as `dlv` in the project directory with an empty environment, with seven arguments starting with `attach`, the fifth being the application's pid in decimal. |
| Builder.DebuggerArgsRoundTrip | builder.go:124-132 | The seven `dlv` arguments listen on the negotiated port and attach to the application's pid. |
| Builder.Builder.constructor | builder.go:21-25 | A new builder has no handles, no port and no live processes. |
| Builder.Builder.Kill | builder.go:28-34 | A handle with a process has its pid killed, and that process is no longer live; a handle without one changes nothing. |
| Builder.Builder.BuildBinary | builder.go:47-68 | The compiler argv is `build -C=<path> -o <name>` followed by the build arguments, and it asks for exactly that build. The result is the compiler's status. |
| Builder.Builder.RunBinary | builder.go:70-112 | An address is negotiated, preferring 8080, only when none is set, and is then kept. The application runs as `path/name <address>` in the project directory. Without a port nothing changes. |
| Builder.Builder.RunDebugger | builder.go:114-172 | A port is negotiated from the configured one only while none is kept. The debugger attaches to the application's pid. If the application has no process, nothing is launched. |
| Builder.Builder.Build | builder.go:27-45 | The application is killed, then the debugger, before compiling. A failed compile starts nothing and leaves no process alive. The outcome is characterised case by case. A first successful build sets the address to `localhost:` and the port `getListenerPort` gives for 8080 on the network at that moment, and the debugger port to the one it gives for the configured port on the network after the application started; a set address or port is kept. A newly negotiated debugger port is never the application's port when the application holds it. On success the app and debugger commands are built from them, and no process of an earlier cycle survives. |
| Builder.RebuildAfterFailure | builder.go:27-45 | Right after a failed rebuild no process is alive and the address is unchanged. The next successful one starts the application on the previously negotiated address. |
| Shell.NamesIdentifyCommands | shell.go:42-54 | Each command has its own registered name. |
| Shell.GetCommands | shell.go:42-54 | The registry's keys are exactly make, build, run, debug, dev, watch and unwatch, each mapped to the command of that name. |
| Shell.GetCommand | shell.go:56-58 | A command is returned iff the key is registered, and it is the command of that name. |
| Shell.HasCommand | shell.go:60-68 | The early-exit scan finds the key iff it is one of the seven names. |
| Shell.SplitCommand | shell.go:98-111 | `bin` is the text before the first space, or the whole input. There is one argument per space, and no argument contains a space. Joining `bin` and the arguments with spaces restores the input. |
| CmdShell.NamesIdentifyCommands | cmd/shell.go:32-38 | The single command is registered under a registered name. |
| CmdShell.GetCommands | cmd/shell.go:32-38 | The registry holds exactly `make`. |
| CmdShell.GetCommand | cmd/shell.go:40-42 | A command is returned iff the key is `make`. |
| CmdShell.HasCommand | cmd/shell.go:44-52 | The scan finds the key iff it is `make`. |
| CmdShell.SplitCommand | cmd/shell.go:82-95 | Same as the main shell: the program is the text before the first space, there is one argument per space, and the round trip holds. |

## Left out

- Real time and concurrency are not modelled: `time.AfterFunc`, `Reset`, the
  500 ms delay, the goroutines and the two mutexes of `watchLoop`
  (watcher.go:184-272). Each step of the state machine is one atomic action.
  So "events more than 500 ms apart give one callback each" is not stated.
- The fsnotify subscription is an oracle, and so are `os.Stat`,
  `os.ReadDir` and `filepath.WalkDir`. Two panics are not modelled:
  `fsnotify.NewWatcher` failing (watcher.go:53) and `fsWatcher.Add` failing
  (watcher.go:171).
- Watcher.Watcher.HandleEvent: the walk of a created directory is taken to
  reach its root, since `os.ReadDir` has just read it (watcher.go:218-221).
  A directory removed between the two calls would panic at watcher.go:295.
  The model does not cover that case.
- Watcher.Watcher.Settled: the invariant "paused exactly while a fired
  callback runs" holds only when each action completes before the next
  starts. In the source, an event that passed the pause check just before a
  firing paused events can re-arm the timer. `Watcher.Watcher.TimerFired`
  therefore keeps the branch where a firing finds events paused
  (watcher.go:246). `Valid` does not include `Settled`.
- Classifier.LastPrefixLen: Go's `len` counts bytes (watcher.go:107, 117),
  while the model counts characters. The comparison at watcher.go:121 is
  unaffected, because both lengths belong to prefixes of the same path, and
  for prefixes of one valid UTF-8 string the byte order and the character
  order agree. Paths that are not valid UTF-8 cannot be represented.
- `Watcher.ParentDir` models `filepath.Dir` without `Clean`. Paths with `//`,
  `.` or `..` segments are not normalised.
- Verbose logging in `watchDir` (watcher.go:175-181) and every message the
  core prints are left out.
- Events after `endWatch` are not modelled. In the source, the closed
  channels end the event loop. In the model, `HandleEvent` does not consult
  `isWatching`.
- Process control is not modelled: `exec.Command` start, the output pipes,
  `PrintReadCloser`, the 1 s sleeps (builder.go:86-111, 148-171), and the
  process-group kill in `KillPid`. A process is a pid, and killing it removes
  it from the live set.
- Builder.Builder.Build: the panics at builder.go:74 (no application port),
  builder.go:118 (no debugger port) and builder.go:129 (no application
  process) end the whole program in the source. The model reports them as the
  outcomes `NoAppAddress`, `NoDebugPort` and `AppNotRunning`, and its builder
  can be asked to build again.
- `waitForPortFree` (builder.go:194-213) is left out. It polls the network by
  wall clock, and its result is only reported.
- Builder.Builder.Build: the network after the application started is a
  second input, not derived from the first. The model does not itself record
  that the started application holds its port. It promises a distinct
  debugger port only when that second network shows the port as held.
- Builder.ListenerPort: the model does not state that the system-assigned
  port differs from a port that is already bound. The system chooses it, and
  the model takes it as given.
- Configuration loading (config/config.go) is not modelled: the TOML
  parsing, `os.ReadFile` and the default values. The configuration is a
  given value, and only the binary's exclusion (config/config.go:37) is
  modelled. The source returns the defaults before that line when no
  configuration file exists (config/config.go:26-30). In that case
  `Classifier.BuiltBinaryIgnored` does not apply.
- main.go, comands.go, cmd/comands.go, cmd/output.go and cmd/processes.go are
  not part of this model. They hold flag parsing, signal handling, command
  dispatch, the scaffold templates, colour formatting and the kill syscall.
- The interactive loops that read lines and dispatch them (shell.go:70-96,
  cmd/shell.go:54-80) are not modelled. They run external commands and print.
