# plugin-lua: a Dafny model of the plugin manager

This project models the bookkeeping of the `plugin-lua` host: a Rust program
that discovers Lua plugins on disk, gives each one its own Lua context with a
memory limit and a set of host-provided native functions grouped in namespace
tables, runs the lifecycle functions `init()`, `update()` and `destroy()` in
every plugin, and lets native handlers signal the host through a channel.

The Lua interpreter and the filesystem are opaque. They appear as inputs:

- a Lua context is a value (`Lua.LuaState`) holding its memory limit and its
  globals; native handlers are abstract ids (`Lua.HandlerId`);
- the interpreter's failures while a context is configured are given by the
  number of the first fallible call that fails (`failsAt`, call 0 being
  `set_memory_limit`);
- the outcome of running a Lua chunk in a plugin is a predicate `runs(id, chunk)`;
- the directory listing is an `Option<seq<DirEntry>>`; `Path::exists`,
  `read_to_string` and the top-level evaluation outcome are predicates on
  the entry-point path (`Manager.World`);
- `HashMap` iteration order is a parameter: any sequence that lists each
  key exactly once (`HashMaps.IsIterationOrder`);
- the `mpsc` channel is a first-in first-out queue (`Mpsc.Channel`), since
  all sends and receives happen on one thread.

Modules follow the source: `PathUtils` is `src/utils.rs`; `Lua`, `Registry`,
`Plugins` and `Manager` are `src/lib.rs` (the context abstraction, the
namespace registry and its installation, plugin id derivation, and the
`PluginManager` class); `Host` is `src/main.rs`; `Wrappers`, `HashMaps` and
`Mpsc` stand for `Option`, `HashMap` iteration and `std::sync::mpsc`.

`PluginManager` is a class whose `plugins` and `namespaces` fields are
updated in place by `Handle` and `ScanPlugins`. `ConfigureContext`,
`BuildTable`, `LoadEntry` and `ScanPlugins` keep the source's loops and
branches and are proved against pure specifications (`TableOf`,
`InstallTables`, `ConfigureSucceeds`, `Loaded`, `Store`). `CallPlugins` keeps
its loop too; its contract states the early exit directly in terms of the
`runs` outcomes. The host loop is a step function
`Host.Step` over the phase, the message queue and the log of Lua chunks run;
`Host.UpdateCycle` is one iteration of the loop with its `try_recv` drain,
proved equal to that step.

Two consequences of the code as written are proved:

- `safe_path` tests `cfg!(macos)` and `cfg!(linux)`, flags rustc does not set
  (it sets `target_os = "..."`), so on Linux and macOS the path is returned
  unchanged (`PathUtils.SafePathIdentityOffWindows`). The flags are a
  parameter of `SafePath`; `PathUtils.RustcCfg` gives the flags rustc sets.
- Installing the namespace `math` replaces Lua's own `math` library with a
  table holding only `add` (`Host.HostTablesReplaceMath`).

Two details of the code shape the model:

- lifecycle dispatch runs a Lua chunk such as `"init()"` in every plugin
  (src/lib.rs:147-164, src/main.rs:64-86); it does not look a function up by
  name, so the chunk is what the log of `Host.Step` records;
- `configure_context` sets the memory limit before it publishes any global
  (src/lib.rs:74-99), so a failing `set_memory_limit` leaves the context
  untouched (`Manager.PluginManager.ConfigureContext`).

## Model

| member | source | states |
|---|---|---|
| PathUtils.Separator | src/utils.rs:4-12 | the separator is one character: `\` exactly on Windows, `/` on Linux and macOS |
| PathUtils.ReplaceChar | src/utils.rs:18 | one-character `replace` keeps the length and turns each `from` into `to`, every other character unchanged and in place |
| PathUtils.SafePath | src/utils.rs:14-26 | length is preserved; characters other than `/` and `\` are unchanged; with only the `windows` flag no `/` remains; with `macos` or `linux` no `\` remains |
| PathUtils.SafePathOnWindows | src/utils.rs:17-19 | on Windows every `/` becomes `\`, nothing else changes, and no `/` is left |
| PathUtils.SafePathIdentityOffWindows | src/utils.rs:21-25 | with rustc's flags on Linux and macOS neither branch fires and the path is returned unchanged |
| PathUtils.SafePathUsesSeparator | src/utils.rs:4-19 | on Windows every path delimiter of a normalised path is the platform's separator |
| PathUtils.SafePathIdempotent | src/utils.rs:14-26 | normalising twice equals normalising once, for every combination of flags |
| Registry.TableOf | src/lib.rs:79-93 | the table a namespace's entries describe: each registration in order sets its function name to its handler (the properties are `TableOfKeys` and `TableOfLastWins`) |
| Registry.TableOfKeys | src/lib.rs:79-93 | a namespace table has exactly one field per registered function name |
| Registry.TableOfLastWins | src/lib.rs:81-92 | a name registered more than once resolves to the handler of its last entry |
| Registry.LatestRegistrationWins | src/lib.rs:81-92 | appending a registration makes its handler the table's field for that name and leaves the other fields as they were |
| Registry.InstallTables | src/lib.rs:78-96 | publishing one fresh table per namespace, in iteration order, removes no global of the interpreter |
| Registry.ConfigureSucceeds | src/lib.rs:74-99 | configuration succeeds exactly when no interpreter call up to the last `globals.set` fails; a failing `set_memory_limit` means failure, an interpreter that never fails means success |
| Registry.InstallTablesKeys | src/lib.rs:78-96 | installing adds a global for each namespace visited and removes none |
| Registry.InstallTablesPublishes | src/lib.rs:78-96 | each namespace visited holds a fresh table built from its entries, replacing rather than merging with any existing global of that name |
| Registry.InstallTablesKeepsOthers | src/lib.rs:78-96 | globals whose names are not namespaces keep their values |
| Plugins.Split | src/lib.rs:20 | splitting yields at least one piece, no piece contains the separator, and there are two or more pieces exactly when the separator occurs |
| Plugins.JoinSplit | src/lib.rs:20 | the pieces joined with the separator give back the path |
| Plugins.SplitJoin | src/lib.rs:20 | pieces without the separator are recovered by splitting their join |
| Plugins.SplitAround | src/lib.rs:20 | the pieces of `a + sep + b` are those of `a` followed by those of `b` |
| Plugins.PluginId | src/lib.rs:19-25 | the id is the component before the last one and contains no separator; a path without a separator is excluded, as it would panic at `unwrap` |
| Plugins.PluginIdIsFolderName | src/lib.rs:20-25 | for `folder + sep + file` with a separator-free file name, the id is the last component of `folder` |
| Plugins.NewPlugin | src/lib.rs:18-44 | a plugin is returned exactly when the script could be read, whatever its evaluation did; it carries the derived id and the context it was given |
| Manager.EntryPointPath | src/lib.rs:105-115 | the entry-point path contains the platform separator |
| Manager.Loaded | src/lib.rs:104-129 | what scanning stores for one entry; a stored plugin comes from a listed entry, has the manager's memory limit, and its id contains no separator |
| Manager.LoadConditions | src/lib.rs:104-129 | an entry yields a plugin exactly when it was listed without error, its entry point exists, its context was configured and its script was read |
| Manager.LoadedIdIsDirectoryName | src/lib.rs:105-126 | a loaded plugin's id is the last component of the normalised entry path |
| Manager.LoadedContextConfigured | src/lib.rs:120-123 | a loaded plugin's context has the manager's memory limit, one table per namespace in place of any same-named global, and the interpreter's other globals |
| Manager.Store | src/lib.rs:123-128 | inserting the loaded plugins in listing order, each under its id, never removes a key |
| Manager.StoreKeys | src/lib.rs:123-128 | scanning adds exactly the ids of the plugins loaded and never removes a key |
| Manager.StoreLastWins | src/lib.rs:123-128 | a later plugin with the same id overwrites an earlier one |
| Manager.StoreKeepsOthers | src/lib.rs:123-128 | a key no loaded plugin has keeps its previous plugin |
| Manager.StoreKeyedById | src/lib.rs:123-128 | every stored plugin sits under its own id |
| Manager.InstallCostGrows | src/lib.rs:78-96 | installing a prefix of the namespaces makes no more interpreter calls than installing all of them |
| Manager.BuildTable | src/lib.rs:79-95 | building one namespace succeeds exactly when none of its `create_table`, `create_function`, `set` and `globals.set` calls fails, and then yields the table its entries describe |
| Manager.PluginManager.constructor | src/lib.rs:64-71 | a new manager has the given limit and sender, no plugins and no namespaces |
| Manager.PluginManager.Handle | src/lib.rs:56-62 | the pair is appended as the last entry of its namespace (a one-element list if the namespace is new), with no uniqueness check; other namespaces and the plugins are unchanged |
| Manager.PluginManager.ConfigureContext | src/lib.rs:74-99 | succeeds exactly when no call fails; a `set_memory_limit` failure changes nothing; otherwise the limit is set and the namespaces visited before the failing call are fully published, a prefix of the iteration order |
| Manager.PluginManager.LoadEntry | src/lib.rs:105-126 | the plugin one directory entry yields is the one `Loaded` specifies: the entry point must exist, the context must be configured and the script must be read |
| Manager.PluginManager.ScanPlugins | src/lib.rs:101-145 | returns false and changes nothing exactly when the folder cannot be listed; otherwise returns true, stores every loadable entry's plugin under its id in listing order, adds exactly the loaded ids and removes no key |
| Manager.PluginManager.CallPlugins | src/lib.rs:147-164 | returns true exactly when the chunk runs without error in every plugin (true for none); stops at the first error, after which no plugin is run; changes no plugin |
| Mpsc.Channel.constructor | src/main.rs:53 | a new channel holds no message |
| Mpsc.Channel.Send | src/main.rs:28 | a sent message joins the back of the queue |
| Mpsc.Channel.TryRecv | src/main.rs:74 | receives the oldest message, or nothing when the queue is empty |
| Host.Setup | src/main.rs:52-58 | the host's manager has a 2 048 000-byte limit, no plugins, `math` holding `add`, and `sys` holding `exit` then `print` |
| Host.HostNamespaces | src/main.rs:16-50 | the host registers exactly the namespaces `math` and `sys` |
| Host.HostTablesReplaceMath | src/main.rs:16-50 | installing the host's registry replaces Lua's `math` library by a table holding only `add`, and `sys` holds `exit` and `print` |
| Host.SysExit | src/main.rs:27-31 | the handler enqueues exactly one `Exit(true)` |
| Host.FirstExit | src/main.rs:73-82 | locates the first `Exit(true)` in the queue, and finds none exactly when there is none |
| Host.UpdateCycle | src/main.rs:68-83 | a failed update ends the loop without draining; otherwise the loop ends exactly when an `Exit(true)` is received, leaving the messages behind it unread, and an empty queue continues the loop |
| Host.Drained | src/main.rs:73-82 | the queue left after a drain is a suffix of the queue; an `Exit(true)` in the queue means the drain consumed at least one message |
| Host.Step | src/main.rs:64-86 | one stage of the host: before `destroy()` has run each stage runs exactly one chunk and only extends the log; after it nothing changes |
| Host.Start | src/main.rs:52-64 | the host before `init()`: nothing run yet, and the queue holds whatever the plugins' top-level scripts sent during the scan |
| Host.InitResultIgnored | src/main.rs:61-68 | `init()` runs first and the loop is entered whether it succeeded or not, with the scan's messages still queued ahead of those `init()` sent |
| Host.EarlyExitEndsFirstCycle | src/main.rs:61-82 | an `Exit(true)` sent during the scan or by `init()` ends the loop at the first drain, after exactly one `update()` |
| Host.FailedUpdateSkipsDrain | src/main.rs:69-71 | a failed `update()` leaves the loop with the queue undrained |
| Host.DrainDecides | src/main.rs:73-82 | after a successful update the loop ends exactly when an `Exit(true)` is queued; the messages after the first one stay unread; with none queued, every message, `Exit(false)` included, is consumed |
| Host.DestroyAfterLoop | src/main.rs:85-86 | both ways out of the loop lead to one `destroy()` call |
| Host.StepWellFormed | src/main.rs:64-86 | each stage keeps the protocol's shape |
| Host.RunWellFormed | src/main.rs:52-87 | any run from the start calls `init()` once and first, then only `update()`, and `destroy()` at most once and last |
| Host.FinishedIsFinal | src/main.rs:85-87 | after `destroy()` nothing more happens |

## Left out

- The Lua interpreter: parsing and evaluating scripts, enforcing the memory limit, the internals of `create_table` and `create_function`, and `mlua::Value`. Handlers are ids; what a handler does when a script calls it is not modelled.
- Plugins.NewPlugin: the changes that evaluating the script makes to its context are not modelled; the plugin keeps the context it was given.
- Manager.PluginManager.CallPlugins: the changes a chunk makes to a plugin's context are not modelled; the outcome of each run is an input.
- The filesystem: `read_dir`, `Path::exists` and `read_to_string` are inputs.
- The panic of `expect` on a path that is not valid UTF-8 (src/lib.rs:108): paths are strings.
- `std::sync::mpsc` as a concurrency primitive: it is used on one thread and is modelled as a FIFO queue. The `unwrap` of `send` in the `sys.exit` handler cannot fail while the receiver lives and is not modelled.
- Host.SysExit: the `nil` the handler returns to the script is not modelled.
- The `math.add` handler (src/main.rs:19-24): floating-point arithmetic and `expect`/`unwrap` panics. Only its registration is modelled.
- The `sys.print` handler (src/main.rs:34-49): standard-output formatting. Only its registration is modelled.
- All `eprintln!` diagnostics.
- `HashMap` hashing: iteration order is an arbitrary duplicate-free enumeration of the keys.
- Non-termination: a plugin call that never returns and the possibly endless main loop. The loop is modelled one stage at a time (`Host.Step`) and over finite runs (`Host.Run`).
- The scan of `./plugins` in `main` (src/main.rs:61): its listing is an input to `ScanPlugins`, so the model has no fixed folder.
