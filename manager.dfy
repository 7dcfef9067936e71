/** The plugin manager (src/lib.rs:48-165): the namespace registry, discovery
    of plugins on disk and lifecycle dispatch. */
module Manager {
  import opened Wrappers
  import opened Lua
  import opened HashMaps
  import opened Registry
  import opened Plugins
  import opened PathUtils
  import opened Mpsc

  /** One item of `fs::read_dir`: an entry whose path could be read, or one
      that reported an I/O error. */
  datatype DirEntry = Unreadable | Found(path: string)

  /** The outside world scanning consults, keyed by entry-point path:
      whether the path exists, whether its script can be read, the first
      interpreter call that fails while its context is configured, and whether
      its top level evaluates without error. */
  datatype World = World(
    platform: Platform,
    cfg: CfgFlags,
    pathExists: string -> bool,
    readable: string -> bool,
    luaFailsAt: string -> Option<nat>,
    evalOk: string -> bool,
    standardGlobals: map<string, Global>)

  /** Everything a scan depends on besides the plugins found so far. */
  datatype ScanSetup = ScanSetup(
    entrypoint: string,
    memLimit: nat,
    namespaces: Namespaces,
    nsOrder: seq<string>,
    world: World)
  {
    ghost predicate Valid()
    {
      IsIterationOrder(nsOrder, namespaces.Keys)
    }
  }

  /** The entry-point path scanning computes for a directory entry. */
  function EntryPointPath(path: string, entrypoint: string, w: World): (ep: string)
    ensures Separator(w.platform)[0] in ep
  {
    var ep := SafePath(path, w.cfg) + Separator(w.platform) + entrypoint;
    assert ep[|SafePath(path, w.cfg)|] == Separator(w.platform)[0];
    ep
  }

  /** The plugin scanning stores for one directory entry, if any: the entry
      must be readable, its entry point must exist, its context must be
      configured without error and its script must be readable. */
  function Loaded(e: DirEntry, s: ScanSetup): (r: Option<Plugin>)
    requires s.Valid()
    ensures r.Some? ==> e.Found? && r.value.lua.memoryLimit == Some(s.memLimit)
    ensures r.Some? ==> Separator(s.world.platform)[0] !in r.value.id
  {
    match e
    case Unreadable => None
    case Found(path) =>
      var w := s.world;
      var ep := EntryPointPath(path, s.entrypoint, w);
      if !w.pathExists(ep) || !ConfigureSucceeds(s.namespaces, s.nsOrder, w.luaFailsAt(ep)) then None
      else
        var lua := LuaState(Some(s.memLimit), InstallTables(w.standardGlobals, s.nsOrder, s.namespaces));
        NewPlugin(lua, ep, Separator(w.platform)[0], w.readable(ep), w.evalOk(ep))
  }

  /** An entry yields a plugin exactly when it was listed without error, its
      entry-point path exists, its context was configured without error and
      its script was read; the outcome of evaluating the script plays no part. */
  lemma LoadConditions(e: DirEntry, s: ScanSetup)
    requires s.Valid()
    ensures Loaded(e, s).Some? <==>
      && e.Found?
      && var ep := EntryPointPath(e.path, s.entrypoint, s.world);
      && s.world.pathExists(ep)
      && ConfigureSucceeds(s.namespaces, s.nsOrder, s.world.luaFailsAt(ep))
      && s.world.readable(ep)
  {
  }

  /** What scanning loads from each entry of the listing, in listing order. */
  function LoadAll(entries: seq<DirEntry>, s: ScanSetup): (loaded: seq<Option<Plugin>>)
    requires s.Valid()
  {
    seq(|entries|, i requires 0 <= i < |entries| => Loaded(entries[i], s))
  }

  /** The plugins after inserting the loaded ones in order, each under its id
      (`HashMap::insert`, which replaces an existing value). */
  function Store(plugins: map<string, Plugin>, loaded: seq<Option<Plugin>>): (r: map<string, Plugin>)
    ensures plugins.Keys <= r.Keys
  {
    if loaded == [] then plugins
    else
      var n := |loaded| - 1;
      var before := Store(plugins, loaded[..n]);
      match loaded[n]
      case None => before
      case Some(p) => before[p.id := p]
  }

  /** The ids of the plugins among `loaded`. */
  ghost function LoadedIds(loaded: seq<Option<Plugin>>): set<string>
  {
    set i | 0 <= i < |loaded| && loaded[i].Some? :: loaded[i].value.id
  }

  /** Storing inserts exactly the ids of the plugins loaded and never removes
      a key. */
  lemma {:induction false} StoreKeys(plugins: map<string, Plugin>, loaded: seq<Option<Plugin>>)
    ensures Store(plugins, loaded).Keys == plugins.Keys + LoadedIds(loaded)
  {
    if loaded != [] {
      var n := |loaded| - 1;
      var prefix := loaded[..n];
      StoreKeys(plugins, prefix);
      assert forall i :: 0 <= i < n ==> prefix[i] == loaded[i];
      var extra := if loaded[n].Some? then {loaded[n].value.id} else {};
      assert LoadedIds(loaded) == LoadedIds(prefix) + extra by {
        forall id | id in LoadedIds(loaded) ensures id in LoadedIds(prefix) + extra {
          var i :| 0 <= i < |loaded| && loaded[i].Some? && loaded[i].value.id == id;
          if i < n { assert prefix[i] == loaded[i]; }
        }
      }
    }
  }

  /** No plugin after the `i`-th one has the same id. */
  ghost predicate LastWithId(loaded: seq<Option<Plugin>>, i: nat)
    requires i < |loaded| && loaded[i].Some?
  {
    forall j :: i < j < |loaded| && loaded[j].Some? ==> loaded[j].value.id != loaded[i].value.id
  }

  /** A later plugin with the same id overwrites an earlier one: the plugin
      stored under an id is the last one loaded with that id. */
  lemma {:induction false} StoreLastWins(plugins: map<string, Plugin>, loaded: seq<Option<Plugin>>, i: nat)
    requires i < |loaded| && loaded[i].Some? && LastWithId(loaded, i)
    ensures loaded[i].value.id in Store(plugins, loaded)
    ensures Store(plugins, loaded)[loaded[i].value.id] == loaded[i].value
  {
    var n := |loaded| - 1;
    if i < n {
      var prefix := loaded[..n];
      assert prefix[i] == loaded[i];
      assert LastWithId(prefix, i) by {
        forall j | i < j < n && prefix[j].Some?
          ensures prefix[j].value.id != prefix[i].value.id
        {
          assert prefix[j] == loaded[j];
        }
      }
      StoreLastWins(plugins, prefix, i);
    }
  }

  /** A key no loaded plugin has keeps the plugin it had before. */
  lemma {:induction false} StoreKeepsOthers(plugins: map<string, Plugin>, loaded: seq<Option<Plugin>>, id: string)
    requires id in plugins && id !in LoadedIds(loaded)
    ensures id in Store(plugins, loaded) && Store(plugins, loaded)[id] == plugins[id]
  {
    if loaded != [] {
      var n := |loaded| - 1;
      var prefix := loaded[..n];
      forall i | 0 <= i < n && prefix[i].Some? ensures prefix[i].value.id != id {
        assert prefix[i] == loaded[i];
      }
      StoreKeepsOthers(plugins, prefix, id);
      assert loaded[n].Some? ==> loaded[n].value.id in LoadedIds(loaded);
    }
  }

  /** Every stored plugin sits under its own id, before and after storing. */
  lemma {:induction false} StoreKeyedById(plugins: map<string, Plugin>, loaded: seq<Option<Plugin>>)
    requires forall k :: k in plugins ==> plugins[k].id == k
    ensures forall k :: k in Store(plugins, loaded) ==> Store(plugins, loaded)[k].id == k
  {
    if loaded != [] {
      StoreKeyedById(plugins, loaded[..|loaded| - 1]);
    }
  }

  /** A loaded plugin is named after its directory: when the entry-point file
      name has no separator, its id is the last component of the normalised
      entry path. */
  lemma LoadedIdIsDirectoryName(path: string, s: ScanSetup)
    requires s.Valid() && Loaded(Found(path), s).Some?
    requires Separator(s.world.platform)[0] !in s.entrypoint
    ensures var parts := Split(SafePath(path, s.world.cfg), Separator(s.world.platform)[0]);
      Loaded(Found(path), s).value.id == parts[|parts| - 1]
  {
    var sep := Separator(s.world.platform);
    assert sep == [sep[0]];
    PluginIdIsFolderName(SafePath(path, s.world.cfg), s.entrypoint, sep[0]);
  }

  /** A loaded plugin's context has the manager's memory limit and one fresh
      table per registered namespace, published under the namespace's name in
      place of any global of that name the interpreter defined. */
  lemma LoadedContextConfigured(e: DirEntry, s: ScanSetup)
    requires s.Valid() && Loaded(e, s).Some?
    ensures Loaded(e, s).value.lua.memoryLimit == Some(s.memLimit)
    ensures forall n :: n in s.namespaces ==>
      n in Loaded(e, s).value.lua.globals && Loaded(e, s).value.lua.globals[n] == NamespaceTable(TableOf(s.namespaces[n]))
    ensures forall k :: k in s.world.standardGlobals && k !in s.namespaces ==>
      k in Loaded(e, s).value.lua.globals && Loaded(e, s).value.lua.globals[k] == s.world.standardGlobals[k]
  {
    var g := s.world.standardGlobals;
    forall n | n in s.namespaces
      ensures n in Loaded(e, s).value.lua.globals && Loaded(e, s).value.lua.globals[n] == NamespaceTable(TableOf(s.namespaces[n]))
    {
      InstallTablesPublishes(g, s.nsOrder, s.namespaces, n);
    }
    forall k | k in g && k !in s.namespaces
      ensures k in Loaded(e, s).value.lua.globals && Loaded(e, s).value.lua.globals[k] == g[k]
    {
      InstallTablesKeepsOthers(g, s.nsOrder, s.namespaces, k);
    }
  }

  /** Installing a prefix of the namespaces makes no more calls than
      installing all of them. */
  lemma {:induction false} InstallCostGrows(ns: Namespaces, names: seq<string>, k: nat)
    requires forall n :: n in names ==> n in ns
    requires k <= |names|
    ensures forall n :: n in names[..k] ==> n in ns
    ensures InstallCost(ns, names[..k]) <= InstallCost(ns, names)
  {
    assert forall n :: n in names[..k] ==> n in names;
    if k < |names| {
      var m := |names| - 1;
      assert names[..m][..k] == names[..k];
      assert forall n :: n in names[..m] ==> n in names;
      InstallCostGrows(ns, names[..m], k);
    } else {
      assert names[..k] == names;
    }
  }

  /** Build and publish the table of one namespace (the body of the loop in
      `configure_context`), starting at fallible call number `start`:
      `create_table`, then `create_function` and `set` for each entry, then
      `globals.set`.  Succeeds exactly when none of those calls is the failing
      one, and then the table is the one the entries describe. */
  method BuildTable(cbs: seq<Entry>, start: nat, failsAt: Option<nat>) returns (table: map<string, HandlerId>, ok: bool)
    requires failsAt.None? || failsAt.value >= start
    ensures ok <==> failsAt.None? || failsAt.value >= start + TableCost(cbs)
    ensures ok ==> table == TableOf(cbs)
  {
    if failsAt == Some(start) {
      return map[], false;
    }
    var step := start + 1;
    table := map[];
    var j := 0;
    while j < |cbs|
      invariant 0 <= j <= |cbs|
      invariant step == start + 1 + 2 * j
      invariant failsAt.None? || failsAt.value >= step
      invariant table == TableOf(cbs[..j])
    {
      assert cbs[..j + 1][..j] == cbs[..j];
      if failsAt == Some(step) || failsAt == Some(step + 1) {
        return table, false;
      }
      table := table[cbs[j].func := cbs[j].handler];
      step := step + 2;
      j := j + 1;
    }
    assert cbs[..j] == cbs;
    ok := failsAt != Some(step);
  }

  class PluginManager<T> {
    const memLimit: nat
    var plugins: map<string, Plugin>
    const tx: Channel<T>
    var namespaces: Namespaces

    constructor (memLimit: nat, tx: Channel<T>)
      ensures this.memLimit == memLimit && this.tx == tx
      ensures plugins == map[] && namespaces == map[]
    {
      this.memLimit := memLimit;
      this.tx := tx;
      plugins := map[];
      namespaces := map[];
    }

    /** Register `cb` as `namespace.func`.  The pair is appended to the
        namespace's list (created if absent); there is no uniqueness check,
        so the list grows by exactly one entry per call. */
    method Handle(namespace: string, func: string, cb: HandlerId)
      modifies this
      ensures namespaces.Keys == old(namespaces).Keys + {namespace}
      ensures namespace in old(namespaces) ==> namespaces[namespace] == old(namespaces)[namespace] + [Entry(func, cb)]
      ensures namespace !in old(namespaces) ==> namespaces[namespace] == [Entry(func, cb)]
      ensures forall n :: n in old(namespaces) && n != namespace ==> namespaces[n] == old(namespaces)[n]
      ensures plugins == old(plugins)
    {
      if namespace in namespaces {
        namespaces := namespaces[namespace := namespaces[namespace] + [Entry(func, cb)]];
      } else {
        namespaces := namespaces[namespace := [Entry(func, cb)]];
      }
    }

    /** Configure a fresh context: set the memory limit, then build and
        publish one table per namespace, visiting them in `order`.  The
        interpreter's first failing call is the `failsAt`-th one (call 0 is
        `set_memory_limit`); configuration returns at the first failure, so
        the namespaces visited before it stay installed.  `installed` counts
        the namespaces fully published. */
    method ConfigureContext(lua: LuaState, order: seq<string>, failsAt: Option<nat>)
      returns (configured: LuaState, ok: bool, ghost installed: nat)
      requires IsIterationOrder(order, namespaces.Keys)
      ensures ok <==> ConfigureSucceeds(namespaces, order, failsAt)
      ensures failsAt == Some(0) ==> configured == lua
      ensures failsAt != Some(0) ==> configured.memoryLimit == Some(memLimit)
      ensures installed <= |order|
      ensures failsAt != Some(0) ==> configured.globals == InstallTables(lua.globals, order[..installed], namespaces)
      ensures ok ==> installed == |order|
      ensures !ok && failsAt != Some(0) ==>
        && installed < |order|
        && 1 + InstallCost(namespaces, order[..installed]) <= failsAt.value < 1 + InstallCost(namespaces, order[..installed + 1])
    {
      installed := 0;
      if failsAt == Some(0) {
        return lua, false, installed;
      }
      configured := lua.(memoryLimit := Some(memLimit));
      var step := 1;
      var i := 0;
      while i < |order|
        invariant 0 <= i <= |order|
        invariant installed == i
        invariant step == 1 + InstallCost(namespaces, order[..i])
        invariant failsAt.None? || failsAt.value >= step
        invariant configured == LuaState(Some(memLimit), InstallTables(lua.globals, order[..i], namespaces))
      {
        var name := order[i];
        assert order[..i + 1][..i] == order[..i];
        assert order[..i + 1] == order[..i] + [name];
        var table, tableOk := BuildTable(namespaces[name], step, failsAt);
        if !tableOk {
          InstallCostGrows(namespaces, order, i + 1);
          return configured, false, installed;
        }
        step := step + TableCost(namespaces[name]);
        configured := configured.(globals := configured.globals[name := NamespaceTable(table)]);
        i := i + 1;
        installed := i;
      }
      assert order[..i] == order;
      ok := true;
    }

    /** Load one entry of the plugin folder: build its entry-point path,
        and if that path exists configure a fresh context and read the script
        into it. */
    method LoadEntry(e: DirEntry, entrypoint: string, nsOrder: seq<string>, w: World)
      returns (plugin: Option<Plugin>)
      requires IsIterationOrder(nsOrder, namespaces.Keys)
      ensures plugin == Loaded(e, ScanSetup(entrypoint, memLimit, namespaces, nsOrder, w))
    {
      plugin := None;
      match e {
        case Unreadable =>
        case Found(path) =>
          var npath := SafePath(path, w.cfg);
          var ep := npath + Separator(w.platform) + entrypoint;
          assert ep == EntryPointPath(path, entrypoint, w);
          if w.pathExists(ep) {
            var lua := NewLua(w.standardGlobals);
            var configured, configuredOk, _ := ConfigureContext(lua, nsOrder, w.luaFailsAt(ep));
            assert nsOrder[..|nsOrder|] == nsOrder;
            if configuredOk {
              plugin := NewPlugin(configured, ep, Separator(w.platform)[0], w.readable(ep), w.evalOk(ep));
            }
          }
      }
    }

    /** Scan the listing of the plugin folder.  Returns false, changing
        nothing, when the folder cannot be listed; otherwise loads every entry
        that can be loaded, inserting it under its id, and returns true
        whatever the individual entries did. */
    method ScanPlugins(entrypoint: string, listing: Option<seq<DirEntry>>, nsOrder: seq<string>, w: World)
      returns (ok: bool)
      requires IsIterationOrder(nsOrder, namespaces.Keys)
      modifies this
      ensures ok <==> listing.Some?
      ensures namespaces == old(namespaces)
      ensures listing.None? ==> plugins == old(plugins)
      ensures listing.Some? ==>
        plugins == Store(old(plugins), LoadAll(listing.value, ScanSetup(entrypoint, memLimit, namespaces, nsOrder, w)))
      ensures listing.Some? ==>
        plugins.Keys == old(plugins).Keys + LoadedIds(LoadAll(listing.value, ScanSetup(entrypoint, memLimit, namespaces, nsOrder, w)))
    {
      if listing.None? {
        return false;
      }
      var entries := listing.value;
      ghost var setup := ScanSetup(entrypoint, memLimit, namespaces, nsOrder, w);
      var i := 0;
      while i < |entries|
        invariant 0 <= i <= |entries|
        invariant namespaces == old(namespaces)
        invariant plugins == Store(old(plugins), LoadAll(entries[..i], setup))
      {
        ghost var loaded := LoadAll(entries[..i + 1], setup);
        assert loaded[..i] == LoadAll(entries[..i], setup);
        assert loaded[i] == Loaded(entries[i], setup);
        var plugin := LoadEntry(entries[i], entrypoint, nsOrder, w);
        if plugin.Some? {
          plugins := plugins[plugin.value.id := plugin.value];
        }
        i := i + 1;
      }
      assert entries[..i] == entries;
      StoreKeys(old(plugins), LoadAll(entries, setup));
      ok := true;
    }

    /** Run the Lua text `chunk` in every plugin, in iteration order `order`;
        `runs(id, chunk)` is whether running it in the plugin stored under
        `id` raises no error.  Stops at the first error: `called` plugins were
        run, all but the last of them succeeded, and the result is true
        exactly when every plugin succeeded. */
    method CallPlugins(chunk: string, order: seq<string>, runs: (string, string) -> bool)
      returns (ok: bool, called: nat)
      requires IsIterationOrder(order, plugins.Keys)
      ensures ok <==> forall i :: 0 <= i < |order| ==> runs(order[i], chunk)
      ensures called <= |order|
      ensures ok ==> called == |order|
      ensures !ok ==> called >= 1 && !runs(order[called - 1], chunk)
      ensures forall j :: 0 <= j < called - 1 ==> runs(order[j], chunk)
    {
      called := 0;
      while called < |order|
        invariant 0 <= called <= |order|
        invariant forall j :: 0 <= j < called ==> runs(order[j], chunk)
      {
        var id := order[called];
        called := called + 1;
        if !runs(id, chunk) {
          return false, called;
        }
      }
      ok := true;
    }
  }
}
