/** The namespace registry of the plugin manager and its installation into a
    Lua context (src/lib.rs:52, 56-61, 74-99). */
module Registry {
  import opened Wrappers
  import opened Lua

  /** One registered native function: its name inside the namespace table
      and the handler it calls. */
  datatype Entry = Entry(func: string, handler: HandlerId)

  /** Namespace name to the entries registered under it, in registration order. */
  type Namespaces = map<string, seq<Entry>>

  /** No entry after the `i`-th one registers the same function name. */
  ghost predicate LastFor(entries: seq<Entry>, i: nat)
    requires i < |entries|
  {
    forall j :: i < j < |entries| ==> entries[j].func != entries[i].func
  }

  /** The table built from a namespace's entries by setting them one after
      another: it has one field per registered name, and a name registered
      more than once resolves to the handler of its last entry. */
  function TableOf(entries: seq<Entry>): (t: map<string, HandlerId>)
  {
    if entries == [] then map[]
    else
      var n := |entries| - 1;
      TableOf(entries[..n])[entries[n].func := entries[n].handler]
  }

  /** The table has one field per registered name, and nothing else. */
  lemma {:induction false} TableOfKeys(entries: seq<Entry>)
    ensures TableOf(entries).Keys == set i | 0 <= i < |entries| :: entries[i].func
  {
    if entries != [] {
      var n := |entries| - 1;
      TableOfKeys(entries[..n]);
      var before := set i | 0 <= i < n :: entries[..n][i].func;
      var after := set i | 0 <= i < |entries| :: entries[i].func;
      assert before == set i | 0 <= i < n :: entries[i].func;
      assert after == before + {entries[n].func} by {
        forall f | f in after ensures f in before + {entries[n].func} {
          var i :| 0 <= i < |entries| && entries[i].func == f;
          if i < n { assert entries[..n][i].func == f; }
        }
      }
    }
  }

  /** A name registered more than once resolves to the handler of its last
      entry: whatever was registered before under the same name is overwritten. */
  lemma {:induction false} TableOfLastWins(entries: seq<Entry>, i: nat)
    requires i < |entries| && LastFor(entries, i)
    ensures entries[i].func in TableOf(entries)
    ensures TableOf(entries)[entries[i].func] == entries[i].handler
  {
    var n := |entries| - 1;
    if i < n {
      assert entries[..n][i] == entries[i];
      assert LastFor(entries[..n], i) by {
        forall j | i < j < n ensures entries[..n][j].func != entries[..n][i].func {
          assert entries[..n][j] == entries[j];
        }
      }
      TableOfLastWins(entries[..n], i);
      assert entries[n].func != entries[i].func;
    }
  }

  /** A registration appended last is what the table exposes under its name;
      the other fields are those of the table without it. */
  lemma LatestRegistrationWins(entries: seq<Entry>, func: string, cb: HandlerId)
    ensures TableOf(entries + [Entry(func, cb)]) == TableOf(entries)[func := cb]
  {
    assert (entries + [Entry(func, cb)])[..|entries|] == entries;
  }

  /** The globals after publishing one fresh table per name of `names`, in
      that order. */
  function InstallTables(globals: map<string, Global>, names: seq<string>, ns: Namespaces): (g: map<string, Global>)
    requires forall n :: n in names ==> n in ns
    ensures globals.Keys <= g.Keys
  {
    if names == [] then globals
    else
      var m := |names| - 1;
      assert forall n :: n in names[..m] ==> n in names;
      InstallTables(globals, names[..m], ns)[names[m] := NamespaceTable(TableOf(ns[names[m]]))]
  }

  /** Installing adds a global for every name visited and removes none. */
  lemma {:induction false} InstallTablesKeys(globals: map<string, Global>, names: seq<string>, ns: Namespaces)
    requires forall n :: n in names ==> n in ns
    ensures InstallTables(globals, names, ns).Keys == globals.Keys + (set n | n in names)
  {
    if names != [] {
      var m := |names| - 1;
      assert forall n :: n in names[..m] ==> n in names;
      InstallTablesKeys(globals, names[..m], ns);
      assert (set n | n in names) == (set n | n in names[..m]) + {names[m]} by {
        assert names == names[..m] + [names[m]];
      }
    }
  }

  /** Every name visited holds a fresh table built from that namespace's
      entries: the table replaces, and does not merge with, any global the
      context had under that name. */
  lemma {:induction false} InstallTablesPublishes(globals: map<string, Global>, names: seq<string>, ns: Namespaces, n: string)
    requires forall n :: n in names ==> n in ns
    requires n in names
    ensures n in InstallTables(globals, names, ns)
    ensures InstallTables(globals, names, ns)[n] == NamespaceTable(TableOf(ns[n]))
  {
    var m := |names| - 1;
    if n != names[m] {
      assert names == names[..m] + [names[m]];
      assert forall n :: n in names[..m] ==> n in names;
      InstallTablesPublishes(globals, names[..m], ns, n);
    }
  }

  /** A global whose name is not visited keeps its value. */
  lemma {:induction false} InstallTablesKeepsOthers(globals: map<string, Global>, names: seq<string>, ns: Namespaces, k: string)
    requires forall n :: n in names ==> n in ns
    requires k in globals && k !in names
    ensures k in InstallTables(globals, names, ns)
    ensures InstallTables(globals, names, ns)[k] == globals[k]
  {
    if names != [] {
      var m := |names| - 1;
      assert forall n :: n in names[..m] ==> n in names;
      InstallTablesKeepsOthers(globals, names[..m], ns, k);
    }
  }

  /** Fallible interpreter calls made to install one namespace: `create_table`,
      then `create_function` and `set` per entry, then `globals.set`. */
  function TableCost(entries: seq<Entry>): nat
  {
    2 * |entries| + 2
  }

  /** Fallible calls made to install the namespaces `names`, in that order. */
  function InstallCost(ns: Namespaces, names: seq<string>): nat
    requires forall n :: n in names ==> n in ns
  {
    if names == [] then 0
    else
      var m := |names| - 1;
      assert forall n :: n in names[..m] ==> n in names;
      InstallCost(ns, names[..m]) + TableCost(ns[names[m]])
  }

  /** Whether configuring a context succeeds when the interpreter's first
      failing call is the `failsAt`-th one (counting `set_memory_limit` as
      call 0): it succeeds exactly when no call it makes fails. */
  predicate ConfigureSucceeds(ns: Namespaces, order: seq<string>, failsAt: Option<nat>)
    requires forall n :: n in order ==> n in ns
    ensures failsAt == Some(0) ==> !ConfigureSucceeds(ns, order, failsAt)
    ensures failsAt.None? ==> ConfigureSucceeds(ns, order, failsAt)
  {
    failsAt.None? || failsAt.value >= 1 + InstallCost(ns, order)
  }
}
