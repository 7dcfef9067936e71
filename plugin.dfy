/** A loaded plugin and how its id is derived from its entry-point path
    (src/lib.rs:10-45). */
module Plugins {
  import opened Wrappers
  import opened Lua

  /** One plugin: its id and the Lua context it exclusively owns. */
  datatype Plugin = Plugin(id: string, lua: LuaState)

  /** `str::split` with a one-character separator: the pieces between
      separators, including empty ones at either end. */
  function Split(s: string, sep: char): (parts: seq<string>)
    ensures |parts| >= 1
    ensures forall i :: 0 <= i < |parts| ==> sep !in parts[i]
    ensures sep in s <==> |parts| >= 2
  {
    if s == [] then [[]]
    else
      var rest := Split(s[1..], sep);
      if s[0] == sep then [[]] + rest
      else [[s[0]] + rest[0]] + rest[1..]
  }

  /** The pieces put back together with the separator between them. */
  function Join(parts: seq<string>, sep: char): string
    requires |parts| >= 1
  {
    if |parts| == 1 then parts[0] else parts[0] + [sep] + Join(parts[1..], sep)
  }

  /** Splitting loses nothing: the pieces join back to the input. */
  lemma {:induction false} JoinSplit(s: string, sep: char)
    ensures Join(Split(s, sep), sep) == s
  {
    if s != [] {
      JoinSplit(s[1..], sep);
      var rest := Split(s[1..], sep);
      if s[0] != sep {
        var parts := Split(s, sep);
        assert parts[1..] == rest[1..];
        if |rest| == 1 {
          assert Join(parts, sep) == [s[0]] + rest[0];
        } else {
          assert Join(parts, sep) == [s[0]] + rest[0] + [sep] + Join(rest[1..], sep);
        }
      }
    }
  }

  /** Pieces free of the separator are recovered by splitting their join. */
  lemma {:induction false} SplitJoin(parts: seq<string>, sep: char)
    requires |parts| >= 1
    requires forall i :: 0 <= i < |parts| ==> sep !in parts[i]
    ensures Split(Join(parts, sep), sep) == parts
  {
    if |parts| == 1 {
      SplitPiece(parts[0], sep);
    } else {
      SplitJoin(parts[1..], sep);
      SplitPrefix(parts[0], Join(parts[1..], sep), sep);
      assert Join(parts, sep) == parts[0] + [sep] + Join(parts[1..], sep);
    }
  }

  /** A string without the separator splits into itself. */
  lemma {:induction false} SplitPiece(s: string, sep: char)
    requires sep !in s
    ensures Split(s, sep) == [s]
  {
    if s != [] {
      SplitPiece(s[1..], sep);
      assert [s[0]] + s[1..] == s;
    }
  }

  /** Splitting `a + sep + b`, where `a` has no separator, yields `a` followed
      by the pieces of `b`. */
  lemma {:induction false} SplitPrefix(a: string, b: string, sep: char)
    requires sep !in a
    ensures Split(a + [sep] + b, sep) == [a] + Split(b, sep)
  {
    if a == [] {
      assert [] + [sep] + b == [sep] + b;
      assert ([sep] + b)[1..] == b;
    } else {
      SplitPrefix(a[1..], b, sep);
      assert (a + [sep] + b)[1..] == a[1..] + [sep] + b;
      assert [a[0]] + a[1..] == a;
    }
  }

  /** Joining two runs of pieces is joining each and putting a separator between. */
  lemma {:induction false} JoinAppend(p: seq<string>, q: seq<string>, sep: char)
    requires |p| >= 1 && |q| >= 1
    ensures Join(p + q, sep) == Join(p, sep) + [sep] + Join(q, sep)
  {
    if |p| > 1 {
      JoinAppend(p[1..], q, sep);
      assert (p + q)[1..] == p[1..] + q;
    } else {
      assert (p + q)[1..] == q;
    }
  }

  /** The pieces of `a + sep + b` are those of `a` followed by those of `b`. */
  lemma {:induction false} SplitAround(a: string, b: string, sep: char)
    ensures Split(a + [sep] + b, sep) == Split(a, sep) + Split(b, sep)
  {
    var pa, pb := Split(a, sep), Split(b, sep);
    JoinSplit(a, sep);
    JoinSplit(b, sep);
    JoinAppend(pa, pb, sep);
    assert Join(pa + pb, sep) == a + [sep] + b;
    forall i | 0 <= i < |pa + pb| ensures sep !in (pa + pb)[i] {
      if i < |pa| { assert (pa + pb)[i] == pa[i]; } else { assert (pa + pb)[i] == pb[i - |pa|]; }
    }
    SplitJoin(pa + pb, sep);
  }

  /** The plugin id: the path component just before the last one (the entry
      point).  A path without a separator would panic at `unwrap`. */
  function PluginId(path: string, sep: char): (id: string)
    requires sep in path
    ensures sep !in id
  {
    var parts := Split(path, sep);
    parts[|parts| - 2]
  }

  /** For an entry-point path built as folder + separator + file name, where
      the file name has no separator, the id is the folder's last component. */
  lemma {:induction false} PluginIdIsFolderName(folder: string, entrypoint: string, sep: char)
    requires sep !in entrypoint
    ensures sep in folder + [sep] + entrypoint
    ensures var parts := Split(folder, sep);
      PluginId(folder + [sep] + entrypoint, sep) == parts[|parts| - 1]
  {
    assert (folder + [sep] + entrypoint)[|folder|] == sep;
    SplitAround(folder, entrypoint, sep);
    SplitPiece(entrypoint, sep);
  }

  /** `Plugin::new`: the plugin exists exactly when its script could be read.
      The outcome of evaluating the script's top level is discarded: the
      plugin is returned whether or not evaluation succeeded. */
  function NewPlugin(lua: LuaState, path: string, sep: char, readOk: bool, evalOk: bool): (r: Option<Plugin>)
    requires sep in path
    ensures r.Some? <==> readOk
    ensures r.Some? ==> r.value.id == PluginId(path, sep) && r.value.lua == lua
  {
    if readOk then Some(Plugin(PluginId(path, sep), lua)) else None
  }
}
