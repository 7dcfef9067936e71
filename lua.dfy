/** The Lua interpreter as the plugin manager sees it.

    Script parsing and evaluation are not modelled; a context is reduced to
    the two things the manager sets on it: the memory limit and the global
    variables.  Native handlers are abstract identities. */
module Lua {
  import opened Wrappers

  /** Identity of a native handler `fn(Sender<T>, Variadic<Value>) -> Value`. */
  type HandlerId = nat

  /** A global variable of a context: a namespace table the manager built,
      mapping function names to the handler they call, or anything the
      interpreter defined itself (such as its standard `math` library). */
  datatype Global =
    | NamespaceTable(fields: map<string, HandlerId>)
    | Builtin(tag: nat)

  /** One Lua context: its allocation ceiling (if one was set) and its globals. */
  datatype LuaState = LuaState(memoryLimit: Option<nat>, globals: map<string, Global>)

  /** `Lua::new()`: a context with the interpreter's own globals and no limit. */
  function NewLua(standardGlobals: map<string, Global>): LuaState
  {
    LuaState(None, standardGlobals)
  }
}

/** Iteration over a `HashMap`: its order is unspecified, so it is a
    parameter, constrained only to enumerate each key exactly once. */
module HashMaps {

  ghost predicate IsIterationOrder<K(!new)>(order: seq<K>, keys: set<K>)
  {
    && (forall k :: k in order <==> k in keys)
    && (forall i, j :: 0 <= i < j < |order| ==> order[i] != order[j])
  }
}
