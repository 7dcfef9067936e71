/** The host program (src/main.rs): the control message, the `sys.exit`
    handler, and the init / update-and-drain / destroy protocol of `main`. */
module Host {
  import opened Wrappers
  import opened Mpsc
  import opened Lua
  import opened HashMaps
  import opened Registry
  import opened Manager

  /** A control signal sent by a native handler to the host loop. */
  datatype Message = Exit(stop: bool)

  /** The Lua text `main` runs in every plugin at each stage. */
  const InitChunk: string := "init()"
  const UpdateChunk: string := "update()"
  const DestroyChunk: string := "destroy()"

  /** The per-plugin memory limit `main` creates its manager with, in bytes. */
  const MemoryLimit: nat := 2_048_000

  /** Identities of the three native handlers `main` registers. */
  const MathAdd: HandlerId := 0
  const SysExitHandler: HandlerId := 1
  const SysPrint: HandlerId := 2

  /** Create the manager and register the host's native functions, as `main`
      does before scanning: `math.add`, then `sys.exit`, then `sys.print`. */
  method Setup(tx: Channel<Message>) returns (pm: PluginManager<Message>)
    ensures fresh(pm)
    ensures pm.memLimit == MemoryLimit && pm.tx == tx && pm.plugins == map[]
    ensures pm.namespaces == HostNamespaces()
  {
    pm := new PluginManager(MemoryLimit, tx);
    pm.Handle("math", "add", MathAdd);
    pm.Handle("sys", "exit", SysExitHandler);
    pm.Handle("sys", "print", SysPrint);
    assert pm.namespaces.Keys == {"math", "sys"};
    assert pm.namespaces["math"] == [Entry("add", MathAdd)];
    assert pm.namespaces["sys"] == [Entry("exit", SysExitHandler)] + [Entry("print", SysPrint)];
    forall k | k in pm.namespaces ensures pm.namespaces[k] == HostNamespaces()[k] {
      assert k == "math" || k == "sys";
    }
  }

  /** The registry `Setup` builds. */
  function HostNamespaces(): (ns: Namespaces)
    ensures ns.Keys == {"math", "sys"}
  {
    map["math" := [Entry("add", MathAdd)], "sys" := [Entry("exit", SysExitHandler), Entry("print", SysPrint)]]
  }

  /** Publishing the host's registry replaces the interpreter's own `math`
      library by a table holding only `add`, whatever the context had under
      that name, and gives `sys` both of its functions. */
  lemma HostTablesReplaceMath(globals: map<string, Global>, order: seq<string>)
    requires IsIterationOrder(order, HostNamespaces().Keys)
    ensures "math" in InstallTables(globals, order, HostNamespaces())
    ensures InstallTables(globals, order, HostNamespaces())["math"] == NamespaceTable(map["add" := MathAdd])
    ensures "sys" in InstallTables(globals, order, HostNamespaces())
    ensures InstallTables(globals, order, HostNamespaces())["sys"] == NamespaceTable(map["exit" := SysExitHandler, "print" := SysPrint])
  {
    var ns := HostNamespaces();
    InstallTablesPublishes(globals, order, ns, "math");
    InstallTablesPublishes(globals, order, ns, "sys");
    assert [Entry("add", MathAdd)][..0] == [];
    var sys := [Entry("exit", SysExitHandler), Entry("print", SysPrint)];
    assert sys[..1] == [Entry("exit", SysExitHandler)];
    assert sys[..1][..0] == [];
  }

  /** The `sys.exit` handler: sends exactly one `Exit(true)` on its sender
      (and returns `nil` to the script). */
  method SysExit(tx: Channel<Message>)
    modifies tx
    ensures tx.pending == old(tx.pending) + [Exit(true)]
  {
    tx.Send(Exit(true));
  }

  /** The position of the first `Exit(true)` in the queue, if there is one. */
  function FirstExit(q: seq<Message>): (r: Option<nat>)
    ensures r.None? <==> Exit(true) !in q
    ensures r.Some? ==> r.value < |q| && q[r.value] == Exit(true) && Exit(true) !in q[..r.value]
  {
    if q == [] then None
    else if q[0] == Exit(true) then Some(0)
    else
      match FirstExit(q[1..])
      case None => None
      case Some(i) =>
        assert q[..i + 1] == [q[0]] + q[1..][..i];
        Some(i + 1)
  }

  /** The queue a drain leaves: what follows the first `Exit(true)`, unread;
      nothing at all when there is no `Exit(true)`, since every `Exit(false)`
      is consumed and draining goes on until the queue is empty. */
  function Drained(q: seq<Message>): (rest: seq<Message>)
    ensures |rest| <= |q| && rest == q[|q| - |rest|..]
    ensures Exit(true) in q ==> |rest| < |q|
  {
    match FirstExit(q)
    case Some(i) => q[i + 1..]
    case None => []
  }

  /** Where `main` is: before `init()`, in the loop, before `destroy()`, done. */
  datatype Phase = Starting | Updating | Destroying | Finished

  /** The host's state: its phase, the messages waiting in the channel, and
      the Lua texts it has run in the plugins so far. */
  datatype HostState = HostState(phase: Phase, queue: seq<Message>, log: seq<string>)

  /** What one `call_plugins` did: its result and the messages its handlers sent. */
  datatype CallOutcome = CallOutcome(ok: bool, sent: seq<Message>)

  /** The host after `scan_plugins`, before `init()`: nothing has been run
      through `call_plugins` yet, and the queue holds whatever the plugins'
      top-level code sent while their scripts were evaluated during the scan
      (a top-level `sys.exit()` already queues `Exit(true)` there). */
  function Start(scanned: seq<Message>): (h: HostState)
    ensures h.phase == Starting && h.log == [] && h.queue == scanned
  {
    HostState(Starting, scanned, [])
  }

  /** One stage of `main`: run the phase's Lua text in the plugins, then act
      on the outcome.  The result of `init()` is ignored.  A failed `update()`
      leaves the loop without draining.  A successful one drains the queue:
      `Exit(true)` leaves the loop at once, `Exit(false)` is skipped, and an
      empty queue starts the next cycle.  After the loop `destroy()` runs. */
  function Step(h: HostState, o: CallOutcome): (next: HostState)
    ensures h.phase == Finished ==> next == h
    ensures h.phase != Finished ==> |next.log| == |h.log| + 1 && next.log[..|h.log|] == h.log
  {
    var q := h.queue + o.sent;
    match h.phase
    case Starting => HostState(Updating, q, h.log + [InitChunk])
    case Updating =>
      var log := h.log + [UpdateChunk];
      if !o.ok then HostState(Destroying, q, log)
      else if FirstExit(q).Some? then HostState(Destroying, Drained(q), log)
      else HostState(Updating, Drained(q), log)
    case Destroying => HostState(Finished, q, h.log + [DestroyChunk])
    case Finished => h
  }

  /** The host after a sequence of stages. */
  function Run(h: HostState, outcomes: seq<CallOutcome>): HostState
    decreases |outcomes|
  {
    if outcomes == [] then h else Run(Step(h, outcomes[0]), outcomes[1..])
  }

  /** Every entry of `log` from `lo` up to (not including) `hi` is `update()`. */
  ghost predicate UpdatesBetween(log: seq<string>, lo: nat, hi: nat)
    requires lo <= hi <= |log|
  {
    forall i :: lo <= i < hi ==> log[i] == UpdateChunk
  }

  /** The protocol's shape: `init()` once and first, then only `update()`,
      and once finished, `destroy()` exactly once and last. */
  ghost predicate WellFormed(h: HostState)
  {
    match h.phase
    case Starting => h.log == []
    case Updating => |h.log| >= 1 && h.log[0] == InitChunk && UpdatesBetween(h.log, 1, |h.log|)
    case Destroying => |h.log| >= 2 && h.log[0] == InitChunk && UpdatesBetween(h.log, 1, |h.log|)
    case Finished =>
      && |h.log| >= 3 && h.log[0] == InitChunk && UpdatesBetween(h.log, 1, |h.log| - 1)
      && h.log[|h.log| - 1] == DestroyChunk
  }

  lemma StepWellFormed(h: HostState, o: CallOutcome)
    requires WellFormed(h)
    ensures WellFormed(Step(h, o))
  {
  }

  /** Whatever the plugins do, a run of `main` from the start follows the
      protocol: `init()` once before any `update()`, `destroy()` at most once
      and only as the last call. */
  lemma {:induction false} RunWellFormed(h: HostState, outcomes: seq<CallOutcome>)
    requires WellFormed(h)
    ensures WellFormed(Run(h, outcomes))
    decreases |outcomes|
  {
    if outcomes != [] {
      StepWellFormed(h, outcomes[0]);
      RunWellFormed(Step(h, outcomes[0]), outcomes[1..]);
    }
  }

  /** Once `destroy()` has run, nothing more happens. */
  lemma {:induction false} FinishedIsFinal(h: HostState, outcomes: seq<CallOutcome>)
    requires h.phase == Finished
    ensures Run(h, outcomes) == h
    decreases |outcomes|
  {
    if outcomes != [] {
      FinishedIsFinal(h, outcomes[1..]);
    }
  }

  /** `init()` runs once, first, and its result does not matter: the loop is
      entered whether or not it succeeded. */
  lemma InitResultIgnored(scanned: seq<Message>, sent: seq<Message>, ok: bool)
    ensures Step(Start(scanned), CallOutcome(ok, sent)) == HostState(Updating, scanned + sent, [InitChunk])
  {
  }

  /** An `Exit(true)` queued during the scan or by `init()` is not read
      until the first successful `update()`, and then ends the loop. */
  lemma {:induction false} EarlyExitEndsFirstCycle(scanned: seq<Message>, o: CallOutcome, o': CallOutcome)
    requires Exit(true) in scanned + o.sent
    ensures Run(Start(scanned), [o, o']).phase == Destroying
    ensures Run(Start(scanned), [o, o']).log == [InitChunk, UpdateChunk]
  {
    var h1 := Step(Start(scanned), o);
    assert h1 == HostState(Updating, scanned + o.sent, [InitChunk]);
    var q := h1.queue + o'.sent;
    var i :| 0 <= i < |scanned + o.sent| && (scanned + o.sent)[i] == Exit(true);
    assert q[i] == Exit(true);
    assert Exit(true) in q;
    assert [o, o'][1..] == [o'];
    assert Run(Start(scanned), [o, o']) == Run(h1, [o']);
    assert Run(h1, [o']) == Step(h1, o');
  }

  /** A failed `update()` ends the loop at once; the queue is not drained. */
  lemma FailedUpdateSkipsDrain(h: HostState, sent: seq<Message>)
    requires h.phase == Updating
    ensures Step(h, CallOutcome(false, sent)) == HostState(Destroying, h.queue + sent, h.log + [UpdateChunk])
  {
  }

  /** After a successful `update()` the loop ends exactly when an
      `Exit(true)` is waiting; the messages behind it stay unread, and when
      none is waiting the whole queue, `Exit(false)` included, is consumed. */
  lemma {:induction false} DrainDecides(h: HostState, sent: seq<Message>)
    requires h.phase == Updating
    ensures var q := h.queue + sent;
      var next := Step(h, CallOutcome(true, sent));
      && (next.phase == Destroying <==> Exit(true) in q)
      && (next.phase == Updating <==> Exit(true) !in q)
      && (Exit(true) !in q ==> next.queue == [])
      && (Exit(true) in q ==> exists i :: 0 <= i < |q| && q[i] == Exit(true) && Exit(true) !in q[..i] && next.queue == q[i + 1..])
  {
    var q := h.queue + sent;
    match FirstExit(q)
    case None =>
    case Some(i) =>
  }

  /** Both ways out of the loop lead to `destroy()`, run once. */
  lemma DestroyAfterLoop(h: HostState, o: CallOutcome, o': CallOutcome)
    requires h.phase == Updating && Step(h, o).phase != Updating
    ensures Step(h, o).phase == Destroying
    ensures Step(Step(h, o), o').phase == Finished
    ensures Step(Step(h, o), o').log == h.log + [UpdateChunk, DestroyChunk]
  {
  }

  /** One cycle of the main loop, after `call_plugins("update()")` returned
      `updateOk`: leave the loop on failure, otherwise drain the channel with
      `try_recv` until it is empty or an `Exit(true)` arrives.  Returns
      whether the loop ends. */
  method UpdateCycle(rx: Channel<Message>, updateOk: bool) returns (stop: bool)
    modifies rx
    ensures var next := Step(HostState(Updating, old(rx.pending), []), CallOutcome(updateOk, []));
      && (stop <==> next.phase == Destroying)
      && rx.pending == next.queue
  {
    ghost var q := rx.pending;
    assert q + [] == q;
    if !updateOk {
      return true;
    }
    ghost var k := 0;
    while true
      invariant 0 <= k <= |q| && rx.pending == q[k..] && Exit(true) !in q[..k]
      decreases |rx.pending|
    {
      var m := rx.TryRecv();
      match m {
        case None =>
          assert q[..k] == q;
          return false;
        case Some(Exit(b)) =>
          if b {
            assert q[k] == Exit(true);
            assert FirstExit(q) == Some(k);
            return true;
          }
      }
      assert q[..k + 1] == q[..k] + [q[k]];
      k := k + 1;
    }
  }
}
