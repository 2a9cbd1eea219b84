/**
 * The effect and cleanup bookkeeping of a reactive component: the tools a
 * component's creator receives (`cleanup`, `ui`, `watch`, `reactive`), the
 * ordered `_cleanups` list they append to, the two-state watch machine, and
 * the component's props.
 *
 * User code is opaque: the functions a component hands over (cleanups,
 * effect `run` functions, rendered nodes' disposers) are identified by
 * numbers, what an effect returns is a parameter of the step that runs it,
 * and every call into user code is recorded, in order, in a shared `Log`.
 */
module Define {
  import opened Wrappers
  import OrderedSet
  import Reactives

  /** The identity of a function from user code: a cleanup or a rendered node's disposer. */
  type FnId = nat

  /** A rendered node from the rendering layer: its element and the function that removes it. */
  datatype RenderedNode = RenderedNode(element: nat, cleanup: FnId)

  /** An entry of `_cleanups`: a function from user code, or the disposer a `watch` call made. */
  datatype CleanupFn = UserFn(id: FnId) | WatchDisposer(registration: Registration)

  /** The arguments an effect run receives: the sources' current values. */
  type Args = seq<Reactives.Value>

  /** A call into user code: an effect run with its arguments, or a cleanup. */
  datatype Event<A> = Run(run: nat, args: A) | Cleanup(fn: FnId)

  /** The calls into user code so far, in the order they were made. */
  class Log {
    var events: seq<Event<Args>>

    constructor ()
      ensures events == []
    {
      events := [];
    }
  }

  /** One firing of a watch callback: the held cleanup if there is one, then the effect. */
  function FireEvents<A>(run: nat, held: Option<FnId>, args: A): seq<Event<A>>
  {
    (if held.Some? then [Cleanup(held.value)] else []) + [Run(run, args)]
  }

  /** What the disposer calls after unsubscribing: the held cleanup if there is one. */
  function DisposeEvents<A>(held: Option<FnId>): seq<Event<A>>
  {
    if held.Some? then [Cleanup(held.value)] else []
  }

  /**
   * The calls a watch has made after its callback fired `|args|` times,
   * firing `i` seeing the values `args[i]` and its effect returning
   * `rets[i]` (`None` for a falsy result). The first firing is the one at
   * registration, when no cleanup is held.
   */
  function History<A>(run: nat, args: seq<A>, rets: seq<Option<FnId>>): seq<Event<A>>
    requires |args| == |rets|
    decreases |args|
  {
    if args == [] then []
    else
      var n := |args| - 1;
      History(run, args[..n], rets[..n]) + FireEvents(run, if n == 0 then None else rets[n - 1], args[n])
  }

  /** One more firing appends its calls to the history. */
  lemma HistoryStep<A>(run: nat, args: seq<A>, rets: seq<Option<FnId>>, a: A, r: Option<FnId>)
    requires |args| == |rets|
    ensures History(run, args + [a], rets + [r])
            == History(run, args, rets) + FireEvents(run, if rets == [] then None else rets[|rets| - 1], a)
  {
  }

  /** The arguments of the effect runs among `es`, in order. */
  function RunArgs<A>(es: seq<Event<A>>): seq<A>
  {
    if es == [] then []
    else RunArgs(es[..|es| - 1]) + (if es[|es| - 1].Run? then [es[|es| - 1].args] else [])
  }

  /** The cleanups called among `es`, in order. */
  function CleanupCalls<A>(es: seq<Event<A>>): seq<FnId>
  {
    if es == [] then []
    else CleanupCalls(es[..|es| - 1]) + (if es[|es| - 1].Cleanup? then [es[|es| - 1].fn] else [])
  }

  /** The cleanups among a run's results, in order. */
  function Returned(rets: seq<Option<FnId>>): seq<FnId>
  {
    if rets == [] then []
    else Returned(rets[..|rets| - 1]) + (if rets[|rets| - 1].Some? then [rets[|rets| - 1].value] else [])
  }

  lemma {:induction false} RunArgsAppend<A>(a: seq<Event<A>>, b: seq<Event<A>>)
    ensures RunArgs(a + b) == RunArgs(a) + RunArgs(b)
    decreases |b|
  {
    if b == [] {
      assert a + b == a;
    } else {
      var n := |b| - 1;
      assert (a + b)[..|a + b| - 1] == a + b[..n];
      RunArgsAppend(a, b[..n]);
    }
  }

  lemma {:induction false} CleanupCallsAppend<A>(a: seq<Event<A>>, b: seq<Event<A>>)
    ensures CleanupCalls(a + b) == CleanupCalls(a) + CleanupCalls(b)
    decreases |b|
  {
    if b == [] {
      assert a + b == a;
    } else {
      var n := |b| - 1;
      assert (a + b)[..|a + b| - 1] == a + b[..n];
      CleanupCallsAppend(a, b[..n]);
    }
  }

  /** The effect runs of one firing: exactly one, with the values it saw. */
  lemma RunArgsFire<A>(run: nat, held: Option<FnId>, a: A)
    ensures RunArgs(FireEvents(run, held, a)) == [a]
  {
    var es := FireEvents(run, held, a);
    assert es[..|es| - 1] == DisposeEvents(held);
    if held.Some? {
      var d: seq<Event<A>> := [Cleanup(held.value)];
      assert d[..|d| - 1] == [];
      assert RunArgs(d) == [];
    } else {
      assert RunArgs(DisposeEvents<A>(held)) == [];
    }
  }

  /** The effect runs of a history are those of all firings but the last, then the last one. */
  lemma HistoryLastRuns<A>(run: nat, args: seq<A>, rets: seq<Option<FnId>>)
    requires |args| == |rets| > 0
    ensures var n := |args| - 1;
            RunArgs(History(run, args, rets)) == RunArgs(History(run, args[..n], rets[..n])) + args[n..]
  {
    var n := |args| - 1;
    assert args[n..] == [args[n]];
    var held := if n == 0 then None else rets[n - 1];
    RunArgsAppend(History(run, args[..n], rets[..n]), FireEvents(run, held, args[n]));
    RunArgsFire(run, held, args[n]);
  }

  /** Every firing runs the effect exactly once, with the values it saw, in firing order. */
  lemma {:induction false} HistoryRuns<A>(run: nat, args: seq<A>, rets: seq<Option<FnId>>)
    requires |args| == |rets|
    ensures RunArgs(History(run, args, rets)) == args
    decreases |args|
  {
    if args != [] {
      var n := |args| - 1;
      HistoryLastRuns(run, args, rets);
      HistoryRuns(run, args[..n], rets[..n]);
    }
  }

  /** The cleanup calls of one firing: the held cleanup, if there is one. */
  lemma CleanupCallsFire<A>(run: nat, held: Option<FnId>, a: A)
    ensures CleanupCalls(FireEvents(run, held, a)) == (if held.Some? then [held.value] else [])
  {
    var es := FireEvents(run, held, a);
    assert es[..|es| - 1] == DisposeEvents(held);
    if held.Some? {
      var d: seq<Event<A>> := [Cleanup(held.value)];
      assert d[..|d| - 1] == [];
      assert CleanupCalls(d) == [held.value];
    } else {
      assert CleanupCalls(DisposeEvents<A>(held)) == [];
    }
  }

  /** The cleanups called by a history are those of all firings but the last, then the one the last firing called. */
  lemma HistoryLastCleanups<A>(run: nat, args: seq<A>, rets: seq<Option<FnId>>)
    requires |args| == |rets| > 0
    ensures var n := |rets| - 1;
            CleanupCalls(History(run, args, rets))
            == CleanupCalls(History(run, args[..n], rets[..n])) + (if n > 0 && rets[n - 1].Some? then [rets[n - 1].value] else [])
  {
    var n := |rets| - 1;
    var held := if n == 0 then None else rets[n - 1];
    CleanupCallsAppend(History(run, args[..n], rets[..n]), FireEvents(run, held, args[n]));
    CleanupCallsFire(run, held, args[n]);
  }

  /**
   * Cleanup before re-run: every cleanup an effect run returned has been
   * called exactly once, in order, by the time the next firing runs the
   * effect; the cleanup the last run returned is the one still held.
   */
  lemma {:induction false} HistoryCleanups<A>(run: nat, args: seq<A>, rets: seq<Option<FnId>>)
    requires |args| == |rets| > 0
    ensures CleanupCalls(History(run, args, rets)) == Returned(rets[..|rets| - 1])
    decreases |args|
  {
    var n := |rets| - 1;
    HistoryLastCleanups(run, args, rets);
    if n > 0 {
      HistoryCleanups(run, args[..n], rets[..n]);
      assert rets[..n][..n - 1] == rets[..n - 1];
    }
  }

  /**
   * A watch disposed after any number of firings has called every cleanup
   * its effect ever returned exactly once, in the order they were returned.
   */
  lemma DisposedHistoryCallsEveryCleanupOnce<A>(run: nat, args: seq<A>, rets: seq<Option<FnId>>)
    requires |args| == |rets| > 0
    ensures CleanupCalls(History(run, args, rets) + DisposeEvents(rets[|rets| - 1])) == Returned(rets)
  {
    HistoryCleanups(run, args, rets);
    CleanupCallsAppend(History(run, args, rets), DisposeEvents(rets[|rets| - 1]));
    var n := |rets| - 1;
    assert rets[..n] + [rets[n]] == rets;
    assert rets[..|rets|][..n] == rets[..n];
  }

  /**
   * A watch registration: the state `watch` keeps in its closures. `held` is
   * the `cleanup` variable (idle when `None`, holding a cleanup otherwise);
   * `callback` is the closure subscribed to every source. The ghost fields
   * record what every firing saw and what the effect returned.
   */
  class Registration {
    const deps: seq<Reactives.Cell>
    const run: nat
    const callback: Reactives.Callback
    const log: Log
    var held: Option<FnId>
    ghost var seen: seq<Args>
    ghost var results: seq<Option<FnId>>
    ghost var fired: seq<Event<Args>>

    /** The held cleanup is the last run's result, and the firings so far made the calls `History` gives. */
    ghost predicate Valid()
      reads this
    {
      && |seen| == |results|
      && held == (if results == [] then None else results[|results| - 1])
      && fired == History(run, seen, results)
    }

    /**
     * `watch`, up to its subscriptions: the `cleanup` variable starts
     * undefined, and the callback is called once, synchronously, with the
     * sources' current values.
     */
    constructor (deps: seq<Reactives.Cell>, run: nat, log: Log, first: Option<FnId>)
      modifies log`events
      ensures Valid() && fresh(callback)
      ensures this.deps == deps && this.run == run && this.log == log && held == first
      ensures seen == [Reactives.Values(deps)] && results == [first]
      ensures log.events == old(log.events) + [Run(run, Reactives.Values(deps))]
    {
      this.deps := deps;
      this.run := run;
      this.log := log;
      callback := new Reactives.Callback();
      held := None;
      seen, results, fired := [], [], [];
      new;
      Fire(first);
    }

    /**
     * The watch callback: calls the held cleanup, if any, strictly before
     * running the effect again with the current values of all sources; the
     * effect's result becomes the held cleanup, and a falsy result leaves
     * none, so the next firing calls no cleanup first.
     */
    method Fire(ret: Option<FnId>)
      requires Valid()
      modifies this`held, this`seen, this`results, this`fired, log`events
      ensures Valid() && held == ret
      ensures seen == old(seen) + [Reactives.Values(deps)] && results == old(results) + [ret]
      ensures log.events == old(log.events) + FireEvents(run, old(held), Reactives.Values(deps))
    {
      var args := Reactives.Values(deps);
      var calls := FireEvents(run, held, args);
      log.events := log.events + calls;
      assert History(run, seen + [args], results + [ret]) == fired + calls by {
        HistoryStep(run, seen, results, args, ret);
      }
      fired := fired + calls;
      seen, results := seen + [args], results + [ret];
      held := ret;
    }

    /**
     * The disposer `watch` pushes: unsubscribes the callback from every
     * source, then calls the held cleanup if there is one. It does not clear
     * the held cleanup.
     */
    method Dispose()
      requires forall c :: c in deps ==> c.Valid()
      modifies deps`subscribers, log`events
      ensures forall c :: c in deps ==> c.Valid() && c.subscribers == OrderedSet.Delete(old(c.subscribers), callback)
      ensures callback !in Subscribed(deps)
      ensures log.events == old(log.events) + DisposeEvents(held)
    {
      for i := 0 to |deps|
        invariant forall c :: c in deps ==> c.Valid()
        invariant forall c :: c in deps[..i] ==> c.subscribers == OrderedSet.Delete(old(c.subscribers), callback)
        invariant forall c :: c in deps && c !in deps[..i] ==> c.subscribers == old(c.subscribers)
        invariant log.events == old(log.events)
      {
        deps[i].Unsubscribe(callback);
        assert forall c :: c in deps[..i + 1] ==> c in deps[..i] || c == deps[i];
      }
      assert deps[..|deps|] == deps;
      if held.Some? {
        log.events := log.events + [Cleanup(held.value)];
      }
    }
  }

  /** All subscribers of the given cells. */
  ghost function Subscribed(cells: seq<Reactives.Cell>): set<Reactives.Callback>
    reads cells`subscribers
  {
    set i, cb | 0 <= i < |cells| && cb in cells[i].subscribers :: cb
  }

  /** The subscriptions `watch` makes: the one callback is subscribed to every source, in order. */
  method SubscribeAll(deps: seq<Reactives.Cell>, callback: Reactives.Callback)
    requires forall c :: c in deps ==> c.Valid()
    modifies deps`subscribers
    ensures forall c :: c in deps ==> c.Valid() && c.subscribers == OrderedSet.Add(old(c.subscribers), callback)
  {
    for i := 0 to |deps|
      invariant forall c :: c in deps ==> c.Valid()
      invariant forall c :: c in deps[..i] ==> c.subscribers == OrderedSet.Add(old(c.subscribers), callback)
      invariant forall c :: c in deps && c !in deps[..i] ==> c.subscribers == old(c.subscribers)
    {
      var _ := deps[i].Subscribe(callback);
      assert forall c :: c in deps[..i + 1] ==> c in deps[..i] || c == deps[i];
    }
    assert deps[..|deps|] == deps;
  }

  /** A call a creator makes to one of its tools while it sets up a component. */
  datatype ToolCall =
    | CleanupCall(fn: FnId)
    | UiCall(node: RenderedNode)
    | WatchCall(deps: seq<Reactives.Cell>, run: nat, first: Option<FnId>)
    | ReactiveCall(value: Reactives.Value)

  /** The `_cleanups` entry a tool call appends. */
  predicate Registers(call: ToolCall, entry: CleanupFn)
  {
    match call
    case CleanupCall(fn) => entry == UserFn(fn)
    case UiCall(node) => entry == UserFn(node.cleanup)
    case WatchCall(deps, run, _) => entry.WatchDisposer? && entry.registration.deps == deps && entry.registration.run == run
    case ReactiveCall(_) => false
  }

  /**
   * `entries` are what the calls of `script` append to `_cleanups`, in call
   * order: one entry per `cleanup`, `ui` and `watch` call, none for `reactive`.
   */
  predicate RegistersAll(entries: seq<CleanupFn>, script: seq<ToolCall>)
    decreases |script|
  {
    if script == [] then entries == []
    else
      var call := script[|script| - 1];
      if call.ReactiveCall? then RegistersAll(entries, script[..|script| - 1])
      else |entries| > 0 && Registers(call, entries[|entries| - 1])
           && RegistersAll(entries[..|entries| - 1], script[..|script| - 1])
  }

  /** The number of calls in `script` that append to `_cleanups`. */
  function Appending(script: seq<ToolCall>): nat
  {
    if script == [] then 0
    else Appending(script[..|script| - 1]) + (if script[|script| - 1].ReactiveCall? then 0 else 1)
  }

  /** Each `cleanup`, `ui` and `watch` call appends exactly one entry, and `reactive` none. */
  lemma {:induction false} RegistersAllLength(entries: seq<CleanupFn>, script: seq<ToolCall>)
    requires RegistersAll(entries, script)
    ensures |entries| == Appending(script)
    decreases |script|
  {
    if script != [] {
      if script[|script| - 1].ReactiveCall? {
        RegistersAllLength(entries, script[..|script| - 1]);
      } else {
        RegistersAllLength(entries[..|entries| - 1], script[..|script| - 1]);
      }
    }
  }

  /**
   * Registration order composes: the entries of one batch of calls followed
   * by those of the next are the entries of the two batches run in order,
   * as when a component is connected twice.
   */
  lemma {:induction false} RegistersAllAppend(e1: seq<CleanupFn>, s1: seq<ToolCall>, e2: seq<CleanupFn>, s2: seq<ToolCall>)
    requires RegistersAll(e1, s1) && RegistersAll(e2, s2)
    ensures RegistersAll(e1 + e2, s1 + s2)
    decreases |s2|
  {
    if s2 == [] {
      assert e2 == [] && e1 + e2 == e1 && s1 + s2 == s1;
    } else {
      var n := |s2| - 1;
      assert (s1 + s2)[..|s1 + s2| - 1] == s1 + s2[..n];
      if s2[n].ReactiveCall? {
        RegistersAllAppend(e1, s1, e2, s2[..n]);
      } else {
        var m := |e2| - 1;
        RegistersAllAppend(e1, s1, e2[..m], s2[..n]);
        assert (e1 + e2)[..|e1 + e2| - 1] == e1 + e2[..m];
      }
    }
  }

  /** `entries` are what one run of `initialize` appends: the tools' entries, then the creator's result if it is a cleanup. */
  predicate InitializeRegisters(entries: seq<CleanupFn>, script: seq<ToolCall>, uncreate: Option<FnId>)
  {
    if uncreate.Some? then
      |entries| > 0 && entries[|entries| - 1] == UserFn(uncreate.value)
      && RegistersAll(entries[..|entries| - 1], script)
    else RegistersAll(entries, script)
  }

  /** The tool calls of one run of `initialize`, with the creator's result registered like a `cleanup` call made last. */
  function InitializeCalls(script: seq<ToolCall>, uncreate: Option<FnId>): (calls: seq<ToolCall>)
    ensures |calls| == |script| + (if uncreate.Some? then 1 else 0)
    ensures calls[..|script|] == script
    ensures uncreate.Some? ==> calls[|script|] == CleanupCall(uncreate.value)
  {
    if uncreate.Some? then script + [CleanupCall(uncreate.value)] else script
  }

  /** One run of `initialize` appends what its tool calls and then a `cleanup` of the creator's result would append. */
  lemma InitializeRegistersAsCalls(entries: seq<CleanupFn>, script: seq<ToolCall>, uncreate: Option<FnId>)
    ensures InitializeRegisters(entries, script, uncreate) <==> RegistersAll(entries, InitializeCalls(script, uncreate))
  {
    if uncreate.Some? {
      var calls := InitializeCalls(script, uncreate);
      assert calls[..|calls| - 1] == script;
    }
  }

  /**
   * Two connections: the entries of two runs of `initialize`, in order, are
   * those of the first run's tool calls, then the first creator's result,
   * then the second run's tool calls and the second creator's result.
   */
  lemma InitializeTwiceRegisters(e1: seq<CleanupFn>, s1: seq<ToolCall>, u1: Option<FnId>, e2: seq<CleanupFn>, s2: seq<ToolCall>, u2: Option<FnId>)
    requires InitializeRegisters(e1, s1, u1) && InitializeRegisters(e2, s2, u2)
    ensures RegistersAll(e1 + e2, InitializeCalls(s1, u1) + InitializeCalls(s2, u2))
  {
    InitializeRegistersAsCalls(e1, s1, u1);
    InitializeRegistersAsCalls(e2, s2, u2);
    RegistersAllAppend(e1, InitializeCalls(s1, u1), e2, InitializeCalls(s2, u2));
  }

  /** The sources a tool call subscribes to: those of a `watch` call, none otherwise. */
  function CallDeps(call: ToolCall): seq<Reactives.Cell>
  {
    if call.WatchCall? then call.deps else []
  }

  /** The user code a tool call runs: the first run of a `watch`, with the sources' current values. */
  function CallRuns(call: ToolCall): seq<Event<Args>>
    reads CallDeps(call)`current
  {
    if call.WatchCall? then [Run(call.run, Reactives.Values(call.deps))] else []
  }

  /** The `_cleanups` entries a tool call appends: one for `cleanup`, `ui` and `watch`, none for `reactive`. */
  predicate Appends(call: ToolCall, entry: seq<CleanupFn>)
  {
    if call.ReactiveCall? then entry == [] else |entry| == 1 && Registers(call, entry[0])
  }

  /** Appending the entry of one more tool call extends the registration of the calls before it. */
  lemma RegistersAllStep(added: seq<CleanupFn>, script: seq<ToolCall>, entry: seq<CleanupFn>)
    requires |script| > 0
    requires RegistersAll(added, script[..|script| - 1]) && Appends(script[|script| - 1], entry)
    ensures RegistersAll(added + entry, script)
  {
    if !script[|script| - 1].ReactiveCall? {
      assert (added + entry)[..|added|] == added;
    } else {
      assert added + entry == added;
    }
  }

  /** The callbacks of the `watch` disposers among `entries` whose sources include `c`, in order: what those calls subscribed to `c`. */
  function WatchCallbacksOn(c: Reactives.Cell, entries: seq<CleanupFn>): seq<Reactives.Callback>
  {
    if entries == [] then []
    else
      var e := entries[|entries| - 1];
      WatchCallbacksOn(c, entries[..|entries| - 1])
      + (if e.WatchDisposer? && c in e.registration.deps then [e.registration.callback] else [])
  }

  lemma {:induction false} WatchCallbacksOnAppend(c: Reactives.Cell, a: seq<CleanupFn>, b: seq<CleanupFn>)
    ensures WatchCallbacksOn(c, a + b) == WatchCallbacksOn(c, a) + WatchCallbacksOn(c, b)
    decreases |b|
  {
    if b == [] {
      assert a + b == a;
    } else {
      var n := |b| - 1;
      assert (a + b)[..|a + b| - 1] == a + b[..n];
      WatchCallbacksOnAppend(c, a, b[..n]);
    }
  }

  /** Concatenation is associative. */
  lemma ConcatAssoc<T>(a: seq<T>, b: seq<T>, c: seq<T>)
    ensures (a + b) + c == a + (b + c)
  {
  }

  /** The sources of every `watch` call in `script`. */
  function ScriptDeps(script: seq<ToolCall>): set<Reactives.Cell>
  {
    set i, c | 0 <= i < |script| && script[i].WatchCall? && c in script[i].deps :: c
  }

  /** The sources of a prefix of the calls are among the sources of all of them. */
  lemma ScriptDepsPrefix(script: seq<ToolCall>, i: nat)
    requires i <= |script|
    ensures ScriptDeps(script[..i]) <= ScriptDeps(script)
    ensures i < |script| && script[i].WatchCall? ==> forall c :: c in script[i].deps ==> c in ScriptDeps(script)
  {
  }

  /** A cell that no `watch` call of `script` names receives no callback from the entries those calls append. */
  lemma {:induction false} NoCallbacksOutside(c: Reactives.Cell, added: seq<CleanupFn>, script: seq<ToolCall>)
    requires RegistersAll(added, script) && c !in ScriptDeps(script)
    ensures WatchCallbacksOn(c, added) == []
    decreases |script|
  {
    if script != [] {
      var n := |script| - 1;
      ScriptDepsPrefix(script, n);
      if script[n].ReactiveCall? {
        NoCallbacksOutside(c, added, script[..n]);
      } else {
        NoCallbacksOutside(c, added[..|added| - 1], script[..n]);
      }
    }
  }

  /**
   * One more tool call adds to a cell's subscribers exactly the callback its
   * entry carries for that cell: `s0`, `s1` and `s2` are the cell's
   * subscribers before the calls, after all but the last, and after all.
   */
  lemma SubscribersStep(c: Reactives.Cell, script: seq<ToolCall>, prefix: seq<CleanupFn>, entry: seq<CleanupFn>,
                        s0: seq<Reactives.Callback>, s1: seq<Reactives.Callback>, s2: seq<Reactives.Callback>)
    requires |script| > 0
    requires RegistersAll(prefix, script[..|script| - 1]) && Appends(script[|script| - 1], entry)
    requires c in ScriptDeps(script[..|script| - 1]) ==> s1 == s0 + WatchCallbacksOn(c, prefix)
    requires c !in ScriptDeps(script[..|script| - 1]) ==> s1 == s0
    requires c in CallDeps(script[|script| - 1]) ==> s2 == s1 + WatchCallbacksOn(c, entry)
    requires c !in CallDeps(script[|script| - 1]) ==> s2 == s1
    ensures s2 == s0 + WatchCallbacksOn(c, prefix + entry)
  {
    var n := |script| - 1;
    if c !in ScriptDeps(script[..n]) {
      NoCallbacksOutside(c, prefix, script[..n]);
    }
    WatchCallbacksOnAppend(c, prefix, entry);
    if c !in CallDeps(script[n]) && entry != [] {
      assert entry[..0] == [];
    }
  }

  /** The first effect run of every `watch` call in `script`, with the sources' current values, in call order. */
  function InitialRuns(script: seq<ToolCall>): seq<Event<Args>>
    reads ScriptDeps(script)`current
  {
    if script == [] then []
    else
      var n := |script| - 1;
      ScriptDepsPrefix(script, n);
      InitialRuns(script[..n]) + CallRuns(script[n])
  }

  /**
   * A component instance (`ReactiveComponent`, without its element and
   * shadow root): the ordered cleanup list and the wrapped props.
   */
  class ReactiveComponent {
    var cleanups: seq<CleanupFn>
    var props: Option<Reactives.Cell>
    const log: Log

    constructor (log: Log)
      ensures cleanups == [] && props == None && this.log == log
    {
      cleanups := [];
      props := None;
      this.log := log;
    }

    /** The `cleanup` tool: appends the function to the cleanup list. */
    method Cleanup(fn: FnId)
      modifies this`cleanups
      ensures cleanups == old(cleanups) + [UserFn(fn)]
    {
      cleanups := cleanups + [UserFn(fn)];
    }

    /** The `ui` tool: appends the node's disposer to the cleanup list and returns that same disposer. */
    method Ui(node: RenderedNode) returns (disposer: FnId)
      modifies this`cleanups
      ensures disposer == node.cleanup
      ensures cleanups == old(cleanups) + [UserFn(disposer)]
    {
      cleanups := cleanups + [UserFn(node.cleanup)];
      disposer := node.cleanup;
    }

    /**
     * The `watch` tool: runs the effect once with the sources' current
     * values, before subscribing; then subscribes one callback to every
     * source, and appends exactly one entry, the disposer.
     */
    method Watch(deps: seq<Reactives.Cell>, run: nat, first: Option<FnId>) returns (r: Registration)
      requires forall c :: c in deps ==> c.Valid()
      modifies this`cleanups, log`events, deps`subscribers
      ensures fresh(r) && r.Valid() && r.deps == deps && r.run == run && r.log == log && r.held == first
      ensures r.seen == [Reactives.Values(deps)] && r.results == [first]
      ensures log.events == old(log.events) + [Run(run, Reactives.Values(deps))]
      ensures forall c :: c in deps ==> c.Valid() && c.subscribers == old(c.subscribers) + [r.callback]
      ensures fresh(r.callback)
      ensures cleanups == old(cleanups) + [WatchDisposer(r)]
    {
      r := new Registration(deps, run, log, first);
      SubscribeAll(deps, r.callback);
      cleanups := cleanups + [WatchDisposer(r)];
    }

    /** The `reactive` tool is `wrapReactive`. */
    method Reactive(v: Reactives.Value) returns (c: Reactives.Cell)
      ensures Reactives.IsReactiveValue(v) ==> c == v.cell
      ensures !Reactives.IsReactiveValue(v) ==> fresh(c) && c.current == v && c.subscribers == [] && c.memo == map[]
    {
      c := Reactives.Wrap(v);
    }

    /** One tool call of the creator: `cleanup`, `ui` and `watch` append exactly one entry, `reactive` none; only `watch` runs user code. */
    method Apply(call: ToolCall) returns (ghost entry: seq<CleanupFn>)
      requires forall c :: c in CallDeps(call) ==> c.Valid()
      modifies this`cleanups, log`events, CallDeps(call)`subscribers
      ensures cleanups == old(cleanups) + entry && Appends(call, entry)
      ensures log.events == old(log.events) + CallRuns(call)
      ensures forall c :: c in CallDeps(call) ==> c.Valid() && c.subscribers == old(c.subscribers) + WatchCallbacksOn(c, entry)
      ensures call.WatchCall? ==>
                var r := entry[0].registration;
                fresh(r) && fresh(r.callback) && r.Valid() && r.log == log && r.held == call.first
                && r.seen == [Reactives.Values(call.deps)] && r.results == [call.first]
    {
      match call {
        case CleanupCall(fn) =>
          Cleanup(fn);
          entry := [UserFn(fn)];
        case UiCall(node) =>
          var disposer := Ui(node);
          entry := [UserFn(disposer)];
        case WatchCall(deps, run, first) =>
          var r := Watch(deps, run, first);
          entry := [WatchDisposer(r)];
          assert entry[..0] == [];
        case ReactiveCall(v) =>
          var _ := Reactive(v);
          entry := [];
      }
    }

    /** The creator's tool calls, made in order. */
    method RunScript(script: seq<ToolCall>) returns (ghost added: seq<CleanupFn>)
      requires forall c :: c in ScriptDeps(script) ==> c.Valid()
      modifies this`cleanups, log`events, ScriptDeps(script)`subscribers
      ensures cleanups == old(cleanups) + added && RegistersAll(added, script)
      ensures log.events == old(log.events) + InitialRuns(script)
      ensures forall c :: c in ScriptDeps(script) ==> c.Valid() && c.subscribers == old(c.subscribers) + WatchCallbacksOn(c, added)
      decreases |script|
    {
      if script == [] {
        return [];
      }
      var n := |script| - 1;
      ScriptDepsPrefix(script, n);
      var prefix := RunScript(script[..n]);
      label Mid:
      var entry := Apply(script[n]);
      forall c | c in ScriptDeps(script)
        ensures c.subscribers == old(c.subscribers) + WatchCallbacksOn(c, prefix + entry)
      {
        SubscribersStep(c, script, prefix, entry, old(c.subscribers), old@Mid(c.subscribers), c.subscribers);
      }
      RegistersAllStep(prefix, script, entry);
      ConcatAssoc(old(cleanups), prefix, entry);
      ConcatAssoc(old(log.events), InitialRuns(script[..n]), CallRuns(script[n]));
      added := prefix + entry;
    }

    /**
     * `initialize`: runs the creator, whose tool calls are `script`, then
     * appends the creator's result if it is a cleanup. The cleanup list only
     * grows: the entries are appended in call order, the creator's result
     * last.
     */
    method Initialize(script: seq<ToolCall>, uncreate: Option<FnId>)
      requires forall c :: c in ScriptDeps(script) ==> c.Valid()
      modifies this`cleanups, log`events, ScriptDeps(script)`subscribers
      ensures |old(cleanups)| <= |cleanups| && cleanups[..|old(cleanups)|] == old(cleanups)
      ensures InitializeRegisters(cleanups[|old(cleanups)|..], script, uncreate)
      ensures log.events == old(log.events) + InitialRuns(script)
      ensures forall c :: c in ScriptDeps(script) ==>
                c.Valid() && c.subscribers == old(c.subscribers) + WatchCallbacksOn(c, cleanups[|old(cleanups)|..])
    {
      ghost var registered := RunScript(script);
      if uncreate.Some? {
        cleanups := cleanups + [UserFn(uncreate.value)];
        assert cleanups[|old(cleanups)|..] == registered + [UserFn(uncreate.value)];
        assert cleanups[|old(cleanups)|..][..|registered|] == registered;
      } else {
        assert cleanups[|old(cleanups)|..] == registered;
      }
    }

    /** `connectedCallback` runs `initialize` again on every connection; nothing consumes earlier entries. */
    method ConnectedCallback(script: seq<ToolCall>, uncreate: Option<FnId>)
      requires forall c :: c in ScriptDeps(script) ==> c.Valid()
      modifies this`cleanups, log`events, ScriptDeps(script)`subscribers
      ensures |old(cleanups)| <= |cleanups| && cleanups[..|old(cleanups)|] == old(cleanups)
      ensures InitializeRegisters(cleanups[|old(cleanups)|..], script, uncreate)
      ensures log.events == old(log.events) + InitialRuns(script)
      ensures forall c :: c in ScriptDeps(script) ==>
                c.Valid() && c.subscribers == old(c.subscribers) + WatchCallbacksOn(c, cleanups[|old(cleanups)|..])
    {
      Initialize(script, uncreate);
    }

    /** `setProps`: stores the wrapped props; props that are already reactive are stored as they are. */
    method SetProps(p: Reactives.Value)
      modifies this`props
      ensures props.Some?
      ensures Reactives.IsReactiveValue(p) ==> props.value == p.cell
      ensures !Reactives.IsReactiveValue(p) ==> fresh(props.value) && props.value.current == p
                                                && props.value.subscribers == [] && props.value.memo == map[]
    {
      var c := Reactives.Wrap(p);
      props := Some(c);
    }

    /** `getProps`: the stored props, `None` before any `setProps`. */
    method GetProps() returns (p: Option<Reactives.Cell>)
      ensures p == props
    {
      p := props;
    }
  }
}
