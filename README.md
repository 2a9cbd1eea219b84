# Reactive cells and component effects, modelled in Dafny

This project models the core of a small web-component library. The core has
two parts.

- **Reactive values** (`reactives.ts`):
  - `wrapReactive` builds a *cell*. A cell has a stable container for its
    current value, an insertion-ordered subscriber `Set`, and a memo of child
    cells, one per field of a composite value.
  - The cell's `get`, `set` and `subscribe` are modelled, with the `value`
    alias and the proxy's `get`/`set` traps.
  - `isReactiveValue` is modelled.
  - `from` builds a *derived* cell that recomputes `process` over all of its
    sources whenever one of them notifies.
- **Component bookkeeping** (`define.ts`):
  - `initialize` hands the creator four tools: `cleanup`, `ui`, `watch` and
    `reactive`. Each call of `cleanup`, `ui` or `watch` appends one entry to
    the ordered `_cleanups` list. `reactive` appends nothing.
  - `watch` is a two-state machine per registration: idle, or holding the
    cleanup its effect last returned.
  - `connectedCallback`, `setProps` and `getProps` are modelled.

Files:

- `wrappers.dfy`: `Option`.
- `ordered_set.dfy`: a JavaScript `Set` as a duplicate-free sequence in
  insertion order.
- `reactives.dfy`: the `Reactives` module. It has:
  - `Value`, whose `==` is JavaScript's `===` because objects and wrappers
    are references;
  - the `Cell` class, whose methods are the wrapper's methods and traps;
  - `Wrap`, `From` and `Recompute`.
- `define.dfy`: the `Define` module. It has:
  - the `Registration` class, which is the state one `watch` call keeps in
    its closures;
  - the `ReactiveComponent` class;
  - the pure `History` specification of what a watch calls.

Modelling choices:

- **Closures.** A closure's identity is an object's identity (`Callback`).
  Functions from user code are numbers (`FnId`).
- **What user code returns.** The value an effect returns is a parameter of
  the step that runs it. `None` stands for a falsy result.
- **Creators.** A creator is given as the script of tool calls it makes
  (`ToolCall`), together with its return value.
- **Call log.** Every call into user code is appended to a shared `Log`, so
  ordering can be stated.
- **Notifications.** A `set` returns the calls it makes to subscribers
  (`Notification`). The bodies of the callbacks are separate methods.
  `Recompute` is the callback `from` subscribes. `Registration.Fire` is the
  callback `watch` subscribes.

## Model

| member | source | states |
|---|---|---|
| OrderedSet.Add | reactives.ts:86 | Adding to the subscriber set puts a new callback last, keeps every earlier element in place, and leaves the set unchanged when the callback is already there. Subscribing twice leaves one registration. Distinctness is preserved. |
| OrderedSet.Delete | reactives.ts:84 | Deleting removes exactly the given callback. Every other element is kept. Nothing changes when the callback is absent. The set shrinks by one when the callback was present. |
| OrderedSet.DeleteIdempotent | reactives.ts:83-85 | Calling an unsubscriber a second time changes nothing. |
| OrderedSet.DeleteAt | reactives.ts:84 | In a duplicate-free set, deleting the element at position i closes the gap and moves nothing else. |
| OrderedSet.DeleteUndoesAdd | reactives.ts:82-88 | Unsubscribing a callback that was not subscribed before restores the exact subscriber set, order included. |
| OrderedSet.DeleteOtherAfterAdd | reactives.ts:82-88 | Removing one callback commutes with adding a different one, so unsubscribing leaves other subscribers untouched. |
| Reactives.IsReactiveValue | reactives.ts:17-19 | A value is reactive exactly when it is a wrapper. |
| Reactives.ReadField | reactives.ts:110 | Reading a field of `undefined` or `null` throws. Reading through a wrapper goes to that wrapper's trap. An object's own field is read as its value. Any other read is `undefined`. |
| Reactives.Lookup | reactives.ts:99-120 | The get trap, corrected to use a prototype-free memo. `value` reads the current value. `get`, `set`, `subscribe` and the two symbols come from the target. A field that already holds a wrapper is returned as that wrapper and is not memoized. A non-reactive field yields the memoized child for its key. If the key has no memo entry, a new child is created over the field's own raw value. A field of a non-nullish, non-reactive value therefore always yields a cell. A read on `undefined`/`null` is a `TypeError`. A read through a wrapper is forwarded. An inherited member is never returned. |
| Reactives.LookupAsWritten | reactives.ts:110-118 | The get trap as written agrees with `Lookup` on every key that is not an `Object.prototype` member name. It never creates a child that `Lookup` would not. |
| Reactives.AsWrittenValueOfIsNotACell | reactives.ts:114-117 | Take an object whose own field `valueOf` holds 1. `Lookup` creates a child cell for it. The code as written returns the inherited `valueOf` instead. |
| Reactives.AsWrittenMissesPrototypeNames | reactives.ts:114-117 | For every prototype member name where a child is due, the code as written returns the inherited member and not a cell. |
| Reactives.ReadTwiceSameAnswer | reactives.ts:110-118 | Reading the same key again, after the memo update of the first read, yields the identical answer. If the first read created the child, the second read yields that same child. |
| Reactives.MemoSurvivesReplacement | reactives.ts:114-117 | The memo is never invalidated. Under any later non-nullish current value whose field is not reactive, a memoized key still yields the memoized child. |
| Reactives.Notify | reactives.ts:78-80 | A notification pass calls each subscriber in set order, and only those, each with the new value. |
| Reactives.NotifyEachOnce | reactives.ts:75-81 | Every registered subscriber is called exactly once with the new value, and no other callback is called. |
| Reactives.UnsubscribedNotNotified | reactives.ts:83-85 | After unsubscribing a callback, a `set` does not call it, and it still calls every other subscriber. |
| Reactives.Cell.constructor | reactives.ts:53-64 | A new wrapper holds the value, has no subscribers and has an empty memo. |
| Reactives.Cell.Get | reactives.ts:72-74 | `get()` returns the current value and changes nothing. |
| Reactives.Cell.Set | reactives.ts:75-81 | A value identical to the current one calls nobody. Any other value is stored and every subscriber is called with it, in set order. Only the cell's own container changes, so setting a child leaves its parent's value alone. |
| Reactives.Cell.Subscribe | reactives.ts:82-88 | The callback is added to the set, and the returned unsubscriber is bound to exactly this cell and callback. |
| Reactives.Cell.Unsubscribe | reactives.ts:83-85 | The unsubscriber deletes exactly its callback from the set. |
| Reactives.Cell.PropertyGet | reactives.ts:99-120 | The get trap answers as `Lookup` decides. When a child is due, a fresh empty cell over the field's raw value is created and stored in the memo under that key. No other state changes. |
| Reactives.Cell.PropertySet | reactives.ts:91-97 | Assigning `value` is accepted and behaves exactly like `set`. Assigning any other key is refused and changes nothing. |
| Reactives.Wrap | reactives.ts:48-64 | A wrapper is returned as it is. Any other value gets a fresh cell with no subscribers and an empty memo. |
| Reactives.WrapTwice | reactives.ts:48-49 | Wrapping the result of a wrap returns it unchanged, so wrappers never nest. |
| Reactives.ReadFieldTwice | reactives.ts:110-118 | Two reads of the same key through the trap yield the identical answer, so a field's child cell is stable. |
| Reactives.DependencyList | reactives.ts:129 | An array of sources is used as it is. A single source becomes a one-element list. |
| Reactives.Values | reactives.ts:130-131 | The sources' current values, one per source, in order. |
| Reactives.From | reactives.ts:125-139 | A single source is treated as a one-element list. The derived cell starts as `process` over the sources' current values. A fresh, distinct recompute callback is appended to each source's subscriber set, in order. |
| Reactives.SubscribeNew | reactives.ts:134-136 | A new closure is subscribed to the source. It is fresh, so it goes last in the subscriber set. |
| Reactives.SubscribeEach | reactives.ts:133-136 | Each source receives exactly the new callbacks made for its positions in the list, appended after its earlier subscribers. |
| Reactives.Recompute | reactives.ts:134-136 | The derived cell becomes `process` over all sources' current values, not only the changed one. It notifies its own subscribers when that changes its value. |
| Define.HistoryRuns | define.ts:53-59 | Over any number of firings, the effect is run exactly once per firing, with the values that firing saw, in firing order. |
| Define.HistoryCleanups | define.ts:53-58 | Every cleanup an effect run returned is called exactly once, in order, before the next run. A falsy result leaves nothing to call. |
| Define.DisposedHistoryCallsEveryCleanupOnce | define.ts:61-66 | After disposal, every cleanup the effect ever returned has been called exactly once, in the order returned. |
| Define.Registration.constructor | define.ts:52-59 | `watch` runs the effect once, synchronously, with the sources' current values, while holding no cleanup. |
| Define.Registration.Fire | define.ts:53-58 | A firing calls the held cleanup strictly before running the effect with all sources' current values. The result becomes the held cleanup. The registration stays in agreement with `History`. |
| Define.Registration.Dispose | define.ts:61-66 | The disposer removes the callback from every source, so later changes no longer fire it. It then calls the held cleanup, if any. |
| Define.SubscribeAll | define.ts:60 | One callback is added to every source. |
| Define.RegistersAllLength | define.ts:43-66 | `cleanup`, `ui` and `watch` each append exactly one entry, and `reactive` appends none. |
| Define.RegistersAllAppend | define.ts:42-69 | Registration composes over batches of tool calls. The entries of one batch followed by those of the next are the entries of the two batches made in order. |
| Define.InitializeRegistersAsCalls | define.ts:41-73 | One run of `initialize` appends exactly what its tool calls would append, followed by a `cleanup` of the creator's result when that result is a cleanup. This holds in both directions. |
| Define.InitializeTwiceRegisters | define.ts:70-77 | Take two connections, each running `initialize`. Their entries, in order, are the first run's tool-call entries, then the first creator's result, then the second run's entries and the second creator's result. |
| Define.ReactiveComponent.constructor | define.ts:31-39 | A new component has an empty cleanup list and no props. |
| Define.ReactiveComponent.Cleanup | define.ts:43-45 | The function is appended to the cleanup list. |
| Define.ReactiveComponent.Ui | define.ts:46-50 | The node's disposer is appended and returned. |
| Define.ReactiveComponent.Watch | define.ts:51-67 | The effect runs once, with the sources' current values, before subscribing. One callback is appended to every source. Exactly one entry, the disposer, is appended. |
| Define.ReactiveComponent.Reactive | define.ts:68 | The `reactive` tool is `wrapReactive`. |
| Define.ReactiveComponent.Apply | define.ts:42-69 | One tool call appends one entry, none for `reactive`, and only `watch` runs user code. A `watch` call's sources each gain exactly that call's callback. Its entry is the disposer of a fresh registration with a fresh callback. That registration agrees with `History`, holds the first run's result, and saw the sources' current values. |
| Define.ReactiveComponent.RunScript | define.ts:42-69 | The creator's tool calls, made in order, append exactly the entries `RegistersAll` assigns them, in call order. The only user code they run is each `watch`'s first run, in call order. Each source's subscribers become the earlier ones followed by the callbacks of the `watch` calls naming it, in call order, and stay duplicate-free. |
| Define.ReactiveComponent.Initialize | define.ts:41-73 | Earlier entries are kept. The calls' entries are appended in call order, and the creator's result comes last if it is a cleanup. The only user code run is each `watch`'s first run, in call order. Each watched source gains exactly the callbacks of the appended `watch` disposers that name it, in order. |
| Define.ReactiveComponent.ConnectedCallback | define.ts:75-77 | Each connection runs `initialize` again and only appends. It has the same effect on entries, on user code run and on subscribers. |
| Define.ReactiveComponent.SetProps | define.ts:79-81 | The stored props are `wrapReactive(props)`. Reactive props are stored unchanged. Any other props get a fresh cell with no subscribers and an empty memo. |
| Define.ReactiveComponent.GetProps | define.ts:83-92 | The stored props are returned. |

## Left out

- The DOM is not modelled. This covers `HTMLElement`, the shadow root, `shadow.appendChild` in `ui` (define.ts:47), `customElements.define` and `define` (define.ts:95-105). `ui` only appends and returns the node's disposer.
- The rendering layer is not part of this model: `attributes.ts` and `nodeRenderer.ts`. From the latter only the shape of `RenderedNode` is used.
- Also not part of this model: `persistence.ts`, `store.ts`, `disposable.ts`, `reactives2.ts`, the examples, the TypeScript type-level machinery, and timers.
- The source has no teardown. Nothing consumes `_cleanups`, so none is modelled. `connectedCallback` only appends.
- Re-entrancy is left out. A callback that itself calls `set`, `subscribe` or an unsubscriber during a notification pass is not modelled. Because of this, whether the source's iteration over the live `Set` behaves like a snapshot is not modelled either.
- Reactives.Cell.Set: returns the calls it makes. The cascade of those calls, running each callback's body in turn, is not composed into one step.
- Exceptions thrown by callbacks, effects or cleanups are not modelled. Reading a field of `undefined`/`null` yields `TypeError` as a result rather than a thrown exception.
- Numbers are integers: floating point, `NaN` and `-0` are not modelled.
- Property reads on primitive values (such as a string's `length`) and members a raw object inherits are read as `undefined`. Raw objects are never mutated by outside code (`RawObject.fields` is constant).
- Define.ReactiveComponent.Watch: an effect that returns a truthy non-function is taken to return a cleanup.
- Reactives.Cell.PropertyGet: the `Cell` class implements the corrected trap (`Lookup`). For the twelve `Object.prototype` member names, such as `toString` on `{}`, the code as written returns the inherited member. The class instead creates and memoizes a child over the field's raw value. Only the pure `LookupAsWritten` has the as-written behaviour (see Findings).
- Reactives.Cell.PropertyGet: when the current value is itself a wrapper, the read is forwarded to that wrapper's trap (`Forwarded`). The model does not follow the forwarded read.
- Define.ReactiveComponent.Initialize: a creator is a fixed script of tool calls over cells that exist before it runs. Several things follow from this:
  - The props passed to the creator (define.ts:42) are not used.
  - A cell the creator makes with `reactive` cannot be named by a later `watch` in the same script, as in `const x = reactive(v); watch([x], ...)`.
  - Child cells read off the props (counter.ts:9) cannot be named either.
  - `from` and `set` calls made during setup (todo.ts:46) are not part of a script.
  - So no cell changes between two tool calls. This is part of why the first runs are exactly `InitialRuns` over the cells' values at the start.
- Define.ReactiveComponent.RunScript: the per-registration facts that `Apply` states for one `watch` call are not restated for a whole script or for `Initialize`. These facts are a fresh registration and callback, agreement with `History`, and the first result held. The composed contracts state the entries, the runs and the subscriber contents.
- Define.Registration.Dispose: the disposer does not clear the held cleanup. Calling it twice calls that cleanup twice. This matches the code.
- The code is followed where the design description differs from it:
  - The disposer unsubscribes first and then calls the held cleanup.
  - No snapshot of the subscriber set is taken.
  - There is no idempotent teardown.

## Findings

| source | as written | input that shows it | evidently intended | confidence | as-written member | corrected member |
|---|---|---|---|---|---|---|
| reactives.ts:114-117 | The memo is a plain `{}`, so `wrappedPropsContainer[key] === undefined` is false for keys inherited from `Object.prototype`. The inherited function is returned in place of a child cell. | Wrap an object `{valueOf: 1}` and read field `valueOf`. | Every non-reactive field read yields a memoized child cell, for example with a prototype-free memo or an own-property test. | not executed | Reactives.LookupAsWritten | Reactives.Lookup |
