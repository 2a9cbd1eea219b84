/**
 * The reactive value system: cells that hold a value and notify their
 * subscribers when it changes, the lazily filled, identity-stable per-field
 * child cells of a wrapped composite value, and derived cells.
 *
 * A JavaScript `Proxy` is modelled as an explicit `Cell` object: the
 * proxy's `get` and `set` traps become the methods `PropertyGet` and
 * `PropertySet`, and a field read `cell.k` becomes `PropertyGet(Name(k))`.
 */
module Reactives {
  import OrderedSet
  import opened Wrappers

  /**
   * A raw (unwrapped) JavaScript object or array. Its identity is the
   * reference; `fields` are its own fields by name (an array's are "0",
   * "1", ...). The reactive layer never writes to a raw object.
   */
  class RawObject {
    const fields: map<string, Value>

    constructor (fields: map<string, Value>)
      ensures this.fields == fields
    {
      this.fields := fields;
    }
  }

  /**
   * A JavaScript value. Objects and wrappers are references, so Dafny's `==`
   * on `Value` is JavaScript's `===`: structurally equal but distinct objects
   * are different values.
   */
  datatype Value =
    | Undefined
    | Null
    | Bool(b: bool)
    | Num(n: int)
    | Str(s: string)
    | Obj(obj: RawObject)
    | Reactive(cell: Cell)

  /** JavaScript truthiness. */
  predicate Truthy(v: Value)
  {
    match v
    case Undefined => false
    case Null => false
    case Bool(b) => b
    case Num(n) => n != 0
    case Str(s) => s != ""
    case _ => true
  }

  /** `value[reactiveTag]`: the tag is a module-private symbol that only a wrapper carries. */
  predicate CarriesReactiveTag(v: Value)
  {
    match v
    case Reactive(_) => true
    case _ => false
  }

  /** `isReactiveValue`: the value is truthy and carries the wrapper tag. */
  function IsReactiveValue(v: Value): (r: bool)
    ensures r <==> v.Reactive?
  {
    Truthy(v) && CarriesReactiveTag(v)
  }

  /** A property key of a wrapper: a string name or one of the module's three symbols. */
  datatype Key = Name(name: string) | SubscribersTag | ReactiveTag | WrappedPropsTag

  /** Keys the `get` trap answers from the target object itself (`Reflect.get`). */
  predicate IsTargetKey(key: Key)
  {
    key == Name("get") || key == Name("set") || key == Name("subscribe")
    || key == SubscribersTag || key == ReactiveTag
  }

  /** Keys the `get` trap treats as fields of the wrapped value. */
  predicate IsFieldKey(key: Key)
  {
    key != Name("value") && !IsTargetKey(key)
  }

  /** What a property read on a wrapper yields. */
  datatype Access =
    | CurrentValue(value: Value)  // `value`: the current value
    | TargetMember(key: Key)      // `get`, `set`, `subscribe`, the subscriber set, the tag
    | Child(cell: Cell)           // a field, as a reactive cell
    | Forwarded(to: Cell)         // the current value is itself a wrapper: its own trap answers
    | Inherited(name: string)     // a member of `Object.prototype` (only the code as written yields it)
    | TypeError                   // reading a field of `undefined` or `null` throws

  /** Reading `valueContainer.current[key]`. */
  datatype RawRead = Read(value: Value) | ThroughTrap(cell: Cell) | Throws

  function ReadField(current: Value, key: Key): (r: RawRead)
    ensures r.Throws? <==> current == Undefined || current == Null
    ensures r.ThroughTrap? <==> current.Reactive?
    ensures current.Obj? && key.Name? && key.name in current.obj.fields ==> r == Read(current.obj.fields[key.name])
    ensures r.Read? && r.value != Undefined ==> current.Obj? && key.Name? && key.name in current.obj.fields
  {
    match current
    case Undefined => Throws
    case Null => Throws
    case Obj(o) => if key.Name? && key.name in o.fields then Read(o.fields[key.name]) else Read(Undefined)
    case Reactive(c) => ThroughTrap(c)
    case _ => Read(Undefined)
  }

  /** The `get` trap's decision: an answer, or a new child cell over `raw` to create and memoize. */
  datatype Decision = Answer(access: Access) | Create(raw: Value)

  /**
   * The `get` trap with the memo table keyed by the table's own entries.
   * Every field read of a composite value yields a reactive cell: a field
   * that is already reactive, the memoized child, or a new child; a new
   * child wraps a non-reactive raw value and is made only for a key that
   * has none yet.
   */
  function Lookup(current: Value, memo: map<Key, Cell>, key: Key): (d: Decision)
    ensures key == Name("value") ==> d == Answer(CurrentValue(current))
    ensures IsTargetKey(key) ==> d == Answer(TargetMember(key))
    ensures d.Create? ==> IsFieldKey(key) && key !in memo && !IsReactiveValue(d.raw)
    ensures IsFieldKey(key) && current != Undefined && current != Null && !current.Reactive?
            ==> d.Create? || d.access.Child?
    ensures IsFieldKey(key) && key in memo && ReadField(current, key).Read?
            && !IsReactiveValue(ReadField(current, key).value)
            ==> d == Answer(Child(memo[key]))
    ensures IsFieldKey(key) && ReadField(current, key).Read? && IsReactiveValue(ReadField(current, key).value)
            ==> d == Answer(Child(ReadField(current, key).value.cell))
    ensures IsFieldKey(key) && key !in memo && ReadField(current, key).Read?
            && !IsReactiveValue(ReadField(current, key).value)
            ==> d == Create(ReadField(current, key).value)
    ensures d.Create? ==> ReadField(current, key) == Read(d.raw)
    ensures IsFieldKey(key) && ReadField(current, key).Throws? ==> d == Answer(TypeError)
    ensures IsFieldKey(key) && ReadField(current, key).ThroughTrap? ==> d == Answer(Forwarded(current.cell))
    ensures d.Answer? ==> !d.access.Inherited?
  {
    if key == Name("value") then Answer(CurrentValue(current))
    else if IsTargetKey(key) then Answer(TargetMember(key))
    else
      match ReadField(current, key)
      case Throws => Answer(TypeError)
      case ThroughTrap(c) => Answer(Forwarded(c))
      case Read(v) =>
        if IsReactiveValue(v) then Answer(Child(v.cell))
        else if key in memo then Answer(Child(memo[key]))
        else Create(v)
  }

  /** Names a plain object literal such as `{}` inherits from `Object.prototype`. */
  const ObjectPrototypeMembers: set<string> :=
    {"constructor", "hasOwnProperty", "isPrototypeOf", "propertyIsEnumerable",
     "toLocaleString", "toString", "valueOf", "__proto__",
     "__defineGetter__", "__defineSetter__", "__lookupGetter__", "__lookupSetter__"}

  /**
   * The `get` trap as written: the memo table is a plain `{}`, so the test
   * `wrappedPropsContainer[key] === undefined` finds the inherited member
   * for a key such as "toString", and that member is returned instead of a
   * new child cell.
   */
  function LookupAsWritten(current: Value, memo: map<Key, Cell>, key: Key): (d: Decision)
    ensures !(key.Name? && key.name in ObjectPrototypeMembers) ==> d == Lookup(current, memo, key)
    ensures d.Create? ==> Lookup(current, memo, key) == d
  {
    var intended := Lookup(current, memo, key);
    if intended.Create? && key.Name? && key.name in ObjectPrototypeMembers then Answer(Inherited(key.name))
    else intended
  }

  /** Reading a field named like an `Object.prototype` member, on a value whose own field holds 1. */
  lemma AsWrittenValueOfIsNotACell(o: RawObject)
    requires o.fields == map["valueOf" := Num(1)]
    ensures Lookup(Obj(o), map[], Name("valueOf")) == Create(Num(1))
    ensures LookupAsWritten(Obj(o), map[], Name("valueOf")) == Answer(Inherited("valueOf"))
  {
  }

  /** Whenever the intended trap would create a child for such a key, the code as written returns the inherited member. */
  lemma AsWrittenMissesPrototypeNames(current: Value, memo: map<Key, Cell>, name: string)
    requires name in ObjectPrototypeMembers && Lookup(current, memo, Name(name)).Create?
    ensures LookupAsWritten(current, memo, Name(name)) == Answer(Inherited(name))
    ensures !LookupAsWritten(current, memo, Name(name)).access.Child?
  {
  }

  /**
   * Identity stability: after a read that created a child and stored it in
   * the memo, reading the same key again yields that child; any other read
   * leaves the memo alone and yields the same answer again.
   */
  lemma ReadTwiceSameAnswer(current: Value, memo: map<Key, Cell>, key: Key, child: Cell)
    ensures var d := Lookup(current, memo, key);
            var memo' := if d.Create? then memo[key := child] else memo;
            Lookup(current, memo', key) == if d.Create? then Answer(Child(child)) else d
  {
  }

  /**
   * The memo is never invalidated: once a key has a child, any later value of
   * the parent whose field is not itself reactive still yields that child.
   */
  lemma MemoSurvivesReplacement(newCurrent: Value, memo: map<Key, Cell>, key: Key)
    requires IsFieldKey(key) && key in memo
    requires newCurrent != Undefined && newCurrent != Null && !newCurrent.Reactive?
    requires !IsReactiveValue(ReadField(newCurrent, key).value)
    ensures Lookup(newCurrent, memo, key) == Answer(Child(memo[key]))
  {
  }

  /** A subscriber. JavaScript compares callbacks by reference, so a callback is an object with nothing but its identity. */
  class Callback {
    constructor ()
    {
    }
  }

  /** One call of a subscriber, with its argument. */
  datatype Notification = Notification(callback: Callback, arg: Value)

  /** The calls `set` makes: every subscriber, in set order, with the new value. */
  function Notify(subscribers: seq<Callback>, v: Value): (calls: seq<Notification>)
    ensures |calls| == |subscribers|
    ensures forall i :: 0 <= i < |calls| ==> calls[i] == Notification(subscribers[i], v)
  {
    if subscribers == [] then []
    else Notify(subscribers[..|subscribers| - 1], v) + [Notification(subscribers[|subscribers| - 1], v)]
  }

  /**
   * Each registered subscriber is called exactly once, and only registered
   * subscribers are called, all with the new value.
   */
  lemma NotifyEachOnce(subscribers: seq<Callback>, v: Value)
    requires OrderedSet.Distinct(subscribers)
    ensures OrderedSet.Distinct(Notify(subscribers, v))
    ensures forall n :: n in Notify(subscribers, v) ==> n.callback in subscribers && n.arg == v
    ensures forall cb :: cb in subscribers ==> Notification(cb, v) in Notify(subscribers, v)
  {
  }

  /** After a callback is unsubscribed, a `set` no longer calls it, and still calls every other subscriber. */
  lemma UnsubscribedNotNotified(subscribers: seq<Callback>, cb: Callback, v: Value)
    ensures forall n :: n in Notify(OrderedSet.Delete(subscribers, cb), v) ==> n.callback != cb
    ensures forall other :: other in subscribers && other != cb ==> Notification(other, v) in Notify(OrderedSet.Delete(subscribers, cb), v)
  {
  }

  /** The function a call of `subscribe` returns: it removes exactly this registration. */
  datatype Unsubscriber = Unsubscriber(cell: Cell, callback: Callback)

  /**
   * A reactive cell: the wrapper `wrapReactive` builds. `current` is the
   * stable value container, `subscribers` the subscriber set, `memo` the
   * table of child cells made for field keys.
   */
  class Cell {
    var current: Value
    var subscribers: seq<Callback>
    var memo: map<Key, Cell>

    /** The subscriber set holds each callback once. */
    ghost predicate Valid()
      reads this`subscribers
    {
      OrderedSet.Distinct(subscribers)
    }

    constructor (v: Value)
      ensures current == v && subscribers == [] && memo == map[]
      ensures Valid()
    {
      current := v;
      subscribers := [];
      memo := map[];
    }

    /** `get()`: the current value, with no side effect. */
    method Get() returns (v: Value)
      ensures v == current
    {
      v := current;
    }

    /**
     * `set(newValue)`: a value identical to the current one changes nothing
     * and calls nobody; any other value is stored and every subscriber is
     * called with it, in set order.
     */
    method Set(v: Value) returns (calls: seq<Notification>)
      modifies this`current
      ensures current == v
      ensures calls == if old(current) == v then [] else Notify(subscribers, v)
    {
      if current == v {
        return [];
      }
      current := v;
      calls := [];
      for i := 0 to |subscribers|
        invariant calls == Notify(subscribers[..i], v)
      {
        assert subscribers[..i + 1][..i] == subscribers[..i];
        calls := calls + [Notification(subscribers[i], v)];
      }
      assert subscribers[..|subscribers|] == subscribers;
    }

    /** `subscribe(callback)`: adds the callback to the set and returns its unsubscriber. */
    method Subscribe(cb: Callback) returns (unsubscribe: Unsubscriber)
      requires Valid()
      modifies this`subscribers
      ensures Valid()
      ensures subscribers == OrderedSet.Add(old(subscribers), cb)
      ensures unsubscribe == Unsubscriber(this, cb)
    {
      unsubscribe := Unsubscriber(this, cb);
      subscribers := OrderedSet.Add(subscribers, cb);
    }

    /** The body of the unsubscriber: deletes the callback from the set. */
    method Unsubscribe(cb: Callback)
      requires Valid()
      modifies this`subscribers
      ensures Valid()
      ensures subscribers == OrderedSet.Delete(old(subscribers), cb)
    {
      subscribers := OrderedSet.Delete(subscribers, cb);
    }

    /**
     * The proxy's `get` trap: `value` reads the current value, the target's
     * own members are returned as they are, and any other key is a field of
     * the current value, answered by `Lookup`: a child cell is made from the
     * field's raw value on the first read of that key and memoized.
     */
    method PropertyGet(key: Key) returns (a: Access)
      modifies this`memo
      ensures var d := Lookup(current, old(memo), key);
              (d.Answer? ==> a == d.access && memo == old(memo))
              && (d.Create? ==> a.Child? && fresh(a.cell) && a.cell.current == d.raw
                                && a.cell.subscribers == [] && a.cell.memo == map[]
                                && memo == old(memo)[key := a.cell])
    {
      if key == Name("value") {
        return CurrentValue(current);
      }
      if key == Name("get") || key == Name("set") || key == Name("subscribe")
         || key == SubscribersTag || key == ReactiveTag {
        return TargetMember(key);
      }
      match ReadField(current, key)
      case Throws =>
        a := TypeError;
      case ThroughTrap(c) =>
        a := Forwarded(c);
      case Read(v) =>
        if IsReactiveValue(v) {
          a := Child(v.cell);
        } else {
          if key !in memo {
            var child := Wrap(v);
            memo := memo[key := child];
          }
          a := Child(memo[key]);
        }
    }

    /**
     * The proxy's `set` trap: assigning `value` is `set`; assigning any other
     * key is refused and changes nothing.
     */
    method PropertySet(key: Key, v: Value) returns (accepted: bool, calls: seq<Notification>)
      modifies this`current
      ensures accepted <==> key == Name("value")
      ensures accepted ==> current == v && calls == if old(current) == v then [] else Notify(subscribers, v)
      ensures !accepted ==> current == old(current) && calls == []
    {
      if key == Name("value") {
        calls := Set(v);
        accepted := true;
      } else {
        accepted, calls := false, [];
      }
    }
  }

  /** `wrapReactive`: a wrapper is returned as it is; any other value gets a new cell. */
  method Wrap(v: Value) returns (c: Cell)
    ensures IsReactiveValue(v) ==> c == v.cell
    ensures !IsReactiveValue(v) ==> fresh(c) && c.current == v && c.subscribers == [] && c.memo == map[]
  {
    if IsReactiveValue(v) {
      return v.cell;
    }
    c := new Cell(v);
  }

  /** Wrapping is idempotent: wrapping a wrapper yields the wrapper, so wrappers never nest. */
  method WrapTwice(v: Value) returns (first: Cell, second: Cell)
    ensures second == first
    ensures !first.current.Reactive? || IsReactiveValue(v)
  {
    first := Wrap(v);
    second := Wrap(Reactive(first));
  }

  /** Reading the same key twice yields the identical answer, in particular the identical child cell. */
  method ReadFieldTwice(c: Cell, key: Key) returns (first: Access, second: Access)
    modifies c`memo
    ensures second == first
  {
    ghost var memo0 := c.memo;
    first := c.PropertyGet(key);
    ReadTwiceSameAnswer(c.current, memo0, key, if first.Child? then first.cell else c);
    second := c.PropertyGet(key);
  }

  /** The sources' current values, one `get()` per source, in order. */
  function Values(deps: seq<Cell>): (vs: seq<Value>)
    reads deps`current
    ensures |vs| == |deps|
    ensures forall i :: 0 <= i < |deps| ==> vs[i] == deps[i].current
  {
    if deps == [] then [] else [deps[0].current] + Values(deps[1..])
  }

  /** The first argument of `from`: one cell or an array of cells. */
  datatype Sources = One(cell: Cell) | Many(cells: seq<Cell>)

  /** The sources of `from` as a list: an array is used as it is, a single cell becomes a one-element list. */
  function DependencyList(sources: Sources): (deps: seq<Cell>)
    ensures sources.One? ==> deps == [sources.cell]
    ensures sources.Many? ==> deps == sources.cells
  {
    match sources
    case One(c) => [c]
    case Many(cs) => cs
  }

  /**
   * A derived value: its sources, the `process` function, the cell `from`
   * returns, and the recompute callback it subscribed to each source
   * (`callbacks[i]` to `deps[i]`; `from` makes a new closure per source).
   */
  datatype Derived = Derived(deps: seq<Cell>, process: seq<Value> -> Value, target: Cell, callbacks: seq<Callback>)

  /** The derived cell holds `process` over the sources' current values. */
  ghost predicate Consistent(d: Derived)
    reads d.target`current, d.deps`current
  {
    d.target.current == d.process(Values(d.deps))
  }

  /** The callbacks among `cbs` registered on `c`, in registration order. */
  ghost function CallbacksOn(c: Cell, deps: seq<Cell>, cbs: seq<Callback>): seq<Callback>
    requires |deps| == |cbs|
  {
    if deps == [] then []
    else CallbacksOn(c, deps[..|deps| - 1], cbs[..|cbs| - 1])
         + (if deps[|deps| - 1] == c then [cbs[|cbs| - 1]] else [])
  }

  /** Registering one more callback on `deps[|cbs|]` extends that cell's registrations by it and leaves every other cell's alone. */
  lemma CallbacksOnStep(c: Cell, deps: seq<Cell>, cbs: seq<Callback>, cb: Callback, initial: seq<Callback>, before: seq<Callback>, after: seq<Callback>)
    requires |cbs| < |deps|
    requires before == initial + CallbacksOn(c, deps[..|cbs|], cbs)
    requires after == if deps[|cbs|] == c then before + [cb] else before
    ensures after == initial + CallbacksOn(c, deps[..|cbs| + 1], cbs + [cb])
  {
    var i := |cbs|;
    assert deps[..i + 1][..i] == deps[..i];
    assert (cbs + [cb])[..i] == cbs;
  }

  /**
   * `from(dependencies, process)`: the derived cell starts as `process` over
   * the sources' current values (a result that is already a wrapper is used
   * as the derived cell itself), and a new recompute callback is subscribed
   * to every source, in order.
   */
  method From(sources: Sources, process: seq<Value> -> Value) returns (d: Derived)
    requires forall c :: c in DependencyList(sources) ==> c.Valid()
    modifies DependencyList(sources)`subscribers
    ensures d.deps == DependencyList(sources)
    ensures forall vs :: d.process(vs) == process(vs)
    ensures var initial := process(Values(d.deps));
            (IsReactiveValue(initial) ==> d.target == initial.cell)
            && (!IsReactiveValue(initial) ==> fresh(d.target) && d.target.current == initial
                                              && d.target.subscribers == [] && d.target.memo == map[]
                                              && Consistent(d))
    ensures |d.callbacks| == |d.deps| && OrderedSet.Distinct(d.callbacks)
    ensures forall i :: 0 <= i < |d.callbacks| ==> fresh(d.callbacks[i])
    ensures forall c :: c in d.deps ==> c.Valid() && c.subscribers == old(c.subscribers) + CallbacksOn(c, d.deps, d.callbacks)
  {
    var deps := DependencyList(sources);
    var initial := process(Values(deps));
    var target := Wrap(initial);
    var cbs := SubscribeEach(deps);
    d := Derived(deps, process, target, cbs);
  }

  /** A new closure, subscribed to `c`: it is fresh, so it goes last in the set. */
  method SubscribeNew(c: Cell) returns (cb: Callback)
    requires c.Valid()
    modifies c`subscribers
    ensures fresh(cb) && c.Valid() && c.subscribers == old(c.subscribers) + [cb]
  {
    cb := new Callback();
    var _ := c.Subscribe(cb);
  }

  /** The loop of `from`: a new callback for each source, subscribed to it. */
  method SubscribeEach(deps: seq<Cell>) returns (cbs: seq<Callback>)
    requires forall c :: c in deps ==> c.Valid()
    modifies deps`subscribers
    ensures |cbs| == |deps| && OrderedSet.Distinct(cbs)
    ensures forall i :: 0 <= i < |cbs| ==> fresh(cbs[i])
    ensures forall c :: c in deps ==> c.Valid() && c.subscribers == old(c.subscribers) + CallbacksOn(c, deps, cbs)
  {
    cbs := [];
    for i := 0 to |deps|
      invariant |cbs| == i
      invariant OrderedSet.Distinct(cbs)
      invariant forall j :: 0 <= j < i ==> fresh(cbs[j])
      invariant forall c :: c in deps ==> c.Valid() && c.subscribers == old(c.subscribers) + CallbacksOn(c, deps[..i], cbs)
    {
      label Before:
      var cb := SubscribeNew(deps[i]);
      forall c | c in deps
        ensures c.subscribers == old(c.subscribers) + CallbacksOn(c, deps[..i + 1], cbs + [cb])
      {
        CallbacksOnStep(c, deps, cbs, cb, old(c.subscribers), old@Before(c.subscribers), c.subscribers);
      }
      cbs := cbs + [cb];
    }
    assert deps[..|deps|] == deps;
  }

  /**
   * The callback `from` subscribes to each source: the derived cell is set
   * to `process` over the current values of all sources, not only the one
   * that changed, and notifies its own subscribers if that changes it.
   */
  method Recompute(d: Derived) returns (calls: seq<Notification>)
    modifies d.target`current
    ensures d.target.current == d.process(old(Values(d.deps)))
    ensures calls == if old(d.target.current) == d.target.current then [] else Notify(d.target.subscribers, d.target.current)
    ensures d.target !in d.deps ==> Consistent(d)
  {
    calls := d.target.Set(d.process(Values(d.deps)));
  }
}
