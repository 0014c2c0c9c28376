/** The older element strategy (`ComponentNgElementumStrategy`). Its lifecycle is the
    live strategy's; it differs in what it does with values written before the
    component exists: it keeps them in `initialInputValues` and replays them through
    `setInputValue` when the component is created. */
module ComponentFactoryStrategy {
  import opened Wrappers
  import opened Framework
  import OrderedMap
  import opened ElementStrategy
  import Utils

  /** `setInputValue`: without a component the value is cached under the property (a
      later write to the same property replaces the value and keeps its place); with a
      component it goes to `setInput` under the template name, and the view is marked
      for refresh and the scheduler notified when the framework reports it dirty. */
  function WriteInput(s: State, mirror: Mirror, inputMap: map<string, string>,
                      isViewDirty: (string, Value) -> bool, property: string, value: Value): State
  {
    match s.component
    case None => s.(initialInputValues := OrderedMap.Put(s.initialInputValues, property, value))
    case Some(id) =>
      var name := InputName(inputMap, property);
      Refresh(s.(instance := SetInputEffect(s.instance, mirror.inputs, name, value),
                 calls := s.calls + [SetInput(id, name, value)]),
              id, isViewDirty(property, value))
  }

  /** `getInputValue`: the cached value (undefined when there is none) before the
      component exists, afterwards the member's value, read through the signal if it is
      one. */
  function ReadInput(s: State, property: string): Value {
    match s.component
    case None => OrderedMap.Get(s.initialInputValues, property).GetOr(Undefined)
    case Some(_) =>
      match MemberOf(s.instance, property)
      case None => Undefined
      case Some(Field(v)) => v
      case Some(Signal(v, _, _)) => v
  }

  /** The writes of `entries`, one after another in iteration order. */
  function Replay(s: State, mirror: Mirror, inputMap: map<string, string>,
                  isViewDirty: (string, Value) -> bool, entries: OrderedMap.Entries<Value>): State
  {
    if entries == [] then s
    else
      var last := entries[|entries| - 1];
      WriteInput(Replay(s, mirror, inputMap, isViewDirty, entries[..|entries| - 1]),
                 mirror, inputMap, isViewDirty, last.0, last.1)
  }

  /** `initializeComponent`: a fresh component, the cached inputs replayed into it and
      the cache cleared, then the outputs subscribed, the view attached and checked and
      the application's lists extended. Unlike the live strategy it calls no bootstrap
      listener. */
  function Initialize(s: State, mirror: Mirror, inputMap: map<string, string>,
                      isViewDirty: (string, Value) -> bool): (r: State)
    ensures IsCreation(s, r, mirror.componentType)
    ensures r.initialInputValues == []
  {
    var id := s.nextId;
    ReplayLifecycle(Created(s, mirror), mirror, inputMap, isViewDirty, s.initialInputValues);
    var replayed := Replay(Created(s, mirror), mirror, inputMap, isViewDirty, s.initialInputValues);
    replayed.(initialInputValues := [],
              calls := replayed.calls + (Subscriptions(id, mirror.outputs) + [AttachView(id), DetectChanges(id)]),
              components := replayed.components + [id],
              componentTypes := replayed.componentTypes + [mirror.componentType])
  }

  /** The state right after `createComponent`, before anything is replayed into it. */
  function Created(s: State, mirror: Mirror): State {
    s.(component := Some(s.nextId), nextId := s.nextId + 1, instance := mirror.members,
       calls := s.calls + [CreateComponent(s.nextId)])
  }

  /** The `setInput` calls of a trace, in order. */
  function SetInputsIn(calls: seq<Call>): seq<Call> {
    if calls == [] then []
    else (if calls[0].SetInput? then [calls[0]] else []) + SetInputsIn(calls[1..])
  }

  lemma {:induction false} SetInputsInAppend(a: seq<Call>, b: seq<Call>)
    ensures SetInputsIn(a + b) == SetInputsIn(a) + SetInputsIn(b)
  {
    if a == [] {
      assert a + b == b;
    } else {
      assert (a + b)[0] == a[0] && (a + b)[1..] == a[1..] + b;
      SetInputsInAppend(a[1..], b);
    }
  }

  /** Replaying into a live component touches neither the lifecycle nor the cache, and
      only appends to the trace. */
  lemma {:induction false} ReplayLifecycle(s: State, mirror: Mirror, inputMap: map<string, string>,
                                           isViewDirty: (string, Value) -> bool, entries: OrderedMap.Entries<Value>)
    requires s.component.Some?
    ensures var r := Replay(s, mirror, inputMap, isViewDirty, entries);
            && r.component == s.component && r.scheduledDestroy == s.scheduledDestroy
            && r.queuedTeardowns == s.queuedTeardowns && r.nextId == s.nextId
            && r.components == s.components && r.componentTypes == s.componentTypes
            && r.initialInputValues == s.initialInputValues
            && |r.calls| >= |s.calls| && r.calls[..|s.calls|] == s.calls
  {
    if entries != [] {
      ReplayLifecycle(s, mirror, inputMap, isViewDirty, entries[..|entries| - 1]);
    }
  }

  /** Replaying one more entry is one more `WriteInput`. */
  lemma ReplaySnoc(s: State, mirror: Mirror, inputMap: map<string, string>,
                   isViewDirty: (string, Value) -> bool, entries: OrderedMap.Entries<Value>, e: (string, Value))
    ensures Replay(s, mirror, inputMap, isViewDirty, entries + [e])
         == WriteInput(Replay(s, mirror, inputMap, isViewDirty, entries), mirror, inputMap, isViewDirty, e.0, e.1)
  {
    assert (entries + [e])[..|entries|] == entries;
  }

  /** The `setInput` calls replaying `entries` into component `id` should make. */
  function ReplayedInputs(id: nat, inputMap: map<string, string>, entries: OrderedMap.Entries<Value>): seq<Call> {
    seq(|entries|, i requires 0 <= i < |entries| => SetInput(id, InputName(inputMap, entries[i].0), entries[i].1))
  }

  /** With a component, one write appends one `setInput` call and, if the view is dirty,
      the refresh calls. */
  lemma WriteInputLive(s: State, mirror: Mirror, inputMap: map<string, string>,
                       isViewDirty: (string, Value) -> bool, property: string, value: Value)
    requires s.component.Some?
    ensures var r := WriteInput(s, mirror, inputMap, isViewDirty, property, value);
            var id := s.component.value;
            r.calls == s.calls + [SetInput(id, InputName(inputMap, property), value)]
                       + (if isViewDirty(property, value) then [MarkForRefresh(id), NotifyScheduler] else [])
  {
  }

  /** Appending one `setInput` call and refresh calls adds exactly that call to the
      `setInput` calls after position `k`. */
  lemma SetInputsInSnoc(a: seq<Call>, k: nat, call: Call, notify: seq<Call>)
    requires k <= |a| && call.SetInput? && forall c :: c in notify ==> !c.SetInput?
    ensures SetInputsIn((a + [call] + notify)[k..]) == SetInputsIn(a[k..]) + [call]
  {
    assert (a + [call] + notify)[k..] == a[k..] + ([call] + notify);
    SetInputsInAppend(a[k..], [call] + notify);
    SetInputsInAppend([call], notify);
    assert SetInputsIn([call]) == [call];
    SetInputsInNone(notify);
  }

  lemma {:induction false} SetInputsInNone(calls: seq<Call>)
    requires forall c :: c in calls ==> !c.SetInput?
    ensures SetInputsIn(calls) == []
  {
    if calls != [] {
      assert calls[0] in calls;
      assert forall c :: c in calls[1..] ==> c in calls;
      SetInputsInNone(calls[1..]);
    }
  }

  lemma ReplayedInputsSnoc(id: nat, inputMap: map<string, string>, entries: OrderedMap.Entries<Value>)
    requires entries != []
    ensures var n := |entries| - 1;
            ReplayedInputs(id, inputMap, entries)
            == ReplayedInputs(id, inputMap, entries[..n]) + [SetInput(id, InputName(inputMap, entries[n].0), entries[n].1)]
  {
  }

  /** `initializeInputs` hands every cached value to `setInput`, once each and in the
      cache's insertion order, under the input's template name. */
  lemma {:induction false} ReplayOrder(s: State, mirror: Mirror, isViewDirty: (string, Value) -> bool,
                                       entries: OrderedMap.Entries<Value>)
    requires s.component.Some?
    ensures var r := Replay(s, mirror, InputMap(mirror.inputs), isViewDirty, entries);
            |r.calls| >= |s.calls| &&
            SetInputsIn(r.calls[|s.calls|..]) == ReplayedInputs(s.component.value, InputMap(mirror.inputs), entries)
  {
    var inputMap := InputMap(mirror.inputs);
    ReplayLifecycle(s, mirror, inputMap, isViewDirty, entries);
    if entries == [] {
      assert Replay(s, mirror, inputMap, isViewDirty, entries).calls[|s.calls|..] == [];
    } else {
      var id := s.component.value;
      var n := |entries| - 1;
      var init := entries[..n];
      ReplayOrder(s, mirror, isViewDirty, init);
      ReplayLifecycle(s, mirror, inputMap, isViewDirty, init);
      var p := Replay(s, mirror, inputMap, isViewDirty, init);
      WriteInputLive(p, mirror, inputMap, isViewDirty, entries[n].0, entries[n].1);
      var call := SetInput(id, InputName(inputMap, entries[n].0), entries[n].1);
      var notify := if isViewDirty(entries[n].0, entries[n].1) then [MarkForRefresh(id), NotifyScheduler] else [];
      SetInputsInSnoc(p.calls, |s.calls|, call, notify);
      ReplayedInputsSnoc(id, inputMap, entries);
    }
  }

  /** `initializeComponent` in order: the component is created first; then every cached
      value reaches `setInput` once, in the cache's insertion order; and only then are
      the outputs subscribed and the view attached and checked. */
  lemma InitializeReplaysInOrder(s: State, mirror: Mirror, isViewDirty: (string, Value) -> bool)
    ensures var r := Initialize(s, mirror, InputMap(mirror.inputs), isViewDirty);
            var id := s.nextId;
            var tail := Subscriptions(id, mirror.outputs) + [AttachView(id), DetectChanges(id)];
            && |r.calls| >= |s.calls| + 1 + |tail|
            && r.calls[..|s.calls| + 1] == s.calls + [CreateComponent(id)]
            && r.calls[|r.calls| - |tail|..] == tail
            && SetInputsIn(r.calls[|s.calls| + 1..|r.calls| - |tail|])
               == ReplayedInputs(id, InputMap(mirror.inputs), s.initialInputValues)
  {
    var inputMap := InputMap(mirror.inputs);
    var created := Created(s, mirror);
    ReplayLifecycle(created, mirror, inputMap, isViewDirty, s.initialInputValues);
    ReplayOrder(created, mirror, isViewDirty, s.initialInputValues);
    var replayed := Replay(created, mirror, inputMap, isViewDirty, s.initialInputValues);
    var id := s.nextId;
    SliceAround(replayed.calls, Subscriptions(id, mirror.outputs) + [AttachView(id), DetectChanges(id)], |created.calls|);
  }

  /** The parts of `x + y` around position `n` of `x`. */
  lemma SliceAround(x: seq<Call>, y: seq<Call>, n: nat)
    requires n <= |x|
    ensures (x + y)[..n] == x[..n]
    ensures (x + y)[n..|x + y| - |y|] == x[n..]
    ensures (x + y)[|x + y| - |y|..] == y
  {
  }

  /** Before the component exists, a write only fills the cache, and a read returns what
      was last written under that property; other properties read as before. */
  lemma CachedWriteThenRead(s: State, mirror: Mirror, inputMap: map<string, string>,
                            isViewDirty: (string, Value) -> bool, property: string, value: Value, other: string)
    requires s.component.None?
    ensures var r := WriteInput(s, mirror, inputMap, isViewDirty, property, value);
            && r == s.(initialInputValues := r.initialInputValues)
            && ReadInput(r, property) == value
            && (other != property ==> ReadInput(r, other) == ReadInput(s, other))
  {
  }

  /** The strategy object; `initialInputValues` is the cache of early writes. */
  class ComponentNgElementumStrategy {
    const mirror: Mirror
    const app: AppRef
    const inputMap: map<string, string>
    /** The framework's `isViewDirty` after `property` was written with `value`. */
    const isViewDirty: (string, Value) -> bool
    var componentRef: Option<nat>
    var scheduledDestroy: bool
    var queuedTeardowns: nat
    var instance: map<string, Member>
    var initialInputValues: OrderedMap.Entries<Value>
    var calls: seq<Call>

    function Model(): State
      reads this, app
    {
      State(componentRef, scheduledDestroy, queuedTeardowns, instance, initialInputValues,
            app.nextComponentId, app.components, app.componentTypes, calls)
    }

    ghost predicate Valid()
      reads this, app
    {
      inputMap == InputMap(mirror.inputs) && Inv(Model(), mirror.componentType)
    }

    /** Fills `inputMap` from the declared inputs, in declaration order. */
    constructor (mirror: Mirror, app: AppRef, isViewDirty: (string, Value) -> bool)
      requires app.Valid()
      ensures this.mirror == mirror && this.app == app && this.isViewDirty == isViewDirty
      ensures Valid()
      ensures componentRef.None? && !scheduledDestroy && queuedTeardowns == 0
      ensures initialInputValues == [] && calls == []
    {
      var m := map[];
      for i := 0 to |mirror.inputs|
        invariant m == InputMap(mirror.inputs[..i])
      {
        assert mirror.inputs[..i + 1][..i] == mirror.inputs[..i];
        m := m[mirror.inputs[i].propName := mirror.inputs[i].templateName];
      }
      assert mirror.inputs[..|mirror.inputs|] == mirror.inputs;
      this.mirror := mirror;
      this.app := app;
      this.inputMap := m;
      this.isViewDirty := isViewDirty;
      componentRef := None;
      scheduledDestroy := false;
      queuedTeardowns := 0;
      instance := map[];
      initialInputValues := [];
      calls := [];
    }

    method Connect()
      requires Valid()
      modifies this, app
      ensures Valid()
      ensures Model() == ElementStrategy.Connect(old(Model()), Initialize(old(Model()), mirror, inputMap, isViewDirty))
    {
      if scheduledDestroy {
        scheduledDestroy := false;
        return;
      }
      if componentRef.None? {
        ghost var s := Model();
        InitializeComponent();
        ConnectPreservesInv(s, Model(), mirror.componentType);
      }
    }

    method InitializeComponent()
      requires componentRef.None?
      modifies this, app
      ensures Model() == Initialize(old(Model()), mirror, inputMap, isViewDirty)
    {
      var id := app.nextComponentId;
      app.nextComponentId := id + 1;
      componentRef := Some(id);
      instance := mirror.members;
      calls := calls + [CreateComponent(id)];
      InitializeInputs();
      InitializeOutputs(id);
      calls := calls + [AttachView(id), DetectChanges(id)];
      app.components := app.components + [id];
      app.componentTypes := app.componentTypes + [mirror.componentType];
    }

    /** Replays every cached value through `setInputValue`, then empties the cache. */
    method InitializeInputs()
      requires componentRef.Some?
      modifies this`instance, this`calls, this`initialInputValues
      ensures Model() == Replay(old(Model()), mirror, inputMap, isViewDirty, old(initialInputValues)).(initialInputValues := [])
    {
      var entries := initialInputValues;
      for i := 0 to |entries|
        invariant componentRef.Some? && initialInputValues == entries
        invariant Model() == Replay(old(Model()), mirror, inputMap, isViewDirty, entries[..i])
      {
        SetInputValue(entries[i].0, entries[i].1);
        assert entries[..i + 1] == entries[..i] + [entries[i]];
        ReplaySnoc(old(Model()), mirror, inputMap, isViewDirty, entries[..i], entries[i]);
      }
      assert entries[..|entries|] == entries;
      initialInputValues := [];
    }

    /** Subscribes to every output, in declaration order. */
    method InitializeOutputs(id: nat)
      modifies this`calls
      ensures calls == old(calls) + Subscriptions(id, mirror.outputs)
    {
      for i := 0 to |mirror.outputs|
        invariant calls == old(calls) + Subscriptions(id, mirror.outputs[..i])
      {
        var output := mirror.outputs[i];
        assert Subscriptions(id, mirror.outputs[..i + 1])
            == Subscriptions(id, mirror.outputs[..i]) + [Subscribe(id, output.propName, Utils.CamelToDashCase(output.templateName))];
        calls := calls + [Subscribe(id, output.propName, Utils.CamelToDashCase(output.templateName))];
      }
      assert mirror.outputs[..|mirror.outputs|] == mirror.outputs;
    }

    method Disconnect()
      requires Valid()
      modifies this`scheduledDestroy, this`queuedTeardowns
      ensures Valid()
      ensures Model() == ElementStrategy.Disconnect(old(Model()))
    {
      if componentRef.None? || scheduledDestroy {
        return;
      }
      scheduledDestroy := true;
      queuedTeardowns := queuedTeardowns + 1;
    }

    /** The teardown closure `disconnect` queued, run as the next microtask. */
    method RunTeardown()
      requires Valid() && queuedTeardowns > 0
      modifies this, app
      ensures Valid()
      ensures Model() == Teardown(old(Model()), mirror.componentType)
    {
      ghost var s := Model();
      TeardownPreservesInv(s, mirror.componentType);
      queuedTeardowns := queuedTeardowns - 1;
      if !scheduledDestroy {
        return;
      }
      scheduledDestroy := false;
      if componentRef.Some? {
        var id := componentRef.value;
        calls := calls + [DestroyComponent(id)];
        app.components := SpliceOut(app.components, id);
        app.componentTypes := SpliceOut(app.componentTypes, mirror.componentType);
        componentRef := None;
      }
    }

    /** Runs the queued microtasks until the queue is empty. */
    method RunMicrotasks()
      requires Valid()
      modifies this, app
      ensures Valid()
      ensures Model() == Drain(old(Model()), mirror.componentType)
    {
      while queuedTeardowns > 0
        invariant Valid()
        invariant Drain(Model(), mirror.componentType) == Drain(old(Model()), mirror.componentType)
        decreases queuedTeardowns
      {
        RunTeardown();
      }
    }

    /** `getInputValue`. */
    function GetInputValue(property: string): (r: Value)
      reads this, app
      ensures r == ReadInput(Model(), property)
    {
      if componentRef.None? then
        OrderedMap.Get(initialInputValues, property).GetOr(Undefined)
      else if property !in instance then Undefined
      else if instance[property].Signal? then instance[property].value
      else instance[property].v
    }

    /** `setInputValue`. */
    method SetInputValue(property: string, value: Value)
      modifies this`instance, this`calls, this`initialInputValues
      ensures Model() == WriteInput(old(Model()), mirror, inputMap, isViewDirty, property, value)
    {
      if componentRef.None? {
        initialInputValues := OrderedMap.Put(initialInputValues, property, value);
        return;
      }
      var id := componentRef.value;
      var name := if property in inputMap then inputMap[property] else property;
      instance := SetInputEffect(instance, mirror.inputs, name, value);
      calls := calls + [SetInput(id, name, value)];
      if isViewDirty(property, value) {
        calls := calls + [MarkForRefresh(id), NotifyScheduler];
      }
    }

    /** `applyMethod`: calls the component's method, or throws when there is no component. */
    function ApplyMethod(methodName: string, args: seq<Value>): (r: Result<Invocation, string>)
      reads this
      ensures r.Failure? <==> componentRef.None?
      ensures r.Failure? ==> r.error == "Component is detached from DOM"
      ensures r.Success? ==> r.value == Invocation(componentRef.value, methodName, args)
    {
      match componentRef
      case None => Failure("Component is detached from DOM")
      case Some(id) => Success(Invocation(id, methodName, args))
    }
  }
}
