/** The live element strategy (`NgElementumStrategy`): it creates the component on the
    first `connect`, destroys it in a microtask after `disconnect`, reads signals
    through `getValue` and writes through `setValue`. Values written while no
    component exists are dropped; the custom element keeps them in its own cache. */
module ComponentStrategy {
  import opened Wrappers
  import opened Framework
  import OrderedMap
  import opened ElementStrategy
  import Utils

  /** What `getValue` returns: a signal's current value, or the `UNAVAILABLE` symbol. */
  datatype Readout = Unavailable | Available(v: Value)

  /** `initializeComponent`: a fresh component whose instance starts with the members
      the component type declares, its outputs subscribed, its view attached and
      checked, the application's lists extended and the bootstrap listeners called. */
  function Initialize(s: State, mirror: Mirror): (r: State)
    ensures IsCreation(s, r, mirror.componentType)
    ensures r.instance == mirror.members && r.initialInputValues == s.initialInputValues
    ensures |r.calls| > |s.calls| && r.calls[..|s.calls|] == s.calls
    ensures r.calls[|s.calls|] == CreateComponent(s.nextId) && r.calls[|r.calls| - 1] == BootstrapListeners(s.nextId)
  {
    var id := s.nextId;
    s.(component := Some(id),
       nextId := id + 1,
       instance := mirror.members,
       components := s.components + [id],
       componentTypes := s.componentTypes + [mirror.componentType],
       calls := s.calls + [CreateComponent(id)] + Subscriptions(id, mirror.outputs)
                + [AttachView(id), DetectChanges(id), BootstrapListeners(id)])
  }

  /** `getValue` on the state: only a signal that is not an input with a transform can
      be read, and only while a component exists. */
  function Read(s: State, property: string): (r: Readout)
    ensures r.Available? <==>
              s.component.Some? && property in s.instance && s.instance[property].Signal?
              && !s.instance[property].withTransform
    ensures r.Available? ==> r.v == s.instance[property].value
  {
    if s.component.Some? && property in s.instance then
      match s.instance[property]
      case Signal(v, _, withTransform) => if withTransform then Unavailable else Available(v)
      case Field(_) => Unavailable
    else Unavailable
  }

  /** Whether `setValue` writes at all: a component exists and the property is a
      declared input or a writable signal of the instance. */
  predicate Writes(s: State, mirror: Mirror, property: string) {
    s.component.Some? &&
    (IsDeclaredInput(mirror.inputs, property) || IsWritableSignal(MemberOf(s.instance, property)))
  }

  /** `setValue`: `setInput` for a declared input, `set` for a writable signal,
      nothing otherwise; `isViewDirty` is the framework's answer after the write. */
  function WriteValue(s: State, mirror: Mirror, inputMap: map<string, string>,
                    isViewDirty: (string, Value) -> bool, property: string, value: Value): State
  {
    if s.component.None? then s
    else
      var id := s.component.value;
      if IsDeclaredInput(mirror.inputs, property) then
        var name := InputName(inputMap, property);
        Refresh(s.(instance := SetInputEffect(s.instance, mirror.inputs, name, value),
                   calls := s.calls + [SetInput(id, name, value)]),
                id, isViewDirty(property, value))
      else if IsWritableSignal(MemberOf(s.instance, property)) then
        Refresh(s.(instance := s.instance[property := s.instance[property].(value := value)]),
                id, isViewDirty(property, value))
      else s
  }

  /** Without a component, `setValue` changes nothing and caches nothing. */
  lemma SetValueDetached(s: State, mirror: Mirror, inputMap: map<string, string>,
                         isViewDirty: (string, Value) -> bool, property: string, value: Value)
    requires s.component.None?
    ensures WriteValue(s, mirror, inputMap, isViewDirty, property, value) == s
  {
  }

  /** The calls `setValue` makes: `setInput` (with the template name) for a declared
      input, none for a signal write; then, after any write and only if the view is
      dirty, one `markForRefresh` and exactly one scheduler notification. The lifecycle
      part of the state is never touched. */
  lemma SetValueCalls(s: State, mirror: Mirror, isViewDirty: (string, Value) -> bool,
                      property: string, value: Value)
    ensures var r := WriteValue(s, mirror, InputMap(mirror.inputs), isViewDirty, property, value);
            var notify := if Writes(s, mirror, property) && isViewDirty(property, value)
                          then [MarkForRefresh(s.component.value), NotifyScheduler] else [];
            && r.component == s.component && r.scheduledDestroy == s.scheduledDestroy
            && r.queuedTeardowns == s.queuedTeardowns && r.components == s.components
            && r.componentTypes == s.componentTypes && r.nextId == s.nextId
            && (s.component.Some? && IsDeclaredInput(mirror.inputs, property) ==>
                  exists j :: 0 <= j < |mirror.inputs| && mirror.inputs[j].propName == property
                    && r.calls == s.calls + [SetInput(s.component.value, mirror.inputs[j].templateName, value)] + notify)
            && (!(s.component.Some? && IsDeclaredInput(mirror.inputs, property)) ==> r.calls == s.calls + notify)
            && multiset(r.calls[|s.calls|..])[NotifyScheduler] == if |notify| > 0 then 1 else 0
  {
    var inputMap := InputMap(mirror.inputs);
    var r := WriteValue(s, mirror, inputMap, isViewDirty, property, value);
    if s.component.Some? && IsDeclaredInput(mirror.inputs, property) {
      var j := LastDeclaring(mirror.inputs, property);
      InputMapLookup(mirror.inputs, j);
      var id := s.component.value;
      var notify := if isViewDirty(property, value) then [MarkForRefresh(id), NotifyScheduler] else [];
      assert r.calls == s.calls + [SetInput(id, mirror.inputs[j].templateName, value)] + notify;
      assert r.calls[|s.calls|..] == [SetInput(id, mirror.inputs[j].templateName, value)] + notify;
    } else {
      assert r.calls[|s.calls|..] == r.calls[|s.calls|..];
    }
  }

  /** The index of the last input declaring `property`. */
  lemma LastDeclaring(inputs: seq<InputDesc>, property: string) returns (j: nat)
    requires IsDeclaredInput(inputs, property)
    ensures j < |inputs| && inputs[j].propName == property
    ensures forall l :: j < l < |inputs| ==> inputs[l].propName != property
  {
    var i :| 0 <= i < |inputs| && inputs[i].propName == property;
    j := i;
    while j + 1 < |inputs| && exists l :: j < l < |inputs| && inputs[l].propName == property
      invariant j < |inputs| && inputs[j].propName == property
      decreases |inputs| - j
    {
      var l :| j < l < |inputs| && inputs[l].propName == property;
      j := l;
    }
  }

  /** Writing a writable signal that is not a declared input is read back by `getValue`
      when the signal has no transform. */
  lemma SetSignalThenRead(s: State, mirror: Mirror, isViewDirty: (string, Value) -> bool,
                          property: string, value: Value)
    requires s.component.Some? && !IsDeclaredInput(mirror.inputs, property)
    requires IsWritableSignal(MemberOf(s.instance, property)) && !s.instance[property].withTransform
    ensures Read(WriteValue(s, mirror, InputMap(mirror.inputs), isViewDirty, property, value), property) == Available(value)
  {
  }

  /** Writing a declared signal input is read back by `getValue` when the input has no
      transform and its property and public name are declared once. */
  lemma SetInputThenRead(s: State, mirror: Mirror, isViewDirty: (string, Value) -> bool,
                         j: nat, value: Value)
    requires s.component.Some? && j < |mirror.inputs|
    requires forall l :: 0 <= l < |mirror.inputs| && l != j ==>
               mirror.inputs[l].propName != mirror.inputs[j].propName
               && mirror.inputs[l].templateName != mirror.inputs[j].templateName
    requires mirror.inputs[j].transform.None?
    requires var p := mirror.inputs[j].propName; p in s.instance && s.instance[p].Signal? && !s.instance[p].withTransform
    ensures var p := mirror.inputs[j].propName;
            Read(WriteValue(s, mirror, InputMap(mirror.inputs), isViewDirty, p, value), p) == Available(value)
  {
    var inputs := mirror.inputs;
    var p := inputs[j].propName;
    InputMapLookup(inputs, j);
    var name := inputs[j].templateName;
    assert InputName(InputMap(inputs), p) == name;
    var input := InputNamed(inputs, name);
    assert input.Some?;
    var k :| 0 <= k < |inputs| && inputs[k] == input.value;
    assert k == j;
  }

  /** The strategy object. Its fields are the `State` of the lifecycle model, with the
      application's lists and identity counter kept in the shared `AppRef`. */
  class NgElementumStrategy {
    const mirror: Mirror
    const app: AppRef
    const inputMap: map<string, string>
    /** The framework's `isViewDirty` after `property` was written with `value`. */
    const isViewDirty: (string, Value) -> bool
    var componentRef: Option<nat>
    var scheduledDestroy: bool
    var queuedTeardowns: nat
    var instance: map<string, Member>
    var calls: seq<Call>

    function Model(): State
      reads this, app
    {
      State(componentRef, scheduledDestroy, queuedTeardowns, instance, [],
            app.nextComponentId, app.components, app.componentTypes, calls)
    }

    ghost predicate Valid()
      reads this, app
    {
      inputMap == InputMap(mirror.inputs) && Inv(Model(), mirror.componentType)
    }

    /** Fills `inputMap` from the declared inputs, in declaration order. */
    constructor (mirror: Mirror, app: AppRef, isViewDirty: (string, Value) -> bool)
      requires app.Valid()
      ensures this.mirror == mirror && this.app == app && this.isViewDirty == isViewDirty
      ensures Valid()
      ensures componentRef.None? && !scheduledDestroy && queuedTeardowns == 0 && instance == map[] && calls == []
    {
      var m := map[];
      for i := 0 to |mirror.inputs|
        invariant m == InputMap(mirror.inputs[..i])
      {
        assert mirror.inputs[..i + 1][..i] == mirror.inputs[..i];
        m := m[mirror.inputs[i].propName := mirror.inputs[i].templateName];
      }
      assert mirror.inputs[..|mirror.inputs|] == mirror.inputs;
      this.mirror := mirror;
      this.app := app;
      this.inputMap := m;
      this.isViewDirty := isViewDirty;
      componentRef := None;
      scheduledDestroy := false;
      queuedTeardowns := 0;
      instance := map[];
      calls := [];
    }

    method Connect()
      requires Valid()
      modifies this, app
      ensures Valid()
      ensures Model() == ElementStrategy.Connect(old(Model()), Initialize(old(Model()), mirror))
    {
      if scheduledDestroy {
        scheduledDestroy := false;
        return;
      }
      if componentRef.None? {
        ghost var s := Model();
        InitializeComponent();
        ConnectPreservesInv(s, Model(), mirror.componentType);
      }
    }

    method InitializeComponent()
      modifies this, app
      ensures Model() == Initialize(old(Model()), mirror)
    {
      var id := app.nextComponentId;
      app.nextComponentId := id + 1;
      componentRef := Some(id);
      instance := mirror.members;
      calls := calls + [CreateComponent(id)];
      InitializeOutputs(id);
      calls := calls + [AttachView(id), DetectChanges(id)];
      app.components := app.components + [id];
      app.componentTypes := app.componentTypes + [mirror.componentType];
      calls := calls + [BootstrapListeners(id)];
    }

    /** Subscribes to every output, in declaration order. */
    method InitializeOutputs(id: nat)
      modifies this`calls
      ensures calls == old(calls) + Subscriptions(id, mirror.outputs)
    {
      for i := 0 to |mirror.outputs|
        invariant calls == old(calls) + Subscriptions(id, mirror.outputs[..i])
      {
        var output := mirror.outputs[i];
        assert Subscriptions(id, mirror.outputs[..i + 1])
            == Subscriptions(id, mirror.outputs[..i]) + [Subscribe(id, output.propName, Utils.CamelToDashCase(output.templateName))];
        calls := calls + [Subscribe(id, output.propName, Utils.CamelToDashCase(output.templateName))];
      }
      assert mirror.outputs[..|mirror.outputs|] == mirror.outputs;
    }

    method Disconnect()
      requires Valid()
      modifies this`scheduledDestroy, this`queuedTeardowns
      ensures Valid()
      ensures Model() == ElementStrategy.Disconnect(old(Model()))
    {
      if componentRef.None? || scheduledDestroy {
        return;
      }
      scheduledDestroy := true;
      queuedTeardowns := queuedTeardowns + 1;
    }

    /** The teardown closure `disconnect` queued, run as the next microtask. */
    method RunTeardown()
      requires Valid() && queuedTeardowns > 0
      modifies this, app
      ensures Valid()
      ensures Model() == Teardown(old(Model()), mirror.componentType)
    {
      ghost var s := Model();
      TeardownPreservesInv(s, mirror.componentType);
      queuedTeardowns := queuedTeardowns - 1;
      if !scheduledDestroy {
        return;
      }
      scheduledDestroy := false;
      if componentRef.Some? {
        var id := componentRef.value;
        calls := calls + [DestroyComponent(id)];
        app.components := SpliceOut(app.components, id);
        app.componentTypes := SpliceOut(app.componentTypes, mirror.componentType);
        componentRef := None;
      }
    }

    /** Runs the queued microtasks until the queue is empty. */
    method RunMicrotasks()
      requires Valid()
      modifies this, app
      ensures Valid()
      ensures Model() == Drain(old(Model()), mirror.componentType)
    {
      while queuedTeardowns > 0
        invariant Valid()
        invariant Drain(Model(), mirror.componentType) == Drain(old(Model()), mirror.componentType)
        decreases queuedTeardowns
      {
        RunTeardown();
      }
    }

    /** `getValue`. */
    function GetValue(property: string): (r: Readout)
      reads this, app
      ensures componentRef.Some? ==> r == Read(Model(), property)
      ensures componentRef.None? ==> r == Unavailable
    {
      var member := if componentRef.Some? then MemberOf(instance, property) else None;
      if IsInputWithTransform(member) then Unavailable
      else if member.Some? && member.value.Signal? then Available(member.value.value)
      else Unavailable
    }

    method SetValue(property: string, value: Value)
      requires Valid()
      modifies this`instance, this`calls
      ensures Valid()
      ensures Model() == WriteValue(old(Model()), mirror, inputMap, isViewDirty, property, value)
    {
      if componentRef.None? {
        return;
      }
      var id := componentRef.value;
      if IsDeclaredInput(mirror.inputs, property) {
        var name := if property in inputMap then inputMap[property] else property;
        instance := SetInputEffect(instance, mirror.inputs, name, value);
        calls := calls + [SetInput(id, name, value)];
      } else if IsWritableSignal(MemberOf(instance, property)) {
        instance := instance[property := instance[property].(value := value)];
      } else {
        return;
      }
      if isViewDirty(property, value) {
        calls := calls + [MarkForRefresh(id), NotifyScheduler];
      }
    }

    /** `applyMethod`: calls the component's method, or throws when there is no component. */
    function ApplyMethod(methodName: string, args: seq<Value>): (r: Result<Invocation, string>)
      reads this
      ensures r.Failure? <==> componentRef.None?
      ensures r.Failure? ==> r.error == "Component is detached from DOM"
      ensures r.Success? ==> r.value == Invocation(componentRef.value, methodName, args)
    {
      match componentRef
      case None => Failure("Component is detached from DOM")
      case Some(id) => Success(Invocation(id, methodName, args))
    }
  }
}
