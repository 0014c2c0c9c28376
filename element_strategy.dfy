/** The component lifecycle both element strategies share: `connect` creates the
    component or cancels a scheduled destruction, `disconnect` schedules the
    destruction in a microtask, and the microtask destroys the component and takes it
    off the application's lists. Each strategy object is described by a `State`
    value; the strategy classes keep their fields equal to these functions. */
module ElementStrategy {
  import opened Wrappers
  import opened Framework
  import OrderedMap
  import Utils

  /** The state of one strategy together with the parts of the application it touches.
      `scheduledDestroy` stands for the `symbol | null` token (only its presence is ever
      tested), `queuedTeardowns` for the teardown closures still waiting in the
      microtask queue (all identical, so their number is the whole queue), and `calls`
      for the trace of calls into the framework. */
  datatype State = State(
    component: Option<nat>,
    scheduledDestroy: bool,
    queuedTeardowns: nat,
    instance: map<string, Member>,
    initialInputValues: OrderedMap.Entries<Value>,
    nextId: nat,
    components: seq<nat>,
    componentTypes: seq<nat>,
    calls: seq<Call>)

  /** What holds between the calls: a scheduled destruction has its teardown queued, a
      live component is on the application's lists, and identities not yet handed out
      are on no list. */
  ghost predicate Inv(s: State, componentType: nat) {
    && (s.scheduledDestroy ==> s.component.Some? && s.queuedTeardowns > 0)
    && (s.component.Some? ==> s.component.value in s.components && componentType in s.componentTypes)
    && (forall id :: id in s.components ==> id < s.nextId)
  }

  /** The output subscriptions `initializeOutputs` makes, one per declared output in
      declaration order, each re-dispatching under the dash-cased template name. */
  function Subscriptions(id: nat, outputs: seq<OutputDesc>): seq<Call> {
    seq(|outputs|, i requires 0 <= i < |outputs| =>
      Subscribe(id, outputs[i].propName, Utils.CamelToDashCase(outputs[i].templateName)))
  }

  /** `t` is a state `initializeComponent` may produce from `s`: a component with the
      next identity, the same token and microtask queue, and the component and
      its type appended to the application's lists. */
  ghost predicate IsCreation(s: State, t: State, componentType: nat) {
    && t.component == Some(s.nextId)
    && t.scheduledDestroy == s.scheduledDestroy
    && t.queuedTeardowns == s.queuedTeardowns
    && t.nextId == s.nextId + 1
    && t.components == s.components + [s.nextId]
    && t.componentTypes == s.componentTypes + [componentType]
  }

  /** The part of a write after `setInput` or `set`: mark the view for refresh and
      notify the scheduler, only when the framework reports the host view dirty. */
  function Refresh(s: State, id: nat, viewDirty: bool): State {
    if viewDirty then s.(calls := s.calls + [MarkForRefresh(id), NotifyScheduler]) else s
  }

  /** The name a write passes to `setInput`: `inputMap.get(property) ?? property`. */
  function InputName(inputMap: map<string, string>, property: string): string {
    if property in inputMap then inputMap[property] else property
  }

  /** `connect`, given the state `initialized` that `initializeComponent` would produce. */
  function Connect(s: State, initialized: State): (r: State)
    ensures s.scheduledDestroy || s.component.Some? ==> r == s.(scheduledDestroy := false)
    ensures !s.scheduledDestroy && s.component.None? ==> r == initialized
  {
    if s.scheduledDestroy then s.(scheduledDestroy := false)
    else if s.component.None? then initialized
    else s
  }

  /** `disconnect`: schedules one teardown unless there is nothing to destroy or a
      destruction is already scheduled. */
  function Disconnect(s: State): (r: State)
    ensures r.queuedTeardowns == s.queuedTeardowns + (if s.component.Some? && !s.scheduledDestroy then 1 else 0)
    ensures r.component == s.component && (s.component.Some? ==> r.scheduledDestroy)
    ensures r.calls == s.calls && r.components == s.components && r.componentTypes == s.componentTypes
  {
    if s.component.None? || s.scheduledDestroy then s
    else s.(scheduledDestroy := true, queuedTeardowns := s.queuedTeardowns + 1)
  }

  /** The teardown microtask at the head of the queue: nothing when the token was
      cleared; otherwise it clears the token and destroys the component, removing it
      and one entry of its type from the application's lists. */
  function Teardown(s: State, componentType: nat): (r: State)
    requires s.queuedTeardowns > 0
    ensures r.queuedTeardowns == s.queuedTeardowns - 1 && !r.scheduledDestroy
    ensures !s.scheduledDestroy ==> r == s.(queuedTeardowns := s.queuedTeardowns - 1)
    ensures s.scheduledDestroy && s.component.Some? ==>
              && r.component.None?
              && r.calls == s.calls + [DestroyComponent(s.component.value)]
              && r.components == SpliceOut(s.components, s.component.value)
    ensures r.nextId == s.nextId
  {
    var s' := s.(queuedTeardowns := s.queuedTeardowns - 1);
    if !s.scheduledDestroy then s'
    else if s.component.None? then s'.(scheduledDestroy := false)
    else
      var id := s.component.value;
      s'.(scheduledDestroy := false,
          component := None,
          components := SpliceOut(s.components, id),
          componentTypes := SpliceOut(s.componentTypes, componentType),
          calls := s.calls + [DestroyComponent(id)])
  }

  /** Runs every queued teardown, in order. */
  function Drain(s: State, componentType: nat): (r: State)
    ensures r.queuedTeardowns == 0
    decreases s.queuedTeardowns
  {
    if s.queuedTeardowns == 0 then s else Drain(Teardown(s, componentType), componentType)
  }

  lemma TeardownPreservesInv(s: State, componentType: nat)
    requires Inv(s, componentType) && s.queuedTeardowns > 0
    ensures Inv(Teardown(s, componentType), componentType)
    ensures !Teardown(s, componentType).scheduledDestroy
  {
    if s.scheduledDestroy {
      var id := s.component.value;
      SpliceOutPresent(s.components, id);
      assert forall x :: x in SpliceOut(s.components, id) ==> x in s.components by {
        forall x | x in SpliceOut(s.components, id) ensures x in s.components {
          assert x in multiset(SpliceOut(s.components, id));
        }
      }
    }
  }

  lemma {:induction false} DrainPreservesInv(s: State, componentType: nat)
    requires Inv(s, componentType)
    ensures Inv(Drain(s, componentType), componentType)
    decreases s.queuedTeardowns
  {
    if s.queuedTeardowns > 0 {
      TeardownPreservesInv(s, componentType);
      DrainPreservesInv(Teardown(s, componentType), componentType);
    }
  }

  lemma DisconnectPreservesInv(s: State, componentType: nat)
    requires Inv(s, componentType)
    ensures Inv(Disconnect(s), componentType)
  {
  }

  lemma ConnectPreservesInv(s: State, t: State, componentType: nat)
    requires Inv(s, componentType) && IsCreation(s, t, componentType)
    ensures Inv(Connect(s, t), componentType)
  {
    if !s.scheduledDestroy && s.component.None? {
      forall id | id in t.components ensures id < t.nextId {
        if id != s.nextId {
          assert id in s.components;
        }
      }
    }
  }

  /** Once the token is cleared, the queued teardowns only leave the queue. */
  lemma {:induction false} DrainIdle(s: State, componentType: nat)
    requires !s.scheduledDestroy
    ensures Drain(s, componentType) == s.(queuedTeardowns := 0)
    decreases s.queuedTeardowns
  {
    if s.queuedTeardowns > 0 {
      DrainIdle(Teardown(s, componentType), componentType);
    }
  }

  /** `connect` while a destruction is scheduled only clears the token: no component is
      created and the live one is kept. */
  lemma ConnectCancelsDestroy(s: State, t: State)
    requires s.scheduledDestroy
    ensures Connect(s, t) == s.(scheduledDestroy := false)
  {
  }

  /** `connect` creates a component only when none exists, and a second `connect`
      changes nothing. */
  lemma ConnectCreatesOnce(s: State, t: State, t': State, componentType: nat)
    requires !s.scheduledDestroy && IsCreation(s, t, componentType)
    ensures Connect(s, t).component.Some?
    ensures s.component.Some? ==> Connect(s, t) == s
    ensures Connect(Connect(s, t), t') == Connect(s, t)
  {
  }

  /** Disconnecting and reconnecting before the microtask queue drains keeps the same
      component: the teardown finds the token cleared, and nothing but the token and the
      queue differs from the state before the move. */
  lemma ReattachKeepsComponent(s: State, t: State, componentType: nat)
    requires Inv(s, componentType) && s.component.Some?
    ensures Drain(Connect(Disconnect(s), t), componentType) == s.(scheduledDestroy := false, queuedTeardowns := 0)
  {
    DrainIdle(Connect(Disconnect(s), t), componentType);
  }

  /** Disconnecting and letting the microtask queue drain destroys the component exactly
      once and removes one entry from each application list. */
  lemma DetachDestroys(s: State, componentType: nat)
    requires Inv(s, componentType) && s.component.Some?
    ensures var r := Drain(Disconnect(s), componentType);
            && r.component.None?
            && !r.scheduledDestroy
            && r.calls == s.calls + [DestroyComponent(s.component.value)]
            && multiset(r.components) == multiset(s.components) - multiset{s.component.value}
            && multiset(r.componentTypes) == multiset(s.componentTypes) - multiset{componentType}
            && r.nextId == s.nextId && r.instance == s.instance
  {
    var d := Disconnect(s);
    var id := s.component.value;
    assert d.scheduledDestroy && d.queuedTeardowns > 0;
    var u := Teardown(d, componentType);
    assert u.component.None? && !u.scheduledDestroy;
    DrainIdle(u, componentType);
    SpliceOutPresent(s.components, id);
    SpliceOutPresent(s.componentTypes, componentType);
  }

  /** After a drained disconnect, the next `connect` creates a new component with an
      identity different from the destroyed one. */
  lemma ReattachAfterDrainRecreates(s: State, t: State, componentType: nat)
    requires Inv(s, componentType) && s.component.Some?
    requires IsCreation(Drain(Disconnect(s), componentType), t, componentType)
    ensures Connect(Drain(Disconnect(s), componentType), t).component == Some(s.nextId)
    ensures s.nextId != s.component.value
  {
    DetachDestroys(s, componentType);
  }

  /** Creating a component and tearing it down again leaves both application lists with
      the elements they had before. */
  lemma LifecycleBalance(s: State, t: State, componentType: nat)
    requires Inv(s, componentType) && s.component.None? && IsCreation(s, t, componentType)
    ensures var r := Drain(Disconnect(Connect(s, t)), componentType);
            && r.component.None?
            && multiset(r.components) == multiset(s.components)
            && multiset(r.componentTypes) == multiset(s.componentTypes)
  {
    var c := Connect(s, t);
    assert c == t;
    ConnectPreservesInv(s, t, componentType);
    DetachDestroys(c, componentType);
  }
}
