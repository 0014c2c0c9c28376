/** The custom element of create-custom-element.ts. `NgElementum` is the element: it
    creates its strategy lazily, connects and disconnects it from the DOM callbacks,
    forwards attribute and property writes, caches property values, and survives a
    platform destruction without leaving the document. `CreateCustomElement` is the
    definition-time part: it reads the component type, computes the observed
    attributes and defines the exposed methods, signals and input properties. */
module CustomElement {
  import opened Wrappers
  import opened Framework
  import OrderedMap
  import OrderedSet
  import Utils
  import opened ElementStrategy
  import ComponentStrategy
  import Platform

  // ---------------------------------------------------------------------------
  // Application configuration

  /** A provider of an application configuration; only the zoneless change detection
      provider the element adds is told apart. */
  datatype Provider = UserProvider(id: nat) | ZonelessChangeDetection

  datatype ApplicationConfig = ApplicationConfig(providers: seq<Provider>)

  /** `applicationConfig`: a configuration, or a function computing one in the platform's
      injection context (`resolved` is what that function returns). */
  datatype ConfigSource = StaticConfig(config: ApplicationConfig) | ConfigResolver(resolved: ApplicationConfig)

  /** `addZoneless`: merging configurations concatenates their providers. */
  function AddZoneless(config: ApplicationConfig): ApplicationConfig {
    ApplicationConfig(config.providers + [ZonelessChangeDetection])
  }

  /** `getApplicationConfig`: a resolver can only run when a platform exists; every
      configuration it returns keeps the user's providers, in order, and ends with
      zoneless change detection. */
  function GetApplicationConfig(source: ConfigSource, platformExists: bool): (r: Option<ApplicationConfig>)
    ensures r.None? <==> source.ConfigResolver? && !platformExists
    ensures r.Some? ==>
              var user := if source.StaticConfig? then source.config.providers else source.resolved.providers;
              && |r.value.providers| == |user| + 1
              && r.value.providers[..|user|] == user
              && r.value.providers[|user|] == ZonelessChangeDetection
  {
    match source
    case StaticConfig(config) => Some(AddZoneless(config))
    case ConfigResolver(resolved) => if platformExists then Some(AddZoneless(resolved)) else None
  }

  /** What `createApplicationSync` gives: it throws with a message, or returns an
      application that is already destroyed, or a usable application. */
  datatype Application = ApplicationThrows(message: string) | ApplicationDestroyed | ApplicationCreated

  /** What the element cannot see itself: whether a platform exists when the strategy is
      created, and how the application creation ends. */
  datatype Env = Env(platformExists: bool, application: Application)

  /** The state of a strategy that was just constructed over a new application. */
  const Pristine := State(None, false, 0, map[], [], 0, [], [], [])

  // ---------------------------------------------------------------------------
  // Writes made by connectedCallback

  /** A list of `setValue` writes, in order. */
  type Writes = seq<(string, Value)>

  /** The attribute loop of `connectedCallback`: for every attribute input whose
      attribute is present, in dictionary order, the property receives the attribute
      value passed through the input's transform. */
  function AttributeWrites(attributeInputs: OrderedMap.Entries<Utils.AttributeInput>,
                           attributes: map<string, string>): (r: Writes)
    ensures |r| <= |attributeInputs|
  {
    if attributeInputs == [] then []
    else
      var n := |attributeInputs| - 1;
      var prefix := AttributeWrites(attributeInputs[..n], attributes);
      var (attrName, (propName, transform)) := attributeInputs[n];
      if attrName in attributes then prefix + [(propName, Transformed(Str(attributes[attrName]), transform))]
      else prefix
  }

  /** Everything `connectedCallback` writes after `connect`: the attributes, then the
      cached property values in the cache's insertion order. */
  function ConnectWrites(attributeInputs: OrderedMap.Entries<Utils.AttributeInput>,
                         attributes: map<string, string>, cache: OrderedMap.Entries<Value>): Writes
  {
    AttributeWrites(attributeInputs, attributes) + cache
  }

  /** The value of the last write to `property`, if any. */
  function LastWrite(writes: Writes, property: string): (r: Option<Value>)
    ensures r.None? <==> forall i :: 0 <= i < |writes| ==> writes[i].0 != property
    ensures r.Some? ==> (property, r.value) in writes
  {
    if writes == [] then None
    else
      var n := |writes| - 1;
      if writes[n].0 == property then Some(writes[n].1)
      else
        assert forall i :: 0 <= i < n ==> writes[..n][i] == writes[i];
        LastWrite(writes[..n], property)
  }

  lemma {:induction false} LastWriteAppend(a: Writes, b: Writes, property: string)
    ensures LastWrite(a + b, property) == if LastWrite(b, property).Some? then LastWrite(b, property) else LastWrite(a, property)
    decreases |b|
  {
    if b != [] {
      var n := |b| - 1;
      assert (a + b)[..|a + b| - 1] == a + b[..n];
      LastWriteAppend(a, b[..n], property);
    } else {
      assert a + b == a;
    }
  }

  /** In a dictionary without duplicate keys, the last write of a key is its entry. */
  lemma LastWriteGet(m: OrderedMap.Entries<Value>, property: string)
    requires OrderedMap.UniqueKeys(m)
    ensures LastWrite(m, property) == OrderedMap.Get(m, property)
  {
    match LastWrite(m, property)
    case Some(v) =>
      var i :| 0 <= i < |m| && m[i] == (property, v);
      OrderedMap.GetEntry(m, i);
    case None =>
      assert property !in OrderedMap.KeysOf(m);
  }

  /** A value cached while the element was detached wins over the attribute it may
      also have: the cache is replayed after the attributes. A property that is not
      cached keeps what the attributes wrote. */
  lemma CachedValuesWrittenLast(attributeInputs: OrderedMap.Entries<Utils.AttributeInput>,
                                attributes: map<string, string>, cache: OrderedMap.Entries<Value>,
                                property: string)
    requires OrderedMap.UniqueKeys(cache)
    ensures OrderedMap.Get(cache, property).Some? ==>
              LastWrite(ConnectWrites(attributeInputs, attributes, cache), property) == OrderedMap.Get(cache, property)
    ensures OrderedMap.Get(cache, property).None? ==>
              LastWrite(ConnectWrites(attributeInputs, attributes, cache), property)
              == LastWrite(AttributeWrites(attributeInputs, attributes), property)
  {
    LastWriteAppend(AttributeWrites(attributeInputs, attributes), cache, property);
    LastWriteGet(cache, property);
  }

  /** An attribute present at connect time is written to the property of the last input
      that has it, passed through that input's transform. (`setInput` then applies the
      transform once more; an attribute changed later is forwarded untransformed.) */
  lemma AttributePresentAtConnectIsWritten(inputs: seq<InputDesc>, attributes: map<string, string>, j: nat)
    requires j < |inputs|
    requires forall l :: j < l < |inputs| ==> Utils.AttributeKey(inputs[l]) != Utils.AttributeKey(inputs[j])
    requires Utils.AttributeKey(inputs[j]) in attributes
    ensures (inputs[j].propName, Transformed(Str(attributes[Utils.AttributeKey(inputs[j])]), inputs[j].transform))
            in AttributeWrites(Utils.AttributeInputs(inputs), attributes)
  {
    var ai := Utils.AttributeInputs(inputs);
    var key := Utils.AttributeKey(inputs[j]);
    Utils.AttributeInputsLastWins(inputs, j);
    Utils.AttributeInputsKeys(inputs, key);
    var i :| 0 <= i < |ai| && ai[i].0 == key;
    OrderedMap.GetEntry(ai, i);
    AttributeWritesHas(ai, attributes, i);
  }

  /** Every present attribute of the dictionary produces a write to its property. */
  lemma {:induction false} AttributeWritesHas(attributeInputs: OrderedMap.Entries<Utils.AttributeInput>,
                                              attributes: map<string, string>, i: nat)
    requires i < |attributeInputs| && attributeInputs[i].0 in attributes
    ensures var (attrName, (propName, transform)) := attributeInputs[i];
            (propName, Transformed(Str(attributes[attrName]), transform)) in AttributeWrites(attributeInputs, attributes)
    decreases |attributeInputs|
  {
    var n := |attributeInputs| - 1;
    if i < n {
      assert attributeInputs[..n][i] == attributeInputs[i];
      AttributeWritesHas(attributeInputs[..n], attributes, i);
    }
  }

  /** All writes applied in order with the live strategy's `setValue`. */
  function WriteAll(s: State, mirror: Mirror, isViewDirty: (string, Value) -> bool, writes: Writes): State
    decreases |writes|
  {
    if writes == [] then s
    else
      var n := |writes| - 1;
      ComponentStrategy.WriteValue(WriteAll(s, mirror, isViewDirty, writes[..n]), mirror,
                                   InputMap(mirror.inputs), isViewDirty, writes[n].0, writes[n].1)
  }

  lemma WriteAllSnoc(s: State, mirror: Mirror, isViewDirty: (string, Value) -> bool, writes: Writes, w: (string, Value))
    ensures WriteAll(s, mirror, isViewDirty, writes + [w])
            == ComponentStrategy.WriteValue(WriteAll(s, mirror, isViewDirty, writes), mirror, InputMap(mirror.inputs),
                                            isViewDirty, w.0, w.1)
  {
    assert (writes + [w])[..|writes|] == writes;
  }

  /** Applying two lists of writes one after the other is applying their concatenation. */
  lemma {:induction false} WriteAllAppend(s: State, mirror: Mirror, isViewDirty: (string, Value) -> bool, a: Writes, b: Writes)
    ensures WriteAll(WriteAll(s, mirror, isViewDirty, a), mirror, isViewDirty, b) == WriteAll(s, mirror, isViewDirty, a + b)
    decreases |b|
  {
    if b == [] {
      assert a + b == a;
    } else {
      var n := |b| - 1;
      WriteAllAppend(s, mirror, isViewDirty, a, b[..n]);
      assert (a + b)[..|a + b| - 1] == a + b[..n];
    }
  }

  /** Writes never create, destroy or schedule anything. */
  lemma {:induction false} WriteAllLifecycle(s: State, mirror: Mirror, isViewDirty: (string, Value) -> bool, writes: Writes)
    ensures var r := WriteAll(s, mirror, isViewDirty, writes);
            && r.component == s.component && r.scheduledDestroy == s.scheduledDestroy
            && r.queuedTeardowns == s.queuedTeardowns && r.nextId == s.nextId
            && r.components == s.components && r.componentTypes == s.componentTypes
    decreases |writes|
  {
    if writes != [] {
      var n := |writes| - 1;
      WriteAllLifecycle(s, mirror, isViewDirty, writes[..n]);
      ComponentStrategy.SetValueCalls(WriteAll(s, mirror, isViewDirty, writes[..n]), mirror, isViewDirty,
                                      writes[n].0, writes[n].1);
    }
  }

  /** The strategy's state after `connectedCallback` found it existing. */
  function ConnectState(s: State, mirror: Mirror, isViewDirty: (string, Value) -> bool,
                        attributeInputs: OrderedMap.Entries<Utils.AttributeInput>,
                        attributes: map<string, string>, cache: OrderedMap.Entries<Value>): State
  {
    WriteAll(ElementStrategy.Connect(s, ComponentStrategy.Initialize(s, mirror)), mirror, isViewDirty,
             ConnectWrites(attributeInputs, attributes, cache))
  }

  /** The first connection of a new strategy creates the first component of its
      application, whatever is written afterwards. */
  lemma FirstConnectCreates(mirror: Mirror, isViewDirty: (string, Value) -> bool,
                            attributeInputs: OrderedMap.Entries<Utils.AttributeInput>,
                            attributes: map<string, string>, cache: OrderedMap.Entries<Value>)
    ensures var r := ConnectState(Pristine, mirror, isViewDirty, attributeInputs, attributes, cache);
            && r.component == Some(0) && r.components == [0] && r.componentTypes == [mirror.componentType]
            && !r.scheduledDestroy && Inv(r, mirror.componentType)
  {
    var c := ElementStrategy.Connect(Pristine, ComponentStrategy.Initialize(Pristine, mirror));
    WriteAllLifecycle(c, mirror, isViewDirty, ConnectWrites(attributeInputs, attributes, cache));
  }

  /** Reconnecting while the destruction is still scheduled keeps the component and
      only cancels the destruction; the queued teardown then does nothing. */
  lemma ReconnectKeepsComponent(s: State, mirror: Mirror, isViewDirty: (string, Value) -> bool,
                                attributeInputs: OrderedMap.Entries<Utils.AttributeInput>,
                                attributes: map<string, string>, cache: OrderedMap.Entries<Value>)
    requires Inv(s, mirror.componentType) && s.component.Some?
    ensures var r := ConnectState(Disconnect(s), mirror, isViewDirty, attributeInputs, attributes, cache);
            && r.component == s.component && !r.scheduledDestroy
            && Drain(r, mirror.componentType).component == s.component
            && r.components == s.components && r.componentTypes == s.componentTypes
  {
    var d := Disconnect(s);
    var c := ElementStrategy.Connect(d, ComponentStrategy.Initialize(d, mirror));
    assert c == s.(scheduledDestroy := false, queuedTeardowns := d.queuedTeardowns);
    var ws := ConnectWrites(attributeInputs, attributes, cache);
    WriteAllLifecycle(c, mirror, isViewDirty, ws);
    DrainIdle(WriteAll(c, mirror, isViewDirty, ws), mirror.componentType);
  }

  // ---------------------------------------------------------------------------
  // The property cache

  /** `ngElementumGetValue` on the cache, given what the strategy's `getValue` returned
      (`Unavailable` also when there is no strategy): an available value is cached,
      and the result is the cached value, `null` when there is none. */
  function ReadThrough(cache: OrderedMap.Entries<Value>, readout: ComponentStrategy.Readout, property: string)
    : (r: (OrderedMap.Entries<Value>, Value))
    ensures readout.Unavailable? ==> r.0 == cache
    ensures forall k :: k != property ==> OrderedMap.Get(r.0, k) == OrderedMap.Get(cache, k)
    ensures readout.Available? ==> OrderedMap.Get(r.0, property) == Some(readout.v) && r.1 == Coalesce(readout.v, Null)
    ensures readout.Unavailable? && OrderedMap.Get(cache, property).None? ==> r.1 == Null
    ensures readout.Unavailable? && OrderedMap.Get(cache, property).Some? ==>
              r.1 == Coalesce(OrderedMap.Get(cache, property).value, Null)
    ensures r.1 != Undefined
  {
    var c := if readout.Available? then OrderedMap.Put(cache, property, readout.v) else cache;
    (c, Coalesce(OrderedMap.Get(c, property).GetOr(Undefined), Null))
  }

  /** A property written while detached reads back as written (`null` for a nullish
      value), and the read leaves the cache as it was. */
  lemma CachedWriteReadsBack(cache: OrderedMap.Entries<Value>, property: string, v: Value)
    ensures var c := OrderedMap.Put(cache, property, v);
            ReadThrough(c, ComponentStrategy.Unavailable, property) == (c, Coalesce(v, Null))
  {
  }

  /** The value an attribute change writes: the attribute's text, or `null` when the
      attribute was removed. */
  function AttributeValue(newValue: Option<string>): Value {
    if newValue.Some? then Str(newValue.value) else Null
  }

  // ---------------------------------------------------------------------------
  // The element

  /** The error messages of the exposed methods. */
  const DetachedMessage := "Component is detached from DOM"
  const NotInitializedMessage := "Component is not initialized"

  /** A shadow root attached to the element: its mode and its content. */
  datatype ShadowRoot = ShadowRoot(open: bool, content: string)

  /** The `NotSupportedError` the DOM's `attachShadow` throws on a host that already
      has a shadow root. */
  const ShadowAlreadyAttachedMessage := "NotSupportedError"

  /** `this.shadowRoot`: the attached root when it is open, `null` for a closed one. */
  function VisibleShadowRoot(shadow: Option<ShadowRoot>): (r: Option<ShadowRoot>)
    ensures r.Some? <==> shadow.Some? && shadow.value.open
    ensures r.Some? ==> r == shadow
  {
    if shadow.Some? && shadow.value.open then shadow else None
  }

  /** The DOM content of a host after `remove` with removal prevented: the shadow root
      is emptied when `this.shadowRoot` shows one, the element's own content otherwise,
      which for a closed root is the light DOM. */
  predicate ContentCleared(oldInner: string, oldShadow: Option<ShadowRoot>, inner: string, shadow: Option<ShadowRoot>) {
    if VisibleShadowRoot(oldShadow).Some? then shadow == Some(ShadowRoot(true, "")) && inner == oldInner
    else shadow == oldShadow && inner == ""
  }

  class NgElementum {
    /** The element, also standing for its on-create-platform callback. */
    const id: nat
    const componentType: Mirror
    const applicationConfig: ConfigSource
    const attributeInputs: OrderedMap.Entries<Utils.AttributeInput>
    const isViewDirty: (string, Value) -> bool
    /** The module-level set of on-create-platform callbacks. */
    const registry: Platform.CreatePlatformListeners
    var inputsCache: OrderedMap.Entries<Value>
    var signalsCache: OrderedMap.Entries<Value>
    var cachedStrategy: ComponentStrategy.NgElementumStrategy?
    var preventRemove: bool
    /** The DOM side of the element. */
    var attributes: map<string, string>
    var isConnected: bool
    var innerHTML: string
    var shadowRoot: Option<ShadowRoot>

    function StrategyObjects(): set<object>
      reads this
    {
      if cachedStrategy == null then {} else {cachedStrategy, cachedStrategy.app}
    }

    ghost predicate Valid()
      reads this, registry, StrategyObjects()
    {
      && registry.Valid()
      && attributeInputs == Utils.AttributeInputs(componentType.inputs)
      && OrderedMap.UniqueKeys(inputsCache)
      && (cachedStrategy != null ==>
            && cachedStrategy.Valid()
            && cachedStrategy.mirror == componentType
            && cachedStrategy.isViewDirty == isViewDirty)
    }

    constructor (id: nat, componentType: Mirror, applicationConfig: ConfigSource,
                 registry: Platform.CreatePlatformListeners, isViewDirty: (string, Value) -> bool)
      requires registry.Valid()
      ensures Valid()
      ensures this.id == id && this.componentType == componentType && this.applicationConfig == applicationConfig
      ensures this.registry == registry && this.isViewDirty == isViewDirty
      ensures inputsCache == [] && signalsCache == [] && cachedStrategy == null && !preventRemove
      ensures attributes == map[] && !isConnected && innerHTML == "" && shadowRoot == None
    {
      var attributeInputs := Utils.GetDefaultAttributeToPropertyInputs(componentType.inputs);
      this.id := id;
      this.componentType := componentType;
      this.applicationConfig := applicationConfig;
      this.attributeInputs := attributeInputs;
      this.isViewDirty := isViewDirty;
      this.registry := registry;
      inputsCache := [];
      signalsCache := [];
      cachedStrategy := null;
      preventRemove := false;
      attributes := map[];
      isConnected := false;
      innerHTML := "";
      shadowRoot := None;
    }

    /** `#ngElementumCreateStrategy`: no strategy without a configuration or when the
        new application is already destroyed; the creation's error propagates. */
    method CreateStrategy(env: Env) returns (r: Result<ComponentStrategy.NgElementumStrategy?, string>)
      ensures GetApplicationConfig(applicationConfig, env.platformExists).None? ==> r == Success(null)
      ensures GetApplicationConfig(applicationConfig, env.platformExists).Some? ==>
                match env.application
                case ApplicationThrows(message) => r == Failure(message)
                case ApplicationDestroyed => r == Success(null)
                case ApplicationCreated => r.Success? && r.value != null
      ensures r.Success? && r.value != null ==>
                && fresh(r.value) && fresh(r.value.app)
                && r.value.Valid() && r.value.Model() == Pristine
                && r.value.mirror == componentType && r.value.isViewDirty == isViewDirty
    {
      var config := GetApplicationConfig(applicationConfig, env.platformExists);
      if config.None? {
        return Success(null);
      }
      match env.application
      case ApplicationThrows(message) =>
        return Failure(message);
      case ApplicationDestroyed =>
        return Success(null);
      case ApplicationCreated =>
        var app := new AppRef();
        var strategy := new ComponentStrategy.NgElementumStrategy(componentType, app, isViewDirty);
        return Success(strategy);
    }

    /** The `#ngElementumStrategy` getter: the cached strategy, or a new one that is
        cached when it exists. */
    method Strategy(env: Env) returns (r: Result<ComponentStrategy.NgElementumStrategy?, string>)
      requires Valid()
      modifies this`cachedStrategy
      ensures Valid()
      ensures old(cachedStrategy) != null ==> r == Success(old(cachedStrategy)) && cachedStrategy == old(cachedStrategy)
      ensures r.Failure? ==> cachedStrategy == null
      ensures r.Success? ==> cachedStrategy == r.value
      ensures old(cachedStrategy) == null && cachedStrategy != null ==>
                fresh(cachedStrategy) && fresh(cachedStrategy.app) && cachedStrategy.Model() == Pristine
      ensures old(cachedStrategy) == null ==>
                (r.Failure? <==> GetApplicationConfig(applicationConfig, env.platformExists).Some? && env.application.ApplicationThrows?)
                && (cachedStrategy != null <==> GetApplicationConfig(applicationConfig, env.platformExists).Some? && env.application.ApplicationCreated?)
    {
      if cachedStrategy == null {
        var created := CreateStrategy(env);
        if created.Failure? {
          return created;
        }
        cachedStrategy := created.value;
      }
      return Success(cachedStrategy);
    }

    /** `connectedCallback`: without a strategy the element waits for a platform;
        otherwise the strategy connects and receives the present attributes and then
        the cached property values. */
    method ConnectedCallback(env: Env) returns (error: Option<string>)
      requires Valid()
      modifies this`cachedStrategy, registry, StrategyObjects()
      ensures Valid()
      ensures old(cachedStrategy) != null ==> cachedStrategy == old(cachedStrategy)
      ensures error.Some? ==> cachedStrategy == null && registry.listeners == old(registry.listeners)
      ensures error.None? && cachedStrategy == null ==> registry.listeners == OrderedSet.Add(old(registry.listeners), id)
      ensures cachedStrategy != null ==>
                && error.None?
                && registry.listeners == old(registry.listeners)
                && cachedStrategy.Model()
                   == ConnectState(if old(cachedStrategy) != null then old(cachedStrategy.Model()) else Pristine,
                                   componentType, isViewDirty, attributeInputs, attributes, inputsCache)
    {
      var strategy := Strategy(env);
      if strategy.Failure? {
        return Some(strategy.error);
      }
      if strategy.value == null {
        registry.OnCreatePlatform(id);
        return None;
      }
      ConnectStrategy();
      return None;
    }

    /** The part of `connectedCallback` after the strategy was found. */
    method ConnectStrategy()
      requires Valid() && cachedStrategy != null
      modifies cachedStrategy, cachedStrategy.app
      ensures Valid()
      ensures cachedStrategy.Model()
              == ConnectState(old(cachedStrategy.Model()), componentType, isViewDirty, attributeInputs, attributes, inputsCache)
    {
      var strategy := cachedStrategy;
      strategy.Connect();
      ghost var connected := strategy.Model();
      WriteAttributes(strategy);
      WriteCache(strategy);
      WriteAllAppend(connected, componentType, isViewDirty, AttributeWrites(attributeInputs, attributes), inputsCache);
    }

    /** The attribute loop of `connectedCallback`. */
    method WriteAttributes(strategy: ComponentStrategy.NgElementumStrategy)
      requires strategy.Valid() && strategy.mirror == componentType && strategy.isViewDirty == isViewDirty
      modifies strategy`instance, strategy`calls
      ensures strategy.Valid()
      ensures strategy.Model() == WriteAll(old(strategy.Model()), componentType, isViewDirty, AttributeWrites(attributeInputs, attributes))
    {
      ghost var s := strategy.Model();
      ghost var writes: Writes := [];
      for i := 0 to |attributeInputs|
        invariant strategy.Valid()
        invariant writes == AttributeWrites(attributeInputs[..i], attributes)
        invariant strategy.Model() == WriteAll(s, componentType, isViewDirty, writes)
      {
        assert attributeInputs[..i + 1][..i] == attributeInputs[..i];
        var (attrName, (propName, transform)) := attributeInputs[i];
        if attrName in attributes {
          var value := Transformed(Str(attributes[attrName]), transform);
          strategy.SetValue(propName, value);
          WriteAllSnoc(s, componentType, isViewDirty, writes, (propName, value));
          writes := writes + [(propName, value)];
        }
      }
      assert attributeInputs[..|attributeInputs|] == attributeInputs;
    }

    /** The cache loop of `connectedCallback`. */
    method WriteCache(strategy: ComponentStrategy.NgElementumStrategy)
      requires strategy.Valid() && strategy.mirror == componentType && strategy.isViewDirty == isViewDirty
      modifies strategy`instance, strategy`calls
      ensures strategy.Valid()
      ensures strategy.Model() == WriteAll(old(strategy.Model()), componentType, isViewDirty, inputsCache)
    {
      ghost var s := strategy.Model();
      for i := 0 to |inputsCache|
        invariant strategy.Valid()
        invariant strategy.Model() == WriteAll(s, componentType, isViewDirty, inputsCache[..i])
      {
        var (key, value) := inputsCache[i];
        strategy.SetValue(key, value);
        WriteAllSnoc(s, componentType, isViewDirty, inputsCache[..i], (key, value));
        assert inputsCache[..i + 1] == inputsCache[..i] + [(key, value)];
      }
      assert inputsCache[..|inputsCache|] == inputsCache;
    }

    /** `disconnectedCallback`: stop waiting for a platform, and schedule the
        destruction of the component if there is a strategy. */
    method DisconnectedCallback()
      requires Valid()
      modifies registry, StrategyObjects()
      ensures Valid()
      ensures registry.listeners == OrderedSet.Delete(old(registry.listeners), id)
      ensures cachedStrategy != null ==> cachedStrategy.Model() == ElementStrategy.Disconnect(old(cachedStrategy.Model()))
    {
      registry.OffCreatePlatform(id);
      if cachedStrategy != null {
        cachedStrategy.Disconnect();
      }
    }

    /** The browser's insertion of a detached element into the document. */
    method Insert(env: Env) returns (error: Option<string>)
      requires Valid() && !isConnected
      modifies this`isConnected, this`cachedStrategy, registry, StrategyObjects()
      ensures Valid() && isConnected
      ensures old(cachedStrategy) != null ==> cachedStrategy == old(cachedStrategy)
      ensures error.None? && cachedStrategy == null ==> registry.listeners == OrderedSet.Add(old(registry.listeners), id)
      ensures cachedStrategy != null ==>
                error.None? &&
                cachedStrategy.Model()
                == ConnectState(if old(cachedStrategy) != null then old(cachedStrategy.Model()) else Pristine,
                                componentType, isViewDirty, attributeInputs, attributes, inputsCache)
    {
      isConnected := true;
      error := ConnectedCallback(env);
    }

    /** `ngElementumGetValue`: reads through the strategy when there is one. */
    method GetValue(property: string) returns (r: Value)
      requires Valid()
      modifies this`inputsCache
      ensures Valid()
      ensures (inputsCache, r)
              == ReadThrough(old(inputsCache),
                             if cachedStrategy != null then cachedStrategy.GetValue(property) else ComponentStrategy.Unavailable,
                             property)
    {
      if cachedStrategy != null {
        var value := cachedStrategy.GetValue(property);
        if value.Available? {
          OrderedMap.PutUnique(inputsCache, property, value.v);
          inputsCache := OrderedMap.Put(inputsCache, property, value.v);
        }
      }
      r := Coalesce(OrderedMap.Get(inputsCache, property).GetOr(Undefined), Null);
    }

    /** `ngElementumSetValue`: the value is cached, and written through when there is a
        strategy. */
    method SetValue(property: string, value: Value)
      requires Valid()
      modifies this`inputsCache, StrategyObjects()
      ensures Valid()
      ensures inputsCache == OrderedMap.Put(old(inputsCache), property, value)
      ensures cachedStrategy != null ==>
                cachedStrategy.Model()
                == ComponentStrategy.WriteValue(old(cachedStrategy.Model()), componentType, InputMap(componentType.inputs),
                                                isViewDirty, property, value)
    {
      OrderedMap.PutUnique(inputsCache, property, value);
      inputsCache := OrderedMap.Put(inputsCache, property, value);
      if cachedStrategy != null {
        cachedStrategy.SetValue(property, value);
      }
    }

    /** `setSignalValue`: as `ngElementumSetValue`, but into the signals cache, which is
        never read back or replayed. */
    method SetSignalValue(property: string, value: Value)
      requires Valid()
      modifies this`signalsCache, StrategyObjects()
      ensures Valid()
      ensures signalsCache == OrderedMap.Put(old(signalsCache), property, value)
      ensures cachedStrategy != null ==>
                cachedStrategy.Model()
                == ComponentStrategy.WriteValue(old(cachedStrategy.Model()), componentType, InputMap(componentType.inputs),
                                                isViewDirty, property, value)
    {
      signalsCache := OrderedMap.Put(signalsCache, property, value);
      if cachedStrategy != null {
        cachedStrategy.SetValue(property, value);
      }
    }

    /** `attributeChangedCallback` for an observed attribute: the new value is written,
        untransformed, to the attribute's property; a removed attribute (the browser
        passes `null`) writes `null`. */
    method AttributeChangedCallback(attrName: string, oldValue: Option<string>, newValue: Option<string>)
      requires Valid() && attrName in OrderedMap.KeysOf(attributeInputs)
      modifies this`inputsCache, StrategyObjects()
      ensures Valid()
      ensures attributes == old(attributes)
      ensures var property := OrderedMap.Get(attributeInputs, attrName).value.0;
              var v := AttributeValue(newValue);
              && inputsCache == OrderedMap.Put(old(inputsCache), property, v)
              && (cachedStrategy != null ==>
                    cachedStrategy.Model()
                    == ComponentStrategy.WriteValue(old(cachedStrategy.Model()), componentType,
                                                    InputMap(componentType.inputs), isViewDirty, property, v))
    {
      var (propName, _) := OrderedMap.Get(attributeInputs, attrName).value;
      SetValue(propName, AttributeValue(newValue));
    }

    /** The element's attribute dictionary is replaced; nothing else changes. */
    method StoreAttributes(a: map<string, string>)
      requires Valid()
      modifies this`attributes
      ensures Valid() && attributes == a
      ensures StrategyObjects() == old(StrategyObjects())
    {
      attributes := a;
    }

    /** `setAttribute` on the element: the browser reports a change of an observed
        attribute to `attributeChangedCallback`. */
    method SetAttribute(name: string, value: string)
      requires Valid()
      modifies this`attributes, this`inputsCache, StrategyObjects()
      ensures Valid()
      ensures attributes == old(attributes)[name := value]
      ensures name !in OrderedMap.KeysOf(attributeInputs) ==>
                inputsCache == old(inputsCache) && (cachedStrategy != null ==> cachedStrategy.Model() == old(cachedStrategy.Model()))
      ensures name in OrderedMap.KeysOf(attributeInputs) ==>
                var property := OrderedMap.Get(attributeInputs, name).value.0;
                && inputsCache == OrderedMap.Put(old(inputsCache), property, Str(value))
                && (cachedStrategy != null ==>
                      cachedStrategy.Model()
                      == ComponentStrategy.WriteValue(old(cachedStrategy.Model()), componentType,
                                                      InputMap(componentType.inputs), isViewDirty, property, Str(value)))
    {
      var oldValue := if name in attributes then Some(attributes[name]) else None;
      StoreAttributes(attributes[name := value]);
      assert AttributeValue(Some(value)) == Str(value);
      if name in OrderedMap.KeysOf(attributeInputs) {
        AttributeChangedCallback(name, oldValue, Some(value));
      }
    }

    /** `removeAttribute` on the element: removing a present observed attribute reports
        `null` as its new value to `attributeChangedCallback`, which resets the
        attribute's property to `null`; removing an absent attribute reports nothing. */
    method RemoveAttribute(name: string)
      requires Valid()
      modifies this`attributes, this`inputsCache, StrategyObjects()
      ensures Valid()
      ensures attributes == old(attributes) - {name}
      ensures name !in old(attributes) || name !in OrderedMap.KeysOf(attributeInputs) ==>
                inputsCache == old(inputsCache) && (cachedStrategy != null ==> cachedStrategy.Model() == old(cachedStrategy.Model()))
      ensures name in old(attributes) && name in OrderedMap.KeysOf(attributeInputs) ==>
                var property := OrderedMap.Get(attributeInputs, name).value.0;
                && inputsCache == OrderedMap.Put(old(inputsCache), property, Null)
                && (cachedStrategy != null ==>
                      cachedStrategy.Model()
                      == ComponentStrategy.WriteValue(old(cachedStrategy.Model()), componentType,
                                                      InputMap(componentType.inputs), isViewDirty, property, Null))
    {
      if name !in attributes {
        return;
      }
      var oldValue := attributes[name];
      StoreAttributes(attributes - {name});
      assert AttributeValue(None) == Null;
      if name in OrderedMap.KeysOf(attributeInputs) {
        AttributeChangedCallback(name, Some(oldValue), None);
      }
    }

    /** `remove`: while removal is prevented only the content is cleared and the element
        stays in the document; otherwise the element leaves the document, which runs
        `disconnectedCallback` if it was connected. */
    method Remove()
      requires Valid()
      modifies this`isConnected, this`innerHTML, this`shadowRoot, registry, StrategyObjects()
      ensures Valid()
      ensures preventRemove ==>
                && isConnected == old(isConnected)
                && ContentCleared(old(innerHTML), old(shadowRoot), innerHTML, shadowRoot)
                && registry.listeners == old(registry.listeners)
                && (cachedStrategy != null ==> cachedStrategy.Model() == old(cachedStrategy.Model()))
      ensures !preventRemove ==> !isConnected && innerHTML == old(innerHTML) && shadowRoot == old(shadowRoot)
      ensures !preventRemove && old(isConnected) ==>
                && registry.listeners == OrderedSet.Delete(old(registry.listeners), id)
                && (cachedStrategy != null ==> cachedStrategy.Model() == ElementStrategy.Disconnect(old(cachedStrategy.Model())))
      ensures !preventRemove && !old(isConnected) ==>
                && registry.listeners == old(registry.listeners)
                && (cachedStrategy != null ==> cachedStrategy.Model() == old(cachedStrategy.Model()))
    {
      if preventRemove {
        if VisibleShadowRoot(shadowRoot).Some? {
          shadowRoot := Some(ShadowRoot(true, ""));
        } else {
          innerHTML := "";
        }
      } else if isConnected {
        isConnected := false;
        DisconnectedCallback();
      }
    }

    /** `attachShadow(init)`: `this.shadowRoot ?? super.attachShadow(init)`. An open
        root is returned instead of a second one; without a root a new one of the
        requested mode is attached; a closed root is invisible to `this.shadowRoot`, so
        the DOM is asked for a second root and throws. */
    method AttachShadow(open: bool) returns (r: Result<ShadowRoot, string>)
      modifies this`shadowRoot
      ensures old(shadowRoot).Some? ==> shadowRoot == old(shadowRoot)
      ensures old(shadowRoot).None? ==> shadowRoot == Some(ShadowRoot(open, "")) && r == Success(ShadowRoot(open, ""))
      ensures old(shadowRoot).Some? && old(shadowRoot).value.open ==> r == Success(old(shadowRoot).value)
      ensures old(shadowRoot).Some? && !old(shadowRoot).value.open ==> r == Failure(ShadowAlreadyAttachedMessage)
    {
      var visible := VisibleShadowRoot(shadowRoot);
      if visible.Some? {
        return Success(visible.value);
      }
      if shadowRoot.Some? {
        return Failure(ShadowAlreadyAttachedMessage);
      }
      shadowRoot := Some(ShadowRoot(open, ""));
      return Success(ShadowRoot(open, ""));
    }

    /** The application's destruction: the renderer removes the host of a live component,
        then the application's `onDestroy` hook forgets the strategy. */
    method ApplicationDestroyed()
      requires Valid()
      modifies this`cachedStrategy, this`isConnected, this`innerHTML, this`shadowRoot, registry, StrategyObjects()
      ensures Valid() && cachedStrategy == null
      ensures preventRemove && old(cachedStrategy) != null && old(cachedStrategy.componentRef).Some? ==>
                isConnected == old(isConnected) && ContentCleared(old(innerHTML), old(shadowRoot), innerHTML, shadowRoot)
                && registry.listeners == old(registry.listeners)
      ensures preventRemove ==> isConnected == old(isConnected) && registry.listeners == old(registry.listeners)
    {
      if cachedStrategy != null && cachedStrategy.componentRef.Some? {
        Remove();
      }
      cachedStrategy := null;
    }

    /** The platform's `onDestroy` hook registered with the strategy: the application is
        destroyed with removal prevented, so the element keeps its place in the document
        and only loses its content, and a connected element waits for the next platform. */
    method PlatformDestroyed()
      requires Valid()
      modifies this`cachedStrategy, this`preventRemove, this`isConnected, this`innerHTML, this`shadowRoot,
               registry, StrategyObjects()
      ensures Valid() && cachedStrategy == null && !preventRemove
      ensures isConnected == old(isConnected)
      ensures old(cachedStrategy) != null && old(cachedStrategy.componentRef).Some? ==>
                ContentCleared(old(innerHTML), old(shadowRoot), innerHTML, shadowRoot)
      ensures registry.listeners == if isConnected then OrderedSet.Add(old(registry.listeners), id) else old(registry.listeners)
    {
      preventRemove := true;
      ApplicationDestroyed();
      preventRemove := false;
      if isConnected {
        registry.OnCreatePlatform(id);
      }
    }

    /** An exposed method of the element: it fails when the element is detached or has
        no strategy, and otherwise calls the component through `applyMethod`. */
    function CallExposed(methodName: string, args: seq<Value>): (r: Result<Invocation, string>)
      reads this, StrategyObjects()
      ensures r.Success? <==> isConnected && cachedStrategy != null && cachedStrategy.componentRef.Some?
      ensures !isConnected ==> r == Failure(DetachedMessage)
      ensures isConnected && cachedStrategy == null ==> r == Failure(NotInitializedMessage)
      ensures r.Success? ==> r.value == Invocation(cachedStrategy.componentRef.value, methodName, args)
    {
      if !isConnected then Failure(DetachedMessage)
      else if cachedStrategy == null then Failure(NotInitializedMessage)
      else cachedStrategy.ApplyMethod(methodName, args)
    }
  }

  // ---------------------------------------------------------------------------
  // Definition time

  /** A component class: its reflected type, if it can be read, and the names of the
      functions on its prototype. */
  datatype ComponentClass = ComponentClass(mirror: Option<Mirror>, prototypeFunctions: set<string>)

  /** The element configuration; duplicates in the lists are allowed. */
  datatype ElementConfig = ElementConfig(exposedMethods: seq<string>, exposedSignals: seq<string>,
                                         applicationConfig: ConfigSource)

  /** The defined element class: its observed attributes and the properties defined on
      its prototype, in definition order. */
  datatype ElementDefinition = ElementDefinition(
    observedAttributes: seq<string>,
    methods: seq<string>,
    signals: seq<string>,
    inputs: seq<string>)

  function NotAFunctionMessage(name: string): string {
    "Cannot expose method \"" + name + "\" because it is not a function of the component."
  }

  /** The engine's error for a second definition of a non-configurable property. */
  function CannotRedefineMessage(name: string): string {
    "Cannot redefine property: " + name
  }

  /** `new Set(names)` in iteration order: first occurrences, in order. */
  function Dedup(names: seq<string>): (r: seq<string>)
    ensures OrderedSet.NoDup(r)
    ensures forall x :: x in r <==> x in names
  {
    if names == [] then []
    else
      var n := |names| - 1;
      assert names == names[..n] + [names[n]];
      OrderedSet.Add(Dedup(names[..n]), names[n])
  }

  function PropNames(inputs: seq<InputDesc>): (r: seq<string>)
    ensures |r| == |inputs| && forall i :: 0 <= i < |inputs| ==> r[i] == inputs[i].propName
  {
    seq(|inputs|, i requires 0 <= i < |inputs| => inputs[i].propName)
  }

  /** Every property the definition puts on the prototype, in definition order. */
  function DefinedNames(mirror: Mirror, config: ElementConfig): seq<string> {
    Dedup(config.exposedMethods) + Dedup(config.exposedSignals) + PropNames(mirror.inputs)
  }

  /** The definition succeeds: every exposed method is a function of the component, and
      no property is defined twice. */
  predicate Definable(mirror: Mirror, prototypeFunctions: set<string>, config: ElementConfig) {
    && (forall m :: m in config.exposedMethods ==> m in prototypeFunctions)
    && OrderedSet.NoDup(DefinedNames(mirror, config))
  }

  lemma DuplicateAt(names: seq<string>, k: nat)
    requires k < |names| && names[k] in names[..k]
    ensures !OrderedSet.NoDup(names)
    ensures multiset(names)[names[k]] > 1
  {
    var j :| 0 <= j < k && names[..k][j] == names[k];
    assert names[j] == names[k];
    assert names == names[..j] + [names[j]] + names[j + 1..k] + [names[k]] + names[k + 1..];
  }

  /** A duplicate in a prefix is a duplicate of the whole sequence. */
  lemma DuplicateInPrefix(names: seq<string>, k: nat)
    requires k <= |names| && !OrderedSet.NoDup(names[..k])
    ensures !OrderedSet.NoDup(names)
  {
    var i, j :| 0 <= i < j < k && names[..k][i] == names[..k][j];
    assert names[i] == names[j];
  }

  /** The first of `methods` that is not a function of the component, if any. */
  function FirstOutside(methods: seq<string>, functions: set<string>): Option<string> {
    if methods == [] then None
    else if methods[0] !in functions then Some(methods[0])
    else FirstOutside(methods[1..], functions)
  }

  /** `FirstOutside` names the method at the first index that is not a function, and
      finds none exactly when every method is one. */
  lemma {:induction false} FirstOutsideFirst(methods: seq<string>, functions: set<string>)
    ensures FirstOutside(methods, functions).None? <==> forall m :: m in methods ==> m in functions
    ensures FirstOutside(methods, functions).Some? ==>
              exists k :: 0 <= k < |methods| && FirstOutside(methods, functions).value == methods[k]
                          && methods[k] !in functions && forall j :: 0 <= j < k ==> methods[j] in functions
  {
    if methods != [] && methods[0] in functions {
      FirstOutsideFirst(methods[1..], functions);
      assert methods == [methods[0]] + methods[1..];
      if FirstOutside(methods, functions).Some? {
        var k :| 0 <= k < |methods[1..]| && FirstOutside(methods, functions).value == methods[1..][k]
                 && methods[1..][k] !in functions && forall j :: 0 <= j < k ==> methods[1..][j] in functions;
        assert forall j :: 0 <= j < k + 1 ==> methods[j] in functions by {
          forall j | 0 <= j < k + 1 ensures methods[j] in functions {
            if j > 0 { assert methods[j] == methods[1..][j - 1]; }
          }
        }
      }
    } else if methods != [] {
      assert FirstOutside(methods, functions).value == methods[0];
    }
  }

  /** The loop over the exposed methods: the first one that is not a function of the
      component, if any. */
  method FirstNonFunction(methods: seq<string>, prototypeFunctions: set<string>) returns (bad: Option<string>)
    ensures bad.None? <==> forall m :: m in methods ==> m in prototypeFunctions
    ensures bad.Some? ==> exists k :: 0 <= k < |methods| && bad.value == methods[k] && methods[k] !in prototypeFunctions
                                      && forall j :: 0 <= j < k ==> methods[j] in prototypeFunctions
    ensures bad == FirstOutside(methods, prototypeFunctions)
  {
    for i := 0 to |methods|
      invariant forall k :: 0 <= k < i ==> methods[k] in prototypeFunctions
      invariant FirstOutside(methods, prototypeFunctions) == FirstOutside(methods[i..], prototypeFunctions)
    {
      assert methods[i..][0] == methods[i] && methods[i..][1..] == methods[i + 1..];
      if methods[i] !in prototypeFunctions {
        return Some(methods[i]);
      }
    }
    return None;
  }

  /** The first of `names` that is already in `seen` or earlier in `names`: the name at
      which a run of definitions on a prototype holding `seen` throws. */
  function FirstRepeated(seen: seq<string>, names: seq<string>): Option<string>
    decreases |names|
  {
    if names == [] then None
    else if names[0] in seen then Some(names[0])
    else FirstRepeated(seen + [names[0]], names[1..])
  }

  /** `FirstRepeated` names the name at the first index that repeats, and finds none
      exactly when nothing repeats. */
  lemma {:induction false} FirstRepeatedFirst(seen: seq<string>, names: seq<string>)
    ensures FirstRepeated(seen, names).None? <==> forall i :: 0 <= i < |names| ==> names[i] !in seen + names[..i]
    ensures FirstRepeated(seen, names).Some? ==>
              exists i :: 0 <= i < |names| && FirstRepeated(seen, names).value == names[i] && names[i] in seen + names[..i]
                          && forall j :: 0 <= j < i ==> names[j] !in seen + names[..j]
    decreases |names|
  {
    if names != [] && names[0] !in seen {
      var seen' := seen + [names[0]];
      var rest := names[1..];
      FirstRepeatedFirst(seen', rest);
      assert forall i :: 1 <= i <= |names| ==> seen + names[..i] == seen' + rest[..i - 1] by {
        forall i | 1 <= i <= |names| ensures seen + names[..i] == seen' + rest[..i - 1] {
          assert names[..i] == [names[0]] + rest[..i - 1];
        }
      }
      assert names[..0] == [];
      assert forall i :: 1 <= i < |names| ==> names[i] == rest[i - 1];
      if FirstRepeated(seen, names).Some? {
        var i :| 0 <= i < |rest| && FirstRepeated(seen', rest).value == rest[i] && rest[i] in seen' + rest[..i]
                 && forall j :: 0 <= j < i ==> rest[j] !in seen' + rest[..j];
        assert names[i + 1] in seen + names[..i + 1];
        forall j | 0 <= j < i + 1 ensures names[j] !in seen + names[..j] {
          if j > 0 { assert rest[j - 1] !in seen' + rest[..j - 1]; }
        }
      } else {
        forall i | 0 <= i < |names| ensures names[i] !in seen + names[..i] {
          if i > 0 { assert rest[i - 1] !in seen' + rest[..i - 1]; }
        }
      }
    } else if names != [] {
      assert names[..0] == [];
      assert names[0] in seen + names[..0];
    }
  }

  /** Nothing repeats in `names` after `seen` exactly when `seen + names` has no
      duplicate, when `seen` has none. */
  lemma {:induction false} FirstRepeatedNoDup(seen: seq<string>, names: seq<string>)
    requires OrderedSet.NoDup(seen)
    ensures FirstRepeated(seen, names).None? <==> OrderedSet.NoDup(seen + names)
    decreases |names|
  {
    if names != [] {
      assert seen + names == (seen + [names[0]]) + names[1..];
      if names[0] in seen {
        var k :| 0 <= k < |seen| && seen[k] == names[0];
        assert (seen + names)[k] == (seen + names)[|seen|];
      } else {
        FirstRepeatedNoDup(seen + [names[0]], names[1..]);
      }
    } else {
      assert seen + names == seen;
    }
  }

  /** Definitions over `a + b` stop in `a` if they stop there, and otherwise go on into
      `b` with `a` defined. */
  lemma {:induction false} FirstRepeatedAppend(seen: seq<string>, a: seq<string>, b: seq<string>)
    ensures FirstRepeated(seen, a + b)
            == if FirstRepeated(seen, a).Some? then FirstRepeated(seen, a) else FirstRepeated(seen + a, b)
    decreases |a|
  {
    if a == [] {
      assert a + b == b && seen + a == seen;
    } else {
      assert (a + b)[0] == a[0] && (a + b)[1..] == a[1..] + b;
      if a[0] !in seen {
        FirstRepeatedAppend(seen + [a[0]], a[1..], b);
        assert (seen + [a[0]]) + a[1..] == seen + a;
      }
    }
  }

  /** A loop of `Object.defineProperty` calls over `names` on a prototype that already
      has the properties `defined`: each name is added, and the first name already
      present makes the definition throw. */
  method DefineProperties(defined: seq<string>, names: seq<string>) returns (r: Result<seq<string>, string>)
    requires OrderedSet.NoDup(defined)
    ensures r.Success? <==> OrderedSet.NoDup(defined + names)
    ensures r.Success? ==> r.value == defined + names
    ensures r.Failure? ==> exists p :: multiset(defined + names)[p] > 1 && r.error == CannotRedefineMessage(p)
    ensures r.Failure? <==> FirstRepeated(defined, names).Some?
    ensures r.Failure? ==> r.error == CannotRedefineMessage(FirstRepeated(defined, names).value)
  {
    var all := defined + names;
    var current := defined;
    for i := 0 to |names|
      invariant current == defined + names[..i] == all[..|defined| + i]
      invariant OrderedSet.NoDup(current)
      invariant FirstRepeated(defined, names) == FirstRepeated(current, names[i..])
    {
      assert all[|defined| + i] == names[i];
      assert names[i..][0] == names[i] && names[i..][1..] == names[i + 1..];
      if names[i] in current {
        DuplicateAt(all, |defined| + i);
        return Failure(CannotRedefineMessage(names[i]));
      }
      current := current + [names[i]];
      assert all[..|defined| + i + 1] == current;
    }
    assert all[..|defined| + |names|] == all;
    return Success(current);
  }

  /** The definitions run over the exposed methods, which never repeat, then the
      exposed signals, then the inputs: the first repeated name is the first one the
      signals repeat, or else the first one the inputs repeat. */
  lemma DefinitionStopsAt(mirror: Mirror, config: ElementConfig)
    ensures var methods := Dedup(config.exposedMethods);
            var signals := Dedup(config.exposedSignals);
            var first := FirstRepeated(methods, signals);
            FirstRepeated([], DefinedNames(mirror, config))
            == if first.Some? then first else FirstRepeated(methods + signals, PropNames(mirror.inputs))
  {
    var methods := Dedup(config.exposedMethods);
    var signals := Dedup(config.exposedSignals);
    FirstRepeatedAppend([], methods + signals, PropNames(mirror.inputs));
    FirstRepeatedAppend([], methods, signals);
    FirstRepeatedNoDup([], methods);
    assert [] + methods == methods && [] + (methods + signals) == methods + signals;
  }

  /** `createCustomElement`: fails when the component type cannot be read, when an
      exposed method is not a function of the component (the first such one is named),
      or when a property would be defined a second time. */
  method CreateCustomElement(component: ComponentClass, config: ElementConfig) returns (r: Result<ElementDefinition, string>)
    ensures component.mirror.None? ==> r == Failure("Cannot read component type")
    ensures component.mirror.Some? ==>
              (r.Success? <==> Definable(component.mirror.value, component.prototypeFunctions, config))
    ensures r.Success? ==>
              var inputs := component.mirror.value.inputs;
              r.value == ElementDefinition(OrderedMap.KeysOf(Utils.AttributeInputs(inputs)), Dedup(config.exposedMethods),
                                           Dedup(config.exposedSignals), PropNames(inputs))
    ensures r.Failure? && component.mirror.Some? ==>
              || (exists m :: m in config.exposedMethods && m !in component.prototypeFunctions && r.error == NotAFunctionMessage(m))
              || (exists p :: multiset(DefinedNames(component.mirror.value, config))[p] > 1 && r.error == CannotRedefineMessage(p))
    ensures r.Failure? && component.mirror.Some? ==>
              var bad := FirstOutside(Dedup(config.exposedMethods), component.prototypeFunctions);
              var repeated := FirstRepeated([], DefinedNames(component.mirror.value, config));
              if bad.Some? then r.error == NotAFunctionMessage(bad.value)
              else repeated.Some? && r.error == CannotRedefineMessage(repeated.value)
  {
    if component.mirror.None? {
      return Failure("Cannot read component type");
    }
    var mirror := component.mirror.value;
    var attributeInputs := Utils.GetDefaultAttributeToPropertyInputs(mirror.inputs);
    var methods := Dedup(config.exposedMethods);
    var signals := Dedup(config.exposedSignals);
    var inputs := PropNames(mirror.inputs);
    ghost var names := DefinedNames(mirror, config);
    var bad := FirstNonFunction(methods, component.prototypeFunctions);
    if bad.Some? {
      return Failure(NotAFunctionMessage(bad.value));
    }
    // The exposed methods are distinct, so defining them never throws.
    var withSignals := DefineProperties(methods, signals);
    DefinitionStopsAt(mirror, config);
    if withSignals.Failure? {
      assert names == (methods + signals) + inputs;
      assert names[..|methods + signals|] == methods + signals;
      DuplicateInPrefix(names, |methods + signals|);
      assert multiset(names) == multiset(methods + signals) + multiset(inputs);
      return Failure(withSignals.error);
    }
    var withInputs := DefineProperties(withSignals.value, inputs);
    if withInputs.Failure? {
      return Failure(withInputs.error);
    }
    return Success(ElementDefinition(OrderedMap.KeysOf(attributeInputs), methods, signals, inputs));
  }

  /** Exposing a signal input as a signal as well makes the definition fail: the input's
      property is defined a second time. */
  lemma ExposedSignalInputNotDefinable(mirror: Mirror, prototypeFunctions: set<string>, config: ElementConfig, j: nat)
    requires j < |mirror.inputs| && mirror.inputs[j].propName in config.exposedSignals
    ensures !Definable(mirror, prototypeFunctions, config)
  {
    var methods := Dedup(config.exposedMethods);
    var signals := Dedup(config.exposedSignals);
    var names := DefinedNames(mirror, config);
    var k :| 0 <= k < |signals| && signals[k] == mirror.inputs[j].propName;
    assert names[|methods| + k] == names[|methods| + |signals| + j];
  }

  lemma {:induction false} NoDupCount(names: seq<string>, x: string)
    requires OrderedSet.NoDup(names)
    ensures multiset(names)[x] == if x in names then 1 else 0
  {
    if names != [] {
      assert names == [names[0]] + names[1..];
      NoDupCount(names[1..], x);
      assert names[0] !in names[1..];
    }
  }

  /** Exposing the same method or signal several times defines it once. */
  lemma RepeatedExposureDefinedOnce(names: seq<string>, x: string)
    ensures multiset(Dedup(names))[x] == if x in names then 1 else 0
  {
    NoDupCount(Dedup(names), x);
  }
}
