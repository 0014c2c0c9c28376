# ng-elementum in Dafny

This project models the core of ng-elementum. The library turns a component of the
Angular framework into a standard custom element (a web component). Each element:
- creates its own application synchronously, through a promise implementation that
  settles without waiting for a microtask (`SyncPromise`);
- creates the component when it is connected to the document;
- destroys the component in a microtask after it is disconnected, unless it is
  reconnected first;
- forwards attribute and property writes to the component;
- caches property values written while no component exists;
- survives a destruction of the platform while it is still in the document.

The model also covers:
- the platform's registry of create-platform callbacks, and its destroy hook;
- the effect and change-detection schedulers the platform installs;
- the in-memory location strategy of the router;
- the camelCase/dash-case string helpers.

## How it is modelled

The modules are listed below.

- `Wrappers` holds `Option` and `Result`.
- `Framework` holds what the library drives but does not implement:
  - values;
  - component descriptors (`Mirror`);
  - instance members;
  - a trace of the calls made into the framework (`Call`);
  - the application's component lists (`AppRef`).
- `OrderedSet` and `OrderedMap` model JavaScript's insertion-ordered `Set`, `Map` and
  plain-object dictionaries as sequences.
- `Utils` models utils.ts.
- `ElementStrategy` models the component lifecycle the two strategies share, as
  functions on a `State` value.
- `ComponentStrategy` models component-strategy.ts.
- `ComponentFactoryStrategy` models component-factory-strategy.ts.
- `CustomElement` models create-custom-element.ts.
- `Platform` models platform.ts.
- `EffectInterop` models provide-platform-effect-interop.ts.
- `SyncPromise` models create-application-sync.ts.
- `LocationStrategy` models router/src/location-strategy.ts.

Code that updates objects in place is a Dafny `class` whose fields are the source's
fields. Each class has a `Model()` function that returns its state as a value.

Every method is proved against a function on that value. Its contract has the form
`ensures Model() == Step(old(Model()), …)`. The properties the source promises are
lemmas about those functions, such as:
- settle-once;
- first-call-wins for thenables;
- the order in which handlers, effects and cached writes run;
- clamping of the history index;
- create-once and destroy-once of components.

Loops stay loops, with invariants that tie each step to the specifying function. These
loops are:
- the attribute and cache loops of `connectedCallback`;
- draining a promise's handler queue;
- the `forEach` of `SyncPromise.all`;
- the pass of `flushQueue`;
- the listener loop of `triggerPopstate`.

Nothing outside the library is modelled; each such part is an input instead:
- Microtasks are counters of queued closures, run explicitly by `RunMicrotask` and
  `RunMicrotasks` methods.
- The framework's answers are parameters: `isViewDirty`, whether a platform exists,
  and how application creation ends.
- Callbacks supplied by the user have a fixed outcome. They return a given value or
  throw a given error (the callback of `finally` either returns or throws a given
  error), and every call is recorded in a trace.

`SyncPromise` keeps all promise objects in one table, `seq<PState>`. A promise is an
index into that table. The operations are mutually recursive, because settling runs
handlers that resolve other promises. They terminate on the pair (number of pending
promises, size of the value being resolved). Each operation's contract `Evolves` says
that settled rows never change and that the number of pending promises never grows.

## Model

| member | source | states |
|---|---|---|
| Utils.ToLower | libs/ng-elementum/src/lib/utils.ts:14 | an uppercase ASCII letter maps to a lowercase letter at the same position in the alphabet, that is, the same letter |
| Utils.ToUpper | libs/ng-elementum/src/lib/utils.ts:28 | a lowercase letter maps to the uppercase letter whose lowercase form it is; a digit is unchanged |
| Utils.CamelToDashCase | libs/ng-elementum/src/lib/utils.ts:13-15 | the length grows by the number of uppercase letters and none is left; `CamelToDashCaseChar` and `CamelToDashCaseAppend` fix the output of every string |
| Utils.CamelToDashCaseChar | libs/ng-elementum/src/lib/utils.ts:13-15 | an uppercase letter becomes a dash and its lowercase form; any other character is kept |
| Utils.CamelToDashCaseAppend | libs/ng-elementum/src/lib/utils.ts:13-15 | the rewrite works character by character, so it distributes over concatenation |
| Utils.CamelToDashCaseIdentity | libs/ng-elementum/src/lib/utils.ts:13-15 | a string without uppercase letters is left unchanged |
| Utils.CamelToDashCaseIdempotent | libs/ng-elementum/src/lib/utils.ts:13-15 | dash-casing twice is the same as dash-casing once |
| Utils.SomeStringAttribute | libs/ng-elementum/src/lib/utils.ts:13-15 | the input `someString` is observed as the attribute `some-string` |
| Utils.KebabToCamelCase | libs/ng-elementum/src/lib/utils.ts:27-29 | the output is never longer than the input; the rewrite itself is fixed by `KebabToCamelCaseChar`, `KebabToCamelCaseDash` and `KebabToCamelCaseAppend` |
| Utils.KebabToCamelCaseIdentity | libs/ng-elementum/src/lib/utils.ts:27-29 | a string without dashes is left unchanged |
| Utils.KebabToCamelCaseChar | libs/ng-elementum/src/lib/utils.ts:27-29 | a single character is left as it is |
| Utils.KebabToCamelCaseDash | libs/ng-elementum/src/lib/utils.ts:27-29 | a dash followed by a lowercase letter or a digit becomes that character uppercased (a digit stays a digit) |
| Utils.KebabToCamelCaseAppend | libs/ng-elementum/src/lib/utils.ts:27-29 | the rewrite distributes over concatenation unless the left part ends with a dash and the right part starts with a lowercase letter or digit; with the two lemmas above this determines the output of every string |
| Utils.KebabToCamelCaseSamples | libs/ng-elementum/src/lib/utils.ts:27-29 | `-1` becomes `1`, `a-B` is unchanged, and `--a` becomes `-A` |
| Utils.KebabToCamelCaseHead | libs/ng-elementum/src/lib/utils.ts:27-29 | the first output character is a dash only when no match starts at the input's head |
| Utils.KebabToCamelCaseNoDashLower | libs/ng-elementum/src/lib/utils.ts:27-29 | no dash followed by a lowercase letter survives the rewrite |
| Utils.UpperLowerRoundTrip | libs/ng-elementum/src/lib/utils.ts:13-29 | uppercasing the lowercase form of an uppercase letter gives the letter back |
| Utils.DashCaseRoundTrip | libs/ng-elementum/src/lib/utils.ts:13-29 | for a string without dashes, camel-casing its dash-cased form gives the string back |
| Utils.GetDefaultAttributeToPropertyInputs | libs/ng-elementum/src/lib/utils.ts:36-53 | the `forEach` loop builds the dictionary from the inputs in declaration order |
| Utils.AttributeInputs | libs/ng-elementum/src/lib/utils.ts:36-53 | the dictionary the `forEach` builds, one `set` per input in declaration order; its keys and values are stated by `AttributeInputsKeys` and `AttributeInputsLastWins` |
| Utils.AttributeInputsKeys | libs/ng-elementum/src/lib/utils.ts:36-53 | there is exactly one key per distinct dash-cased template name |
| Utils.AttributeInputsLastWins | libs/ng-elementum/src/lib/utils.ts:45-50 | each attribute maps to the property name and transform of the last input carrying it |
| OrderedSet.Add | libs/ng-elementum/src/lib/platform.ts:15 | `set.add` appends a new element at the end and keeps an existing one in place; no duplicate is created |
| OrderedSet.Delete | libs/ng-elementum/src/lib/platform.ts:19 | `set.delete` removes the element and no other, and never creates a duplicate; `DeletePresent` states that the others keep their order |
| OrderedSet.DeleteAbsent | libs/ng-elementum/src/lib/platform.ts:19 | deleting an absent element changes nothing |
| OrderedSet.DeletePresent | libs/ng-elementum/src/lib/platform.ts:19 | deleting a present element of a duplicate-free set removes it at its position, and the other elements keep their order |
| OrderedSet.AddIdempotent | libs/ng-elementum/src/lib/platform.ts:15 | adding an element twice keeps a single copy |
| OrderedSet.DeleteAfterAdd | libs/ng-elementum/src/lib/platform.ts:14-20 | adding and then deleting a new element gives the set back |
| OrderedSet.DeleteAppended | libs/ng-elementum/src/lib/platform.ts:14-20 | deleting the last-appended element removes exactly that entry |
| OrderedMap.KeysOf | libs/ng-elementum/src/lib/create-custom-element.ts:103-117 | the keys of a dictionary, in iteration order |
| OrderedMap.Get | libs/ng-elementum/src/lib/create-custom-element.ts:144 | `map.get(k)` finds the value stored under `k` exactly when `k` is a key |
| OrderedMap.GetEntry | libs/ng-elementum/src/lib/create-custom-element.ts:144 | with unique keys, the value of a stored entry is what `get` returns |
| OrderedMap.Put | libs/ng-elementum/src/lib/create-custom-element.ts:148 | `map.set(k, v)` stores `v` under `k` |
| OrderedMap.PutKeys | libs/ng-elementum/src/lib/create-custom-element.ts:148 | a new key is appended at the end of the iteration order, and existing keys keep their order |
| OrderedMap.PutUnique | libs/ng-elementum/src/lib/create-custom-element.ts:148 | `set` never introduces a duplicate key |
| OrderedMap.PutExisting | libs/ng-elementum/src/lib/create-custom-element.ts:148 | writing an existing key keeps its position and changes only its value |
| OrderedMap.PutNew | libs/ng-elementum/src/lib/create-custom-element.ts:148 | writing a new key appends its entry at the end |
| Framework.Coalesce | libs/ng-elementum/src/lib/create-custom-element.ts:144 | `??` returns the value unless it is `undefined` or `null`, in which case it returns the fallback |
| Framework.InputMap | libs/ng-elementum/src/lib/component-strategy.ts:58-60 | the `inputMap` filled in the constructor, one entry per input in declaration order; its domain and entries are stated by `InputMapDomain` and `InputMapLookup` |
| Framework.InputMapLookup | libs/ng-elementum/src/lib/component-strategy.ts:58-60 | a declared input's property is found in `inputMap`, mapped to the template name of the last input declaring it |
| Framework.InputMapDomain | libs/ng-elementum/src/lib/component-strategy.ts:58-60 | a property is a key of `inputMap` exactly when it is a declared input |
| Framework.InputNamed | libs/ng-elementum/src/lib/component-strategy.ts:150-153 | the input that a template name designates is a declared input with that name; none exists only when no input has it |
| Framework.SetInputEffect | libs/ng-elementum/src/lib/component-strategy.ts:150-153 | `setInput` stores the transformed value in the designated input and leaves the other members alone; an unknown name changes nothing |
| Framework.IndexOf | libs/ng-elementum/src/lib/component-strategy.ts:106 | `indexOf` gives the first index holding the element, or -1 exactly when the element is absent |
| Framework.SpliceOne | libs/ng-elementum/src/lib/component-strategy.ts:105-108 | `splice(i, 1)` removes index `i`; an index past the end, or any index on an empty array, changes nothing |
| Framework.SpliceOneLast | libs/ng-elementum/src/lib/component-strategy.ts:105-108 | `splice(-1, 1)` counts from the end and removes the last element |
| Framework.SpliceOut | libs/ng-elementum/src/lib/component-strategy.ts:105-112 | the `splice(indexOf(x), 1)` idiom; `SpliceOutPresent` and `SpliceOutAbsent` state what it removes |
| Framework.SpliceOutPresent | libs/ng-elementum/src/lib/component-strategy.ts:105-112 | removing a present element removes exactly one occurrence of it |
| Framework.SpliceOutAbsent | libs/ng-elementum/src/lib/component-strategy.ts:105-112 | for an absent element, `indexOf` gives -1 and the splice drops the last element |
| ElementStrategy.Disconnect | libs/ng-elementum/src/lib/component-strategy.ts:86-95 | one teardown is queued exactly when a component exists and no destruction is scheduled; nothing else changes |
| ElementStrategy.Connect | libs/ng-elementum/src/lib/component-strategy.ts:69-80 | a scheduled destruction is only cancelled; a component is created only when none exists and none is being destroyed; otherwise nothing changes |
| ElementStrategy.Teardown | libs/ng-elementum/src/lib/component-strategy.ts:96-115 | one microtask leaves the queue and no destruction stays scheduled; with the token cleared nothing else changes; with the token set the component is destroyed, once, and spliced out of the application's list |
| ElementStrategy.Drain | libs/ng-elementum/src/lib/component-strategy.ts:96-115 | running the queued teardowns empties the microtask queue |
| ElementStrategy.TeardownPreservesInv | libs/ng-elementum/src/lib/component-strategy.ts:96-115 | the teardown keeps the lifecycle invariant and leaves no destruction scheduled |
| ElementStrategy.DrainPreservesInv | libs/ng-elementum/src/lib/component-strategy.ts:96-115 | draining all teardowns keeps the lifecycle invariant |
| ElementStrategy.DisconnectPreservesInv | libs/ng-elementum/src/lib/component-strategy.ts:86-95 | `disconnect` keeps the lifecycle invariant |
| ElementStrategy.ConnectPreservesInv | libs/ng-elementum/src/lib/component-strategy.ts:69-80 | `connect` keeps the lifecycle invariant |
| ElementStrategy.DrainIdle | libs/ng-elementum/src/lib/component-strategy.ts:97-99 | once the token is cleared, the queued teardowns only leave the queue |
| ElementStrategy.ConnectCancelsDestroy | libs/ng-elementum/src/lib/component-strategy.ts:72-75 | `connect` during a scheduled destruction only cancels it |
| ElementStrategy.ConnectCreatesOnce | libs/ng-elementum/src/lib/component-strategy.ts:77-79 | `connect` creates a component only when none exists, and a second `connect` changes nothing |
| ElementStrategy.ReattachKeepsComponent | libs/ng-elementum/src/lib/component-strategy.ts:69-116 | disconnecting and reconnecting before the microtasks run keeps the same component |
| ElementStrategy.DetachDestroys | libs/ng-elementum/src/lib/component-strategy.ts:86-116 | after a disconnect and the microtasks, the component is destroyed once and one entry is removed from each application list |
| ElementStrategy.ReattachAfterDrainRecreates | libs/ng-elementum/src/lib/component-strategy.ts:69-116 | after a drained disconnect, `connect` creates a component with a new identity |
| ElementStrategy.LifecycleBalance | libs/ng-elementum/src/lib/component-strategy.ts:186-209 | creating a component and tearing it down leaves both application lists as they were |
| ComponentStrategy.Initialize | libs/ng-elementum/src/lib/component-strategy.ts:186-209 | creates a component with the next identity, adds it to both lists, and makes the calls in order from `createComponent` to the bootstrap listeners |
| ComponentStrategy.Read | libs/ng-elementum/src/lib/component-strategy.ts:122-136 | a value is available exactly when a component exists and the property is a signal without a transform; the value is the signal's value |
| ComponentStrategy.WriteValue | libs/ng-elementum/src/lib/component-strategy.ts:142-172 | `setValue` on the state; its calls are stated by `SetValueCalls`, its effect on reads by `SetSignalThenRead` and `SetInputThenRead`, and the detached case by `SetValueDetached` |
| ComponentStrategy.SetValueDetached | libs/ng-elementum/src/lib/component-strategy.ts:142-145 | without a component, `setValue` changes nothing |
| ComponentStrategy.SetValueCalls | libs/ng-elementum/src/lib/component-strategy.ts:142-172 | see the note after the table |
| ComponentStrategy.SetSignalThenRead | libs/ng-elementum/src/lib/component-strategy.ts:154-155 | a write to a writable signal reads back through `getValue` |
| ComponentStrategy.SetInputThenRead | libs/ng-elementum/src/lib/component-strategy.ts:147-153 | a write to a declared signal input without a transform reads back through `getValue` |
| ComponentStrategy.NgElementumStrategy.constructor | libs/ng-elementum/src/lib/component-strategy.ts:55-63 | the loop fills `inputMap` from the declared inputs; no component exists yet |
| ComponentStrategy.NgElementumStrategy.Connect | libs/ng-elementum/src/lib/component-strategy.ts:69-80 | the new state is `Connect` of the old state, and the invariant is kept |
| ComponentStrategy.NgElementumStrategy.InitializeComponent | libs/ng-elementum/src/lib/component-strategy.ts:186-209 | the new state is `Initialize` of the old state |
| ComponentStrategy.NgElementumStrategy.InitializeOutputs | libs/ng-elementum/src/lib/component-strategy.ts:212-228 | one subscription per output, in declaration order, each under the dash-cased template name |
| ComponentStrategy.NgElementumStrategy.Disconnect | libs/ng-elementum/src/lib/component-strategy.ts:86-116 | the new state is `Disconnect` of the old state |
| ComponentStrategy.NgElementumStrategy.RunTeardown | libs/ng-elementum/src/lib/component-strategy.ts:96-115 | the queued closure runs as `Teardown`, and the invariant is kept |
| ComponentStrategy.NgElementumStrategy.RunMicrotasks | libs/ng-elementum/src/lib/component-strategy.ts:96-115 | the loop ends in the state `Drain` computes |
| ComponentStrategy.NgElementumStrategy.GetValue | libs/ng-elementum/src/lib/component-strategy.ts:122-136 | equals `Read` on the model; `UNAVAILABLE` when there is no component |
| ComponentStrategy.NgElementumStrategy.SetValue | libs/ng-elementum/src/lib/component-strategy.ts:142-172 | the new state is `WriteValue` of the old state |
| ComponentStrategy.NgElementumStrategy.ApplyMethod | libs/ng-elementum/src/lib/component-strategy.ts:174-180 | fails with "Component is detached from DOM" exactly when there is no component; otherwise it invokes the method with the arguments |
| ComponentFactoryStrategy.Initialize | libs/ng-elementum/src/lib/component-factory-strategy.ts:181-201 | a creation: the next identity, the token and queue kept, the component and its type appended to the application's lists, and the cache cleared; `InitializeReplaysInOrder` states the order of the calls |
| ComponentFactoryStrategy.InitializeReplaysInOrder | libs/ng-elementum/src/lib/component-factory-strategy.ts:181-210 | the component is created first, then every cached value reaches `setInput` once in insertion order under its template name, and only then are the outputs subscribed and the view attached and checked |
| ComponentFactoryStrategy.Created | libs/ng-elementum/src/lib/component-factory-strategy.ts:186-191 | the state right after `createComponent`: the next identity is the component, the instance has the mirror's members, and the creation is recorded; `InitializeReplaysInOrder` states what follows |
| ComponentFactoryStrategy.WriteInput | libs/ng-elementum/src/lib/component-factory-strategy.ts:147-167 | `setInputValue` on the state; `CachedWriteThenRead` states the detached case and `WriteInputLive` the live one |
| ComponentFactoryStrategy.ReadInput | libs/ng-elementum/src/lib/component-factory-strategy.ts:129-141 | `getInputValue` on the state; `CachedWriteThenRead` states that a cached write reads back |
| ComponentFactoryStrategy.Replay | libs/ng-elementum/src/lib/component-factory-strategy.ts:204-210 | the `initializeInputs` loop as a function, one write per cached entry; `ReplayLifecycle` and `ReplayOrder` state what it does |
| ComponentFactoryStrategy.SetInputsInAppend | libs/ng-elementum/src/lib/component-factory-strategy.ts:204-210 | the `setInput` calls of a concatenated trace are the concatenation of the `setInput` calls of its parts |
| ComponentFactoryStrategy.ReplayLifecycle | libs/ng-elementum/src/lib/component-factory-strategy.ts:204-207 | replaying into a live component only appends to the trace |
| ComponentFactoryStrategy.WriteInputLive | libs/ng-elementum/src/lib/component-factory-strategy.ts:153-166 | with a component, a write makes one `setInput` call, plus the refresh calls when the view is dirty |
| ComponentFactoryStrategy.SetInputsInSnoc | libs/ng-elementum/src/lib/component-factory-strategy.ts:153-166 | one write adds exactly its `setInput` call |
| ComponentFactoryStrategy.SetInputsInNone | libs/ng-elementum/src/lib/component-factory-strategy.ts:156-166 | a trace with no `setInput` call yields no `setInput` calls |
| ComponentFactoryStrategy.ReplayedInputsSnoc | libs/ng-elementum/src/lib/component-factory-strategy.ts:205-207 | the expected replay of a dictionary extends by its last entry |
| ComponentFactoryStrategy.ReplayOrder | libs/ng-elementum/src/lib/component-factory-strategy.ts:204-210 | `initializeInputs` passes every cached value to `setInput` once, in the cache's insertion order, under the template name |
| ComponentFactoryStrategy.CachedWriteThenRead | libs/ng-elementum/src/lib/component-factory-strategy.ts:129-151 | before the component exists, a write only fills the cache; it reads back, and other properties are unaffected |
| ComponentFactoryStrategy.ComponentNgElementumStrategy.constructor | libs/ng-elementum/src/lib/component-factory-strategy.ts:62-70 | fills `inputMap` from the declared inputs; no component exists yet |
| ComponentFactoryStrategy.ComponentNgElementumStrategy.Connect | libs/ng-elementum/src/lib/component-factory-strategy.ts:76-87 | the new state is `Connect` of the old state, with the factory's `Initialize` |
| ComponentFactoryStrategy.ComponentNgElementumStrategy.InitializeComponent | libs/ng-elementum/src/lib/component-factory-strategy.ts:181-201 | the new state is the factory's `Initialize` of the old state |
| ComponentFactoryStrategy.ComponentNgElementumStrategy.InitializeInputs | libs/ng-elementum/src/lib/component-factory-strategy.ts:204-210 | the loop replays the cache in order and then clears it |
| ComponentFactoryStrategy.ComponentNgElementumStrategy.InitializeOutputs | libs/ng-elementum/src/lib/component-factory-strategy.ts:213-229 | one subscription per output, in declaration order |
| ComponentFactoryStrategy.ComponentNgElementumStrategy.Disconnect | libs/ng-elementum/src/lib/component-factory-strategy.ts:93-123 | the new state is `Disconnect` of the old state |
| ComponentFactoryStrategy.ComponentNgElementumStrategy.RunTeardown | libs/ng-elementum/src/lib/component-factory-strategy.ts:103-122 | the queued closure runs as `Teardown` |
| ComponentFactoryStrategy.ComponentNgElementumStrategy.RunMicrotasks | libs/ng-elementum/src/lib/component-factory-strategy.ts:103-122 | the loop ends in the state `Drain` computes |
| ComponentFactoryStrategy.ComponentNgElementumStrategy.GetInputValue | libs/ng-elementum/src/lib/component-factory-strategy.ts:129-141 | the cached value (`undefined` if there is none) before the component exists; afterwards the member's value, read through a signal |
| ComponentFactoryStrategy.ComponentNgElementumStrategy.SetInputValue | libs/ng-elementum/src/lib/component-factory-strategy.ts:147-167 | the new state is `WriteInput` of the old state: the value is cached without a component and goes to `setInput` with one |
| ComponentFactoryStrategy.ComponentNgElementumStrategy.ApplyMethod | libs/ng-elementum/src/lib/component-factory-strategy.ts:169-175 | fails exactly when there is no component |
| CustomElement.GetApplicationConfig | libs/ng-elementum/src/lib/create-custom-element.ts:403-426 | no configuration exactly when a resolver finds no platform; otherwise the user's providers in order, followed by zoneless change detection |
| CustomElement.AddZoneless | libs/ng-elementum/src/lib/create-custom-element.ts:403-407 | the configuration merged with zoneless change detection, placed after the user's providers; `GetApplicationConfig` states the result |
| CustomElement.AttributeWrites | libs/ng-elementum/src/lib/create-custom-element.ts:103-113 | at most one write per attribute input, in dictionary order, for the attributes present |
| CustomElement.LastWrite | libs/ng-elementum/src/lib/create-custom-element.ts:103-117 | the last write to a property exists exactly when some write names it, and it is one of the writes |
| CustomElement.LastWriteAppend | libs/ng-elementum/src/lib/create-custom-element.ts:103-117 | the last write in `a + b` is the one in `b` when there is one, otherwise the one in `a` |
| CustomElement.LastWriteGet | libs/ng-elementum/src/lib/create-custom-element.ts:115-117 | for a dictionary with unique keys, the last write of a key is its entry |
| CustomElement.CachedValuesWrittenLast | libs/ng-elementum/src/lib/create-custom-element.ts:101-117 | a cached property value overrides the attribute, because the cache is replayed after the attributes |
| CustomElement.AttributePresentAtConnectIsWritten | libs/ng-elementum/src/lib/create-custom-element.ts:103-113 | a present attribute is written, transformed, to the property of the last input that has it |
| CustomElement.AttributeWritesHas | libs/ng-elementum/src/lib/create-custom-element.ts:103-113 | every present attribute of the dictionary produces a write |
| CustomElement.WriteAllSnoc | libs/ng-elementum/src/lib/create-custom-element.ts:103-117 | one more write is one more `setValue` |
| CustomElement.WriteAllAppend | libs/ng-elementum/src/lib/create-custom-element.ts:103-117 | two lists of writes applied in turn are their concatenation applied at once |
| CustomElement.WriteAllLifecycle | libs/ng-elementum/src/lib/create-custom-element.ts:103-117 | writes never create, destroy or schedule a component |
| CustomElement.WriteAll | libs/ng-elementum/src/lib/create-custom-element.ts:103-117 | the writes `connectedCallback` makes, one `setValue` after another; `WriteAllSnoc`, `WriteAllAppend` and `WriteAllLifecycle` state its properties |
| CustomElement.ConnectState | libs/ng-elementum/src/lib/create-custom-element.ts:101-117 | `connect`, then the attribute writes, then the cached writes; `FirstConnectCreates`, `ReconnectKeepsComponent` and `CachedValuesWrittenLast` state its properties |
| CustomElement.FirstConnectCreates | libs/ng-elementum/src/lib/create-custom-element.ts:93-118 | the first connection of a new strategy creates the first component of its application |
| CustomElement.ReconnectKeepsComponent | libs/ng-elementum/src/lib/create-custom-element.ts:93-133 | reconnecting during a scheduled destruction keeps the component, and the teardown does nothing |
| CustomElement.ReadThrough | libs/ng-elementum/src/lib/create-custom-element.ts:135-145 | an available value is cached and returned; otherwise the cache is kept and its value is returned, with `null` for a nullish or missing one; never `undefined` |
| CustomElement.CachedWriteReadsBack | libs/ng-elementum/src/lib/create-custom-element.ts:135-151 | a value written while detached reads back, with `null` for a nullish value |
| CustomElement.NgElementum.constructor | libs/ng-elementum/src/lib/create-custom-element.ts:59-70 | the caches are empty, there is no strategy, and removal is allowed |
| CustomElement.NgElementum.CreateStrategy | libs/ng-elementum/src/lib/create-custom-element.ts:175-208 | no strategy without a configuration or with an application already destroyed; a creation error propagates; otherwise a new strategy |
| CustomElement.NgElementum.Strategy | libs/ng-elementum/src/lib/create-custom-element.ts:213-216 | returns the cached strategy, or a new one that is then cached |
| CustomElement.NgElementum.ConnectedCallback | libs/ng-elementum/src/lib/create-custom-element.ts:93-118 | without a strategy, the element registers for the next platform; otherwise the strategy reaches the state `ConnectState` computes |
| CustomElement.NgElementum.ConnectStrategy | libs/ng-elementum/src/lib/create-custom-element.ts:101-117 | connect, then the attribute writes, then the cache writes |
| CustomElement.NgElementum.WriteAttributes | libs/ng-elementum/src/lib/create-custom-element.ts:103-113 | the loop applies `AttributeWrites` in order |
| CustomElement.NgElementum.WriteCache | libs/ng-elementum/src/lib/create-custom-element.ts:115-117 | the loop applies the cache in insertion order |
| CustomElement.NgElementum.DisconnectedCallback | libs/ng-elementum/src/lib/create-custom-element.ts:124-133 | the element leaves the registry, and an existing strategy disconnects |
| CustomElement.NgElementum.Insert | libs/ng-elementum/src/lib/create-custom-element.ts:93-118 | insertion connects the element and runs `connectedCallback` |
| CustomElement.NgElementum.GetValue | libs/ng-elementum/src/lib/create-custom-element.ts:135-145 | cache and result as `ReadThrough` gives them |
| CustomElement.NgElementum.SetValue | libs/ng-elementum/src/lib/create-custom-element.ts:147-151 | the value is cached, and is written through when there is a strategy |
| CustomElement.NgElementum.SetSignalValue | libs/ng-elementum/src/lib/create-custom-element.ts:153-157 | the value goes into the signals cache and is written through when there is a strategy |
| CustomElement.NgElementum.AttributeChangedCallback | libs/ng-elementum/src/lib/create-custom-element.ts:79-87 | the new value is written, untransformed, to the attribute's property and cached; a removed attribute (new value `null`) writes `null` |
| CustomElement.NgElementum.SetAttribute | libs/ng-elementum/src/lib/create-custom-element.ts:79-87 | only an observed attribute reaches `attributeChangedCallback`, with its new text |
| CustomElement.NgElementum.RemoveAttribute | libs/ng-elementum/src/lib/create-custom-element.ts:79-87 | removing a present observed attribute caches `null` for its property and writes `null` through; removing an absent or unobserved attribute changes no property |
| CustomElement.NgElementum.Remove | libs/ng-elementum/src/lib/create-custom-element.ts:159-169 | while removal is prevented, only the content is cleared (an open shadow root's, otherwise the light DOM, also under a closed root); otherwise the element is disconnected |
| CustomElement.VisibleShadowRoot | libs/ng-elementum/src/lib/create-custom-element.ts:160-172 | `this.shadowRoot` shows the attached root exactly when it is open, and `null` for a closed one |
| CustomElement.ContentCleared | libs/ng-elementum/src/lib/create-custom-element.ts:159-169 | an open shadow root's content is emptied; with no root or a closed one, the element's own content is emptied and the root kept; used in the contracts of `Remove`, `ApplicationDestroyed` and `PlatformDestroyed` |
| CustomElement.NgElementum.AttachShadow | libs/ng-elementum/src/lib/create-custom-element.ts:171-173 | an existing open root is returned instead of a second one; without a root one of the requested mode is attached; with a closed root the DOM's `attachShadow` throws `NotSupportedError` |
| CustomElement.NgElementum.ApplicationDestroyed | libs/ng-elementum/src/lib/create-custom-element.ts:200-202 | the application's destruction forgets the strategy |
| CustomElement.NgElementum.PlatformDestroyed | libs/ng-elementum/src/lib/create-custom-element.ts:190-198 | the element stays in the document and loses only its content; a connected element waits for the next platform |
| CustomElement.NgElementum.CallExposed | libs/ng-elementum/src/lib/create-custom-element.ts:358-370 | fails when detached or uninitialized, with the two messages; otherwise it calls `applyMethod` |
| CustomElement.Dedup | libs/ng-elementum/src/lib/create-custom-element.ts:349 | `new Set(list)`: no duplicates, and the same elements |
| CustomElement.PropNames | libs/ng-elementum/src/lib/create-custom-element.ts:387 | the property name of each input, in order |
| CustomElement.DuplicateAt | libs/ng-elementum/src/lib/create-custom-element.ts:358 | a repeated name is a duplicate |
| CustomElement.DuplicateInPrefix | libs/ng-elementum/src/lib/create-custom-element.ts:358-398 | a duplicate in a prefix is a duplicate of the whole sequence |
| CustomElement.FirstOutsideFirst | libs/ng-elementum/src/lib/create-custom-element.ts:349-357 | `FirstOutside` names the method at the first index that is not a function, and none exactly when all are |
| CustomElement.FirstNonFunction | libs/ng-elementum/src/lib/create-custom-element.ts:349-357 | none exactly when every exposed method is a function of the component; otherwise the first one, in iteration order, that is not |
| CustomElement.FirstRepeatedFirst | libs/ng-elementum/src/lib/create-custom-element.ts:358-398 | `FirstRepeated` names the name at the first index already defined before it, and none exactly when no name repeats |
| CustomElement.FirstRepeatedNoDup | libs/ng-elementum/src/lib/create-custom-element.ts:358-398 | no name repeats exactly when the defined names together have no duplicate |
| CustomElement.FirstRepeatedAppend | libs/ng-elementum/src/lib/create-custom-element.ts:358-398 | definitions over two lists stop in the first if they stop there, and otherwise in the second with the first defined |
| CustomElement.DefineProperties | libs/ng-elementum/src/lib/create-custom-element.ts:358-398 | succeeds exactly when no name is defined twice, with all names defined in order; otherwise it fails with the engine's redefinition error for the first repeated name |
| CustomElement.DefinitionStopsAt | libs/ng-elementum/src/lib/create-custom-element.ts:349-398 | the first repeated property of the whole definition is the first one the signals repeat, or else the first one the inputs repeat |
| CustomElement.CreateCustomElement | libs/ng-elementum/src/lib/create-custom-element.ts:319-401 | fails on an unreadable component type; succeeds exactly when the configuration is definable; the definition lists the observed attributes and the defined properties; a failure names the first exposed method that is not a function, and only when there is none the first property defined twice |
| CustomElement.ExposedSignalInputNotDefinable | libs/ng-elementum/src/lib/create-custom-element.ts:373-398 | exposing an input as a signal as well redefines the property, so the definition fails |
| CustomElement.NoDupCount | libs/ng-elementum/src/lib/create-custom-element.ts:349 | each element of a list without duplicates occurs once |
| CustomElement.RepeatedExposureDefinedOnce | libs/ng-elementum/src/lib/create-custom-element.ts:349-384 | a method or signal listed twice is defined once |
| Platform.CreatePlatformListeners.constructor | libs/ng-elementum/src/lib/platform.ts:12 | the registry starts empty |
| Platform.CreatePlatformListeners.OnCreatePlatform | libs/ng-elementum/src/lib/platform.ts:14-16 | the new registry is `Add` of the old one; a callback registered twice is kept once |
| Platform.CreatePlatformListeners.OffCreatePlatform | libs/ng-elementum/src/lib/platform.ts:18-20 | the new registry is `Delete` of the old one |
| Platform.CreatePlatformListeners.NotifyAll | libs/ng-elementum/src/lib/platform.ts:28 | the callbacks are called once each, in registration order, and the registry is kept; the first throwing callback is the last one called, and its error is reported |
| Platform.RunHook | libs/ng-elementum/src/lib/platform.ts:35-40 | the microtask destroys the ref only if it is not destroyed yet |
| Platform.PlatformDestroyed | libs/ng-elementum/src/lib/platform.ts:34-35 | the platform's destroy hook queues one microtask; `DrainHooksOnce` states that any number of them destroy the ref at most once |
| Platform.DrainHooks | libs/ng-elementum/src/lib/platform.ts:34-41 | every queued microtask runs |
| Platform.DrainHooksOnce | libs/ng-elementum/src/lib/platform.ts:34-41 | however many destructions are queued, the hook destroys the ref at most once |
| Platform.PlatformInitializer.constructor | libs/ng-elementum/src/lib/platform.ts:27-42 | nothing is registered or destroyed yet |
| Platform.PlatformInitializer.Initialize | libs/ng-elementum/src/lib/platform.ts:27-42 | calls the registered callbacks in order, then registers the destroy hook; a throwing callback stops the calls after it and the hook is not registered |
| Platform.PlatformInitializer.OnPlatformDestroy | libs/ng-elementum/src/lib/platform.ts:34-35 | a registered hook queues one microtask |
| Platform.PlatformInitializer.DestroyElsewhere | libs/ng-elementum/src/lib/platform.ts:36 | the ref is destroyed by someone else, and the invariant is kept |
| Platform.PlatformInitializer.RunMicrotask | libs/ng-elementum/src/lib/platform.ts:35-40 | the new state is `RunHook` of the old state; at most one destroy by the hook |
| EffectInterop.DirtyIn | libs/ng-elementum/src/lib/provide-platform-effect-interop.ts:55-58 | the dirty handles of the set, in set order, with no duplicates |
| EffectInterop.ScheduleEffect | libs/ng-elementum/src/lib/provide-platform-effect-interop.ts:24-30 | only a dirty handle is counted |
| EffectInterop.AddEffect | libs/ng-elementum/src/lib/provide-platform-effect-interop.ts:19-22 | the handle joins the set once and is scheduled |
| EffectInterop.RemoveEffect | libs/ng-elementum/src/lib/provide-platform-effect-interop.ts:32-38 | the handle leaves the set, and a dirty handle is uncounted |
| EffectInterop.MarkEffectDirty | libs/ng-elementum/src/lib/provide-platform-effect-interop.ts:9-12 | the framework marks a clean handle dirty and schedules it |
| EffectInterop.PassOver | libs/ng-elementum/src/lib/provide-platform-effect-interop.ts:55-64 | the `for … of` over the queue from a given handle on; `PassOverCount`, `PassOverRuns` and `PassOverDirty` state its effect |
| EffectInterop.Pass | libs/ng-elementum/src/lib/provide-platform-effect-interop.ts:52-67 | one `flushQueue` pass over the whole queue; `PassSpec` states its effect |
| EffectInterop.PassOverCount | libs/ng-elementum/src/lib/provide-platform-effect-interop.ts:52-67 | each run of a pass costs one count, and the set is unchanged |
| EffectInterop.PassOverRuns | libs/ng-elementum/src/lib/provide-platform-effect-interop.ts:55-64 | a pass runs the dirty handles it visits, in order, once each |
| EffectInterop.PassOverDirty | libs/ng-elementum/src/lib/provide-platform-effect-interop.ts:55-64 | a pass leaves every handle it visited clean and touches no other |
| EffectInterop.DirtyInCons | libs/ng-elementum/src/lib/provide-platform-effect-interop.ts:55-58 | the dirty handles of a set that starts with `h` |
| EffectInterop.DirtyInClean | libs/ng-elementum/src/lib/provide-platform-effect-interop.ts:55-58 | cleaning a handle outside the set does not change the set's dirty handles |
| EffectInterop.PassSpec | libs/ng-elementum/src/lib/provide-platform-effect-interop.ts:52-67 | see the note after the table |
| EffectInterop.FlushEffects | libs/ng-elementum/src/lib/provide-platform-effect-interop.ts:40-46 | passes repeat while the counter is positive; a pass that runs nothing resets the counter |
| EffectInterop.FlushSpec | libs/ng-elementum/src/lib/provide-platform-effect-interop.ts:40-46 | `flush` ends with the counter not positive; with work, every dirty handle runs once, in order, and none stays dirty |
| EffectInterop.FlushAccounted | libs/ng-elementum/src/lib/provide-platform-effect-interop.ts:40-67 | with exact counting, a flush runs each dirty handle once and keeps the counting exact |
| EffectInterop.AddAccounted | libs/ng-elementum/src/lib/provide-platform-effect-interop.ts:19-30 | adding a new handle keeps the counting exact |
| EffectInterop.RemoveAccounted | libs/ng-elementum/src/lib/provide-platform-effect-interop.ts:32-38 | removing a handle keeps the counting exact |
| EffectInterop.DirtyInDelete | libs/ng-elementum/src/lib/provide-platform-effect-interop.ts:33 | deleting a handle removes it from the dirty handles of the set |
| EffectInterop.MarkDirtyAccounted | libs/ng-elementum/src/lib/provide-platform-effect-interop.ts:24-30 | marking a clean handle of the set dirty keeps the counting exact |
| EffectInterop.DirtyInAdd | libs/ng-elementum/src/lib/provide-platform-effect-interop.ts:48-50 | a handle that becomes dirty joins the set's dirty handles at its place |
| EffectInterop.PlatformEffectScheduler.constructor | libs/ng-elementum/src/lib/provide-platform-effect-interop.ts:15-17 | zero count and an empty set |
| EffectInterop.PlatformEffectScheduler.Add | libs/ng-elementum/src/lib/provide-platform-effect-interop.ts:19-22 | the new state is `AddEffect` of the old state |
| EffectInterop.PlatformEffectScheduler.Schedule | libs/ng-elementum/src/lib/provide-platform-effect-interop.ts:24-30 | the new state is `ScheduleEffect` of the old state |
| EffectInterop.PlatformEffectScheduler.Remove | libs/ng-elementum/src/lib/provide-platform-effect-interop.ts:32-38 | the new state is `RemoveEffect` of the old state |
| EffectInterop.PlatformEffectScheduler.Enqueue | libs/ng-elementum/src/lib/provide-platform-effect-interop.ts:48-50 | the set gains the handle once |
| EffectInterop.PlatformEffectScheduler.MarkDirty | libs/ng-elementum/src/lib/provide-platform-effect-interop.ts:9-12 | the new state is `MarkEffectDirty` of the old state |
| EffectInterop.PlatformEffectScheduler.Run | libs/ng-elementum/src/lib/provide-platform-effect-interop.ts:63 | the handle runs and is clean again |
| EffectInterop.PlatformEffectScheduler.FlushQueue | libs/ng-elementum/src/lib/provide-platform-effect-interop.ts:52-67 | the loop performs one `Pass`, and returns whether it ran anything |
| EffectInterop.PlatformEffectScheduler.Flush | libs/ng-elementum/src/lib/provide-platform-effect-interop.ts:40-46 | the loop ends in the state `FlushEffects` computes |
| EffectInterop.NotifyState | libs/ng-elementum/src/lib/provide-platform-effect-interop.ts:76-85 | a tick is scheduled afterwards; a microtask is queued only if none was scheduled |
| EffectInterop.TickState | libs/ng-elementum/src/lib/provide-platform-effect-interop.ts:87-92 | the flag is cleared, one microtask is consumed, and the effects are flushed |
| EffectInterop.NotifyCoalesces | libs/ng-elementum/src/lib/provide-platform-effect-interop.ts:76-85 | however many notifications arrive, at most one tick is pending |
| EffectInterop.TickKeepsInv | libs/ng-elementum/src/lib/provide-platform-effect-interop.ts:87-92 | a tick keeps the scheduler invariant and leaves nothing pending |
| EffectInterop.EffectRunsAfterMicrotask | libs/ng-elementum/src/lib/provide-platform-effect-interop.ts:76-92 | a changed effect runs in the tick and not before, and only once |
| EffectInterop.PlatformChangeDetectionScheduler.constructor | libs/ng-elementum/src/lib/provide-platform-effect-interop.ts:72-74 | nothing is scheduled |
| EffectInterop.PlatformChangeDetectionScheduler.Notify | libs/ng-elementum/src/lib/provide-platform-effect-interop.ts:76-85 | the new state is `NotifyState` of the old state |
| EffectInterop.PlatformChangeDetectionScheduler.RunMicrotask | libs/ng-elementum/src/lib/provide-platform-effect-interop.ts:82-84 | the queued microtask runs `tick` |
| EffectInterop.PlatformChangeDetectionScheduler.Tick | libs/ng-elementum/src/lib/provide-platform-effect-interop.ts:87-92 | the flags are cleared and the effects are flushed |
| SyncPromise.EvolvesTrans | libs/ng-elementum/src/lib/create-application-sync.ts:132-205 | see the note after the table |
| SyncPromise.EvolvesKeepsCleared | libs/ng-elementum/src/lib/create-application-sync.ts:137-139 | a settled promise never holds handlers again |
| SyncPromise.FulfillStep | libs/ng-elementum/src/lib/create-application-sync.ts:132-141 | evolves the table: settled rows are kept and the number of pending promises never grows |
| SyncPromise.RejectStep | libs/ng-elementum/src/lib/create-application-sync.ts:143-152 | evolves the table in the same sense |
| SyncPromise.RunReactions | libs/ng-elementum/src/lib/create-application-sync.ts:140 | running a queue evolves the table |
| SyncPromise.HandleStep | libs/ng-elementum/src/lib/create-application-sync.ts:47-55 | handling evolves the table |
| SyncPromise.RunHandlerStep | libs/ng-elementum/src/lib/create-application-sync.ts:207-218 | running a handler evolves the table |
| SyncPromise.InvokeStep | libs/ng-elementum/src/lib/create-application-sync.ts:212-217 | a handler's body: a user handler returns or throws its outcome; `finally`'s sides call the callback and pass the value on or rethrow the reason, or throw the callback's error instead; the forwarding closures settle their target |
| SyncPromise.CallFinally | libs/ng-elementum/src/lib/create-application-sync.ts:77-81 | `if (onFinally) onFinally()` records one call when there is a callback, and gives back the error exactly when the callback throws |
| SyncPromise.ResolveStep | libs/ng-elementum/src/lib/create-application-sync.ts:154-205 | resolving evolves the table |
| SyncPromise.ThenActionsStep | libs/ng-elementum/src/lib/create-application-sync.ts:180-199 | a thenable's calls evolve the table |
| SyncPromise.ExecutorStep | libs/ng-elementum/src/lib/create-application-sync.ts:27-31 | an executor's calls evolve the table |
| SyncPromise.Allocate | libs/ng-elementum/src/lib/create-application-sync.ts:14-21 | a new object is a pending row at the end of the table |
| SyncPromise.NewStep | libs/ng-elementum/src/lib/create-application-sync.ts:23-32 | returns the new row's index and keeps every settled row |
| SyncPromise.ThenStep | libs/ng-elementum/src/lib/create-application-sync.ts:36-64 | returns a new promise; the trace only grows; settled rows are kept |
| SyncPromise.CatchStep | libs/ng-elementum/src/lib/create-application-sync.ts:66-72 | `then(null, onRejected)`; `CatchRecovers` states its outcome on either kind of settled promise |
| SyncPromise.CatchRecovers | libs/ng-elementum/src/lib/create-application-sync.ts:66-72 | on a rejected promise `onRejected` is called with the reason, and what it returns fulfils the new promise (recovery) while what it throws rejects it; on a fulfilled promise the value passes through and nothing is called |
| SyncPromise.FinallyStep | libs/ng-elementum/src/lib/create-application-sync.ts:74-85 | `then` with `finally`'s pair; `FinallyKeepsOutcome` and `FinallyThrowRejects` state the outcome |
| SyncPromise.AllFrom | libs/ng-elementum/src/lib/create-application-sync.ts:108-114 | the `forEach` of `all` only adds rows |
| SyncPromise.AllStep | libs/ng-elementum/src/lib/create-application-sync.ts:99-116 | `all` returns a new promise |
| SyncPromise.ResolveStatic | libs/ng-elementum/src/lib/create-application-sync.ts:89-93 | `resolve` returns one new promise |
| SyncPromise.RejectStatic | libs/ng-elementum/src/lib/create-application-sync.ts:95-97 | `reject` returns one new promise |
| SyncPromise.SettledIgnores | libs/ng-elementum/src/lib/create-application-sync.ts:133-155 | a settled promise ignores `fulfill`, `rejectWith` and `resolveWith` |
| SyncPromise.SettleOnce | libs/ng-elementum/src/lib/create-application-sync.ts:132-152 | a pending promise settles once, records its value or reason, and both queues are emptied |
| SyncPromise.SelfResolutionRejects | libs/ng-elementum/src/lib/create-application-sync.ts:158-161 | resolving a promise with itself rejects it with "Cannot resolve promise with itself" |
| SyncPromise.CalledIgnoresRest | libs/ng-elementum/src/lib/create-application-sync.ts:185-197 | once a thenable callback was called, later calls and throws do nothing |
| SyncPromise.ThenableFirstCallWins | libs/ng-elementum/src/lib/create-application-sync.ts:180-199 | `then` is called, and the first callback or throw decides the outcome |
| SyncPromise.SettleQuiet | libs/ng-elementum/src/lib/create-application-sync.ts:132-152 | settling a promise without subscribers changes only its row |
| SyncPromise.ResolveThrowingGetter | libs/ng-elementum/src/lib/create-application-sync.ts:174-178 | a throwing `then` getter rejects the promise |
| SyncPromise.ResolvePlain | libs/ng-elementum/src/lib/create-application-sync.ts:204 | a plain value fulfils |
| SyncPromise.ResolveSettledPromise | libs/ng-elementum/src/lib/create-application-sync.ts:164-169 | adopting a settled promise runs its handler pair at once |
| SyncPromise.ResolvePendingPromise | libs/ng-elementum/src/lib/create-application-sync.ts:164-169 | adopting a pending promise subscribes one forwarding pair |
| SyncPromise.ThenableWithoutCallableThen | libs/ng-elementum/src/lib/create-application-sync.ts:172-204 | a throwing getter rejects; a `then` that is not callable fulfils with the object |
| SyncPromise.AdoptSettled | libs/ng-elementum/src/lib/create-application-sync.ts:164-169 | adopting a settled promise takes over its value or reason |
| SyncPromise.SettleUnfold | libs/ng-elementum/src/lib/create-application-sync.ts:132-152 | `fulfill` and `rejectWith` set the row, then run the old queue |
| SyncPromise.RunSinglePair | libs/ng-elementum/src/lib/create-application-sync.ts:47-55 | a single pair runs its handler |
| SyncPromise.ForwardingPair | libs/ng-elementum/src/lib/create-application-sync.ts:165-168 | the forwarding pair settles the adopter the way the adopted promise settled |
| SyncPromise.AdoptPendingForwards | libs/ng-elementum/src/lib/create-application-sync.ts:164-169 | adopting a pending promise leaves the adopter pending, then settles it the same way later |
| SyncPromise.ThenOnPendingQueuesOnePair | libs/ng-elementum/src/lib/create-application-sync.ts:59-62 | `then` on a pending promise queues one pair and changes nothing else |
| SyncPromise.ThenOnSettledCallsNow | libs/ng-elementum/src/lib/create-application-sync.ts:57-58 | `then` on a settled promise calls the handler before returning |
| SyncPromise.HandlerOutcomeSettlesDerived | libs/ng-elementum/src/lib/create-application-sync.ts:207-218 | on either kind of settled promise, the handler on the matching side is called with the value or reason; its return fulfils the derived promise and its throw rejects it |
| SyncPromise.MissingHandlerPassesThrough | libs/ng-elementum/src/lib/create-application-sync.ts:47-72 | a missing handler passes the value or reason on; this is also `catch` on a fulfilled promise |
| SyncPromise.FinallyKeepsOutcome | libs/ng-elementum/src/lib/create-application-sync.ts:74-85 | `finally` calls its callback once; when the callback returns, the new promise settles the way the original one did |
| SyncPromise.FinallyThrowSettles | libs/ng-elementum/src/lib/create-application-sync.ts:74-85 | a throwing `onFinally` makes either side of the pair throw its error, and `runHandler` rejects the derived promise with it |
| SyncPromise.FinallyThrowRejects | libs/ng-elementum/src/lib/create-application-sync.ts:74-85 | when the callback throws, the new promise is rejected with the callback's error, whichever way the original settled |
| SyncPromise.ExecutorThrowRejects | libs/ng-elementum/src/lib/create-application-sync.ts:27-31 | a throwing executor rejects, unless it has already settled the promise |
| SyncPromise.ExecutorResolveDoesNotLock | libs/ng-elementum/src/lib/create-application-sync.ts:23-32 | resolving with a pending promise does not lock the new promise, so a later `reject` wins |
| SyncPromise.StaticsSettle | libs/ng-elementum/src/lib/create-application-sync.ts:89-97 | `resolve` of a plain value fulfils with it; `reject` rejects |
| SyncPromise.CreateApplicationSyncSpec | libs/ng-elementum/src/lib/create-application-sync.ts:221-245 | the application is returned exactly when its promise is already fulfilled; otherwise "ApplicationRef is not initialized" is thrown |
| SyncPromise.CreateApplicationSyncStep | libs/ng-elementum/src/lib/create-application-sync.ts:221-245 | `createApplication(...).then(ref => appRef = ref)` then the `appRef` test; `CreateApplicationSyncSpec` states the result |
| SyncPromise.AllEmpty | libs/ng-elementum/src/lib/create-application-sync.ts:106 | `all([])` fulfils with an empty array |
| SyncPromise.AllSlotCall | libs/ng-elementum/src/lib/create-application-sync.ts:109-113 | the callback stores the value at its index and counts down; the last one fulfils the promise with `out` |
| SyncPromise.AllItemStep | libs/ng-elementum/src/lib/create-application-sync.ts:108-114 | one turn of the `forEach` on a plain item |
| SyncPromise.AllFromValues | libs/ng-elementum/src/lib/create-application-sync.ts:108-114 | the `forEach` over plain items fills `out` in index order |
| SyncPromise.AllValues | libs/ng-elementum/src/lib/create-application-sync.ts:99-116 | `all` of plain values fulfils with them, in index order |
| SyncPromise.RunReactionsInOrder | libs/ng-elementum/src/lib/create-application-sync.ts:140 | the handlers are called in registration order, and each derived promise fulfils with its handler's result |
| SyncPromise.FulfillRunsQueueInOrder | libs/ng-elementum/src/lib/create-application-sync.ts:132-141 | `fulfill` calls the handlers it held, in registration order |
| SyncPromise.SyncPromiseHeap.constructor | libs/ng-elementum/src/lib/create-application-sync.ts:14-21 | no promise exists, and `globalThis.Promise` is the native one |
| SyncPromise.SyncPromiseHeap.Fulfill | libs/ng-elementum/src/lib/create-application-sync.ts:132-141 | the queue loop ends in `FulfillStep` of the old table |
| SyncPromise.SyncPromiseHeap.RejectWith | libs/ng-elementum/src/lib/create-application-sync.ts:143-152 | the queue loop ends in `RejectStep` of the old table |
| SyncPromise.SyncPromiseHeap.Handle | libs/ng-elementum/src/lib/create-application-sync.ts:47-55 | the new table is `HandleStep` of the old one |
| SyncPromise.SyncPromiseHeap.RunHandler | libs/ng-elementum/src/lib/create-application-sync.ts:207-218 | the new table is `RunHandlerStep` of the old one |
| SyncPromise.SyncPromiseHeap.Invoke | libs/ng-elementum/src/lib/create-application-sync.ts:75-83 | the new table and the outcome are `InvokeStep` of the old table, including a throwing `finally` callback |
| SyncPromise.SyncPromiseHeap.ResolveWith | libs/ng-elementum/src/lib/create-application-sync.ts:154-205 | the new table is `ResolveStep` of the old one, for every kind of value |
| SyncPromise.SyncPromiseHeap.CallThen | libs/ng-elementum/src/lib/create-application-sync.ts:180-199 | the loop over the thenable's calls, with its `called` flag, ends in `ThenActionsStep` of the old table |
| SyncPromise.SyncPromiseHeap.New | libs/ng-elementum/src/lib/create-application-sync.ts:23-32 | the executor loop ends in `NewStep`, and no settled promise holds handlers |
| SyncPromise.SyncPromiseHeap.Then | libs/ng-elementum/src/lib/create-application-sync.ts:36-64 | the new table and index are `ThenStep` of the old table |
| SyncPromise.SyncPromiseHeap.Catch | libs/ng-elementum/src/lib/create-application-sync.ts:66-72 | `then(null, onRejected)` |
| SyncPromise.SyncPromiseHeap.Finally | libs/ng-elementum/src/lib/create-application-sync.ts:74-85 | the new table and index are `FinallyStep` of the old table: the pair that calls the callback and passes the outcome on, or throws the callback's error |
| SyncPromise.SyncPromiseHeap.Resolve | libs/ng-elementum/src/lib/create-application-sync.ts:89-93 | the new table and index are `ResolveStatic` of the old table |
| SyncPromise.SyncPromiseHeap.Reject | libs/ng-elementum/src/lib/create-application-sync.ts:95-97 | the new table and index are `RejectStatic` of the old table |
| SyncPromise.SyncPromiseHeap.All | libs/ng-elementum/src/lib/create-application-sync.ts:99-116 | the `forEach` loop ends in `AllStep` of the old table |
| SyncPromise.SyncPromiseHeap.RunWithSyncPromise | libs/ng-elementum/src/lib/create-application-sync.ts:118-128 | `fn` sees `SyncPromise` as the global `Promise`, and the original is restored whether `fn` returns or throws |
| SyncPromise.SyncPromiseHeap.CreateApplicationSync | libs/ng-elementum/src/lib/create-application-sync.ts:221-245 | the new table and result are `CreateApplicationSyncStep` of the old table |
| LocationStrategy.Slot | libs/ng-elementum/router/src/location-strategy.ts:90 | reading a hole, an index past the end, or a negative index gives `undefined` |
| LocationStrategy.Store | libs/ng-elementum/router/src/location-strategy.ts:41 | a write past the end lengthens the array with holes; the other slots are kept |
| LocationStrategy.GetState | libs/ng-elementum/router/src/location-strategy.ts:30-32 | the stored state when it is not nullish; an empty object otherwise |
| LocationStrategy.Notifications | libs/ng-elementum/router/src/location-strategy.ts:96-101 | one `popstate` call per listener, in order, with the state |
| LocationStrategy.Popstate | libs/ng-elementum/router/src/location-strategy.ts:89-102 | `triggerPopstate`: the listeners are notified with the current entry's state, and a hole notifies nobody |
| LocationStrategy.Push | libs/ng-elementum/router/src/location-strategy.ts:34-42 | `pushState` on the history value; `PushSpec` states it |
| LocationStrategy.Replace | libs/ng-elementum/router/src/location-strategy.ts:44-52 | `replaceState` on the history value; `ReplaceSpec` states it |
| LocationStrategy.StepForward | libs/ng-elementum/router/src/location-strategy.ts:54-67 | `forward` on the history value; `ForwardSpec` states it |
| LocationStrategy.StepBack | libs/ng-elementum/router/src/location-strategy.ts:69-79 | `back` on the history value; `BackSpec` states it |
| LocationStrategy.AddListener | libs/ng-elementum/router/src/location-strategy.ts:81-83 | `onPopState` appends the listener; `StepsKeepInv` states that it keeps the invariant |
| LocationStrategy.StepsKeepInv | libs/ng-elementum/router/src/location-strategy.ts:34-83 | every operation keeps the index invariant |
| LocationStrategy.PushSpec | libs/ng-elementum/router/src/location-strategy.ts:34-42 | the index moves forward by one and the entry is stored there; every other entry is kept |
| LocationStrategy.ReplaceSpec | libs/ng-elementum/router/src/location-strategy.ts:44-52 | the entry at `max(0, index)` is overwritten |
| LocationStrategy.BackSpec | libs/ng-elementum/router/src/location-strategy.ts:69-79 | the index is clamped at 0; the listeners are notified only when it moved onto an entry |
| LocationStrategy.ForwardSpec | libs/ng-elementum/router/src/location-strategy.ts:54-67 | the index is clamped at the last entry; the listeners are notified under the same condition |
| LocationStrategy.ForwardOnEmptyHistory | libs/ng-elementum/router/src/location-strategy.ts:54-67 | `forward` on the empty history moves the index to -1 without notifying anyone |
| LocationStrategy.PushThenBack | libs/ng-elementum/router/src/location-strategy.ts:34-79 | after a push, `back` returns to the previous entry and notifies with its state |
| LocationStrategy.BackThenForward | libs/ng-elementum/router/src/location-strategy.ts:54-79 | `back` then `forward` returns to the starting index |
| LocationStrategy.PushAfterBackKeepsForwardEntry | libs/ng-elementum/router/src/location-strategy.ts:40-41 | a push does not truncate the forward history |
| LocationStrategy.MemoryLocationStrategy.constructor | libs/ng-elementum/router/src/location-strategy.ts:15-20 | empty history, index 0, path `/` |
| LocationStrategy.MemoryLocationStrategy.Path | libs/ng-elementum/router/src/location-strategy.ts:22-24 | always `/` |
| LocationStrategy.MemoryLocationStrategy.GetStateValue | libs/ng-elementum/router/src/location-strategy.ts:30-32 | equals `GetState` of the model |
| LocationStrategy.MemoryLocationStrategy.PushState | libs/ng-elementum/router/src/location-strategy.ts:34-42 | the new model is `Push` of the old one |
| LocationStrategy.MemoryLocationStrategy.ReplaceState | libs/ng-elementum/router/src/location-strategy.ts:44-52 | the new model is `Replace` of the old one |
| LocationStrategy.MemoryLocationStrategy.Forward | libs/ng-elementum/router/src/location-strategy.ts:54-67 | the new model is `StepForward` of the old one |
| LocationStrategy.MemoryLocationStrategy.Back | libs/ng-elementum/router/src/location-strategy.ts:69-79 | the new model is `StepBack` of the old one |
| LocationStrategy.MemoryLocationStrategy.OnPopState | libs/ng-elementum/router/src/location-strategy.ts:81-83 | the listener is appended |
| LocationStrategy.MemoryLocationStrategy.TriggerPopstate | libs/ng-elementum/router/src/location-strategy.ts:89-102 | the listener loop appends `Notifications`; nothing happens on a hole |

Notes on the longer entries:
- `ComponentStrategy.SetValueCalls`: for a declared input, `setInput` is called under
  the template name. A signal write makes no call. After either write, and only if
  the view is dirty, there is one `markForRefresh` and exactly one scheduler
  notification.
- `EffectInterop.PassSpec`: a pass:
  - skips the clean handles;
  - runs each dirty handle once, in set order, and subtracts one from the counter per
    run;
  - leaves every handle of the set clean;
  - reports whether anything ran.
- `SyncPromise.EvolvesTrans`: settled rows are kept, the number of pending promises
  never grows, and the trace only grows. This holds across a composition of steps.
- `SyncPromise.InvokeStep`: calls the handler. A user handler gives its outcome.
  `finally` passes the value on or rethrows. A value it returns is no larger than the
  handler and its argument.

## Left out

- **Values and callbacks.**
  - JavaScript values are reduced to the cases the code distinguishes: `undefined`, `null`, strings, objects, and values a transform produced.
  - Transforms are opaque functions.
  - User callbacks have a fixed outcome, independent of their argument.
  - A thenable's `then` and an executor call their callbacks synchronously, as a list of actions. Callbacks called later (a native `Promise` resolving in a microtask) are not modelled.
- **SyncPromise.**
  - The promise that `x.then(...)` creates while adopting another `SyncPromise` is not allocated, because nothing can observe it. The adoption is modelled as the forwarding pair queued on `x`.
  - The two handler queues are one queue of pairs. `then` always pushes both handlers together, and settling clears both.
  - SyncPromise.HandlerOutcomeSettlesDerived, SyncPromise.CatchRecovers, SyncPromise.FinallyKeepsOutcome, SyncPromise.MissingHandlerPassesThrough, SyncPromise.AllValues and SyncPromise.StaticsSettle: these are stated for plain values only. A returned thenable goes through `resolveWith`, whose cases are stated separately.
  - `createApplication` itself is framework code and is not part of this model. Its result is the index of a promise in the table.
  - `mergeApplicationConfig` and `ApplicationInitStatus` are not modelled.
  - `runWithSyncPromise` models `fn` as its outcome, and the global constructor as a ghost field.
- **Microtasks.** Each object has its own queue of microtasks. How the queues of different objects interleave is not modelled.
- **Change detection.**
  - `isViewDirty` is a parameter of each strategy.
  - `markForRefresh`, the scheduler notification, `createComponent`, `attachView`, `detectChanges`, the bootstrap listeners and output subscriptions are recorded calls, not behaviour.
  - EffectInterop.PlatformEffectScheduler.Run: `handle.run()` runs user code, which the model reduces to clearing the handle's own dirty flag. A run that dirties other handles, or creates or destroys effects while the pass iterates over the live set, is not modelled.
  - EffectInterop.PassSpec: "every handle ends clean" holds only for runs that do not dirty, add or remove other handles, as `Run` is modelled.
  - EffectInterop.FlushSpec: "each dirty handle runs once" holds only under the same restriction on runs.
  - EffectInterop.FlushAccounted: the once-each result holds only under the same restriction on runs.
  - EffectInterop.PlatformChangeDetectionScheduler.Tick: `runningTick` is set and reset within `tick`, so only its final value is stated.
  - `providePlatformEffectInterop` and `providePlatformResourceInterop` are provider lists, not behaviour.
- **DOM.**
  - `extractProjectableNodes` and event dispatch are not modelled.
  - CustomElement.NgElementum.Insert requires a detached element, as the browser only inserts one.
  - The browser's `attributeChangedCallback` calls at upgrade time are not modelled.
  - CustomElement.NgElementum.CallExposed: follows the code, in which an exposed method throws synchronously when the element is detached or uninitialized and otherwise returns whatever `applyMethod` returns. The declared `Promise<string>` return type and the methods-exposing tests (`.rejects`, `.resolves`) expect a promise; the model's `Result` is the synchronous outcome, not an awaitable.
  - `Object.keys` ordering of integer-like attribute names is not modelled; the dictionary keeps insertion order.
- **Element strategies.**
  - The strategies' factory classes only call a constructor, so they are not modelled.
  - `extract-projectable-nodes` is not part of this model.
- **Platform.**
  - `createPlatformFactory` and `platformBrowser` are not modelled.
  - Whether a registered callback throws (an element's `connectedCallback` when its application cannot be created) is given to `NotifyAll` and `Initialize` as the set of throwing callbacks; the element side states the same error separately in `ConnectedCallback`.
  - `inject(PlatformRef)` and `inject(DestroyRef)` become fields of the initializer.
- **Location strategy.**
  - `prepareExternalUrl` and `getBaseHref` return constants (`""` and `/`), so they are not modelled.
  - `LocationChangeListener` functions are numbers, and each call is recorded in a trace.
- **Context files.** `http`, the router provider and the test files are not modelled.
