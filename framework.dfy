/** The parts of the component framework and of the DOM that the element library
    drives but does not implement. They appear here only as data: values, component
    descriptors, the members of a live component instance, and a trace of the calls
    the library makes into the framework. */
module Framework {
  import opened Wrappers

  /** A JavaScript value as far as the library can tell values apart. */
  datatype Value =
    | Undefined
    | Null
    | Str(s: string)
    | Obj(id: nat)
      /** The result of applying an input's transform function `transform` to `arg`. */
    | Applied(transform: nat, arg: Value)

  /** `value ?? fallback`: nullish coalescing. */
  function Coalesce(value: Value, fallback: Value): (r: Value)
    ensures value != Undefined && value != Null ==> r == value
    ensures value == Undefined || value == Null ==> r == fallback
  {
    if value.Undefined? || value.Null? then fallback else value
  }

  /** One declared input of a component: the property, the public (template) name and
      the optional transform function, identified by a number. */
  datatype InputDesc = InputDesc(propName: string, templateName: string, transform: Option<nat>)

  /** One declared output of a component. */
  datatype OutputDesc = OutputDesc(propName: string, templateName: string)

  /** A member of a live component instance: a plain field or a signal. A signal may be
      writable (it has `set`) and may be an input signal with a transform function. */
  datatype Member =
    | Field(v: Value)
    | Signal(value: Value, writable: bool, withTransform: bool)

  /** `isWritableSignal` from utils.ts: a signal with a `set` method. */
  predicate IsWritableSignal(m: Option<Member>) {
    m.Some? && m.value.Signal? && m.value.writable
  }

  /** `isInputWithTransform` from utils.ts: a signal whose node carries a transform. */
  predicate IsInputWithTransform(m: Option<Member>) {
    m.Some? && m.value.Signal? && m.value.withTransform
  }

  function MemberOf(members: map<string, Member>, name: string): Option<Member> {
    if name in members then Some(members[name]) else None
  }

  /** The reflected component type (`ComponentMirror`): its identity, its declared
      inputs and outputs in declaration order, and the members a fresh instance has. */
  datatype Mirror = Mirror(
    componentType: nat,
    inputs: seq<InputDesc>,
    outputs: seq<OutputDesc>,
    members: map<string, Member>)

  /** A call from the library into the framework or the DOM, as recorded in a trace. */
  datatype Call =
    | CreateComponent(id: nat)
    | Subscribe(id: nat, output: string, eventName: string)
    | AttachView(id: nat)
    | DetectChanges(id: nat)
    | BootstrapListeners(id: nat)
    | SetInput(id: nat, name: string, v: Value)
    | MarkForRefresh(id: nat)
    | NotifyScheduler
    | DestroyComponent(id: nat)

  /** A call of a component method through `applyMethod`. */
  datatype Invocation = Invocation(component: nat, methodName: string, args: seq<Value>)

  /** `inputs.some(input => input.propName === property)`. */
  predicate IsDeclaredInput(inputs: seq<InputDesc>, property: string) {
    exists i :: 0 <= i < |inputs| && inputs[i].propName == property
  }

  /** The `inputMap` both strategies fill in their constructor: property name to
      template name, a later input overwriting an earlier one. */
  function InputMap(inputs: seq<InputDesc>): map<string, string> {
    if inputs == [] then map[]
    else
      var last := inputs[|inputs| - 1];
      InputMap(inputs[..|inputs| - 1])[last.propName := last.templateName]
  }

  /** A declared input is always found in `inputMap`, so the `?? property` fallback is
      taken only for undeclared names; the entry is the template name of the last input
      declaring the property. */
  lemma {:induction false} InputMapLookup(inputs: seq<InputDesc>, j: nat)
    requires j < |inputs|
    requires forall l :: j < l < |inputs| ==> inputs[l].propName != inputs[j].propName
    ensures inputs[j].propName in InputMap(inputs)
    ensures InputMap(inputs)[inputs[j].propName] == inputs[j].templateName
  {
    var n := |inputs| - 1;
    if j < n {
      var init := inputs[..n];
      assert init[j] == inputs[j];
      forall l | j < l < |init| ensures init[l].propName != init[j].propName {
        assert init[l] == inputs[l];
      }
      InputMapLookup(init, j);
    }
  }

  lemma {:induction false} InputMapDomain(inputs: seq<InputDesc>, property: string)
    ensures property in InputMap(inputs) <==> IsDeclaredInput(inputs, property)
  {
    if inputs != [] {
      var n := |inputs| - 1;
      var init := inputs[..n];
      InputMapDomain(init, property);
      if IsDeclaredInput(init, property) {
        var i :| 0 <= i < |init| && init[i].propName == property;
        assert inputs[i] == init[i];
      }
      if IsDeclaredInput(inputs, property) {
        var i :| 0 <= i < |inputs| && inputs[i].propName == property;
        if i < n { assert init[i] == inputs[i]; }
      }
    }
  }

  /** The input a public name designates for `setInput`: the last declared input whose
      template name is `name`. */
  function InputNamed(inputs: seq<InputDesc>, name: string): (r: Option<InputDesc>)
    ensures r.None? <==> forall i :: 0 <= i < |inputs| ==> inputs[i].templateName != name
    ensures r.Some? ==> r.value in inputs && r.value.templateName == name
  {
    if inputs == [] then None
    else if inputs[|inputs| - 1].templateName == name then Some(inputs[|inputs| - 1])
    else
      var r := InputNamed(inputs[..|inputs| - 1], name);
      assert forall i :: 0 <= i < |inputs| - 1 ==> inputs[..|inputs| - 1][i] == inputs[i];
      r
  }

  /** A value as the component receives it: passed through the input's transform, if any. */
  function Transformed(value: Value, transform: Option<nat>): Value {
    match transform
    case None => value
    case Some(f) => Applied(f, value)
  }

  /** What the framework's `setInput(name, value)` does to the instance: the input the
      name designates receives the (transformed) value, whether it is a plain field or an
      input signal; a name that designates no input leaves the instance as it was. */
  function SetInputEffect(members: map<string, Member>, inputs: seq<InputDesc>, name: string, value: Value)
    : (r: map<string, Member>)
    ensures InputNamed(inputs, name).None? ==> r == members
    ensures InputNamed(inputs, name).Some? ==>
              var input := InputNamed(inputs, name).value;
              r.Keys == members.Keys + {input.propName} &&
              (forall p :: p in members && p != input.propName ==> r[p] == members[p]) &&
              (match r[input.propName]
               case Field(v) => v == Transformed(value, input.transform)
               case Signal(v, _, _) => v == Transformed(value, input.transform))
  {
    match InputNamed(inputs, name)
    case None => members
    case Some(input) =>
      var v := Transformed(value, input.transform);
      var m := match MemberOf(members, input.propName)
               case Some(Signal(_, writable, withTransform)) => Signal(v, writable, withTransform)
               case _ => Field(v);
      members[input.propName := m]
  }

  /** `array.indexOf(x)`: the first index holding `x`, or -1. */
  function IndexOf<T(==)>(s: seq<T>, x: T): (i: int)
    ensures -1 <= i < |s|
    ensures i == -1 <==> x !in s
    ensures 0 <= i ==> s[i] == x && x !in s[..i]
  {
    if |s| == 0 then -1
    else if s[0] == x then 0
    else
      var j := IndexOf(s[1..], x);
      assert s[1..][..(if j < 0 then 0 else j)] == s[1..(if j < 0 then 1 else j + 1)];
      if j < 0 then -1 else j + 1
  }

  /** `array.splice(start, 1)` returning the array afterwards. A negative start counts
      from the end, so -1 removes the last element. */
  function SpliceOne<T>(s: seq<T>, start: int): (r: seq<T>)
    requires start >= -1
    ensures 0 <= start < |s| ==> r == s[..start] + s[start + 1..]
    ensures start >= |s| || |s| == 0 ==> r == s
  {
    if start >= 0 then
      if start < |s| then s[..start] + s[start + 1..] else s
    else
      // A start of -1 counts from the end: it designates the last element.
      if |s| > 0 then s[..|s| - 1] + s[|s|..] else s
  }

  /** `splice(-1, 1)` removes the last element. */
  lemma SpliceOneLast<T>(s: seq<T>)
    requires |s| > 0
    ensures SpliceOne(s, -1) == s[..|s| - 1]
  {
    var n := |s| - 1;
    assert s[n + 1..] == [];
    assert s[..n] + [] == s[..n];
  }

  /** `s.splice(s.indexOf(x), 1)`, the teardown idiom of both strategies. */
  function SpliceOut<T(==)>(s: seq<T>, x: T): (r: seq<T>)
  {
    SpliceOne(s, IndexOf(s, x))
  }

  /** Removing a present element removes exactly one occurrence of it. */
  lemma SpliceOutPresent<T>(s: seq<T>, x: T)
    requires x in s
    ensures |SpliceOut(s, x)| == |s| - 1
    ensures multiset(SpliceOut(s, x)) == multiset(s) - multiset{x}
  {
    var i := IndexOf(s, x);
    assert s == s[..i] + [s[i]] + s[i + 1..];
    calc {
      multiset(s);
      multiset(s[..i]) + multiset{x} + multiset(s[i + 1..]);
      multiset(s[..i] + s[i + 1..]) + multiset{x};
    }
  }

  /** An element that is absent makes `indexOf` return -1, and `splice(-1, 1)` then
      drops the LAST element of a non-empty array. */
  lemma SpliceOutAbsent<T>(s: seq<T>, x: T)
    requires x !in s && |s| > 0
    ensures SpliceOut(s, x) == s[..|s| - 1]
  {
    SpliceOneLast(s);
  }

  /** The application reference: the lists of attached components and their types.
      Components are identified by the number `createComponent` gave them; the
      application hands out these numbers in increasing order. */
  class AppRef {
    var components: seq<nat>
    var componentTypes: seq<nat>
    var nextComponentId: nat

    /** Every listed component was created before the next identity was handed out. */
    ghost predicate Valid()
      reads this
    {
      forall id :: id in components ==> id < nextComponentId
    }

    constructor ()
      ensures Valid()
      ensures components == [] && componentTypes == [] && nextComponentId == 0
    {
      components := [];
      componentTypes := [];
      nextComponentId := 0;
    }
  }
}
