/** The in-memory `LocationStrategy` of the web-component router: a history kept in an
    array that may have holes, an index into it that `back` and `forward` clamp, and the
    listeners `back` and `forward` notify with a `popstate` event. The path is always
    `/`. */
module LocationStrategy {
  import opened Wrappers
  import opened Framework

  /** One history entry: the navigation state and the title, url and query string. */
  datatype Item = Item(state: Value, title: string, url: string, queryParams: string)

  /** The event a listener receives. */
  datatype PopState = PopState(kind: string, state: Value)

  /** What `getState` returns: the entry's state, or a fresh empty object. */
  datatype StateReadout = Stored(v: Value) | EmptyObject

  /** The strategy as a value: the history array (a hole is `None`), the index, the
      registered listeners and the trace of listener calls. */
  datatype History = History(
    entries: seq<Option<Item>>,
    index: int,
    listeners: seq<nat>,
    events: seq<(nat, PopState)>)

  const Initial := History([], 0, [], [])

  /** The index is never below -1, never past the last entry once there is one, and is
      -1 only while the history is empty. */
  ghost predicate Inv(h: History) {
    && -1 <= h.index
    && (h.index < |h.entries| || h.index <= 0)
    && (h.index == -1 ==> |h.entries| == 0)
  }

  /** `array[i]` read as JavaScript reads it: a hole, an index past the end and a
      negative index all give `undefined`. */
  function Slot(entries: seq<Option<Item>>, i: int): (r: Option<Item>)
    ensures r.Some? ==> 0 <= i < |entries| && entries[i] == r
    ensures 0 <= i < |entries| ==> r == entries[i]
  {
    if 0 <= i < |entries| then entries[i] else None
  }

  /** `array[i] = item` for `i >= 0`: a write past the end lengthens the array and leaves
      holes between the old end and `i`. */
  function Store(entries: seq<Option<Item>>, i: nat, item: Item): (r: seq<Option<Item>>)
    ensures |r| == if i < |entries| then |entries| else i + 1
    ensures r[i] == Some(item)
    ensures forall j :: 0 <= j < |r| && j != i ==> r[j] == Slot(entries, j)
  {
    if i < |entries| then entries[i := Some(item)]
    else entries + seq(i - |entries|, _ => None) + [Some(item)]
  }

  function GetState(h: History): (r: StateReadout)
    ensures r.Stored? <==> Slot(h.entries, h.index).Some? && Slot(h.entries, h.index).value.state !in {Undefined, Null}
    ensures r.Stored? ==> r.v == Slot(h.entries, h.index).value.state
  {
    match Slot(h.entries, h.index)
    case Some(item) => if item.state.Undefined? || item.state.Null? then EmptyObject else Stored(item.state)
    case None => EmptyObject
  }

  function Push(h: History, item: Item): History
    requires Inv(h)
  {
    h.(index := h.index + 1, entries := Store(h.entries, h.index + 1, item))
  }

  function Replace(h: History, item: Item): History
    requires Inv(h)
  {
    var i := if h.index < 0 then 0 else h.index;
    h.(index := i, entries := Store(h.entries, i, item))
  }

  /** One `popstate` call per listener, in registration order. */
  function Notifications(listeners: seq<nat>, state: Value): (r: seq<(nat, PopState)>)
    ensures |r| == |listeners|
    ensures forall k :: 0 <= k < |r| ==> r[k] == (listeners[k], PopState("popstate", state))
  {
    seq(|listeners|, k requires 0 <= k < |listeners| => (listeners[k], PopState("popstate", state)))
  }

  /** `triggerPopstate`: nothing when the current slot is empty. */
  function Popstate(h: History): History {
    match Slot(h.entries, h.index)
    case None => h
    case Some(item) => h.(events := h.events + Notifications(h.listeners, item.state))
  }

  function Min(a: int, b: int): int { if a < b then a else b }
  function Max(a: int, b: int): int { if a < b then b else a }

  function StepForward(h: History): History {
    var i := Min(|h.entries| - 1, h.index + 1);
    if i == h.index then h else Popstate(h.(index := i))
  }

  function StepBack(h: History): History {
    var i := Max(0, h.index - 1);
    if i == h.index then h else Popstate(h.(index := i))
  }

  function AddListener(h: History, listener: nat): History {
    h.(listeners := h.listeners + [listener])
  }

  /** Every operation keeps the index invariant. */
  lemma StepsKeepInv(h: History, item: Item, listener: nat)
    requires Inv(h)
    ensures Inv(Push(h, item)) && Inv(Replace(h, item))
    ensures Inv(StepForward(h)) && Inv(StepBack(h)) && Inv(AddListener(h, listener))
  {
  }

  /** `pushState` moves the index one forward and stores the entry there; every other
      entry, including those after the new index, is kept. */
  lemma PushSpec(h: History, item: Item)
    requires Inv(h)
    ensures var r := Push(h, item);
            && r.index == h.index + 1
            && Slot(r.entries, r.index) == Some(item)
            && |r.entries| >= |h.entries|
            && (forall j :: 0 <= j < |r.entries| && j != r.index ==> Slot(r.entries, j) == Slot(h.entries, j))
            && r.listeners == h.listeners && r.events == h.events
  {
  }

  /** `replaceState` overwrites the entry at `max(0, index)` and keeps an index that is
      not negative. */
  lemma ReplaceSpec(h: History, item: Item)
    requires Inv(h)
    ensures var r := Replace(h, item);
            && r.index == Max(0, h.index)
            && (h.index >= 0 ==> r.index == h.index)
            && Slot(r.entries, r.index) == Some(item)
            && (forall j :: 0 <= j < |r.entries| && j != r.index ==> Slot(r.entries, j) == Slot(h.entries, j))
            && r.listeners == h.listeners && r.events == h.events
  {
  }

  /** `back` clamps the index at 0, and calls the listeners only when the index moved and
      the new slot holds an entry: then each listener once, in order, with that entry's
      state. */
  lemma BackSpec(h: History)
    requires Inv(h)
    ensures var r := StepBack(h);
            && r.index == Max(0, h.index - 1)
            && r.entries == h.entries && r.listeners == h.listeners
            && (r.index == h.index || Slot(h.entries, r.index).None? ==> r.events == h.events)
            && (r.index != h.index && Slot(h.entries, r.index).Some? ==>
                  r.events == h.events + Notifications(h.listeners, Slot(h.entries, r.index).value.state))
  {
  }

  /** `forward` clamps the index at the last entry, and calls the listeners under the
      same condition as `back`. */
  lemma ForwardSpec(h: History)
    requires Inv(h)
    ensures var r := StepForward(h);
            && r.index == Min(|h.entries| - 1, h.index + 1)
            && r.entries == h.entries && r.listeners == h.listeners
            && (r.index == h.index || Slot(h.entries, r.index).None? ==> r.events == h.events)
            && (r.index != h.index && Slot(h.entries, r.index).Some? ==>
                  r.events == h.events + Notifications(h.listeners, Slot(h.entries, r.index).value.state))
  {
  }

  /** `forward` on the initial, empty history moves the index to -1 without notifying
      anyone, and `getState` then gives an empty object; `back` brings it to 0. */
  lemma ForwardOnEmptyHistory()
    ensures StepForward(Initial).index == -1 && StepForward(Initial).events == []
    ensures GetState(StepForward(Initial)) == EmptyObject
    ensures StepBack(StepForward(Initial)).index == 0 && StepBack(StepForward(Initial)).events == []
  {
  }

  /** After a `pushState`, `getState` reads the pushed state, and `back` returns to the
      previous index and notifies the listeners with the state stored there. */
  lemma PushThenBack(h: History, item: Item)
    requires Inv(h) && h.index >= 0 && Slot(h.entries, h.index).Some?
    ensures item.state !in {Undefined, Null} ==> GetState(Push(h, item)) == Stored(item.state)
    ensures StepBack(Push(h, item)).index == h.index
    ensures StepBack(Push(h, item)).events == h.events + Notifications(h.listeners, Slot(h.entries, h.index).value.state)
  {
    PushSpec(h, item);
  }

  /** `back` followed by `forward` returns to the index it started from whenever `back`
      moved, and notifies only with the entries found at the two slots. */
  lemma BackThenForward(h: History)
    requires Inv(h) && h.index > 0
    ensures StepForward(StepBack(h)).index == h.index
    ensures StepForward(StepBack(h)).entries == h.entries
  {
    BackSpec(h);
    ForwardSpec(StepBack(h));
  }

  /** The history is not truncated by a push after `back`: the entry that was ahead of the
      index before the push is still reachable with `forward`. */
  lemma PushAfterBackKeepsForwardEntry(h: History, item: Item)
    requires Inv(h) && h.index >= 0 && h.index + 2 < |h.entries|
    ensures var r := Push(h, item);
            StepForward(r).index == h.index + 2 && Slot(StepForward(r).entries, h.index + 2) == Slot(h.entries, h.index + 2)
  {
    PushSpec(h, item);
    ForwardSpec(Push(h, item));
  }

  /** `MemoryLocationStrategy`. */
  class MemoryLocationStrategy {
    var listeners: seq<nat>
    var history: seq<Option<Item>>
    var historyIndex: int
    var currentPath: string
    /** The calls made to the listeners, in order. */
    var events: seq<(nat, PopState)>

    function Model(): History
      reads this
    {
      History(history, historyIndex, listeners, events)
    }

    ghost predicate Valid()
      reads this
    {
      Inv(Model()) && currentPath == "/"
    }

    constructor ()
      ensures Valid() && Model() == Initial
    {
      listeners := [];
      history := [];
      historyIndex := 0;
      currentPath := "/";
      events := [];
    }

    /** `path()`: always `/`, since no operation changes it. */
    method Path() returns (p: string)
      requires Valid()
      ensures p == "/"
    {
      p := currentPath;
    }

    method GetStateValue() returns (r: StateReadout)
      requires Valid()
      ensures r == GetState(Model())
    {
      var item := Slot(history, historyIndex);
      if item.Some? && !item.value.state.Undefined? && !item.value.state.Null? {
        r := Stored(item.value.state);
      } else {
        r := EmptyObject;
      }
    }

    method PushState(state: Value, title: string, url: string, queryParams: string)
      requires Valid()
      modifies this`historyIndex, this`history
      ensures Valid()
      ensures Model() == Push(old(Model()), Item(state, title, url, queryParams))
    {
      historyIndex := historyIndex + 1;
      history := Store(history, historyIndex, Item(state, title, url, queryParams));
    }

    method ReplaceState(state: Value, title: string, url: string, queryParams: string)
      requires Valid()
      modifies this`historyIndex, this`history
      ensures Valid()
      ensures Model() == Replace(old(Model()), Item(state, title, url, queryParams))
    {
      historyIndex := Max(0, historyIndex);
      history := Store(history, historyIndex, Item(state, title, url, queryParams));
    }

    method Forward()
      requires Valid()
      modifies this`historyIndex, this`events
      ensures Valid()
      ensures Model() == StepForward(old(Model()))
    {
      var origin := historyIndex;
      historyIndex := Min(|history| - 1, historyIndex + 1);
      if historyIndex == origin {
        return;
      }
      TriggerPopstate();
    }

    method Back()
      requires Valid()
      modifies this`historyIndex, this`events
      ensures Valid()
      ensures Model() == StepBack(old(Model()))
    {
      var origin := historyIndex;
      historyIndex := Max(0, historyIndex - 1);
      if historyIndex == origin {
        return;
      }
      TriggerPopstate();
    }

    method OnPopState(listener: nat)
      requires Valid()
      modifies this`listeners
      ensures Valid()
      ensures Model() == AddListener(old(Model()), listener)
    {
      listeners := listeners + [listener];
    }

    /** The `forEach` over the listeners, one call each. */
    method TriggerPopstate()
      modifies this`events
      ensures Model() == Popstate(old(Model()))
    {
      var item := Slot(history, historyIndex);
      if item.None? {
        return;
      }
      for k := 0 to |listeners|
        invariant events == old(events) + Notifications(listeners[..k], item.value.state)
      {
        events := events + [(listeners[k], PopState("popstate", item.value.state))];
      }
      assert listeners[..|listeners|] == listeners;
    }
  }
}
