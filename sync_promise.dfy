/** `SyncPromise` from create-application-sync.ts: a promise that settles at most once
    (pending, then fulfilled or rejected), resolves values as section 2.3 of Promises/A+
    describes, and, unlike Promises/A+ section 2.2.4, runs the handlers given to `then`
    on an already settled promise at once, inside the call.

    All promise objects of a program are rows of one table: a promise is its row index,
    and the row holds the object's fields. Values and handlers are tagged data; what a
    user handler, a thenable or an executor does is spelled out in the value itself, and
    the calls the model can observe are written to a trace. The functions below give the
    effect of each internal operation on the table; the class `SyncPromiseHeap` performs
    the same operations in place, with the queue-draining loops of the source. */
module SyncPromise {
  import opened Wrappers
  import opened Framework

  datatype Status = Pending | Fulfilled | Rejected

  /** A value a promise can be resolved with, or a reason it can be rejected with. */
  datatype JsVal =
    | Prim(v: Value)                       // a primitive, or an object without `then`
    | Promise(ref: nat)                    // a `SyncPromise` object
    | Thenable(id: nat, thenProp: ThenProp) // an object with a `then` property
    | TypeError(message: string)
    | Arr(items: seq<JsVal>)

  /** What reading `x.then` gives: a getter that throws, something that is not a
      function, or a function that synchronously makes the given calls. */
  datatype ThenProp = GetterThrows(error: JsVal) | NotCallable | Calls(actions: seq<Action>)

  /** One thing an executor or a thenable's `then` does with the two callbacks it is
      given; a `Throw` ends the function. */
  datatype Action = CallResolve(value: JsVal) | CallReject(reason: JsVal) | Throw(error: JsVal)

  /** How a handler returns: with a value, or by throwing. */
  datatype Outcome = Returns(value: JsVal) | Throws(error: JsVal)

  /** The callback given to `finally`: what it returns is ignored, but it may throw. */
  datatype FinallyFn = FinallyFn(id: nat, throws: Option<JsVal>)

  /** A function passed to `then`, or one of the closures the class itself passes. */
  datatype Handler =
    | Missing                              // `null` or `undefined`
    | User(id: nat, outcome: Outcome)      // the caller's own function
    | FinallyPass(onFinally: Option<FinallyFn>)  // `finally`'s fulfilment side
    | FinallyRethrow(onFinally: Option<FinallyFn>) // `finally`'s rejection side
    | FulfillPromise(target: nat)          // `(v) => target.fulfill(v)` when adopting
    | RejectPromise(target: nat)           // `(e) => target.rejectWith(e)`
    | AllSlot(all: nat, index: nat)        // the `all` callback for item `index`
    | Capture                              // `(ref) => { appRef = ref; }`

  /** The pair `then` pushes, `handleFulfilled` and `handleRejected`, with the promise
      `then` returned (`None` for the promise created while adopting another promise,
      which nothing can reach). */
  datatype Reaction = Reaction(onFulfilled: Handler, onRejected: Handler, derived: Option<nat>)

  /** The fields of one `SyncPromise`. The two handler arrays are always pushed to and
      emptied together, so they are kept as one sequence of pairs. */
  datatype PState = PState(state: Status, value: JsVal, reason: JsVal, reactions: seq<Reaction>)

  datatype Event = HandlerCalled(id: nat, arg: JsVal) | FinallyCalled(id: nat) | ThenCalled(thenable: nat)

  /** The closure variables of one `all` call: `out` and `remaining`. */
  datatype AllState = AllState(out: seq<JsVal>, remaining: int)

  /** Every promise, the trace, the state of the `all` calls, and `appRef`. */
  datatype Heap = Heap(promises: seq<PState>, events: seq<Event>, alls: map<nat, AllState>, captured: Option<JsVal>)

  /** Which constructor `globalThis.Promise` currently holds. */
  datatype PromiseCtor = NativePromise | SyncPromiseCtor

  const SelfResolutionMessage := "Cannot resolve promise with itself"
  const NotInitializedMessage := "ApplicationRef is not initialized"
  const Undef := Prim(Undefined)
  const Fresh := PState(Pending, Undef, Undef, [])

  // ---------------------------------------------------------------------------------
  // Measures. Each settlement turns one pending promise into a settled one and nothing
  // below allocates, so the number of pending promises, then the size of the data being
  // resolved, bounds every chain of calls.

  function PendingCount(ps: seq<PState>): nat {
    if ps == [] then 0 else PendingCount(ps[..|ps| - 1]) + (if ps[|ps| - 1].state == Pending then 1 else 0)
  }

  function SizeV(x: JsVal): nat {
    match x
    case Thenable(_, t) => SizeT(t) + 1
    case _ => 1
  }

  function SizeT(t: ThenProp): nat {
    match t
    case GetterThrows(e) => SizeV(e) + 1
    case NotCallable => 1
    case Calls(acts) => SizeActs(acts) + 1
  }

  function SizeActs(acts: seq<Action>): nat {
    if acts == [] then 0 else SizeA(acts[0]) + SizeActs(acts[1..])
  }

  function SizeA(a: Action): nat {
    match a
    case CallResolve(y) => SizeV(y) + 1
    case CallReject(e) => SizeV(e) + 1
    case Throw(e) => SizeV(e) + 1
  }

  function SizeH(f: Handler): nat {
    match f
    case User(_, Returns(v)) => SizeV(v) + 2
    case User(_, Throws(e)) => SizeV(e) + 2
    case _ => 1
  }

  function SizeR(r: Reaction): nat {
    SizeH(r.onFulfilled) + SizeH(r.onRejected)
  }

  function RankQ(q: seq<Reaction>, arg: JsVal): nat {
    if q == [] then 0 else SizeR(q[0]) + SizeV(arg) + 5 + RankQ(q[1..], arg)
  }

  lemma {:induction false} PendingCountUpdate(ps: seq<PState>, i: nat, s: PState)
    requires i < |ps|
    ensures PendingCount(ps[i := s]) as int
         == PendingCount(ps) - (if ps[i].state == Pending then 1 else 0) + (if s.state == Pending then 1 else 0)
    decreases |ps|
  {
    var n := |ps| - 1;
    if i == n {
      assert ps[i := s][..n] == ps[..n];
    } else {
      assert ps[i := s][..n] == ps[..n][i := s];
      PendingCountUpdate(ps[..n], i, s);
    }
  }

  lemma PendingCountAppend(ps: seq<PState>, s: PState)
    ensures PendingCount(ps + [s]) == PendingCount(ps) + (if s.state == Pending then 1 else 0)
  {
    assert (ps + [s])[..|ps|] == ps;
  }

  // ---------------------------------------------------------------------------------
  // What every internal operation keeps.

  /** `r` is a state reachable from `h` without allocation: the same promises, a settled
      promise never changes again, a promise settled since has empty queues, no promise
      became pending, and the trace only grew. */
  ghost predicate Evolves(h: Heap, r: Heap) {
    && |r.promises| == |h.promises|
    && PendingCount(r.promises) <= PendingCount(h.promises)
    && h.events <= r.events
    && (forall i :: 0 <= i < |h.promises| && h.promises[i].state != Pending ==> r.promises[i] == h.promises[i])
    && (forall i :: 0 <= i < |r.promises| && r.promises[i].state != Pending ==>
          r.promises[i].reactions == [] || r.promises[i] == h.promises[i])
  }

  lemma EvolvesTrans(a: Heap, b: Heap, c: Heap)
    requires Evolves(a, b) && Evolves(b, c)
    ensures Evolves(a, c)
  {
  }

  /** Settled promises hold no handlers. */
  ghost predicate QueuesCleared(h: Heap) {
    forall i :: 0 <= i < |h.promises| && h.promises[i].state != Pending ==> h.promises[i].reactions == []
  }

  lemma EvolvesKeepsCleared(h: Heap, r: Heap)
    requires QueuesCleared(h) && Evolves(h, r)
    ensures QueuesCleared(r)
  {
  }

  // ---------------------------------------------------------------------------------
  // The internal operations, as functions of the table.

  /** `fulfill(v)`: only a pending promise changes; it records the value, empties both
      queues and then calls the fulfilment handlers it held, in order. */
  function FulfillStep(h: Heap, p: nat, v: JsVal): (r: Heap)
    ensures Evolves(h, r)
    decreases PendingCount(h.promises), 0
  {
    if p >= |h.promises| || h.promises[p].state != Pending then h
    else
      var s := PState(Fulfilled, v, h.promises[p].reason, []);
      PendingCountUpdate(h.promises, p, s);
      var h1 := h.(promises := h.promises[p := s]);
      var r := RunReactions(h1, h.promises[p].reactions, true, v);
      EvolvesTrans(h, h1, r);
      r
  }

  /** `rejectWith(e)`: the same with the reason and the rejection handlers. */
  function RejectStep(h: Heap, p: nat, e: JsVal): (r: Heap)
    ensures Evolves(h, r)
    decreases PendingCount(h.promises), 0
  {
    if p >= |h.promises| || h.promises[p].state != Pending then h
    else
      var s := PState(Rejected, h.promises[p].value, e, []);
      PendingCountUpdate(h.promises, p, s);
      var h1 := h.(promises := h.promises[p := s]);
      var r := RunReactions(h1, h.promises[p].reactions, false, e);
      EvolvesTrans(h, h1, r);
      r
  }

  /** The loop `for (const fn of q) fn(v)` of `fulfill` and `rejectWith`. */
  function RunReactions(h: Heap, q: seq<Reaction>, fulfilled: bool, arg: JsVal): (r: Heap)
    ensures Evolves(h, r)
    decreases PendingCount(h.promises), RankQ(q, arg)
  {
    if q == [] then h
    else
      var h1 := HandleStep(h, q[0], fulfilled, arg);
      var r := RunReactions(h1, q[1..], fulfilled, arg);
      EvolvesTrans(h, h1, r);
      r
  }

  /** `handleFulfilled` / `handleRejected`: a missing handler passes the value on to the
      derived promise's `resolve`, or the reason to its `reject`. */
  function HandleStep(h: Heap, reaction: Reaction, fulfilled: bool, arg: JsVal): (r: Heap)
    ensures Evolves(h, r)
    decreases PendingCount(h.promises), SizeR(reaction) + SizeV(arg) + 4
  {
    var handler := if fulfilled then reaction.onFulfilled else reaction.onRejected;
    if handler.Missing? then
      match reaction.derived
      case None => h
      case Some(d) => if fulfilled then ResolveStep(h, d, arg) else RejectStep(h, d, arg)
    else RunHandlerStep(h, handler, reaction.derived, arg)
  }

  /** `runHandler`: call the handler; what it returns resolves the derived promise, what
      it throws rejects it. */
  function RunHandlerStep(h: Heap, handler: Handler, derived: Option<nat>, arg: JsVal): (r: Heap)
    requires !handler.Missing?
    ensures Evolves(h, r)
    decreases PendingCount(h.promises), SizeH(handler) + SizeV(arg) + 3
  {
    var res := InvokeStep(h, handler, arg);
    var r := match derived
      case None => res.0
      case Some(d) =>
        match res.1
        case Returns(x) => ResolveStep(res.0, d, x)
        case Throws(e) => RejectStep(res.0, d, e);
    EvolvesTrans(h, res.0, r);
    r
  }

  /** The body of a handler, called with `arg`. */
  function InvokeStep(h: Heap, handler: Handler, arg: JsVal): (r: (Heap, Outcome))
    requires !handler.Missing?
    ensures Evolves(h, r.0)
    ensures r.1.Returns? ==> SizeV(r.1.value) <= SizeH(handler) + SizeV(arg)
    decreases PendingCount(h.promises), SizeH(handler) + SizeV(arg) + 2
  {
    match handler
    case User(id, o) => (h.(events := h.events + [HandlerCalled(id, arg)]), o)
    case FinallyPass(f) =>
      var c := CallFinally(h, f);
      (c.0, if c.1.Some? then Throws(c.1.value) else Returns(arg))
    case FinallyRethrow(f) =>
      var c := CallFinally(h, f);
      (c.0, if c.1.Some? then Throws(c.1.value) else Throws(arg))
    case FulfillPromise(t) => (FulfillStep(h, t, arg), Returns(Undef))
    case RejectPromise(t) => (RejectStep(h, t, arg), Returns(Undef))
    case Capture => (h.(captured := Some(arg)), Returns(Undef))
    case AllSlot(a, i) =>
      if a !in h.alls || i >= |h.alls[a].out| then (h, Returns(Undef))
      else
        var st := AllState(h.alls[a].out[i := arg], h.alls[a].remaining - 1);
        var h1 := h.(alls := h.alls[a := st]);
        // `resolve(out)` with an array: not this promise, not a `SyncPromise`, and an
        // object whose `then` is undefined, so `resolveWith` reaches `fulfill`.
        (if st.remaining == 0 then FulfillStep(h1, a, Arr(st.out)) else h1, Returns(Undef))
  }

  /** `if (onFinally) onFinally()`: the call is recorded, and the error it throws, if
      any, is given back, so that the side calling it throws that error instead. */
  function CallFinally(h: Heap, f: Option<FinallyFn>): (r: (Heap, Option<JsVal>))
    ensures r.0 == h.(events := h.events + (if f.Some? then [FinallyCalled(f.value.id)] else []))
    ensures r.1.Some? <==> f.Some? && f.value.throws.Some?
    ensures r.1.Some? ==> r.1 == f.value.throws
  {
    match f
    case None => (h, None)
    case Some(fn) => (h.(events := h.events + [FinallyCalled(fn.id)]), fn.throws)
  }

  /** `resolveWith(x)`, the resolution procedure. */
  function ResolveStep(h: Heap, p: nat, x: JsVal): (r: Heap)
    ensures Evolves(h, r)
    decreases PendingCount(h.promises), SizeV(x) + 1
  {
    if p >= |h.promises| || h.promises[p].state != Pending then h
    else if x == Promise(p) then RejectStep(h, p, TypeError(SelfResolutionMessage))
    else match x
      case Promise(q) =>
        if q >= |h.promises| then h
        else if h.promises[q].state == Fulfilled then FulfillStep(h, p, h.promises[q].value)
        else if h.promises[q].state == Rejected then RejectStep(h, p, h.promises[q].reason)
        else
          var s := h.promises[q].(reactions := h.promises[q].reactions + [Reaction(FulfillPromise(p), RejectPromise(p), None)]);
          PendingCountUpdate(h.promises, q, s);
          h.(promises := h.promises[q := s])
      case Thenable(id, t) =>
        (match t
         case GetterThrows(e) => RejectStep(h, p, e)
         case NotCallable => FulfillStep(h, p, x)
         case Calls(acts) =>
           assert SizeV(x) == SizeActs(acts) + 2;
           var h1 := h.(events := h.events + [ThenCalled(id)]);
           var r := ThenActionsStep(h1, p, acts, false);
           EvolvesTrans(h, h1, r);
           r)
      case _ => FulfillStep(h, p, x)
  }

  /** The thenable's `then` calling the two callbacks `resolveWith` gave it; `called`
      makes the first call win, and a throw after a call is ignored. */
  function ThenActionsStep(h: Heap, p: nat, acts: seq<Action>, called: bool): (r: Heap)
    ensures Evolves(h, r)
    decreases PendingCount(h.promises), SizeActs(acts) + 1
  {
    if acts == [] then h
    else
      assert SizeActs(acts) == SizeA(acts[0]) + SizeActs(acts[1..]);
      match acts[0]
      case CallResolve(y) =>
        assert SizeA(acts[0]) == SizeV(y) + 1;
        if called then ThenActionsStep(h, p, acts[1..], true)
        else
          var h1 := ResolveStep(h, p, y);
          var r := ThenActionsStep(h1, p, acts[1..], true);
          EvolvesTrans(h, h1, r);
          r
      case CallReject(e) =>
        assert SizeA(acts[0]) == SizeV(e) + 1;
        if called then ThenActionsStep(h, p, acts[1..], true)
        else
          var h1 := RejectStep(h, p, e);
          var r := ThenActionsStep(h1, p, acts[1..], true);
          EvolvesTrans(h, h1, r);
          r
      case Throw(e) => if called then h else RejectStep(h, p, e)
  }

  // ---------------------------------------------------------------------------------
  // The public operations, which allocate.

  /** A new pending promise at the end of the table. */
  function Allocate(h: Heap): (r: (Heap, nat))
    ensures r.1 == |h.promises| && r.0.promises == h.promises + [Fresh]
    ensures r.0.events == h.events && r.0.alls == h.alls && r.0.captured == h.captured
  {
    (h.(promises := h.promises + [Fresh]), |h.promises|)
  }

  /** The executor calling `resolve` and `reject`; a throw is caught and rejects. */
  function ExecutorStep(h: Heap, p: nat, acts: seq<Action>): (r: Heap)
    ensures Evolves(h, r)
    decreases |acts|
  {
    if acts == [] then h
    else match acts[0]
      case CallResolve(x) =>
        var h1 := ResolveStep(h, p, x);
        var r := ExecutorStep(h1, p, acts[1..]);
        EvolvesTrans(h, h1, r);
        r
      case CallReject(e) =>
        var h1 := RejectStep(h, p, e);
        var r := ExecutorStep(h1, p, acts[1..]);
        EvolvesTrans(h, h1, r);
        r
      case Throw(e) => RejectStep(h, p, e)
  }

  /** `new SyncPromise(executor)`. */
  function NewStep(h: Heap, executor: seq<Action>): (r: (Heap, nat))
    ensures r.1 == |h.promises| && |r.0.promises| == |h.promises| + 1
    ensures forall i :: 0 <= i < |h.promises| && h.promises[i].state != Pending ==> r.0.promises[i] == h.promises[i]
  {
    var a := Allocate(h);
    (ExecutorStep(a.0, a.1, executor), a.1)
  }

  /** `then(onFulfilled, onRejected)`: a new promise, whose handlers run now when `p` is
      settled and are queued as one pair otherwise. */
  function ThenStep(h: Heap, p: nat, onFulfilled: Handler, onRejected: Handler): (r: (Heap, nat))
    requires p < |h.promises|
    ensures r.1 == |h.promises| && |r.0.promises| == |h.promises| + 1
    ensures h.events <= r.0.events
    ensures forall i :: 0 <= i < |h.promises| && h.promises[i].state != Pending ==> r.0.promises[i] == h.promises[i]
  {
    var a := Allocate(h);
    var reaction := Reaction(onFulfilled, onRejected, Some(a.1));
    var ps := h.promises[p];
    if ps.state == Fulfilled then (HandleStep(a.0, reaction, true, ps.value), a.1)
    else if ps.state == Rejected then (HandleStep(a.0, reaction, false, ps.reason), a.1)
    else
      var r := a.0.(promises := a.0.promises[p := ps.(reactions := ps.reactions + [reaction])]);
      assert ps.state == Pending;
      assert forall i :: 0 <= i < |h.promises| && i != p ==> r.promises[i] == h.promises[i];
      (r, a.1)
  }

  function AllFrom(h: Heap, a: nat, items: seq<JsVal>, i: nat): (r: Heap)
    ensures |r.promises| >= |h.promises|
    decreases |items| - i
  {
    if i >= |items| then h
    else
      var resolved := ResolveStatic(h, items[i]);
      var chained := ThenStep(resolved.0, resolved.1, AllSlot(a, i), RejectPromise(a));
      AllFrom(chained.0, a, items, i + 1)
  }

  /** `SyncPromise.all(items)`. */
  function AllStep(h: Heap, items: seq<JsVal>): (r: (Heap, nat))
    ensures r.1 == |h.promises| && |r.0.promises| > r.1
  {
    var a := Allocate(h);
    var h1 := a.0.(alls := a.0.alls[a.1 := AllState(seq(|items|, _ => Undef), |items|)]);
    if |items| == 0 then (ResolveStep(h1, a.1, Arr([])), a.1)
    else (AllFrom(h1, a.1, items, 0), a.1)
  }

  /** `createApplicationSync` after `createApplication` returned the promise `app`.
      The source's `if (!appRef)` would also throw on a falsy fulfilment value; any
      captured value counts as the reference here, because `createApplication` only
      ever fulfils with an `ApplicationRef` object, which is never falsy. */
  function CreateApplicationSyncStep(h: Heap, app: nat): (r: (Heap, Result<JsVal, string>))
    requires app < |h.promises|
  {
    var h1 := h.(captured := None);
    var t := ThenStep(h1, app, Capture, Missing);
    match t.0.captured
    case None => (t.0, Failure(NotInitializedMessage))
    case Some(v) => (t.0, Success(v))
  }

  /** `catch(onRejected)`. */
  function CatchStep(h: Heap, p: nat, onRejected: Handler): (r: (Heap, nat))
    requires p < |h.promises|
  {
    ThenStep(h, p, Missing, onRejected)
  }

  /** `finally(onFinally)`: `then` with a pair that calls `onFinally` and passes the value
      or rethrows the reason. */
  function FinallyStep(h: Heap, p: nat, onFinally: Option<FinallyFn>): (r: (Heap, nat))
    requires p < |h.promises|
  {
    ThenStep(h, p, FinallyPass(onFinally), FinallyRethrow(onFinally))
  }

  // ---------------------------------------------------------------------------------
  // Properties.

  /** A promise that is settled ignores `fulfill`, `rejectWith` and `resolveWith`. */
  lemma SettledIgnores(h: Heap, p: nat, v: JsVal)
    requires p < |h.promises| && h.promises[p].state != Pending
    ensures FulfillStep(h, p, v) == h && RejectStep(h, p, v) == h && ResolveStep(h, p, v) == h
  {
  }

  /** A pending promise leaves `pending` once: `fulfill` and `rejectWith` record the
      value or the reason with both queues emptied, and running the handlers it held
      does not change that row again. */
  lemma SettleOnce(h: Heap, p: nat, x: JsVal)
    requires p < |h.promises| && h.promises[p].state == Pending
    ensures FulfillStep(h, p, x).promises[p] == PState(Fulfilled, x, h.promises[p].reason, [])
    ensures RejectStep(h, p, x).promises[p] == PState(Rejected, h.promises[p].value, x, [])
  {
    var f := PState(Fulfilled, x, h.promises[p].reason, []);
    var h1 := h.(promises := h.promises[p := f]);
    assert Evolves(h1, RunReactions(h1, h.promises[p].reactions, true, x));
    var j := PState(Rejected, h.promises[p].value, x, []);
    var h2 := h.(promises := h.promises[p := j]);
    assert Evolves(h2, RunReactions(h2, h.promises[p].reactions, false, x));
  }

  /** Resolving a promise with itself rejects it with the type error. */
  lemma SelfResolutionRejects(h: Heap, p: nat)
    requires p < |h.promises| && h.promises[p].state == Pending
    ensures ResolveStep(h, p, Promise(p)).promises[p] == PState(Rejected, h.promises[p].value, TypeError(SelfResolutionMessage), [])
  {
    SettleOnce(h, p, TypeError(SelfResolutionMessage));
  }

  /** Once one of the thenable's callbacks was called, nothing the thenable does later
      has any effect, a throw included. */
  lemma {:induction false} CalledIgnoresRest(h: Heap, p: nat, acts: seq<Action>)
    ensures ThenActionsStep(h, p, acts, true) == h
    decreases |acts|
  {
    if acts != [] && !acts[0].Throw? {
      CalledIgnoresRest(h, p, acts[1..]);
    }
  }

  /** Resolving a pending promise with a thenable whose `then` is callable records the
      call and runs the thenable's actions with a fresh `called` flag. */
  lemma ResolveThenableUnfold(h: Heap, p: nat, id: nat, acts: seq<Action>)
    requires p < |h.promises| && h.promises[p].state == Pending
    ensures ResolveStep(h, p, Thenable(id, Calls(acts)))
         == ThenActionsStep(h.(events := h.events + [ThenCalled(id)]), p, acts, false)
  {
  }

  /** The first action of a thenable, before any callback was called. */
  lemma ThenActionsFirst(h: Heap, p: nat, first: Action, rest: seq<Action>)
    ensures first.CallResolve? ==>
              ThenActionsStep(h, p, [first] + rest, false) == ThenActionsStep(ResolveStep(h, p, first.value), p, rest, true)
    ensures first.CallReject? ==>
              ThenActionsStep(h, p, [first] + rest, false) == ThenActionsStep(RejectStep(h, p, first.reason), p, rest, true)
    ensures first.Throw? ==> ThenActionsStep(h, p, [first] + rest, false) == RejectStep(h, p, first.error)
  {
    assert ([first] + rest)[0] == first && ([first] + rest)[1..] == rest;
  }

  /** The first callback a thenable calls decides: a resolve with a plain value fulfils
      with it, a reject rejects with its reason, and whatever follows is ignored. */
  lemma ThenableFirstCallWins(h: Heap, p: nat, id: nat, first: Action, rest: seq<Action>)
    requires p < |h.promises| && h.promises[p].state == Pending
    requires first.CallResolve? ==> first.value.Prim?
    ensures var r := ResolveStep(h, p, Thenable(id, Calls([first] + rest)));
            && h.events + [ThenCalled(id)] <= r.events
            && r.promises[p] == match first
                 case CallResolve(y) => PState(Fulfilled, y, h.promises[p].reason, [])
                 case CallReject(e) => PState(Rejected, h.promises[p].value, e, [])
                 case Throw(e) => PState(Rejected, h.promises[p].value, e, [])
  {
    var h1 := h.(events := h.events + [ThenCalled(id)]);
    ResolveThenableUnfold(h, p, id, [first] + rest);
    ThenActionsFirst(h1, p, first, rest);
    match first
    case CallResolve(y) =>
      SettleOnce(h1, p, y);
      ResolvePlain(h1, p, y);
      CalledIgnoresRest(ResolveStep(h1, p, y), p, rest);
    case CallReject(e) =>
      SettleOnce(h1, p, e);
      CalledIgnoresRest(RejectStep(h1, p, e), p, rest);
    case Throw(e) =>
      SettleOnce(h1, p, e);
  }

  /** `SyncPromise.resolve(x)` and `SyncPromise.reject(e)`. */
  function ResolveStatic(h: Heap, x: JsVal): (r: (Heap, nat))
    ensures r.1 == |h.promises| && |r.0.promises| == |h.promises| + 1
  {
    NewStep(h, [CallResolve(x)])
  }

  function RejectStatic(h: Heap, e: JsVal): (r: (Heap, nat))
    ensures r.1 == |h.promises| && |r.0.promises| == |h.promises| + 1
  {
    NewStep(h, [CallReject(e)])
  }

  /** A value `resolveWith` fulfils with directly: neither a `SyncPromise` nor an object
      with a callable or throwing `then`. */
  predicate Plain(x: JsVal) {
    !x.Promise? && !(x.Thenable? && !x.thenProp.NotCallable?)
  }

  /** Settling a promise nobody has subscribed to changes its row and nothing else. */
  lemma SettleQuiet(h: Heap, d: nat, x: JsVal)
    requires d < |h.promises| && h.promises[d].state == Pending && h.promises[d].reactions == []
    ensures FulfillStep(h, d, x) == h.(promises := h.promises[d := PState(Fulfilled, x, h.promises[d].reason, [])])
    ensures RejectStep(h, d, x) == h.(promises := h.promises[d := PState(Rejected, h.promises[d].value, x, [])])
    ensures Plain(x) ==> ResolveStep(h, d, x) == FulfillStep(h, d, x)
  {
  }

  /** The cases of `resolveWith` on a pending promise, one at a time. */
  lemma ResolveThrowingGetter(h: Heap, p: nat, id: nat, e: JsVal)
    requires p < |h.promises| && h.promises[p].state == Pending
    ensures ResolveStep(h, p, Thenable(id, GetterThrows(e))) == RejectStep(h, p, e)
  {
  }

  lemma ResolvePlain(h: Heap, p: nat, x: JsVal)
    requires p < |h.promises| && h.promises[p].state == Pending && Plain(x)
    ensures ResolveStep(h, p, x) == FulfillStep(h, p, x)
  {
  }

  lemma ResolveSettledPromise(h: Heap, p: nat, q: nat)
    requires p < |h.promises| && h.promises[p].state == Pending
    requires q < |h.promises| && q != p && h.promises[q].state != Pending
    ensures h.promises[q].state == Fulfilled ==> ResolveStep(h, p, Promise(q)) == FulfillStep(h, p, h.promises[q].value)
    ensures h.promises[q].state == Rejected ==> ResolveStep(h, p, Promise(q)) == RejectStep(h, p, h.promises[q].reason)
  {
  }

  lemma ResolvePendingPromise(h: Heap, p: nat, q: nat)
    requires p < |h.promises| && h.promises[p].state == Pending
    requires q < |h.promises| && q != p && h.promises[q].state == Pending
    ensures ResolveStep(h, p, Promise(q))
         == h.(promises := h.promises[q := h.promises[q].(reactions := h.promises[q].reactions + [Reaction(FulfillPromise(p), RejectPromise(p), None)])])
  {
  }

  /** A `then` getter that throws rejects with what it threw; an object whose `then` is
      not a function is an ordinary value and fulfils. */
  lemma ThenableWithoutCallableThen(h: Heap, p: nat, id: nat, e: JsVal)
    requires p < |h.promises| && h.promises[p].state == Pending
    ensures ResolveStep(h, p, Thenable(id, GetterThrows(e))).promises[p] == PState(Rejected, h.promises[p].value, e, [])
    ensures ResolveStep(h, p, Thenable(id, NotCallable)).promises[p] == PState(Fulfilled, Thenable(id, NotCallable), h.promises[p].reason, [])
  {
    ResolveThrowingGetter(h, p, id, e);
    SettleOnce(h, p, e);
    ResolvePlain(h, p, Thenable(id, NotCallable));
    SettleOnce(h, p, Thenable(id, NotCallable));
  }

  /** Resolving with another, settled `SyncPromise` takes over its value or reason. */
  lemma AdoptSettled(h: Heap, p: nat, q: nat)
    requires p < |h.promises| && q < |h.promises| && p != q
    requires h.promises[p].state == Pending && h.promises[q].state != Pending
    ensures ResolveStep(h, p, Promise(q)).promises[p]
         == if h.promises[q].state == Fulfilled then PState(Fulfilled, h.promises[q].value, h.promises[p].reason, [])
            else PState(Rejected, h.promises[p].value, h.promises[q].reason, [])
  {
    ResolveSettledPromise(h, p, q);
    SettleOnce(h, p, h.promises[q].value);
    SettleOnce(h, p, h.promises[q].reason);
  }

  /** `fulfill` and `rejectWith` on a pending promise, unfolded once. */
  lemma SettleUnfold(h: Heap, p: nat, x: JsVal)
    requires p < |h.promises| && h.promises[p].state == Pending
    ensures FulfillStep(h, p, x)
         == RunReactions(h.(promises := h.promises[p := PState(Fulfilled, x, h.promises[p].reason, [])]), h.promises[p].reactions, true, x)
    ensures RejectStep(h, p, x)
         == RunReactions(h.(promises := h.promises[p := PState(Rejected, h.promises[p].value, x, [])]), h.promises[p].reactions, false, x)
  {
  }

  /** Running a single handler pair, unfolded. */
  lemma RunSinglePair(h: Heap, reaction: Reaction, fulfilled: bool, x: JsVal)
    requires !(if fulfilled then reaction.onFulfilled else reaction.onRejected).Missing?
    ensures RunReactions(h, [reaction], fulfilled, x)
         == RunHandlerStep(h, if fulfilled then reaction.onFulfilled else reaction.onRejected, reaction.derived, x)
  {
    assert [reaction][1..] == [];
  }

  /** The forwarding pair calls `fulfill` or `rejectWith` on the adopter and nothing
      else. */
  lemma ForwardingRuns(h: Heap, p: nat, x: JsVal)
    ensures RunReactions(h, [Reaction(FulfillPromise(p), RejectPromise(p), None)], true, x) == FulfillStep(h, p, x)
    ensures RunReactions(h, [Reaction(FulfillPromise(p), RejectPromise(p), None)], false, x) == RejectStep(h, p, x)
  {
    ForwardingRunsOne(h, p, x, true);
    ForwardingRunsOne(h, p, x, false);
  }

  lemma ForwardingRunsOne(h: Heap, p: nat, x: JsVal, fulfilled: bool)
    ensures RunReactions(h, [Reaction(FulfillPromise(p), RejectPromise(p), None)], fulfilled, x)
         == if fulfilled then FulfillStep(h, p, x) else RejectStep(h, p, x)
  {
    var reaction := Reaction(FulfillPromise(p), RejectPromise(p), None);
    var handler := if fulfilled then FulfillPromise(p) else RejectPromise(p);
    var settled := if fulfilled then FulfillStep(h, p, x) else RejectStep(h, p, x);
    assert [reaction][1..] == [];
    assert RunReactions(h, [reaction], fulfilled, x) == RunReactions(HandleStep(h, reaction, fulfilled, x), [], fulfilled, x);
    assert HandleStep(h, reaction, fulfilled, x) == RunHandlerStep(h, handler, None, x);
    assert InvokeStep(h, handler, x).0 == settled;
    assert RunHandlerStep(h, handler, None, x) == InvokeStep(h, handler, x).0;
  }

  /** The pair an adopting promise subscribes settles it the way the adopted one
      settled. */
  lemma ForwardingPair(h: Heap, p: nat, x: JsVal)
    requires p < |h.promises| && h.promises[p].state == Pending
    ensures var reaction := Reaction(FulfillPromise(p), RejectPromise(p), None);
            && RunReactions(h, [reaction], true, x).promises[p] == PState(Fulfilled, x, h.promises[p].reason, [])
            && RunReactions(h, [reaction], false, x).promises[p] == PState(Rejected, h.promises[p].value, x, [])
  {
    ForwardingRuns(h, p, x);
    SettleOnce(h, p, x);
  }

  /** Resolving with a pending `SyncPromise` leaves the promise pending and subscribes it
      to the other one, which later settles it the same way. */
  lemma AdoptPendingForwards(h: Heap, p: nat, q: nat, x: JsVal)
    requires p < |h.promises| && q < |h.promises| && p != q
    requires h.promises[p].state == Pending && h.promises[q].state == Pending && h.promises[q].reactions == []
    ensures var h1 := ResolveStep(h, p, Promise(q));
            && h1.promises[p] == h.promises[p]
            && h1.promises[q].reactions == [Reaction(FulfillPromise(p), RejectPromise(p), None)]
            && FulfillStep(h1, q, x).promises[p] == PState(Fulfilled, x, h.promises[p].reason, [])
            && RejectStep(h1, q, x).promises[p] == PState(Rejected, h.promises[p].value, x, [])
  {
    var h1 := ResolveStep(h, p, Promise(q));
    var reaction := Reaction(FulfillPromise(p), RejectPromise(p), None);
    ResolvePendingPromise(h, p, q);
    assert h.promises[q].reactions + [reaction] == [reaction];
    assert h1.promises == h.promises[q := h.promises[q].(reactions := [reaction])];
    SettleUnfold(h1, q, x);
    ForwardingPair(h1.(promises := h1.promises[q := PState(Fulfilled, x, h1.promises[q].reason, [])]), p, x);
    ForwardingPair(h1.(promises := h1.promises[q := PState(Rejected, h1.promises[q].value, x, [])]), p, x);
  }

  /** `then` on a pending promise queues exactly one pair of handlers, returns a new
      pending promise, and changes nothing else. */
  lemma ThenOnPendingQueuesOnePair(h: Heap, p: nat, f: Handler, g: Handler)
    requires p < |h.promises| && h.promises[p].state == Pending
    ensures var r := ThenStep(h, p, f, g);
            && r.0.events == h.events
            && r.0.promises[r.1] == Fresh
            && r.0.promises[p] == h.promises[p].(reactions := h.promises[p].reactions + [Reaction(f, g, Some(r.1))])
            && (forall i :: 0 <= i < |h.promises| && i != p ==> r.0.promises[i] == h.promises[i])
  {
  }

  /** `then` on a settled promise runs the new pair at once. */
  lemma ThenSettledUnfold(h: Heap, p: nat, f: Handler, g: Handler)
    requires p < |h.promises| && h.promises[p].state != Pending
    ensures var fulfilled := h.promises[p].state == Fulfilled;
            ThenStep(h, p, f, g).0
            == HandleStep(Allocate(h).0, Reaction(f, g, Some(|h.promises|)), fulfilled,
                          if fulfilled then h.promises[p].value else h.promises[p].reason)
  {
  }

  /** `then` on a settled promise calls the matching handler before it returns (unlike
      section 2.2.4 of Promises/A+), with the value or the reason. */
  lemma ThenOnSettledCallsNow(h: Heap, p: nat, id: nat, o: Outcome, other: Handler)
    requires p < |h.promises| && h.promises[p].state != Pending
    ensures var fulfilled := h.promises[p].state == Fulfilled;
            var r := if fulfilled then ThenStep(h, p, User(id, o), other) else ThenStep(h, p, other, User(id, o));
            h.events + [HandlerCalled(id, if fulfilled then h.promises[p].value else h.promises[p].reason)] <= r.0.events
  {
    var a := Allocate(h);
    var fulfilled := h.promises[p].state == Fulfilled;
    var arg := if fulfilled then h.promises[p].value else h.promises[p].reason;
    var f := if fulfilled then User(id, o) else other;
    var g := if fulfilled then other else User(id, o);
    var reaction := Reaction(f, g, Some(a.1));
    ThenSettledUnfold(h, p, f, g);
    assert HandleStep(a.0, reaction, fulfilled, arg) == RunHandlerStep(a.0, User(id, o), Some(a.1), arg);
    var res := InvokeStep(a.0, User(id, o), arg);
    assert res.0.events == h.events + [HandlerCalled(id, arg)];
  }

  /** What the handler called on the settled side returns fulfils the promise `then`
      returned, and what it throws rejects it: on a rejected promise this is the
      recovery `catch` performs. */
  lemma HandlerOutcomeSettlesDerived(h: Heap, p: nat, id: nat, o: Outcome, other: Handler)
    requires p < |h.promises| && h.promises[p].state != Pending
    requires o.Returns? ==> Plain(o.value)
    ensures var fulfilled := h.promises[p].state == Fulfilled;
            var arg := if fulfilled then h.promises[p].value else h.promises[p].reason;
            var r := if fulfilled then ThenStep(h, p, User(id, o), other) else ThenStep(h, p, other, User(id, o));
            && r.0.events == h.events + [HandlerCalled(id, arg)]
            && r.0.promises[r.1] == match o
                 case Returns(x) => PState(Fulfilled, x, Undef, [])
                 case Throws(e) => PState(Rejected, Undef, e, [])
  {
    var a := Allocate(h);
    var fulfilled := h.promises[p].state == Fulfilled;
    var arg := if fulfilled then h.promises[p].value else h.promises[p].reason;
    var f := if fulfilled then User(id, o) else other;
    var g := if fulfilled then other else User(id, o);
    var reaction := Reaction(f, g, Some(a.1));
    ThenSettledUnfold(h, p, f, g);
    var res := InvokeStep(a.0, User(id, o), arg);
    assert res == (a.0.(events := a.0.events + [HandlerCalled(id, arg)]), o);
    assert HandleStep(a.0, reaction, fulfilled, arg) == RunHandlerStep(a.0, User(id, o), Some(a.1), arg);
    match o
    case Returns(x) =>
      SettleQuiet(res.0, a.1, x);
      assert RunHandlerStep(a.0, User(id, o), Some(a.1), arg) == ResolveStep(res.0, a.1, x);
    case Throws(e) =>
      SettleQuiet(res.0, a.1, e);
      assert RunHandlerStep(a.0, User(id, o), Some(a.1), arg) == RejectStep(res.0, a.1, e);
  }

  /** `catch` on a rejected promise calls `onRejected` with the reason, and what it
      returns fulfils the new promise (the recovery) while what it throws rejects it;
      on a fulfilled promise the value passes through and nothing is called. */
  lemma CatchRecovers(h: Heap, p: nat, id: nat, o: Outcome)
    requires p < |h.promises| && h.promises[p].state != Pending
    requires o.Returns? ==> Plain(o.value)
    requires h.promises[p].state == Fulfilled ==> Plain(h.promises[p].value)
    ensures var r := CatchStep(h, p, User(id, o));
            if h.promises[p].state == Rejected then
              && r.0.events == h.events + [HandlerCalled(id, h.promises[p].reason)]
              && r.0.promises[r.1] == match o
                   case Returns(x) => PState(Fulfilled, x, Undef, [])
                   case Throws(e) => PState(Rejected, Undef, e, [])
            else
              && r.0.events == h.events
              && r.0.promises[r.1] == PState(Fulfilled, h.promises[p].value, Undef, [])
  {
    if h.promises[p].state == Rejected {
      HandlerOutcomeSettlesDerived(h, p, id, o, Missing);
    } else {
      MissingHandlerPassesThrough(h, p, User(id, o));
    }
  }

  /** A missing handler passes the value on to the promise `then` returned, or the
      reason, and calls nothing. */
  lemma MissingHandlerPassesThrough(h: Heap, p: nat, f: Handler)
    requires p < |h.promises| && h.promises[p].state != Pending
    requires h.promises[p].state == Fulfilled ==> Plain(h.promises[p].value)
    ensures var fulfilled := h.promises[p].state == Fulfilled;
            var r := if fulfilled then ThenStep(h, p, Missing, f) else ThenStep(h, p, f, Missing);
            && r.0.events == h.events
            && r.0.promises[r.1] == if fulfilled then PState(Fulfilled, h.promises[p].value, Undef, [])
                                    else PState(Rejected, Undef, h.promises[p].reason, [])
  {
    var a := Allocate(h);
    if h.promises[p].state == Fulfilled {
      var v := h.promises[p].value;
      assert HandleStep(a.0, Reaction(Missing, f, Some(a.1)), true, v) == ResolveStep(a.0, a.1, v);
      ResolvePlain(a.0, a.1, v);
      SettleQuiet(a.0, a.1, v);
    } else {
      var e := h.promises[p].reason;
      assert HandleStep(a.0, Reaction(f, Missing, Some(a.1)), false, e) == RejectStep(a.0, a.1, e);
      SettleQuiet(a.0, a.1, e);
    }
  }

  /** `finally` calls its callback once and, when the callback returns, settles its
      promise the way the original one settled. */
  lemma FinallyKeepsOutcome(h: Heap, p: nat, f: Option<FinallyFn>)
    requires p < |h.promises| && h.promises[p].state != Pending
    requires h.promises[p].state == Fulfilled ==> Plain(h.promises[p].value)
    ensures var r := FinallyStep(h, p, f);
            && r.0.events == h.events + (if f.Some? then [FinallyCalled(f.value.id)] else [])
            && (f.None? || f.value.throws.None? ==>
                  r.0.promises[r.1] == if h.promises[p].state == Fulfilled then PState(Fulfilled, h.promises[p].value, Undef, [])
                                       else PState(Rejected, Undef, h.promises[p].reason, []))
  {
    var a := Allocate(h);
    var reaction := Reaction(FinallyPass(f), FinallyRethrow(f), Some(a.1));
    var c := CallFinally(a.0, f);
    ThenSettledUnfold(h, p, FinallyPass(f), FinallyRethrow(f));
    if h.promises[p].state == Fulfilled {
      var v := h.promises[p].value;
      assert FinallyStep(h, p, f).0 == HandleStep(a.0, reaction, true, v);
      assert HandleStep(a.0, reaction, true, v) == RunHandlerStep(a.0, FinallyPass(f), Some(a.1), v);
      if c.1.None? {
        assert HandleStep(a.0, reaction, true, v) == c.0.(promises := c.0.promises[a.1 := PState(Fulfilled, v, Undef, [])]) by {
          assert InvokeStep(a.0, FinallyPass(f), v) == (c.0, Returns(v));
          ResolvePlain(c.0, a.1, v);
          SettleQuiet(c.0, a.1, v);
        }
      } else {
        FinallyThrowSettles(a.0, a.1, FinallyPass(f), v);
      }
    } else {
      var e := h.promises[p].reason;
      assert FinallyStep(h, p, f).0 == HandleStep(a.0, reaction, false, e);
      assert HandleStep(a.0, reaction, false, e) == RunHandlerStep(a.0, FinallyRethrow(f), Some(a.1), e);
      if c.1.None? {
        assert HandleStep(a.0, reaction, false, e) == c.0.(promises := c.0.promises[a.1 := PState(Rejected, Undef, e, [])]) by {
          assert InvokeStep(a.0, FinallyRethrow(f), e) == (c.0, Throws(e));
          SettleQuiet(c.0, a.1, e);
        }
      } else {
        FinallyThrowSettles(a.0, a.1, FinallyRethrow(f), e);
      }
    }
  }

  /** A throwing `onFinally` makes either side of the pair throw its error, which
      rejects the promise `finally` returned; only the call is added to the trace. */
  lemma FinallyThrowSettles(h: Heap, d: nat, handler: Handler, arg: JsVal)
    requires d < |h.promises| && h.promises[d] == Fresh
    requires handler.FinallyPass? || handler.FinallyRethrow?
    requires handler.onFinally.Some? && handler.onFinally.value.throws.Some?
    ensures var r := RunHandlerStep(h, handler, Some(d), arg);
            && r.events == h.events + [FinallyCalled(handler.onFinally.value.id)]
            && r.promises == h.promises[d := PState(Rejected, Undef, handler.onFinally.value.throws.value, [])]
  {
    var c := CallFinally(h, handler.onFinally);
    var err := handler.onFinally.value.throws.value;
    assert InvokeStep(h, handler, arg) == (c.0, Throws(err));
    SettleQuiet(c.0, d, err);
  }

  /** A callback that throws rejects the promise `finally` returned with its error,
      whichever way the original promise settled. */
  lemma FinallyThrowRejects(h: Heap, p: nat, f: FinallyFn)
    requires p < |h.promises| && h.promises[p].state != Pending
    requires f.throws.Some?
    ensures var r := FinallyStep(h, p, Some(f));
            && r.0.events == h.events + [FinallyCalled(f.id)]
            && r.0.promises[r.1] == PState(Rejected, Undef, f.throws.value, [])
  {
    var a := Allocate(h);
    var reaction := Reaction(FinallyPass(Some(f)), FinallyRethrow(Some(f)), Some(a.1));
    ThenSettledUnfold(h, p, FinallyPass(Some(f)), FinallyRethrow(Some(f)));
    var fulfilled := h.promises[p].state == Fulfilled;
    var arg := if fulfilled then h.promises[p].value else h.promises[p].reason;
    var handler := if fulfilled then FinallyPass(Some(f)) else FinallyRethrow(Some(f));
    assert FinallyStep(h, p, Some(f)).0 == HandleStep(a.0, reaction, fulfilled, arg);
    assert HandleStep(a.0, reaction, fulfilled, arg) == RunHandlerStep(a.0, handler, Some(a.1), arg);
    FinallyThrowSettles(a.0, a.1, handler, arg);
  }

  /** An executor that throws rejects the new promise, unless it had already settled it. */
  lemma ExecutorThrowRejects(h: Heap, v: JsVal, e: JsVal)
    ensures var r := NewStep(h, [Throw(e)]); r.0.promises[r.1] == PState(Rejected, Undef, e, [])
    ensures Plain(v) ==> var r := NewStep(h, [CallResolve(v), Throw(e)]); r.0.promises[r.1] == PState(Fulfilled, v, Undef, [])
  {
    var a := Allocate(h);
    SettleQuiet(a.0, a.1, e);
    if Plain(v) {
      ResolvePlain(a.0, a.1, v);
      SettleQuiet(a.0, a.1, v);
      var h1 := ResolveStep(a.0, a.1, v);
      assert ExecutorStep(a.0, a.1, [CallResolve(v), Throw(e)]) == ExecutorStep(h1, a.1, [Throw(e)]);
      SettledIgnores(h1, a.1, e);
    }
  }

  /** The executor's `resolve` and `reject` share no "already resolved" flag: resolving
      with a pending promise leaves the new promise pending, so a later `reject` in the
      same executor still rejects it. */
  lemma ExecutorResolveDoesNotLock(h: Heap, q: nat, e: JsVal)
    requires q < |h.promises| && h.promises[q].state == Pending
    ensures var r := NewStep(h, [CallResolve(Promise(q)), CallReject(e)]);
            r.0.promises[r.1] == PState(Rejected, Undef, e, [])
  {
    var a := Allocate(h);
    ResolvePendingPromise(a.0, a.1, q);
    var h1 := ResolveStep(a.0, a.1, Promise(q));
    assert ExecutorStep(a.0, a.1, [CallResolve(Promise(q)), CallReject(e)]) == ExecutorStep(h1, a.1, [CallReject(e)]);
    assert ExecutorStep(h1, a.1, [CallReject(e)]) == ExecutorStep(RejectStep(h1, a.1, e), a.1, []);
    SettleQuiet(h1, a.1, e);
  }

  /** `SyncPromise.resolve` of a plain value is a promise fulfilled with it, and
      `SyncPromise.reject(e)` one rejected with `e`; nothing else changes. */
  lemma StaticsSettle(h: Heap, x: JsVal, e: JsVal)
    ensures Plain(x) ==> ResolveStatic(h, x).0 == h.(promises := h.promises + [PState(Fulfilled, x, Undef, [])])
    ensures RejectStatic(h, e).0 == h.(promises := h.promises + [PState(Rejected, Undef, e, [])])
  {
    RejectStaticSettles(h, e);
    if Plain(x) {
      ResolveStaticSettles(h, x);
    }
  }

  lemma RejectStaticSettles(h: Heap, e: JsVal)
    ensures RejectStatic(h, e).0 == h.(promises := h.promises + [PState(Rejected, Undef, e, [])])
  {
    var a := Allocate(h);
    assert [CallReject(e)][1..] == [];
    assert ExecutorStep(a.0, a.1, [CallReject(e)]) == ExecutorStep(RejectStep(a.0, a.1, e), a.1, []);
    SettleQuiet(a.0, a.1, e);
    assert a.0.promises[a.1 := PState(Rejected, Undef, e, [])] == h.promises + [PState(Rejected, Undef, e, [])];
  }

  lemma ResolveStaticSettles(h: Heap, x: JsVal)
    requires Plain(x)
    ensures ResolveStatic(h, x).0 == h.(promises := h.promises + [PState(Fulfilled, x, Undef, [])])
  {
    var a := Allocate(h);
    assert [CallResolve(x)][1..] == [];
    assert ExecutorStep(a.0, a.1, [CallResolve(x)]) == ExecutorStep(ResolveStep(a.0, a.1, x), a.1, []);
    ResolvePlain(a.0, a.1, x);
    SettleQuiet(a.0, a.1, x);
    assert a.0.promises[a.1 := PState(Fulfilled, x, Undef, [])] == h.promises + [PState(Fulfilled, x, Undef, [])];
  }

  /** `createApplicationSync` returns the application exactly when `createApplication`'s
      promise is already fulfilled when `then` is called, and otherwise throws the
      not-initialized error. */
  lemma CreateApplicationSyncSpec(h: Heap, app: nat)
    requires app < |h.promises|
    ensures var r := CreateApplicationSyncStep(h, app).1;
            && (r.Success? <==> h.promises[app].state == Fulfilled)
            && (r.Success? ==> r.value == h.promises[app].value)
            && (r.Failure? ==> r.error == NotInitializedMessage)
  {
    var h1 := h.(captured := None);
    var a := Allocate(h1);
    var s := h.promises[app];
    if s.state == Fulfilled {
      var reaction := Reaction(Capture, Missing, Some(a.1));
      assert HandleStep(a.0, reaction, true, s.value) == RunHandlerStep(a.0, Capture, Some(a.1), s.value);
      var c := a.0.(captured := Some(s.value));
      assert InvokeStep(a.0, Capture, s.value) == (c, Returns(Undef));
      ResolvePlain(c, a.1, Undef);
      SettleQuiet(c, a.1, Undef);
    } else if s.state == Rejected {
      assert HandleStep(a.0, Reaction(Capture, Missing, Some(a.1)), false, s.reason) == RejectStep(a.0, a.1, s.reason);
      SettleQuiet(a.0, a.1, s.reason);
    }
  }

  /** `all([])` is fulfilled with an empty array. */
  lemma AllEmpty(h: Heap)
    ensures var r := AllStep(h, []); r.0.promises[r.1] == PState(Fulfilled, Arr([]), Undef, [])
  {
    var a := Allocate(h);
    var h1 := a.0.(alls := a.0.alls[a.1 := AllState([], 0)]);
    assert seq(0, _ => Undef) == [];
    ResolvePlain(h1, a.1, Arr([]));
    SettleQuiet(h1, a.1, Arr([]));
  }

  function Undefs(k: nat): (r: seq<JsVal>)
    ensures |r| == k && forall j :: 0 <= j < k ==> r[j] == Undef
  {
    seq(k, _ => Undef)
  }

  /** The state of `all` while it waits for item `i`: its promise is untouched and the
      first `i` items sit in `out` at their own indices. */
  ghost predicate AllWaiting(h: Heap, a: nat, items: seq<JsVal>, i: nat) {
    && i <= |items| && a < |h.promises| && h.promises[a] == Fresh
    && a in h.alls && h.alls[a] == AllState(items[..i] + Undefs(|items| - i), |items| - i)
  }

  lemma OutSlot(items: seq<JsVal>, i: nat)
    requires i < |items|
    ensures (items[..i] + Undefs(|items| - i))[i := items[i]] == items[..i + 1] + Undefs(|items| - i - 1)
    ensures i + 1 == |items| ==> items[..i + 1] + Undefs(|items| - i - 1) == items
  {
    var lhs := (items[..i] + Undefs(|items| - i))[i := items[i]];
    var rhs := items[..i + 1] + Undefs(|items| - i - 1);
    assert |lhs| == |rhs|;
    forall j | 0 <= j < |lhs| ensures lhs[j] == rhs[j] {
    }
  }

  /** The callback of `all` for item `i`, called with the item's value. */
  lemma AllSlotCall(h: Heap, a: nat, items: seq<JsVal>, i: nat)
    requires AllWaiting(h, a, items, i) && i < |items|
    ensures var n := |items|;
            var st := AllState(items[..i + 1] + Undefs(n - i - 1), n - i - 1);
            var r := InvokeStep(h, AllSlot(a, i), items[i]);
            && r.1 == Returns(Undef)
            && r.0.alls == h.alls[a := st] && r.0.events == h.events
            && r.0.promises == if i + 1 < n then h.promises else h.promises[a := PState(Fulfilled, Arr(items), Undef, [])]
  {
    var n := |items|;
    OutSlot(items, i);
    var st := AllState(items[..i + 1] + Undefs(n - i - 1), n - i - 1);
    var h2 := h.(alls := h.alls[a := st]);
    SettleQuiet(h2, a, Arr(st.out));
  }

  /** One turn of the `forEach` of `all` on a plain item: the item's promise is fulfilled
      at once, so its callback stores the value at the item's index and counts it; the
      last one fulfils the promise of `all` with `out`. */
  lemma AllItemStep(h: Heap, a: nat, items: seq<JsVal>, i: nat)
    requires AllWaiting(h, a, items, i) && i < |items| && Plain(items[i])
    ensures var resolved := ResolveStatic(h, items[i]);
            var chained := ThenStep(resolved.0, resolved.1, AllSlot(a, i), RejectPromise(a));
            if i + 1 < |items| then AllWaiting(chained.0, a, items, i + 1)
            else chained.0.promises[a] == PState(Fulfilled, Arr(items), Undef, [])
  {
    var x := items[i];
    StaticsSettle(h, x, x);
    var r1 := h.(promises := h.promises + [PState(Fulfilled, x, Undef, [])]);
    var b := Allocate(r1);
    var d := b.1;
    var reaction := Reaction(AllSlot(a, i), RejectPromise(a), Some(d));
    assert ThenStep(r1, |h.promises|, AllSlot(a, i), RejectPromise(a)) == (HandleStep(b.0, reaction, true, x), d);
    assert HandleStep(b.0, reaction, true, x) == RunHandlerStep(b.0, AllSlot(a, i), Some(d), x);
    AllSlotCall(b.0, a, items, i);
    var h3 := InvokeStep(b.0, AllSlot(a, i), x).0;
    assert h3.promises[d] == Fresh;
    ResolvePlain(h3, d, Undef);
    SettleQuiet(h3, d, Undef);
  }

  lemma {:induction false} AllFromValues(h: Heap, a: nat, items: seq<JsVal>, i: nat)
    requires AllWaiting(h, a, items, i) && i < |items|
    requires forall k :: 0 <= k < |items| ==> Plain(items[k])
    ensures AllFrom(h, a, items, i).promises[a] == PState(Fulfilled, Arr(items), Undef, [])
    decreases |items| - i
  {
    AllItemStep(h, a, items, i);
    var resolved := ResolveStatic(h, items[i]);
    var chained := ThenStep(resolved.0, resolved.1, AllSlot(a, i), RejectPromise(a));
    if i + 1 < |items| {
      AllFromValues(chained.0, a, items, i + 1);
    }
  }

  /** `all` of plain values is fulfilled with them in index order. */
  lemma AllValues(h: Heap, items: seq<JsVal>)
    requires |items| > 0 && forall k :: 0 <= k < |items| ==> Plain(items[k])
    ensures var r := AllStep(h, items); r.0.promises[r.1] == PState(Fulfilled, Arr(items), Undef, [])
  {
    var a := Allocate(h);
    var h1 := a.0.(alls := a.0.alls[a.1 := AllState(seq(|items|, _ => Undef), |items|)]);
    assert items[..0] + Undefs(|items|) == seq(|items|, _ => Undef);
    AllFromValues(h1, a.1, items, 0);
  }

  /** A handler pair whose fulfilment side returns a plain value, with a pending,
      unsubscribed derived promise. */
  ghost predicate ReturningPair(h: Heap, reaction: Reaction) {
    && reaction.onFulfilled.User? && reaction.onFulfilled.outcome.Returns?
    && Plain(reaction.onFulfilled.outcome.value)
    && reaction.derived.Some? && reaction.derived.value < |h.promises|
    && h.promises[reaction.derived.value].state == Pending
    && h.promises[reaction.derived.value].reactions == []
  }

  /** Such pairs, each with its own derived promise. */
  ghost predicate ReturningPairs(h: Heap, q: seq<Reaction>) {
    && (forall k :: 0 <= k < |q| ==> ReturningPair(h, q[k]))
    && (forall j, k :: 0 <= j < k < |q| ==> q[j].derived != q[k].derived)
  }

  function HandlerCalls(q: seq<Reaction>, v: JsVal): seq<Event>
    requires forall k :: 0 <= k < |q| ==> q[k].onFulfilled.User?
  {
    seq(|q|, k requires 0 <= k < |q| => HandlerCalled(q[k].onFulfilled.id, v))
  }

  /** The queue runs in registration order: the handlers are called one after the other
      with the value, and each derived promise is fulfilled with what its handler
      returned. */
  lemma {:induction false} RunReactionsInOrder(h: Heap, q: seq<Reaction>, v: JsVal)
    requires ReturningPairs(h, q)
    ensures var r := RunReactions(h, q, true, v);
            && r.events == h.events + HandlerCalls(q, v)
            && forall k :: 0 <= k < |q| ==>
                 r.promises[q[k].derived.value].state == Fulfilled
                 && r.promises[q[k].derived.value].value == q[k].onFulfilled.outcome.value
    decreases |q|
  {
    if q != [] {
      var d := q[0].derived.value;
      var rest := q[1..];
      var h1 := HandleHead(h, q, v);
      RunReactionsInOrder(h1, rest, v);
      var r := RunReactions(h1, rest, true, v);
      RunReactionsCons(h, q, true, v);
      HandlerCallsCons(q, v);
      assert r.promises[d] == h1.promises[d];
      forall k | 1 <= k < |q|
        ensures r.promises[q[k].derived.value].state == Fulfilled
        ensures r.promises[q[k].derived.value].value == q[k].onFulfilled.outcome.value
      {
        assert rest[k - 1] == q[k];
      }
    }
  }

  /** Handling the first pair of such a queue calls its handler, fulfils its derived
      promise, and leaves the rest of the queue such pairs. */
  lemma HandleHead(h: Heap, q: seq<Reaction>, v: JsVal) returns (h1: Heap)
    requires ReturningPairs(h, q) && q != []
    ensures h1 == HandleStep(h, q[0], true, v)
    ensures h1.events == h.events + [HandlerCalled(q[0].onFulfilled.id, v)]
    ensures h1.promises[q[0].derived.value] == PState(Fulfilled, q[0].onFulfilled.outcome.value, h.promises[q[0].derived.value].reason, [])
    ensures ReturningPairs(h1, q[1..])
  {
    h1 := HandleReturning(h, q[0], v);
    ReturningPairsTail(h, q, h1);
  }

  lemma RunReactionsCons(h: Heap, q: seq<Reaction>, fulfilled: bool, arg: JsVal)
    requires q != []
    ensures RunReactions(h, q, fulfilled, arg) == RunReactions(HandleStep(h, q[0], fulfilled, arg), q[1..], fulfilled, arg)
  {
  }

  lemma HandlerCallsCons(q: seq<Reaction>, v: JsVal)
    requires q != [] && forall k :: 0 <= k < |q| ==> q[k].onFulfilled.User?
    ensures HandlerCalls(q, v) == [HandlerCalled(q[0].onFulfilled.id, v)] + HandlerCalls(q[1..], v)
  {
    var t := HandlerCalls(q[1..], v);
    assert forall k :: 0 <= k < |t| ==> t[k] == HandlerCalls(q, v)[k + 1];
  }

  /** After the first pair ran, the others still qualify. */
  lemma ReturningPairsTail(h: Heap, q: seq<Reaction>, h1: Heap)
    requires ReturningPairs(h, q) && q != []
    requires |h1.promises| == |h.promises|
    requires forall i :: 0 <= i < |h.promises| && Some(i) != q[0].derived ==> h1.promises[i] == h.promises[i]
    ensures ReturningPairs(h1, q[1..])
  {
    var rest := q[1..];
    forall k | 0 <= k < |rest| ensures ReturningPair(h1, rest[k]) {
      assert rest[k] == q[k + 1];
      assert ReturningPair(h, q[k + 1]);
    }
    forall j, k | 0 <= j < k < |rest| ensures rest[j].derived != rest[k].derived {
      assert rest[j] == q[j + 1] && rest[k] == q[k + 1];
    }
  }

  /** One pair whose fulfilment handler returns a plain value: the handler is called
      and the derived promise is fulfilled with that value, nothing else changes. */
  lemma HandleReturning(h: Heap, reaction: Reaction, v: JsVal) returns (h1: Heap)
    requires ReturningPair(h, reaction)
    ensures var f := reaction.onFulfilled;
            var d := reaction.derived.value;
            && h1 == HandleStep(h, reaction, true, v)
            && h1 == h.(events := h.events + [HandlerCalled(f.id, v)],
                        promises := h.promises[d := PState(Fulfilled, f.outcome.value, h.promises[d].reason, [])])
  {
    var f := reaction.onFulfilled;
    var d := reaction.derived.value;
    var w := f.outcome.value;
    assert HandleStep(h, reaction, true, v) == RunHandlerStep(h, f, Some(d), v);
    var e1 := h.(events := h.events + [HandlerCalled(f.id, v)]);
    assert InvokeStep(h, f, v) == (e1, Returns(w));
    ResolvePlain(e1, d, w);
    SettleQuiet(e1, d, w);
    h1 := e1.(promises := e1.promises[d := PState(Fulfilled, w, e1.promises[d].reason, [])]);
  }

  /** `fulfill` calls the fulfilment handlers its promise held, in registration order. */
  lemma FulfillRunsQueueInOrder(h: Heap, p: nat, v: JsVal)
    requires p < |h.promises| && h.promises[p].state == Pending
    requires ReturningPairs(h, h.promises[p].reactions)
    requires forall k :: 0 <= k < |h.promises[p].reactions| ==> h.promises[p].reactions[k].derived != Some(p)
    ensures FulfillStep(h, p, v).events == h.events + HandlerCalls(h.promises[p].reactions, v)
  {
    var q := h.promises[p].reactions;
    SettleUnfold(h, p, v);
    var h1 := h.(promises := h.promises[p := PState(Fulfilled, v, h.promises[p].reason, [])]);
    assert ReturningPairs(h1, q) by {
      forall k | 0 <= k < |q| ensures ReturningPair(h1, q[k]) {
        assert ReturningPair(h, q[k]);
        assert q[k].derived != Some(p);
      }
    }
    RunReactionsInOrder(h1, q, v);
  }

  // ---------------------------------------------------------------------------------
  // The objects, updated in place.

  /** Every `SyncPromise` object of the program with its fields, the trace, the closure
      variables of `all` and `createApplicationSync`, and `globalThis.Promise`. */
  class SyncPromiseHeap {
    var promises: seq<PState>
    var events: seq<Event>
    var alls: map<nat, AllState>
    var captured: Option<JsVal>
    ghost var globalPromise: PromiseCtor

    function Model(): Heap
      reads this
    {
      Heap(promises, events, alls, captured)
    }

    ghost predicate Valid()
      reads this
    {
      QueuesCleared(Model())
    }

    constructor ()
      ensures Valid() && Model() == Heap([], [], map[], None) && globalPromise == NativePromise
    {
      promises := [];
      events := [];
      alls := map[];
      captured := None;
      globalPromise := NativePromise;
    }

    method Fulfill(p: nat, v: JsVal)
      modifies this`promises, this`events, this`alls, this`captured
      ensures Model() == FulfillStep(old(Model()), p, v)
      decreases PendingCount(promises), 0
    {
      if p >= |promises| || promises[p].state != Pending {
        return;
      }
      var q := promises[p].reactions;
      var s := PState(Fulfilled, v, promises[p].reason, []);
      PendingCountUpdate(promises, p, s);
      promises := promises[p := s];
      ghost var settled := Model();
      for i := 0 to |q|
        invariant RunReactions(Model(), q[i..], true, v) == RunReactions(settled, q, true, v)
        invariant PendingCount(promises) < old(PendingCount(promises))
      {
        assert q[i..][1..] == q[i + 1..];
        Handle(q[i], true, v);
      }
    }

    method RejectWith(p: nat, e: JsVal)
      modifies this`promises, this`events, this`alls, this`captured
      ensures Model() == RejectStep(old(Model()), p, e)
      decreases PendingCount(promises), 0
    {
      if p >= |promises| || promises[p].state != Pending {
        return;
      }
      var q := promises[p].reactions;
      var s := PState(Rejected, promises[p].value, e, []);
      PendingCountUpdate(promises, p, s);
      promises := promises[p := s];
      ghost var settled := Model();
      for i := 0 to |q|
        invariant RunReactions(Model(), q[i..], false, e) == RunReactions(settled, q, false, e)
        invariant PendingCount(promises) < old(PendingCount(promises))
      {
        assert q[i..][1..] == q[i + 1..];
        Handle(q[i], false, e);
      }
    }

    /** `handleFulfilled` and `handleRejected`. */
    method Handle(reaction: Reaction, fulfilled: bool, arg: JsVal)
      modifies this`promises, this`events, this`alls, this`captured
      ensures Model() == HandleStep(old(Model()), reaction, fulfilled, arg)
      decreases PendingCount(promises), SizeR(reaction) + SizeV(arg) + 4
    {
      var handler := if fulfilled then reaction.onFulfilled else reaction.onRejected;
      if handler.Missing? {
        match reaction.derived
        case None =>
        case Some(d) =>
          if fulfilled {
            ResolveWith(d, arg);
          } else {
            RejectWith(d, arg);
          }
      } else {
        RunHandler(handler, reaction.derived, arg);
      }
    }

    method RunHandler(handler: Handler, derived: Option<nat>, arg: JsVal)
      requires !handler.Missing?
      modifies this`promises, this`events, this`alls, this`captured
      ensures Model() == RunHandlerStep(old(Model()), handler, derived, arg)
      decreases PendingCount(promises), SizeH(handler) + SizeV(arg) + 3
    {
      var outcome := Invoke(handler, arg);
      match derived
      case None =>
      case Some(d) =>
        match outcome
        case Returns(x) => ResolveWith(d, x);
        case Throws(e) => RejectWith(d, e);
    }

    method Invoke(handler: Handler, arg: JsVal) returns (outcome: Outcome)
      requires !handler.Missing?
      modifies this`promises, this`events, this`alls, this`captured
      ensures (Model(), outcome) == InvokeStep(old(Model()), handler, arg)
      decreases PendingCount(promises), SizeH(handler) + SizeV(arg) + 2
    {
      match handler
      case User(id, o) =>
        events := events + [HandlerCalled(id, arg)];
        outcome := o;
      case FinallyPass(f) =>
        outcome := Returns(arg);
        if f.Some? {
          events := events + [FinallyCalled(f.value.id)];
          if f.value.throws.Some? {
            outcome := Throws(f.value.throws.value);
          }
        }
      case FinallyRethrow(f) =>
        outcome := Throws(arg);
        if f.Some? {
          events := events + [FinallyCalled(f.value.id)];
          if f.value.throws.Some? {
            outcome := Throws(f.value.throws.value);
          }
        }
      case FulfillPromise(t) =>
        Fulfill(t, arg);
        outcome := Returns(Undef);
      case RejectPromise(t) =>
        RejectWith(t, arg);
        outcome := Returns(Undef);
      case Capture =>
        captured := Some(arg);
        outcome := Returns(Undef);
      case AllSlot(a, i) =>
        outcome := Returns(Undef);
        if a in alls && i < |alls[a].out| {
          var st := AllState(alls[a].out[i := arg], alls[a].remaining - 1);
          alls := alls[a := st];
          if st.remaining == 0 {
            Fulfill(a, Arr(st.out));
          }
        }
    }

    method ResolveWith(p: nat, x: JsVal)
      modifies this`promises, this`events, this`alls, this`captured
      ensures Model() == ResolveStep(old(Model()), p, x)
      decreases PendingCount(promises), SizeV(x) + 1
    {
      if p >= |promises| || promises[p].state != Pending {
        return;
      }
      if x == Promise(p) {
        RejectWith(p, TypeError(SelfResolutionMessage));
        return;
      }
      match x
      case Promise(q) =>
        if q >= |promises| {
        } else if promises[q].state == Fulfilled {
          Fulfill(p, promises[q].value);
        } else if promises[q].state == Rejected {
          RejectWith(p, promises[q].reason);
        } else {
          var s := promises[q].(reactions := promises[q].reactions + [Reaction(FulfillPromise(p), RejectPromise(p), None)]);
          PendingCountUpdate(promises, q, s);
          promises := promises[q := s];
        }
      case Thenable(id, t) =>
        match t {
        case GetterThrows(e) => RejectWith(p, e);
        case NotCallable => Fulfill(p, x);
        case Calls(acts) =>
          assert SizeV(x) == SizeActs(acts) + 2;
          events := events + [ThenCalled(id)];
          CallThen(p, acts);
        }
      case _ => Fulfill(p, x);
    }

    /** `then.call(x, resolvePromise, rejectPromise)`: the first call of either
        callback, or a throw before it, settles; the `called` flag ignores the rest. */
    method CallThen(p: nat, acts: seq<Action>)
      modifies this`promises, this`events, this`alls, this`captured
      ensures Model() == ThenActionsStep(old(Model()), p, acts, false)
      decreases PendingCount(promises), SizeActs(acts) + 1
    {
      ghost var start := Model();
      var called := false;
      var rest := acts;
      while rest != []
        invariant ThenActionsStep(Model(), p, rest, called) == ThenActionsStep(start, p, acts, false)
        invariant PendingCount(promises) <= old(PendingCount(promises))
        invariant SizeActs(rest) <= SizeActs(acts)
        decreases |rest|
      {
        assert SizeActs(rest) == SizeA(rest[0]) + SizeActs(rest[1..]);
        match rest[0]
        case CallResolve(y) =>
          if !called {
            called := true;
            ResolveWith(p, y);
          }
          rest := rest[1..];
        case CallReject(e) =>
          if !called {
            called := true;
            RejectWith(p, e);
          }
          rest := rest[1..];
        case Throw(e) =>
          if !called {
            RejectWith(p, e);
          }
          rest := [];
      }
    }

    /** `new SyncPromise(executor)`: the executor's calls, one after another, until it
        returns or throws. */
    method New(executor: seq<Action>) returns (p: nat)
      requires Valid()
      modifies this`promises, this`events, this`alls, this`captured
      ensures Valid()
      ensures (Model(), p) == NewStep(old(Model()), executor)
    {
      p := |promises|;
      promises := promises + [Fresh];
      ghost var start := Model();
      var rest := executor;
      while rest != []
        invariant Valid()
        invariant ExecutorStep(Model(), p, rest) == ExecutorStep(start, p, executor)
        decreases |rest|
      {
        ghost var before := Model();
        match rest[0] {
          case CallResolve(x) =>
            ResolveWith(p, x);
            rest := rest[1..];
          case CallReject(e) =>
            RejectWith(p, e);
            rest := rest[1..];
          case Throw(e) =>
            RejectWith(p, e);
            rest := [];
        }
        EvolvesKeepsCleared(before, Model());
      }
    }

    method Then(p: nat, onFulfilled: Handler, onRejected: Handler) returns (d: nat)
      requires Valid() && p < |promises|
      modifies this`promises, this`events, this`alls, this`captured
      ensures Valid()
      ensures (Model(), d) == ThenStep(old(Model()), p, onFulfilled, onRejected)
    {
      d := |promises|;
      promises := promises + [Fresh];
      ghost var grown := Model();
      var reaction := Reaction(onFulfilled, onRejected, Some(d));
      var ps := promises[p];
      if ps.state == Fulfilled {
        Handle(reaction, true, ps.value);
        EvolvesKeepsCleared(grown, Model());
      } else if ps.state == Rejected {
        Handle(reaction, false, ps.reason);
        EvolvesKeepsCleared(grown, Model());
      } else {
        promises := promises[p := ps.(reactions := ps.reactions + [reaction])];
      }
    }

    method Catch(p: nat, onRejected: Handler) returns (d: nat)
      requires Valid() && p < |promises|
      modifies this`promises, this`events, this`alls, this`captured
      ensures Valid()
      ensures (Model(), d) == CatchStep(old(Model()), p, onRejected)
    {
      d := Then(p, Missing, onRejected);
    }

    method Finally(p: nat, onFinally: Option<FinallyFn>) returns (d: nat)
      requires Valid() && p < |promises|
      modifies this`promises, this`events, this`alls, this`captured
      ensures Valid()
      ensures (Model(), d) == FinallyStep(old(Model()), p, onFinally)
    {
      d := Then(p, FinallyPass(onFinally), FinallyRethrow(onFinally));
    }

    method Resolve(x: JsVal) returns (d: nat)
      requires Valid()
      modifies this`promises, this`events, this`alls, this`captured
      ensures Valid()
      ensures (Model(), d) == ResolveStatic(old(Model()), x)
    {
      d := New([CallResolve(x)]);
    }

    method Reject(e: JsVal) returns (d: nat)
      requires Valid()
      modifies this`promises, this`events, this`alls, this`captured
      ensures Valid()
      ensures (Model(), d) == RejectStatic(old(Model()), e)
    {
      d := New([CallReject(e)]);
    }

    /** `SyncPromise.all(items)`: the `out` array and the `remaining` counter live in
        `alls[a]`; each item is resolved and subscribed to in index order. */
    method All(items: seq<JsVal>) returns (a: nat)
      requires Valid()
      modifies this`promises, this`events, this`alls, this`captured
      ensures Valid()
      ensures (Model(), a) == AllStep(old(Model()), items)
    {
      ghost var h0 := Model();
      a := |promises|;
      promises := promises + [Fresh];
      alls := alls[a := AllState(seq(|items|, _ => Undef), |items|)];
      assert Model() == Allocate(h0).0.(alls := Allocate(h0).0.alls[a := AllState(seq(|items|, _ => Undef), |items|)]);
      if |items| == 0 {
        ghost var before := Model();
        ResolveWith(a, Arr([]));
        EvolvesKeepsCleared(before, Model());
        return;
      }
      ghost var start := Model();
      for i := 0 to |items|
        invariant Valid()
        invariant AllFrom(Model(), a, items, i) == AllFrom(start, a, items, 0)
      {
        ghost var before := Model();
        var resolved := Resolve(items[i]);
        var chained := Then(resolved, AllSlot(a, i), RejectPromise(a));
        assert AllFrom(before, a, items, i) == AllFrom(Model(), a, items, i + 1);
      }
    }

    /** `runWithSyncPromise(fn)`: `fn` runs while `globalThis.Promise` is `SyncPromise`,
        and the original constructor is back afterwards whether `fn` returned or threw.
        `during` is the constructor `fn` sees. */
    method RunWithSyncPromise(fn: Outcome) returns (r: Outcome, ghost during: PromiseCtor)
      modifies this`globalPromise
      ensures r == fn && during == SyncPromiseCtor
      ensures globalPromise == old(globalPromise)
    {
      ghost var original := globalPromise;
      globalPromise := SyncPromiseCtor;
      during := globalPromise;
      r := fn;
      globalPromise := original;
    }

    /** `createApplicationSync`, once `createApplication` has returned the promise `app`:
        `captured` is the `appRef` variable the `then` callback assigns. */
    method CreateApplicationSync(app: nat) returns (r: Result<JsVal, string>)
      requires Valid() && app < |promises|
      modifies this`promises, this`events, this`alls, this`captured
      ensures Valid()
      ensures (Model(), r) == CreateApplicationSyncStep(old(Model()), app)
    {
      captured := None;
      var subscribed := Then(app, Capture, Missing);
      if captured.None? {
        r := Failure(NotInitializedMessage);
      } else {
        r := Success(captured.value);
      }
    }
  }
}
