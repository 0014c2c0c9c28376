/** The platform of platform.ts: the module-level registry of callbacks to run when a
    platform is created, the initializer that runs them, and the platform-destroy hook
    that destroys the platform's `DestroyRef` in a microtask unless it is already
    destroyed. A callback is identified by the number of the element it belongs to. */
module Platform {
  import OrderedSet
  import opened Wrappers

  /** `onCreatePlatformListeners`, a `Set` of callbacks in insertion order. */
  class CreatePlatformListeners {
    var listeners: seq<nat>

    ghost predicate Valid()
      reads this
    {
      OrderedSet.NoDup(listeners)
    }

    constructor ()
      ensures Valid() && listeners == []
    {
      listeners := [];
    }

    /** `onCreatePlatform(cb)`: a callback registered twice is kept once. */
    method OnCreatePlatform(cb: nat)
      requires Valid()
      modifies this
      ensures Valid()
      ensures listeners == OrderedSet.Add(old(listeners), cb)
    {
      if cb !in listeners {
        listeners := listeners + [cb];
      }
    }

    /** `offCreatePlatform(cb)`: removing an absent callback changes nothing. */
    method OffCreatePlatform(cb: nat)
      requires Valid()
      modifies this
      ensures Valid()
      ensures listeners == OrderedSet.Delete(old(listeners), cb)
    {
      listeners := OrderedSet.Delete(listeners, cb);
    }

    /** The initializer's `forEach`: the registered callbacks are called once each, in
        registration order, and the registry is not cleared. A callback in `throwing`
        throws (an element's `connectedCallback` whose application creation fails),
        which ends the `forEach`: the later callbacks are not called, and the error is
        the thrown callback's. The returned sequence is the order of the calls. */
    method NotifyAll(throwing: set<nat>) returns (called: seq<nat>, thrown: Option<nat>)
      requires Valid()
      ensures OrderedSet.NoDup(called)
      ensures thrown.None? <==> forall i :: 0 <= i < |listeners| ==> listeners[i] !in throwing
      ensures thrown.None? ==> called == listeners
      ensures thrown.Some? ==>
                exists k :: 0 <= k < |listeners| && called == listeners[..k + 1] && listeners[k] == thrown.value
                            && thrown.value in throwing && forall j :: 0 <= j < k ==> listeners[j] !in throwing
    {
      called := [];
      for i := 0 to |listeners|
        invariant called == listeners[..i]
        invariant forall j :: 0 <= j < i ==> listeners[j] !in throwing
      {
        called := called + [listeners[i]];
        assert called == listeners[..i + 1];
        if listeners[i] in throwing {
          return called, Some(listeners[i]);
        }
      }
      assert listeners[..|listeners|] == listeners;
      thrown := None;
    }
  }

  /** The state the platform-destroy hook works on: whether the `DestroyRef` is
      destroyed, how many hook microtasks are queued, and how many times the hook
      has destroyed the ref. */
  datatype Hook = Hook(destroyed: bool, queued: nat, hookDestroys: nat)

  /** A platform destruction queues one microtask. */
  function PlatformDestroyed(h: Hook): Hook {
    h.(queued := h.queued + 1)
  }

  /** The queued microtask: destroys the ref only if it is not destroyed yet. */
  function RunHook(h: Hook): (r: Hook)
    requires h.queued > 0
    ensures r.destroyed && r.queued == h.queued - 1
    ensures r.hookDestroys == h.hookDestroys + (if h.destroyed then 0 else 1)
  {
    if h.destroyed then h.(queued := h.queued - 1)
    else h.(destroyed := true, queued := h.queued - 1, hookDestroys := h.hookDestroys + 1)
  }

  function DrainHooks(h: Hook): (r: Hook)
    ensures r.queued == 0
    decreases h.queued
  {
    if h.queued == 0 then h else DrainHooks(RunHook(h))
  }

  /** However many destructions were queued, the hook destroys the ref at most once and
      never after it was destroyed elsewhere; once anything ran, the ref is destroyed. */
  lemma {:induction false} DrainHooksOnce(h: Hook)
    ensures DrainHooks(h).hookDestroys == h.hookDestroys + (if !h.destroyed && h.queued > 0 then 1 else 0)
    ensures DrainHooks(h).destroyed <==> h.destroyed || h.queued > 0
    decreases h.queued
  {
    if h.queued > 0 {
      DrainHooksOnce(RunHook(h));
    }
  }

  /** The platform initializer and the destroy hook it registers. */
  class PlatformInitializer {
    var hookRegistered: bool
    var destroyed: bool
    var queued: nat
    var hookDestroys: nat

    function Model(): Hook
      reads this
    {
      Hook(destroyed, queued, hookDestroys)
    }

    /** The ref destroyed by the hook at most once, and only a destroyed ref counted. */
    ghost predicate Valid()
      reads this
    {
      hookDestroys <= 1 && (hookDestroys == 1 ==> destroyed) && (!hookRegistered ==> queued == 0)
    }

    constructor ()
      ensures Valid() && !hookRegistered && !destroyed && queued == 0 && hookDestroys == 0
    {
      hookRegistered := false;
      destroyed := false;
      queued := 0;
      hookDestroys := 0;
    }

    /** `providePlatformInitializer`'s body: call the registered callbacks, then
        register the destroy hook. A throwing callback ends the body there: the later
        callbacks are not called and the hook is not registered. */
    method Initialize(registry: CreatePlatformListeners, throwing: set<nat>) returns (called: seq<nat>, thrown: Option<nat>)
      requires Valid() && registry.Valid()
      modifies this`hookRegistered
      ensures Valid()
      ensures hookRegistered <==> old(hookRegistered) || thrown.None?
      ensures thrown.None? <==> forall i :: 0 <= i < |registry.listeners| ==> registry.listeners[i] !in throwing
      ensures thrown.None? ==> called == registry.listeners
      ensures thrown.Some? ==>
                exists k :: 0 <= k < |registry.listeners| && called == registry.listeners[..k + 1]
                            && registry.listeners[k] == thrown.value && thrown.value in throwing
                            && forall j :: 0 <= j < k ==> registry.listeners[j] !in throwing
    {
      called, thrown := registry.NotifyAll(throwing);
      if thrown.None? {
        hookRegistered := true;
      }
    }

    /** `platform.destroy()`: runs the hook, which queues the guarded destruction. */
    method OnPlatformDestroy()
      requires Valid()
      modifies this`queued
      ensures Valid()
      ensures Model() == if hookRegistered then PlatformDestroyed(old(Model())) else old(Model())
    {
      if hookRegistered {
        queued := queued + 1;
      }
    }

    /** The `DestroyRef` destroyed by someone other than the hook. */
    method DestroyElsewhere()
      requires Valid()
      modifies this`destroyed
      ensures Valid() && destroyed
    {
      destroyed := true;
    }

    /** The queued microtask: `if (!destroyRef.destroyed) destroyRef.destroy()`. */
    method RunMicrotask()
      requires Valid() && queued > 0
      modifies this
      ensures Valid()
      ensures Model() == RunHook(old(Model()))
    {
      queued := queued - 1;
      if !destroyed {
        destroyed := true;
        hookDestroys := hookDestroys + 1;
      }
    }
  }
}
