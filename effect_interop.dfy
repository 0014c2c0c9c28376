/** The schedulers of provide-platform-effect-interop.ts. The effect scheduler keeps a
    set of effect handles and a counter of dirty handles, and flushes by running every
    dirty handle until the counter drops to zero; the change detection scheduler
    coalesces notifications into at most one pending microtask `tick`, which flushes
    the effects. Handles are numbers; their `dirty` flags are kept with the scheduler
    as the set of dirty handles, and running a handle clears its flag and records the
    run in a trace. */
module EffectInterop {
  import OrderedSet

  /** The effect scheduler: the dirty counter, the handle set in insertion order, the
      dirty handles and the runs so far. */
  datatype Effects = Effects(count: int, queue: seq<nat>, dirty: set<nat>, runs: seq<nat>)

  /** The dirty handles of `queue`, in queue order. */
  function DirtyIn(queue: seq<nat>, dirty: set<nat>): (r: seq<nat>)
    ensures |r| <= |queue|
    ensures forall h :: h in r <==> h in queue && h in dirty
    ensures OrderedSet.NoDup(queue) ==> OrderedSet.NoDup(r)
  {
    if queue == [] then []
    else
      var n := |queue| - 1;
      var prefix := DirtyIn(queue[..n], dirty);
      assert forall h :: h in queue <==> h in queue[..n] || h == queue[n] by {
        assert queue == queue[..n] + [queue[n]];
      }
      if queue[n] in dirty then prefix + [queue[n]] else prefix
  }

  /** The handles are counted exactly: one count per dirty handle in the set. */
  ghost predicate Accounted(e: Effects) {
    OrderedSet.NoDup(e.queue) && e.count == |DirtyIn(e.queue, e.dirty)|
  }

  /** `schedule`: only a dirty handle is counted. */
  function ScheduleEffect(e: Effects, h: nat): (r: Effects)
    ensures r.count == e.count + (if h in e.dirty then 1 else 0)
    ensures r.queue == e.queue && r.dirty == e.dirty && r.runs == e.runs
  {
    if h in e.dirty then e.(count := e.count + 1) else e
  }

  /** `add`: the handle joins the set (once) and is scheduled. */
  function AddEffect(e: Effects, h: nat): (r: Effects)
    ensures r.queue == OrderedSet.Add(e.queue, h)
    ensures r.count == e.count + (if h in e.dirty then 1 else 0)
  {
    ScheduleEffect(e.(queue := OrderedSet.Add(e.queue, h)), h)
  }

  /** `remove`: the handle leaves the set, and a dirty handle is uncounted. */
  function RemoveEffect(e: Effects, h: nat): (r: Effects)
    ensures h !in r.queue && (forall x :: x != h ==> (x in r.queue <==> x in e.queue))
    ensures r.count == e.count - (if h in e.dirty then 1 else 0)
  {
    var r := e.(queue := OrderedSet.Delete(e.queue, h));
    if h in e.dirty then r.(count := r.count - 1) else r
  }

  /** A signal the effect reads changed: the framework marks a clean handle dirty and
      schedules it. */
  function MarkEffectDirty(e: Effects, h: nat): (r: Effects)
    ensures h in r.dirty
  {
    if h in e.dirty then e else ScheduleEffect(e.(dirty := e.dirty + {h}), h)
  }

  /** A pass of `flushQueue` over the handles `rest`, in order. */
  function PassOver(e: Effects, rest: seq<nat>, ran: bool): (Effects, bool)
    decreases |rest|
  {
    if rest == [] then (e, ran)
    else
      var h := rest[0];
      if h !in e.dirty then PassOver(e, rest[1..], ran)
      else PassOver(e.(count := e.count - 1, dirty := e.dirty - {h}, runs := e.runs + [h]), rest[1..], true)
  }

  /** `flushQueue`: the state after one pass over the whole set and whether it ran anything. */
  function Pass(e: Effects): (Effects, bool) {
    PassOver(e, e.queue, false)
  }

  /** Each run of a pass is paid for by one count, and the set is not changed. */
  lemma {:induction false} PassOverCount(e: Effects, rest: seq<nat>, ran: bool)
    ensures var r := PassOver(e, rest, ran).0;
            r.queue == e.queue && r.count + |r.runs| == e.count + |e.runs|
    decreases |rest|
  {
    if rest != [] {
      var h := rest[0];
      if h !in e.dirty {
        PassOverCount(e, rest[1..], ran);
      } else {
        PassOverCount(e.(count := e.count - 1, dirty := e.dirty - {h}, runs := e.runs + [h]), rest[1..], true);
      }
    }
  }

  /** A pass runs the dirty handles it visits, in order, once each. */
  lemma {:induction false} PassOverRuns(e: Effects, rest: seq<nat>, ran: bool)
    requires OrderedSet.NoDup(rest)
    ensures var d := DirtyIn(rest, e.dirty);
            && PassOver(e, rest, ran).0.runs == e.runs + d
            && (PassOver(e, rest, ran).1 <==> ran || |d| > 0)
    decreases |rest|
  {
    if rest != [] {
      var h := rest[0];
      var tail := rest[1..];
      NoDupTail(rest);
      DirtyInCons(h, tail, e.dirty);
      assert [h] + tail == rest;
      if h !in e.dirty {
        PassOverRuns(e, tail, ran);
      } else {
        var e' := e.(count := e.count - 1, dirty := e.dirty - {h}, runs := e.runs + [h]);
        assert PassOver(e, rest, ran) == PassOver(e', tail, true);
        PassOverRuns(e', tail, true);
        DirtyInClean(tail, e.dirty, h);
        assert e'.runs + DirtyIn(tail, e'.dirty) == e.runs + ([h] + DirtyIn(tail, e.dirty));
      }
    }
  }

  /** The tail of a sequence without duplicates has none and lacks the head. */
  lemma NoDupTail(rest: seq<nat>)
    requires OrderedSet.NoDup(rest) && rest != []
    ensures OrderedSet.NoDup(rest[1..]) && rest[0] !in rest[1..]
  {
    var tail := rest[1..];
    forall k | 0 <= k < |tail| ensures tail[k] != rest[0] {
      assert tail[k] == rest[k + 1];
    }
  }

  lemma {:induction false} PassOverDirty(e: Effects, rest: seq<nat>, ran: bool)
    ensures forall h :: h in PassOver(e, rest, ran).0.dirty <==> h in e.dirty && h !in rest
    decreases |rest|
  {
    if rest != [] {
      var h := rest[0];
      assert rest == [h] + rest[1..];
      if h !in e.dirty {
        PassOverDirty(e, rest[1..], ran);
      } else {
        PassOverDirty(e.(count := e.count - 1, dirty := e.dirty - {h}, runs := e.runs + [h]), rest[1..], true);
      }
    }
  }

  lemma {:induction false} DirtyInCons(h: nat, queue: seq<nat>, dirty: set<nat>)
    ensures DirtyIn([h] + queue, dirty) == (if h in dirty then [h] else []) + DirtyIn(queue, dirty)
    decreases |queue|
  {
    if queue == [] {
      assert [h] + queue == [h];
      assert [h][..0] == [];
    } else {
      var n := |queue| - 1;
      var whole := [h] + queue;
      assert whole[..|queue|] == [h] + queue[..n];
      assert whole[|queue|] == queue[n];
      DirtyInCons(h, queue[..n], dirty);
      var tailPart := if queue[n] in dirty then [queue[n]] else [];
      assert DirtyIn(whole, dirty) == DirtyIn([h] + queue[..n], dirty) + tailPart;
      assert DirtyIn(queue, dirty) == DirtyIn(queue[..n], dirty) + tailPart;
    }
  }

  /** Cleaning a handle that is not in `queue` does not change the dirty handles of `queue`. */
  lemma {:induction false} DirtyInClean(queue: seq<nat>, dirty: set<nat>, h: nat)
    requires h !in queue
    ensures DirtyIn(queue, dirty - {h}) == DirtyIn(queue, dirty)
    decreases |queue|
  {
    if queue != [] {
      var n := |queue| - 1;
      assert queue[n] in queue;
      assert h !in queue[..n] by { assert queue == queue[..n] + [queue[n]]; }
      DirtyInClean(queue[..n], dirty, h);
    }
  }

  /** A `flushQueue` pass skips the clean handles, runs every dirty handle of the set
      once, in set order, uncounts one per run, leaves every handle of the set clean,
      and reports whether anything ran. */
  lemma PassSpec(e: Effects)
    requires OrderedSet.NoDup(e.queue)
    ensures var (r, ran) := Pass(e);
            var d := DirtyIn(e.queue, e.dirty);
            && r.queue == e.queue
            && r.runs == e.runs + d
            && r.count == e.count - |d|
            && (forall h :: h in r.dirty <==> h in e.dirty && h !in e.queue)
            && DirtyIn(r.queue, r.dirty) == []
            && (ran <==> |d| > 0)
            && (ran <==> exists h :: h in e.queue && h in e.dirty)
  {
    PassOverRuns(e, e.queue, false);
    PassOverCount(e, e.queue, false);
    PassOverDirty(e, e.queue, false);
    var (r, ran) := Pass(e);
    var d := DirtyIn(e.queue, e.dirty);
    if |d| > 0 {
      assert d[0] in d;
    }
    var left := DirtyIn(r.queue, r.dirty);
    if left != [] {
      assert left[0] in left;
    }
  }

  /** `flush`: passes until the counter is not positive; a pass that runs nothing
      resets the counter to zero. */
  function FlushEffects(e: Effects): (r: Effects)
    requires OrderedSet.NoDup(e.queue)
    ensures r.queue == e.queue
    decreases |DirtyIn(e.queue, e.dirty)|, if e.count > 0 then 1 else 0
  {
    if e.count <= 0 then e
    else
      PassSpec(e);
      var (r, ran) := Pass(e);
      if !ran then r.(count := 0) else FlushEffects(r)
  }

  /** `flush` returns with the counter not positive. When it had work (a positive
      counter) every dirty handle of the set has run exactly once, in set order, and
      none is left dirty; otherwise it changes nothing. */
  lemma {:induction false} FlushSpec(e: Effects)
    requires OrderedSet.NoDup(e.queue)
    ensures var r := FlushEffects(e);
            && r.count <= 0
            && (e.count <= 0 ==> r == e)
            && (e.count > 0 ==>
                  && r.runs == e.runs + DirtyIn(e.queue, e.dirty)
                  && DirtyIn(r.queue, r.dirty) == []
                  && (forall h :: h in r.dirty <==> h in e.dirty && h !in e.queue))
    decreases |DirtyIn(e.queue, e.dirty)|, if e.count > 0 then 1 else 0
  {
    if e.count > 0 {
      PassSpec(e);
      var (r, ran) := Pass(e);
      if ran {
        FlushSpec(r);
        if r.count > 0 {
          PassSpec(r);
        }
      }
    }
  }

  /** With exact counting, a flush runs each dirty handle exactly once and leaves the
      counting exact; a flush with nothing counted has nothing to run. */
  lemma FlushAccounted(e: Effects)
    requires Accounted(e)
    ensures var r := FlushEffects(e);
            && Accounted(r) && r.count == 0
            && r.runs == e.runs + DirtyIn(e.queue, e.dirty)
            && DirtyIn(r.queue, r.dirty) == []
  {
    FlushSpec(e);
    if e.count > 0 {
      PassSpec(e);
    }
  }

  /** Adding a handle that is not in the set keeps the counting exact. */
  lemma AddAccounted(e: Effects, h: nat)
    requires Accounted(e) && h !in e.queue
    ensures Accounted(AddEffect(e, h))
  {
    assert e.queue + [h] == OrderedSet.Add(e.queue, h);
    assert (e.queue + [h])[..|e.queue|] == e.queue;
  }

  /** Removing a handle keeps the counting exact. */
  lemma RemoveAccounted(e: Effects, h: nat)
    requires Accounted(e) && h in e.queue
    ensures Accounted(RemoveEffect(e, h))
  {
    DirtyInDelete(e.queue, e.dirty, h);
  }

  lemma {:induction false} DirtyInDelete(queue: seq<nat>, dirty: set<nat>, h: nat)
    requires OrderedSet.NoDup(queue)
    ensures |DirtyIn(OrderedSet.Delete(queue, h), dirty)|
            == |DirtyIn(queue, dirty)| - (if h in queue && h in dirty then 1 else 0)
  {
    if queue != [] {
      var t := queue[1..];
      assert queue == [queue[0]] + t;
      DirtyInCons(queue[0], t, dirty);
      DirtyInDelete(t, dirty, h);
      if queue[0] == h {
        OrderedSet.DeleteAbsent(t, h);
      } else {
        DirtyInCons(queue[0], OrderedSet.Delete(t, h), dirty);
      }
    }
  }

  /** Marking a clean handle of the set dirty keeps the counting exact. */
  lemma MarkDirtyAccounted(e: Effects, h: nat)
    requires Accounted(e) && h in e.queue
    ensures Accounted(MarkEffectDirty(e, h))
  {
    if h !in e.dirty {
      DirtyInAdd(e.queue, e.dirty, h);
    }
  }

  lemma {:induction false} DirtyInAdd(queue: seq<nat>, dirty: set<nat>, h: nat)
    requires OrderedSet.NoDup(queue) && h in queue && h !in dirty
    ensures |DirtyIn(queue, dirty + {h})| == |DirtyIn(queue, dirty)| + 1
  {
    var t := queue[1..];
    assert queue == [queue[0]] + t;
    DirtyInCons(queue[0], t, dirty);
    DirtyInCons(queue[0], t, dirty + {h});
    if queue[0] == h {
      DirtyInClean(t, dirty + {h}, h);
      assert dirty + {h} - {h} == dirty;
    } else {
      DirtyInAdd(t, dirty, h);
    }
  }

  /** The effect scheduler. */
  class PlatformEffectScheduler {
    var dirtyEffectCount: int
    var queue: seq<nat>
    var dirty: set<nat>
    var runs: seq<nat>

    function Model(): Effects
      reads this
    {
      Effects(dirtyEffectCount, queue, dirty, runs)
    }

    ghost predicate Valid()
      reads this
    {
      OrderedSet.NoDup(queue)
    }

    constructor ()
      ensures Valid() && Model() == Effects(0, [], {}, [])
    {
      dirtyEffectCount := 0;
      queue := [];
      dirty := {};
      runs := [];
    }

    method Add(h: nat)
      requires Valid()
      modifies this`queue, this`dirtyEffectCount
      ensures Valid() && Model() == AddEffect(old(Model()), h)
    {
      Enqueue(h);
      Schedule(h);
    }

    method Schedule(h: nat)
      modifies this`dirtyEffectCount
      ensures Model() == ScheduleEffect(old(Model()), h)
    {
      if h !in dirty {
        return;
      }
      dirtyEffectCount := dirtyEffectCount + 1;
    }

    method Remove(h: nat)
      requires Valid()
      modifies this`queue, this`dirtyEffectCount
      ensures Valid() && Model() == RemoveEffect(old(Model()), h)
    {
      queue := OrderedSet.Delete(queue, h);
      if h in dirty {
        dirtyEffectCount := dirtyEffectCount - 1;
      }
    }

    method Enqueue(h: nat)
      requires Valid()
      modifies this`queue
      ensures Valid() && queue == OrderedSet.Add(old(queue), h)
    {
      if h !in queue {
        queue := queue + [h];
      }
    }

    /** A signal the handle reads changed (done by the framework, not by this file). */
    method MarkDirty(h: nat)
      modifies this`dirty, this`dirtyEffectCount
      ensures Model() == MarkEffectDirty(old(Model()), h)
    {
      if h !in dirty {
        dirty := dirty + {h};
        Schedule(h);
      }
    }

    /** `handle.run()`: the effect runs and its handle is clean again. */
    method Run(h: nat)
      modifies this`dirty, this`runs
      ensures dirty == old(dirty) - {h} && runs == old(runs) + [h]
    {
      dirty := dirty - {h};
      runs := runs + [h];
    }

    method FlushQueue() returns (ranOneEffect: bool)
      requires Valid()
      modifies this`dirtyEffectCount, this`dirty, this`runs
      ensures Valid()
      ensures (Model(), ranOneEffect) == Pass(old(Model()))
    {
      ranOneEffect := false;
      for i := 0 to |queue|
        invariant PassOver(Model(), queue[i..], ranOneEffect) == Pass(old(Model()))
      {
        var h := queue[i];
        if h !in dirty {
          continue;
        }
        dirtyEffectCount := dirtyEffectCount - 1;
        ranOneEffect := true;
        Run(h);
      }
    }

    method Flush()
      requires Valid()
      modifies this`dirtyEffectCount, this`dirty, this`runs
      ensures Valid()
      ensures Model() == FlushEffects(old(Model()))
    {
      while dirtyEffectCount > 0
        invariant Valid()
        invariant FlushEffects(Model()) == FlushEffects(old(Model()))
        decreases |DirtyIn(queue, dirty)|, if dirtyEffectCount > 0 then 1 else 0
      {
        PassSpec(Model());
        var ran := FlushQueue();
        if !ran {
          dirtyEffectCount := 0;
        }
      }
    }
  }

  // ---------------------------------------------------------------------------
  // Change detection scheduling

  /** The change detection scheduler: whether a tick is scheduled, how many tick
      microtasks are queued, whether a tick is running, and the effects it flushes. */
  datatype Cd = Cd(scheduled: bool, pendingTicks: nat, runningTick: bool, effects: Effects)

  /** Between microtasks: a tick is queued exactly when one is scheduled, and no tick
      is running. */
  ghost predicate CdInv(c: Cd) {
    c.pendingTicks == (if c.scheduled then 1 else 0) && !c.runningTick && OrderedSet.NoDup(c.effects.queue)
  }

  /** `notify`: a notification while a tick is scheduled is dropped. */
  function NotifyState(c: Cd): (r: Cd)
    ensures r.scheduled && r.effects == c.effects && r.runningTick == c.runningTick
    ensures r.pendingTicks == c.pendingTicks + (if c.scheduled then 0 else 1)
  {
    if c.scheduled then c else c.(scheduled := true, pendingTicks := c.pendingTicks + 1)
  }

  /** The queued microtask: `tick` flushes the effects with the flag cleared. */
  function TickState(c: Cd): (r: Cd)
    requires c.pendingTicks > 0 && OrderedSet.NoDup(c.effects.queue)
    ensures !r.scheduled && !r.runningTick && r.pendingTicks == c.pendingTicks - 1
    ensures r.effects == FlushEffects(c.effects)
  {
    c.(scheduled := false, pendingTicks := c.pendingTicks - 1, runningTick := false, effects := FlushEffects(c.effects))
  }

  /** However many notifications arrive, at most one tick is pending. */
  lemma NotifyCoalesces(c: Cd)
    requires CdInv(c)
    ensures CdInv(NotifyState(c)) && NotifyState(c).pendingTicks == 1
    ensures NotifyState(NotifyState(c)) == NotifyState(c)
  {
  }

  lemma TickKeepsInv(c: Cd)
    requires CdInv(c) && c.scheduled
    ensures CdInv(TickState(c)) && TickState(c).pendingTicks == 0
  {
  }

  /** A changed effect does not run when it is marked and notified, but once the tick
      microtask runs, and only once: a second tick without a new change runs nothing. */
  lemma EffectRunsAfterMicrotask(c: Cd, h: nat)
    requires CdInv(c) && !c.scheduled && Accounted(c.effects)
    requires h in c.effects.queue && DirtyIn(c.effects.queue, c.effects.dirty) == []
    ensures var notified := NotifyState(c.(effects := MarkEffectDirty(c.effects, h)));
            && notified.effects.runs == c.effects.runs
            && TickState(notified).effects.runs == c.effects.runs + [h]
            && TickState(NotifyState(TickState(notified))).effects.runs == c.effects.runs + [h]
  {
    var marked := MarkEffectDirty(c.effects, h);
    assert h !in c.effects.dirty;
    MarkDirtyAccounted(c.effects, h);
    var d := DirtyIn(marked.queue, marked.dirty);
    DirtyInAdd(c.effects.queue, c.effects.dirty, h);
    assert d[0] in d;
    assert d == [h];
    FlushAccounted(marked);
    var flushed := FlushEffects(marked);
    FlushAccounted(flushed);
  }

  /** The change detection scheduler. */
  class PlatformChangeDetectionScheduler {
    const effectScheduler: PlatformEffectScheduler
    var isChangeDetectionScheduled: bool
    var runningTick: bool
    /** The `tick` microtasks queued and not yet run. */
    var pendingTicks: nat

    function Model(): Cd
      reads this, effectScheduler
    {
      Cd(isChangeDetectionScheduled, pendingTicks, runningTick, effectScheduler.Model())
    }

    ghost predicate Valid()
      reads this, effectScheduler
    {
      effectScheduler.Valid() && CdInv(Model())
    }

    constructor (effectScheduler: PlatformEffectScheduler)
      requires effectScheduler.Valid()
      ensures Valid() && this.effectScheduler == effectScheduler
      ensures !isChangeDetectionScheduled && pendingTicks == 0
    {
      this.effectScheduler := effectScheduler;
      isChangeDetectionScheduled := false;
      runningTick := false;
      pendingTicks := 0;
    }

    method Notify()
      requires Valid()
      modifies this`isChangeDetectionScheduled, this`pendingTicks
      ensures Valid()
      ensures Model() == NotifyState(old(Model()))
    {
      if isChangeDetectionScheduled {
        return;
      }
      isChangeDetectionScheduled := true;
      pendingTicks := pendingTicks + 1;
    }

    /** The queued microtask runs `tick`. */
    method RunMicrotask()
      requires Valid() && pendingTicks > 0
      modifies this, effectScheduler
      ensures Valid()
      ensures Model() == TickState(old(Model()))
    {
      pendingTicks := pendingTicks - 1;
      Tick();
    }

    method Tick()
      requires effectScheduler.Valid()
      modifies this`isChangeDetectionScheduled, this`runningTick, effectScheduler
      ensures effectScheduler.Valid()
      ensures !isChangeDetectionScheduled && !runningTick
      ensures effectScheduler.Model() == FlushEffects(old(effectScheduler.Model()))
    {
      isChangeDetectionScheduled := false;
      runningTick := true;
      effectScheduler.Flush();
      runningTick := false;
    }
  }
}
