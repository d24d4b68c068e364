/** Clients of the traced allocator with the JavaScript observer attached: each
    hook event the decorator emits is delivered to the observer at once, as the
    imported `WasmTracingAllocator.on_*` functions are called synchronously.
    The wrapped allocator is arbitrary; what it returns is not fixed. */
module Scenarios {
  import opened Hooks
  import opened Tracing
  import opened Aggregation
  import opened Observer

  /** Key and value of the dumps below: the pointer, and the byte size or a count. */
  function PointerOf(a: Allocation): Ptr { a.pointer }
  function SizeOf(a: Allocation): int { a.size }
  function FreedPointer(f: InvalidFree): Ptr { f.pointer }

  /** The observer's states after `alloc(16, 8)` of `p` and after its `dealloc`. */
  lemma AllocFreeStates(p: Ptr, stack: string)
    ensures var st1 := Dispatch(Init(), Call(OnAlloc(16, 8, p), stack));
      && st1 == State(map[p := Allocation(16, 8, p, stack)], [p], [])
      && Dispatch(st1, Call(OnDealloc(16, 8, p), stack)) == State(map[], [], [])
  {
    assert Remove([p], p) == [] by {
      assert [p][1..] == [];
    }
  }

  /** The decorator alone serving `alloc(16, 8)` and then `dealloc` of the
      returned pointer: its hook stream is the two matching events. */
  method TracedAllocFree<S>(a: GlobalAlloc<S>, s: S) returns (p: Ptr, events: seq<Event>)
    ensures p == a.alloc(s, Layout(16, 8)).1
    ensures events == [OnAlloc(16, 8, p), OnDealloc(16, 8, p)]
  {
    var t := new WasmTracingAllocator(a, s);
    var layout := Layout(16, 8);
    p := t.Alloc(layout);
    HookEventsOfCall([], Request.Alloc(layout), Returned(p), OnAlloc(16, 8, p));
    ghost var log1 := t.log;
    t.Dealloc(p, layout);
    HookEventsOfCall(log1, Request.Dealloc(p, layout), Unit, OnDealloc(16, 8, p));
    events := HookEvents(t.log);
  }

  /** `alloc(16, 8)` returning some `p`, then `dealloc(p, 16, 8)`, with each hook
      event handed to the observer in turn: `p` live in between with 16 bytes
      (one allocation under its stack with the default key and value), nothing
      live afterwards. The observer's dumps do not touch the allocator, so
      running both calls before delivering the events changes nothing. */
  method AllocThenFree<S>(a: GlobalAlloc<S>, s: S, stack: string)
    returns (p: Ptr, events: seq<Event>, liveBetween: seq<Row<Ptr>>, byStack: seq<Row<string>>, liveAfter: seq<Row<Ptr>>)
    ensures p == a.alloc(s, Layout(16, 8)).1
    ensures events == [OnAlloc(16, 8, p), OnDealloc(16, 8, p)]
    ensures liveBetween == [TotalRow(16), GroupRow(p, 16)]
    ensures byStack == [TotalRow(1), GroupRow(stack, 1)]
    ensures liveAfter == [TotalRow(0)]
  {
    p, events := TracedAllocFree(a, s);
    var obs := new Observer();
    obs.Notify(events[0], stack);
    var rec := Allocation(16, 8, p, stack);
    assert LiveEntries(obs.Snapshot()) == [rec] by {
      AllocFreeStates(p, stack);
      OneLiveEntry(obs.Snapshot(), rec);
    }
    TableOfOne(rec, PointerOf, SizeOf);
    liveBetween := obs.DumpLiveAllocations(PointerOf, SizeOf);
    TableOfOne(rec, AllocationStack, CountOne);
    byStack := obs.DumpLiveAllocations(AllocationStack, CountOne);
    obs.Notify(events[1], stack);
    assert LiveEntries(obs.Snapshot()) == [] by {
      AllocFreeStates(p, stack);
      NoLiveEntries(obs.liveAllocs, obs.liveOrder);
    }
    TableOfNone(PointerOf, SizeOf);
    liveAfter := obs.DumpLiveAllocations(PointerOf, SizeOf);
  }

  /** `dealloc(x, 8, 8)` of a pointer never allocated: the event carries `x`
      unchanged and the invalid-free table shows one free of `x`, also when
      grouped by the default key, the stack. */
  method FreeNeverAllocated<S>(a: GlobalAlloc<S>, s: S, x: Ptr, stack: string)
    returns (events: seq<Event>, invalid: seq<Row<Ptr>>, byStack: seq<Row<string>>)
    ensures events == [OnDealloc(8, 8, x)]
    ensures invalid == [TotalRow(1), GroupRow(x, 1)]
    ensures byStack == [TotalRow(1), GroupRow(stack, 1)]
  {
    var t := new WasmTracingAllocator(a, s);
    var obs := new Observer();
    t.Dealloc(x, Layout(8, 8));
    HookEventsOfCall([], Request.Dealloc(x, Layout(8, 8)), Unit, OnDealloc(8, 8, x));
    obs.Notify(t.log[|t.log| - 1].event, stack);
    TableOfOne(InvalidFree(8, 8, x, stack), FreedPointer, CountOne);
    invalid := obs.DumpInvalidFrees(FreedPointer, CountOne);
    TableOfOne(InvalidFree(8, 8, x, stack), InvalidFreeStack, CountOne);
    byStack := obs.DumpInvalidFrees(InvalidFreeStack, CountOne);
    events := HookEvents(t.log);
  }

  /** The observer's state after `alloc(32, 8)` of `p` and its reallocation to `q` with 64 bytes. */
  lemma AllocReallocState(p: Ptr, q: Ptr, stack: string)
    ensures Dispatch(Dispatch(Init(), Call(OnAlloc(32, 8, p), stack)), Call(OnRealloc(p, q, 32, 64, 8), stack))
         == State(map[q := Allocation(64, 8, q, stack)], [q], [])
  {
    var st1 := Dispatch(Init(), Call(OnAlloc(32, 8, p), stack));
    assert st1 == State(map[p := Allocation(32, 8, p, stack)], [p], []);
    assert Remove([p], p) == [] by {
      assert [p][1..] == [];
    }
    var st2 := DeallocStep(st1, 32, 8, p, stack);
    assert st2 == State(map[], [], []);
  }

  /** The decorator alone serving `alloc(32, 8)` and then `realloc` of the
      returned pointer to 64 bytes: its hook stream is the two matching events. */
  method TracedAllocRealloc<S>(a: GlobalAlloc<S>, s: S) returns (p: Ptr, q: Ptr, events: seq<Event>)
    ensures p == a.alloc(s, Layout(32, 8)).1
    ensures q == a.realloc(a.alloc(s, Layout(32, 8)).0, p, Layout(32, 8), 64).1
    ensures events == [OnAlloc(32, 8, p), OnRealloc(p, q, 32, 64, 8)]
  {
    var t := new WasmTracingAllocator(a, s);
    var layout := Layout(32, 8);
    p := t.Alloc(layout);
    HookEventsOfCall([], Request.Alloc(layout), Returned(p), OnAlloc(32, 8, p));
    ghost var log1 := t.log;
    q := t.Realloc(p, layout, 64);
    HookEventsOfCall(log1, Request.Realloc(p, layout, 64), Returned(q), OnRealloc(p, q, 32, 64, 8));
    events := HookEvents(t.log);
  }

  /** `alloc(32, 8)` returning `p`, then `realloc(p, 32, 8, 64)` returning `q`,
      with each hook event handed to the observer: one reallocation event
      `(p, q, 32, 64, 8)`, and afterwards only `q` is live, with 64 bytes,
      whether or not `q` is `p`; nothing is an invalid free. */
  method AllocThenRealloc<S>(a: GlobalAlloc<S>, s: S, stack: string)
    returns (p: Ptr, q: Ptr, events: seq<Event>, live: seq<Row<Ptr>>, invalidCount: nat)
    ensures p == a.alloc(s, Layout(32, 8)).1
    ensures q == a.realloc(a.alloc(s, Layout(32, 8)).0, p, Layout(32, 8), 64).1
    ensures events == [OnAlloc(32, 8, p), OnRealloc(p, q, 32, 64, 8)]
    ensures live == [TotalRow(64), GroupRow(q, 64)]
    ensures invalidCount == 0
  {
    p, q, events := TracedAllocRealloc(a, s);
    var obs := new Observer();
    obs.Notify(events[0], stack);
    obs.Notify(events[1], stack);
    var rec := Allocation(64, 8, q, stack);
    assert LiveEntries(obs.Snapshot()) == [rec] && obs.invalidFrees == [] by {
      AllocReallocState(p, q, stack);
      OneLiveEntry(obs.Snapshot(), rec);
    }
    TableOfOne(rec, PointerOf, SizeOf);
    live := obs.DumpLiveAllocations(PointerOf, SizeOf);
    invalidCount := |obs.invalidFrees|;
  }

  /** `alloc` of `p`, then `dealloc(p)` twice: exactly one invalid free, the
      second one, carrying `p` and the layout. */
  method DoubleFree<S>(a: GlobalAlloc<S>, s: S, layout: Layout, stack: string)
    returns (p: Ptr, invalid: seq<InvalidFree>, stillLive: bool)
    ensures p == a.alloc(s, layout).1
    ensures invalid == [InvalidFree(layout.size, layout.align, p, stack)]
    ensures !stillLive
  {
    var t := new WasmTracingAllocator(a, s);
    var obs := new Observer();
    p := t.Alloc(layout);
    obs.Notify(t.log[|t.log| - 1].event, stack);
    t.Dealloc(p, layout);
    obs.Notify(t.log[|t.log| - 1].event, stack);
    t.Dealloc(p, layout);
    obs.Notify(t.log[|t.log| - 1].event, stack);
    invalid := obs.invalidFrees;
    stillLive := p in obs.liveAllocs;
  }
}
