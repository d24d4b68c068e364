/** `WasmTracingAllocator<A>` of src/lib.rs: a `GlobalAlloc` that forwards
    each call to the allocator it wraps and then invokes one tracing hook. */
module Tracing {
  import opened Hooks

  /** The part of `std::alloc::Layout` the decorator reads. */
  datatype Layout = Layout(size: Usize, align: Usize)

  /** The wrapped allocator `A`: its four `GlobalAlloc` operations as functions
      of its own state `S`. Which pointers it hands out, null included, is left
      entirely to it. */
  datatype GlobalAlloc<!S> = GlobalAlloc(
    alloc: (S, Layout) -> (S, Ptr),
    dealloc: (S, Ptr, Layout) -> S,
    allocZeroed: (S, Layout) -> (S, Ptr),
    realloc: (S, Ptr, Layout, Usize) -> (S, Ptr))

  /** A client's call of one of the four operations, with its arguments. */
  datatype Request =
    | Alloc(layout: Layout)
    | Dealloc(pointer: Ptr, layout: Layout)
    | AllocZeroed(layout: Layout)
    | Realloc(pointer: Ptr, layout: Layout, newSize: Usize)

  /** What a call returns: a pointer, or nothing for `dealloc`. */
  datatype Reply = Returned(pointer: Ptr) | Unit

  predicate Answers(request: Request, reply: Reply)
  {
    reply.Unit? <==> request.Dealloc?
  }

  /** What can be seen of the decorator from outside: a call into the wrapped
      allocator with its outcome, or a hook invocation. */
  datatype Effect = InnerCall(request: Request, reply: Reply) | Hook(event: Event)

  /** The wrapped allocator serving one call. */
  function Serve<S>(a: GlobalAlloc<S>, s: S, request: Request): (r: (S, Reply))
    ensures Answers(request, r.1)
  {
    match request
    case Alloc(layout) =>
      var (s', p) := a.alloc(s, layout); (s', Returned(p))
    case Dealloc(pointer, layout) =>
      (a.dealloc(s, pointer, layout), Unit)
    case AllocZeroed(layout) =>
      var (s', p) := a.allocZeroed(s, layout); (s', Returned(p))
    case Realloc(pointer, layout, newSize) =>
      var (s', p) := a.realloc(s, pointer, layout, newSize); (s', Returned(p))
  }

  /** The hook a call is reported with: the layout's size and align, the
      caller's pointer for `dealloc`, the returned one otherwise. */
  function EventOf(request: Request, reply: Reply): (r: Event)
    requires Answers(request, reply)
    ensures CallOf(r) == (request, reply)
  {
    match request
    case Alloc(layout) => OnAlloc(layout.size, layout.align, reply.pointer)
    case Dealloc(pointer, layout) => OnDealloc(layout.size, layout.align, pointer)
    case AllocZeroed(layout) => OnAllocZeroed(layout.size, layout.align, reply.pointer)
    case Realloc(pointer, layout, newSize) => OnRealloc(pointer, reply.pointer, layout.size, newSize, layout.align)
  }

  /** The call and its outcome as read back from the hook reporting them. */
  function CallOf(event: Event): (Request, Reply)
  {
    match event
    case OnAlloc(size, align, pointer) => (Request.Alloc(Layout(size, align)), Returned(pointer))
    case OnDealloc(size, align, pointer) => (Request.Dealloc(pointer, Layout(size, align)), Unit)
    case OnAllocZeroed(size, align, pointer) => (Request.AllocZeroed(Layout(size, align)), Returned(pointer))
    case OnRealloc(oldPointer, newPointer, oldSize, newSize, align) =>
      (Request.Realloc(oldPointer, Layout(oldSize, align), newSize), Returned(newPointer))
  }

  /** Every event is the report of exactly one call and outcome. */
  lemma CallOfReported(event: Event)
    ensures Answers(CallOf(event).0, CallOf(event).1)
    ensures EventOf(CallOf(event).0, CallOf(event).1) == event
  {
  }

  /** The hook events among some effects, in order. */
  function HookEvents(effects: seq<Effect>): (r: seq<Event>)
    ensures |r| <= |effects|
  {
    if effects == [] then []
    else HookEvents(effects[..|effects| - 1]) + (match effects[|effects| - 1] case Hook(e) => [e] case InnerCall(_, _) => [])
  }

  datatype Outcome<S> = Outcome(state: S, reply: Reply, effects: seq<Effect>)

  /** One call through the decorator: the wrapped allocator's call, then the hook. */
  function Traced<S>(a: GlobalAlloc<S>, s: S, request: Request): Outcome<S>
  {
    var (s', reply) := Serve(a, s, request);
    Outcome(s', reply, [InnerCall(request, reply), Hook(EventOf(request, reply))])
  }

  datatype Run<S> = Run(state: S, replies: seq<Reply>, effects: seq<Effect>)

  /** A sequence of calls served by the wrapped allocator alone. */
  function InnerRun<S>(a: GlobalAlloc<S>, s: S, requests: seq<Request>): (S, seq<Reply>)
  {
    if requests == [] then (s, [])
    else
      var (s', replies) := InnerRun(a, s, requests[..|requests| - 1]);
      var (s'', reply) := Serve(a, s', requests[|requests| - 1]);
      (s'', replies + [reply])
  }

  /** The same calls served through the decorator. */
  function TracedRun<S>(a: GlobalAlloc<S>, s: S, requests: seq<Request>): Run<S>
  {
    if requests == [] then Run(s, [], [])
    else
      var run := TracedRun(a, s, requests[..|requests| - 1]);
      var o := Traced(a, run.state, requests[|requests| - 1]);
      Run(o.state, run.replies + [o.reply], run.effects + o.effects)
  }

  /** Tracing is transparent: over any calls the client gets exactly what the
      wrapped allocator alone would return, and the allocator ends in the same
      state. */
  lemma {:induction false} Transparent<S>(a: GlobalAlloc<S>, s: S, requests: seq<Request>)
    ensures TracedRun(a, s, requests).replies == InnerRun(a, s, requests).1
    ensures TracedRun(a, s, requests).state == InnerRun(a, s, requests).0
  {
    if requests != [] {
      Transparent(a, s, requests[..|requests| - 1]);
    }
  }

  /** Each call yields exactly two effects: first the wrapped allocator's call
      with its outcome, then the one hook reporting that outcome. */
  lemma {:induction false} InnerCallThenHook<S>(a: GlobalAlloc<S>, s: S, requests: seq<Request>)
    ensures var run := TracedRun(a, s, requests);
      && |run.replies| == |requests|
      && |run.effects| == 2 * |requests|
      && forall i :: 0 <= i < |requests| ==>
           && Answers(requests[i], run.replies[i])
           && run.effects[2 * i] == InnerCall(requests[i], run.replies[i])
           && run.effects[2 * i + 1] == Hook(EventOf(requests[i], run.replies[i]))
  {
    if requests != [] {
      var init := requests[..|requests| - 1];
      InnerCallThenHook(a, s, init);
      var run := TracedRun(a, s, requests);
      forall i | 0 <= i < |requests| - 1
        ensures && Answers(requests[i], run.replies[i])
                && run.effects[2 * i] == InnerCall(requests[i], run.replies[i])
                && run.effects[2 * i + 1] == Hook(EventOf(requests[i], run.replies[i]))
      {
        assert requests[i] == init[i];
      }
    }
  }

  /** The hook stream of a run has one event per call, describing that call. */
  lemma {:induction false} OneEventPerCall<S>(a: GlobalAlloc<S>, s: S, requests: seq<Request>)
    ensures var run := TracedRun(a, s, requests);
      && |run.replies| == |requests|
      && |HookEvents(run.effects)| == |requests|
      && forall i :: 0 <= i < |requests| ==>
           Answers(requests[i], run.replies[i]) && HookEvents(run.effects)[i] == EventOf(requests[i], run.replies[i])
  {
    if requests != [] {
      var init := requests[..|requests| - 1];
      OneEventPerCall(a, s, init);
      InnerCallThenHook(a, s, init);
      var prev := TracedRun(a, s, init);
      var run := TracedRun(a, s, requests);
      var o := Traced(a, prev.state, requests[|requests| - 1]);
      HookEventsAppend(prev.effects, o.effects);
      assert HookEvents(o.effects) == [EventOf(requests[|requests| - 1], o.reply)] by {
        assert o.effects[..1] == [o.effects[0]];
        assert o.effects[..1][..0] == [];
      }
      forall i | 0 <= i < |requests| - 1
        ensures Answers(requests[i], run.replies[i]) && HookEvents(run.effects)[i] == EventOf(requests[i], run.replies[i])
      {
        assert requests[i] == init[i];
      }
    }
  }

  lemma {:induction false} HookEventsAppend(x: seq<Effect>, y: seq<Effect>)
    ensures HookEvents(x + y) == HookEvents(x) + HookEvents(y)
  {
    if y == [] {
      assert x + y == x;
    } else {
      var init := y[..|y| - 1];
      HookEventsAppend(x, init);
      assert (x + y)[..|x + y| - 1] == x + init;
    }
  }

  /** A call through the decorator adds its one hook event to the hook stream. */
  lemma HookEventsOfCall(log: seq<Effect>, request: Request, reply: Reply, event: Event)
    ensures HookEvents(log + [InnerCall(request, reply), Hook(event)]) == HookEvents(log) + [event]
  {
    var call := [InnerCall(request, reply), Hook(event)];
    HookEventsAppend(log, call);
    assert call[..1] == [InnerCall(request, reply)];
    assert call[..1][..0] == [];
  }

  /** The decorator: the wrapped allocator `self.0` and nothing else of its
      own; `log` stands for the world outside, recording in order every call
      into `self.0` and every hook invocation. */
  class WasmTracingAllocator<S> {
    /** The code of the wrapped allocator... */
    const inner: GlobalAlloc<S>
    /** ... and its state. */
    var state: S
    var log: seq<Effect>

    constructor (inner: GlobalAlloc<S>, state: S)
      ensures this.inner == inner && this.state == state && log == []
    {
      this.inner := inner;
      this.state := state;
      log := [];
    }

    method Alloc(layout: Layout) returns (pointer: Ptr)
      modifies this
      ensures (state, pointer) == inner.alloc(old(state), layout)
      ensures log == old(log) + [InnerCall(Request.Alloc(layout), Returned(pointer)),
                                 Hook(OnAlloc(layout.size, layout.align, pointer))]
      ensures Traced(inner, old(state), Request.Alloc(layout)) == Outcome(state, Returned(pointer), log[|old(log)|..])
    {
      var size := layout.size;
      var align := layout.align;
      var (s', p) := inner.alloc(state, layout);
      state := s';
      log := log + [InnerCall(Request.Alloc(layout), Returned(p))];
      log := log + [Hook(OnAlloc(size, align, p))];
      pointer := p;
    }

    method Dealloc(pointer: Ptr, layout: Layout)
      modifies this
      ensures state == inner.dealloc(old(state), pointer, layout)
      ensures log == old(log) + [InnerCall(Request.Dealloc(pointer, layout), Unit),
                                 Hook(OnDealloc(layout.size, layout.align, pointer))]
      ensures Traced(inner, old(state), Request.Dealloc(pointer, layout)) == Outcome(state, Unit, log[|old(log)|..])
    {
      var size := layout.size;
      var align := layout.align;
      state := inner.dealloc(state, pointer, layout);
      log := log + [InnerCall(Request.Dealloc(pointer, layout), Unit)];
      log := log + [Hook(OnDealloc(size, align, pointer))];
    }

    method AllocZeroed(layout: Layout) returns (pointer: Ptr)
      modifies this
      ensures (state, pointer) == inner.allocZeroed(old(state), layout)
      ensures log == old(log) + [InnerCall(Request.AllocZeroed(layout), Returned(pointer)),
                                 Hook(OnAllocZeroed(layout.size, layout.align, pointer))]
      ensures Traced(inner, old(state), Request.AllocZeroed(layout)) == Outcome(state, Returned(pointer), log[|old(log)|..])
    {
      var size := layout.size;
      var align := layout.align;
      var (s', p) := inner.allocZeroed(state, layout);
      state := s';
      log := log + [InnerCall(Request.AllocZeroed(layout), Returned(p))];
      log := log + [Hook(OnAllocZeroed(size, align, p))];
      pointer := p;
    }

    method Realloc(oldPointer: Ptr, layout: Layout, newSize: Usize) returns (newPointer: Ptr)
      modifies this
      ensures (state, newPointer) == inner.realloc(old(state), oldPointer, layout, newSize)
      ensures log == old(log) + [InnerCall(Request.Realloc(oldPointer, layout, newSize), Returned(newPointer)),
                                 Hook(OnRealloc(oldPointer, newPointer, layout.size, newSize, layout.align))]
      ensures Traced(inner, old(state), Request.Realloc(oldPointer, layout, newSize))
           == Outcome(state, Returned(newPointer), log[|old(log)|..])
    {
      var oldSize := layout.size;
      var align := layout.align;
      var (s', p) := inner.realloc(state, oldPointer, layout, newSize);
      state := s';
      log := log + [InnerCall(Request.Realloc(oldPointer, layout, newSize), Returned(p))];
      log := log + [Hook(OnRealloc(oldPointer, p, oldSize, newSize, align))];
      newPointer := p;
    }
  }
}
