/** The JavaScript side of js/hooks.js: the `liveAllocs` Map and the
    `invalidFrees` array, the four hook handlers that update them, and the two
    dumps. Each record's `stack` comes from the runtime and is a parameter. */
module Observer {
  import opened Hooks
  import opened Aggregation

  /** An `Allocation` record. */
  datatype Allocation = Allocation(size: Usize, align: Usize, pointer: Ptr, stack: string)

  /** An `InvalidFree` record. */
  datatype InvalidFree = InvalidFree(size: Usize, align: Usize, pointer: Ptr, stack: string)

  /** The observer's state. A JavaScript Map is a lookup table together with
      the order its keys were inserted in, which is the order `values()` walks. */
  datatype State = State(liveAllocs: map<Ptr, Allocation>, liveOrder: seq<Ptr>, invalidFrees: seq<InvalidFree>)

  datatype Option<T> = None | Some(value: T)

  /** The Map's lookup table and key order agree, and every record sits under its own pointer. */
  ghost predicate WellFormed(st: State)
  {
    && (forall p :: p in st.liveAllocs <==> p in st.liveOrder)
    && Distinct(st.liveOrder)
    && (forall p :: p in st.liveAllocs ==> st.liveAllocs[p].pointer == p)
  }

  function Init(): (r: State)
    ensures WellFormed(r)
  {
    State(map[], [], [])
  }

  /** The key order after `Map.prototype.delete`. */
  function Remove(order: seq<Ptr>, p: Ptr): (r: seq<Ptr>)
    ensures forall q :: q in r <==> q in order && q != p
    ensures Distinct(order) ==> Distinct(r)
    ensures Subsequence(r, order)
  {
    if order == [] then []
    else if order[0] == p then
      var r := Remove(order[1..], p);
      assert r != [] ==> r[0] in r;
      r
    else
      var rest := Remove(order[1..], p);
      assert Distinct(order) ==> order[0] !in rest;
      assert ([order[0]] + rest)[1..] == rest;
      [order[0]] + rest
  }

  /** `r` is `order` with some elements left out: what is left keeps its relative order. */
  predicate Subsequence(r: seq<Ptr>, order: seq<Ptr>)
  {
    if r == [] then true
    else if order == [] then false
    else if r[0] == order[0] then Subsequence(r[1..], order[1..])
    else Subsequence(r, order[1..])
  }

  /** `onAlloc`: `liveAllocs.set(pointer, new Allocation(...))`. */
  function AllocStep(st: State, size: Usize, align: Usize, pointer: Ptr, stack: string): (r: State)
    ensures pointer in r.liveAllocs && r.liveAllocs[pointer] == Allocation(size, align, pointer, stack)
    ensures forall q :: q != pointer ==> (q in r.liveAllocs <==> q in st.liveAllocs)
    ensures forall q :: q != pointer && q in st.liveAllocs ==> r.liveAllocs[q] == st.liveAllocs[q]
    ensures r.invalidFrees == st.invalidFrees
    ensures r.liveOrder == if pointer in st.liveAllocs then st.liveOrder else st.liveOrder + [pointer]
    ensures WellFormed(st) ==> WellFormed(r)
  {
    State(st.liveAllocs[pointer := Allocation(size, align, pointer, stack)],
          if pointer in st.liveAllocs then st.liveOrder else st.liveOrder + [pointer],
          st.invalidFrees)
  }

  /** `onDealloc`: a live pointer is deleted; any other free is recorded as invalid. */
  function DeallocStep(st: State, size: Usize, align: Usize, pointer: Ptr, stack: string): (r: State)
    ensures pointer !in r.liveAllocs
    ensures forall q :: q != pointer ==> (q in r.liveAllocs <==> q in st.liveAllocs)
    ensures forall q :: q != pointer && q in st.liveAllocs ==> r.liveAllocs[q] == st.liveAllocs[q]
    ensures pointer in st.liveAllocs ==> r.invalidFrees == st.invalidFrees
    ensures pointer !in st.liveAllocs ==> r.invalidFrees == st.invalidFrees + [InvalidFree(size, align, pointer, stack)]
    ensures WellFormed(st) ==> WellFormed(r)
  {
    if pointer in st.liveAllocs then
      State(st.liveAllocs - {pointer}, Remove(st.liveOrder, pointer), st.invalidFrees)
    else
      State(st.liveAllocs, st.liveOrder, st.invalidFrees + [InvalidFree(size, align, pointer, stack)])
  }

  /** `onRealloc`: `onDealloc` of the old pointer, then `onAlloc` of the new one. */
  function ReallocStep(st: State, oldPointer: Ptr, newPointer: Ptr, oldSize: Usize, newSize: Usize, align: Usize, stack: string): (r: State)
    ensures newPointer in r.liveAllocs && r.liveAllocs[newPointer] == Allocation(newSize, align, newPointer, stack)
    ensures oldPointer != newPointer ==> oldPointer !in r.liveAllocs
    ensures forall q :: q != oldPointer && q != newPointer ==> (q in r.liveAllocs <==> q in st.liveAllocs)
    ensures forall q :: q != oldPointer && q != newPointer && q in st.liveAllocs ==> r.liveAllocs[q] == st.liveAllocs[q]
    ensures r.invalidFrees == st.invalidFrees + (if oldPointer in st.liveAllocs then [] else [InvalidFree(oldSize, align, oldPointer, stack)])
    ensures WellFormed(st) ==> WellFormed(r)
  {
    AllocStep(DeallocStep(st, oldSize, align, oldPointer, stack), newSize, align, newPointer, stack)
  }

  /** A hook invocation as the observer receives it, with the stack captured at that moment. */
  datatype Call = Call(event: Event, stack: string)

  /** The handler the `WasmTracingAllocator` global routes an event to. */
  function Dispatch(st: State, call: Call): (r: State)
    ensures st.invalidFrees <= r.invalidFrees && |r.invalidFrees| <= |st.invalidFrees| + 1
    ensures |r.invalidFrees| > |st.invalidFrees| ==> call.event.OnDealloc? || call.event.OnRealloc?
  {
    match call.event
    case OnAlloc(size, align, pointer) => AllocStep(st, size, align, pointer, call.stack)
    case OnDealloc(size, align, pointer) => DeallocStep(st, size, align, pointer, call.stack)
    case OnAllocZeroed(size, align, pointer) => AllocStep(st, size, align, pointer, call.stack)
    case OnRealloc(oldPointer, newPointer, oldSize, newSize, align) =>
      ReallocStep(st, oldPointer, newPointer, oldSize, newSize, align, call.stack)
  }

  /** `on_alloc_zeroed` reaches `onAllocZeroed`, which does just what `onAlloc` does. */
  lemma AllocZeroedIsAlloc(st: State, size: Usize, align: Usize, pointer: Ptr, stack: string)
    ensures Dispatch(st, Call(OnAllocZeroed(size, align, pointer), stack)) == Dispatch(st, Call(OnAlloc(size, align, pointer), stack))
  {
  }

  /** The state after a sequence of hook invocations, in order. */
  function Replay(st: State, calls: seq<Call>): State
  {
    if calls == [] then st else Dispatch(Replay(st, calls[..|calls| - 1]), calls[|calls| - 1])
  }

  /** Reference definition of the live record of `p`, read off the calls alone:
      the last call naming `p` decides, an allocation of `p` (also as the new
      pointer of a reallocation) making it live with that call's record, a free
      of `p` (also as the old pointer of a reallocation to elsewhere) making it
      not live; with no such call it is what it was at the start. */
  function LiveRecord(st: State, calls: seq<Call>, p: Ptr): Option<Allocation>
  {
    if calls == [] then
      if p in st.liveAllocs then Some(st.liveAllocs[p]) else None
    else
      var c := calls[|calls| - 1];
      var before := LiveRecord(st, calls[..|calls| - 1], p);
      match c.event
      case OnAlloc(size, align, q) => if q == p then Some(Allocation(size, align, p, c.stack)) else before
      case OnAllocZeroed(size, align, q) => if q == p then Some(Allocation(size, align, p, c.stack)) else before
      case OnDealloc(_, _, q) => if q == p then None else before
      case OnRealloc(o, n, _, newSize, align) =>
        if n == p then Some(Allocation(newSize, align, p, c.stack)) else if o == p then None else before
  }

  /** Reference definition of the invalid frees: every free, also the old
      pointer of a reallocation, of a pointer not live just before it, in order. */
  function InvalidFreesOf(st: State, calls: seq<Call>): seq<InvalidFree>
  {
    if calls == [] then st.invalidFrees
    else
      var c := calls[|calls| - 1];
      var init := calls[..|calls| - 1];
      InvalidFreesOf(st, init) +
        match c.event
        case OnDealloc(size, align, q) =>
          if LiveRecord(st, init, q).None? then [InvalidFree(size, align, q, c.stack)] else []
        case OnRealloc(o, _, oldSize, _, align) =>
          if LiveRecord(st, init, o).None? then [InvalidFree(oldSize, align, o, c.stack)] else []
        case _ => []
  }

  /** Live set = allocated minus freed, the last write winning. */
  lemma {:induction false} ReplayLive(st: State, calls: seq<Call>, p: Ptr)
    ensures p in Replay(st, calls).liveAllocs <==> LiveRecord(st, calls, p).Some?
    ensures p in Replay(st, calls).liveAllocs ==> Replay(st, calls).liveAllocs[p] == LiveRecord(st, calls, p).value
  {
    if calls != [] {
      ReplayLive(st, calls[..|calls| - 1], p);
    }
  }

  /** Invalid frees = frees of pointers that were not live. */
  lemma {:induction false} ReplayInvalidFrees(st: State, calls: seq<Call>)
    ensures Replay(st, calls).invalidFrees == InvalidFreesOf(st, calls)
  {
    if calls != [] {
      var init := calls[..|calls| - 1];
      ReplayInvalidFrees(st, init);
      match calls[|calls| - 1].event
      case OnDealloc(_, _, q) => ReplayLive(st, init, q);
      case OnRealloc(o, _, _, _, _) => ReplayLive(st, init, o);
      case _ =>
    }
  }

  /** No handler removes or reorders an invalid free: every earlier state's list
      is a prefix of every later one's. */
  lemma {:induction false} InvalidFreesAppendOnly(st: State, calls: seq<Call>, n: nat)
    requires n <= |calls|
    ensures Replay(st, calls[..n]).invalidFrees <= Replay(st, calls).invalidFrees
  {
    if n < |calls| {
      var init := calls[..|calls| - 1];
      assert calls[..n] == init[..n];
      InvalidFreesAppendOnly(st, init, n);
    } else {
      assert calls[..n] == calls;
    }
  }

  /** Keeping the Map consistent is an invariant of every sequence of handlers. */
  lemma {:induction false} ReplayWellFormed(st: State, calls: seq<Call>)
    requires WellFormed(st)
    ensures WellFormed(Replay(st, calls))
  {
    if calls != [] {
      ReplayWellFormed(st, calls[..|calls| - 1]);
    }
  }

  /** A double free is reported once: allocating `p` and freeing it twice
      leaves it not live and adds exactly the second free to `invalidFrees`. */
  lemma DoubleFreeReportedOnce(st: State, size: Usize, align: Usize, p: Ptr, s1: string, s2: string, s3: string)
    ensures var r := Replay(st, [Call(OnAlloc(size, align, p), s1), Call(OnDealloc(size, align, p), s2), Call(OnDealloc(size, align, p), s3)]);
      p !in r.liveAllocs && r.invalidFrees == st.invalidFrees + [InvalidFree(size, align, p, s3)]
  {
    var calls := [Call(OnAlloc(size, align, p), s1), Call(OnDealloc(size, align, p), s2), Call(OnDealloc(size, align, p), s3)];
    assert calls[..2][..1] == calls[..1];
    assert calls[..1][..0] == [];
    assert Replay(st, calls[..1]) == AllocStep(st, size, align, p, s1);
  }

  /** A reallocation that fails returns null and leaves the old block with its
      owner, yet `onRealloc` deletes the old pointer regardless and records
      null as live; freeing the old block afterwards is then listed as an
      invalid free. */
  lemma FailedReallocThenFree(st: State, size: Usize, align: Usize, p: Ptr, newSize: Usize, s1: string, s2: string, s3: string)
    requires p != Null
    ensures var r := Replay(st, [Call(OnAlloc(size, align, p), s1), Call(OnRealloc(p, Null, size, newSize, align), s2), Call(OnDealloc(size, align, p), s3)]);
      && p !in r.liveAllocs
      && Null in r.liveAllocs && r.liveAllocs[Null] == Allocation(newSize, align, Null, s2)
      && r.invalidFrees == st.invalidFrees + [InvalidFree(size, align, p, s3)]
  {
    var calls := [Call(OnAlloc(size, align, p), s1), Call(OnRealloc(p, Null, size, newSize, align), s2), Call(OnDealloc(size, align, p), s3)];
    assert calls[..2][..1] == calls[..1];
    assert calls[..1][..0] == [];
    assert Replay(st, calls[..1]) == AllocStep(st, size, align, p, s1);
  }

  /** The live records in the Map's iteration order. */
  function Values(m: map<Ptr, Allocation>, order: seq<Ptr>): (r: seq<Allocation>)
    ensures forall a :: a in r ==> a in m.Values
    ensures (forall q :: q in order ==> q in m) ==>
      |r| == |order| && forall i :: 0 <= i < |r| ==> r[i] == m[order[i]]
  {
    if order == [] then []
    else (if order[0] in m then [m[order[0]]] else []) + Values(m, order[1..])
  }

  function LiveEntries(st: State): seq<Allocation>
  {
    Values(st.liveAllocs, st.liveOrder)
  }

  /** `liveAllocs.values()` of a consistent Map walks every live record exactly
      once, in the order the pointers became live. */
  lemma LiveEntriesComplete(st: State)
    requires WellFormed(st)
    ensures |LiveEntries(st)| == |st.liveOrder| == |st.liveAllocs|
    ensures forall i :: 0 <= i < |st.liveOrder| ==> LiveEntries(st)[i] == st.liveAllocs[st.liveOrder[i]]
    ensures forall p :: p in st.liveAllocs ==> st.liveAllocs[p] in LiveEntries(st)
  {
    var r := LiveEntries(st);
    forall p | p in st.liveAllocs
      ensures st.liveAllocs[p] in r
    {
      var i :| 0 <= i < |st.liveOrder| && st.liveOrder[i] == p;
      assert r[i] == st.liveAllocs[p];
    }
    OrderLength(st);
  }

  /** A consistent Map has as many keys in its order as in its lookup table. */
  lemma OrderLength(st: State)
    requires WellFormed(st)
    ensures |st.liveOrder| == |st.liveAllocs|
  {
    DistinctCard<int>(st.liveOrder);
    var keys := set x: int | x in st.liveOrder;
    assert |keys| == |st.liveOrder|;
    assert keys == st.liveAllocs.Keys;
    assert |keys| == |st.liveAllocs.Keys| == |st.liveAllocs|;
  }

  /** An empty Map walks no records. */
  lemma {:induction false} NoLiveEntries(m: map<Ptr, Allocation>, order: seq<Ptr>)
    requires m == map[]
    ensures Values(m, order) == []
  {
    if order != [] {
      NoLiveEntries(m, order[1..]);
    }
  }

  /** The Map holding one record walks just that record. */
  lemma OneLiveEntry(st: State, a: Allocation)
    requires st.liveAllocs == map[a.pointer := a] && st.liveOrder == [a.pointer]
    ensures LiveEntries(st) == [a]
  {
    assert st.liveOrder[1..] == [];
  }

  /** The observer object: the module-level `liveAllocs` and `invalidFrees`
      with the handlers and the dumps of the `WasmTracingAllocator` global. */
  class Observer {
    var liveAllocs: map<Ptr, Allocation>
    /** The insertion order of `liveAllocs`, which a JavaScript Map keeps. */
    var liveOrder: seq<Ptr>
    var invalidFrees: seq<InvalidFree>

    function Snapshot(): State
      reads this
    {
      State(liveAllocs, liveOrder, invalidFrees)
    }

    ghost predicate Valid()
      reads this
    {
      WellFormed(Snapshot())
    }

    constructor ()
      ensures Valid() && Snapshot() == Init()
    {
      liveAllocs := map[];
      liveOrder := [];
      invalidFrees := [];
    }

    method OnAlloc(size: Usize, align: Usize, pointer: Ptr, stack: string)
      requires Valid()
      modifies this
      ensures Valid()
      ensures Snapshot() == AllocStep(old(Snapshot()), size, align, pointer, stack)
      ensures liveAllocs == old(liveAllocs)[pointer := Allocation(size, align, pointer, stack)]
      ensures invalidFrees == old(invalidFrees)
    {
      // Map.prototype.set keeps a key that is already present where it was
      if pointer !in liveAllocs {
        liveOrder := liveOrder + [pointer];
      }
      liveAllocs := liveAllocs[pointer := Allocation(size, align, pointer, stack)];
    }

    method OnDealloc(size: Usize, align: Usize, pointer: Ptr, stack: string)
      requires Valid()
      modifies this
      ensures Valid()
      ensures Snapshot() == DeallocStep(old(Snapshot()), size, align, pointer, stack)
      ensures liveAllocs == old(liveAllocs) - {pointer}
      ensures invalidFrees == old(invalidFrees) + (if pointer in old(liveAllocs) then [] else [InvalidFree(size, align, pointer, stack)])
    {
      var wasLive := pointer in liveAllocs;
      if wasLive {
        liveAllocs := liveAllocs - {pointer};
        liveOrder := Remove(liveOrder, pointer);
      }
      if !wasLive {
        invalidFrees := invalidFrees + [InvalidFree(size, align, pointer, stack)];
      }
    }

    method OnAllocZeroed(size: Usize, align: Usize, pointer: Ptr, stack: string)
      requires Valid()
      modifies this
      ensures Valid()
      ensures Snapshot() == AllocStep(old(Snapshot()), size, align, pointer, stack)
    {
      OnAlloc(size, align, pointer, stack);
    }

    method OnRealloc(oldPointer: Ptr, newPointer: Ptr, oldSize: Usize, newSize: Usize, align: Usize, stack: string)
      requires Valid()
      modifies this
      ensures Valid()
      ensures Snapshot() == ReallocStep(old(Snapshot()), oldPointer, newPointer, oldSize, newSize, align, stack)
      ensures newPointer in liveAllocs && liveAllocs[newPointer] == Allocation(newSize, align, newPointer, stack)
      ensures oldPointer != newPointer ==> oldPointer !in liveAllocs
    {
      OnDealloc(oldSize, align, oldPointer, stack);
      OnAlloc(newSize, align, newPointer, stack);
    }

    /** The `on_*` entry of the `WasmTracingAllocator` global that an event reaches. */
    method Notify(event: Event, stack: string)
      requires Valid()
      modifies this
      ensures Valid()
      ensures Snapshot() == Dispatch(old(Snapshot()), Call(event, stack))
    {
      match event
      case OnAlloc(size, align, pointer) => OnAlloc(size, align, pointer, stack);
      case OnDealloc(size, align, pointer) => OnDealloc(size, align, pointer, stack);
      case OnAllocZeroed(size, align, pointer) => OnAllocZeroed(size, align, pointer, stack);
      case OnRealloc(oldPointer, newPointer, oldSize, newSize, align) =>
        OnRealloc(oldPointer, newPointer, oldSize, newSize, align, stack);
    }

    /** `dumpLiveAllocations`: the table over the live records, in the Map's order. */
    method DumpLiveAllocations<K(==)>(getKey: Allocation -> K, getValue: Allocation -> int) returns (table: seq<Row<K>>)
      ensures table == Table(LiveEntries(Snapshot()), getKey, getValue)
      ensures table[0] == TotalRow(Sum(LiveEntries(Snapshot()), getValue))
    {
      table := DumpTable(Values(liveAllocs, liveOrder), getKey, getValue);
    }

    /** `dumpInvalidFrees`: the table over the invalid frees, in the order they happened. */
    method DumpInvalidFrees<K(==)>(getKey: InvalidFree -> K, getValue: InvalidFree -> int) returns (table: seq<Row<K>>)
      ensures table == Table(invalidFrees, getKey, getValue)
      ensures table[0] == TotalRow(Sum(invalidFrees, getValue))
    {
      table := DumpTable(invalidFrees, getKey, getValue);
    }
  }

  /** The default key of both dumps: the stack captured with the record. */
  function AllocationStack(a: Allocation): string { a.stack }

  function InvalidFreeStack(f: InvalidFree): string { f.stack }

  /** The default value of both dumps: each record counts 1. */
  function CountOne<E>(entry: E): int { 1 }
}
