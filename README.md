# wasm-tracing-allocator, modelled in Dafny

`wasm-tracing-allocator` is a Rust global allocator for WebAssembly modules. It
wraps another allocator, and after every call it tells the JavaScript host
what happened. The host side keeps two lists: the allocations that are still
live, and the frees of pointers that were not live ("invalid frees"). It can
print either list as a table grouped by a key, largest group first.

The model has five modules:

- `Hooks` (hooks.dfy): the four notifications `on_alloc`, `on_dealloc`,
  `on_alloc_zeroed` and `on_realloc` as an `Event` datatype. `usize` and
  pointers are wasm32 addresses (`0 <= x < 2^32`), and 0 is null.
- `Tracing` (tracing.dfy): `WasmTracingAllocator`, a class that wraps an
  arbitrary allocator. The wrapped allocator is a `GlobalAlloc` value: its
  four operations as functions of its own state. A `log` of effects records
  every call into the wrapped allocator and every hook invocation, in order.
  The pure functions `Traced`, `TracedRun` and `InnerRun` describe one call
  and a sequence of calls.
- `Observer` (observer.dfy): the JavaScript side.
  - The state is the `liveAllocs` Map and the `invalidFrees` array. The Map is
    a lookup table plus its key insertion order, because a JavaScript Map
    iterates in insertion order.
  - `AllocStep`, `DeallocStep`, `ReallocStep`, `Dispatch` and `Replay` are the
    handlers as state transitions.
  - The class `Observer` updates its fields in place, and each method is
    proved equal to its transition.
  - `LiveRecord` and `InvalidFreesOf` are reference definitions read off the
    calls alone. `Replay` is proved to agree with them.
- `Aggregation` (aggregation.dfy): `dumpTable`. The method `DumpTable` has the
  same loop as the source. It is proved equal to the function `Table`: a
  `<total>` row, then one row per distinct key, sorted by value, largest
  first.
- `Scenarios` (scenarios.dfy): short client runs through the decorator, with
  every event handed to the observer. They state the resulting events and
  tables.

A consequence of the handlers as written: when `realloc` fails and returns
null, the old block still belongs to the caller under Rust's `GlobalAlloc`
contract. `onRealloc` (js/hooks.js:53-54) nevertheless deletes the old pointer
and records null as live. A later, legitimate `dealloc` of the old block is
therefore listed as an invalid free. The model keeps this behaviour, and
`Observer.FailedReallocThenFree` proves it.

## Model

| member | source | states |
|---|---|---|
| Tracing.Serve | src/lib.rs:168-197 | the wrapped allocator answers `dealloc` with nothing and every other call with a pointer |
| Tracing.WasmTracingAllocator.Alloc | src/lib.rs:168-174 | returns the wrapped allocator's pointer and leaves it in the wrapped allocator's new state; the log gains the inner `alloc` call, then `on_alloc(size, align, pointer)` |
| Tracing.WasmTracingAllocator.Dealloc | src/lib.rs:176-181 | the wrapped allocator frees the pointer; the log gains the inner `dealloc` call, then `on_dealloc(size, align, pointer)` carrying the caller's pointer |
| Tracing.WasmTracingAllocator.AllocZeroed | src/lib.rs:183-189 | returns the wrapped allocator's zeroed pointer; the log gains the inner call, then `on_alloc_zeroed(size, align, pointer)` |
| Tracing.WasmTracingAllocator.Realloc | src/lib.rs:191-197 | returns the wrapped allocator's new pointer; the log gains the inner call, then `on_realloc(old, new, old size, new size, align)` |
| Tracing.EventOf | src/lib.rs:168-197 | the hook arguments each operation passes (size and align of the layout; the caller's pointer for `dealloc`, the returned one otherwise; `on_realloc(old, new, old size, new size, align)`) carry the whole call and its outcome: `CallOf` reads both back |
| Tracing.CallOfReported | src/lib.rs:168-197 | conversely, every event is the report of the call and outcome `CallOf` reads from it |
| Tracing.Transparent | src/lib.rs:164-198 | over any sequence of calls, the decorator returns exactly what the wrapped allocator alone returns and leaves it in the same state |
| Tracing.InnerCallThenHook | src/lib.rs:168-197 | each call produces exactly two effects: first the wrapped allocator's call, then one hook that reports that call's outcome |
| Tracing.OneEventPerCall | src/lib.rs:168-197 | the hook stream has exactly one event per call, in call order, and each event describes its call |
| Observer.Init | js/hooks.js:20-21 | the Map and the invalid-free list start empty and consistent |
| Observer.Remove | js/hooks.js:36 | deleting a key drops that key from the insertion order and keeps every other key in it, in the same relative order (`Subsequence`) |
| Observer.AllocStep | js/hooks.js:31-33 | the pointer maps to a new record with its size, align and stack; other pointers keep their records; invalid frees are unchanged; the Map stays consistent; a new pointer goes last in the key order and a pointer already present keeps its place |
| Observer.DeallocStep | js/hooks.js:35-40 | the pointer is no longer live, and other pointers are untouched; the free is appended to the invalid frees exactly when the pointer was not live |
| Observer.ReallocStep | js/hooks.js:46-55 | the new pointer is live with the new size; the old one is gone unless it equals the new one; the old pointer is an invalid free exactly when it was not live |
| Observer.ReplayLive | js/hooks.js:31-55 | after any sequence of hook calls, a pointer is live exactly when the reference definition says so, and its record is the reference record (the last call naming it decides) |
| Observer.ReplayInvalidFrees | js/hooks.js:35-40 | after any sequence of hook calls, the invalid frees are exactly the frees (including the old pointer of a realloc) of pointers not live at that moment, in order |
| Observer.InvalidFreesAppendOnly | js/hooks.js:21 | no handler removes or reorders an invalid free: every earlier list is a prefix of every later one |
| Observer.ReplayWellFormed | js/hooks.js:20 | every sequence of handlers keeps the Map's lookup table and key order consistent |
| Observer.DoubleFreeReportedOnce | js/hooks.js:35-40 | allocating `p` and freeing it twice leaves `p` not live and records exactly the second free as invalid |
| Observer.FailedReallocThenFree | js/hooks.js:46-55 | a realloc that returns null still drops the old pointer and marks null live, so freeing the old block afterwards is reported as an invalid free |
| Observer.Values | js/hooks.js:92 | `liveAllocs.values()` yields only stored records; when every key of the order is stored, the i-th record is the one under the i-th key |
| Observer.LiveEntriesComplete | js/hooks.js:92 | a consistent Map walks every live record exactly once, in the Map's key order (`liveOrder`), which `AllocStep` extends at the end for a new pointer and `Remove` keeps in relative order |
| Observer.Dispatch | js/hooks.js:85-90 | routing an event to its handler never removes an invalid free, adds at most one, and adds one only for `on_dealloc` or `on_realloc` |
| Observer.AllocZeroedIsAlloc | js/hooks.js:42-44 | `on_alloc_zeroed` has exactly the effect of `on_alloc` |
| Observer.Observer.OnAlloc | js/hooks.js:31-33 | the new state is `AllocStep` of the old one; the pointer's record is replaced and invalid frees are unchanged |
| Observer.Observer.OnDealloc | js/hooks.js:35-40 | the new state is `DeallocStep` of the old one; the pointer is deleted, and the free is appended to the invalid frees exactly when it was not live |
| Observer.Observer.OnAllocZeroed | js/hooks.js:42-44 | behaves exactly as `onAlloc` |
| Observer.Observer.OnRealloc | js/hooks.js:46-55 | the new state is `ReallocStep` of the old one: the old pointer is freed, then the new pointer is allocated |
| Observer.Observer.Notify | js/hooks.js:85-90 | each `on_*` entry of the global reaches the handler `Dispatch` names |
| Observer.Observer.DumpLiveAllocations | js/hooks.js:91-98 | the table over the live records in Map order, opening with their total; with `LiveEntriesComplete`, each live record is counted exactly once |
| Observer.Observer.DumpInvalidFrees | js/hooks.js:100-107 | the table over the invalid frees in the order they happened, opening with their total |
| Aggregation.KeySum | js/hooks.js:63-66 | a key that no entry has sums to 0 |
| Aggregation.Keys | js/hooks.js:58-67 | the grouping Map's keys are distinct and are exactly the keys of the entries, in first-occurrence order |
| Aggregation.GroupsFor | js/hooks.js:69 | one pair per key, carrying that key's sum |
| Aggregation.InsertDesc | js/hooks.js:70 | inserting a group into the sorted list adds exactly one element |
| Aggregation.SortDesc | js/hooks.js:70 | the sort keeps the number of groups |
| Aggregation.SortDescStable | js/hooks.js:70 | the sort is stable: for every value, the groups carrying it appear in the same relative order before and after |
| Aggregation.SortDescSpec | js/hooks.js:69-70 | the sort is a permutation of the groups, orders them largest value first, and keeps their sum |
| Aggregation.SortDescDistinct | js/hooks.js:69-70 | sorting keeps the keys distinct |
| Aggregation.KeySumsAddUp | js/hooks.js:59-67 | the per-key sums add up to `total` |
| Aggregation.GroupsAddUpToTotal | js/hooks.js:69-73 | the group rows add up to the `<total>` row |
| Aggregation.OneGroupPerKey | js/hooks.js:61-71 | one group per distinct key, each carrying the sum of that key's entries, listed largest first |
| Aggregation.AccumulatedSnoc | js/hooks.js:61-67 | one iteration of the loop keeps `total` equal to the sum so far, `byKey` holding each key's sum so far, and its keys in first-occurrence order |
| Aggregation.TableSize | js/hooks.js:69-73 | the table has one row for `<total>` plus one row per distinct key |
| Aggregation.Table | js/hooks.js:69-73 | the table opens with the `<total>` row carrying the sum of all values, and every later row is a group row |
| Aggregation.DumpTable | js/hooks.js:57-76 | the loop and the sort produce `Table`: the `<total>` row with the sum of all values, then one row per distinct key |
| Aggregation.TableOfOne | js/hooks.js:57-76 | one entry gives the `<total>` row and one group, both carrying its value |
| Scenarios.AllocFreeStates | js/hooks.js:31-40 | from an empty start, `onAlloc(16, 8, p)` leaves exactly `p` live with its record, and `onDealloc(16, 8, p)` then leaves nothing live and no invalid frees |
| Scenarios.AllocThenFree | src/lib.rs:168-181 | `alloc(16, 8)` then `dealloc`: the decorator's whole hook stream is the two events, each handed to the observer; the pointer is live with 16 bytes in between (one allocation under its stack with the default key and value), and nothing is live afterwards |
| Scenarios.FreeNeverAllocated | js/hooks.js:35-40 | freeing a pointer that was never allocated makes the decorator's hook stream exactly one dealloc event, and handing it to the observer gives one invalid-free row for that pointer, and one under its stack with the default key and value |
| Scenarios.AllocReallocState | js/hooks.js:31-55 | after `onAlloc(32, 8, p)` and `onRealloc(p, q, 32, 64, 8)` from an empty start, only `q` is live, with 64 bytes, and there are no invalid frees, whether or not `q` is `p` |
| Scenarios.TracedAllocFree | src/lib.rs:168-181 | the decorator serving `alloc(16, 8)` then `dealloc` of the result records exactly the hook stream on_alloc then on_dealloc for that pointer |
| Scenarios.TracedAllocRealloc | src/lib.rs:168-197 | the decorator serving `alloc(32, 8)` then `realloc` to 64 records exactly on_alloc then on_realloc with the old and new pointers |
| Tracing.HookEventsOfCall | src/lib.rs:168-197 | one call through the decorator extends its hook stream by exactly that call's event |
| Scenarios.AllocThenRealloc | js/hooks.js:46-55 | `p` and `q` are the wrapped allocator's `alloc` and `realloc` results, and the decorator's hook stream is on_alloc then on_realloc; handed to the observer, after `alloc(32)` and `realloc(…, 64)` only the new pointer is live, with 64 bytes, whether or not it moved; there are no invalid frees |
| Scenarios.DoubleFree | js/hooks.js:35-40 | `p` is the wrapped allocator's `alloc` result, and freeing it twice through the decorator records exactly the second free as invalid |

## Left out

- The stack trace: `getStack` (js/hooks.js:23-29) inspects the runtime's `Error().stack`. It is a parameter of each handler here.
- `console.table` output, `getGlobal` and installing the global object: the model returns the rows `dumpTable` builds instead of printing them.
- `keyLabel`, `valueLabel` and the `Object.assign` merge of options: the key and value functions are parameters. The model provides the defaults (`AllocationStack`, `InvalidFreeStack`, `CountOne`), which the scenarios pass explicitly; no dump picks them itself.
- The default value of `dumpLiveAllocations` follows the code, which counts each allocation as 1 (js/hooks.js:96). The crate documentation says it defaults to the byte size (src/lib.rs:93-96).
- Numbers are integers: JavaScript float addition and rounding, and `NaN` from a non-numeric `getValue`, are not modelled.
- The JavaScript `sort` is modelled as a stable descending insertion sort; its stability is proved (`SortDescStable`), not its running time.
- The `<total>` row is its own constructor. In the source it is a row keyed by the string `"<total>"`, which a user key of that string would look the same as.
- Map key identity: keys compare by Dafny equality. JavaScript compares objects returned by a custom `getKey` by identity.
- The wrapped allocator's internals and the `unsafe` contract of `GlobalAlloc`: any function of its own state may stand for it. Layout validity (a power-of-two alignment) is not checked.
- Concurrency: each call, with its hook, runs to completion before the next call. Thread safety is inherited from the wrapped allocator; the model assumes calls do not interleave.
- The `extern` hook declarations in src/hooks.rs are represented only by the `Event` shapes. Crossing into JavaScript is modelled as handing the event to `Observer.Notify`.
