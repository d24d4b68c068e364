/** The four notifications the Wasm module sends to its JavaScript host
    after each allocator call (declared in src/hooks.rs), as values. */
module Hooks {

  /** `usize` on wasm32. */
  type Usize = x: int | 0 <= x < 0x1_0000_0000

  /** A `*mut u8` as the JavaScript side receives it: a wasm32 address, 0 for null. */
  type Ptr = Usize

  const Null: Ptr := 0

  /** One hook invocation with its arguments, in the order the hooks declare them. */
  datatype Event =
    | OnAlloc(size: Usize, align: Usize, pointer: Ptr)
    | OnDealloc(size: Usize, align: Usize, pointer: Ptr)
    | OnAllocZeroed(size: Usize, align: Usize, pointer: Ptr)
    | OnRealloc(oldPointer: Ptr, newPointer: Ptr, oldSize: Usize, newSize: Usize, align: Usize)
}
