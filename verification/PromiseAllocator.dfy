/**
 The layout of a coroutine frame with its deallocation function and its allocator stored behind it:
 how many blocks are asked for, where the two are put, and how `operator delete` finds them again.
 Sizes and addresses are 64-bit words, and every sum of the source wraps around.
 */
module PromiseAllocator {
  import opened Modular
  import opened Words
  import opened Wrappers

  // sizeof(Aligned_block), the default alignment of `new`.
  const BLOCK: nat := 16
  const FUNCTION: nat := 8

  // Size and alignment of a stored allocator: sizeof is always a multiple of alignof.
  datatype Stored = Stored(size: nat, alignment: nat) {
    ghost predicate Valid() {
      PowerOfTwo(alignment) && 0 < size && size % alignment == 0
    }
  }

  // The variants: the type-erased ones store a deallocation function, and all of them the allocator
  // unless it is stateless.
  datatype Layout = Layout(erased: bool, allocator: Option<Stored>) {
    ghost predicate Valid() { allocator.Some? ==> allocator.value.Valid() }

    function FunctionSize(): nat { if erased then FUNCTION else 0 }
  }

  // (address + alignment - 1) & ~(alignment - 1)
  function AlignUp(address: nat, alignment: nat): nat
    requires alignment > 0
  {
    var x := Word(address + alignment - 1);
    x - Mask(x, alignment)
  }

  function Larger(a: nat, b: nat): nat { if a < b then b else a }

  // The blocks that the allocating path asks for.
  function BlockCount(layout: Layout, size: nat): nat {
    match layout.allocator
    case None => Word(size + layout.FunctionSize() + BLOCK - 1) / BLOCK
    case Some(a) => Word(size + layout.FunctionSize() + a.size + Larger(a.alignment, BLOCK) - 1) / BLOCK
  }

  function AllocatorAddress(layout: Layout, size: nat, ptr: nat): nat
    requires layout.allocator.Some? && layout.allocator.value.alignment > 0
  {
    AlignUp(ptr + Word(size + layout.FunctionSize()), layout.allocator.value.alignment)
  }

  // The size in bytes that the frame and what is stored with it need from ptr on.
  function End(layout: Layout, size: nat, ptr: nat): int
    requires layout.allocator.Some? ==> layout.allocator.value.alignment > 0
  {
    match layout.allocator
    case None => size + layout.FunctionSize()
    case Some(a) => AllocatorAddress(layout, size, ptr) + a.size - ptr
  }

  // The largest sum computed for the count; it must not wrap around.
  function Extent(layout: Layout, size: nat): nat {
    match layout.allocator
    case None => size + layout.FunctionSize() + BLOCK - 1
    case Some(a) => size + layout.FunctionSize() + a.size + Larger(a.alignment, BLOCK) - 1
  }

  // What the allocator answers a request with: aligned blocks inside the address space.
  predicate Blocks(ptr: nat, count: nat) {
    ptr > 0 && ptr % BLOCK == 0 && ptr + count * BLOCK <= WORD
  }

  // ------------------------------------------------------------------ alignment arithmetic

  lemma {:induction false} RoundedDownIsMultiple(x: nat, d: nat)
    requires d > 0
    ensures (x - x % d) % d == 0 && 0 <= x % d < d
  {
    var q := x / d;
    assert x - x % d == q * d;
    ModUnique(q * d, q, 0, d);
  }

  // Rounding up stays below the next multiple, and is exact on what is a multiple already.
  lemma {:induction false} AlignUpBounds(address: nat, alignment: nat)
    requires alignment > 0 && address + alignment - 1 < WORD
    ensures address <= AlignUp(address, alignment) <= address + alignment - 1
    ensures AlignUp(address, alignment) % alignment == 0
  {
    WordIsItself(address + alignment - 1);
    RoundedDownIsMultiple(address + alignment - 1, alignment);
  }

  // Of two powers of two, the smaller divides the larger.
  lemma {:induction false} PowerMultiple(x: int, small: nat, large: nat)
    requires PowerOfTwo(small) && PowerOfTwo(large) && small <= large && x % large == 0
    ensures x % small == 0
  {
    var q := PowerDivides(small, large);
    var k := x / large;
    assert x == k * large;
    MultipleOfMultiple(k, q, small, large);
    ModUnique(x, k * q, 0, small);
  }

  // A multiple of d below x + d is at most x rounded down.
  lemma {:induction false} RoundedDown(n: int, x: nat, d: nat)
    requires d > 0 && n <= x && n % d == 0
    ensures n <= (x / d) * d
  {
    var k, q := n / d, x / d;
    assert n == k * d && x == q * d + x % d;
    if k > q {
      TimesMonotone(d, q + 1, k);
    }
  }

  lemma {:induction false} MultipleSum(x: int, y: int, d: nat)
    requires d > 0 && x % d == 0 && y % d == 0
    ensures (x + y) % d == 0 && (x - y) % d == 0
  {
    var k, l := x / d, y / d;
    assert x == k * d && y == l * d;
    assert (k + l) * d == k * d + l * d && (k - l) * d == k * d - l * d;
    ModUnique(x + y, k + l, 0, d);
    ModUnique(x - y, k - l, 0, d);
  }

  lemma {:induction false} MultipleBelow(x: int, d: nat)
    requires d > 0 && x % d == 0 && x < d
    ensures x <= 0
  {
    assert x == (x / d) * d;
    TimesMonotone(d, 1, x / d);
  }

  lemma BlockIsPower(n: nat)
    requires n == BLOCK
    ensures PowerOfTwo(n)
  {
    assert PowerOfTwo(n / 8);
    assert PowerOfTwo(n / 2);
  }

  // An alignment up to the block size: rounding the end up to a block leaves room for the padding.
  lemma {:induction false} FitsSmall(size: nat, a: Stored, up: nat, ptr: nat, block: nat)
    requires a.Valid() && PowerOfTwo(block) && a.alignment <= block && ptr % block == 0
    requires ptr + size <= up <= ptr + size + a.alignment - 1 && up % a.alignment == 0
    ensures up + a.size - ptr <= (size + a.size + block - 1) / block * block
  {
    var d, k := a.alignment, (size + a.size + block - 1) / block;
    var bound := k * block;
    assert size + a.size + block - 1 == bound + (size + a.size + block - 1) % block;
    ModUnique(bound, k, 0, block);
    PowerMultiple(ptr, d, block);
    PowerMultiple(bound, d, block);
    MultipleSum(up, a.size, d);
    MultipleSum(up + a.size, ptr, d);
    MultipleSum(up + a.size - ptr, bound, d);
    MultipleBelow(up + a.size - ptr - bound, d);
  }

  // An alignment above it: frame, padding and allocator end at a block.
  lemma {:induction false} FitsLarge(size: nat, a: Stored, up: nat, ptr: nat, block: nat)
    requires a.Valid() && PowerOfTwo(block) && a.alignment > block && ptr % block == 0
    requires ptr + size <= up <= ptr + size + a.alignment - 1 && up % a.alignment == 0
    ensures up + a.size - ptr <= (size + a.size + a.alignment - 1) / block * block
  {
    PowerMultiple(up, block, a.alignment);
    PowerMultiple(a.size, block, a.alignment);
    MultipleSum(up, a.size, block);
    MultipleSum(up + a.size, ptr, block);
    RoundedDown(up + a.size - ptr, size + a.size + a.alignment - 1, block);
  }

  // ------------------------------------------------------------------ the layout

  // The frame, the function and the allocator lie one behind the other in the blocks asked for,
  // the allocator aligned, exactly when the sum for the count does not wrap around.
  lemma {:induction false} LayoutFits(layout: Layout, size: nat, ptr: nat)
    requires layout.Valid() && Extent(layout, size) < WORD
    requires Blocks(ptr, BlockCount(layout, size))
    ensures End(layout, size, ptr) <= BlockCount(layout, size) * BLOCK
    ensures layout.allocator.Some? ==>
              var a := layout.allocator.value;
              var at := AllocatorAddress(layout, size, ptr);
              && ptr + size + layout.FunctionSize() <= at && at % a.alignment == 0
              && at + a.size <= ptr + BlockCount(layout, size) * BLOCK
  {
    var total := size + layout.FunctionSize();
    WordIsItself(Extent(layout, size));
    WordIsItself(total);
    if layout.allocator.Some? {
      StoredLayoutFits(total, layout.allocator.value, ptr);
    }
  }

  lemma WordIsItself(x: nat)
    ensures x < WORD ==> Word(x) == x
  {
  }

  lemma {:induction false} StoredLayoutFits(total: nat, a: Stored, ptr: nat)
    requires a.Valid() && ptr % BLOCK == 0
    requires ptr + (total + a.size + Larger(a.alignment, BLOCK) - 1) / BLOCK * BLOCK <= WORD
    ensures var up := AlignUp(ptr + total, a.alignment);
            && ptr + total <= up && up % a.alignment == 0
            && up + a.size <= ptr + (total + a.size + Larger(a.alignment, BLOCK) - 1) / BLOCK * BLOCK
  {
    RoomForPadding(total, a, ptr);
    AlignUpBounds(ptr + total, a.alignment);
    StoredFits(total, a, AlignUp(ptr + total, a.alignment), ptr);
  }

  lemma {:induction false} StoredFits(size: nat, a: Stored, up: nat, ptr: nat)
    requires a.Valid() && ptr % BLOCK == 0
    requires ptr + size <= up <= ptr + size + a.alignment - 1 && up % a.alignment == 0
    ensures up + a.size - ptr <= (size + a.size + Larger(a.alignment, BLOCK) - 1) / BLOCK * BLOCK
  {
    BlockIsPower(BLOCK);
    if a.alignment <= BLOCK {
      FitsSmall(size, a, up, ptr, BLOCK);
    } else {
      FitsLarge(size, a, up, ptr, BLOCK);
    }
  }

  // The sum for the address does not wrap either, as the blocks lie in the address space.
  lemma {:induction false} RoomForPadding(total: nat, a: Stored, ptr: nat)
    requires a.Valid() && ptr % BLOCK == 0
    requires ptr + (total + a.size + Larger(a.alignment, BLOCK) - 1) / BLOCK * BLOCK <= WORD
    ensures ptr + total + a.alignment - 1 < WORD
  {
    if a.size < a.alignment {
      MultipleBelow(a.size, a.alignment);
    }
  }

  // When it does wrap around, too few blocks are asked for even for the frame. (An allocator with
  // its padding is smaller than the address space.)
  lemma {:induction false} WrappedLayoutDoesNotFit(layout: Layout, size: nat)
    requires layout.Valid() && Extent(layout, size) >= WORD
    requires layout.allocator.Some? ==>
               layout.allocator.value.size + Larger(layout.allocator.value.alignment, BLOCK) <= WORD
    ensures size + layout.FunctionSize() > BlockCount(layout, size) * BLOCK
  {
    WrappedCount(Extent(layout, size));
  }

  lemma WrappedCount(extent: nat)
    requires WORD <= extent
    ensures Word(extent) / BLOCK * BLOCK <= extent - WORD
  {
  }

  // The blocks that the freeing path gives back. It adds up the same sizes in steps.
  function FreedCount(layout: Layout, size: nat): nat {
    match layout.allocator
    case None => Word(size + layout.FunctionSize() + BLOCK - 1) / BLOCK
    case Some(a) => Word(Word(size + layout.FunctionSize()) + a.size + Larger(a.alignment, BLOCK) - 1) / BLOCK
  }

  lemma {:induction false} CountsAgree(layout: Layout, size: nat)
    ensures FreedCount(layout, size) == BlockCount(layout, size)
  {
    if layout.allocator.Some? {
      var a := layout.allocator.value;
      WordOfSum(size + layout.FunctionSize(), a.size + Larger(a.alignment, BLOCK) - 1);
    }
  }

  // ------------------------------------------------------------------ allocate and free

  // A byte of a stored object.
  datatype Byte = Byte(item: nat, index: nat)

  ghost predicate Holds(bytes: map<nat, Byte>, start: nat, item: nat, n: nat) {
    forall k :: start <= k < start + n ==> k in bytes && bytes[k] == Byte(item, k - start)
  }

  // Two memories that agree outside [from, to).
  ghost predicate SameOutside(a: map<nat, Byte>, b: map<nat, Byte>, from: nat, to: nat) {
    forall k: nat :: k < from || k >= to ==> (k in a <==> k in b) && (k in a ==> a[k] == b[k])
  }

  class Memory {
    var bytes: map<nat, Byte>

    method Store(start: nat, item: nat, n: nat)
      modifies this
      ensures Holds(bytes, start, item, n)
      ensures SameOutside(old(bytes), bytes, start, start + n)
    {
      for i := 0 to n
        invariant Holds(bytes, start, item, i)
        invariant SameOutside(old(bytes), bytes, start, start + i)
      {
        bytes := bytes[start + i := Byte(item, i)];
      }
    }

    method Load(start: nat, n: nat, ghost item: nat) returns (loaded: nat)
      requires n > 0 && Holds(bytes, start, item, n)
      ensures loaded == item
    {
      loaded := bytes[start].item;
    }
  }

  // What the freeing path relies on.
  ghost predicate Kept(bytes: map<nat, Byte>, layout: Layout, size: nat, ptr: nat, function_: nat, allocator: nat)
    requires layout.Valid()
  {
    && Holds(bytes, ptr + size, function_, layout.FunctionSize())
    && (layout.allocator.Some? ==>
          Holds(bytes, AllocatorAddress(layout, size, ptr), allocator, layout.allocator.value.size))
  }

  // `answer` is what the allocator returned for the count; nothing if it failed.
  method Allocate(memory: Memory, layout: Layout, size: nat, answer: Option<nat>, function_: nat, allocator: nat)
    returns (result: Option<nat>)
    requires layout.Valid() && Extent(layout, size) < WORD
    requires answer.Some? ==> Blocks(answer.value, BlockCount(layout, size))
    modifies memory
    ensures result == answer
    ensures answer.None? ==> memory.bytes == old(memory.bytes)
    ensures answer.Some? ==> Kept(memory.bytes, layout, size, answer.value, function_, allocator)
    ensures answer.Some? ==>
              SameOutside(old(memory.bytes), memory.bytes, answer.value + size,
                          answer.value + BlockCount(layout, size) * BLOCK)
  {
    result := answer;
    if answer.Some? {
      var ptr := answer.value;
      LayoutFits(layout, size, ptr);
      if layout.erased {
        memory.Store(ptr + size, function_, FUNCTION);
      }
      if layout.allocator.Some? {
        memory.Store(AllocatorAddress(layout, size, ptr), allocator, layout.allocator.value.size);
      }
    }
  }

  // The frame may be written in between.
  lemma {:induction false} FrameKeepsStored(before: map<nat, Byte>, after: map<nat, Byte>, layout: Layout, size: nat,
                                            ptr: nat, function_: nat, allocator: nat)
    requires layout.Valid() && Extent(layout, size) < WORD && Blocks(ptr, BlockCount(layout, size))
    requires Kept(before, layout, size, ptr, function_, allocator)
    requires SameOutside(before, after, ptr, ptr + size)
    ensures Kept(after, layout, size, ptr, function_, allocator)
  {
    LayoutFits(layout, size, ptr);
  }

  // operator delete: it finds the function and the allocator, and gives back as many blocks.
  method Free(memory: Memory, layout: Layout, size: nat, ptr: nat, ghost function_: nat, ghost allocator: nat)
    returns (called: nat, used: nat, count: nat)
    requires layout.Valid() && Kept(memory.bytes, layout, size, ptr, function_, allocator)
    ensures layout.erased ==> called == function_
    ensures layout.allocator.Some? ==> used == allocator
    ensures count == BlockCount(layout, size)
  {
    called, used := 0, 0;
    if layout.erased {
      called := memory.Load(ptr + size, FUNCTION, function_);
    }
    if layout.allocator.Some? {
      used := memory.Load(AllocatorAddress(layout, size, ptr), layout.allocator.value.size, allocator);
    }
    CountsAgree(layout, size);
    count := FreedCount(layout, size);
  }
}
