/**
 How an explicit (token-owning) producer of the queue represents a sequence: a circular linked
 list of 32-element blocks, the elements and emptiness flags in the blocks, and a circular index
 of the blocks' bases, which wraps around like the element indices do.

 Blocks are identities into the maps `next`, `cells` and `flags`. A cell that holds no
 constructed element is None.
 */
module BlockRing {
  import opened Wrappers
  import opened Words
  import opened Modular

  type BlockId = nat

  // More blocks than this do not fit in a 64-bit address space.
  const MAX_BLOCKS: nat := 0x400_0000_0000_0000

  datatype Entry = Entry(base: nat, block: BlockId)

  // ---------------------------------------------------------------------------------------
  // The representation, piece by piece
  // ---------------------------------------------------------------------------------------

  // The block list in the order it is walked from the block after the tail.
  ghost predicate Circular(ring: seq<BlockId>, next: map<BlockId, BlockId>, tail: Option<BlockId>) {
    && Distinct(ring)
    && (forall k :: 0 <= k < |ring| ==> LinkedAt(ring, next, k))
    && tail == (if ring == [] then None else Some(ring[|ring| - 1]))
  }

  ghost predicate Distinct(ring: seq<BlockId>) {
    forall j, k :: 0 <= j < k < |ring| ==> DifferAt(ring, j, k)
  }

  ghost predicate DifferAt(ring: seq<BlockId>, j: nat, k: nat)
    requires j < |ring| && k < |ring|
  {
    ring[j] != ring[k]
  }

  lemma {:induction false} Others(ring: seq<BlockId>, j: nat, k: nat)
    requires Distinct(ring) && j < |ring| && k < |ring| && j != k
    ensures ring[j] != ring[k]
  {
    assert if j < k then DifferAt(ring, j, k) else DifferAt(ring, k, j);
  }

  ghost predicate LinkedAt(ring: seq<BlockId>, next: map<BlockId, BlockId>, k: nat)
    requires k < |ring|
  {
    ring[k] in next && next[ring[k]] == if k + 1 < |ring| then ring[k + 1] else ring[0]
  }

  lemma {:induction false} NextInRing(ring: seq<BlockId>, next: map<BlockId, BlockId>, tail: Option<BlockId>, k: nat)
    requires Circular(ring, next, tail) && k < |ring|
    ensures tail == Some(ring[k]) <==> k == |ring| - 1
    ensures ring[k] in next
    ensures k < |ring| - 1 ==> next[ring[k]] == ring[k + 1]
  {
    assert LinkedAt(ring, next, k);
    if k < |ring| - 1 {
      Others(ring, k, |ring| - 1);
    }
  }

  // When the last of n blocks starts at tailBase, the k-th one starts at
  // tailBase - 32 * (n - 1 - k).
  lemma BaseIsAligned(tailBase: int, n: nat, k: int)
    requires tailBase % 32 == 0
    ensures (tailBase - 32 * (n - 1 - k)) % 32 == 0
  {
  }

  function Slot(front: int, n: nat, k: int, size: nat): nat
    requires size > 0
  {
    (front - n + k) % size
  }

  // The last |ring| entries before `front` are the blocks of the ring with their bases.
  ghost predicate Indexed(entries: seq<Entry>, front: nat, ring: seq<BlockId>, tailBase: int) {
    && |ring| <= |entries|
    && front < |entries|
    && forall k :: 0 <= k < |ring| ==> IndexedAt(entries, front, ring, tailBase, k)
  }

  ghost predicate IndexedAt(entries: seq<Entry>, front: nat, ring: seq<BlockId>, tailBase: int, k: nat)
    requires k < |ring| && |entries| > 0
  {
    entries[Slot(front, |ring|, k, |entries|)] == Entry(Word(tailBase - 32 * (|ring| - 1 - k)), ring[k])
  }

  // The cells of a new block, and flags all alike.
  function Raw<T>(): (cells: seq<Option<T>>)
    ensures |cells| == 32 && forall j :: 0 <= j < 32 ==> cells[j] == None
  {
    seq(32, _ => None)
  }

  function AllFlags(value: bool): (flags: seq<bool>)
    ensures |flags| == 32 && forall i :: 0 <= i < 32 ==> flags[i] == value
  {
    seq(32, _ => value)
  }

  // A cell holds an element exactly if its index is between head and tail.
  ghost predicate Stored<T>(cells: map<BlockId, seq<Option<T>>>, ring: seq<BlockId>, tailBase: int, head: int, contents: seq<T>) {
    forall k :: 0 <= k < |ring| ==> StoredAt(cells, ring, tailBase, head, contents, k)
  }

  ghost predicate StoredAt<T>(cells: map<BlockId, seq<Option<T>>>, ring: seq<BlockId>, tailBase: int, head: int, contents: seq<T>, k: nat)
    requires k < |ring|
  {
    ring[k] in cells && BlockStored(cells[ring[k]], tailBase - 32 * (|ring| - 1 - k), head, contents)
  }

  ghost predicate BlockStored<T>(cell: seq<Option<T>>, base: int, head: int, contents: seq<T>) {
    && |cell| == 32
    && forall j :: 0 <= j < 32 ==> cell[j] == At(contents, base + j - head)
  }

  function At<T>(contents: seq<T>, i: int): Option<T> {
    if 0 <= i < |contents| then Some(contents[i]) else None
  }

  // A cell is flagged empty exactly if its index is behind the head, or if its block is one of
  // the last `reserved` ones, taken for a bulk enqueue that has not filled it yet.
  ghost predicate Flagged(flags: map<BlockId, seq<bool>>, ring: seq<BlockId>, tailBase: int, head: int, reserved: nat) {
    forall k :: 0 <= k < |ring| ==> FlaggedAt(flags, ring, tailBase, head, reserved, k)
  }

  ghost predicate FlaggedAt(flags: map<BlockId, seq<bool>>, ring: seq<BlockId>, tailBase: int, head: int, reserved: nat, k: nat)
    requires k < |ring|
  {
    ring[k] in flags && BlockFlagged(flags[ring[k]], tailBase - 32 * (|ring| - 1 - k), head, k >= |ring| - reserved)
  }

  // The flags of a block run backwards.
  ghost predicate BlockFlagged(flags: seq<bool>, base: int, head: int, reserved: bool) {
    && |flags| == 32
    && forall i :: 0 <= i < 32 ==> (flags[i] <==> reserved || base + 31 - i < head)
  }

  lemma {:induction false} NextSlot(front: nat, n: nat, k: nat, size: nat)
    requires front < size && k < n <= size
    ensures Mask(Slot(front, n, k, size) + 1, size) == Slot(front, n, k + 1, size)
    ensures Slot(front, n, k + 1, size) == front <==> k + 1 == n
  {
    ModOfMod(front - n + k, 1, size);
    ModUnique(front, 0, front, size);
    if k + 1 < n {
      SlotIsOlder(front, n, k + 1, size);
    }
  }

  // An index that holds the entries of the ring from slot zero on.
  lemma {:induction false} CopiedIndex(entries: seq<Entry>, ring: seq<BlockId>, tailBase: int)
    requires |ring| < |entries|
    requires forall k :: 0 <= k < |ring| ==> entries[k] == Entry(Word(tailBase - 32 * (|ring| - 1 - k)), ring[k])
    ensures Indexed(entries, |ring|, ring, tailBase)
  {
    forall k | 0 <= k < |ring| ensures IndexedAt(entries, |ring|, ring, tailBase, k) {
      ModUnique(k, 0, k, |entries|);
    }
  }

  // The links once b is put after the tail.
  function LinkAfter(next: map<BlockId, BlockId>, tail: Option<BlockId>, b: BlockId): (next': map<BlockId, BlockId>)
    requires tail.Some? ==> tail.value in next
    ensures next'.Keys == next.Keys + {b}
  {
    match tail
    case None => next[b := b]
    case Some(t) => next[b := next[t]][t := b]
  }

  // The block after the tail becomes the tail, or a new block is put there.
  function Advance(ring: seq<BlockId>, b: BlockId): seq<BlockId> {
    (if ring != [] && ring[0] == b then ring[1..] else ring) + [b]
  }

  lemma {:induction false} SlotAfter(front: nat, n: nat, k: int, n': nat, size: nat)
    requires front < size && n' <= n + 1
    ensures Slot(Mask(front + 1, size), n', k, size) == Slot(front, n, k + n + 1 - n', size)
    ensures Slot(front, n, n, size) == front
  {
    ModOfMod(front + 1, k - n', size);
    ModUnique(front, 0, front, size);
  }

  lemma {:induction false} SlotIsOlder(front: nat, n: nat, k: nat, size: nat)
    requires front < size && k < n && n - k < size
    ensures Slot(front, n, k, size) != front
  {
    ModUnique(front, 0, front, size);
    if Slot(front, n, k, size) == front {
      ModInjective(front, front - n + k, size);
    }
  }

  lemma {:induction false} AdvanceIndexed(entries: seq<Entry>, front: nat, ring: seq<BlockId>, tailBase: int, b: BlockId)
    requires Indexed(entries, front, ring, tailBase)
    requires (ring != [] && ring[0] == b) || |ring| < |entries|
    ensures Indexed(entries[front := Entry(Word(tailBase + 32), b)], Mask(front + 1, |entries|), Advance(ring, b), tailBase + 32)
  {
    var size, n, ring' := |entries|, |ring|, Advance(ring, b);
    var n' := |ring'|;
    var entries' := entries[front := Entry(Word(tailBase + 32), b)];
    var front', tailBase' := Mask(front + 1, size), tailBase + 32;
    forall k | 0 <= k < n' ensures IndexedAt(entries', front', ring', tailBase', k) {
      SlotAfter(front, n, k, n', size);
      if k < n' - 1 {
        SlotIsOlder(front, n, k + n + 1 - n', size);
        assert IndexedAt(entries, front, ring, tailBase, k + n + 1 - n');
      }
    }
  }

  lemma {:induction false} AdvanceCircular(ring: seq<BlockId>, next: map<BlockId, BlockId>, tail: Option<BlockId>)
    requires Circular(ring, next, tail) && ring != []
    ensures tail.Some? && tail.value in next && next[tail.value] == ring[0]
    ensures Circular(Advance(ring, ring[0]), next, Some(ring[0]))
  {
    assert LinkedAt(ring, next, |ring| - 1) && LinkedAt(ring, next, 0);
    var ring' := Advance(ring, ring[0]);
    forall k | 0 <= k < |ring'| ensures LinkedAt(ring', next, k) {
      assert k + 1 < |ring| ==> LinkedAt(ring, next, k + 1);
    }
    forall j, k | 0 <= j < k < |ring'| ensures DifferAt(ring', j, k) {
      Others(ring, j + 1, if k + 1 < |ring| then k + 1 else 0);
    }
  }

  lemma {:induction false} RingIsLinked(ring: seq<BlockId>, next: map<BlockId, BlockId>, tail: Option<BlockId>, b: BlockId)
    requires Circular(ring, next, tail) && b !in next
    ensures b !in ring
    ensures tail.Some? ==> tail.value in next
  {
    assert ring != [] ==> LinkedAt(ring, next, |ring| - 1);
    forall k | 0 <= k < |ring| ensures ring[k] != b {
      assert LinkedAt(ring, next, k);
    }
  }

  lemma {:induction false} InsertCircular(ring: seq<BlockId>, next: map<BlockId, BlockId>, tail: Option<BlockId>, b: BlockId)
    requires Circular(ring, next, tail) && b !in next
    ensures tail.Some? ==> tail.value in next
    ensures Circular(Advance(ring, b), LinkAfter(next, tail, b), Some(b))
  {
    RingIsLinked(ring, next, tail, b);
    var ring' := Advance(ring, b);
    var next' := LinkAfter(next, tail, b);
    assert ring != [] ==> LinkedAt(ring, next, |ring| - 1);
    assert ring' == ring + [b];
    forall j, k | 0 <= j < k < |ring'| ensures DifferAt(ring', j, k) {
      if k < |ring| {
        Others(ring, j, k);
      }
    }
    forall k | 0 <= k < |ring'| ensures LinkedAt(ring', next', k) {
      if k < |ring| {
        assert LinkedAt(ring, next, k);
        if k < |ring| - 1 {
          Others(ring, k, |ring| - 1);
        }
      }
    }
  }

  // Contents and flags of the blocks are unchanged by advancing; the block that is reused was
  // behind the head, a new one is raw.
  lemma {:induction false} AdvanceStored<T>(cells: map<BlockId, seq<Option<T>>>, ring: seq<BlockId>, tailBase: int, head: int, contents: seq<T>, b: BlockId)
    requires Stored(cells, ring, tailBase, head, contents)
    requires head + |contents| <= tailBase + 32
    requires b in cells && |cells[b]| == 32 && forall j :: 0 <= j < 32 ==> cells[b][j] == None
    ensures Stored(cells, Advance(ring, b), tailBase + 32, head, contents)
  {
    var ring' := Advance(ring, b);
    var d, tailBase' := |ring| + 1 - |ring'|, tailBase + 32;
    forall k | 0 <= k < |ring'| ensures StoredAt(cells, ring', tailBase', head, contents, k) {
      assert k < |ring'| - 1 ==> StoredAt(cells, ring, tailBase, head, contents, k + d);
    }
  }

  lemma {:induction false} InsertStored<T>(cells: map<BlockId, seq<Option<T>>>, ring: seq<BlockId>, tailBase: int, head: int, contents: seq<T>, b: BlockId)
    requires Stored(cells, ring, tailBase, head, contents) && b !in ring
    requires head + |contents| <= tailBase + 32
    ensures Stored(cells[b := Raw()], Advance(ring, b), tailBase + 32, head, contents)
  {
    var cells' := cells[b := Raw()];
    forall k | 0 <= k < |ring| ensures StoredAt(cells', ring, tailBase, head, contents, k) {
      assert StoredAt(cells, ring, tailBase, head, contents, k);
    }
    AdvanceStored(cells', ring, tailBase, head, contents, b);
  }

  lemma {:induction false} AdvanceFlagged(flags: map<BlockId, seq<bool>>, ring: seq<BlockId>, tailBase: int, head: int, reserved: nat, b: BlockId)
    requires Flagged(flags, ring, tailBase, head, reserved)
    requires b in flags && |flags[b]| == 32 && forall i :: 0 <= i < 32 ==> flags[b][i]
    ensures Flagged(flags, Advance(ring, b), tailBase + 32, head, reserved + 1)
  {
    var ring' := Advance(ring, b);
    var d, tailBase', reserved' := |ring| + 1 - |ring'|, tailBase + 32, reserved + 1;
    forall k | 0 <= k < |ring'| ensures FlaggedAt(flags, ring', tailBase', head, reserved', k) {
      assert k < |ring'| - 1 ==> FlaggedAt(flags, ring, tailBase, head, reserved, k + d);
    }
  }

  lemma {:induction false} InsertFlagged(flags: map<BlockId, seq<bool>>, ring: seq<BlockId>, tailBase: int, head: int, reserved: nat, b: BlockId)
    requires Flagged(flags, ring, tailBase, head, reserved) && b !in ring
    ensures Flagged(flags[b := AllFlags(true)], Advance(ring, b), tailBase + 32, head, reserved + 1)
  {
    var flags' := flags[b := AllFlags(true)];
    forall k | 0 <= k < |ring| ensures FlaggedAt(flags', ring, tailBase, head, reserved, k) {
      assert FlaggedAt(flags, ring, tailBase, head, reserved, k);
    }
    AdvanceFlagged(flags', ring, tailBase, head, reserved, b);
  }

  // ---------------------------------------------------------------------------------------
  // Finding the block of an index
  // ---------------------------------------------------------------------------------------

  // Which block of the ring an index lies in.
  function Rank(tailBase: int, n: nat, index: int): int { n - 1 + (Floor(index) - tailBase) / 32 }

  // Masking off the position inside a block.
  function Floor(index: int): int { index - index % 32 }

  // Division as C++ rounds it, towards zero.
  function Quotient(x: int, y: nat): int
    requires y > 0
  {
    if x < 0 then -(-x / y) else x / y
  }

  // The lookup of the source: the signed distance from the block of the newest slot, in blocks.
  function LookupFrom(slot: nat, base: nat, size: nat, index: nat): nat
    requires size > 0
  {
    Mask(Word(slot + Word(BlockOffset(base, index))), size)
  }

  function BlockOffset(base: nat, index: nat): int { Quotient(Signed(Word(Floor(index) - base)), 32) }

  function Lookup(entries: seq<Entry>, front: nat, index: nat): nat
    requires front < |entries|
  {
    LookupFrom(front, entries[front].base, |entries|, index)
  }

  lemma {:induction false} FloorOfWord(index: int)
    ensures Floor(Word(index)) == Word(Floor(index))
  {
    assert Word(index) % 32 == index % 32;
    assert 0 <= Word(index) - index % 32;
  }

  lemma FloorIsAligned(index: int)
    ensures Floor(index) % 32 == 0 && 0 <= index - Floor(index) < 32
  {
  }

  lemma {:induction false} QuotientIsExact(offset: int)
    ensures Quotient(32 * offset, 32) == offset
  {
  }

  lemma {:induction false} OffsetIsExact(index: int, base: int, offset: int)
    requires Floor(index) == base + 32 * offset && -HALF <= 32 * offset < HALF
    ensures BlockOffset(Word(base), Word(index)) == offset
  {
    FloorOfWord(index);
    SignedOfDifference(base + 32 * offset, base);
    QuotientIsExact(offset);
  }

  lemma {:induction false} RankIsInRange(tailBase: int, n: nat, index: int)
    requires tailBase % 32 == 0 && tailBase - 32 * (n - 1) <= index < tailBase + 32
    ensures 0 <= Rank(tailBase, n, index) < n
    ensures tailBase - 32 * (n - 1 - Rank(tailBase, n, index)) == Floor(index)
    ensures (Rank(tailBase, n, index) - (n - 1)) * 32 == Floor(index) - tailBase
  {
  }

  // Whichever way the index lies from that block.
  lemma {:induction false} LookupCounts(slot: nat, last: int, size: nat, tailBase: int, index: int, offset: int)
    requires PowerOfTwo(size) && size <= WORD && slot == last % size
    requires Floor(index) == tailBase + 32 * offset && -HALF <= 32 * offset < HALF
    ensures LookupFrom(slot, Word(tailBase), size, Word(index)) == (last + offset) % size
  {
    OffsetIsExact(index, tailBase, offset);
    MaskedLookup(slot, last, size, Word(tailBase), Word(index), offset);
  }

  lemma {:induction false} MaskedLookup(slot: nat, last: int, size: nat, base: nat, index: nat, offset: int)
    requires PowerOfTwo(size) && size <= WORD && slot == last % size && BlockOffset(base, index) == offset
    ensures LookupFrom(slot, base, size, index) == (last + offset) % size
  {
    MaskedSum(slot, last, size, offset);
  }

  lemma {:induction false} MaskedSum(slot: nat, last: int, size: nat, offset: int)
    requires PowerOfTwo(size) && size <= WORD && slot == last % size
    ensures Mask(Word(slot + Word(offset)), size) == (last + offset) % size
  {
    WordOfSum(offset, slot);
    MaskOfWord(slot + offset, size);
    ModOfMod(last, offset, size);
  }

  lemma {:induction false} LookupIsSlot(entries: seq<Entry>, front: nat, n: nat, tailBase: int, index: int)
    requires n < MAX_BLOCKS && PowerOfTwo(|entries|) && |entries| <= WORD
    requires entries[Mask(Word(front - 1), |entries|)].base == Word(tailBase)
    requires tailBase % 32 == 0 && tailBase - 32 * (n - 1) <= index < tailBase + 32
    ensures Lookup(entries, Mask(Word(front - 1), |entries|), Word(index)) == Slot(front, n, Rank(tailBase, n, index), |entries|)
  {
    var rank := Rank(tailBase, n, index);
    RankIsInRange(tailBase, n, index);
    MaskOfWord(front - 1, |entries|);
    LookupCounts(Mask(Word(front - 1), |entries|), front - 1, |entries|, tailBase, index, rank - (n - 1));
  }

  // It finds the block of every index the ring covers, across wrapped indices and a wrapped ring.
  lemma {:induction false} LookupFindsBlock(entries: seq<Entry>, front: nat, ring: seq<BlockId>, tailBase: int, index: int)
    requires Indexed(entries, front, ring, tailBase) && ring != [] && |ring| < MAX_BLOCKS
    requires PowerOfTwo(|entries|) && |entries| <= WORD
    requires tailBase % 32 == 0 && tailBase - 32 * (|ring| - 1) <= index < tailBase + 32
    ensures 0 <= Rank(tailBase, |ring|, index) < |ring|
    ensures tailBase - 32 * (|ring| - 1 - Rank(tailBase, |ring|, index)) == Floor(index)
    ensures Lookup(entries, Mask(Word(front - 1), |entries|), Word(index)) == Slot(front, |ring|, Rank(tailBase, |ring|, index), |entries|)
    ensures entries[Lookup(entries, Mask(Word(front - 1), |entries|), Word(index))].block == ring[Rank(tailBase, |ring|, index)]
  {
    var size, n := |entries|, |ring|;
    RankIsInRange(tailBase, n, index);
    MaskOfWord(front - 1, size);
    assert IndexedAt(entries, front, ring, tailBase, n - 1);
    LookupIsSlot(entries, front, n, tailBase, index);
    assert IndexedAt(entries, front, ring, tailBase, Rank(tailBase, n, index));
  }

  // ---------------------------------------------------------------------------------------
  // One element in, one element out
  // ---------------------------------------------------------------------------------------

  lemma {:induction false} PutStored<T>(cells: map<BlockId, seq<Option<T>>>, ring: seq<BlockId>, tailBase: int, head: int,
                                        contents: seq<T>, x: T, rank: nat)
    requires Stored(cells, ring, tailBase, head, contents)
    requires Distinct(ring)
    requires rank < |ring| && tailBase - 32 * (|ring| - 1 - rank) <= head + |contents| < tailBase - 32 * (|ring| - 1 - rank) + 32
    requires (tailBase - 32 * (|ring| - 1 - rank)) % 32 == 0
    ensures ring[rank] in cells && |cells[ring[rank]]| == 32
    ensures var j := (head + |contents|) % 32;
      Stored(cells[ring[rank] := cells[ring[rank]][j := Some(x)]], ring, tailBase, head, contents + [x])
  {
    assert StoredAt(cells, ring, tailBase, head, contents, rank);
    var tail := head + |contents|;
    var cells' := cells[ring[rank] := cells[ring[rank]][tail % 32 := Some(x)]];
    var contents' := contents + [x];
    forall k | 0 <= k < |ring| ensures StoredAt(cells', ring, tailBase, head, contents', k) {
      assert StoredAt(cells, ring, tailBase, head, contents, k);
      if k != rank {
        Others(ring, k, rank);
      }
    }
  }

  // Cells of blocks that are not in the ring are not touched.
  ghost predicate SameOutside<T>(cells: map<BlockId, seq<Option<T>>>, cells': map<BlockId, seq<Option<T>>>, ring: seq<BlockId>) {
    forall b :: b in cells && b !in ring ==> SameAt(cells, cells', b)
  }

  ghost predicate SameAt<T>(cells: map<BlockId, seq<Option<T>>>, cells': map<BlockId, seq<Option<T>>>, b: BlockId)
    requires b in cells
  {
    b in cells' && cells'[b] == cells[b]
  }

  lemma {:induction false} SameStays<T>(cells: map<BlockId, seq<Option<T>>>, cells': map<BlockId, seq<Option<T>>>, ring: seq<BlockId>, b: BlockId, cell: seq<Option<T>>)
    requires SameOutside(cells, cells', ring) && b in ring
    ensures SameOutside(cells, cells'[b := cell], ring)
  {
    var cells'' := cells'[b := cell];
    forall x | x in cells && x !in ring ensures SameAt(cells, cells'', x) {
      assert SameAt(cells, cells', x);
    }
  }

  lemma {:induction false} TakeStored<T>(cells: map<BlockId, seq<Option<T>>>, ring: seq<BlockId>, tailBase: int, head: int,
                                         contents: seq<T>, rank: nat)
    requires Stored(cells, ring, tailBase, head, contents) && contents != []
    requires Distinct(ring)
    requires rank < |ring| && tailBase - 32 * (|ring| - 1 - rank) == Floor(head)
    ensures ring[rank] in cells && |cells[ring[rank]]| == 32 && cells[ring[rank]][head % 32] == Some(contents[0])
    ensures Stored(cells[ring[rank] := cells[ring[rank]][head % 32 := None]], ring, tailBase, head + 1, contents[1..])
  {
    assert StoredAt(cells, ring, tailBase, head, contents, rank);
    var cells' := cells[ring[rank] := cells[ring[rank]][head % 32 := None]];
    var head', contents' := head + 1, contents[1..];
    forall k | 0 <= k < |ring| ensures StoredAt(cells', ring, tailBase, head', contents', k) {
      assert StoredAt(cells, ring, tailBase, head, contents, k);
      if k != rank {
        Others(ring, k, rank);
      }
    }
  }

  // Flagging the rest of the indices up to head' inside the block of head.
  lemma {:induction false} FlagTaken(flags: map<BlockId, seq<bool>>, flags': map<BlockId, seq<bool>>, ring: seq<BlockId>, tailBase: int,
                                     head: int, head': int, rank: nat)
    requires Flagged(flags, ring, tailBase, head, 0)
    requires Distinct(ring)
    requires rank < |ring| && tailBase - 32 * (|ring| - 1 - rank) == Floor(head) && head <= head' <= Floor(head) + 32
    requires ring[rank] in flags' && flags' == flags[ring[rank] := flags'[ring[rank]]]
    requires |flags'[ring[rank]]| == 32
    requires forall i :: 0 <= i < 32 ==>
      (flags'[ring[rank]][i] <==> (ring[rank] in flags && |flags[ring[rank]]| == 32 && flags[ring[rank]][i]) || head <= Floor(head) + 31 - i < head')
    ensures Flagged(flags', ring, tailBase, head', 0)
  {
    forall k | 0 <= k < |ring| ensures FlaggedAt(flags', ring, tailBase, head', 0, k) {
      assert FlaggedAt(flags, ring, tailBase, head, 0, k);
      if k < rank {
        Others(ring, k, rank);
        assert tailBase - 32 * (|ring| - 1 - k) + 32 <= tailBase - 32 * (|ring| - 1 - rank);
      } else if k > rank {
        Others(ring, k, rank);
        assert tailBase - 32 * (|ring| - 1 - k) >= tailBase - 32 * (|ring| - 1 - rank) + 32;
      }
    }
  }

  // Clearing the flags of the first reserved block, which lies ahead of the head.
  lemma {:induction false} ClearReserved(flags: map<BlockId, seq<bool>>, ring: seq<BlockId>, tailBase: int, head: int, reserved: nat)
    requires Flagged(flags, ring, tailBase, head, reserved) && 0 < reserved <= |ring|
    requires Distinct(ring)
    requires head <= tailBase - 32 * (reserved - 1)
    ensures Flagged(flags[ring[|ring| - reserved] := AllFlags(false)], ring, tailBase, head, reserved - 1)
  {
    var b := ring[|ring| - reserved];
    var flags' := flags[b := AllFlags(false)];
    var reserved' := reserved - 1;
    forall k | 0 <= k < |ring| ensures FlaggedAt(flags', ring, tailBase, head, reserved', k) {
      assert FlaggedAt(flags, ring, tailBase, head, reserved, k);
      if k != |ring| - reserved {
        Others(ring, k, |ring| - reserved);
      }
    }
  }
}
