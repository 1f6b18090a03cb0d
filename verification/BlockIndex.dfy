/**
 The block index of an implicit producer: a circular array of pointers to entries, which doubles
 when it is full. Removed entries keep their keys and lose their values, and are found by their
 distance from the tail, which may lie on either side of them.
 */
module BlockIndex {
  import opened Wrappers
  import opened Words
  import opened Modular
  import opened BlockRing

  // The base of an entry that was never used: no multiple of the block size.
  const INVALID_BLOCK_BASE: nat := 1

  datatype IndexEntry = IndexEntry(key: nat, value: Option<BlockId>)

  ghost predicate PointsAt(order: seq<nat>, entries: seq<IndexEntry>, i: nat)
    requires i < |order|
  {
    order[i] < |entries|
  }

  // `order` is the circular array of pointers into `entries`.
  datatype Index = Index(order: seq<nat>, entries: seq<IndexEntry>, tail: nat) {
    ghost predicate Shape() {
      && PowerOfTwo(|order|) && 0 < |order| <= WORD
      && tail < |order|
      && (forall i :: 0 <= i < |order| ==> PointsAt(order, entries, i))
      && (forall i, j :: 0 <= i < j < |order| ==> DifferAt(order, i, j))
    }

    function At(i: nat): IndexEntry
      requires i < |order| && order[i] < |entries|
    {
      entries[order[i]]
    }
  }

  // Going round from the oldest: the blocks with their bases, then entries without a value. The
  // values of the blocks from lo up to hi have been taken away again.
  ghost predicate Holds(ix: Index, front: int, blocks: seq<BlockId>, tailBase: int, lo: nat, hi: nat) {
    && ix.Shape()
    && |blocks| <= |ix.order|
    && forall a :: 0 <= a < |ix.order| ==> HoldsAt(ix, front, blocks, tailBase, lo, hi, a)
  }

  ghost predicate HoldsAt(ix: Index, front: int, blocks: seq<BlockId>, tailBase: int, lo: nat, hi: nat, a: nat)
    requires a < |ix.order|
  {
    var i := Slot(front, |blocks|, a, |ix.order|);
    && ix.order[i] < |ix.entries|
    && if a < |blocks|
       then ix.At(i) == IndexEntry(Word(tailBase - 32 * (|blocks| - 1 - a)), if lo <= a < hi then None else Some(blocks[a]))
       else ix.At(i).value == None
  }

  // The ordinary state: the newest block is at the tail.
  ghost predicate Live(ix: Index, blocks: seq<BlockId>, tailBase: int) {
    Holds(ix, ix.tail + 1, blocks, tailBase, 0, 0)
  }

  // An entry for the next block has been put at the tail, but has no value yet.
  ghost predicate Pending(ix: Index, blocks: seq<BlockId>, tailBase: int, e: nat) {
    && |blocks| < |ix.order| && ix.tail < |ix.order|
    && Live(ix.(tail := Mask(Word(ix.tail - 1), |ix.order|)), blocks, tailBase)
    && e == ix.order[ix.tail] < |ix.entries|
    && ix.entries[e] == IndexEntry(Word(tailBase + 32), None)
  }

  // ---------------------------------------------------------------------------------------
  // Slots
  // ---------------------------------------------------------------------------------------

  lemma {:induction false} SlotsDiffer(front: int, n: nat, a: nat, b: nat, size: nat)
    requires a < size && b < size && a != b
    ensures Slot(front, n, a, size) != Slot(front, n, b, size)
  {
    if Slot(front, n, a, size) == Slot(front, n, b, size) {
      ModInjective(front - n + a, front - n + b, size);
    }
  }

  lemma {:induction false} PointersDiffer(ix: Index, i: nat, j: nat)
    requires ix.Shape() && i < |ix.order| && j < |ix.order| && i != j
    ensures ix.order[i] != ix.order[j]
  {
    assert if i < j then DifferAt(ix.order, i, j) else DifferAt(ix.order, j, i);
  }

  lemma {:induction false} PointersStay(ix: Index, e: nat, x: IndexEntry)
    requires ix.Shape() && e < |ix.entries|
    ensures ix.(entries := ix.entries[e := x]).Shape()
  {
    var order, entries := ix.order, ix.entries[e := x];
    forall j | 0 <= j < |order| ensures PointsAt(order, entries, j) {
      assert PointsAt(ix.order, ix.entries, j);
    }
  }

  // Where the tail stands when the next slot is taken, and when it is given back.
  lemma {:induction false} TailMoves(tail: nat, size: nat)
    requires PowerOfTwo(size) && tail < size <= WORD
    ensures Mask(Word(Mask(tail + 1, size) - 1), size) == tail
  {
    MaskOfWord(Mask(tail + 1, size) - 1, size);
    ModOfMod(tail + 1, -1, size);
    ModUnique(tail, 0, tail, size);
  }

  // Only the remainder of the front matters.
  lemma {:induction false} SameFront(ix: Index, front: int, front': int, blocks: seq<BlockId>, tailBase: int, lo: nat, hi: nat)
    requires Holds(ix, front, blocks, tailBase, lo, hi) && front % |ix.order| == front' % |ix.order|
    ensures Holds(ix, front', blocks, tailBase, lo, hi)
  {
    forall a | 0 <= a < |ix.order| ensures HoldsAt(ix, front', blocks, tailBase, lo, hi, a) {
      assert HoldsAt(ix, front, blocks, tailBase, lo, hi, a);
      ModOfMod(front, a - |blocks|, |ix.order|);
      ModOfMod(front', a - |blocks|, |ix.order|);
    }
  }

  // ---------------------------------------------------------------------------------------
  // Adding a block
  // ---------------------------------------------------------------------------------------

  // Changing an entry that is at none of the ages of the blocks.
  lemma {:induction false} TakeSlot(ix: Index, blocks: seq<BlockId>, tailBase: int)
    requires Live(ix, blocks, tailBase) && tailBase % 32 == 0
    ensures var i := Mask(ix.tail + 1, |ix.order|);
      && ix.order[i] < |ix.entries|
      && (|blocks| < |ix.order| ==> ix.At(i).value == None)
      && (|blocks| == |ix.order| ==> ix.At(i).value != None && ix.At(i).key != INVALID_BLOCK_BASE)
  {
    var n, size := |blocks|, |ix.order|;
    var i := Mask(ix.tail + 1, size);
    if n < size {
      assert HoldsAt(ix, ix.tail + 1, blocks, tailBase, 0, 0, n);
    } else {
      assert HoldsAt(ix, ix.tail + 1, blocks, tailBase, 0, 0, 0);
      ModShift(ix.tail + 1, -1, size);
      assert Slot(ix.tail + 1, n, 0, size) == i;
      BaseIsAligned(tailBase, n, 0);
      WordInBlock(tailBase - 32 * (n - 1));
    }
  }

  lemma {:induction false} SlotTaken(ix: Index, blocks: seq<BlockId>, tailBase: int, base: nat)
    requires Live(ix, blocks, tailBase) && |blocks| < |ix.order| && tailBase % 32 == 0 && base == Word(tailBase + 32)
    ensures var i := Mask(ix.tail + 1, |ix.order|);
      && ix.order[i] < |ix.entries|
      && Pending(ix.(entries := ix.entries[ix.order[i] := IndexEntry(base, None)], tail := i), blocks, tailBase, ix.order[i])
  {
    var n, size := |blocks|, |ix.order|;
    var i := Mask(ix.tail + 1, size);
    TakeSlot(ix, blocks, tailBase);
    TailMoves(ix.tail, size);
    var ix' := ix.(entries := ix.entries[ix.order[i] := IndexEntry(base, None)]);
    PointersStay(ix, ix.order[i], IndexEntry(base, None));
    var front := ix.tail + 1;
    forall a | 0 <= a < size ensures HoldsAt(ix', front, blocks, tailBase, 0, 0, a) {
      assert HoldsAt(ix, front, blocks, tailBase, 0, 0, a);
      if a != n {
        SlotsDiffer(front, n, a, n, size);
        PointersDiffer(ix, Slot(front, n, a, size), i);
      }
    }
  }

  lemma {:induction false} PendingHolds(ix: Index, blocks: seq<BlockId>, tailBase: int, e: nat)
    requires Pending(ix, blocks, tailBase, e)
    ensures Holds(ix, ix.tail, blocks, tailBase, 0, 0)
    ensures |blocks| < |ix.order| && ix.order[ix.tail] == e
    ensures Slot(ix.tail, |blocks|, |blocks|, |ix.order|) == ix.tail
  {
    var prev, size := Mask(Word(ix.tail - 1), |ix.order|), |ix.order|;
    MaskOfWord(ix.tail - 1, size);
    ModOfMod(ix.tail - 1, 1, size);
    ModUnique(ix.tail, 0, ix.tail, size);
    SameFront(ix.(tail := prev), prev + 1, ix.tail, blocks, tailBase, 0, 0);
    forall a | 0 <= a < size ensures HoldsAt(ix, ix.tail, blocks, tailBase, 0, 0, a) {
      assert HoldsAt(ix.(tail := prev), ix.tail, blocks, tailBase, 0, 0, a);
    }
  }

  // Giving the entry its value completes the addition.
  lemma {:induction false} SlotFilled(ix: Index, blocks: seq<BlockId>, tailBase: int, e: nat, b: BlockId)
    requires Pending(ix, blocks, tailBase, e)
    ensures Live(ix.(entries := ix.entries[e := ix.entries[e].(value := Some(b))]), blocks + [b], tailBase + 32)
  {
    var n, size := |blocks|, |ix.order|;
    var ix' := ix.(entries := ix.entries[e := ix.entries[e].(value := Some(b))]);
    var blocks', tailBase' := blocks + [b], tailBase + 32;
    PendingHolds(ix, blocks, tailBase, e);
    PointersStay(ix, e, ix.entries[e].(value := Some(b)));
    var front' := ix.tail + 1;
    forall a | 0 <= a < size ensures HoldsAt(ix', front', blocks', tailBase', 0, 0, a) {
      assert HoldsAt(ix, ix.tail, blocks, tailBase, 0, 0, a);
      assert Slot(front', n + 1, a, size) == Slot(ix.tail, n, a, size);
      if a != n {
        SlotsDiffer(ix.tail, n, a, n, size);
        PointersDiffer(ix, Slot(ix.tail, n, a, size), ix.tail);
      }
    }
  }

  // Giving the slot back.
  lemma {:induction false} SlotReturned(ix: Index, blocks: seq<BlockId>, tailBase: int, e: nat)
    requires Pending(ix, blocks, tailBase, e)
    ensures Live(ix.(tail := Mask(Word(ix.tail - 1), |ix.order|), entries := ix.entries[e := ix.entries[e].(value := None)]), blocks, tailBase)
  {
    assert ix.entries[e := ix.entries[e].(value := None)] == ix.entries;
  }

  // ---------------------------------------------------------------------------------------
  // Removing blocks
  // ---------------------------------------------------------------------------------------

  // The oldest block is given back once it has been read.
  lemma {:induction false} OldestRemoved(ix: Index, blocks: seq<BlockId>, tailBase: int)
    requires Live(ix, blocks, tailBase) && blocks != []
    ensures var e := ix.order[Slot(ix.tail + 1, |blocks|, 0, |ix.order|)];
      && e < |ix.entries|
      && Live(ix.(entries := ix.entries[e := ix.entries[e].(value := None)]), blocks[1..], tailBase)
  {
    var n, size, front := |blocks|, |ix.order|, ix.tail + 1;
    var first := Slot(front, n, 0, size);
    assert HoldsAt(ix, front, blocks, tailBase, 0, 0, 0);
    var e := ix.order[first];
    var ix' := ix.(entries := ix.entries[e := ix.entries[e].(value := None)]);
    PointersStay(ix, e, ix.entries[e].(value := None));
    forall a | 0 <= a < size ensures HoldsAt(ix', front, blocks[1..], tailBase, 0, 0, a) {
      if a < size - 1 {
        OthersHold(ix, ix', front, blocks, tailBase, e, a);
      } else {
        ModShift(front - n, 1, size);
      }
    }
  }

  lemma {:induction false} OthersHold(ix: Index, ix': Index, front: int, blocks: seq<BlockId>, tailBase: int, e: nat, a: nat)
    requires ix.Shape() && blocks != [] && |blocks| <= |ix.order| && a + 1 < |ix.order|
    requires e == ix.order[Slot(front, |blocks|, 0, |ix.order|)] < |ix.entries|
    requires ix' == ix.(entries := ix.entries[e := ix.entries[e].(value := None)])
    requires HoldsAt(ix, front, blocks, tailBase, 0, 0, a + 1)
    ensures HoldsAt(ix', front, blocks[1..], tailBase, 0, 0, a)
  {
    SlotsDiffer(front, |blocks|, a + 1, 0, |ix.order|);
    PointersDiffer(ix, Slot(front, |blocks|, a + 1, |ix.order|), Slot(front, |blocks|, 0, |ix.order|));
  }

  // Undoing a bulk insertion, oldest block first: after k of the r blocks at the end have been
  // removed the tail has been moved back k slots, and the lookup, measured from there, still
  // finds the next one, first behind and then ahead of the tail.
  ghost predicate Undoing(ix: Index, front: int, blocks: seq<BlockId>, tailBase: int, r: nat, k: nat) {
    && k <= r <= |blocks|
    && Holds(ix, front, blocks, tailBase, |blocks| - r, |blocks| - r + k)
    && ix.tail == (front - 1 - k) % |ix.order|
  }

  lemma FloorOfAligned(base: int, q: int)
    requires base % 32 == 0
    ensures Floor(base - 32 * q) == base - 32 * q
  {
  }

  lemma {:induction false} LookupOfBase(slot: nat, last: int, size: nat, base: int, offset: int)
    requires PowerOfTwo(size) && size <= WORD && slot == last % size && base % 32 == 0 && -HALF <= 32 * offset < HALF
    ensures LookupFrom(slot, Word(base), size, Word(base + 32 * offset)) == (last + offset) % size
  {
    FloorOfAligned(base, -offset);
    LookupCounts(slot, last, size, base, base + 32 * offset, offset);
  }

  lemma {:induction false} UndoLookup(tail: nat, front: int, size: nat, n: nat, tailBase: int, r: nat, k: nat)
    requires PowerOfTwo(size) && size <= WORD && k < r < MAX_BLOCKS && tailBase % 32 == 0 && r <= n
    requires tail == (front - 1 - k) % size
    ensures LookupFrom(tail, Word(tailBase - 32 * k), size, Word(tailBase - 32 * (r - k - 1))) == Slot(front, n, n - r + k, size)
  {
    var base, last, offset := tailBase - 32 * k, front - 1 - k, 2 * k + 1 - r;
    BaseIsAligned(tailBase, 0, -1 - k);
    LookupOfBase(tail, last, size, base, offset);
    assert base + 32 * offset == tailBase - 32 * (r - k - 1);
  }

  lemma {:induction false} UndoKey(ix: Index, front: int, blocks: seq<BlockId>, tailBase: int, r: nat, k: nat)
    requires Undoing(ix, front, blocks, tailBase, r, k) && k < r
    ensures ix.order[ix.tail] < |ix.entries| && ix.At(ix.tail).key == Word(tailBase - 32 * k)
  {
    var n := |blocks|;
    assert PointsAt(ix.order, ix.entries, ix.tail);
    assert Slot(front, n, n - 1 - k, |ix.order|) == ix.tail;
    assert HoldsAt(ix, front, blocks, tailBase, n - r, n - r + k, n - 1 - k);
  }

  lemma {:induction false} UndoStep(ix: Index, front: int, blocks: seq<BlockId>, tailBase: int, r: nat, k: nat)
    requires Undoing(ix, front, blocks, tailBase, r, k) && k < r
    ensures var i := Slot(front, |blocks|, |blocks| - r + k, |ix.order|);
      && i < |ix.order| && ix.order[i] < |ix.entries|
      && Undoing(ix.(entries := ix.entries[ix.order[i] := ix.At(i).(value := None)], tail := Mask(Word(ix.tail - 1), |ix.order|)),
                 front, blocks, tailBase, r, k + 1)
  {
    var n, size := |blocks|, |ix.order|;
    var lo, hi := n - r, n - r + k;
    var i := Slot(front, n, hi, size);
    assert HoldsAt(ix, front, blocks, tailBase, lo, hi, hi);
    var e := ix.order[i];
    var ix' := ix.(entries := ix.entries[e := ix.At(i).(value := None)]);
    PointersStay(ix, e, ix.At(i).(value := None));
    var hi' := hi + 1;
    forall a | 0 <= a < size ensures HoldsAt(ix', front, blocks, tailBase, lo, hi', a) {
      assert HoldsAt(ix, front, blocks, tailBase, lo, hi, a);
      if a != hi {
        SlotsDiffer(front, n, a, hi, size);
        PointersDiffer(ix, Slot(front, n, a, size), i);
      }
    }
    MaskOfWord(ix.tail - 1, size);
    ModOfMod(front - 1 - k, -1, size);
    var tail' := Mask(Word(ix.tail - 1), size);
    HoldsIgnoresTail(ix', tail', front, blocks, tailBase, lo, hi');
  }

  lemma {:induction false} HoldsIgnoresTail(ix: Index, tail: nat, front: int, blocks: seq<BlockId>, tailBase: int, lo: nat, hi: nat)
    requires Holds(ix, front, blocks, tailBase, lo, hi) && tail < |ix.order|
    ensures Holds(ix.(tail := tail), front, blocks, tailBase, lo, hi)
  {
    var ix' := ix.(tail := tail);
    forall a | 0 <= a < |ix.order| ensures HoldsAt(ix', front, blocks, tailBase, lo, hi, a) {
      assert HoldsAt(ix, front, blocks, tailBase, lo, hi, a);
    }
  }

  // In the end the blocks before are indexed as if the others had never been.
  lemma {:induction false} Undone(ix: Index, front: int, blocks: seq<BlockId>, tailBase: int, r: nat)
    requires Undoing(ix, front, blocks, tailBase, r, r)
    ensures Live(ix, blocks[..|blocks| - r], tailBase - 32 * r)
  {
    var n, size := |blocks|, |ix.order|;
    var before, base, front' := blocks[..n - r], tailBase - 32 * r, front - r;
    forall a | 0 <= a < size ensures HoldsAt(ix, front', before, base, 0, 0, a) {
      assert HoldsAt(ix, front, blocks, tailBase, n - r, n, a);
    }
    ModOfMod(front' - 1, 1, size);
    SameFront(ix, front', ix.tail + 1, before, base, 0, 0);
  }

  // ---------------------------------------------------------------------------------------
  // Doubling the index
  // ---------------------------------------------------------------------------------------

  // The pointers of a full index oldest first, then as many to new entries.
  ghost predicate Grown(ix: Index, ix': Index) {
    var size := |ix.order|;
    && |ix'.order| == 2 * size && |ix'.entries| == |ix.entries| + size && ix'.tail == size - 1
    && ix.entries == ix'.entries[..|ix.entries|]
    && (forall i :: 0 <= i < size ==> CopiedAt(ix, ix'.order, i))
    && (forall i :: 0 <= i < size ==> NewAt(ix, ix'.order, ix'.entries, i))
  }

  ghost predicate CopiedAt(ix: Index, order: seq<nat>, i: nat)
    requires i < |order| && |ix.order| > 0
  {
    order[i] == ix.order[(ix.tail + 1 + i) % |ix.order|]
  }

  ghost predicate NewAt(ix: Index, order: seq<nat>, entries: seq<IndexEntry>, i: nat)
    requires |ix.order| + i < |order| && |ix.entries| + i < |entries|
  {
    order[|ix.order| + i] == |ix.entries| + i && entries[|ix.entries| + i] == IndexEntry(INVALID_BLOCK_BASE, None)
  }

  lemma {:induction false} GrownShape(ix: Index, ix': Index)
    requires ix.Shape() && |ix.order| <= WORD / 2 && Grown(ix, ix')
    ensures ix'.Shape()
  {
    var size := |ix.order|;
    assert 2 * size / 2 == size;
    forall i | 0 <= i < 2 * size ensures PointsAt(ix'.order, ix'.entries, i) {
      GrownPointer(ix, ix', i);
    }
    forall i, j | 0 <= i < j < 2 * size ensures DifferAt(ix'.order, i, j) {
      GrownPointer(ix, ix', i);
      GrownPointer(ix, ix', j);
      if j < size {
        SlotsDiffer(ix.tail + 1, 0, i, j, size);
        PointersDiffer(ix, (ix.tail + 1 + i) % size, (ix.tail + 1 + j) % size);
      }
    }
  }

  lemma {:induction false} GrownPointer(ix: Index, ix': Index, i: nat)
    requires ix.Shape() && Grown(ix, ix') && i < 2 * |ix.order|
    ensures ix'.order[i] < |ix'.entries|
    ensures i < |ix.order| ==> ix'.order[i] == ix.order[(ix.tail + 1 + i) % |ix.order|] < |ix.entries|
    ensures i >= |ix.order| ==> ix'.order[i] == |ix.entries| + i - |ix.order|
    ensures i >= |ix.order| ==> ix'.At(i) == IndexEntry(INVALID_BLOCK_BASE, None)
  {
    var size := |ix.order|;
    if i < size {
      assert CopiedAt(ix, ix'.order, i);
      assert PointsAt(ix.order, ix.entries, (ix.tail + 1 + i) % size);
    } else {
      assert NewAt(ix, ix'.order, ix'.entries, i - size);
    }
  }

  lemma {:induction false} GrownIsLive(ix: Index, ix': Index, blocks: seq<BlockId>, tailBase: int)
    requires Live(ix, blocks, tailBase) && |blocks| == |ix.order| <= WORD / 2 && Grown(ix, ix')
    ensures Live(ix', blocks, tailBase)
  {
    var n, size := |blocks|, |ix.order|;
    GrownShape(ix, ix');
    forall a | 0 <= a < 2 * size ensures HoldsAt(ix', size, blocks, tailBase, 0, 0, a) {
      ModUnique(a, 0, a, 2 * size);
      GrownPointer(ix, ix', a);
      if a < size {
        assert HoldsAt(ix, ix.tail + 1, blocks, tailBase, 0, 0, a);
        ModShift(ix.tail + 1 + a, -1, size);
        var e := ix.order[(ix.tail + 1 + a) % size];
        assert ix'.entries[e] == ix'.entries[..|ix.entries|][e];
      }
    }
  }

  // ---------------------------------------------------------------------------------------
  // The operations
  // ---------------------------------------------------------------------------------------

  method CopyPointers(ix: Index, order: seq<nat>) returns (order': seq<nat>)
    requires ix.Shape() && |order| >= |ix.order|
    ensures |order'| == |order|
    ensures forall k :: 0 <= k < |ix.order| ==> CopiedAt(ix, order', k)
  {
    var size := |ix.order|;
    var i, prevPos := 0, ix.tail;
    order' := order;
    RoundStarts(ix.tail, size);
    while true
      invariant 0 <= i < size && |order'| == |order| && prevPos == Round(ix.tail, i, size)
      invariant forall k :: 0 <= k < i ==> CopiedAt(ix, order', k)
      decreases size - i
    {
      RoundGoesOn(ix.tail, i, size);
      prevPos := Mask(prevPos + 1, size);
      CopiedMore(ix, order', order'[i := ix.order[prevPos]], i);
      order' := order'[i := ix.order[prevPos]];
      i := i + 1;
      if prevPos == ix.tail {
        break;
      }
    }
  }

  lemma {:induction false} CopiedMore(ix: Index, order: seq<nat>, order': seq<nat>, i: nat)
    requires ix.Shape() && i < |ix.order| <= |order| && Round(ix.tail, i + 1, |ix.order|) < |ix.order|
    requires order' == order[i := ix.order[Round(ix.tail, i + 1, |ix.order|)]]
    requires forall k :: 0 <= k < i ==> CopiedAt(ix, order, k)
    ensures forall k :: 0 <= k < i + 1 ==> CopiedAt(ix, order', k)
  {
    forall k | 0 <= k < i + 1 ensures CopiedAt(ix, order', k) {
      assert k < i ==> CopiedAt(ix, order, k);
    }
  }

  // The slot i places round from the tail.
  function Round(tail: nat, i: nat, size: nat): nat
    requires size > 0
  {
    (tail + i) % size
  }

  lemma {:induction false} RoundStarts(tail: nat, size: nat)
    requires tail < size
    ensures Round(tail, 0, size) == tail
  {
    ModUnique(tail, 0, tail, size);
  }

  lemma {:induction false} RoundGoesOn(tail: nat, i: nat, size: nat)
    requires tail < size && i < size
    ensures Mask(Round(tail, i, size) + 1, size) == Round(tail, i + 1, size) < size
    ensures Round(tail, i + 1, size) == tail <==> i + 1 == size
  {
    ModOfMod(tail + i, 1, size);
    OnceRound(tail, i + 1, size);
  }

  lemma {:induction false} OnceRound(tail: nat, i: nat, size: nat)
    requires tail < size && 0 < i <= size
    ensures (tail + i) % size == tail <==> i == size
  {
    ModShift(tail, 1, size);
    ModUnique(tail, 0, tail, size);
    if (tail + i) % size == tail && i < size {
      ModInjective(tail + i, tail, size);
    }
  }

  method NewBlockIndex(ix: Index) returns (ix': Index)
    requires ix.Shape() && |ix.order| <= WORD / 2
    ensures Grown(ix, ix')
  {
    var size, entries := |ix.order|, ix.entries;
    var order: seq<nat> := seq(2 * size, _ => 0);
    order := CopyPointers(ix, order);
    for j := 0 to size
      invariant |order| == 2 * size && |entries| == |ix.entries| + j && entries[..|ix.entries|] == ix.entries
      invariant forall k :: 0 <= k < size ==> CopiedAt(ix, order, k)
      invariant forall k :: 0 <= k < j ==> NewAt(ix, order, entries, k)
    {
      ghost var order0, entries0 := order, entries;
      entries := entries + [IndexEntry(INVALID_BLOCK_BASE, None)];
      order := order[size + j := |ix.entries| + j];
      forall k | 0 <= k < size ensures CopiedAt(ix, order, k) {
        assert CopiedAt(ix, order0, k);
      }
      forall k | 0 <= k < j + 1 ensures NewAt(ix, order, entries, k) {
        assert k < j ==> NewAt(ix, order0, entries0, k);
      }
    }
    ix' := Index(order, entries, size - 1);
  }

  // Puts an entry for the block at blockStartIndex at the tail, in a larger index if this one is
  // full. Each new index takes one of the `memory` allocations that will succeed.
  method InsertBlockIndexEntry(ix: Index, blockStartIndex: nat, memory: nat, ghost blocks: seq<BlockId>, ghost tailBase: int)
    returns (ok: bool, ix': Index, e: nat, memory': nat)
    requires Live(ix, blocks, tailBase) && |blocks| <= WORD / 2 && tailBase % 32 == 0
    requires blockStartIndex == Word(tailBase + 32)
    ensures ok <==> |blocks| < |ix.order| || memory > 0
    ensures ok ==> Pending(ix', blocks, tailBase, e)
    ensures ok ==> if |blocks| < |ix.order| then |ix'.order| == |ix.order| && memory' == memory
                   else |ix'.order| == 2 * |ix.order| && memory' == memory - 1
    ensures !ok ==> ix' == ix
  {
    ix', e, memory' := ix, 0, memory;
    TakeSlot(ix, blocks, tailBase);
    var newTail := Mask(ix.tail + 1, |ix.order|);
    if ix.At(newTail).key != INVALID_BLOCK_BASE && ix.At(newTail).value.Some? {
      if memory == 0 {
        return false, ix, 0, 0;
      }
      memory' := memory - 1;
      ix' := NewBlockIndex(ix);
      GrownIsLive(ix, ix', blocks, tailBase);
      newTail := Mask(ix'.tail + 1, |ix'.order|);
      NewSlotIsInvalid(ix, ix');
      assert ix'.At(newTail).key == INVALID_BLOCK_BASE;
    }
    SlotTaken(ix', blocks, tailBase, blockStartIndex);
    e := ix'.order[newTail];
    ix' := Index(ix'.order, ix'.entries[e := IndexEntry(blockStartIndex, None)], newTail);
    ok := true;
  }

  lemma {:induction false} NewSlotIsInvalid(ix: Index, ix': Index)
    requires ix.Shape() && Grown(ix, ix')
    ensures var i := Mask(ix'.tail + 1, |ix'.order|);
      ix'.order[i] < |ix'.entries| && ix'.At(i).key == INVALID_BLOCK_BASE
  {
    ModUnique(ix'.tail + 1, 0, ix'.tail + 1, |ix'.order|);
    GrownPointer(ix, ix', |ix.order|);
  }
}
