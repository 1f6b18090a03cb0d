/**
 The explicit (token-owning) producer of the queue, run by one thread at a time. Valid ties its
 fields to a plain sequence, and every operation is specified on that sequence.

 What a run by one thread cannot show, the races of consumers, is the subject of DequeueTickets.
 */
module ExplicitProducer {
  import opened Wrappers
  import opened Words
  import opened Modular
  import opened BlockRing

  // ---------------------------------------------------------------------------------------
  // What the producer stands for, and how
  // ---------------------------------------------------------------------------------------

  // The elements, the true head index, the blocks in list order and the true base of the last.
  datatype Model<T> = Model(contents: seq<T>, head: nat, ring: seq<BlockId>, tailBase: int) {
    function Tail(): nat { head + |contents| }

    predicate Sized() {
      match this
      case Model(contents, head, ring, tailBase) =>
        && |ring| < MAX_BLOCKS
        && tailBase % 32 == 0
        && (ring == [] ==> tailBase == -32)
        && (ring != [] ==> 0 <= tailBase - 32 * (|ring| - 1) <= head)
        && head + |contents| <= tailBase + 32
    }

    // The last `reserved` blocks lie wholly past the tail, and the tail is in the block before.
    predicate TailIn(reserved: nat) {
      && reserved <= |ring|
      && tailBase - 32 * reserved < Tail() <= tailBase - 32 * reserved + 32
    }

    // The block after the tail has been read to its end and is not reserved.
    predicate CanReuse(reserved: nat) {
      reserved < |ring| && tailBase - 32 * (|ring| - 1) + 32 <= head
    }

    // How many blocks have been read to their end, and so can be reused one after the other.
    function Reusable(): nat {
      var emptied := if ring == [] then 0 else (head - (tailBase - 32 * (|ring| - 1))) / 32;
      if emptied < 0 then 0 else if emptied < |ring| then emptied else |ring|
    }

    function Taken(n: nat): Model<T>
      requires n <= |contents|
    {
      this.(head := head + n, contents := contents[n..])
    }

    function Advanced(b: BlockId): Model<T> { this.(ring := Advance(ring, b), tailBase := tailBase + 32) }
  }

  // The block list with its blocks, and the block index as the producer sees it: the next slot
  // to write is prFront.
  datatype Rep<T> = Rep(
    tailBlock: Option<BlockId>,
    next: map<BlockId, BlockId>,
    cells: map<BlockId, seq<Option<T>>>,
    flags: map<BlockId, seq<bool>>,
    entries: seq<Entry>,
    prFront: nat,
    prSlotsUsed: nat)

  ghost predicate Fits<T>(r: Rep<T>, m: Model<T>, reserved: nat) {
    match m
    case Model(contents, head, ring, tailBase) =>
      && Circular(ring, r.next, r.tailBlock)
      && Indexed(r.entries, r.prFront, ring, tailBase)
      && Stored(r.cells, ring, tailBase, head, contents)
      && Flagged(r.flags, ring, tailBase, head, reserved)
      && r.prSlotsUsed == |ring|
      && IndexSize(|r.entries|)
      && m.Sized()
  }

  ghost predicate IndexSize(size: nat) { PowerOfTwo(size) && 0 < size <= 2 * MAX_BLOCKS }

  // ---------------------------------------------------------------------------------------
  // The block ahead of the tail
  // ---------------------------------------------------------------------------------------

  // The emptiness flags of the block after the tail say whether it can be reused.
  lemma {:induction false} EmptyMeansReusable<T>(r: Rep<T>, m: Model<T>, reserved: nat)
    requires Fits(r, m, reserved) && reserved < |m.ring|
    ensures r.tailBlock.Some? && r.tailBlock.value in r.next && r.next[r.tailBlock.value] == m.ring[0]
    ensures m.ring[0] in r.flags && |r.flags[m.ring[0]]| == 32
    ensures (forall i :: 0 <= i < 32 ==> r.flags[m.ring[0]][i]) <==> m.CanReuse(reserved)
  {
    AdvanceCircular(m.ring, r.next, r.tailBlock);
    assert FlaggedAt(r.flags, m.ring, m.tailBase, m.head, reserved, 0);
    assert r.flags[m.ring[0]][0] <==> m.tailBase - 32 * (|m.ring| - 1) + 31 < m.head;
  }

  lemma {:induction false} AheadIsRaw<T>(cells: map<BlockId, seq<Option<T>>>, ring: seq<BlockId>, tailBase: int, head: int, contents: seq<T>)
    requires Stored(cells, ring, tailBase, head, contents) && ring != [] && tailBase - 32 * (|ring| - 1) + 32 <= head
    ensures ring[0] in cells && |cells[ring[0]]| == 32 && forall j :: 0 <= j < 32 ==> cells[ring[0]][j] == None
  {
    assert StoredAt(cells, ring, tailBase, head, contents, 0);
  }

  lemma {:induction false} AdvanceIsSized<T>(m: Model<T>, reserved: nat, b: BlockId)
    requires m.Sized()
    requires if m.ring != [] && m.ring[0] == b then m.CanReuse(reserved) else |m.ring| + 1 < MAX_BLOCKS
    ensures m.Advanced(b).Sized() && m.Advanced(b).Tail() == m.Tail()
    ensures m.TailIn(reserved) ==> m.Advanced(b).TailIn(reserved + 1)
  {
  }

  lemma {:induction false} ReuseBlocks<T>(r: Rep<T>, m: Model<T>, reserved: nat)
    requires Fits(r, m, reserved) && m.CanReuse(reserved)
    ensures var b, ring' := m.ring[0], Advance(m.ring, m.ring[0]);
      && |ring'| == |m.ring|
      && Circular(ring', r.next, Some(b))
      && Stored(r.cells, ring', m.tailBase + 32, m.head, m.contents)
      && Flagged(r.flags, ring', m.tailBase + 32, m.head, reserved + 1)
  {
    EmptyMeansReusable(r, m, reserved);
    AheadIsRaw(r.cells, m.ring, m.tailBase, m.head, m.contents);
    AdvanceCircular(m.ring, r.next, r.tailBlock);
    AdvanceStored(r.cells, m.ring, m.tailBase, m.head, m.contents, m.ring[0]);
    AdvanceFlagged(r.flags, m.ring, m.tailBase, m.head, reserved, m.ring[0]);
  }

  lemma {:induction false} ReuseFits<T>(r: Rep<T>, m: Model<T>, reserved: nat)
    requires Fits(r, m, reserved) && m.CanReuse(reserved)
    ensures var b := m.ring[0];
      Fits(r.(tailBlock := Some(b), entries := r.entries[r.prFront := Entry(Word(m.tailBase + 32), b)],
              prFront := Mask(r.prFront + 1, |r.entries|)),
           m.Advanced(b), reserved + 1)
  {
    ReuseBlocks(r, m, reserved);
    AdvanceIsSized(m, reserved, m.ring[0]);
    AdvanceIndexed(r.entries, r.prFront, m.ring, m.tailBase, m.ring[0]);
  }

  // A block from the pool: raw, and flagged empty until it is filled.
  lemma {:induction false} InsertFits<T>(r: Rep<T>, m: Model<T>, reserved: nat, b: BlockId)
    requires Fits(r, m, reserved) && b !in r.next
    requires |m.ring| < |r.entries| && |m.ring| + 1 < MAX_BLOCKS
    ensures r.tailBlock.Some? ==> r.tailBlock.value in r.next
    ensures m.Advanced(b).ring == m.ring + [b]
    ensures Fits(Rep(Some(b), LinkAfter(r.next, r.tailBlock, b), r.cells[b := Raw()], r.flags[b := AllFlags(true)],
                     r.entries[r.prFront := Entry(Word(m.tailBase + 32), b)], Mask(r.prFront + 1, |r.entries|), r.prSlotsUsed + 1),
                 m.Advanced(b), reserved + 1)
  {
    RingIsLinked(m.ring, r.next, r.tailBlock, b);
    InsertCircular(m.ring, r.next, r.tailBlock, b);
    AdvanceIndexed(r.entries, r.prFront, m.ring, m.tailBase, b);
    InsertStored(r.cells, m.ring, m.tailBase, m.head, m.contents, b);
    InsertFlagged(r.flags, m.ring, m.tailBase, m.head, reserved, b);
    AdvanceIsSized(m, reserved, b);
  }

  method Inserted<T>(r: Rep<T>, b: BlockId, base: nat, ghost m: Model<T>, ghost reserved: nat) returns (r': Rep<T>)
    requires Fits(r, m, reserved) && b !in r.next && base == Word(m.tailBase + 32)
    requires |m.ring| < |r.entries| && |m.ring| + 1 < MAX_BLOCKS
    ensures Fits(r', m.Advanced(b), reserved + 1) && m.Advanced(b).ring == m.ring + [b]
    ensures |r'.entries| == |r.entries| && r'.prFront == Mask(r.prFront + 1, |r.entries|)
    ensures r'.next.Keys == r.next.Keys + {b}
  {
    InsertFits(r, m, reserved, b);
    r' := Rep(Some(b), LinkAfter(r.next, r.tailBlock, b), r.cells[b := Raw()], r.flags[b := AllFlags(true)],
              r.entries[r.prFront := Entry(base, b)], Mask(r.prFront + 1, |r.entries|), r.prSlotsUsed + 1);
  }

  // ---------------------------------------------------------------------------------------
  // One block's flags, and one block's elements
  // ---------------------------------------------------------------------------------------

  method IsEmpty(flags: seq<bool>) returns (empty: bool)
    requires |flags| == 32
    ensures empty <==> forall i :: 0 <= i < 32 ==> flags[i]
  {
    for i := 0 to 32
      invariant forall j :: 0 <= j < i ==> flags[j]
    {
      if !flags[i] {
        return false;
      }
    }
    return true;
  }

  method SetFlags(flags: seq<bool>, from: nat, count: nat, value: bool) returns (flags': seq<bool>)
    requires |flags| == 32 && from + count <= 32
    ensures |flags'| == 32
    ensures forall i :: 0 <= i < 32 ==> flags'[i] == if from <= i < from + count then value else flags[i]
  {
    flags' := flags;
    for j := 0 to count
      invariant |flags'| == 32
      invariant forall i :: 0 <= i < 32 ==> flags'[i] == if from <= i < from + j then value else flags[i]
    {
      flags' := flags'[from + j := value];
    }
  }

  // Where the part of a run of indices up to e that lies in the block of i stops.
  function Stop(i: int, e: int): int { if e < Floor(i) + 32 then e else Floor(i) + 32 }

  lemma {:induction false} StopIsInBlock(tailBase: int, n: nat, k: nat, i: int, e: int)
    requires tailBase % 32 == 0 && k < n && i <= e && tailBase < e <= tailBase + 32
    requires tailBase - 32 * (n - 1 - k) == Floor(i)
    ensures i <= Stop(i, e) <= tailBase - 32 * (n - 1 - k) + 32
    ensures i < e ==> i < Stop(i, e)
    ensures k == n - 1 ==> Stop(i, e) == e
    ensures k < n - 1 ==> Stop(i, e) < e && tailBase - 32 * (n - 2 - k) == Stop(i, e) == Floor(Stop(i, e))
  {
  }

  lemma SameBlock(i: int, j: int)
    requires i <= j < Floor(i) + 32
    ensures Floor(j) == Floor(i)
  {
  }

  method BlockStop(index: nat, end: nat, ghost i: int, ghost e: int) returns (stop: nat)
    requires index == Word(i) && end == Word(e) && i <= e <= i + HALF - 32
    ensures stop == Word(Stop(i, e))
  {
    FloorOfWord(i);
    WordOfSum(Floor(i), 32);
    CircularLessIsLess(e, Floor(i) + 32);
    stop := Word(Floor(index) + 32);
    if CircularLess(end, stop) {
      stop := end;
    }
  }

  function Next(index: nat, ghost i: int): (n: nat)
    requires index == Word(i)
    ensures n == Word(i + 1)
  {
    WordOfSum(i, 1);
    Word(index + 1)
  }

  function Later(index: nat, n: nat, ghost i: int): (n': nat)
    requires index == Word(i)
    ensures n' == Word(i + n)
  {
    WordOfSum(i, n);
    Word(index + n)
  }

  // Puts items[done] at the tail.
  method PutNext<T>(cells: map<BlockId, seq<Option<T>>>, b: BlockId, index: nat, items: seq<T>, done: nat,
                    ghost m: Model<T>, ghost rank: nat)
    returns (cells': map<BlockId, seq<Option<T>>>)
    requires rank < |m.ring| && m.ring[rank] == b && done < |items|
    requires Stored(cells, m.ring, m.tailBase, m.head, m.contents + items[..done]) && Distinct(m.ring) && m.tailBase % 32 == 0
    requires m.tailBase - 32 * (|m.ring| - 1 - rank) <= m.Tail() + done < m.tailBase - 32 * (|m.ring| - 1 - rank) + 32
    requires index == Word(m.Tail() + done)
    ensures Stored(cells', m.ring, m.tailBase, m.head, m.contents + items[..done + 1])
    ensures b in cells' && cells' == cells[b := cells'[b]]
  {
    ghost var contents := m.contents + items[..done];
    BaseIsAligned(m.tailBase, |m.ring|, rank);
    WordInBlock(m.Tail() + done);
    PutStored(cells, m.ring, m.tailBase, m.head, contents, items[done], rank);
    assert contents + [items[done]] == m.contents + items[..done + 1];
    return cells[b := cells[b][index % 32 := Some(items[done])]];
  }

  // One turn of a block's loop. The loop began with the elements of cells0.
  method PutAndStep<T>(cells: map<BlockId, seq<Option<T>>>, b: BlockId, index: nat, items: seq<T>, done: nat,
                       ghost m: Model<T>, ghost rank: nat, ghost cells0: map<BlockId, seq<Option<T>>>)
    returns (cells': map<BlockId, seq<Option<T>>>, index': nat, done': nat)
    requires rank < |m.ring| && m.ring[rank] == b && done < |items|
    requires Stored(cells, m.ring, m.tailBase, m.head, m.contents + items[..done]) && Distinct(m.ring) && m.tailBase % 32 == 0
    requires m.tailBase - 32 * (|m.ring| - 1 - rank) <= m.Tail() + done < m.tailBase - 32 * (|m.ring| - 1 - rank) + 32
    requires index == Word(m.Tail() + done) && SameOutside(cells0, cells, m.ring)
    ensures done' == done + 1 && index' == Word(m.Tail() + done')
    ensures Stored(cells', m.ring, m.tailBase, m.head, m.contents + items[..done'])
    ensures SameOutside(cells0, cells', m.ring)
  {
    cells' := PutNext(cells, b, index, items, done, m, rank);
    SameStays(cells0, cells, m.ring, b, cells'[b]);
    index', done' := Next(index, m.Tail() + done), done + 1;
  }

  // Writes the items that belong in the block of the tail, from items[done] on.
  method FillBlock<T>(cells: map<BlockId, seq<Option<T>>>, b: Option<BlockId>, index: nat, newTailIndex: nat, items: seq<T>, done: nat,
                      ghost m: Model<T>, ghost rank: nat)
    returns (cells': map<BlockId, seq<Option<T>>>, index': nat, done': nat)
    requires done <= |items| <= HALF - 32
    requires Stored(cells, m.ring, m.tailBase, m.head, m.contents + items[..done]) && Distinct(m.ring) && m.tailBase % 32 == 0
    requires index == Word(m.Tail() + done) && newTailIndex == Word(m.Tail() + |items|)
    requires items != [] ==> rank < |m.ring| && b == Some(m.ring[rank]) && m.tailBase - 32 * (|m.ring| - 1 - rank) == Floor(m.Tail() + done)
    ensures m.Tail() + done' == Stop(m.Tail() + done, m.Tail() + |items|) && done <= done' <= |items|
    ensures index' == Word(m.Tail() + done')
    ensures Stored(cells', m.ring, m.tailBase, m.head, m.contents + items[..done'])
    ensures SameOutside(cells, cells', m.ring)
  {
    ghost var tail := m.Tail();
    var stop := BlockStop(index, newTailIndex, tail + done, tail + |items|);
    ghost var limit := Stop(tail + done, tail + |items|) - tail;
    cells', index', done' := cells, index, done;
    while index' != stop
      invariant done <= done' <= limit && index' == Word(tail + done')
      invariant Stored(cells', m.ring, m.tailBase, m.head, m.contents + items[..done'])
      invariant SameOutside(cells, cells', m.ring)
      decreases limit - done'
    {
      cells', index', done' := PutAndStep(cells', b.value, index', items, done', m, rank, cells);
    }
    WordIsInjective(tail + done', tail + limit);
  }

  // Fills the blocks from `startBlock` to `endBlock`, one at a time.
  method FillBlocks<T>(r: Rep<T>, startBlock: Option<BlockId>, endBlock: Option<BlockId>, startTailIndex: nat, newTailIndex: nat,
                       items: seq<T>, ghost m: Model<T>, ghost first: nat)
    returns (cells: map<BlockId, seq<Option<T>>>)
    requires Circular(m.ring, r.next, endBlock) && m.tailBase % 32 == 0
    requires Stored(r.cells, m.ring, m.tailBase, m.head, m.contents)
    requires startTailIndex == Word(m.Tail()) && newTailIndex == Word(m.Tail() + |items|) && |items| <= HALF - 32
    requires m.ring == [] ==> startBlock.None? && items == []
    requires m.ring != [] ==> first < |m.ring| && startBlock == Some(m.ring[first])
    requires if items == [] then m.ring != [] ==> first == |m.ring| - 1
             else m.tailBase - 32 * (|m.ring| - 1 - first) == Floor(m.Tail()) && m.tailBase < m.Tail() + |items| <= m.tailBase + 32
    ensures Stored(cells, m.ring, m.tailBase, m.head, m.contents + items)
  {
    cells := r.cells;
    ghost var n, tail := |m.ring|, m.Tail();
    var block, index, done := startBlock, startTailIndex, 0;
    ghost var k := first;
    assert m.contents + items[..0] == m.contents;
    while true
      invariant 0 <= done <= |items| && index == Word(tail + done)
      invariant n == 0 ==> block.None?
      invariant n > 0 ==> k < n && block == Some(m.ring[k]) && (items == [] ==> k == n - 1)
      invariant items != [] ==> m.tailBase - 32 * (n - 1 - k) == Floor(tail + done)
      invariant Stored(cells, m.ring, m.tailBase, m.head, m.contents + items[..done])
      decreases n - k
    {
      if items != [] {
        StopIsInBlock(m.tailBase, n, k, tail + done, tail + |items|);
      }
      cells, index, done := FillBlock(cells, block, index, newTailIndex, items, done, m, k);
      if n > 0 {
        NextInRing(m.ring, r.next, endBlock, k);
      }
      if block == endBlock {
        break;
      }
      block := Some(r.next[block.value]);
      k := k + 1;
    }
    assert items[..done] == items;
  }

  // ---------------------------------------------------------------------------------------
  // Emptying blocks
  // ---------------------------------------------------------------------------------------

  // What is left after the first k elements have been taken.
  ghost predicate StoredAfter<T>(cells: map<BlockId, seq<Option<T>>>, m: Model<T>, k: nat)
    requires k <= |m.contents|
  {
    Stored(cells, m.ring, m.tailBase, m.head + k, m.Taken(k).contents)
  }

  lemma {:induction false} TakenFits<T>(r: Rep<T>, m: Model<T>, n: nat, cells: map<BlockId, seq<Option<T>>>, flags: map<BlockId, seq<bool>>)
    requires Fits(r, m, 0) && m.TailIn(0) && n <= |m.contents|
    requires StoredAfter(cells, m, n) && Flagged(flags, m.ring, m.tailBase, m.head + n, 0)
    ensures Fits(r.(cells := cells, flags := flags), m.Taken(n), 0) && m.Taken(n).TailIn(0)
  {
  }

  // The counters of a consumer, n elements on.
  method CountTaken<T>(optimisticCount: nat, headIndex: nat, n: nat, ghost m: Model<T>, ghost overcommit: nat)
    returns (optimisticCount': nat, headIndex': nat, ghost m': Model<T>)
    requires n <= |m.contents| && optimisticCount == Word(m.head + overcommit) && headIndex == Word(m.head)
    ensures m' == m.Taken(n) && m'.Tail() == m.Tail()
    ensures optimisticCount' == Word(m'.head + overcommit) && headIndex' == Word(m'.head)
  {
    m' := m.Taken(n);
    optimisticCount' := Later(optimisticCount, n, m.head + overcommit);
    headIndex' := Later(headIndex, n, m.head);
  }

  // Finds the index slot of the block that a live index is in.
  method FindSlot(entries: seq<Entry>, front: nat, index: nat, ghost prFront: nat, ghost ring: seq<BlockId>, ghost tailBase: int, ghost i: int)
    returns (slot: nat, ghost rank: nat)
    requires Indexed(entries, prFront, ring, tailBase) && ring != [] && |ring| < MAX_BLOCKS && IndexSize(|entries|)
    requires front == Mask(Word(prFront - 1), |entries|) && index == Word(i)
    requires tailBase % 32 == 0 && tailBase - 32 * (|ring| - 1) <= i < tailBase + 32
    ensures rank < |ring| && tailBase - 32 * (|ring| - 1 - rank) == Floor(i)
    ensures slot < |entries| && entries[slot].block == ring[rank] && slot == Slot(prFront, |ring|, rank, |entries|)
  {
    LookupFindsBlock(entries, prFront, ring, tailBase, i);
    slot, rank := Lookup(entries, front, index), Rank(tailBase, |ring|, i);
  }

  // Takes the element after the first k.
  method TakeNext<T>(cells: map<BlockId, seq<Option<T>>>, b: BlockId, index: nat, ghost m: Model<T>, ghost k: nat, ghost rank: nat)
    returns (cells': map<BlockId, seq<Option<T>>>, x: T)
    requires k < |m.contents| && StoredAfter(cells, m, k) && Distinct(m.ring)
    requires rank < |m.ring| && m.ring[rank] == b && m.tailBase % 32 == 0
    requires m.tailBase - 32 * (|m.ring| - 1 - rank) <= m.head + k < m.tailBase - 32 * (|m.ring| - 1 - rank) + 32
    requires index == Word(m.head + k)
    ensures StoredAfter(cells', m, k + 1)
    ensures b in cells' && cells' == cells[b := cells'[b]]
    ensures x == m.contents[k]
  {
    ghost var head, contents := m.head + k, m.Taken(k).contents;
    BaseIsAligned(m.tailBase, |m.ring|, rank);
    SameBlock(m.tailBase - 32 * (|m.ring| - 1 - rank), head);
    TakeStored(cells, m.ring, m.tailBase, head, contents, rank);
    WordInBlock(head);
    assert contents[1..] == m.contents[k + 1..];
    x := cells[b][index % 32].value;
    cells' := cells[b := cells[b][index % 32 := None]];
  }

  method SetEmpty(flags: map<BlockId, seq<bool>>, b: BlockId, index: nat, ghost ring: seq<BlockId>, ghost tailBase: int, ghost head: int, ghost rank: nat)
    returns (flags': map<BlockId, seq<bool>>)
    requires Flagged(flags, ring, tailBase, head, 0) && Distinct(ring)
    requires rank < |ring| && ring[rank] == b && tailBase - 32 * (|ring| - 1 - rank) == Floor(head)
    requires index == Word(head)
    ensures Flagged(flags', ring, tailBase, head + 1, 0)
  {
    assert FlaggedAt(flags, ring, tailBase, head, 0, rank);
    WordInBlock(head);
    flags' := flags[b := flags[b][32 - 1 - index % 32 := true]];
    FlagTaken(flags, flags', ring, tailBase, head, head + 1, rank);
  }

  // Flags the indices from `first` up to `stop`, which lie in one block, as empty.
  method SetManyEmpty(flags: map<BlockId, seq<bool>>, b: BlockId, first: nat, stop: nat, ghost ring: seq<BlockId>, ghost tailBase: int,
                      ghost head: int, ghost head': int, ghost rank: nat)
    returns (flags': map<BlockId, seq<bool>>)
    requires Flagged(flags, ring, tailBase, head, 0) && Distinct(ring)
    requires rank < |ring| && ring[rank] == b && tailBase - 32 * (|ring| - 1 - rank) == Floor(head) && head <= head' <= Floor(head) + 32
    requires first == Word(head) && stop == Word(head')
    ensures Flagged(flags', ring, tailBase, head', 0)
  {
    assert FlaggedAt(flags, ring, tailBase, head, 0, rank);
    WordInBlock(head);
    WordOfDifference(head', head);
    var count := Word(stop - first);
    assert count == head' - head;
    var row := SetFlags(flags[b], 32 - 1 - first % 32 - count + 1, count, true);
    flags' := flags[b := row];
    FlagTaken(flags, flags', ring, tailBase, head, head', rank);
  }

  // One turn of a block's loop.
  method TakeAndStep<T>(cells: map<BlockId, seq<Option<T>>>, b: BlockId, index: nat, items: seq<T>, ghost m: Model<T>, ghost rank: nat)
    returns (cells': map<BlockId, seq<Option<T>>>, index': nat, items': seq<T>)
    requires |items| < |m.contents| && items == m.contents[..|items|] && StoredAfter(cells, m, |items|) && Distinct(m.ring)
    requires rank < |m.ring| && m.ring[rank] == b && m.tailBase % 32 == 0
    requires m.tailBase - 32 * (|m.ring| - 1 - rank) <= m.head + |items| < m.tailBase - 32 * (|m.ring| - 1 - rank) + 32
    requires index == Word(m.head + |items|)
    ensures |items'| == |items| + 1 && items' == m.contents[..|items'|]
    ensures StoredAfter(cells', m, |items'|) && index' == Word(m.head + |items'|)
  {
    var x;
    cells', x := TakeNext(cells, b, index, m, |items|, rank);
    index', items' := Next(index, m.head + |items|), items + [x];
  }

  // Takes the elements up to `stop`, which is in the block of the next one or just past it.
  method TakeUntil<T>(cells: map<BlockId, seq<Option<T>>>, b: BlockId, first: nat, stop: nat, taken: seq<T>,
                      ghost m: Model<T>, ghost rank: nat, ghost limit: nat)
    returns (cells': map<BlockId, seq<Option<T>>>, index: nat, items: seq<T>)
    requires |taken| <= limit <= |m.contents| <= HALF - 32 && taken == m.contents[..|taken|]
    requires StoredAfter(cells, m, |taken|) && Distinct(m.ring)
    requires rank < |m.ring| && m.ring[rank] == b && m.tailBase % 32 == 0
    requires m.tailBase - 32 * (|m.ring| - 1 - rank) <= m.head + |taken| && m.head + limit <= m.tailBase - 32 * (|m.ring| - 1 - rank) + 32
    requires first == Word(m.head + |taken|) && stop == Word(m.head + limit)
    ensures |items| == limit && items == m.contents[..limit] && index == stop
    ensures StoredAfter(cells', m, limit)
  {
    cells', index, items := cells, first, taken;
    while index != stop
      invariant |taken| <= |items| <= limit && index == Word(m.head + |items|)
      invariant items == m.contents[..|items|]
      invariant StoredAfter(cells', m, |items|)
      decreases limit - |items|
    {
      cells', index, items := TakeAndStep(cells', b, index, items, m, rank);
    }
    WordIsInjective(m.head + |items|, m.head + limit);
  }

  lemma {:induction false} StopLeadsOn(tailBase: int, n: nat, k: nat, i: int, e: int)
    requires tailBase % 32 == 0 && k < n && i < e <= tailBase + 32
    requires tailBase - 32 * (n - 1 - k) == Floor(i)
    ensures i < Stop(i, e) <= Floor(i) + 32 && Stop(i, e) <= e
    ensures Stop(i, e) < e ==> k + 1 < n && tailBase - 32 * (n - 2 - k) == Floor(Stop(i, e))
  {
  }

  // Takes the elements up to `end` that are in the block of the next one, and flags them empty.
  method TakeBlock<T>(cells: map<BlockId, seq<Option<T>>>, flags: map<BlockId, seq<bool>>, b: BlockId, first: nat, end: nat, taken: seq<T>,
                      ghost m: Model<T>, ghost rank: nat, ghost count: nat)
    returns (cells': map<BlockId, seq<Option<T>>>, flags': map<BlockId, seq<bool>>, index: nat, items: seq<T>)
    requires |taken| < count <= |m.contents| <= HALF - 32 && taken == m.contents[..|taken|]
    requires StoredAfter(cells, m, |taken|) && Distinct(m.ring)
    requires Flagged(flags, m.ring, m.tailBase, m.head + |taken|, 0)
    requires rank < |m.ring| && m.ring[rank] == b && m.tailBase % 32 == 0 && m.Tail() <= m.tailBase + 32
    requires m.tailBase - 32 * (|m.ring| - 1 - rank) == Floor(m.head + |taken|)
    requires first == Word(m.head + |taken|) && end == Word(m.head + count)
    ensures |taken| < |items| <= count && items == m.contents[..|items|] && index == Word(m.head + |items|)
    ensures |items| < count ==> rank + 1 < |m.ring| && m.tailBase - 32 * (|m.ring| - 2 - rank) == Floor(m.head + |items|)
    ensures StoredAfter(cells', m, |items|)
    ensures Flagged(flags', m.ring, m.tailBase, m.head + |items|, 0)
  {
    ghost var i, e := m.head + |taken|, m.head + count;
    StopLeadsOn(m.tailBase, |m.ring|, rank, i, e);
    ghost var limit := Stop(i, e) - m.head;
    var stop := BlockStop(first, end, i, e);
    cells', index, items := TakeUntil(cells, b, first, stop, taken, m, rank, limit);
    flags' := SetManyEmpty(flags, b, first, index, m.ring, m.tailBase, i, m.head + limit, rank);
  }

  // The same for the block in an index slot; and on to the next slot.
  method TakeIndexed<T>(r: Rep<T>, cells: map<BlockId, seq<Option<T>>>, flags: map<BlockId, seq<bool>>, slot: nat, first: nat, end: nat,
                        taken: seq<T>, ghost m: Model<T>, ghost rank: nat, ghost count: nat)
    returns (cells': map<BlockId, seq<Option<T>>>, flags': map<BlockId, seq<bool>>, index: nat, items: seq<T>, slot': nat)
    requires Fits(r, m, 0) && |taken| < count <= |m.contents| <= HALF - 32 && taken == m.contents[..|taken|]
    requires StoredAfter(cells, m, |taken|) && Flagged(flags, m.ring, m.tailBase, m.head + |taken|, 0)
    requires rank < |m.ring| && m.tailBase - 32 * (|m.ring| - 1 - rank) == Floor(m.head + |taken|)
    requires slot == Slot(r.prFront, |m.ring|, rank, |r.entries|) && first == Word(m.head + |taken|) && end == Word(m.head + count)
    ensures |taken| < |items| <= count && items == m.contents[..|items|] && index == Word(m.head + |items|)
    ensures |items| < count ==> rank + 1 < |m.ring| && m.tailBase - 32 * (|m.ring| - 2 - rank) == Floor(m.head + |items|)
    ensures StoredAfter(cells', m, |items|) && Flagged(flags', m.ring, m.tailBase, m.head + |items|, 0)
    ensures slot' == Slot(r.prFront, |m.ring|, rank + 1, |r.entries|)
  {
    assert IndexedAt(r.entries, r.prFront, m.ring, m.tailBase, rank);
    cells', flags', index, items := TakeBlock(cells, flags, r.entries[slot].block, first, end, taken, m, rank, count);
    NextSlot(r.prFront, |m.ring|, rank, |r.entries|);
    slot' := Mask(slot + 1, |r.entries|);
  }

  // Takes `count` elements, block by block, from the index slot of the head's block on.
  method TakeBlocks<T>(r: Rep<T>, slot: nat, firstIndex: nat, count: nat, ghost m: Model<T>, ghost rank: nat)
    returns (cells: map<BlockId, seq<Option<T>>>, flags: map<BlockId, seq<bool>>, items: seq<T>)
    requires Fits(r, m, 0) && firstIndex == Word(m.head) && 0 < count <= |m.contents| <= HALF - 32
    requires rank < |m.ring| && m.tailBase - 32 * (|m.ring| - 1 - rank) == Floor(m.head) && slot == Slot(r.prFront, |m.ring|, rank, |r.entries|)
    ensures items == m.contents[..count]
    ensures StoredAfter(cells, m, count)
    ensures Flagged(flags, m.ring, m.tailBase, m.head + count, 0)
  {
    ghost var n, head := |m.ring|, m.head;
    cells, flags, items := r.cells, r.flags, [];
    WordOfSum(head, count);
    var end := Word(firstIndex + count);
    var index, indexIndex := firstIndex, slot;
    ghost var k := rank;
    assert StoredAfter(cells, m, 0) by { assert m.contents[0..] == m.contents; }
    while true
      invariant |items| < count && items == m.contents[..|items|]
      invariant k < n && m.tailBase - 32 * (n - 1 - k) == Floor(head + |items|)
      invariant index == Word(head + |items|) && indexIndex == Slot(r.prFront, n, k, |r.entries|)
      invariant StoredAfter(cells, m, |items|)
      invariant Flagged(flags, m.ring, m.tailBase, head + |items|, 0)
      decreases n - k
    {
      cells, flags, index, items, indexIndex := TakeIndexed(r, cells, flags, indexIndex, index, end, items, m, k, count);
      if index == end {
        WordIsInjective(head + |items|, head + count);
        break;
      }
      k := k + 1;
    }
  }

  method FindBlock<T>(r: Rep<T>, front: nat, index: nat, ghost m: Model<T>) returns (b: BlockId, ghost rank: nat)
    requires Fits(r, m, 0) && m.TailIn(0) && front == Mask(Word(r.prFront - 1), |r.entries|)
    requires index == Word(m.head) && m.contents != []
    ensures rank < |m.ring| && m.tailBase - 32 * (|m.ring| - 1 - rank) == Floor(m.head) && b == m.ring[rank]
  {
    var slot;
    slot, rank := FindSlot(r.entries, front, index, r.prFront, m.ring, m.tailBase, m.head);
    b := r.entries[slot].block;
  }

  // Takes one element.
  method TakeFirst<T>(r: Rep<T>, front: nat, index: nat, ghost m: Model<T>, ghost m': Model<T>) returns (r': Rep<T>, x: T)
    requires Fits(r, m, 0) && m.TailIn(0) && front == Mask(Word(r.prFront - 1), |r.entries|)
    requires index == Word(m.head) && m.contents != [] && m' == m.Taken(1)
    ensures x == m.contents[0]
    ensures Fits(r', m', 0) && m'.TailIn(0) && r' == r.(cells := r'.cells, flags := r'.flags)
  {
    var b, rank := FindBlock(r, front, index, m);
    assert StoredAfter(r.cells, m, 0) by { assert m.contents[0..] == m.contents; }
    var cells, flags;
    cells, x := TakeNext(r.cells, b, index, m, 0, rank);
    flags := SetEmpty(r.flags, b, index, m.ring, m.tailBase, m.head, rank);
    TakenFits(r, m, 1, cells, flags);
    r' := r.(cells := cells, flags := flags);
  }

  // Takes `count` elements.
  method TakeFrom<T>(r: Rep<T>, front: nat, firstIndex: nat, count: nat, ghost m: Model<T>, ghost m': Model<T>)
    returns (r': Rep<T>, items: seq<T>)
    requires Fits(r, m, 0) && m.TailIn(0) && front == Mask(Word(r.prFront - 1), |r.entries|)
    requires firstIndex == Word(m.head) && 0 < count <= |m.contents| <= HALF - 32 && m' == m.Taken(count)
    ensures items == m.contents[..count]
    ensures Fits(r', m', 0) && m'.TailIn(0) && r' == r.(cells := r'.cells, flags := r'.flags)
  {
    var slot, rank := FindSlot(r.entries, front, firstIndex, r.prFront, m.ring, m.tailBase, m.head);
    var cells, flags;
    cells, flags, items := TakeBlocks(r, slot, firstIndex, count, m, rank);
    TakenFits(r, m, count, cells, flags);
    r' := r.(cells := cells, flags := flags);
  }

  // ---------------------------------------------------------------------------------------
  // The index grows
  // ---------------------------------------------------------------------------------------

  // The first n entries are those of the first n blocks.
  ghost predicate CopiedTo(entries: seq<Entry>, ring: seq<BlockId>, tailBase: int, n: nat)
    requires n <= |ring| && n <= |entries|
  {
    forall k :: 0 <= k < n ==> entries[k] == Entry(Word(tailBase - 32 * (|ring| - 1 - k)), ring[k])
  }

  lemma {:induction false} CopiedOneMore(entries: seq<Entry>, ring: seq<BlockId>, tailBase: int, n: nat, entry: Entry)
    requires n < |ring| && n < |entries| && CopiedTo(entries, ring, tailBase, n)
    requires entry == Entry(Word(tailBase - 32 * (|ring| - 1 - n)), ring[n])
    ensures CopiedTo(entries[n := entry], ring, tailBase, n + 1)
  {
  }

  lemma {:induction false} CopyNext(entries: seq<Entry>, front: nat, copied: seq<Entry>, ring: seq<BlockId>, tailBase: int, n: nat)
    requires Indexed(entries, front, ring, tailBase) && n < |ring| && n < |copied| && CopiedTo(copied, ring, tailBase, n)
    ensures CopiedTo(copied[n := entries[Slot(front, |ring|, n, |entries|)]], ring, tailBase, n + 1)
  {
    assert IndexedAt(entries, front, ring, tailBase, n);
    CopiedOneMore(copied, ring, tailBase, n, entries[Slot(front, |ring|, n, |entries|)]);
  }

  lemma {:induction false} FirstSlot(front: nat, n: nat, size: nat)
    requires IndexSize(size)
    ensures Mask(Word(front - n), size) == Slot(front, n, 0, size)
  {
    MaskOfWord(front - n, size);
  }

  // One turn of the loop below.
  method CopyEntry(entries: seq<Entry>, ghost front: nat, copied: seq<Entry>, i: nat, j: nat, ghost ring: seq<BlockId>, ghost tailBase: int)
    returns (copied': seq<Entry>, i': nat)
    requires Indexed(entries, front, ring, tailBase) && |copied| == 2 * |entries| && j < |ring| && i == Slot(front, |ring|, j, |entries|)
    requires CopiedTo(copied, ring, tailBase, j)
    ensures |copied'| == |copied| && CopiedTo(copied', ring, tailBase, j + 1)
    ensures i' == Slot(front, |ring|, j + 1, |entries|) && (i' == front <==> j + 1 == |ring|)
  {
    CopyNext(entries, front, copied, ring, tailBase, j);
    NextSlot(front, |ring|, j, |entries|);
    return copied[j := entries[i]], Mask(i + 1, |entries|);
  }

  // The entries from the oldest in slot `first` to the newest.
  method CopyEntries(entries: seq<Entry>, front: nat, first: nat, copied0: seq<Entry>, ghost ring: seq<BlockId>, ghost tailBase: int)
    returns (copied: seq<Entry>, j: nat)
    requires Indexed(entries, front, ring, tailBase) && |copied0| == 2 * |entries| && ring != []
    requires first == Slot(front, |ring|, 0, |entries|)
    ensures |copied| == |copied0| && j == |ring| && CopiedTo(copied, ring, tailBase, j)
  {
    var i := first;
    copied, j := copied0, 0;
    while true
      invariant 0 <= j < |ring| && i == Slot(front, |ring|, j, |entries|) && |copied| == |copied0|
      invariant CopiedTo(copied, ring, tailBase, j)
      decreases |ring| - j
    {
      copied, i := CopyEntry(entries, front, copied, i, j, ring, tailBase);
      j := j + 1;
      if i == front {
        break;
      }
    }
  }

  // The entries in use, oldest first, at the start of an index twice as large.
  method CopyIndex<T>(r: Rep<T>, ghost m: Model<T>) returns (entries: seq<Entry>, j: nat)
    requires Indexed(r.entries, r.prFront, m.ring, m.tailBase) && r.prSlotsUsed == |m.ring|
    requires IndexSize(|r.entries|)
    ensures |entries| == 2 * |r.entries| && j == |m.ring|
    ensures Indexed(entries, j, m.ring, m.tailBase)
  {
    var size := |r.entries|;
    entries, j := seq(2 * size, _ => Entry(0, 0)), 0;
    if r.prSlotsUsed != 0 {
      FirstSlot(r.prFront, r.prSlotsUsed, size);
      entries, j := CopyEntries(r.entries, r.prFront, Mask(Word(r.prFront - r.prSlotsUsed), size), entries, m.ring, m.tailBase);
    }
    CopiedIndex(entries, m.ring, m.tailBase);
  }

  // Exposing the slot that was written last.
  lemma {:induction false} ExposeNewest(slot: nat, size: nat)
    requires IndexSize(size) && slot < size
    ensures Mask(Word(Mask(slot + 1, size) - 1), size) == slot
  {
    MaskOfWord(Mask(slot + 1, size) - 1, size);
    ModOfMod(slot + 1, -1, size);
    ModUnique(slot, 0, slot, size);
  }

  // Exposing the entries copied into a new index.
  lemma {:induction false} ExposeOldest(used: nat, size: nat)
    requires 0 < used <= size && IndexSize(size)
    ensures Word(used - 1) == Mask(Word(used - 1), size)
  {
    WordOfSmall(used - 1);
    ModUnique(used - 1, 0, used - 1, size);
  }

  lemma WordOfSmall(n: nat)
    requires n < WORD
    ensures Word(n) == n
  {
  }

  lemma {:induction false} ReserveNew<T>(r: Rep<T>, m: Model<T>, reserved: nat, b: BlockId, startBlock: Option<BlockId>)
    requires Fits(r, m, reserved) && m.TailIn(reserved) && StartsAt(m, reserved, startBlock)
    requires b !in r.next && |m.ring| + 1 < MAX_BLOCKS
    ensures var m' := m.Advanced(b);
      && m'.Tail() == m.Tail() && m'.TailIn(reserved + 1) && StartsAt(m', reserved + 1, startBlock)
      && FirstReserved(m', reserved + 1) == if reserved == 0 then Some(b) else FirstReserved(m, reserved)
  {
    RingIsLinked(m.ring, r.next, r.tailBlock, b);
    ReserveOne(m, reserved, b, startBlock);
  }

  // How many blocks a bulk enqueue starts.
  lemma {:induction false} BlocksNeeded(tail: int, tailBase: int, count: nat, spare: nat) returns (blocks: nat)
    requires tailBase % 32 == 0 && tailBase < tail <= tailBase + 32
    requires Floor(tail + count - 1) <= tailBase + 32 * spare
    ensures blocks <= spare && Floor(tail + count - 1) == tailBase + 32 * blocks
    ensures Floor(tail - 1) == tailBase
    ensures if count == 0 then blocks == 0 else tailBase + 32 * blocks < tail + count <= tailBase + 32 * blocks + 32
    ensures count > 0 && tail == tailBase + 32 ==> blocks > 0
  {
    SameBlock(tailBase, tail - 1);
    blocks := (Floor(tail + count - 1) - tailBase) / 32;
  }

  lemma {:induction false} FloorOfSum(i: int, d: int)
    ensures Floor(Word(Word(i) + d)) == Word(Floor(i + d))
  {
    WordOfSum(i, d);
    FloorOfWord(i + d);
  }

  function FloorAfter(index: nat, d: int, ghost i: int): (base: int)
    requires index == Word(i)
    ensures base == Word(Floor(i + d))
  {
    FloorOfSum(i, d);
    Floor(Word(index + d))
  }

  lemma {:induction false} WordOfGap(base: int, gap: nat)
    requires gap < WORD
    ensures Word(Word(base + gap) - Word(base)) == gap
  {
    WordOfDifference(base + gap, base);
  }

  // The wrapped arithmetic of the source finds it.
  method BlocksToStart(tailIndex: nat, count: nat, ghost tail: int, ghost tailBase: int, ghost spare: nat)
    returns (currentTailIndex: nat, blockBaseDiff: nat, ghost blocks: nat)
    requires tailBase % 32 == 0 && tailBase < tail <= tailBase + 32 && tailIndex == Word(tail)
    requires Floor(tail + count - 1) <= tailBase + 32 * spare && 32 * spare < WORD
    ensures currentTailIndex == Word(tailBase) && blockBaseDiff == 32 * blocks && blocks <= spare
    ensures if count == 0 then blocks == 0 else tailBase + 32 * blocks < tail + count <= tailBase + 32 * blocks + 32
    ensures count > 0 && tail == tailBase + 32 ==> blocks > 0
  {
    blocks := BlocksNeeded(tail, tailBase, count, spare);
    currentTailIndex := FloorAfter(tailIndex, -1, tail);
    var last := FloorAfter(tailIndex, count - 1, tail);
    WordOfGap(tailBase, 32 * blocks);
    blockBaseDiff := Word(last - currentTailIndex);
  }

  // Which block of the ring the elements of a bulk enqueue start in: the first reserved one if
  // the tail was at the end of a block, and otherwise the one before.
  ghost function FillRank<T>(m: Model<T>, blocks: nat): int {
    if AtEnd(m, blocks) then |m.ring| - blocks else |m.ring| - 1 - blocks
  }

  ghost predicate AtEnd<T>(m: Model<T>, blocks: nat) { blocks > 0 && m.Tail() == m.tailBase - 32 * blocks + 32 }

  lemma {:induction false} AtEndIsAligned<T>(m: Model<T>, blocks: nat)
    requires m.Sized() && m.TailIn(blocks)
    ensures Word(m.Tail()) % 32 == 0 <==> m.Tail() == m.tailBase - 32 * blocks + 32
  {
    WordInBlock(m.Tail());
    BaseIsAligned(m.tailBase, blocks, -1);
    EndIsAligned(m.tailBase - 32 * blocks, m.Tail());
  }

  lemma EndIsAligned(base: int, i: int)
    requires base % 32 == 0 && base < i <= base + 32
    ensures i % 32 == 0 <==> i == base + 32
  {
  }

  lemma {:induction false} FillStart<T>(m: Model<T>, blocks: nat, count: nat, startBlock: Option<BlockId>)
    requires m.Sized() && m.TailIn(blocks) && StartsAt(m, blocks, startBlock) && m.ring != []
    requires if count == 0 then blocks == 0 else m.tailBase < m.Tail() + count <= m.tailBase + 32
    ensures 0 <= FillRank(m, blocks) < |m.ring|
    ensures (if AtEnd(m, blocks) then FirstReserved(m, blocks) else startBlock) == Some(m.ring[FillRank(m, blocks)])
    ensures count == 0 ==> FillRank(m, blocks) == |m.ring| - 1
    ensures count > 0 && (m.Tail() == m.tailBase - 32 * blocks + 32 ==> blocks > 0) ==>
      (m.tailBase - 32 * (|m.ring| - 1 - FillRank(m, blocks))) == Floor(m.Tail())
  {
    FillFloor(m.tailBase, blocks, m.Tail());
  }

  lemma {:induction false} FillFloor(tailBase: int, blocks: nat, tail: int)
    requires tailBase % 32 == 0 && tailBase - 32 * blocks < tail <= tailBase - 32 * blocks + 32
    ensures Floor(tail) == if tail == tailBase - 32 * blocks + 32 then tail else tailBase - 32 * blocks
  {
  }

  // What the dequeuers compute from the counters, when no other thread changes them.
  lemma {:induction false} Available<T>(m: Model<T>, overcommit: nat)
    requires m.Sized()
    ensures |m.contents| <= HALF - 32
    ensures Word(Word(m.head + overcommit) - Word(overcommit)) == Word(m.head)
    ensures CircularLess(Word(m.head), Word(m.Tail())) <==> m.contents != []
    ensures Word(Word(m.Tail()) - Word(m.head)) == |m.contents|
    ensures CircularLess(0, |m.contents|) <==> m.contents != []
  {
    WordOfDifference(m.head + overcommit, overcommit);
    CircularLessIsLess(m.head, m.Tail());
    WordOfDifference(m.Tail(), m.head);
    CircularLessIsLess(0, |m.contents|);
  }

  method Desired<T>(tailIndex: nat, optimisticCount: nat, over: nat, ghost m: Model<T>, ghost overcommit: nat) returns (desired: nat)
    requires m.Sized() && tailIndex == Word(m.Tail()) && optimisticCount == Word(m.head + overcommit) && over == Word(overcommit)
    ensures desired == |m.contents| <= HALF - 32
    ensures CircularLess(0, desired) <==> m.contents != []
  {
    Available(m, overcommit);
    var effective := Word(optimisticCount - over);
    desired := Word(tailIndex - effective);
  }

  lemma {:induction false} TailIsAligned<T>(m: Model<T>)
    requires m.Sized() && m.TailIn(0)
    ensures Word(m.Tail()) % 32 == m.Tail() % 32
    ensures m.Tail() % 32 == 0 <==> m.Tail() == m.tailBase + 32
    ensures m.Tail() % 32 != 0 ==> m.ring != []
  {
    WordInBlock(m.Tail());
    EndIsAligned(m.tailBase, m.Tail());
  }

  // There is always leeway for another block, as long as the blocks fit in memory.
  lemma {:induction false} HasLeeway<T>(m: Model<T>)
    requires m.Sized() && |m.ring| + 1 < MAX_BLOCKS
    ensures CircularLess(Word(m.head), Word(Word(m.tailBase + 32) + 32))
  {
    WordOfSum(m.tailBase + 32, 32);
    CircularLessIsLess(m.head, m.tailBase + 64);
  }

  lemma {:induction false} IndexSizeDoubles(size: nat)
    requires IndexSize(size) && size <= MAX_BLOCKS
    ensures IndexSize(2 * size)
  {
    assert 2 * size / 2 == size;
  }

  // Where the block that holds the last element, if it has room, is once blocks are reserved.
  ghost predicate StartsAt<T>(m: Model<T>, reserved: nat, startBlock: Option<BlockId>) {
    if reserved == 0 then startBlock == if m.ring == [] then None else Some(m.ring[|m.ring| - 1])
    else m.Tail() != m.tailBase - 32 * reserved + 32 ==> reserved < |m.ring| && startBlock == Some(m.ring[|m.ring| - 1 - reserved])
  }

  ghost function FirstReserved<T>(m: Model<T>, reserved: nat): Option<BlockId>
    requires reserved <= |m.ring|
  {
    if reserved == 0 then None else Some(m.ring[|m.ring| - reserved])
  }

  lemma {:induction false} FirstIsAhead<T>(r: Rep<T>, m: Model<T>, reserved: nat)
    requires Fits(r, m, reserved) && m.ring != [] && reserved <= |m.ring|
    ensures r.tailBlock.Some? && r.tailBlock.value in r.next && r.next[r.tailBlock.value] == m.ring[0]
    ensures reserved > 0 ==> (m.ring[0] == m.ring[|m.ring| - reserved] <==> reserved == |m.ring|)
  {
    AdvanceCircular(m.ring, r.next, r.tailBlock);
    if 0 < reserved < |m.ring| {
      Others(m.ring, 0, |m.ring| - reserved);
    }
  }

  // What is ahead can be reused until as many blocks are reserved as had been emptied.
  lemma {:induction false} ReuseCounts<T>(m0: Model<T>, m: Model<T>, reserved: nat)
    requires m0.Sized() && m.head == m0.head && |m.ring| == |m0.ring| && m.tailBase == m0.tailBase + 32 * reserved
    ensures m.CanReuse(reserved) <==> reserved < m0.Reusable()
  {
  }

  // The pool from i on holds no block of the list.
  ghost predicate Unused(linked: set<BlockId>, pool: seq<BlockId>, i: nat) {
    forall j :: i <= j < |pool| ==> pool[j] !in linked
  }

  lemma {:induction false} StillUnused(linked: set<BlockId>, pool: seq<BlockId>, i: nat)
    requires Distinct(pool) && Unused(linked, pool, i) && i < |pool|
    ensures pool[i] !in linked && Unused(linked + {pool[i]}, pool, i + 1)
  {
    forall j | i < j < |pool| ensures pool[j] != pool[i] {
      Others(pool, i, j);
    }
  }

  // A bulk enqueue has put `reserved` blocks after the tail, the first of them `first`.
  ghost predicate Reserving<T>(r: Rep<T>, m: Model<T>, reserved: nat, first: Option<BlockId>, startBlock: Option<BlockId>) {
    && Fits(r, m, reserved) && m.TailIn(reserved)
    && first == FirstReserved(m, reserved)
    && StartsAt(m, reserved, startBlock)
  }

  lemma {:induction false} ReserveOne<T>(m: Model<T>, reserved: nat, b: BlockId, startBlock: Option<BlockId>)
    requires m.Sized() && m.TailIn(reserved) && StartsAt(m, reserved, startBlock)
    requires if m.ring != [] && m.ring[0] == b then m.CanReuse(reserved) else |m.ring| + 1 < MAX_BLOCKS
    ensures var m' := m.Advanced(b);
      && m'.TailIn(reserved + 1) && StartsAt(m', reserved + 1, startBlock)
      && FirstReserved(m', reserved + 1) == if reserved == 0 then Some(b) else FirstReserved(m, reserved)
  {
    AdvanceIsSized(m, reserved, b);
  }

  // ---------------------------------------------------------------------------------------
  // The producer
  // ---------------------------------------------------------------------------------------

  class ExplicitProducer<T(!new)> {
    var tailIndex: nat
    var headIndex: nat
    var dequeueOptimisticCount: nat
    var dequeueOvercommit: nat
    var rep: Rep<T>
    var front: nat                 // the newest slot of the index a consumer may look at

    ghost var m: Model<T>
    ghost var overcommit: nat      // the true value of dequeueOvercommit

    ghost predicate Counters()
      reads this
    {
      && tailIndex == Word(m.Tail())
      && headIndex == Word(m.head)
      && dequeueOvercommit == Word(overcommit)
      && dequeueOptimisticCount == Word(m.head + overcommit)
    }

    ghost predicate Exposed()
      reads this
    {
      |rep.entries| > 0 && (m.ring != [] ==> front == Mask(Word(rep.prFront - 1), |rep.entries|))
    }

    ghost predicate Built()
      reads this
    {
      Fits(rep, m, 0) && m.TailIn(0) && Exposed()
    }

    ghost predicate Valid()
      reads this
    {
      Built() && Counters()
    }

    constructor ()
      ensures Valid() && m.contents == []
    {
      tailIndex, headIndex, dequeueOptimisticCount, dequeueOvercommit := 0, 0, 0, 0;
      rep := Rep(None, map[], map[], map[], seq(32, _ => Entry(0, 0)), 0, 0);
      front := 0;
      m, overcommit := Model([], 0, [], -32), 0;
      new;
      assert PowerOfTwo(4) && PowerOfTwo(32);
    }

    // Moves to an index twice as large. Fails if there is no memory.
    method NewBlockIndex(filledSlotsToExpose: nat, hasMemory: bool, ghost reserved: nat) returns (ok: bool)
      requires Fits(rep, m, reserved) && |rep.entries| <= MAX_BLOCKS
      modifies this`rep, this`front
      ensures Fits(rep, m, reserved) && ok == hasMemory
      ensures ok ==> |rep.entries| == 2 * old(|rep.entries|) && rep.prFront == |m.ring| && front == Word(filledSlotsToExpose - 1)
      ensures !ok ==> rep == old(rep) && front == old(front)
      ensures rep.next == old(rep.next) && rep.tailBlock == old(rep.tailBlock) && rep.prSlotsUsed == old(rep.prSlotsUsed)
    {
      if !hasMemory {
        return false;
      }
      var entries, j := CopyIndex(rep, m);
      IndexSizeDoubles(|rep.entries|);
      front := Word(filledSlotsToExpose - 1);
      rep := rep.(entries := entries, prFront := j);
      return true;
    }

    // Makes the block after the tail the tail, and indexes it.
    method ReuseBlockAhead(base: nat, ghost reserved: nat)
      requires Fits(rep, m, reserved) && m.CanReuse(reserved) && base == Word(m.tailBase + 32)
      modifies this`rep, this`m
      ensures Fits(rep, m, reserved + 1)
      ensures m == old(m).Advanced(old(m).ring[0]) && rep.next == old(rep.next)
      ensures |rep.entries| == old(|rep.entries|) && rep.prFront == Mask(old(rep.prFront) + 1, |rep.entries|)
    {
      EmptyMeansReusable(rep, m, reserved);
      ReuseFits(rep, m, reserved);
      var r := rep.(tailBlock := Some(rep.next[rep.tailBlock.value]));
      r := r.(entries := r.entries[r.prFront := Entry(base, r.tailBlock.value)]);
      rep := r.(prFront := Mask(r.prFront + 1, |r.entries|));
      m := m.Advanced(m.ring[0]);
    }

    // Puts a new block, flagged empty, after the tail, makes it the tail, and indexes it.
    method InsertBlock(b: BlockId, base: nat, ghost reserved: nat)
      requires Fits(rep, m, reserved) && |m.ring| < |rep.entries| && |m.ring| + 1 < MAX_BLOCKS
      requires b !in rep.next && base == Word(m.tailBase + 32)
      modifies this`rep, this`m
      ensures Fits(rep, m, reserved + 1)
      ensures m == old(m).Advanced(b) && m.ring == old(m.ring) + [b]
      ensures |rep.entries| == old(|rep.entries|) && rep.prFront == Mask(old(rep.prFront) + 1, |rep.entries|)
      ensures rep.next.Keys == old(rep.next.Keys) + {b}
    {
      rep := Inserted(rep, b, base, m, reserved);
      m := m.Advanced(b);
    }

    // Clears the flags of the first reserved block.
    method ResetEmpty(b: BlockId, ghost reserved: nat)
      requires Fits(rep, m, reserved) && 0 < reserved <= |m.ring| && b == m.ring[|m.ring| - reserved]
      requires m.head <= m.tailBase - 32 * (reserved - 1)
      modifies this`rep
      ensures Fits(rep, m, reserved - 1) && rep == old(rep).(flags := rep.flags)
    {
      assert FlaggedAt(rep.flags, m.ring, m.tailBase, m.head, reserved, |m.ring| - reserved);
      var row := SetFlags(rep.flags[b], 0, 32, false);
      assert row == AllFlags(false);
      ClearReserved(rep.flags, m.ring, m.tailBase, m.head, reserved);
      rep := rep.(flags := rep.flags[b := row]);
    }

    // Whether a block can be had for the elements from a multiple of 32 on.
    ghost predicate CanStart(newBlock: Option<BlockId>, hasMemory: bool)
      reads this
    {
      m.CanReuse(0) || (newBlock.Some? && (|m.ring| < |rep.entries| || hasMemory))
    }

    // The block just put in place is about to be filled, and the consumers may see it.
    method OpenBlock(slot: nat)
      requires Fits(rep, m, 1) && m.ring != [] && m.Tail() == m.tailBase && slot < |rep.entries| && rep.prFront == Mask(slot + 1, |rep.entries|)
      modifies this`rep, this`front
      ensures Fits(rep, m, 0) && Exposed()
      ensures rep.next == old(rep.next)
    {
      ResetEmpty(rep.tailBlock.value, 1);
      ExposeNewest(slot, |rep.entries|);
      front := slot;
    }

    // There is a block ahead to reuse.
    method StartAhead()
      requires Built() && m.Tail() == m.tailBase + 32 && m.CanReuse(0) && tailIndex == Word(m.Tail())
      modifies this`rep, this`m, this`front
      ensures Fits(rep, m, 0) && m.ring != [] && m.Tail() == m.tailBase && Exposed()
      ensures m.contents == old(m).contents && m.head == old(m).head
    {
      var slot := rep.prFront;
      ReuseBlockAhead(tailIndex, 0);
      OpenBlock(slot);
    }

    // Makes sure the index has a free slot.
    method MakeRoom(hasMemory: bool) returns (room: bool)
      requires Built()
      modifies this`rep, this`front
      ensures Built() && rep.next == old(rep.next)
      ensures room <==> old(|m.ring| < |rep.entries|) || hasMemory
      ensures room ==> |m.ring| < |rep.entries|
    {
      if rep.prSlotsUsed == |rep.entries| {
        room := NewBlockIndex(rep.prSlotsUsed, hasMemory, 0);
        if room {
          ExposeOldest(|m.ring|, |rep.entries|);
        }
      } else {
        room := true;
      }
    }

    method StartFresh(b: BlockId)
      requires Built() && m.Tail() == m.tailBase + 32 && |m.ring| < |rep.entries| && tailIndex == Word(m.Tail())
      requires b !in rep.next && |m.ring| + 1 < MAX_BLOCKS
      modifies this`rep, this`m, this`front
      ensures Fits(rep, m, 0) && m.ring != [] && m.Tail() == m.tailBase && Exposed()
      ensures m.contents == old(m).contents && m.head == old(m).head
    {
      var slot := rep.prFront;
      InsertBlock(b, tailIndex, 0);
      OpenBlock(slot);
    }

    // A block has to come from the pool.
    method StartNew(newBlock: Option<BlockId>, hasMemory: bool) returns (ok: bool)
      requires Built() && m.Tail() == m.tailBase + 32 && !m.CanReuse(0) && tailIndex == Word(m.Tail()) && headIndex == Word(m.head)
      requires newBlock.Some? ==> newBlock.value !in rep.next && |m.ring| + 1 < MAX_BLOCKS
      modifies this`rep, this`m, this`front
      ensures ok <==> newBlock.Some? && (old(|m.ring| < |rep.entries|) || hasMemory)
      ensures !ok ==> Built() && m == old(m)
      ensures ok ==> Fits(rep, m, 0) && m.ring != [] && m.Tail() == m.tailBase && Exposed()
      ensures m.contents == old(m).contents && m.head == old(m).head
    {
      if newBlock.Some? {
        HasLeeway(m);
      }
      if !CircularLess(headIndex, Word(tailIndex + 32)) {
        return false;
      }
      var room := MakeRoom(hasMemory);
      if !room {
        return false;
      }
      if newBlock.None? {
        return false;
      }
      StartFresh(newBlock.value);
      return true;
    }

    // Every block is full: starts a new one.
    method StartBlock(newBlock: Option<BlockId>, hasMemory: bool) returns (ok: bool)
      requires Built() && m.Tail() == m.tailBase + 32 && tailIndex == Word(m.Tail()) && headIndex == Word(m.head)
      requires newBlock.Some? ==> newBlock.value !in rep.next && |m.ring| + 1 < MAX_BLOCKS
      modifies this`rep, this`m, this`front
      ensures ok <==> old(CanStart(newBlock, hasMemory))
      ensures !ok ==> Built() && m == old(m)
      ensures ok ==> Fits(rep, m, 0) && m.ring != [] && m.Tail() == m.tailBase && Exposed()
      ensures m.contents == old(m).contents && m.head == old(m).head
    {
      if rep.tailBlock.Some? {
        EmptyMeansReusable(rep, m, 0);
        var aheadIsEmpty := IsEmpty(rep.flags[rep.next[rep.tailBlock.value]]);
        if aheadIsEmpty {
          StartAhead();
          return true;
        }
      }
      ok := StartNew(newBlock, hasMemory);
    }

    // Constructs an element at the tail.
    method Put(x: T)
      requires Fits(rep, m, 0) && m.ring != [] && m.tailBase <= m.Tail() < m.tailBase + 32 && Exposed() && tailIndex == Word(m.Tail())
      modifies this`rep, this`tailIndex, this`m
      ensures Built() && m == old(m).(contents := old(m).contents + [x]) && tailIndex == Word(m.Tail())
    {
      WordInBlock(m.Tail());
      PutStored(rep.cells, m.ring, m.tailBase, m.head, m.contents, x, |m.ring| - 1);
      var b := rep.tailBlock.value;
      rep := rep.(cells := rep.cells[b := rep.cells[b][tailIndex % 32 := Some(x)]]);
      tailIndex := Next(tailIndex, m.Tail());
      m := m.(contents := m.contents + [x]);
    }

    // Fails only at the end of a block for want of a block or of memory for the index.
    method Enqueue(x: T, newBlock: Option<BlockId>, hasMemory: bool) returns (ok: bool)
      requires Valid()
      requires newBlock.Some? ==> newBlock.value !in rep.next && |m.ring| + 1 < MAX_BLOCKS
      modifies this
      ensures Valid()
      ensures ok <==> old(m.Tail()) % 32 != 0 || old(CanStart(newBlock, hasMemory))
      ensures m.contents == old(m).contents + (if ok then [x] else []) && m.head == old(m).head
    {
      TailIsAligned(m);
      if tailIndex % 32 == 0 {
        var started := StartBlock(newBlock, hasMemory);
        if !started {
          return false;
        }
      }
      Put(x);
      return true;
    }

    // Fails exactly if there is nothing to take. (The source checks again after taking its
    // ticket; that check can only fail against other consumers.)
    method Dequeue() returns (r: Option<T>)
      requires Valid()
      modifies this`headIndex, this`dequeueOptimisticCount, this`rep, this`m
      ensures Valid()
      ensures old(m).contents == [] ==> r == None && m == old(m)
      ensures old(m).contents != [] ==> r == Some(old(m).contents[0])
      ensures old(m).contents != [] ==> m == old(m).Taken(1)
    {
      Available(m, overcommit);
      if !CircularLess(Word(dequeueOptimisticCount - dequeueOvercommit), tailIndex) {
        return None;
      }
      var ticket := dequeueOptimisticCount;
      assert CircularLess(Word(ticket - dequeueOvercommit), tailIndex);
      var x := TakeOne();
      return Some(x);
    }

    // Moves the first element out of its block.
    method TakeOne() returns (x: T)
      requires Valid() && m.contents != []
      modifies this`headIndex, this`dequeueOptimisticCount, this`rep, this`m
      ensures Valid()
      ensures x == old(m).contents[0] && m == old(m).Taken(1)
    {
      var index := headIndex;
      ghost var m';
      dequeueOptimisticCount, headIndex, m' := CountTaken(dequeueOptimisticCount, headIndex, 1, m, overcommit);
      rep, x := TakeFirst(rep, front, index, m, m');
      m := m';
    }

    // Moves `count` elements out of their blocks.
    method TakeMany(count: nat) returns (items: seq<T>)
      requires Valid() && 0 < count <= |m.contents| <= HALF - 32
      modifies this`headIndex, this`dequeueOptimisticCount, this`rep, this`m
      ensures Valid()
      ensures items == old(m).contents[..count] && m == old(m).Taken(count)
    {
      var firstIndex := headIndex;
      ghost var m';
      dequeueOptimisticCount, headIndex, m' := CountTaken(dequeueOptimisticCount, headIndex, count, m, overcommit);
      rep, items := TakeFrom(rep, front, firstIndex, count, m, m');
      m := m';
    }

    // Takes as many as there are, up to `max`.
    method DequeueBulk(max: nat) returns (items: seq<T>)
      requires Valid()
      modifies this`headIndex, this`dequeueOptimisticCount, this`rep, this`m
      ensures Valid()
      ensures var count := if max < |old(m).contents| then max else |old(m).contents|;
        items == old(m).contents[..count] && m == old(m).Taken(count)
    {
      var desired := Desired(tailIndex, dequeueOptimisticCount, dequeueOvercommit, m, overcommit);
      items := [];
      if CircularLess(0, desired) {
        var count := if desired < max then desired else max;
        if count > 0 {
          items := TakeMany(count);
        }
      }
    }

    method AheadIsFree(first: Option<BlockId>, ghost reserved: nat, ghost startBlock: Option<BlockId>) returns (free: bool)
      requires Reserving(rep, m, reserved, first, startBlock)
      ensures free <==> m.CanReuse(reserved)
    {
      if rep.tailBlock.None? {
        return false;
      }
      FirstIsAhead(rep, m, reserved);
      var ahead := rep.next[rep.tailBlock.value];
      if first == Some(ahead) {
        return false;
      }
      EmptyMeansReusable(rep, m, reserved);
      free := IsEmpty(rep.flags[ahead]);
    }

    method ReserveOneAhead(current: nat, first: Option<BlockId>, ghost reserved: nat, ghost startBlock: Option<BlockId>)
      returns (current': nat, first': Option<BlockId>)
      requires Reserving(rep, m, reserved, first, startBlock) && m.CanReuse(reserved) && current == Word(m.tailBase)
      modifies this`rep, this`m
      ensures Reserving(rep, m, reserved + 1, first', startBlock) && current' == Word(m.tailBase)
      ensures m == old(m).Advanced(old(m).ring[0]) && rep.next == old(rep.next)
    {
      ReserveOne(m, reserved, m.ring[0], startBlock);
      current' := Later(current, 32, m.tailBase);
      ReuseBlockAhead(current', reserved);
      first' := if first.None? then rep.tailBlock else first;
    }

    // One turn of the loop below. The loop began with the elements and blocks of m0.
    method ReserveAndLook(current: nat, first: Option<BlockId>, ghost m0: Model<T>, ghost reserved: nat, ghost startBlock: Option<BlockId>)
      returns (current': nat, first': Option<BlockId>, free: bool)
      requires Reserving(rep, m, reserved, first, startBlock) && reserved < m0.Reusable() && current == Word(m.tailBase)
      requires m0.Sized() && m.head == m0.head && |m.ring| == |m0.ring| && m.tailBase == m0.tailBase + 32 * reserved
      modifies this`rep, this`m
      ensures Reserving(rep, m, reserved + 1, first', startBlock) && current' == Word(m.tailBase)
      ensures free <==> reserved + 1 < m0.Reusable()
      ensures m.tailBase == old(m).tailBase + 32 && |m.ring| == old(|m.ring|)
      ensures m.contents == old(m).contents && m.head == old(m).head && rep.next == old(rep.next)
    {
      ReuseCounts(m0, m, reserved);
      current', first' := ReserveOneAhead(current, first, reserved, startBlock);
      free := AheadIsFree(first', reserved + 1, startBlock);
      ReuseCounts(m0, m, reserved + 1);
    }

    // Takes as many of the needed blocks as possible from ahead.
    method ReserveAhead(blockBaseDiff: nat, currentTailIndex: nat, ghost blocks: nat, ghost startBlock: Option<BlockId>)
      returns (diff: nat, current: nat, first: Option<BlockId>, ghost reserved: nat)
      requires Reserving(rep, m, 0, None, startBlock) && blockBaseDiff == 32 * blocks && currentTailIndex == Word(m.tailBase)
      modifies this`rep, this`m
      ensures Reserving(rep, m, reserved, first, startBlock) && current == Word(m.tailBase)
      ensures reserved == (if blocks < old(m).Reusable() then blocks else old(m).Reusable()) && diff == 32 * (blocks - reserved)
      ensures m.tailBase == old(m).tailBase + 32 * reserved && |m.ring| == old(|m.ring|)
      ensures m.contents == old(m).contents && m.head == old(m).head && rep.next == old(rep.next)
    {
      diff, current, first, reserved := blockBaseDiff, currentTailIndex, None, 0;
      var free := AheadIsFree(first, reserved, startBlock);
      ghost var m0, next0 := m, rep.next;
      ReuseCounts(m0, m, reserved);
      while diff > 0 && free
        invariant Reserving(rep, m, reserved, first, startBlock) && current == Word(m.tailBase)
        invariant free <==> reserved < m0.Reusable()
        invariant reserved <= blocks && reserved <= m0.Reusable() && diff == 32 * (blocks - reserved)
        invariant m.tailBase == m0.tailBase + 32 * reserved && |m.ring| == |m0.ring|
        invariant m.contents == m0.contents && m.head == m0.head && rep.next == next0
        decreases blocks - reserved
      {
        diff := diff - 32;
        current, first, free := ReserveAndLook(current, first, m0, reserved, startBlock);
        reserved := reserved + 1;
      }
    }

    method ReserveOneFresh(current: nat, first: Option<BlockId>, b: BlockId, originalSlotsUsed: nat,
                           ghost reserved: nat, ghost startBlock: Option<BlockId>)
      returns (current': nat, first': Option<BlockId>)
      requires Reserving(rep, m, reserved, first, startBlock) && current == Word(m.tailBase)
      requires b !in rep.next && |m.ring| + 1 < MAX_BLOCKS && headIndex == Word(m.head)
      modifies this`rep, this`m, this`front
      ensures Reserving(rep, m, reserved + 1, first', startBlock) && current' == Word(m.tailBase)
      ensures m == old(m).Advanced(b) && m.ring == old(m).ring + [b] && rep.next.Keys == old(rep.next.Keys) + {b}
    {
      current' := Later(current, 32, m.tailBase);
      ReserveNew(rep, m, reserved, b, startBlock);
      GrowForBulk(current', originalSlotsUsed, reserved);
      InsertBlock(b, current', reserved);
      first' := if first.None? then rep.tailBlock else first;
    }

    // There is leeway for the block at `base`, and a free slot in the index once it has grown.
    method GrowForBulk(base: nat, originalSlotsUsed: nat, ghost reserved: nat)
      requires Fits(rep, m, reserved) && headIndex == Word(m.head) && |m.ring| + 1 < MAX_BLOCKS && base == Word(m.tailBase + 32)
      modifies this`rep, this`front
      ensures Fits(rep, m, reserved) && |m.ring| < |rep.entries| && rep.next == old(rep.next) && rep.tailBlock == old(rep.tailBlock)
    {
      HasLeeway(m);
      assert CircularLess(headIndex, Word(base + 32));
      if rep.prSlotsUsed == |rep.entries| {
        var grown := NewBlockIndex(originalSlotsUsed, true, reserved);
      }
    }

    // Takes the rest of the needed blocks from the pool.
    method ReserveFresh(blockBaseDiff: nat, currentTailIndex: nat, firstAhead: Option<BlockId>, originalSlotsUsed: nat, pool: seq<BlockId>,
                        ghost blocks: nat, ghost ahead: nat, ghost startBlock: Option<BlockId>)
      returns (first: Option<BlockId>, ghost reserved: nat)
      requires Reserving(rep, m, ahead, firstAhead, startBlock) && blockBaseDiff == 32 * blocks && currentTailIndex == Word(m.tailBase)
      requires Distinct(pool) && blocks <= |pool| && |m.ring| + |pool| < MAX_BLOCKS && headIndex == Word(m.head)
      requires forall b :: b in pool ==> b !in rep.next
      modifies this`rep, this`m, this`front
      ensures Reserving(rep, m, reserved, first, startBlock) && reserved == ahead + blocks
      ensures m.tailBase == old(m).tailBase + 32 * blocks
      ensures m.contents == old(m).contents && m.head == old(m).head
    {
      var diff, current, i := blockBaseDiff, currentTailIndex, 0;
      first, reserved := firstAhead, ahead;
      ghost var m0 := m;
      while diff > 0
        invariant Reserving(rep, m, reserved, first, startBlock) && reserved == ahead + i && current == Word(m.tailBase)
        invariant 0 <= i <= blocks && diff == 32 * (blocks - i)
        invariant m.tailBase == m0.tailBase + 32 * i && |m.ring| == |m0.ring| + i
        invariant m.contents == m0.contents && m.head == m0.head
        invariant Unused(rep.next.Keys, pool, i)
        decreases blocks - i
      {
        diff := diff - 32;
        StillUnused(rep.next.Keys, pool, i);
        current, first := ReserveOneFresh(current, first, pool[i], originalSlotsUsed, reserved, startBlock);
        i, reserved := i + 1, reserved + 1;
      }
    }

    // All the reserved blocks are about to be filled.
    method ResetReserved(first: Option<BlockId>, ghost reserved: nat, ghost startBlock: Option<BlockId>)
      requires Reserving(rep, m, reserved, first, startBlock) && reserved > 0
      modifies this`rep
      ensures Fits(rep, m, 0) && m.TailIn(reserved) && rep == old(rep).(flags := rep.flags)
    {
      var block := first.value;
      ghost var left := reserved;
      while true
        invariant 0 < left <= reserved && block == m.ring[|m.ring| - left]
        invariant Fits(rep, m, left) && rep == old(rep).(flags := rep.flags)
        decreases left
      {
        ResetEmpty(block, left);
        NextInRing(m.ring, rep.next, rep.tailBlock, |m.ring| - left);
        left := left - 1;
        if Some(block) == rep.tailBlock {
          break;
        }
        block := rep.next[block];
      }
    }

    // Puts `blocks` blocks after the tail, ready to be filled, and exposes them.
    method ReserveBlocks(blockBaseDiff: nat, currentTailIndex: nat, pool: seq<BlockId>, ghost blocks: nat)
      returns (first: Option<BlockId>)
      requires Built() && headIndex == Word(m.head) && 0 < blocks <= |pool| + m.Reusable() && blockBaseDiff == 32 * blocks && currentTailIndex == Word(m.tailBase)
      requires Distinct(pool) && |m.ring| + |pool| < MAX_BLOCKS
      requires forall b :: b in pool ==> b !in rep.next
      modifies this`rep, this`m, this`front
      ensures Fits(rep, m, 0) && m.TailIn(blocks) && Exposed()
      ensures first == FirstReserved(m, blocks) && StartsAt(m, blocks, old(rep.tailBlock))
      ensures m.tailBase == old(m).tailBase + 32 * blocks
      ensures m.contents == old(m).contents && m.head == old(m).head
    {
      var originalSlotsUsed := rep.prSlotsUsed;
      ghost var startBlock := rep.tailBlock;
      var diff, current;
      ghost var reserved;
      diff, current, first, reserved := ReserveAhead(blockBaseDiff, currentTailIndex, blocks, startBlock);
      first, reserved := ReserveFresh(diff, current, first, originalSlotsUsed, pool, blocks - reserved, reserved, startBlock);
      ResetReserved(first, reserved, startBlock);
      front := Mask(Word(rep.prFront - 1), |rep.entries|);
    }

    // Puts all of `items` after the tail. There must be enough blocks, read to their end or in the pool.
    method EnqueueBulk(items: seq<T>, pool: seq<BlockId>)
      requires Valid()
      requires Floor(m.Tail() + |items| - 1) <= m.tailBase + 32 * (|pool| + m.Reusable())
      requires Distinct(pool) && |m.ring| + |pool| < MAX_BLOCKS
      requires forall b :: b in pool ==> b !in rep.next
      modifies this
      ensures Valid()
      ensures m.contents == old(m).contents + items && m.head == old(m).head
    {
      var startBlock, count := rep.tailBlock, |items|;
      var currentTailIndex, blockBaseDiff;
      ghost var blocks;
      currentTailIndex, blockBaseDiff, blocks := BlocksToStart(tailIndex, count, m.Tail(), m.tailBase, |pool| + m.Reusable());
      var first := None;
      if blockBaseDiff > 0 {
        first := ReserveBlocks(blockBaseDiff, currentTailIndex, pool, blocks);
      }
      FillReserved(startBlock, first, items, blocks);
    }

    // Constructs the items, in the reserved blocks once the block of the tail is full.
    method FillReserved(startBlock: Option<BlockId>, first: Option<BlockId>, items: seq<T>, ghost blocks: nat)
      requires Fits(rep, m, 0) && m.TailIn(blocks) && Exposed()
      requires first == FirstReserved(m, blocks) && StartsAt(m, blocks, startBlock) && |items| <= HALF - 32 && tailIndex == Word(m.Tail())
      requires if items == [] then blocks == 0 else m.tailBase < m.Tail() + |items| <= m.tailBase + 32
      requires items != [] && m.Tail() == m.tailBase - 32 * blocks + 32 ==> blocks > 0
      modifies this`rep, this`tailIndex, this`m
      ensures Built() && tailIndex == Word(m.Tail())
      ensures m == old(m).(contents := old(m).contents + items)
    {
      AtEndIsAligned(m, blocks);
      if m.ring != [] {
        FillStart(m, blocks, |items|, startBlock);
      }
      var newTailIndex := Later(tailIndex, |items|, m.Tail());
      var start := if tailIndex % 32 == 0 && first.Some? then first else startBlock;
      var cells := FillBlocks(rep, start, rep.tailBlock, tailIndex, newTailIndex, items, m, if m.ring == [] then 0 else FillRank(m, blocks));
      rep := rep.(cells := cells);
      tailIndex := newTailIndex;
      m := m.(contents := m.contents + items);
    }
  }
}
