/**
 The implicit (thread-owned) producer of the queue, run by one thread at a time. Unlike the
 explicit one it gives a block back to the pool as soon as it has been read to its end, and its
 bulk enqueue, when a block or an index cannot be had, takes back everything it has done.
 */
module ImplicitProducer {
  import opened Wrappers
  import opened Words
  import opened Modular
  import opened BlockRing
  import opened BlockIndex
  import E = ExplicitProducer

  type Model<T> = E.Model<T>

  // The blocks that are not fully read, oldest first, are `ring` in the model.
  datatype Rep<T> = Rep(
    tailBlock: Option<BlockId>,
    next: map<BlockId, Option<BlockId>>,
    cells: map<BlockId, seq<Option<T>>>,
    counts: map<BlockId, nat>,            // how many elements of the block have been taken
    pool: set<BlockId>,                   // the free blocks of the queue
    ix: Index)

  ghost predicate Fits<T>(r: Rep<T>, m: Model<T>) {
    match m
    case Model(contents, head, ring, tailBase) =>
      && Live(r.ix, ring, tailBase)
      && Distinct(ring)
      && Stored(r.cells, ring, tailBase, head, contents)
      && Counted(r.counts, ring, tailBase, head)
      && Pooled(r.pool, r.cells, ring)
      && Spans(m)
      && (m.Tail() < tailBase + 32 ==> ring != [] && r.tailBlock == Some(ring[|ring| - 1]))
  }

  // The blocks reach from the one of the head to the one of the last element.
  ghost predicate Spans<T>(m: Model<T>) {
    match m
    case Model(contents, head, ring, tailBase) =>
      && tailBase % 32 == 0
      && tailBase < head + |contents| <= tailBase + 32
      && tailBase - 32 * (|ring| - 1) == Floor(head)
      && tailBase + 32 - head < HALF
  }

  ghost predicate Counted(counts: map<BlockId, nat>, ring: seq<BlockId>, tailBase: int, head: int) {
    forall k :: 0 <= k < |ring| ==> CountedAt(counts, ring, tailBase, head, k)
  }

  ghost predicate CountedAt(counts: map<BlockId, nat>, ring: seq<BlockId>, tailBase: int, head: int, k: nat)
    requires k < |ring|
  {
    ring[k] in counts && counts[ring[k]] == if k == 0 then head - (tailBase - 32 * (|ring| - 1)) else 0
  }

  // The free blocks hold no elements and are not in use.
  ghost predicate Pooled<T>(pool: set<BlockId>, cells: map<BlockId, seq<Option<T>>>, ring: seq<BlockId>) {
    && (forall b :: b in pool ==> FreeBlock(cells, b))
    && (forall k :: 0 <= k < |ring| ==> InUse(pool, ring, k))
  }

  ghost predicate FreeBlock<T>(cells: map<BlockId, seq<Option<T>>>, b: BlockId) {
    b in cells && |cells[b]| == 32 && forall j :: 0 <= j < 32 ==> cells[b][j] == None
  }

  ghost predicate InUse(pool: set<BlockId>, ring: seq<BlockId>, k: nat)
    requires k < |ring|
  {
    ring[k] !in pool
  }

  // ---------------------------------------------------------------------------------------
  // Taking blocks, and giving them back
  // ---------------------------------------------------------------------------------------

  // The state of a bulk enqueue that has taken the blocks `added` so far, starting from r0.
  ghost predicate Taking<T>(r0: Rep<T>, r: Rep<T>, m: Model<T>, added: seq<BlockId>) {
    && Live(r.ix, m.ring + added, m.tailBase + 32 * |added|)
    && Distinct(m.ring + added)
    && r.cells == r0.cells
    && Split(r0.pool, r.pool, added)
    && CountsKept(r0.counts, r.counts, r0.pool)
    && Chained(r.counts, r.next, added)
    && r.tailBlock == (if added == [] then r0.tailBlock else Some(added[|added| - 1]))
    && (added != [] && m.Tail() < m.tailBase + 32 ==> LinkedTo(r.next, r0.tailBlock, added[0]))
  }

  ghost predicate Split(pool0: set<BlockId>, pool: set<BlockId>, added: seq<BlockId>) {
    && pool0 == pool + Elements(added)
    && forall k :: 0 <= k < |added| ==> InUse(pool, added, k)
  }

  ghost function Elements(blocks: seq<BlockId>): set<BlockId> { set b | b in blocks }

  ghost predicate CountsKept(counts0: map<BlockId, nat>, counts: map<BlockId, nat>, pool0: set<BlockId>) {
    forall b :: b in counts0 && b !in pool0 ==> KeptAt(counts0, counts, b)
  }

  ghost predicate KeptAt(counts0: map<BlockId, nat>, counts: map<BlockId, nat>, b: BlockId)
    requires b in counts0
  {
    b in counts && counts[b] == counts0[b]
  }

  ghost predicate LinkedTo(next: map<BlockId, Option<BlockId>>, from: Option<BlockId>, to: BlockId) {
    from.Some? && from.value in next && next[from.value] == Some(to)
  }

  // The new blocks are unread, and linked in order.
  ghost predicate Chained(counts: map<BlockId, nat>, next: map<BlockId, Option<BlockId>>, added: seq<BlockId>) {
    forall k :: 0 <= k < |added| ==> ChainedAt(counts, next, added, k)
  }

  ghost predicate ChainedAt(counts: map<BlockId, nat>, next: map<BlockId, Option<BlockId>>, added: seq<BlockId>, k: nat)
    requires k < |added|
  {
    var b := added[k];
    && b in counts && counts[b] == 0
    && b in next && next[b] == (if k + 1 < |added| then Some(added[k + 1]) else None)
  }

  lemma {:induction false} DistinctExtends(ring: seq<BlockId>, added: seq<BlockId>, pool0: set<BlockId>, pool: set<BlockId>, b: BlockId)
    requires Distinct(ring + added) && Split(pool0, pool, added) && b in pool
    requires forall k :: 0 <= k < |ring| ==> InUse(pool0, ring, k)
    ensures Distinct(ring + (added + [b])) && Distinct(added + [b])
  {
    var all := ring + (added + [b]);
    forall j, k | 0 <= j < k < |all| ensures DifferAt(all, j, k) {
      if k < |ring + added| {
        assert DifferAt(ring + added, j, k);
      } else if j < |ring| {
        assert InUse(pool0, ring, j);
      } else {
        assert InUse(pool, added, j - |ring|);
      }
    }
    var last := added + [b];
    forall j, k | 0 <= j < k < |last| ensures DifferAt(last, j, k) {
      assert DifferAt(all, |ring| + j, |ring| + k);
    }
  }

  lemma {:induction false} SplitExtends(pool0: set<BlockId>, pool: set<BlockId>, added: seq<BlockId>, b: BlockId)
    requires Split(pool0, pool, added) && b in pool
    ensures Split(pool0, pool - {b}, added + [b])
  {
    var pool', added' := pool - {b}, added + [b];
    assert Elements(added') == Elements(added) + {b};
    forall k | 0 <= k < |added'| ensures InUse(pool', added', k) {
      if k < |added| {
        assert InUse(pool, added, k);
      }
    }
  }

  lemma {:induction false} ChainExtends(counts: map<BlockId, nat>, next: map<BlockId, Option<BlockId>>, added: seq<BlockId>, b: BlockId)
    requires Chained(counts, next, added) && Distinct(added + [b])
    ensures var next' := next[b := None];
      Chained(counts[b := 0], if added == [] then next' else next'[added[|added| - 1] := Some(b)], added + [b])
  {
    var added' := added + [b];
    var next' := if added == [] then next[b := None] else next[b := None][added[|added| - 1] := Some(b)];
    var counts' := counts[b := 0];
    forall k | 0 <= k < |added'| ensures ChainedAt(counts', next', added', k) {
      if k < |added| {
        assert ChainedAt(counts, next, added, k);
        Others(added', k, |added|);
        if k < |added| - 1 {
          Others(added', k, |added| - 1);
        }
      } else if k > 0 {
        Others(added', k, k - 1);
      }
    }
  }

  lemma {:induction false} KeepCounts(counts0: map<BlockId, nat>, counts: map<BlockId, nat>, pool0: set<BlockId>, b: BlockId)
    requires CountsKept(counts0, counts, pool0) && b in pool0
    ensures CountsKept(counts0, counts[b := 0], pool0)
  {
    var counts' := counts[b := 0];
    forall x | x in counts0 && x !in pool0 ensures KeptAt(counts0, counts', x) {
      assert KeptAt(counts0, counts, x);
    }
  }

  // Linking b behind the tail block, if that is still in use, keeps every link made before.
  lemma {:induction false} LinkExtends<T>(r0: Rep<T>, r: Rep<T>, m: Model<T>, added: seq<BlockId>, b: BlockId)
    requires Taking(r0, r, m, added) && b in r.pool && Distinct(added + [b])
    requires m.Tail() < m.tailBase + 32 ==> r0.tailBlock.Some? && r0.tailBlock.value !in r0.pool
    ensures var link := m.Tail() < m.tailBase + 32 || added != [];
      && (link ==> r.tailBlock.Some?)
      && var next' := if link then r.next[b := None][r.tailBlock.value := Some(b)] else r.next[b := None];
      && Chained(r.counts[b := 0], next', added + [b])
      && (m.Tail() < m.tailBase + 32 ==> LinkedTo(next', r0.tailBlock, (added + [b])[0]))
  {
    ChainExtends(r.counts, r.next, added, b);
    assert b in r0.pool;
    if added == [] && m.Tail() < m.tailBase + 32 {
      var next', counts', added' := r.next[b := None][r.tailBlock.value := Some(b)], r.counts[b := 0], [b];
      assert ChainedAt(counts', next', added', 0);
    }
    if added != [] {
      assert added[|added| - 1] in Elements(added);
    }
  }

  method RequisitionBlock(pool: set<BlockId>) returns (b: Option<BlockId>, pool': set<BlockId>)
    ensures b.None? <==> pool == {}
    ensures b.Some? ==> b.value in pool && pool' == pool - {b.value}
    ensures b.None? ==> pool' == pool
  {
    if pool == {} {
      return None, pool;
    }
    var x :| x in pool;
    return Some(x), pool - {x};
  }

  // Whether the tail may run one more block ahead: 2^63 indices is as far as it goes.
  ghost predicate Leeway(tailBase: int, head: int) { tailBase + 64 - head < HALF }

  lemma {:induction false} LeewayIsFound(tailBase: int, head: int)
    requires 0 <= tailBase + 32 - head < HALF
    ensures CircularLess(Word(head), Word(Word(tailBase + 32) + 32)) <==> Leeway(tailBase, head)
  {
    WordOfSum(tailBase + 32, 32);
    WordOfDifference(head, tailBase + 64);
  }

  // Finds an entry and a block for it. A failure changes nothing but, perhaps, the size of the index.
  method AllocateBlock<T>(r: Rep<T>, currentTailIndex: nat, headIndex: nat, memory: nat,
                          ghost blocks: seq<BlockId>, ghost tailBase: int, ghost head: int)
    returns (ok: bool, r': Rep<T>, b: BlockId, memory': nat)
    requires Live(r.ix, blocks, tailBase) && |blocks| <= WORD / 2 && tailBase % 32 == 0
    requires currentTailIndex == Word(tailBase + 32) && headIndex == Word(head) && 0 <= tailBase + 32 - head < HALF
    ensures ok <==> Leeway(tailBase, head) && (|blocks| < |r.ix.order| || memory > 0) && r.pool != {}
    ensures !ok ==> Live(r'.ix, blocks, tailBase) && r' == r.(ix := r'.ix)
    ensures ok ==> Live(r'.ix, blocks + [b], tailBase + 32) && b in r.pool
    ensures ok ==> r' == r.(pool := r.pool - {b}, counts := r.counts[b := 0], ix := r'.ix)
    ensures ok ==> if |blocks| < |r.ix.order| then |r'.ix.order| == |r.ix.order| && memory' == memory
                   else |r'.ix.order| == 2 * |r.ix.order| && memory' == memory - 1
  {
    r', b, memory' := r, 0, memory;
    LeewayIsFound(tailBase, head);
    if !CircularLess(headIndex, Word(currentTailIndex + 32)) {
      return false, r', b, memory';
    }
    var inserted, ix, e;
    inserted, ix, e, memory' := InsertBlockIndexEntry(r.ix, currentTailIndex, memory, blocks, tailBase);
    if !inserted {
      return false, r', b, memory';
    }
    var newBlock, pool := RequisitionBlock(r.pool);
    if newBlock.None? {
      SlotReturned(ix, blocks, tailBase, e);
      ix := ix.(tail := Mask(Word(ix.tail - 1), |ix.order|));
      ix := ix.(entries := ix.entries[e := ix.entries[e].(value := None)]);
      return false, r.(ix := ix), b, memory';
    }
    b := newBlock.value;
    SlotFilled(ix, blocks, tailBase, e, b);
    ix := ix.(entries := ix.entries[e := ix.entries[e].(value := Some(b))]);
    r' := r.(pool := pool, counts := r.counts[b := 0], ix := ix);
    ok := true;
  }

  // One more block is put at the end of the chain of those taken so far.
  method TakeBlock<T>(r: Rep<T>, b: BlockId, link: bool, ghost r0: Rep<T>, ghost before: Rep<T>, ghost m: Model<T>, ghost added: seq<BlockId>)
    returns (r': Rep<T>)
    requires Taking(r0, before, m, added) && b in before.pool
    requires forall k :: 0 <= k < |m.ring| ==> InUse(r0.pool, m.ring, k)
    requires r == before.(pool := before.pool - {b}, counts := before.counts[b := 0], ix := r.ix)
    requires Live(r.ix, m.ring + added + [b], m.tailBase + 32 * |added| + 32)
    requires m.Tail() < m.tailBase + 32 ==> r0.tailBlock.Some? && r0.tailBlock.value !in r0.pool
    requires link <==> m.Tail() < m.tailBase + 32 || added != []
    ensures Taking(r0, r', m, added + [b]) && r'.ix == r.ix && r'.pool == r.pool
  {
    var next := r.next[b := None];
    if link {
      next := next[r.tailBlock.value := Some(b)];
    }
    r' := r.(next := next, tailBlock := Some(b));
    assert m.ring + added + [b] == m.ring + (added + [b]);
    DistinctExtends(m.ring, added, r0.pool, before.pool, b);
    SplitExtends(r0.pool, before.pool, added, b);
    KeepCounts(r0.counts, before.counts, r0.pool, b);
    LinkExtends(r0, before, m, added, b);
  }

  lemma {:induction false} UndoStarts(ix: Index, ring: seq<BlockId>, added: seq<BlockId>, tailBase: int)
    requires Live(ix, ring + added, tailBase)
    ensures Undoing(ix, ix.tail + 1, ring + added, tailBase, |added|, 0)
  {
    var front, blocks, n := ix.tail + 1, ring + added, |ring|;
    ModUnique(ix.tail, 0, ix.tail, |ix.order|);
    forall a | 0 <= a < |ix.order| ensures HoldsAt(ix, front, blocks, tailBase, n, n, a) {
      assert HoldsAt(ix, front, blocks, tailBase, 0, 0, a);
    }
  }

  // Takes the value of the next block's entry away, and moves the tail back.
  method UndoEntry(ix: Index, index: nat, ghost front: int, ghost blocks: seq<BlockId>, ghost tailBase: int, ghost r: nat, ghost k: nat)
    returns (ix': Index)
    requires Undoing(ix, front, blocks, tailBase, r, k) && k < r < MAX_BLOCKS && tailBase % 32 == 0
    requires index == Word(tailBase - 32 * (r - k - 1))
    ensures Undoing(ix', front, blocks, tailBase, r, k + 1)
  {
    UndoKey(ix, front, blocks, tailBase, r, k);
    UndoLookup(ix.tail, front, |ix.order|, |blocks|, tailBase, r, k);
    var slot := LookupFrom(ix.tail, ix.At(ix.tail).key, |ix.order|, index);
    UndoStep(ix, front, blocks, tailBase, r, k);
    var entries := ix.entries[ix.order[slot] := ix.At(slot).(value := None)];
    ix' := Index(ix.order, entries, Mask(Word(ix.tail - 1), |ix.order|));
  }

  // The base of the block of the last element.
  method LastBase(tailIndex: nat, ghost tailBase: int, ghost tail: int) returns (base: nat)
    requires tailBase % 32 == 0 && tailBase < tail <= tailBase + 32 && tailIndex == Word(tail)
    ensures base == Word(tailBase)
  {
    E.SameBlock(tailBase, tail - 1);
    base := E.FloorAfter(tailIndex, -1, tail);
  }

  // Takes the entries of all the blocks of the chain out of the index.
  method UndoEntries<T>(r: Rep<T>, base: nat, first: Option<BlockId>, ghost m: Model<T>, ghost added: seq<BlockId>) returns (ix: Index)
    requires Live(r.ix, m.ring + added, m.tailBase + 32 * |added|) && Chained(r.counts, r.next, added)
    requires |added| < MAX_BLOCKS && m.tailBase % 32 == 0 && base == Word(m.tailBase)
    requires first == ChainAt(added, 0)
    ensures Live(ix, m.ring, m.tailBase)
  {
    var currentTailIndex, block := base, first;
    ix := r.ix;
    ghost var front, blocks, tailBase, k := ix.tail + 1, m.ring + added, m.tailBase + 32 * |added|, 0;
    ghost var at := m.tailBase;
    BaseIsAligned(m.tailBase, 0, |added| - 1);
    assert tailBase % 32 == 0;
    UndoStarts(ix, m.ring, added, tailBase);
    while block.Some?
      invariant k <= |added| && block == ChainAt(added, k)
      invariant at == m.tailBase + 32 * k && currentTailIndex == Word(at)
      invariant Undoing(ix, front, blocks, tailBase, |added|, k)
      decreases |added| - k
    {
      currentTailIndex := E.Later(currentTailIndex, 32, at);
      at := at + 32;
      ix := UndoEntry(ix, currentTailIndex, front, blocks, tailBase, |added|, k);
      assert ChainedAt(r.counts, r.next, added, k);
      block := r.next[block.value];
      k := k + 1;
    }
    Undone(ix, front, blocks, tailBase, |added|);
    assert blocks[..|blocks| - |added|] == m.ring;
  }

  ghost function ChainAt(added: seq<BlockId>, k: nat): Option<BlockId> { if k < |added| then Some(added[k]) else None }

  method AddBlocksToFreeList<T>(r: Rep<T>, first: Option<BlockId>, ghost pool0: set<BlockId>, ghost added: seq<BlockId>) returns (pool: set<BlockId>)
    requires Chained(r.counts, r.next, added) && Split(pool0, r.pool, added) && first == ChainAt(added, 0)
    ensures pool == pool0
  {
    pool := r.pool;
    var block := first;
    ghost var k := 0;
    while block.Some?
      invariant k <= |added| && block == ChainAt(added, k)
      invariant pool == r.pool + Elements(added[..k])
      decreases |added| - k
    {
      assert ChainedAt(r.counts, r.next, added, k);
      assert added[..k + 1] == added[..k] + [added[k]];
      assert Elements(added[..k + 1]) == Elements(added[..k]) + {added[k]};
      pool := pool + {block.value};
      block := r.next[block.value];
      k := k + 1;
    }
    assert added[..k] == added;
  }

  // Takes back everything a bulk enqueue has done so far.
  method UndoBulk<T>(r: Rep<T>, startTailIndex: nat, first: Option<BlockId>, startBlock: Option<BlockId>,
                     ghost r0: Rep<T>, ghost m: Model<T>, ghost added: seq<BlockId>)
    returns (r': Rep<T>)
    requires Taking(r0, r, m, added) && Fits(r0, m)
    requires |added| < MAX_BLOCKS && startTailIndex == Word(m.Tail())
    requires first == ChainAt(added, 0) && startBlock == r0.tailBlock
    ensures Fits(r', m) && r'.pool == r0.pool && r'.cells == r0.cells && r'.tailBlock == r0.tailBlock
  {
    var base := LastBase(startTailIndex, m.tailBase, m.Tail());
    var ix := UndoEntries(r, base, first, m, added);
    var pool := AddBlocksToFreeList(r, first, r0.pool, added);
    r' := r.(ix := ix, pool := pool, tailBlock := startBlock);
    StillCounted(r0, r.counts, m);
  }

  lemma {:induction false} StillCounted<T>(r0: Rep<T>, counts: map<BlockId, nat>, m: Model<T>)
    requires Fits(r0, m) && CountsKept(r0.counts, counts, r0.pool)
    ensures Counted(counts, m.ring, m.tailBase, m.head)
  {
    forall k | 0 <= k < |m.ring| ensures CountedAt(counts, m.ring, m.tailBase, m.head, k) {
      assert CountedAt(r0.counts, m.ring, m.tailBase, m.head, k);
      assert InUse(r0.pool, m.ring, k);
      assert KeptAt(r0.counts, counts, m.ring[k]);
    }
  }

  // How far an index can grow if `memory` allocations will succeed.
  ghost function Reach(size: nat, memory: nat): nat
    decreases memory
  {
    if memory == 0 then size else Reach(2 * size, memory - 1)
  }

  lemma {:induction false} ReachIsEnough(size: nat, memory: nat, n: nat)
    requires n <= size && size > 0
    ensures n < Reach(size, memory) <==> n < size || memory > 0
    ensures size <= Reach(size, memory)
    decreases memory
  {
    if memory > 0 {
      ReachIsEnough(2 * size, memory - 1, n);
    }
  }

  // What a bulk enqueue of `blocks` blocks takes: the blocks, an index that can grow to hold them,
  // and leeway for the last of them.
  ghost predicate Enough<T>(r: Rep<T>, m: Model<T>, memory: nat, blocks: int) {
    blocks > 0 ==>
      && |r.pool| >= blocks
      && Reach(|r.ix.order|, memory) >= |m.ring| + blocks
      && Leeway(m.tailBase + 32 * (blocks - 1), m.head)
  }

  lemma {:induction false} RingIsShort<T>(m: Model<T>, added: nat)
    requires Spans(m) && m.tailBase + 32 * added + 32 - m.head < HALF
    ensures |m.ring| + added <= WORD / 2 && added < MAX_BLOCKS
  {
    FloorIsAligned(m.head);
  }

  // What taking blocks relies on.
  ghost predicate CanTake<T>(r0: Rep<T>, m: Model<T>) {
    && (forall k :: 0 <= k < |m.ring| ==> InUse(r0.pool, m.ring, k))
    && (m.Tail() < m.tailBase + 32 ==> r0.tailBlock.Some? && r0.tailBlock.value !in r0.pool)
  }

  lemma {:induction false} FitsCanTake<T>(r0: Rep<T>, m: Model<T>)
    requires Fits(r0, m)
    ensures CanTake(r0, m)
  {
    if m.Tail() < m.tailBase + 32 {
      assert InUse(r0.pool, m.ring, |m.ring| - 1);
    }
  }

  lemma {:induction false} EnoughForFewer<T>(r: Rep<T>, m: Model<T>, memory: nat, fewer: nat, blocks: nat)
    requires fewer <= blocks
    ensures Enough(r, m, memory, blocks) ==> Enough(r, m, memory, fewer)
  {
  }

  // What is left of the pool and of `memory0` allocations once n blocks have been taken.
  ghost predicate Spent<T>(r0: Rep<T>, memory0: nat, r: Rep<T>, memory: nat, n: nat) {
    |r.pool| == |r0.pool| - n && Reach(|r.ix.order|, memory) == Reach(|r0.ix.order|, memory0)
  }

  // One more block is had exactly if there is enough for one more.
  lemma {:induction false} EnoughForOneMore<T>(r0: Rep<T>, memory0: nat, r: Rep<T>, memory: nat, m: Model<T>, n: nat)
    requires Spent(r0, memory0, r, memory, n) && Enough(r0, m, memory0, n) && |m.ring| + n <= |r.ix.order| && 0 < |r.ix.order|
    ensures Enough(r0, m, memory0, n + 1) <==>
      Leeway(m.tailBase + 32 * n, m.head) && (|m.ring| + n < |r.ix.order| || memory > 0) && r.pool != {}
  {
    ReachIsEnough(|r.ix.order|, memory, |m.ring| + n);
  }

  lemma {:induction false} OneMoreIsSpent<T>(r0: Rep<T>, memory0: nat, r: Rep<T>, memory: nat, r': Rep<T>, memory': nat, n: nat, b: BlockId)
    requires Spent(r0, memory0, r, memory, n) && b in r.pool && r'.pool == r.pool - {b}
    requires (|r'.ix.order| == |r.ix.order| && memory' == memory) || (|r'.ix.order| == 2 * |r.ix.order| && memory' == memory - 1)
    ensures Spent(r0, memory0, r', memory', n + 1)
  {
  }

  // Takes one more block.
  method TakeOne<T>(r: Rep<T>, current: nat, link: bool, headIndex: nat, memory: nat,
                    ghost r0: Rep<T>, ghost m: Model<T>, ghost added: seq<BlockId>, ghost memory0: nat)
    returns (ok: bool, r': Rep<T>, b: BlockId, memory': nat)
    requires CanTake(r0, m) && Taking(r0, r, m, added) && Spans(m)
    requires Spent(r0, memory0, r, memory, |added|) && Enough(r0, m, memory0, |added|)
    requires current == Word(m.tailBase + 32 * |added| + 32) && headIndex == Word(m.head)
    requires link <==> m.Tail() < m.tailBase + 32 || added != []
    ensures ok <==> Enough(r0, m, memory0, |added| + 1)
    ensures ok ==> Taking(r0, r', m, added + [b]) && Spent(r0, memory0, r', memory', |added| + 1)
    ensures !ok ==> Taking(r0, r', m, added)
  {
    ghost var at := m.tailBase + 32 * |added|;
    ThereIsLeeway(r0, m, memory0, |added|);
    RingIsShort(m, |added|);
    AlignedAt(m.tailBase, |added|);
    EnoughForOneMore(r0, memory0, r, memory, m, |added|);
    ok, r', b, memory' := AllocateBlock(r, current, headIndex, memory, m.ring + added, at, m.head);
    if ok {
      OneMoreIsSpent(r0, memory0, r, memory, r', memory', |added|, b);
      r' := TakeBlock(r', b, link, r0, r, m, added);
    }
  }

  lemma {:induction false} ThereIsLeeway<T>(r0: Rep<T>, m: Model<T>, memory: nat, blocks: nat)
    requires Spans(m) && Enough(r0, m, memory, blocks)
    ensures m.head <= m.tailBase + 32 * blocks + 32 < m.head + HALF
  {
  }

  lemma AlignedAt(base: int, n: nat)
    requires base % 32 == 0
    ensures (base + 32 * n) % 32 == 0
  {
  }

  // Takes the blocks a bulk enqueue needs, until one cannot be had.
  method TakeAll<T>(r0: Rep<T>, blockBaseDiff: nat, base: nat, midBlock: bool, headIndex: nat, memory: nat, ghost m: Model<T>, ghost blocks: nat)
    returns (ok: bool, r: Rep<T>, first: Option<BlockId>, ghost added: seq<BlockId>)
    requires CanTake(r0, m) && Live(r0.ix, m.ring, m.tailBase) && Distinct(m.ring) && Spans(m)
    requires blockBaseDiff == 32 * blocks && base == Word(m.tailBase) && headIndex == Word(m.head)
    requires midBlock <==> m.Tail() < m.tailBase + 32
    ensures Taking(r0, r, m, added) && |added| <= blocks && first == ChainAt(added, 0)
    ensures ok ==> |added| == blocks
    ensures Enough(r0, m, memory, |added|)
    ensures ok <==> Enough(r0, m, memory, blocks)
  {
    var left: nat := memory;
    var diff, current := blockBaseDiff, base;
    r, first, added := r0, None, [];
    assert m.ring + added == m.ring;
    while diff > 0
      invariant |added| <= blocks && diff == 32 * (blocks - |added|)
      invariant current == Word(m.tailBase + 32 * |added|)
      invariant Taking(r0, r, m, added) && first == ChainAt(added, 0)
      invariant Spent(r0, memory, r, left, |added|) && Enough(r0, m, memory, |added|)
      decreases blocks - |added|
    {
      diff, current := diff - 32, E.Later(current, 32, m.tailBase + 32 * |added|);
      var b;
      ok, r, b, left := TakeOne(r, current, midBlock || first.Some?, headIndex, left, r0, m, added, memory);
      if !ok {
        EnoughForFewer(r0, m, memory, |added| + 1, blocks);
        return;
      }
      first := if first.None? then Some(b) else first;
      added := added + [b];
    }
    ok := true;
  }

  // Takes all the blocks a bulk enqueue needs, or none.
  method TakeBlocks<T>(r0: Rep<T>, blockBaseDiff: nat, base: nat, startTailIndex: nat, headIndex: nat, memory: nat, ghost m: Model<T>, ghost blocks: nat)
    returns (ok: bool, r: Rep<T>, first: Option<BlockId>, ghost added: seq<BlockId>)
    requires Fits(r0, m) && blockBaseDiff == 32 * blocks
    requires base == Word(m.tailBase) && startTailIndex == Word(m.Tail()) && headIndex == Word(m.head)
    ensures ok ==> Taking(r0, r, m, added) && |added| == blocks && first == ChainAt(added, 0)
    ensures ok ==> m.tailBase + 32 * blocks + 32 - m.head < HALF
    ensures !ok ==> Fits(r, m) && r.pool == r0.pool && r.cells == r0.cells && r.tailBlock == r0.tailBlock
    ensures ok <==> Enough(r0, m, memory, blocks)
  {
    FitsCanTake(r0, m);
    EndOfBlock(m);
    ok, r, first, added := TakeAll(r0, blockBaseDiff, base, startTailIndex % 32 != 0, headIndex, memory, m, blocks);
    ThereIsLeeway(r0, m, memory, |added|);
    if !ok {
      RingIsShort(m, |added|);
      r := UndoBulk(r, startTailIndex, first, r0.tailBlock, r0, m, added);
    }
  }

  // ---------------------------------------------------------------------------------------
  // Filling the blocks
  // ---------------------------------------------------------------------------------------

  lemma {:induction false} StoredAppend<T>(cells: map<BlockId, seq<Option<T>>>, ring: seq<BlockId>, tailBase: int, head: int, contents: seq<T>, added: seq<BlockId>)
    requires Stored(cells, ring, tailBase, head, contents) && head + |contents| <= tailBase + 32
    requires forall k :: 0 <= k < |added| ==> FreeBlock(cells, added[k])
    ensures Stored(cells, ring + added, tailBase + 32 * |added|, head, contents)
  {
    var ring', tailBase' := ring + added, tailBase + 32 * |added|;
    forall k | 0 <= k < |ring'| ensures StoredAt(cells, ring', tailBase', head, contents, k) {
      if k < |ring| {
        assert StoredAt(cells, ring, tailBase, head, contents, k);
      } else {
        assert FreeBlock(cells, added[k - |ring|]);
      }
    }
  }

  ghost predicate Unread(counts: map<BlockId, nat>, b: BlockId) { b in counts && counts[b] == 0 }

  lemma {:induction false} CountedAppend<T>(r0: Rep<T>, r: Rep<T>, m: Model<T>, added: seq<BlockId>)
    requires Fits(r0, m) && CountsKept(r0.counts, r.counts, r0.pool)
    requires forall k :: 0 <= k < |added| ==> Unread(r.counts, added[k])
    ensures Counted(r.counts, m.ring + added, m.tailBase + 32 * |added|, m.head)
  {
    StillCounted(r0, r.counts, m);
    var ring', tailBase' := m.ring + added, m.tailBase + 32 * |added|;
    forall k | 0 <= k < |ring'| ensures CountedAt(r.counts, ring', tailBase', m.head, k) {
      if k < |m.ring| {
        assert CountedAt(r.counts, m.ring, m.tailBase, m.head, k);
      } else {
        assert Unread(r.counts, added[k - |m.ring|]);
        if |m.ring| == 0 && k == 0 {
          FloorIsAligned(m.head);
        }
      }
    }
  }

  lemma {:induction false} PooledAppend<T>(r0: Rep<T>, pool: set<BlockId>, m: Model<T>, added: seq<BlockId>)
    requires Fits(r0, m) && Split(r0.pool, pool, added)
    ensures Pooled(pool, r0.cells, m.ring + added)
    ensures forall k :: 0 <= k < |added| ==> FreeBlock(r0.cells, added[k])
  {
    var ring' := m.ring + added;
    forall k | 0 <= k < |ring'| ensures InUse(pool, ring', k) {
      if k < |m.ring| {
        assert InUse(r0.pool, m.ring, k);
      } else {
        assert InUse(pool, added, k - |m.ring|);
      }
    }
    forall k | 0 <= k < |added| ensures FreeBlock(r0.cells, added[k]) {
      assert added[k] in Elements(added);
    }
  }

  // From the rank `first` on the blocks are linked in order.
  ghost predicate LinkedFrom(next: map<BlockId, Option<BlockId>>, ring: seq<BlockId>, first: nat) {
    forall k :: first <= k < |ring| - 1 ==> NextIs(next, ring, k)
  }

  ghost predicate NextIs(next: map<BlockId, Option<BlockId>>, ring: seq<BlockId>, k: nat)
    requires k + 1 < |ring|
  {
    LinkedTo(next, Some(ring[k]), ring[k + 1])
  }

  // Which block the elements of a bulk enqueue start in.
  ghost function StartRank<T>(m: Model<T>, added: seq<BlockId>): int {
    if m.Tail() == m.tailBase + 32 && added != [] then |m.ring| else |m.ring| - 1
  }

  lemma {:induction false} TakenIsLinked<T>(r0: Rep<T>, r: Rep<T>, m: Model<T>, added: seq<BlockId>)
    requires Fits(r0, m) && Taking(r0, r, m, added)
    requires m.Tail() == m.tailBase + 32 ==> added != []
    ensures 0 <= StartRank(m, added) < |m.ring + added| && LinkedFrom(r.next, m.ring + added, StartRank(m, added))
    ensures r.tailBlock == Some((m.ring + added)[|m.ring + added| - 1])
    ensures (if m.Tail() == m.tailBase + 32 then ChainAt(added, 0) else r0.tailBlock) == Some((m.ring + added)[StartRank(m, added)])
    ensures m.tailBase + 32 * |added| - 32 * (|m.ring + added| - 1 - StartRank(m, added)) == Floor(m.Tail())
  {
    var n, ring', first := |m.ring|, m.ring + added, StartRank(m, added);
    if m.Tail() < m.tailBase + 32 {
      E.SameBlock(m.tailBase, m.Tail());
    }
    forall k | first <= k < |ring'| - 1 ensures NextIs(r.next, ring', k) {
      if k >= n {
        assert ChainedAt(r.counts, r.next, added, k - n);
      }
    }
  }

  ghost predicate Startable<T>(r: Rep<T>, startBlock: Option<BlockId>, m: Model<T>, first: nat, count: nat) {
    && first < |m.ring| && startBlock == Some(m.ring[first]) && LinkedFrom(r.next, m.ring, first)
    && r.tailBlock == Some(m.ring[|m.ring| - 1])
    && m.tailBase - 32 * (|m.ring| - 1 - first) == Floor(m.Tail()) && m.tailBase < m.Tail() + count <= m.tailBase + 32
  }

  // Constructs the items block by block, following the links.
  method FillChain<T>(r: Rep<T>, startBlock: Option<BlockId>, startTailIndex: nat, newTailIndex: nat, items: seq<T>, ghost m: Model<T>, ghost first: nat)
    returns (cells: map<BlockId, seq<Option<T>>>)
    requires FillReady(r, startBlock, m, |items|, first)
    requires startTailIndex == Word(m.Tail()) && newTailIndex == Word(m.Tail() + |items|) && |items| <= HALF - 32
    ensures Stored(cells, m.ring, m.tailBase, m.head, m.contents + items)
    ensures SameOutside(r.cells, cells, m.ring)
  {
    cells := r.cells;
    ghost var n, tail := |m.ring|, m.Tail();
    var block, index, done := startBlock, startTailIndex, 0;
    ghost var k := first;
    assert m.contents + items[..0] == m.contents;
    forall b | b in cells && b !in m.ring ensures SameAt(r.cells, cells, b) {
    }
    while true
      invariant 0 <= done <= |items| && index == Word(tail + done)
      invariant items == [] ==> block == r.tailBlock
      invariant items != [] ==> first <= k < n && block == Some(m.ring[k]) && m.tailBase - 32 * (n - 1 - k) == Floor(tail + done)
      invariant Stored(cells, m.ring, m.tailBase, m.head, m.contents + items[..done])
      invariant SameOutside(r.cells, cells, m.ring)
      decreases n - k
    {
      ghost var before := cells;
      if items != [] {
        E.StopIsInBlock(m.tailBase, n, k, tail + done, tail + |items|);
      }
      cells, index, done := E.FillBlock(cells, block, index, newTailIndex, items, done, m, k);
      OutsideIsTransitive(r.cells, before, cells, m.ring);
      if block == r.tailBlock {
        if items != [] && k < n - 1 {
          Others(m.ring, k, n - 1);
        }
        break;
      }
      assert NextIs(r.next, m.ring, k);
      block := r.next[block.value];
      k := k + 1;
    }
    assert items[..done] == items;
  }

  lemma {:induction false} OutsideIsTransitive<T>(a: map<BlockId, seq<Option<T>>>, b: map<BlockId, seq<Option<T>>>, c: map<BlockId, seq<Option<T>>>, ring: seq<BlockId>)
    requires SameOutside(a, b, ring) && SameOutside(b, c, ring)
    ensures SameOutside(a, c, ring)
  {
    forall x | x in a && x !in ring ensures SameAt(a, c, x) {
      assert SameAt(a, b, x) && SameAt(b, c, x);
    }
  }

  lemma {:induction false} PoolIsUntouched<T>(pool: set<BlockId>, cells: map<BlockId, seq<Option<T>>>, cells': map<BlockId, seq<Option<T>>>, ring: seq<BlockId>)
    requires Pooled(pool, cells, ring) && SameOutside(cells, cells', ring)
    ensures Pooled(pool, cells', ring)
  {
    forall b | b in pool ensures FreeBlock(cells', b) {
      forall k | 0 <= k < |ring| ensures ring[k] != b {
        assert InUse(pool, ring, k);
      }
      assert FreeBlock(cells, b) && SameAt(cells, cells', b);
    }
  }

  function Extended<T>(m: Model<T>, items: seq<T>, added: seq<BlockId>): Model<T> {
    E.Model(m.contents + items, m.head, m.ring + added, m.tailBase + 32 * |added|)
  }

  // Constructs the items in the blocks that were taken for them.
  method FillTaken<T>(r: Rep<T>, first: Option<BlockId>, startBlock: Option<BlockId>, tailIndex: nat, items: seq<T>,
                      ghost r0: Rep<T>, ghost m: Model<T>, ghost added: seq<BlockId>)
    returns (r': Rep<T>, newTailIndex: nat)
    requires Fits(r0, m) && Taking(r0, r, m, added) && first == ChainAt(added, 0) && startBlock == r0.tailBlock
    requires tailIndex == Word(m.Tail()) && |items| <= HALF - 32
    requires items == [] ==> added == []
    requires items != [] ==> m.tailBase + 32 * |added| < m.Tail() + |items| <= m.tailBase + 32 * |added| + 32
    requires m.tailBase + 32 * |added| + 32 - m.head < HALF
    ensures Fits(r', Extended(m, items, added)) && newTailIndex == Word(Extended(m, items, added).Tail())
  {
    newTailIndex := E.Later(tailIndex, |items|, m.Tail());
    EndOfBlock(m);
    var start := if tailIndex % 32 == 0 && first.Some? then first else startBlock;
    ghost var at := FillIsReady(r0, r, m, added, start, |items|);
    var cells := FillChain(r, start, tailIndex, newTailIndex, items, Extended(m, [], added), at);
    FilledFits(r0, r, m, items, added, cells);
    r' := r.(cells := cells);
  }

  // All that filling the blocks relies on.
  ghost predicate FillReady<T>(r: Rep<T>, start: Option<BlockId>, m: Model<T>, count: nat, first: nat) {
    && Stored(r.cells, m.ring, m.tailBase, m.head, m.contents) && Distinct(m.ring) && m.tailBase % 32 == 0
    && if count == 0 then start == r.tailBlock else Startable(r, start, m, first, count)
  }

  lemma {:induction false} FillIsReady<T>(r0: Rep<T>, r: Rep<T>, m: Model<T>, added: seq<BlockId>, start: Option<BlockId>, count: nat) returns (first: nat)
    requires Fits(r0, m) && Taking(r0, r, m, added)
    requires start == if m.Tail() == m.tailBase + 32 && added != [] then Some(added[0]) else r0.tailBlock
    requires if count == 0 then added == [] else m.tailBase + 32 * |added| < m.Tail() + count <= m.tailBase + 32 * |added| + 32
    ensures FillReady(r, start, Extended(m, [], added), count, first)
    ensures Extended(m, [], added).contents == m.contents
  {
    BlocksAreStored(r0, r, m, added);
    first := 0;
    if count > 0 {
      first := FillIsStartable(r0, r, m, added, count);
    }
  }

  lemma {:induction false} FillIsStartable<T>(r0: Rep<T>, r: Rep<T>, m: Model<T>, added: seq<BlockId>, count: nat) returns (first: nat)
    requires Fits(r0, m) && Taking(r0, r, m, added)
    requires count > 0 && m.tailBase + 32 * |added| < m.Tail() + count <= m.tailBase + 32 * |added| + 32
    ensures var start := if m.Tail() == m.tailBase + 32 && added != [] then Some(added[0]) else r0.tailBlock;
      Startable(r, start, Extended(m, [], added), first, count)
  {
    TakenIsLinked(r0, r, m, added);
    first := StartRank(m, added);
    assert m.contents + [] == m.contents;
  }

  lemma {:induction false} FilledFits<T>(r0: Rep<T>, r: Rep<T>, m: Model<T>, items: seq<T>, added: seq<BlockId>, cells: map<BlockId, seq<Option<T>>>)
    requires Fits(r0, m) && Taking(r0, r, m, added) && m.tailBase + 32 * |added| + 32 - m.head < HALF
    requires Stored(cells, m.ring + added, m.tailBase + 32 * |added|, m.head, m.contents + items)
    requires SameOutside(r.cells, cells, m.ring + added)
    requires items == [] ==> added == []
    requires items != [] ==> m.tailBase + 32 * |added| < m.Tail() + |items| <= m.tailBase + 32 * |added| + 32
    ensures Fits(r.(cells := cells), Extended(m, items, added))
  {
    BlocksAreStored(r0, r, m, added);
    PoolIsUntouched(r.pool, r.cells, cells, m.ring + added);
    FilledSpans(m, items, added);
  }

  lemma {:induction false} BlocksAreStored<T>(r0: Rep<T>, r: Rep<T>, m: Model<T>, added: seq<BlockId>)
    requires Fits(r0, m) && Taking(r0, r, m, added)
    ensures var m1 := Extended(m, [], added);
      && m1.contents == m.contents && m1.Tail() == m.Tail() && m1.tailBase % 32 == 0
      && Stored(r.cells, m1.ring, m1.tailBase, m1.head, m1.contents)
      && Counted(r.counts, m1.ring, m1.tailBase, m1.head)
      && Pooled(r.pool, r.cells, m1.ring)
  {
    PooledAppend(r0, r.pool, m, added);
    StoredAppend(r0.cells, m.ring, m.tailBase, m.head, m.contents, added);
    forall k | 0 <= k < |added| ensures Unread(r.counts, added[k]) {
      assert ChainedAt(r.counts, r.next, added, k);
    }
    CountedAppend(r0, r, m, added);
    AlignedAt(m.tailBase, |added|);
  }

  lemma {:induction false} FilledSpans<T>(m: Model<T>, items: seq<T>, added: seq<BlockId>)
    requires Spans(m) && m.tailBase + 32 * |added| + 32 - m.head < HALF
    requires items == [] ==> added == []
    requires items != [] ==> m.tailBase + 32 * |added| < m.Tail() + |items| <= m.tailBase + 32 * |added| + 32
    ensures Spans(Extended(m, items, added))
    ensures Extended(m, items, added).Tail() < Extended(m, items, added).tailBase + 32 ==> m.ring + added != []
  {
    AlignedAt(m.tailBase, |added|);
    FloorIsAligned(m.head);
  }

  // How many new blocks `count` more elements need.
  function BlocksFor<T>(m: Model<T>, count: nat): int { (Floor(m.Tail() + count - 1) - m.tailBase) / 32 }

  // Appends all the items, or changes nothing but, perhaps, the size of the index.
  method Append<T>(r0: Rep<T>, tailIndex: nat, headIndex: nat, items: seq<T>, memory: nat, ghost m: Model<T>)
    returns (ok: bool, r: Rep<T>, newTailIndex: nat, ghost m': Model<T>)
    requires Fits(r0, m) && tailIndex == Word(m.Tail()) && headIndex == Word(m.head) && |items| <= HALF - 32
    ensures Fits(r, m') && newTailIndex == Word(m'.Tail()) && m'.head == m.head
    ensures ok ==> m'.contents == m.contents + items
    ensures !ok ==> m' == m && r.pool == r0.pool && r.cells == r0.cells && r.tailBlock == r0.tailBlock
    ensures ok <==> Enough(r0, m, memory, BlocksFor(m, |items|))
  {
    var base, blockBaseDiff;
    ghost var blocks;
    base, blockBaseDiff, blocks := BlocksToTake(tailIndex, |items|, m);
    var first;
    ghost var added;
    ok, r, first, added := TakeBlocks(r0, blockBaseDiff, base, tailIndex, headIndex, memory, m, blocks);
    m', newTailIndex := m, tailIndex;
    if ok {
      r, newTailIndex := FillTaken(r, first, r0.tailBlock, tailIndex, items, r0, m, added);
      m' := Extended(m, items, added);
    }
  }

  method BlocksToTake<T>(tailIndex: nat, count: nat, ghost m: Model<T>) returns (base: nat, blockBaseDiff: nat, ghost blocks: nat)
    requires Spans(m) && tailIndex == Word(m.Tail()) && count <= HALF - 32
    ensures base == Word(m.tailBase) && blockBaseDiff == 32 * blocks && blocks == BlocksFor(m, count)
    ensures count == 0 ==> blocks == 0
    ensures count > 0 ==> m.tailBase + 32 * blocks < m.Tail() + count <= m.tailBase + 32 * blocks + 32
  {
    BlocksAreThose(m, count);
    ghost var spare := BlocksFor(m, count);
    base, blockBaseDiff, blocks := E.BlocksToStart(tailIndex, count, m.Tail(), m.tailBase, spare);
  }

  lemma FloorNeverFalls(base: int, i: int)
    requires base % 32 == 0 && base <= i
    ensures base <= Floor(i)
  {
  }

  lemma AlignedGap(a: int, b: int)
    requires a % 32 == 0 && b % 32 == 0
    ensures a == b + 32 * ((a - b) / 32)
  {
  }

  lemma {:induction false} BlocksAreThose<T>(m: Model<T>, count: nat)
    requires Spans(m) && count <= HALF - 32
    ensures 0 <= BlocksFor(m, count) && 32 * BlocksFor(m, count) < WORD
    ensures Floor(m.Tail() + count - 1) == m.tailBase + 32 * BlocksFor(m, count)
  {
    var last, base := m.Tail() + count - 1, m.tailBase;
    FloorIsAligned(last);
    FloorNeverFalls(base, last);
    AlignedGap(Floor(last), base);
  }

  lemma {:induction false} EndOfBlock<T>(m: Model<T>)
    requires Spans(m)
    ensures Word(m.Tail()) % 32 == 0 <==> m.Tail() == m.tailBase + 32
  {
    WordInBlock(m.Tail());
    E.EndIsAligned(m.tailBase, m.Tail());
  }

  // ---------------------------------------------------------------------------------------
  // Taking an element
  // ---------------------------------------------------------------------------------------

  // Every live index is looked up in the entry of its block.
  lemma {:induction false} LookupFindsEntry(ix: Index, blocks: seq<BlockId>, tailBase: int, i: int)
    requires Live(ix, blocks, tailBase) && tailBase % 32 == 0
    requires tailBase - 32 * (|blocks| - 1) <= i < tailBase + 32 && -HALF <= Floor(i) - tailBase
    ensures ix.order[ix.tail] < |ix.entries|
    ensures var slot, rank := LookupFrom(ix.tail, ix.At(ix.tail).key, |ix.order|, Word(i)), Rank(tailBase, |blocks|, i);
      && 0 <= rank < |blocks| && tailBase - 32 * (|blocks| - 1 - rank) == Floor(i)
      && slot == Slot(ix.tail + 1, |blocks|, rank, |ix.order|)
      && ix.order[slot] < |ix.entries| && ix.At(slot) == IndexEntry(Word(Floor(i)), Some(blocks[rank]))
  {
    RankIsInRange(tailBase, |blocks|, i);
    TailKey(ix, blocks, tailBase);
    LookupFromTail(ix.tail, |ix.order|, |blocks|, tailBase, i);
    assert HoldsAt(ix, ix.tail + 1, blocks, tailBase, 0, 0, Rank(tailBase, |blocks|, i));
  }

  lemma {:induction false} TailKey(ix: Index, blocks: seq<BlockId>, tailBase: int)
    requires Live(ix, blocks, tailBase) && blocks != []
    ensures ix.order[ix.tail] < |ix.entries| && ix.At(ix.tail).key == Word(tailBase)
  {
    ModUnique(ix.tail, 0, ix.tail, |ix.order|);
    assert HoldsAt(ix, ix.tail + 1, blocks, tailBase, 0, 0, |blocks| - 1);
  }

  lemma {:induction false} LookupFromTail(tail: nat, size: nat, n: nat, tailBase: int, i: int)
    requires tail < size && PowerOfTwo(size) && size <= WORD && tailBase % 32 == 0
    requires tailBase - 32 * (n - 1) <= i < tailBase + 32 && -HALF <= Floor(i) - tailBase
    ensures LookupFrom(tail, Word(tailBase), size, Word(i)) == Slot(tail + 1, n, Rank(tailBase, n, i), size)
  {
    RankIsInRange(tailBase, n, i);
    ModUnique(tail, 0, tail, size);
    LookupCounts(tail, tail, size, tailBase, i, Rank(tailBase, n, i) - (n - 1));
  }

  // Finds the entry of the block of the head, which is the oldest.
  method FindHead<T>(r: Rep<T>, headIndex: nat, ghost m: Model<T>) returns (e: nat)
    requires Fits(r, m) && m.contents != [] && headIndex == Word(m.head)
    ensures m.ring != [] && e < |r.ix.entries| && r.ix.entries[e].value == Some(m.ring[0])
    ensures e == r.ix.order[Slot(r.ix.tail + 1, |m.ring|, 0, |r.ix.order|)]
  {
    FloorIsAligned(m.head);
    LookupFindsEntry(r.ix, m.ring, m.tailBase, m.head);
    var slot := LookupFrom(r.ix.tail, r.ix.At(r.ix.tail).key, |r.ix.order|, headIndex);
    e := r.ix.order[slot];
  }

  // The model after the oldest element has been taken: its block goes once it is the last one there.
  function AfterTake<T>(m: Model<T>): Model<T>
    requires m.contents != [] && m.ring != []
  {
    E.Model(m.contents[1..], m.head + 1, if m.head % 32 == 31 then m.ring[1..] else m.ring, m.tailBase)
  }

  lemma {:induction false} TakeSpans<T>(m: Model<T>)
    requires Spans(m) && m.contents != [] && m.ring != []
    ensures Spans(AfterTake(m))
    ensures m.head - (m.tailBase - 32 * (|m.ring| - 1)) == m.head % 32
    ensures m.head % 32 == 31 ==> m.tailBase - 32 * (|m.ring| - 1) + 32 == m.head + 1
    ensures m.Tail() < m.tailBase + 32 ==> AfterTake(m).ring != []
  {
    if m.head % 32 != 31 {
      E.SameBlock(Floor(m.head), m.head);
      E.SameBlock(Floor(m.head), m.head + 1);
    } else {
      NextBlock(m.head);
    }
  }

  lemma NextBlock(i: int)
    requires i % 32 == 31
    ensures Floor(i + 1) == i + 1 == Floor(i) + 32
  {
  }

  lemma {:induction false} TakeKeepsBlock<T>(r: Rep<T>, m: Model<T>, cells: map<BlockId, seq<Option<T>>>)
    requires Fits(r, m) && m.contents != [] && m.ring != [] && m.head % 32 != 31
    requires Stored(cells, m.ring, m.tailBase, m.head + 1, m.contents[1..]) && SameOutside(r.cells, cells, m.ring)
    ensures m.ring[0] in r.counts && r.counts[m.ring[0]] == m.head % 32
    ensures Fits(r.(cells := cells, counts := r.counts[m.ring[0] := r.counts[m.ring[0]] + 1]), AfterTake(m))
  {
    TakeSpans(m);
    PoolIsUntouched(r.pool, r.cells, cells, m.ring);
    assert CountedAt(r.counts, m.ring, m.tailBase, m.head, 0);
    var counts, head' := r.counts[m.ring[0] := r.counts[m.ring[0]] + 1], m.head + 1;
    forall k | 0 <= k < |m.ring| ensures CountedAt(counts, m.ring, m.tailBase, head', k) {
      assert CountedAt(r.counts, m.ring, m.tailBase, m.head, k);
      if k > 0 {
        Others(m.ring, 0, k);
      }
    }
  }

  lemma {:induction false} RestIsStored<T>(cells: map<BlockId, seq<Option<T>>>, ring: seq<BlockId>, tailBase: int, head: int, contents: seq<T>)
    requires Stored(cells, ring, tailBase, head, contents) && ring != [] && tailBase - 32 * (|ring| - 1) + 32 <= head
    ensures Stored(cells, ring[1..], tailBase, head, contents) && FreeBlock(cells, ring[0])
  {
    assert StoredAt(cells, ring, tailBase, head, contents, 0);
    var rest := ring[1..];
    forall k | 0 <= k < |rest| ensures StoredAt(cells, rest, tailBase, head, contents, k) {
      assert StoredAt(cells, ring, tailBase, head, contents, k + 1);
    }
  }

  lemma {:induction false} RestIsDistinct(ring: seq<BlockId>, pool: set<BlockId>)
    requires Distinct(ring) && ring != [] && forall k :: 0 <= k < |ring| ==> InUse(pool, ring, k)
    ensures Distinct(ring[1..]) && forall k :: 0 <= k < |ring[1..]| ==> InUse(pool + {ring[0]}, ring[1..], k)
  {
    var rest, pool' := ring[1..], pool + {ring[0]};
    forall j, k | 0 <= j < k < |rest| ensures DifferAt(rest, j, k) {
      Others(ring, j + 1, k + 1);
    }
    forall k | 0 <= k < |rest| ensures InUse(pool', rest, k) {
      Others(ring, 0, k + 1);
      assert InUse(pool, ring, k + 1);
    }
  }

  lemma {:induction false} TakeFreesBlock<T>(r: Rep<T>, m: Model<T>, cells: map<BlockId, seq<Option<T>>>, ix: Index)
    requires Fits(r, m) && m.contents != [] && m.ring != [] && m.head % 32 == 31
    requires Stored(cells, m.ring, m.tailBase, m.head + 1, m.contents[1..]) && SameOutside(r.cells, cells, m.ring)
    requires Live(ix, m.ring[1..], m.tailBase)
    ensures m.ring[0] in r.counts && r.counts[m.ring[0]] == 31
    ensures Fits(r.(cells := cells, counts := r.counts[m.ring[0] := 32], pool := r.pool + {m.ring[0]}, ix := ix), AfterTake(m))
  {
    TakeSpans(m);
    var b, rest, head', counts := m.ring[0], m.ring[1..], m.head + 1, r.counts[m.ring[0] := 32];
    assert CountedAt(r.counts, m.ring, m.tailBase, m.head, 0);
    RestIsDistinct(m.ring, r.pool);
    RestIsStored(cells, m.ring, m.tailBase, head', m.contents[1..]);
    PoolIsUntouched(r.pool, r.cells, cells, m.ring);
    forall k | 0 <= k < |rest| ensures CountedAt(counts, rest, m.tailBase, head', k) {
      assert CountedAt(r.counts, m.ring, m.tailBase, m.head, k + 1);
      Others(m.ring, 0, k + 1);
    }
  }

  // Moves the oldest element out of its block, and frees the block if that was the last one.
  method TakeFirst<T>(r: Rep<T>, headIndex: nat, ghost m: Model<T>) returns (r': Rep<T>, x: T)
    requires Fits(r, m) && m.contents != [] && headIndex == Word(m.head)
    ensures m.ring != [] && Fits(r', AfterTake(m)) && x == m.contents[0]
  {
    var e := FindHead(r, headIndex, m);
    var b := r.ix.entries[e].value.value;
    var cells;
    cells, x := TakeAt(r, b, headIndex, m);
    if m.head % 32 == 31 {
      OldestRemoved(r.ix, m.ring, m.tailBase);
      TakeFreesBlock(r, m, cells, r.ix.(entries := r.ix.entries[e := r.ix.entries[e].(value := None)]));
    } else {
      TakeKeepsBlock(r, m, cells);
    }
    var prevVal := r.counts[b];
    assert prevVal < 32;
    r' := r.(cells := cells, counts := r.counts[b := prevVal + 1]);
    if prevVal == 32 - 1 {
      r' := r'.(ix := r.ix.(entries := r.ix.entries[e := r.ix.entries[e].(value := None)]));
      r' := r'.(pool := r.pool + {b});
    }
  }

  method TakeAt<T>(r: Rep<T>, b: BlockId, headIndex: nat, ghost m: Model<T>) returns (cells: map<BlockId, seq<Option<T>>>, x: T)
    requires Fits(r, m) && m.contents != [] && headIndex == Word(m.head) && m.ring != [] && b == m.ring[0]
    ensures Stored(cells, m.ring, m.tailBase, m.head + 1, m.contents[1..]) && SameOutside(r.cells, cells, m.ring)
    ensures x == m.contents[0]
  {
    FloorIsAligned(m.head);
    assert m.Taken(0).contents == m.contents;
    cells, x := E.TakeNext(r.cells, b, headIndex, m, 0, 0);
    assert SameOutside(r.cells, r.cells, m.ring) by {
      forall y | y in r.cells && y !in m.ring ensures SameAt(r.cells, r.cells, y) {
      }
    }
    SameStays(r.cells, r.cells, m.ring, b, cells[b]);
  }

  // ---------------------------------------------------------------------------------------
  // One element
  // ---------------------------------------------------------------------------------------

  // A block allocated for a single element.
  lemma {:induction false} NewBlockIsReady<T>(r0: Rep<T>, r: Rep<T>, m: Model<T>, b: BlockId, added: seq<BlockId>)
    requires Fits(r0, m) && b in r0.pool && added == [b]
    requires r == r0.(pool := r0.pool - {b}, counts := r0.counts[b := 0], ix := r.ix, tailBlock := Some(b))
    ensures Distinct(m.ring + added) && Pooled(r.pool, r.cells, m.ring + added)
    ensures Stored(r.cells, m.ring + added, m.tailBase + 32, m.head, m.contents)
    ensures Counted(r.counts, m.ring + added, m.tailBase + 32, m.head)
  {
    NewBlockIsSplit(m.ring, r0.pool, b, added);
    PooledAppend(r0, r.pool, m, added);
    StoredAppend(r0.cells, m.ring, m.tailBase, m.head, m.contents, added);
    NewBlockIsCounted(r0, r, m, b, added);
  }

  lemma {:induction false} NewBlockIsSplit(ring: seq<BlockId>, pool0: set<BlockId>, b: BlockId, added: seq<BlockId>)
    requires Distinct(ring) && b in pool0 && added == [b]
    requires forall k :: 0 <= k < |ring| ==> InUse(pool0, ring, k)
    ensures Distinct(ring + added) && Split(pool0, pool0 - {b}, added)
  {
    assert Elements([]) == {};
    assert Split(pool0, pool0, []);
    assert ring + [] == ring && [] + [b] == added;
    DistinctExtends(ring, [], pool0, pool0, b);
    SplitExtends(pool0, pool0, [], b);
  }

  lemma {:induction false} NewBlockIsCounted<T>(r0: Rep<T>, r: Rep<T>, m: Model<T>, b: BlockId, added: seq<BlockId>)
    requires Fits(r0, m) && b in r0.pool && added == [b] && r.counts == r0.counts[b := 0]
    ensures Counted(r.counts, m.ring + added, m.tailBase + 32, m.head)
  {
    forall x | x in r0.counts && x !in r0.pool ensures KeptAt(r0.counts, r.counts, x) {
    }
    assert Unread(r.counts, added[0]);
    CountedAppend(r0, r, m, added);
  }

  // Constructs the element in the block at the end.
  method PutAtTail<T>(r: Rep<T>, x: T, tailIndex: nat, ghost m: Model<T>) returns (cells: map<BlockId, seq<Option<T>>>)
    requires Stored(r.cells, m.ring, m.tailBase, m.head, m.contents) && Distinct(m.ring) && m.tailBase % 32 == 0
    requires m.ring != [] && r.tailBlock == Some(m.ring[|m.ring| - 1]) && m.tailBase <= m.Tail() < m.tailBase + 32
    requires tailIndex == Word(m.Tail())
    ensures Stored(cells, m.ring, m.tailBase, m.head, m.contents + [x]) && SameOutside(r.cells, cells, m.ring)
  {
    assert m.contents + [x][..0] == m.contents && [x][..1] == [x];
    cells := E.PutNext(r.cells, r.tailBlock.value, tailIndex, [x], 0, m, |m.ring| - 1);
    assert SameOutside(r.cells, r.cells, m.ring) by {
      forall y | y in r.cells && y !in m.ring ensures SameAt(r.cells, r.cells, y) {
      }
    }
    SameStays(r.cells, r.cells, m.ring, r.tailBlock.value, cells[r.tailBlock.value]);
  }

  // Appends in the block of the tail.
  method AppendInBlock<T>(r0: Rep<T>, x: T, tailIndex: nat, ghost m: Model<T>) returns (r: Rep<T>)
    requires Fits(r0, m) && m.Tail() < m.tailBase + 32 && tailIndex == Word(m.Tail())
    ensures Fits(r, m.(contents := m.contents + [x]))
  {
    var cells := PutAtTail(r0, x, tailIndex, m);
    PoolIsUntouched(r0.pool, r0.cells, cells, m.ring);
    r := r0.(cells := cells);
  }

  // Appends in a new block.
  method AppendInNew<T>(r0: Rep<T>, x: T, tailIndex: nat, headIndex: nat, memory: nat, ghost m: Model<T>)
    returns (ok: bool, r: Rep<T>, ghost m': Model<T>)
    requires Fits(r0, m) && m.Tail() == m.tailBase + 32 && tailIndex == Word(m.Tail()) && headIndex == Word(m.head)
    ensures Fits(r, m')
    ensures ok ==> m'.contents == m.contents + [x] && m'.head == m.head
    ensures !ok ==> m' == m && r == r0.(ix := r.ix)
    ensures ok <==> Leeway(m.tailBase, m.head) && (|m.ring| < |r0.ix.order| || memory > 0) && r0.pool != {}
  {
    RingIsShort(m, 0);
    var b, left;
    ok, r, b, left := AllocateBlock(r0, tailIndex, headIndex, memory, m.ring, m.tailBase, m.head);
    m' := m;
    if ok {
      r := r.(tailBlock := Some(b));
      NewBlockIsReady(r0, r, m, b, [b]);
      m' := Extended(m, [x], [b]);
      AlignedAt(m.tailBase, 1);
      var cells := PutAtTail(r, x, tailIndex, m'.(contents := m.contents));
      PoolIsUntouched(r.pool, r.cells, cells, m'.ring);
      FilledSpans(m, [x], [b]);
      r := r.(cells := cells);
    }
  }

  // Appends one element, in a new block if the tail is at the end of its block.
  method AppendOne<T>(r0: Rep<T>, x: T, tailIndex: nat, headIndex: nat, memory: nat, ghost m: Model<T>)
    returns (ok: bool, r: Rep<T>, newTailIndex: nat, ghost m': Model<T>)
    requires Fits(r0, m) && tailIndex == Word(m.Tail()) && headIndex == Word(m.head)
    ensures Fits(r, m') && newTailIndex == Word(m'.Tail()) && m'.head == m.head
    ensures ok ==> m'.contents == m.contents + [x]
    ensures !ok ==> m' == m && r == r0.(ix := r.ix)
    ensures ok <==> CanAppend(r0, m, memory)
  {
    EndOfBlock(m);
    if tailIndex % 32 == 0 {
      ok, r, m' := AppendInNew(r0, x, tailIndex, headIndex, memory, m);
    } else {
      ok, m' := true, m.(contents := m.contents + [x]);
      r := AppendInBlock(r0, x, tailIndex, m);
    }
    newTailIndex := if ok then E.Next(tailIndex, m.Tail()) else tailIndex;
  }

  ghost predicate CanAppend<T>(r: Rep<T>, m: Model<T>, memory: nat) {
    || m.Tail() < m.tailBase + 32
    || (Leeway(m.tailBase, m.head) && (|m.ring| < |r.ix.order| || memory > 0) && r.pool != {})
  }

  // The counters of a consumer, one element on.
  method CountTaken<T>(ticket: nat, index: nat, ghost m: Model<T>, ghost overcommit: nat)
    returns (ticket': nat, index': nat, ghost m': Model<T>)
    requires Spans(m) && m.contents != [] && ticket == Word(m.head + overcommit) && index == Word(m.head)
    ensures m.ring != [] && m' == AfterTake(m) && m'.Tail() == m.Tail() && m'.contents == m.contents[1..]
    ensures ticket' == Word(m'.head + overcommit) && index' == Word(m'.head)
  {
    m' := AfterTake(m);
    ticket' := E.Next(ticket, m.head + overcommit);
    index' := E.Next(index, m.head);
  }

  // ---------------------------------------------------------------------------------------
  // The producer
  // ---------------------------------------------------------------------------------------

  method EmptyRep<T>(pool: set<BlockId>) returns (r: Rep<T>)
    ensures Fits(r, E.Model([], 0, [], -32)) && r.pool == pool
  {
    var entries := seq(32, _ => IndexEntry(INVALID_BLOCK_BASE, None));
    r := Rep(None, map[], map b | b in pool :: Raw(), map[], pool, Index(seq(32, i => i), entries, 31));
    NewIndexIsLive(r.ix);
    assert forall b :: b in pool ==> FreeBlock(r.cells, b);
  }

  class ImplicitProducer<T(!new)> {
    var tailIndex: nat
    var headIndex: nat
    var dequeueOptimisticCount: nat
    var dequeueOvercommit: nat
    var rep: Rep<T>

    ghost var m: Model<T>
    ghost var overcommit: nat      // the true value of dequeueOvercommit

    ghost predicate Valid()
      reads this
    {
      && Fits(rep, m)
      && tailIndex == Word(m.Tail())
      && headIndex == Word(m.head)
      && dequeueOvercommit == Word(overcommit)
      && dequeueOptimisticCount == Word(m.head + overcommit)
    }

    // A new producer takes its blocks from the pool of its queue.
    constructor (pool: set<BlockId>)
      ensures Valid() && m.contents == [] && rep.pool == pool
    {
      tailIndex, headIndex, dequeueOptimisticCount, dequeueOvercommit := 0, 0, 0, 0;
      m, overcommit := E.Model([], 0, [], -32), 0;
      var r := EmptyRep(pool);
      rep := r;
    }

    method SetTail(r: Rep<T>, newTailIndex: nat, ghost newM: Model<T>)
      requires Valid() && Fits(r, newM) && newTailIndex == Word(newM.Tail()) && newM.head == m.head
      modifies this`tailIndex, this`rep, this`m
      ensures Valid() && rep == r && m == newM
    {
      rep, tailIndex, m := r, newTailIndex, newM;
    }

    // Fails only at the end of a block for want of a block, of memory for the index, or of leeway.
    method Enqueue(x: T, memory: nat) returns (ok: bool)
      requires Valid()
      modifies this`tailIndex, this`rep, this`m
      ensures Valid()
      ensures ok <==> CanAppend(old(rep), old(m), memory)
      ensures m.contents == old(m).contents + (if ok then [x] else []) && m.head == old(m).head
      ensures !ok ==> m == old(m) && rep == old(rep).(ix := rep.ix)
    {
      var r, newTailIndex;
      ghost var newM;
      ok, r, newTailIndex, newM := AppendOne(rep, x, tailIndex, headIndex, memory, m);
      SetTail(r, newTailIndex, newM);
    }

    // All or nothing: appends the items in order, or gives every block it took back and leaves
    // the contents, the tail block, and with them the block every live index is looked up in, as
    // they were.
    method EnqueueBulk(items: seq<T>, memory: nat) returns (ok: bool)
      requires Valid() && |items| <= HALF - 32
      modifies this`tailIndex, this`rep, this`m
      ensures Valid()
      ensures ok ==> m.contents == old(m).contents + items && m.head == old(m).head
      ensures !ok ==> m == old(m) && rep.pool == old(rep).pool && rep.cells == old(rep).cells && rep.tailBlock == old(rep).tailBlock
      ensures ok <==> Enough(old(rep), old(m), memory, BlocksFor(old(m), |items|))
    {
      var r, newTailIndex;
      ghost var newM;
      ok, r, newTailIndex, newM := Append(rep, tailIndex, headIndex, items, memory, m);
      SetTail(r, newTailIndex, newM);
    }

    // Fails exactly if there is nothing to take.
    method Dequeue() returns (r: Option<T>)
      requires Valid()
      modifies this`headIndex, this`dequeueOptimisticCount, this`rep, this`m
      ensures Valid()
      ensures old(m).contents == [] ==> r == None && m == old(m)
      ensures old(m).contents != [] ==> old(m).ring != [] && m == AfterTake(old(m)) && r == Some(old(m).contents[0])
      ensures old(m).contents != [] ==> m.contents == old(m).contents[1..]
    {
      Available(m, overcommit);
      if !CircularLess(Word(dequeueOptimisticCount - dequeueOvercommit), tailIndex) {
        return None;
      }
      var ticket, index := dequeueOptimisticCount, headIndex;
      assert CircularLess(Word(ticket - dequeueOvercommit), tailIndex);
      ghost var m';
      dequeueOptimisticCount, headIndex, m' := CountTaken(ticket, index, m, overcommit);
      var newRep, x := TakeFirst(rep, index, m);
      rep, m := newRep, m';
      return Some(x);
    }
  }

  lemma {:induction false} Available<T>(m: Model<T>, overcommit: nat)
    requires Spans(m)
    ensures CircularLess(Word(Word(m.head + overcommit) - Word(overcommit)), Word(m.Tail())) <==> m.contents != []
  {
    WordOfDifference(m.head + overcommit, overcommit);
    CircularLessIsLess(m.head, m.Tail());
  }

  lemma {:induction false} NewIndexIsLive(ix: Index)
    requires |ix.order| == 32 == |ix.entries| && ix.tail == 31
    requires forall i :: 0 <= i < 32 ==> ix.order[i] == i && ix.entries[i] == IndexEntry(INVALID_BLOCK_BASE, None)
    ensures Live(ix, [], -32)
  {
    assert PowerOfTwo(4) && PowerOfTwo(32);
    forall i | 0 <= i < 32 ensures PointsAt(ix.order, ix.entries, i) {
    }
    forall i, j | 0 <= i < j < 32 ensures DifferAt(ix.order, i, j) {
    }
    forall a | 0 <= a < 32 ensures HoldsAt(ix, 32, [], -32, 0, 0, a) {
    }
  }

  // While the queue holds a model, any live index is looked up in the block the model says.
  lemma {:induction false} LiveIndexIsFound<T>(r: Rep<T>, m: Model<T>, i: int)
    requires Fits(r, m) && m.head <= i < m.Tail()
    ensures r.ix.order[r.ix.tail] < |r.ix.entries|
    ensures var slot := LookupFrom(r.ix.tail, r.ix.At(r.ix.tail).key, |r.ix.order|, Word(i));
      && 0 <= Rank(m.tailBase, |m.ring|, i) < |m.ring|
      && slot < |r.ix.order| && r.ix.order[slot] < |r.ix.entries|
      && r.ix.At(slot) == IndexEntry(Word(Floor(i)), Some(m.ring[Rank(m.tailBase, |m.ring|, i)]))
  {
    FloorIsAligned(m.head);
    FloorIsAligned(i);
    LookupFindsEntry(r.ix, m.ring, m.tailBase, i);
  }
}
