/**
 Which implicit producer belongs to which thread: a chain of linear-probing hash tables, newest
 first. A lookup that succeeds in an older table copies the entry into the newest one; a thread
 that exits leaves a tombstone in every table, which keeps its slot in use for probing. There is one
 count for all the tables, and it keeps room in the newest one for every copy still to come.

 One operation at a time.
 */
module ProducerHash {
  import opened Wrappers
  import opened Modular
  import opened Sums

  type ThreadId = nat
  type ProducerId = nat

  datatype Key = Empty | Tombstone | Taken(id: ThreadId)

  datatype Table = Table(keys: seq<Key>, values: seq<ProducerId>)

  datatype Producer = Producer(isExplicit: bool, inactive: bool)

  // ---------------------------------------------------------------------------------------
  // One table
  // ---------------------------------------------------------------------------------------

  // How many slots are not free for probing.
  function Used(keys: seq<Key>): (n: nat)
    ensures n <= |keys|
  {
    if keys == [] then 0 else Used(keys[1..]) + if keys[0] == Empty then 0 else 1
  }

  lemma {:induction false} UsedUpdate(keys: seq<Key>, i: nat, k: Key)
    requires i < |keys|
    ensures Used(keys[i := k]) == Used(keys) - (if keys[i] == Empty then 0 else 1) + (if k == Empty then 0 else 1)
  {
    if i > 0 {
      assert keys[i := k][1..] == keys[1..][i - 1 := k];
      UsedUpdate(keys[1..], i - 1, k);
    }
  }

  lemma {:induction false} NotAllUsed(keys: seq<Key>) returns (i: nat)
    requires Used(keys) < |keys|
    ensures i < |keys| && keys[i] == Empty
  {
    if keys[0] == Empty {
      i := 0;
    } else {
      i := NotAllUsed(keys[1..]);
      i := i + 1;
    }
  }

  lemma {:induction false} NoneUsed(keys: seq<Key>)
    requires forall i :: 0 <= i < |keys| ==> keys[i] == Empty
    ensures Used(keys) == 0
  {
    if keys != [] {
      NoneUsed(keys[1..]);
    }
  }

  ghost function Ids(keys: seq<Key>): set<ThreadId> { set i | 0 <= i < |keys| && keys[i].Taken? :: keys[i].id }

  lemma {:induction false} IdsAreUsed(keys: seq<Key>)
    ensures |Ids(keys)| <= Used(keys)
  {
    if keys == [] {
      assert Ids(keys) == {};
    } else {
      IdsAreUsed(keys[1..]);
      var rest := Ids(keys[1..]);
      assert forall i :: 0 <= i < |keys[1..]| ==> keys[1..][i] == keys[i + 1];
      if keys[0].Taken? {
        assert Ids(keys) == rest + {keys[0].id};
      } else {
        assert Ids(keys) == rest;
      }
    }
  }

  // The slot that a probe from h looks at in its j-th step.
  function Slot(h: nat, j: nat, size: nat): nat
    requires size > 0
  {
    Mask(h + j, size)
  }

  // No slot that a probe for this key passes is empty.
  ghost predicate Reachable(keys: seq<Key>, h: nat, j: nat) {
    |keys| > 0 && j < |keys| && forall i :: 0 <= i < j ==> Passable(keys, h, i)
  }

  ghost predicate Passable(keys: seq<Key>, h: nat, i: nat)
    requires |keys| > 0
  {
    keys[Slot(h, i, |keys|)] != Empty
  }

  // Every key belongs to a live thread, has its producer, and is found by probing. The size is a
  // power of two, as masking takes it to be.
  ghost predicate Fits(t: Table, live: map<ThreadId, ProducerId>, hash: ThreadId -> nat) {
    && PowerOfTwo(|t.keys|) && |t.keys| == |t.values| && Used(t.keys) < |t.keys|
    && (forall s :: 0 <= s < |t.keys| && t.keys[s].Taken? ==> SlotFits(t, live, hash, s))
    && (forall s, u :: 0 <= s < u < |t.keys| ==> NotTwice(t.keys, s, u))
  }

  ghost predicate SlotFits(t: Table, live: map<ThreadId, ProducerId>, hash: ThreadId -> nat, s: nat)
    requires |t.keys| == |t.values| && s < |t.keys| && t.keys[s].Taken?
  {
    var id := t.keys[s].id;
    id in live && t.values[s] == live[id] && Reachable(t.keys, hash(id), Distance(hash(id), s, |t.keys|))
  }

  ghost predicate NotTwice(keys: seq<Key>, s: nat, u: nat)
    requires s < |keys| && u < |keys|
  {
    keys[s].Taken? ==> keys[s] != keys[u]
  }

  function Distance(h: nat, s: nat, size: nat): nat
    requires size > 0
  {
    (s - h) % size
  }

  lemma {:induction false} DistanceIsSlot(h: nat, s: nat, size: nat)
    requires s < size
    ensures Slot(h, Distance(h, s, size), size) == s && Distance(h, s, size) < size
  {
    ModOfMod(s - h, h, size);
    ModUnique(s, 0, s, size);
  }

  lemma {:induction false} SlotIsDistance(h: nat, j: nat, size: nat)
    requires j < size
    ensures Distance(h, Slot(h, j, size), size) == j
  {
    ModOfMod(h + j, 0 - h, size);
    ModUnique(j, 0, j, size);
  }

  lemma {:induction false} NextSlot(h: nat, j: nat, size: nat)
    requires size > 0
    ensures Mask(Slot(h, j, size) + 1, size) == Slot(h, j + 1, size)
  {
    ModOfMod(h + j, 1, size);
  }

  // Looks for a key: up to its slot, or up to an empty one, which must come.
  method Probe(t: Table, hashedId: nat, id: ThreadId, ghost live: map<ThreadId, ProducerId>, ghost hash: ThreadId -> nat) returns (r: Option<nat>)
    requires Fits(t, live, hash) && hashedId == hash(id)
    ensures r.Some? <==> id in Ids(t.keys)
    ensures r.Some? ==> r.value < |t.keys| && t.keys[r.value] == Taken(id)
  {
    var size := |t.keys|;
    ghost var empty := NotAllUsed(t.keys);
    ghost var last := Distance(hashedId, empty, size);
    DistanceIsSlot(hashedId, empty, size);
    var index: nat := hashedId;
    ghost var j: nat := 0;
    while true
      invariant 0 <= j <= last && Mask(index, size) == Slot(hashedId, j, size)
      invariant forall i :: 0 <= i < j ==> Passable(t.keys, hashedId, i) && t.keys[Slot(hashedId, i, size)] != Taken(id)
      decreases last - j
    {
      index := Mask(index, size);
      ModUnique(index, 0, index, size);
      var probedKey := t.keys[index];
      if probedKey == Taken(id) {
        return Some(index);
      }
      if probedKey == Empty {
        NotBehindEmpty(t, hashedId, j, id, live, hash);
        return None;
      }
      NextSlot(hashedId, j, size);
      assert Passable(t.keys, hashedId, j);
      index := index + 1;
      j := j + 1;
    }
  }

  lemma {:induction false} NotBehindEmpty(t: Table, h: nat, j: nat, id: ThreadId, live: map<ThreadId, ProducerId>, hash: ThreadId -> nat)
    requires Fits(t, live, hash) && h == hash(id) && t.keys[Slot(h, j, |t.keys|)] == Empty
    requires forall i :: 0 <= i < j ==> Passable(t.keys, h, i) && t.keys[Slot(h, i, |t.keys|)] != Taken(id)
    ensures id !in Ids(t.keys)
  {
    forall s | 0 <= s < |t.keys| ensures t.keys[s] != Taken(id) {
      assert t.keys[s] == Taken(id) ==> SlotFits(t, live, hash, s);
      DistanceIsSlot(h, s, |t.keys|);
      var d := Distance(h, s, |t.keys|);
      assert d < j ==> Passable(t.keys, h, d);
      assert j < d && Reachable(t.keys, h, d) ==> Passable(t.keys, h, j);
    }
  }

  // The first slot on the way that is empty or a tombstone.
  method FreeSlot(t: Table, hashedId: nat, ghost live: map<ThreadId, ProducerId>, ghost hash: ThreadId -> nat) returns (index: nat)
    requires Fits(t, live, hash)
    ensures index < |t.keys| && !t.keys[index].Taken?
    ensures Reachable(t.keys, hashedId, Distance(hashedId, index, |t.keys|))
  {
    var size := |t.keys|;
    ghost var empty := NotAllUsed(t.keys);
    ghost var last := Distance(hashedId, empty, size);
    DistanceIsSlot(hashedId, empty, size);
    index := hashedId;
    ghost var j: nat := 0;
    while true
      invariant 0 <= j <= last && Mask(index, size) == Slot(hashedId, j, size)
      invariant forall i :: 0 <= i < j ==> Passable(t.keys, hashedId, i)
      decreases last - j
    {
      index := Mask(index, size);
      ModUnique(index, 0, index, size);
      if t.keys[index] == Empty || t.keys[index] == Tombstone {
        SlotIsDistance(hashedId, j, size);
        return;
      }
      NextSlot(hashedId, j, size);
      assert Passable(t.keys, hashedId, j);
      index := index + 1;
      j := j + 1;
    }
  }

  lemma {:induction false} StillReachable(keys: seq<Key>, i: nat, k: Key, h: nat, j: nat)
    requires Reachable(keys, h, j) && i < |keys| && k != Empty
    ensures Reachable(keys[i := k], h, j)
  {
    var keys' := keys[i := k];
    forall u | 0 <= u < j ensures Passable(keys', h, u) {
      assert Passable(keys, h, u);
    }
  }

  function Put(t: Table, i: nat, k: Key, p: ProducerId): Table
    requires i < |t.keys| == |t.values|
  {
    Table(t.keys[i := k], t.values[i := p])
  }

  // A thread that is not in the table yet gets a slot.
  lemma {:induction false} PutFits(t: Table, live: map<ThreadId, ProducerId>, hash: ThreadId -> nat, i: nat, id: ThreadId, p: ProducerId)
    requires Fits(t, live, hash) && id !in Ids(t.keys)
    requires i < |t.keys| && !t.keys[i].Taken? && Reachable(t.keys, hash(id), Distance(hash(id), i, |t.keys|))
    requires Used(t.keys) + (if t.keys[i] == Empty then 1 else 0) < |t.keys|
    ensures var t' := Put(t, i, Taken(id), p);
      && Fits(t', live[id := p], hash)
      && Used(t'.keys) == Used(t.keys) + (if t.keys[i] == Empty then 1 else 0)
      && Ids(t'.keys) == Ids(t.keys) + {id}
  {
    var t', live' := Put(t, i, Taken(id), p), live[id := p];
    UsedUpdate(t.keys, i, Taken(id));
    forall s | 0 <= s < |t.keys| && t'.keys[s].Taken? ensures SlotFits(t', live', hash, s) {
      if s != i {
        assert SlotFits(t, live, hash, s);
        assert t.keys[s].id in Ids(t.keys);
      }
      var h := hash(t'.keys[s].id);
      StillReachable(t.keys, i, Taken(id), h, Distance(h, s, |t.keys|));
    }
    forall s, u | 0 <= s < u < |t.keys| ensures NotTwice(t'.keys, s, u) {
      assert NotTwice(t.keys, s, u);
    }
    forall x ensures x in Ids(t'.keys) <==> x in Ids(t.keys) + {id} {
      if x in Ids(t.keys) {
        var s :| 0 <= s < |t.keys| && t.keys[s].Taken? && t.keys[s].id == x;
        assert t'.keys[s].Taken? && t'.keys[s].id == x;
      }
      assert t'.keys[i].id == id;
    }
  }

  // An older table does not know the new thread.
  lemma {:induction false} OlderFits(t: Table, live: map<ThreadId, ProducerId>, hash: ThreadId -> nat, id: ThreadId, p: ProducerId)
    requires Fits(t, live, hash) && id !in live
    ensures Fits(t, live[id := p], hash) && id !in Ids(t.keys)
  {
    forall s | 0 <= s < |t.keys| && t.keys[s].Taken? ensures SlotFits(t, live[id := p], hash, s) && t.keys[s].id != id {
      assert SlotFits(t, live, hash, s);
    }
  }

  lemma {:induction false} WithoutFits(t: Table, live: map<ThreadId, ProducerId>, hash: ThreadId -> nat, id: ThreadId)
    requires Fits(t, live, hash) && id !in Ids(t.keys)
    ensures Fits(t, live - {id}, hash)
  {
    forall s | 0 <= s < |t.keys| && t.keys[s].Taken? ensures SlotFits(t, live - {id}, hash, s) {
      assert SlotFits(t, live, hash, s);
      assert t.keys[s].id in Ids(t.keys);
    }
  }

  lemma {:induction false} BuryFits(t: Table, live: map<ThreadId, ProducerId>, hash: ThreadId -> nat, i: nat, id: ThreadId)
    requires Fits(t, live, hash) && i < |t.keys| && t.keys[i] == Taken(id)
    ensures var t' := t.(keys := t.keys[i := Tombstone]);
      && Fits(t', live - {id}, hash)
      && Used(t'.keys) == Used(t.keys)
      && Ids(t'.keys) == Ids(t.keys) - {id}
  {
    var t' := t.(keys := t.keys[i := Tombstone]);
    UsedUpdate(t.keys, i, Tombstone);
    forall s | 0 <= s < |t.keys| && s != i ensures t.keys[s] != Taken(id) {
      assert if s < i then NotTwice(t.keys, s, i) else NotTwice(t.keys, i, s);
    }
    forall s | 0 <= s < |t.keys| && t'.keys[s].Taken? ensures SlotFits(t', live - {id}, hash, s) {
      assert SlotFits(t, live, hash, s);
      var h := hash(t'.keys[s].id);
      StillReachable(t.keys, i, Tombstone, h, Distance(h, s, |t.keys|));
    }
    forall s, u | 0 <= s < u < |t.keys| ensures NotTwice(t'.keys, s, u) {
      assert NotTwice(t.keys, s, u);
    }
    forall x ensures x in Ids(t'.keys) <==> x in Ids(t.keys) - {id} {
      if x in Ids(t.keys) && x != id {
        var s :| 0 <= s < |t.keys| && t.keys[s].Taken? && t.keys[s].id == x;
        assert t'.keys[s].Taken? && t'.keys[s].id == x;
      }
    }
  }

  // ---------------------------------------------------------------------------------------
  // The chain
  // ---------------------------------------------------------------------------------------

  ghost predicate AllFit(tables: seq<Table>, live: map<ThreadId, ProducerId>, hash: ThreadId -> nat) {
    forall k :: 0 <= k < |tables| ==> FitsAt(tables, live, hash, k)
  }

  ghost predicate FitsAt(tables: seq<Table>, live: map<ThreadId, ProducerId>, hash: ThreadId -> nat, k: nat)
    requires k < |tables|
  {
    Fits(tables[k], live, hash)
  }

  ghost predicate AllPresent(tables: seq<Table>, live: map<ThreadId, ProducerId>) {
    forall id :: id in live ==> Present(tables, id)
  }

  ghost predicate Present(tables: seq<Table>, id: ThreadId) { exists k :: 0 <= k < |tables| && Has(tables, k, id) }

  ghost predicate Has(tables: seq<Table>, k: nat, id: ThreadId)
    requires k < |tables|
  {
    id in Ids(tables[k].keys)
  }

  // The newest table has room for itself and for every entry that may yet be copied into it: those
  // of the threads in `pending`.
  ghost predicate Kept(t: Table, live: map<ThreadId, ProducerId>, pending: set<ThreadId>, count: nat) {
    Used(t.keys) + |pending| <= count && forall id :: id in live ==> HeldAt(t.keys, pending, id)
  }

  ghost predicate HeldAt(keys: seq<Key>, pending: set<ThreadId>, id: ThreadId) { id in Ids(keys) || id in pending }

  ghost predicate Roomy(t: Table, live: map<ThreadId, ProducerId>, pending: set<ThreadId>, count: nat) {
    Kept(t, live, pending, count) && count < |t.keys| / 2
  }

  // Every live thread has an active producer of its own.
  ghost predicate Owned(producers: seq<Producer>, live: map<ThreadId, ProducerId>) {
    && (forall id :: id in live ==> OwnedAt(producers, live, id))
    && (forall i, j :: i in live && j in live && i != j ==> Separate(live, i, j))
  }

  ghost predicate OwnedAt(producers: seq<Producer>, live: map<ThreadId, ProducerId>, id: ThreadId)
    requires id in live
  {
    live[id] < |producers| && !producers[live[id]].isExplicit && !producers[live[id]].inactive
  }

  ghost predicate Separate(live: map<ThreadId, ProducerId>, i: ThreadId, j: ThreadId)
    requires i in live && j in live
  {
    live[i] != live[j]
  }

  // Copying an entry into the newest table uses the room that was kept for it.
  lemma {:induction false} CopyIsRoomy(t: Table, live: map<ThreadId, ProducerId>, hash: ThreadId -> nat, pending: set<ThreadId>, count: nat, i: nat, id: ThreadId)
    requires Fits(t, live, hash) && Roomy(t, live, pending, count) && id in live && id !in Ids(t.keys)
    requires i < |t.keys| && !t.keys[i].Taken? && Reachable(t.keys, hash(id), Distance(hash(id), i, |t.keys|))
    ensures Fits(Put(t, i, Taken(id), live[id]), live, hash) && Roomy(Put(t, i, Taken(id), live[id]), live, pending - {id}, count)
    ensures Ids(Put(t, i, Taken(id), live[id]).keys) == Ids(t.keys) + {id}
  {
    assert HeldAt(t.keys, pending, id);
    PutFits(t, live, hash, i, id, live[id]);
    assert live[id := live[id]] == live;
    var keys', pending' := Put(t, i, Taken(id), live[id]).keys, pending - {id};
    forall x | x in live ensures HeldAt(keys', pending', x) {
      assert HeldAt(t.keys, pending, x);
    }
  }

  // Adding a thread counts one, unless it takes a tombstone, which is counted already.
  lemma {:induction false} AddIsRoomy(t: Table, live: map<ThreadId, ProducerId>, hash: ThreadId -> nat, pending: set<ThreadId>, count: nat, i: nat, id: ThreadId, p: ProducerId)
    requires Fits(t, live, hash) && id !in live && Kept(t, live, pending, count) && count + 1 < |t.keys| / 2
    requires i < |t.keys| && !t.keys[i].Taken? && Reachable(t.keys, hash(id), Distance(hash(id), i, |t.keys|))
    ensures var t' := Put(t, i, Taken(id), p);
      && Fits(t', live[id := p], hash)
      && Roomy(t', live[id := p], pending, if t.keys[i] == Tombstone then count else count + 1)
      && Ids(t'.keys) == Ids(t.keys) + {id}
  {
    OlderFits(t, live, hash, id, p);
    PutFits(t, live, hash, i, id, p);
    var keys', live' := Put(t, i, Taken(id), p).keys, live[id := p];
    forall x | x in live' ensures HeldAt(keys', pending, x) {
      assert x != id ==> HeldAt(t.keys, pending, x);
    }
  }

  // A new table, all of whose entries are still to be copied.
  lemma {:induction false} NewIsRoomy(t: Table, t': Table, live: map<ThreadId, ProducerId>, hash: ThreadId -> nat, pending: set<ThreadId>, count: nat)
    requires Kept(t, live, pending, count)
    requires PowerOfTwo(|t'.keys|) && |t'.keys| == |t'.values| > 0 && forall i :: 0 <= i < |t'.keys| ==> t'.keys[i] == Empty
    ensures Fits(t', live, hash) && Kept(t', live, live.Keys, count)
  {
    NoneUsed(t'.keys);
    IdsAreUsed(t.keys);
    forall id | id in live.Keys ensures id in Ids(t.keys) + pending {
      assert HeldAt(t.keys, pending, id);
    }
    CardinalityBound(live.Keys, Ids(t.keys), pending);
    forall id | id in live ensures HeldAt(t'.keys, live.Keys, id) {
    }
  }

  lemma {:induction false} CardinalityBound(a: set<ThreadId>, b: set<ThreadId>, c: set<ThreadId>)
    requires a <= b + c
    ensures |a| <= |b| + |c|
    decreases |a|
  {
    if a != {} {
      var x :| x in a;
      CardinalityBound(a - {x}, b - {x}, c - {x});
    }
  }

  lemma {:induction false} AllPresentAdded(tables: seq<Table>, tables': seq<Table>, live: map<ThreadId, ProducerId>, id: ThreadId, p: ProducerId)
    requires AllPresent(tables, live) && tables != [] && |tables'| == |tables| && tables'[1..] == tables[1..]
    requires Ids(tables'[0].keys) == Ids(tables[0].keys) + {id}
    ensures AllPresent(tables', live[id := p])
  {
    forall x | x in live[id := p] ensures Present(tables', x) {
      if x == id {
        assert Has(tables', 0, id);
      } else {
        assert Present(tables, x);
        var k :| 0 <= k < |tables| && Has(tables, k, x);
        assert k > 0 ==> tables'[k] == tables'[1..][k - 1] == tables[k];
        assert Has(tables', k, x);
      }
    }
  }

  lemma {:induction false} AllFitAdded(tables: seq<Table>, t': Table, live: map<ThreadId, ProducerId>, hash: ThreadId -> nat, id: ThreadId, p: ProducerId)
    requires AllFit(tables, live, hash) && tables != [] && id !in live && Fits(t', live[id := p], hash)
    ensures AllFit(tables[0 := t'], live[id := p], hash)
  {
    var tables', live' := tables[0 := t'], live[id := p];
    forall k | 0 <= k < |tables'| ensures FitsAt(tables', live', hash, k) {
      assert FitsAt(tables, live, hash, k);
      OlderFits(tables[k], live, hash, id, p);
    }
  }

  lemma {:induction false} AllFitCopied(tables: seq<Table>, t': Table, live: map<ThreadId, ProducerId>, hash: ThreadId -> nat)
    requires AllFit(tables, live, hash) && tables != [] && Fits(t', live, hash)
    ensures AllFit(tables[0 := t'], live, hash)
  {
    var tables' := tables[0 := t'];
    forall k | 0 <= k < |tables'| ensures FitsAt(tables', live, hash, k) {
      assert FitsAt(tables, live, hash, k);
    }
  }

  lemma {:induction false} Prepended(tables: seq<Table>, t: Table, live: map<ThreadId, ProducerId>, hash: ThreadId -> nat)
    requires AllFit(tables, live, hash) && AllPresent(tables, live) && Fits(t, live, hash)
    ensures AllFit([t] + tables, live, hash) && AllPresent([t] + tables, live)
  {
    var tables' := [t] + tables;
    forall k | 0 <= k < |tables'| ensures FitsAt(tables', live, hash, k) {
      assert k > 0 ==> FitsAt(tables, live, hash, k - 1);
    }
    forall id | id in live ensures Present(tables', id) {
      assert Present(tables, id);
      var k :| 0 <= k < |tables| && Has(tables, k, id);
      assert Has(tables', k + 1, id);
    }
  }

  lemma {:induction false} OwnedMore(producers: seq<Producer>, live: map<ThreadId, ProducerId>, id: ThreadId, p: ProducerId)
    requires Owned(producers, live) && p < |producers| && !producers[p].isExplicit && !producers[p].inactive
    requires forall x :: x in live ==> live[x] != p
    ensures Owned(producers, live[id := p])
  {
    var live' := live[id := p];
    forall x | x in live' ensures OwnedAt(producers, live', x) {
      assert x != id ==> OwnedAt(producers, live, x);
    }
    forall i, j | i in live' && j in live' && i != j ensures Separate(live', i, j) {
      assert i != id && j != id ==> Separate(live, i, j);
    }
  }

  // The list of producers is walked from the newest one.
  function Newest(producers: seq<Producer>, isExplicit: bool): (r: Option<ProducerId>)
    ensures r.Some? <==> Producer(isExplicit, true) in producers
    ensures r.Some? ==> r.value < |producers| && producers[r.value] == Producer(isExplicit, true)
  {
    if producers == [] then None
    else
      var last := |producers| - 1;
      if producers[last] == Producer(isExplicit, true) then Some(last) else
        assert producers == producers[..last] + [producers[last]];
        Newest(producers[..last], isExplicit)
  }

  // Producer p is in use.
  function InUse(producers: seq<Producer>, isExplicit: bool, p: ProducerId): seq<Producer>
    requires p <= |producers|
  {
    if p == |producers| then producers + [Producer(isExplicit, false)] else producers[p := Producer(isExplicit, false)]
  }

  method FindInactive(producers: seq<Producer>, isExplicit: bool) returns (r: Option<ProducerId>)
    ensures r == Newest(producers, isExplicit)
  {
    var p := |producers|;
    assert producers[..p] == producers;
    while p > 0
      invariant 0 <= p <= |producers| && Newest(producers[..p], isExplicit) == Newest(producers, isExplicit)
    {
      p := p - 1;
      assert producers[..p + 1][..p] == producers[..p];
      if producers[p].inactive && producers[p].isExplicit == isExplicit {
        return Some(p);
      }
    }
    return None;
  }

  // Looks in one table after the other.
  method Search(tables: seq<Table>, hashedId: nat, id: ThreadId, ghost live: map<ThreadId, ProducerId>, ghost hash: ThreadId -> nat)
    returns (k: nat, r: Option<ProducerId>)
    requires AllFit(tables, live, hash) && AllPresent(tables, live) && hashedId == hash(id)
    ensures r == if id in live then Some(live[id]) else None
    ensures r.Some? ==> k < |tables| && (k > 0 ==> !Has(tables, 0, id))
  {
    k := 0;
    while k < |tables|
      invariant k <= |tables| && forall j :: 0 <= j < k ==> !Has(tables, j, id)
    {
      assert FitsAt(tables, live, hash, k);
      var found := Probe(tables[k], hashedId, id, live, hash);
      if found.Some? {
        assert SlotFits(tables[k], live, hash, found.value);
        assert k > 0 ==> !Has(tables, 0, id);
        return k, Some(tables[k].values[found.value]);
      }
      assert !Has(tables, k, id);
      k := k + 1;
    }
    assert !Present(tables, id);
    return k, None;
  }

  method CopyToNewest(tables: seq<Table>, id: ThreadId, value: ProducerId, ghost live: map<ThreadId, ProducerId>, hash: ThreadId -> nat,
                      ghost pending: set<ThreadId>, ghost count: nat)
    returns (tables': seq<Table>, ghost pending': set<ThreadId>)
    requires tables != [] && AllFit(tables, live, hash) && AllPresent(tables, live) && Roomy(tables[0], live, pending, count)
    requires id in live && live[id] == value && !Has(tables, 0, id)
    ensures tables' != [] && AllFit(tables', live, hash) && AllPresent(tables', live) && Roomy(tables'[0], live, pending', count)
  {
    assert FitsAt(tables, live, hash, 0);
    var index := FreeSlot(tables[0], hash(id), live, hash);
    CopyIsRoomy(tables[0], live, hash, pending, count, index, id);
    Copied(tables, Put(tables[0], index, Taken(id), value), live, hash, id);
    tables', pending' := tables[0 := Put(tables[0], index, Taken(id), value)], pending - {id};
  }

  lemma {:induction false} Copied(tables: seq<Table>, t': Table, live: map<ThreadId, ProducerId>, hash: ThreadId -> nat, id: ThreadId)
    requires AllFit(tables, live, hash) && AllPresent(tables, live) && tables != [] && id in live
    requires Fits(t', live, hash) && Ids(t'.keys) == Ids(tables[0].keys) + {id}
    ensures AllFit(tables[0 := t'], live, hash) && AllPresent(tables[0 := t'], live)
  {
    AllFitCopied(tables, t', live, hash);
    AllPresentAdded(tables, tables[0 := t'], live, id, live[id]);
    assert live[id := live[id]] == live;
  }

  method NewTable(tables: seq<Table>, newCapacity: nat, ghost live: map<ThreadId, ProducerId>, ghost hash: ThreadId -> nat,
                  ghost pending: set<ThreadId>, ghost count: nat)
    returns (tables': seq<Table>)
    requires tables != [] && AllFit(tables, live, hash) && AllPresent(tables, live) && PowerOfTwo(newCapacity)
    requires Kept(tables[0], live, pending, count)
    ensures tables' != [] && AllFit(tables', live, hash) && AllPresent(tables', live) && |tables'[0].keys| == newCapacity
    ensures Kept(tables'[0], live, live.Keys, count)
  {
    var t := Table(seq(newCapacity, _ => Empty), seq(newCapacity, _ => 0));
    NewIsRoomy(tables[0], t, live, hash, pending, count);
    Prepended(tables, t, live, hash);
    tables' := [t] + tables;
  }

  method AddEntry(tables: seq<Table>, id: ThreadId, p: ProducerId, newCount: nat, ghost live: map<ThreadId, ProducerId>, hash: ThreadId -> nat,
                  ghost pending: set<ThreadId>)
    returns (tables': seq<Table>, count': nat)
    requires tables != [] && AllFit(tables, live, hash) && AllPresent(tables, live) && id !in live && newCount > 0
    requires Kept(tables[0], live, pending, newCount - 1) && newCount < |tables[0].keys| / 2
    ensures tables' != [] && AllFit(tables', live[id := p], hash) && AllPresent(tables', live[id := p])
    ensures Roomy(tables'[0], live[id := p], pending, count')
  {
    assert FitsAt(tables, live, hash, 0);
    var index := FreeSlot(tables[0], hash(id), live, hash);
    AddIsRoomy(tables[0], live, hash, pending, newCount - 1, index, id, p);
    var t := Put(tables[0], index, Taken(id), p);
    tables' := tables[0 := t];
    count' := if tables[0].keys[index] == Tombstone then newCount - 1 else newCount;
    AllFitAdded(tables, t, live, hash, id, p);
    AllPresentAdded(tables, tables', live, id, p);
  }

  // Puts a tombstone in the place of the thread in every table it is in.
  method Bury(tables: seq<Table>, id: ThreadId, ghost live: map<ThreadId, ProducerId>, hash: ThreadId -> nat,
              ghost pending: set<ThreadId>, ghost count: nat)
    returns (tables': seq<Table>)
    requires tables != [] && AllFit(tables, live, hash) && AllPresent(tables, live) && Roomy(tables[0], live, pending, count) && id in live
    ensures tables' != [] && AllFit(tables', live - {id}, hash) && AllPresent(tables', live - {id}) && Roomy(tables'[0], live - {id}, pending, count)
  {
    var hashedId, k := hash(id), 0;
    tables' := tables;
    while k < |tables|
      invariant k <= |tables| == |tables'| && tables'[k..] == tables[k..]
      invariant forall j :: 0 <= j < k ==> BuriedAt(tables, tables', live, hash, id, j)
    {
      assert tables'[k] == tables'[k..][0] == tables[k];
      assert FitsAt(tables, live, hash, k);
      var found := Probe(tables'[k], hashedId, id, live, hash);
      ghost var before := tables';
      if found.Some? {
        BuryFits(tables[k], live, hash, found.value, id);
        tables' := tables'[k := tables'[k].(keys := tables'[k].keys[found.value := Tombstone])];
      } else {
        WithoutFits(tables[k], live, hash, id);
      }
      forall j | 0 <= j < k + 1 ensures BuriedAt(tables, tables', live, hash, id, j) {
        assert j < k ==> BuriedAt(tables, before, live, hash, id, j);
      }
      k := k + 1;
    }
    Buried(tables, tables', live, hash, id, pending, count);
  }

  ghost predicate BuriedAt(tables: seq<Table>, tables': seq<Table>, live: map<ThreadId, ProducerId>, hash: ThreadId -> nat, id: ThreadId, j: nat)
    requires j < |tables| == |tables'|
  {
    && Fits(tables'[j], live - {id}, hash)
    && Ids(tables'[j].keys) == Ids(tables[j].keys) - {id}
    && Used(tables'[j].keys) == Used(tables[j].keys) && |tables'[j].keys| == |tables[j].keys|
  }

  lemma {:induction false} Buried(tables: seq<Table>, tables': seq<Table>, live: map<ThreadId, ProducerId>, hash: ThreadId -> nat, id: ThreadId,
                                 pending: set<ThreadId>, count: nat)
    requires tables != [] && |tables| == |tables'| && AllPresent(tables, live) && Roomy(tables[0], live, pending, count) && id in live
    requires forall j :: 0 <= j < |tables| ==> BuriedAt(tables, tables', live, hash, id, j)
    ensures AllFit(tables', live - {id}, hash) && AllPresent(tables', live - {id}) && Roomy(tables'[0], live - {id}, pending, count)
  {
    forall k | 0 <= k < |tables'| ensures FitsAt(tables', live - {id}, hash, k) {
      assert BuriedAt(tables, tables', live, hash, id, k);
    }
    forall x | x in live - {id} ensures Present(tables', x) {
      assert Present(tables, x);
      var k :| 0 <= k < |tables| && Has(tables, k, x);
      assert BuriedAt(tables, tables', live, hash, id, k) && Has(tables', k, x);
    }
    assert BuriedAt(tables, tables', live, hash, id, 0);
    forall x | x in live - {id} ensures HeldAt(tables'[0].keys, pending, x) {
      assert HeldAt(tables[0].keys, pending, x);
    }
  }

  // Another thread fits below half of the newest table, or there is memory for a larger one.
  predicate HasRoom(count: nat, tables: seq<Table>, hasMemory: bool) { hasMemory || (tables != [] && count + 1 < |tables[0].keys| / 2) }

  // A producer can be used again, or there is memory for another one.
  predicate HasProducer(producers: seq<Producer>, hasMemory: bool) { hasMemory || Producer(false, true) in producers }

  // The producer that is obtained, if there is one.
  function Obtained(producers: seq<Producer>, isExplicit: bool, hasMemory: bool): (r: Option<ProducerId>)
    ensures r.Some? ==> r.value <= |producers|
    ensures hasMemory ==> r.Some?
  {
    var p := Newest(producers, isExplicit);
    if p.Some? then p else if hasMemory then Some(|producers|) else None
  }

  datatype Threads = Threads(producers: seq<Producer>, live: map<ThreadId, ProducerId>) {
    // A thread gets a producer.
    function Started(id: ThreadId): Threads {
      var p := Obtained(producers, false, true).value;
      Threads(InUse(producers, false, p), live[id := p])
    }

    // A thread exits, and its producer can be used again.
    function Exited(id: ThreadId): Threads
      requires id in live && live[id] < |producers|
    {
      Threads(producers[live[id] := producers[live[id]].(inactive := true)], live - {id})
    }
  }

  class ProducerTable {
    const hash: ThreadId -> nat
    var tables: seq<Table>         // the newest first
    var count: nat
    var producers: seq<Producer>
    ghost var live: map<ThreadId, ProducerId>
    ghost var pending: set<ThreadId>

    ghost predicate Valid()
      reads this
    {
      && tables != []
      && AllFit(tables, live, hash) && AllPresent(tables, live)
      && Roomy(tables[0], live, pending, count)
      && Owned(producers, live)
    }

    constructor (hash: ThreadId -> nat)
      ensures Valid() && live == map[] && this.hash == hash
    {
      this.hash := hash;
      tables := [Table(seq(32, _ => Empty), seq(32, _ => 0))];
      count, producers, live, pending := 0, [], map[], {};
      new;
      NoneUsed(tables[0].keys);
      assert PowerOfTwo(4) && PowerOfTwo(32);
      assert FitsAt(tables, live, hash, 0);
    }

    // The threads that have a producer, and the producers.
    ghost function State(): Threads
      reads this
    {
      Threads(producers, live)
    }

    // The newest inactive producer of the kind, and a new one only if there is none.
    method RecycleOrCreateProducer(isExplicit: bool, hasMemory: bool) returns (r: Option<ProducerId>)
      requires Owned(producers, live)
      modifies this`producers
      ensures Owned(producers, live)
      ensures r == Obtained(old(producers), isExplicit, hasMemory)
      ensures producers == if r.Some? then InUse(old(producers), isExplicit, r.value) else old(producers)
      ensures Producer(isExplicit, true) in old(producers) ==> r.Some? && r.value < old(|producers|) == |producers|
      ensures r.Some? ==> r.value < |producers| && producers[r.value] == Producer(isExplicit, false)
      ensures r.Some? ==> forall id :: id in live ==> live[id] != r.value
    {
      r := FindInactive(producers, isExplicit);
      assert forall id :: id in live ==> OwnedAt(producers, live, id);
      if r.Some? {
        producers := producers[r.value := Producer(isExplicit, false)];
      } else if hasMemory {
        r := Some(|producers|);
        producers := producers + [Producer(isExplicit, false)];
      }
    }

    // The producer of a thread that has one.
    method Lookup(id: ThreadId) returns (r: Option<ProducerId>)
      requires Valid()
      modifies this`tables, this`pending
      ensures Valid()
      ensures r == if id in live then Some(live[id]) else None
      ensures r.None? ==> tables == old(tables)
    {
      var k;
      k, r := Search(tables, hash(id), id, live, hash);
      if r.Some? && k != 0 {
        tables, pending := CopyToNewest(tables, id, r.value, live, hash, pending, count);
      }
    }

    // A larger table in front of the others, if the newest is getting full. (The count rises by
    // one at a time, so doubling once is enough.)
    method Resize(newCount: nat, hasMemory: bool) returns (ok: bool)
      requires Valid() && newCount == count + 1
      modifies this`tables, this`pending
      ensures tables != [] && AllFit(tables, live, hash) && AllPresent(tables, live)
      ensures ok <==> HasRoom(old(count), old(tables), hasMemory)
      ensures !ok ==> tables == old(tables) && pending == old(pending)
      ensures Kept(tables[0], live, pending, count) && (ok ==> newCount < |tables[0].keys| / 2)
    {
      var capacity := |tables[0].keys|;
      if newCount < capacity / 2 {
        return true;
      }
      if !hasMemory {
        return false;
      }
      var newCapacity := capacity * 2;
      assert newCount < newCapacity / 2;
      assert PowerOfTwo(newCapacity) by {
        assert FitsAt(tables, live, hash, 0) && newCapacity / 2 == capacity;
      }
      tables := NewTable(tables, newCapacity, live, hash, pending, count);
      pending := live.Keys;
      return true;
    }

    // The producer of this thread: the one it has, or else an unused or a new one. Fails only if
    // there is no memory for a table or for a producer.
    method GetOrAddImplicitProducer(id: ThreadId, tableMemory: bool, producerMemory: bool) returns (r: Option<ProducerId>)
      requires Valid()
      modifies this
      ensures Valid()
      ensures id in old(live) ==> r == Some(old(live)[id]) && State() == old(State())
      ensures id !in old(live) && r.Some? ==> State() == old(State()).Started(id) && r == Some(live[id])
      ensures id !in old(live) && r.Some? ==> forall x :: x in old(live) ==> old(live)[x] != r.value
      ensures r.None? ==> State() == old(State())
      ensures Producer(false, true) in old(producers) ==> |producers| == old(|producers|)
      ensures r.Some? <==> id in old(live) || (HasRoom(old(count), old(tables), tableMemory) && HasProducer(old(producers), producerMemory))
    {
      r := Lookup(id);
      if r.Some? {
        return;
      }
      var newCount := 1 + count;
      var room := Resize(newCount, tableMemory);
      if !room {
        return None;
      }
      // Below half full, and so in particular below three quarters.
      assert newCount < |tables[0].keys| / 2 + |tables[0].keys| / 4;
      r := RecycleOrCreateProducer(false, producerMemory);
      if r.Some? {
        Add(id, r.value, newCount);
      }
    }

    // Puts a new thread in the newest table.
    method Add(id: ThreadId, p: ProducerId, newCount: nat)
      requires tables != [] && AllFit(tables, live, hash) && AllPresent(tables, live) && Owned(producers, live)
      requires Kept(tables[0], live, pending, count) && newCount == count + 1 < |tables[0].keys| / 2
      requires id !in live && p < |producers| && !producers[p].isExplicit && !producers[p].inactive
      requires forall x :: x in live ==> live[x] != p
      modifies this`tables, this`count, this`live
      ensures Valid() && live == old(live)[id := p]
    {
      OwnedMore(producers, live, id, p);
      tables, count := AddEntry(tables, id, p, newCount, live, hash, pending);
      live := live[id := p];
    }

    // The thread goes, and its producer is there for another one.
    method ImplicitProducerThreadExited(id: ThreadId, p: ProducerId)
      requires Valid() && id in live && live[id] == p
      modifies this`tables, this`producers, this`live
      ensures OwnedAt(old(producers), old(live), id)
      ensures Valid() && State() == old(State()).Exited(id)
    {
      assert OwnedAt(producers, live, id);
      tables := Bury(tables, id, live, hash, pending, count);
      OwnedLess(producers, live, id);
      producers := producers[p := producers[p].(inactive := true)];
      live := live - {id};
    }
  }

  // ---------------------------------------------------------------------------------------
  // How many producers there are
  // ---------------------------------------------------------------------------------------

  function IsImplicit(p: Producer): nat { if p.isExplicit then 0 else 1 }
  function IsActive(p: Producer): nat { if p.isExplicit || p.inactive then 0 else 1 }

  function Implicits(producers: seq<Producer>): nat { Total(producers, IsImplicit) }
  function Actives(producers: seq<Producer>): nat { Total(producers, IsActive) }

  // What threads, and the owners of tokens, do.
  datatype Event = Start(id: ThreadId) | Exit(id: ThreadId) | Token

  ghost predicate Happens(s: Threads, e: Event, s': Threads) {
    match e
    case Start(id) => id !in s.live && s' == s.Started(id)
    case Exit(id) => id in s.live && s.live[id] < |s.producers| && s' == s.Exited(id)
    case Token =>
      var p := Obtained(s.producers, true, true);
      s' == s.(producers := InUse(s.producers, true, p.value))
  }

  ghost predicate Follows(s: Threads, s': Threads) { exists e :: Happens(s, e, s') }

  ghost predicate IsRun(run: seq<Threads>) {
    && |run| > 0
    && run[0] == Threads([], map[])
    && forall i :: 0 < i < |run| ==> Follows(run[i - 1], run[i])
  }

  // The largest number of threads with a producer at once, so far.
  function Peak(run: seq<Threads>): nat {
    if run == [] then 0 else
      var before, now := Peak(run[..|run| - 1]), |run[|run| - 1].live|;
      if before < now then now else before
  }

  // Every active implicit producer is some thread's.
  ghost predicate Balanced(s: Threads) {
    Owned(s.producers, s.live) && Actives(s.producers) == |s.live|
  }

  lemma {:induction false} InUseCounts(producers: seq<Producer>, isExplicit: bool)
    ensures var p := Obtained(producers, isExplicit, true).value;
      && p <= |producers|
      && Actives(InUse(producers, isExplicit, p)) == Actives(producers) + (if isExplicit then 0 else 1)
      && Implicits(InUse(producers, isExplicit, p)) ==
           Implicits(producers) + if isExplicit || Producer(isExplicit, true) in producers then 0 else 1
  {
    var p := Obtained(producers, isExplicit, true).value;
    if p < |producers| {
      TotalUpdate(producers, p, Producer(isExplicit, false), IsActive);
      TotalUpdate(producers, p, Producer(isExplicit, false), IsImplicit);
    } else {
      assert (producers + [Producer(isExplicit, false)])[..p] == producers;
    }
  }

  // If no implicit producer is inactive, all of them are in use.
  lemma {:induction false} AllActive(producers: seq<Producer>)
    ensures Actives(producers) <= Implicits(producers)
    ensures Producer(false, true) !in producers ==> Actives(producers) == Implicits(producers)
  {
    if producers != [] {
      var last := |producers| - 1;
      AllActive(producers[..last]);
      assert producers == producers[..last] + [producers[last]];
    }
  }

  // The producer obtained is no live thread's, and theirs stay as they are.
  lemma {:induction false} InUseOwned(producers: seq<Producer>, live: map<ThreadId, ProducerId>, isExplicit: bool)
    requires Owned(producers, live)
    ensures var p := Obtained(producers, isExplicit, true).value;
      p <= |producers| && Owned(InUse(producers, isExplicit, p), live) && forall id :: id in live ==> live[id] != p
  {
    var p := Obtained(producers, isExplicit, true).value;
    forall id | id in live ensures OwnedAt(InUse(producers, isExplicit, p), live, id) && live[id] != p {
      assert OwnedAt(producers, live, id);
    }
  }

  // There are as many implicit producers as ever, or else as many as threads.
  ghost predicate Grows(before: nat, threads: nat, after: nat) { after == if before < threads then threads else before }

  lemma {:induction false} StartCounts(producers: seq<Producer>, producers': seq<Producer>)
    requires producers' == InUse(producers, false, Obtained(producers, false, true).value)
    ensures Actives(producers') == Actives(producers) + 1 && Grows(Implicits(producers), Actives(producers'), Implicits(producers'))
  {
    AllActive(producers);
    AllActive(producers');
    InUseCounts(producers, false);
  }

  lemma {:induction false} StartKeepsBalance(s: Threads, id: ThreadId)
    requires Balanced(s) && id !in s.live
    ensures Balanced(s.Started(id))
    ensures Grows(Implicits(s.producers), |s.Started(id).live|, Implicits(s.Started(id).producers))
  {
    var p := Obtained(s.producers, false, true).value;
    var producers' := InUse(s.producers, false, p);
    StartCounts(s.producers, producers');
    InUseOwned(s.producers, s.live, false);
    assert producers'[p] == Producer(false, false);
    OwnedMore(producers', s.live, id, p);
    assert |s.live[id := p]| == |s.live| + 1;
  }

  lemma {:induction false} ExitKeepsBalance(s: Threads, id: ThreadId)
    requires Balanced(s) && id in s.live && s.live[id] < |s.producers|
    ensures Balanced(s.Exited(id))
    ensures Implicits(s.Exited(id).producers) == Implicits(s.producers) && |s.Exited(id).live| == |s.live| - 1
  {
    var p := s.live[id];
    assert OwnedAt(s.producers, s.live, id);
    OwnedLess(s.producers, s.live, id);
    TotalUpdate(s.producers, p, s.producers[p].(inactive := true), IsActive);
    TotalUpdate(s.producers, p, s.producers[p].(inactive := true), IsImplicit);
    assert s.live == (s.live - {id})[id := p];
  }

  lemma {:induction false} EventKeepsBalance(s: Threads, e: Event, s': Threads)
    requires Balanced(s) && Happens(s, e, s')
    ensures Balanced(s') && Grows(Implicits(s.producers), |s'.live|, Implicits(s'.producers))
  {
    AllActive(s.producers);
    match e
    case Start(id) => StartKeepsBalance(s, id);
    case Exit(id) => ExitKeepsBalance(s, id);
    case Token =>
      InUseCounts(s.producers, true);
      InUseOwned(s.producers, s.live, true);
  }

  // On every run of threads that start and exit there are exactly as many implicit producers as
  // there were threads at once when there were most.
  lemma {:induction false} ProducersAreReused(run: seq<Threads>, i: nat)
    requires IsRun(run) && i < |run|
    ensures Balanced(run[i])
    ensures Implicits(run[i].producers) == Peak(run[..i + 1])
  {
    assert run[..i + 1][..i] == run[..i];
    if i > 0 {
      ProducersAreReused(run, i - 1);
      assert Follows(run[i - 1], run[i]);
      var e :| Happens(run[i - 1], e, run[i]);
      EventKeepsBalance(run[i - 1], e, run[i]);
    }
  }

  lemma {:induction false} OwnedLess(producers: seq<Producer>, live: map<ThreadId, ProducerId>, id: ThreadId)
    requires Owned(producers, live) && id in live && OwnedAt(producers, live, id)
    ensures Owned(producers[live[id] := producers[live[id]].(inactive := true)], live - {id})
  {
    var producers', live' := producers[live[id] := producers[live[id]].(inactive := true)], live - {id};
    forall x | x in live' ensures OwnedAt(producers', live', x) {
      assert OwnedAt(producers, live, x) && Separate(live, x, id);
    }
    forall i, j | i in live' && j in live' && i != j ensures Separate(live', i, j) {
      assert Separate(live, i, j);
    }
  }
}
