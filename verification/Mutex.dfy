/**
 The coroutine mutex, as an interleaving machine: every atomic operation on `state_`, and every
 iteration of the list reversal in `unlock`, is one step of one coroutine.

 `state_` is the mutex itself when it is not locked, and otherwise the newest of the awaiters that
 arrived since the waiters were last collected.
 */
module Mutex {
  import opened Wrappers

  type Id = nat

  datatype Word = Unlocked | Locked(newest: Option<Id>)

  datatype PC =
    | Idle
    | TryLock                                            // CAS(state_, unlocked, nullptr)
    | AwaitReady                                         // the same, before suspending
    | LockLoad                                           // oldValue = state_.load()
    | LockTake                                           // oldValue is unlocked: CAS(state_, unlocked, nullptr)
    | LockLink(seen: Option<Id>)                          // awaiter->next_ = oldValue
    | LockPush(seen: Option<Id>)                          // CAS(state_, oldValue, awaiter)
    | Waiting                                            // suspended
    | Holds
    | UnlockStart                                        // assert locked; waitersHead = waiters_
    | UnlockLoad                                         // currentState = state_.load()
    | UnlockCas                                          // CAS(state_, nullptr, unlocked)
    | UnlockExchange                                     // currentState = state_.exchange(nullptr)
    | UnlockReverse(head: Option<Id>, waiter: Id)        // one turn of the reversal
    | UnlockPop(head: Option<Id>)                        // waiters_ = waitersHead->next_
    | UnlockResume(next: Id)                             // awaitingCoroutine_.resume()

  datatype State = State(
    word: Word,
    next: seq<Option<Id>>,         // next_ of the awaiter of each coroutine
    waiters: Option<Id>,
    pcs: seq<PC>,
    arrived: seq<Id>,        // the coroutines that have queued up, in the order of their CAS
    served: seq<Id>)         // the coroutines that have been resumed, in order

  datatype Move = CallTryLock | CallLock | CallUnlock | Advance

  ghost predicate Enabled(s: State, t: Id, m: Move) {
    && t < |s.pcs| == |s.next|
    && match m
       case CallTryLock => s.pcs[t].Idle?
       case CallLock => s.pcs[t].Idle?
       case CallUnlock => s.pcs[t].Holds?
       case Advance => !s.pcs[t].Idle? && !s.pcs[t].Waiting? && !s.pcs[t].Holds? && InRange(s.pcs[t], |s.pcs|)
  }

  // No step goes through a pointer that is null or dangling.
  predicate InRange(pc: PC, n: nat) {
    match pc
    case UnlockReverse(_, w) => w < n
    case UnlockPop(h) => h.Some? && h.value < n
    case UnlockResume(h) => h < n
    case _ => true
  }

  function Goto(s: State, t: Id, pc: PC): State
    requires t < |s.pcs|
  {
    s.(pcs := s.pcs[t := pc])
  }

  // The loop of lockAsyncImpl with the value it has just seen.
  function Retry(word: Word): PC {
    match word
    case Unlocked => LockTake
    case Locked(newest) => LockLink(newest)
  }

  ghost function Step(s: State, t: Id, m: Move): State
    requires Enabled(s, t, m)
  {
    match m
    case CallTryLock => Goto(s, t, TryLock)
    case CallLock => Goto(s, t, AwaitReady)
    case CallUnlock => Goto(s, t, UnlockStart)
    case Advance => StepPC(s, t)
  }

  ghost function StepPC(s: State, t: Id): State
    requires Enabled(s, t, Advance)
  {
    match s.pcs[t]
    case TryLock => if s.word.Unlocked? then Goto(s, t, Holds).(word := Locked(None)) else Goto(s, t, Idle)
    case AwaitReady => if s.word.Unlocked? then Goto(s, t, Holds).(word := Locked(None)) else Goto(s, t, LockLoad)
    case LockLoad => Goto(s, t, Retry(s.word))
    case LockTake => if s.word.Unlocked? then Goto(s, t, Holds).(word := Locked(None)) else Goto(s, t, Retry(s.word))
    case LockLink(seen) => Goto(s, t, LockPush(seen)).(next := s.next[t := seen])
    case LockPush(seen) =>
      if s.word == Locked(seen) then Goto(s, t, Waiting).(word := Locked(Some(t)), arrived := s.arrived + [t])
      else Goto(s, t, Retry(s.word))
    case UnlockStart => Goto(s, t, if s.waiters.None? then UnlockLoad else UnlockPop(s.waiters))
    case UnlockLoad => Goto(s, t, if s.word == Locked(None) then UnlockCas else UnlockExchange)
    case UnlockCas => if s.word == Locked(None) then Goto(s, t, Idle).(word := Unlocked) else Goto(s, t, UnlockExchange)
    case UnlockExchange =>
      if s.word.Locked? && s.word.newest.Some? then Goto(s, t, UnlockReverse(None, s.word.newest.value)).(word := Locked(None)) else s
    case UnlockReverse(head, w) =>
      Goto(s, t, if s.next[w].None? then UnlockPop(Some(w)) else UnlockReverse(Some(w), s.next[w].value)).(next := s.next[w := head])
    case UnlockPop(head) => Goto(s, t, UnlockResume(head.value)).(waiters := s.next[head.value])
    case UnlockResume(h) => s.(pcs := s.pcs[h := Holds][t := Idle], served := s.served + [h])
  }

  ghost predicate Init(s: State) {
    && s.word == Unlocked && s.waiters == None && s.arrived == [] && s.served == []
    && |s.next| == |s.pcs|
    && forall t :: 0 <= t < |s.pcs| ==> s.pcs[t] == Idle
  }

  ghost predicate CanStep(s: State, s': State) {
    exists t, m :: Enabled(s, t, m) && s' == Step(s, t, m)
  }

  ghost predicate IsRun(run: seq<State>) {
    && |run| > 0
    && Init(run[0])
    && forall i :: 0 < i < |run| ==> CanStep(run[i - 1], run[i])
  }

  // ---------------------------------------------------------------------------------------
  // Lists
  // ---------------------------------------------------------------------------------------

  ghost predicate Linked(next: seq<Option<Id>>, head: Option<Id>, list: seq<Id>) {
    && (head == if list == [] then None else Some(list[0]))
    && forall k :: 0 <= k < |list| ==> LinkAt(next, list, k)
  }

  ghost predicate LinkAt(next: seq<Option<Id>>, list: seq<Id>, k: nat)
    requires k < |list|
  {
    list[k] < |next| && next[list[k]] == if k + 1 < |list| then Some(list[k + 1]) else None
  }

  function Reverse(xs: seq<Id>): seq<Id> { if xs == [] then [] else Reverse(xs[1..]) + [xs[0]] }

  lemma {:induction false} ReverseHas(xs: seq<Id>, x: Id)
    ensures x in Reverse(xs) <==> x in xs
  {
    if xs != [] {
      ReverseHas(xs[1..], x);
      assert xs == [xs[0]] + xs[1..];
    }
  }

  lemma {:induction false} LinkedFrame(next: seq<Option<Id>>, head: Option<Id>, list: seq<Id>, t: Id, x: Option<Id>)
    requires Linked(next, head, list) && t < |next| && t !in list
    ensures Linked(next[t := x], head, list)
  {
    var next' := next[t := x];
    forall k | 0 <= k < |list| ensures LinkAt(next', list, k) {
      assert LinkAt(next, list, k);
    }
  }

  lemma {:induction false} LinkedPush(next: seq<Option<Id>>, head: Option<Id>, list: seq<Id>, t: Id)
    requires Linked(next, head, list) && t < |next| && next[t] == head
    ensures Linked(next, Some(t), [t] + list)
  {
    forall k | 0 <= k < |list| + 1 ensures LinkAt(next, [t] + list, k) {
      assert k > 0 ==> LinkAt(next, list, k - 1);
    }
  }

  lemma {:induction false} LinkedPop(next: seq<Option<Id>>, head: Option<Id>, list: seq<Id>)
    requires Linked(next, head, list) && list != []
    ensures list[0] < |next| && Linked(next, next[list[0]], list[1..])
  {
    assert LinkAt(next, list, 0);
    forall k | 0 <= k < |list| - 1 ensures LinkAt(next, list[1..], k) {
      assert LinkAt(next, list, k + 1);
    }
  }

  ghost predicate Distinct(xs: seq<Id>) { forall j, k :: 0 <= j < k < |xs| ==> xs[j] != xs[k] }

  // ---------------------------------------------------------------------------------------
  // The invariant
  // ---------------------------------------------------------------------------------------

  // Who holds the lock, and the three lists: `fifo` in the order of service, `rest` and `chain`
  // newest first.
  datatype Aux = Aux(holder: Option<Id>, fifo: seq<Id>, rest: seq<Id>, chain: seq<Id>) {
    function Pending(): seq<Id> { Reverse(rest) + fifo + Reverse(chain) }
  }

  predicate Owner(pc: PC) {
    pc.Holds? || pc.UnlockStart? || pc.UnlockLoad? || pc.UnlockCas? || pc.UnlockExchange? || pc.UnlockReverse? || pc.UnlockPop? || pc.UnlockResume?
  }

  ghost predicate Inv(s: State, a: Aux) {
    && |s.next| == |s.pcs|
    && (match s.word
        case Unlocked => a == Aux(None, [], [], []) && s.waiters == None
        case Locked(newest) => Linked(s.next, newest, a.chain) && a.holder.Some?)
    && (forall t :: 0 <= t < |s.pcs| ==> ThreadInv(s, a, t))
    && (a.holder.Some? ==> a.holder.value < |s.pcs| && OwnerInv(s, a, s.pcs[a.holder.value]))
    && Distinct(a.Pending())
    && (forall k :: 0 <= k < |a.Pending()| ==> PendingAt(s, a, k))
    && s.arrived == s.served + a.Pending()
  }

  ghost predicate PendingAt(s: State, a: Aux, k: nat)
    requires k < |a.Pending()|
  {
    a.Pending()[k] < |s.pcs| && s.pcs[a.Pending()[k]] == Waiting
  }

  ghost predicate ThreadInv(s: State, a: Aux, t: Id)
    requires t < |s.pcs| == |s.next|
  {
    && (Owner(s.pcs[t]) <==> a.holder == Some(t))
    && (s.pcs[t].Waiting? ==> t in a.Pending())
    && (s.pcs[t].LockPush? ==> s.next[t] == s.pcs[t].seen)
  }

  ghost predicate OwnerInv(s: State, a: Aux, pc: PC) {
    match pc
    case Holds => a.rest == [] && Linked(s.next, s.waiters, a.fifo)
    case UnlockStart => a.rest == [] && Linked(s.next, s.waiters, a.fifo)
    case UnlockLoad => a.rest == [] && a.fifo == [] && s.waiters == None
    case UnlockCas => a.rest == [] && a.fifo == [] && s.waiters == None
    case UnlockExchange => a.rest == [] && a.fifo == [] && s.waiters == None && a.chain != []
    case UnlockReverse(head, w) => a.rest != [] && Linked(s.next, head, a.fifo) && Linked(s.next, Some(w), a.rest) && s.waiters == None
    case UnlockPop(head) => a.rest == [] && a.fifo != [] && Linked(s.next, head, a.fifo)
    case UnlockResume(h) => a.rest == [] && a.fifo != [] && a.fifo[0] == h && Linked(s.next, s.waiters, a.fifo[1..])
    case _ => false
  }

  ghost function AuxStep(s: State, a: Aux, t: Id, m: Move): Aux
    requires Enabled(s, t, m)
  {
    if m != Advance then a else
      match s.pcs[t]
      case TryLock => if s.word.Unlocked? then a.(holder := Some(t)) else a
      case AwaitReady => if s.word.Unlocked? then a.(holder := Some(t)) else a
      case LockTake => if s.word.Unlocked? then a.(holder := Some(t)) else a
      case LockPush(seen) => if s.word == Locked(seen) then a.(chain := [t] + a.chain) else a
      case UnlockCas => if s.word == Locked(None) then Aux(None, [], [], []) else a
      case UnlockExchange => a.(rest := a.chain, chain := [])
      case UnlockReverse(_, w) => if a.rest == [] then a else a.(rest := a.rest[1..], fifo := [w] + a.fifo)
      case UnlockResume(h) => if a.fifo == [] then a else a.(holder := Some(h), fifo := a.fifo[1..])
      case _ => a
  }

  // A coroutine that is not suspended is on no list.
  lemma {:induction false} NotPending(s: State, a: Aux, t: Id)
    requires Inv(s, a) && t < |s.pcs| && s.pcs[t] != Waiting
    ensures t !in a.Pending() && t !in a.fifo && t !in a.rest && t !in a.chain
  {
    forall k | 0 <= k < |a.Pending()| ensures a.Pending()[k] != t {
      assert PendingAt(s, a, k);
    }
    ReverseHas(a.rest, t);
    ReverseHas(a.chain, t);
    assert t in a.Pending() <==> t in Reverse(a.rest) || t in a.fifo || t in Reverse(a.chain);
  }

  // A step that changes nothing but where one coroutine is.
  lemma {:induction false} QuietStep(s: State, a: Aux, t: Id, pc: PC)
    requires Inv(s, a) && t < |s.pcs|
    requires !s.pcs[t].Waiting? && !pc.Waiting? && !pc.LockPush? && (Owner(pc) <==> Owner(s.pcs[t]))
    requires Owner(pc) ==> OwnerInv(s, a, pc)
    ensures Inv(Goto(s, t, pc), a)
  {
    var s' := Goto(s, t, pc);
    NotPending(s, a, t);
    assert ThreadInv(s, a, t);
    forall u | 0 <= u < |s.pcs| ensures ThreadInv(s', a, u) {
      assert ThreadInv(s, a, u);
    }
    forall k | 0 <= k < |a.Pending()| ensures PendingAt(s', a, k) {
      assert PendingAt(s, a, k);
    }
  }

  // The lock is free and is taken.
  lemma {:induction false} AcquireStep(s: State, a: Aux, t: Id)
    requires Inv(s, a) && t < |s.pcs| && s.word.Unlocked? && !s.pcs[t].Waiting?
    ensures Inv(Goto(s, t, Holds).(word := Locked(None)), a.(holder := Some(t)))
  {
    var s', a' := Goto(s, t, Holds).(word := Locked(None)), a.(holder := Some(t));
    forall u | 0 <= u < |s.pcs| ensures ThreadInv(s', a', u) {
      assert ThreadInv(s, a, u);
    }
  }

  lemma {:induction false} LinkStep(s: State, a: Aux, t: Id)
    requires Inv(s, a) && t < |s.pcs| && s.pcs[t].LockLink?
    ensures Inv(Goto(s, t, LockPush(s.pcs[t].seen)).(next := s.next[t := s.pcs[t].seen]), a)
  {
    var seen := s.pcs[t].seen;
    var s' := Goto(s, t, LockPush(seen)).(next := s.next[t := seen]);
    assert ThreadInv(s, a, t);
    NotPending(s, a, t);
    forall u | 0 <= u < |s.pcs| ensures ThreadInv(s', a, u) {
      assert ThreadInv(s, a, u);
    }
    forall k | 0 <= k < |a.Pending()| ensures PendingAt(s', a, k) {
      assert PendingAt(s, a, k);
    }
    if s.word.Locked? {
      LinkedFrame(s.next, s.word.newest, a.chain, t, seen);
      OwnerFrame(s, a, t, seen);
    }
  }

  lemma {:induction false} OwnerFrame(s: State, a: Aux, t: Id, x: Option<Id>)
    requires t < |s.next| && t !in a.fifo && t !in a.rest && a.holder.Some? && a.holder.value < |s.pcs|
    requires OwnerInv(s, a, s.pcs[a.holder.value])
    ensures OwnerInv(s.(next := s.next[t := x]), a, s.pcs[a.holder.value])
  {
    match s.pcs[a.holder.value]
    case Holds => LinkedFrame(s.next, s.waiters, a.fifo, t, x);
    case UnlockStart => LinkedFrame(s.next, s.waiters, a.fifo, t, x);
    case UnlockReverse(head, w) =>
      LinkedFrame(s.next, head, a.fifo, t, x);
      LinkedFrame(s.next, Some(w), a.rest, t, x);
    case UnlockPop(head) => LinkedFrame(s.next, head, a.fifo, t, x);
    case UnlockResume(h) => LinkedFrame(s.next, s.waiters, a.fifo[1..], t, x);
    case _ =>
  }

  // A coroutine queues up at the end of the order of service.
  lemma {:induction false} PushStep(s: State, a: Aux, t: Id)
    requires Inv(s, a) && t < |s.pcs| && s.pcs[t].LockPush? && s.word == Locked(s.pcs[t].seen)
    ensures Inv(Goto(s, t, Waiting).(word := Locked(Some(t)), arrived := s.arrived + [t]), a.(chain := [t] + a.chain))
  {
    var s', a' := Goto(s, t, Waiting).(word := Locked(Some(t)), arrived := s.arrived + [t]), a.(chain := [t] + a.chain);
    assert ThreadInv(s, a, t);
    NotPending(s, a, t);
    LinkedPush(s.next, s.word.newest, a.chain, t);
    assert a'.chain[1..] == a.chain;
    assert a'.Pending() == a.Pending() + [t];
    forall u | 0 <= u < |s.pcs| ensures ThreadInv(s', a', u) {
      assert ThreadInv(s, a, u);
    }
    forall k | 0 <= k < |a'.Pending()| ensures PendingAt(s', a', k) {
      assert k < |a.Pending()| ==> PendingAt(s, a, k);
    }
  }

  // The lock is given up, with nobody waiting.
  lemma {:induction false} ReleaseStep(s: State, a: Aux, t: Id)
    requires Inv(s, a) && t < |s.pcs| && s.pcs[t].UnlockCas? && s.word == Locked(None)
    ensures Inv(Goto(s, t, Idle).(word := Unlocked), Aux(None, [], [], []))
  {
    var s', a' := Goto(s, t, Idle).(word := Unlocked), Aux(None, [], [], []);
    assert ThreadInv(s, a, t);
    assert a.chain == [];
    forall u | 0 <= u < |s.pcs| ensures ThreadInv(s', a', u) {
      assert ThreadInv(s, a, u);
    }
  }

  // The newly arrived waiters are collected, newest first.
  lemma {:induction false} ExchangeStep(s: State, a: Aux, t: Id)
    requires Inv(s, a) && t < |s.pcs| && s.pcs[t].UnlockExchange?
    ensures s.word.Locked? && s.word.newest.Some?
    ensures Inv(Goto(s, t, UnlockReverse(None, s.word.newest.value)).(word := Locked(None)), a.(rest := a.chain, chain := []))
  {
    assert ThreadInv(s, a, t);
    var s', a' := Goto(s, t, UnlockReverse(None, s.word.newest.value)).(word := Locked(None)), a.(rest := a.chain, chain := []);
    assert a'.Pending() == a.Pending();
    NotPending(s, a, t);
    forall u | 0 <= u < |s.pcs| ensures ThreadInv(s', a', u) {
      assert ThreadInv(s, a, u);
    }
    forall k | 0 <= k < |a'.Pending()| ensures PendingAt(s', a', k) {
      assert PendingAt(s, a, k);
    }
  }

  // One waiter moves from the front of the collected ones to the front of the order of service.
  lemma {:induction false} ReverseStep(s: State, a: Aux, t: Id)
    requires Inv(s, a) && t < |s.pcs| && s.pcs[t].UnlockReverse?
    ensures InRange(s.pcs[t], |s.pcs|) && Enabled(s, t, Advance)
    ensures Inv(StepPC(s, t), AuxStep(s, a, t, Advance))
  {
    assert ThreadInv(s, a, t);
    var head, w := s.pcs[t].head, s.pcs[t].waiter;
    LinkedPop(s.next, Some(w), a.rest);
    var s', a' := StepPC(s, t), AuxStep(s, a, t, Advance);
    assert a.rest == [w] + a.rest[1..];
    assert a'.Pending() == a.Pending();
    NotPending(s, a, t);
    RestIsApart(a, w);
    LinkedFrame(s.next, head, a.fifo, w, head);
    LinkedFrame(s.next, s.next[w], a.rest[1..], w, head);
    LinkedFrame(s.next, s.word.newest, a.chain, w, head);
    LinkedPush(s'.next, head, a.fifo, w);
    assert w in a.Pending();
    forall u | 0 <= u < |s.pcs| ensures ThreadInv(s', a', u) {
      assert ThreadInv(s, a, u);
      if u == w {
        var k :| 0 <= k < |a.Pending()| && a.Pending()[k] == w;
        assert PendingAt(s, a, k);
      }
    }
    forall k | 0 <= k < |a'.Pending()| ensures PendingAt(s', a', k) {
      assert PendingAt(s, a, k);
    }
  }

  // The first of the collected waiters is nowhere else.
  lemma {:induction false} RestIsApart(a: Aux, w: Id)
    requires Distinct(a.Pending()) && a.rest != [] && a.rest[0] == w
    ensures w !in a.rest[1..] && w !in a.fifo && w !in a.chain && w in a.Pending()
  {
    var r := Reverse(a.rest[1..]);
    var p := r + [w] + a.fifo + Reverse(a.chain);
    assert Reverse(a.rest) == r + [w] && a.Pending() == p;
    assert p[|r|] == w;
    forall k | 0 <= k < |p| && k != |r| ensures p[k] != w {
    }
    forall x | x == w ensures x !in r && x !in a.fifo && x !in Reverse(a.chain) {
      assert forall k :: 0 <= k < |r| ==> p[k] == r[k];
      assert forall k :: 0 <= k < |a.fifo| ==> p[|r| + 1 + k] == a.fifo[k];
      assert forall k :: 0 <= k < |Reverse(a.chain)| ==> p[|r| + 1 + |a.fifo| + k] == Reverse(a.chain)[k];
    }
    ReverseHas(a.rest[1..], w);
    ReverseHas(a.chain, w);
  }

  lemma {:induction false} PopStep(s: State, a: Aux, t: Id)
    requires Inv(s, a) && t < |s.pcs| && s.pcs[t].UnlockPop?
    ensures InRange(s.pcs[t], |s.pcs|) && Enabled(s, t, Advance)
    ensures Inv(StepPC(s, t), a)
  {
    assert ThreadInv(s, a, t);
    LinkedPop(s.next, s.pcs[t].head, a.fifo);
    var s' := StepPC(s, t);
    NotPending(s, a, t);
    forall u | 0 <= u < |s.pcs| ensures ThreadInv(s', a, u) {
      assert ThreadInv(s, a, u);
    }
    forall k | 0 <= k < |a.Pending()| ensures PendingAt(s', a, k) {
      assert PendingAt(s, a, k);
    }
  }

  // The lock is handed to the first in the order of service without being released.
  lemma {:induction false} ResumeStep(s: State, a: Aux, t: Id)
    requires Inv(s, a) && t < |s.pcs| && s.pcs[t].UnlockResume?
    ensures InRange(s.pcs[t], |s.pcs|) && Enabled(s, t, Advance) && s.pcs[s.pcs[t].next] == Waiting
    ensures Inv(StepPC(s, t), AuxStep(s, a, t, Advance))
  {
    assert ThreadInv(s, a, t);
    var h := s.pcs[t].next;
    PendingTail(a);
    assert PendingAt(s, a, 0);
    var s', a' := s.(pcs := s.pcs[h := Holds][t := Idle], served := s.served + [h]), a.(holder := Some(h), fifo := a.fifo[1..]);
    ResumeThreads(s, a, t, h, s', a');
    assert s'.arrived == s'.served + a'.Pending();
  }

  lemma {:induction false} ResumeThreads(s: State, a: Aux, t: Id, h: Id, s': State, a': Aux)
    requires Inv(s, a) && t < |s.pcs| && s.pcs[t] == UnlockResume(h) && h < |s.pcs| && s.pcs[h] == Waiting
    requires s' == s.(pcs := s.pcs[h := Holds][t := Idle], served := s.served + [h])
    requires a.fifo != [] && a' == a.(holder := Some(h), fifo := a.fifo[1..])
    requires a.Pending() == [h] + a'.Pending() && Distinct(a'.Pending()) && h !in a'.Pending()
    ensures forall u :: 0 <= u < |s.pcs| ==> ThreadInv(s', a', u)
    ensures forall k :: 0 <= k < |a'.Pending()| ==> PendingAt(s', a', k)
  {
    assert ThreadInv(s, a, t);
    forall u | 0 <= u < |s.pcs| ensures ThreadInv(s', a', u) {
      assert ThreadInv(s, a, u);
    }
    forall k | 0 <= k < |a'.Pending()| ensures PendingAt(s', a', k) {
      assert PendingAt(s, a, k + 1);
      assert a.Pending()[k + 1] == a'.Pending()[k];
    }
  }

  // The order of service without its first.
  lemma {:induction false} PendingTail(a: Aux)
    requires a.rest == [] && a.fifo != [] && Distinct(a.Pending())
    ensures var p, p' := a.Pending(), a.(fifo := a.fifo[1..]).Pending();
      && p == [a.fifo[0]] + p' && p' == p[1..] && Distinct(p') && a.fifo[0] !in p'
  {
    var p, q := a.Pending(), a.fifo[1..] + Reverse(a.chain);
    assert a.fifo == [a.fifo[0]] + a.fifo[1..];
    assert p == [a.fifo[0]] + q;
    assert a.(fifo := a.fifo[1..]).Pending() == q;
    assert q == p[1..];
    forall k | 0 <= k < |q| ensures q[k] == p[k + 1] != p[0] {
    }
  }

  lemma {:induction false} StepKeepsInv(s: State, a: Aux, t: Id, m: Move)
    requires Inv(s, a) && Enabled(s, t, m)
    ensures Inv(Step(s, t, m), AuxStep(s, a, t, m))
  {
    assert ThreadInv(s, a, t);
    match m
    case CallTryLock => QuietStep(s, a, t, TryLock);
    case CallLock => QuietStep(s, a, t, AwaitReady);
    case CallUnlock => QuietStep(s, a, t, UnlockStart);
    case Advance => if Owner(s.pcs[t]) { OwnerStep(s, a, t); } else { OtherStep(s, a, t); }
  }

  lemma {:induction false} OtherStep(s: State, a: Aux, t: Id)
    requires Inv(s, a) && Enabled(s, t, Advance) && !Owner(s.pcs[t])
    ensures Inv(StepPC(s, t), AuxStep(s, a, t, Advance))
  {
    match s.pcs[t]
    case TryLock => if s.word.Unlocked? { AcquireStep(s, a, t); } else { QuietStep(s, a, t, Idle); }
    case AwaitReady => if s.word.Unlocked? { AcquireStep(s, a, t); } else { QuietStep(s, a, t, LockLoad); }
    case LockLoad => QuietStep(s, a, t, Retry(s.word));
    case LockTake => if s.word.Unlocked? { AcquireStep(s, a, t); } else { QuietStep(s, a, t, Retry(s.word)); }
    case LockLink(_) => LinkStep(s, a, t);
    case LockPush(seen) => if s.word == Locked(seen) { PushStep(s, a, t); } else { QuietStep(s, a, t, Retry(s.word)); }
  }

  lemma {:induction false} OwnerStep(s: State, a: Aux, t: Id)
    requires Inv(s, a) && Enabled(s, t, Advance) && Owner(s.pcs[t])
    ensures Inv(StepPC(s, t), AuxStep(s, a, t, Advance))
  {
    assert ThreadInv(s, a, t);
    match s.pcs[t]
    case UnlockStart => QuietStep(s, a, t, if s.waiters.None? then UnlockLoad else UnlockPop(s.waiters));
    case UnlockLoad => QuietStep(s, a, t, if s.word == Locked(None) then UnlockCas else UnlockExchange);
    case UnlockCas => if s.word == Locked(None) { ReleaseStep(s, a, t); } else { QuietStep(s, a, t, UnlockExchange); }
    case UnlockExchange => ExchangeStep(s, a, t);
    case UnlockReverse(_, _) => ReverseStep(s, a, t);
    case UnlockPop(_) => PopStep(s, a, t);
    case UnlockResume(_) => ResumeStep(s, a, t);
  }

  // ---------------------------------------------------------------------------------------
  // Main results
  // ---------------------------------------------------------------------------------------

  lemma {:induction false} InitInv(s: State)
    requires Init(s)
    ensures Inv(s, Aux(None, [], [], []))
  {
    var a := Aux(None, [], [], []);
    forall t | 0 <= t < |s.pcs| ensures ThreadInv(s, a, t) {
    }
  }

  lemma {:induction false} RunKeepsInv(run: seq<State>, i: nat) returns (a: Aux)
    requires IsRun(run) && i < |run|
    ensures Inv(run[i], a)
  {
    if i == 0 {
      InitInv(run[0]);
      a := Aux(None, [], [], []);
    } else {
      a := RunKeepsInv(run, i - 1);
      assert CanStep(run[i - 1], run[i]);
      var t, m :| Enabled(run[i - 1], t, m) && run[i] == Step(run[i - 1], t, m);
      StepKeepsInv(run[i - 1], a, t, m);
      a := AuxStep(run[i - 1], a, t, m);
    }
  }

  // The assertions of unlock, and that no null or dangling awaiter is followed.
  ghost predicate AssertionsHold(s: State, t: Id)
    requires t < |s.pcs|
  {
    && InRange(s.pcs[t], |s.pcs|)
    && (s.pcs[t].UnlockStart? ==> s.word.Locked?)
    && (s.pcs[t].UnlockExchange? ==> s.word.Locked? && s.word.newest.Some?)
    && (s.pcs[t].UnlockResume? ==> s.pcs[s.pcs[t].next] == Waiting)
  }

  // `queue` is who waits, in the order of arrival: everyone who has arrived and was not served.
  // While the holder is not collecting it is `waiters_` followed by the list at `state_` reversed.
  ghost predicate Queue(s: State, queue: seq<Id>) {
    && s.arrived == s.served + queue
    && Distinct(queue)
    && (forall t: Id :: t < |s.pcs| ==> (s.pcs[t].Waiting? <==> t in queue))
    && (s.word.Unlocked? ==> queue == [])
    && forall t: Id :: t < |s.pcs| && s.pcs[t].Holds? ==> SplitQueue(s, queue)
  }

  ghost predicate SplitQueue(s: State, queue: seq<Id>) {
    s.word.Locked? && exists first, newest :: queue == first + Reverse(newest) && Linked(s.next, s.waiters, first) && Linked(s.next, s.word.newest, newest)
  }

  ghost predicate Safe(s: State) {
    && (forall t, u :: 0 <= t < u < |s.pcs| ==> !(Owner(s.pcs[t]) && Owner(s.pcs[u])))
    && ((forall t :: 0 <= t < |s.pcs| ==> !Owner(s.pcs[t])) <==> s.word.Unlocked?)
    && (forall t :: 0 <= t < |s.pcs| ==> AssertionsHold(s, t))
    && exists queue :: Queue(s, queue)
  }

  lemma {:induction false} InvImpliesQueue(s: State, a: Aux)
    requires Inv(s, a)
    ensures Queue(s, a.Pending())
  {
    forall t: Id | t < |s.pcs| ensures s.pcs[t].Waiting? <==> t in a.Pending() {
      assert ThreadInv(s, a, t);
      if !s.pcs[t].Waiting? {
        NotPending(s, a, t);
      }
    }
    forall t: Id | t < |s.pcs| && s.pcs[t].Holds? ensures SplitQueue(s, a.Pending()) {
      assert ThreadInv(s, a, t);
      assert a.Pending() == a.fifo + Reverse(a.chain);
    }
  }

  lemma {:induction false} InvImpliesAssertions(s: State, a: Aux, t: Id)
    requires Inv(s, a) && t < |s.pcs|
    ensures AssertionsHold(s, t)
  {
    assert ThreadInv(s, a, t);
    match s.pcs[t]
    case UnlockReverse(_, _) => ReverseStep(s, a, t);
    case UnlockPop(_) => PopStep(s, a, t);
    case UnlockResume(_) => ResumeStep(s, a, t);
    case _ =>
  }

  // On every run: one holder at most, no assertion fails, and the queue is served in the order of
  // arrival, each waiter once.
  lemma {:induction false} EveryRunIsSafe(run: seq<State>, i: nat)
    requires IsRun(run) && i < |run|
    ensures Safe(run[i])
  {
    var s := run[i];
    var a := RunKeepsInv(run, i);
    forall t, u | 0 <= t < u < |s.pcs| ensures !(Owner(s.pcs[t]) && Owner(s.pcs[u])) {
      assert ThreadInv(s, a, t) && ThreadInv(s, a, u);
    }
    if a.holder.Some? {
      assert ThreadInv(s, a, a.holder.value);
    }
    forall t | 0 <= t < |s.pcs| ensures AssertionsHold(s, t) && (Owner(s.pcs[t]) ==> s.word.Locked?) {
      assert ThreadInv(s, a, t);
      InvImpliesAssertions(s, a, t);
    }
    InvImpliesQueue(s, a);
  }

  // Once everyone is done the mutex may be destroyed.
  lemma {:induction false} MayBeDestroyed(run: seq<State>, i: nat)
    requires IsRun(run) && i < |run|
    requires forall t :: 0 <= t < |run[i].pcs| ==> run[i].pcs[t] == Idle
    ensures run[i].word.Unlocked? && run[i].waiters == None && run[i].arrived == run[i].served
  {
    var a := RunKeepsInv(run, i);
    forall t | 0 <= t < |run[i].pcs| ensures a.holder != Some(t) {
      assert ThreadInv(run[i], a, t);
    }
    assert Reverse([]) + [] + Reverse([]) == [];
  }

  // Who asks for the lock without waiting gets it if and only if nobody has it: with `tryLock`, and
  // in the first and the repeated attempt of `lock`.
  lemma {:induction false} AttemptAnswers(run: seq<State>, i: nat, t: Id)
    requires IsRun(run) && i < |run| && Enabled(run[i], t, Advance)
    requires run[i].pcs[t].TryLock? || run[i].pcs[t].AwaitReady? || run[i].pcs[t].LockTake?
    ensures var s' := Step(run[i], t, Advance);
      if forall u :: 0 <= u < |run[i].pcs| ==> !Owner(run[i].pcs[u]) then s'.pcs[t].Holds?
      else !Owner(s'.pcs[t]) && (run[i].pcs[t].TryLock? ==> s'.pcs[t].Idle?)
  {
    EveryRunIsSafe(run, i);
  }

  // ---------------------------------------------------------------------------------------
  // One coroutine at a time
  // ---------------------------------------------------------------------------------------

  // Coroutine t runs alone until it is idle, suspended or holds the lock, for k steps at most.
  ghost function Alone(s: State, t: Id, k: nat): State
    decreases k
  {
    if k == 0 || !Enabled(s, t, Advance) then s else Alone(Step(s, t, Advance), t, k - 1)
  }

  lemma {:induction false} AloneGoesOn(s: State, t: Id, k: nat, s': State)
    requires Enabled(s, t, Advance) && s' == Step(s, t, Advance) && k > 0
    ensures Alone(s, t, k) == Alone(s', t, k - 1)
  {
  }

  lemma {:induction false} AloneIsDone(s: State, t: Id, k: nat)
    requires t < |s.pcs| && (s.pcs[t].Idle? || s.pcs[t].Waiting? || s.pcs[t].Holds?)
    ensures Alone(s, t, k) == s
  {
  }

  // A `lock` with nobody else about takes the lock if it is free, and queues up behind the others
  // if it is not.
  lemma {:induction false} LoneLock(s: State, t: Id, k: nat)
    requires t < |s.pcs| == |s.next| && s.pcs[t].Idle? && k >= 4
    ensures Alone(Step(s, t, CallLock), t, k) ==
      match s.word
      case Unlocked => Goto(s, t, Holds).(word := Locked(None))
      case Locked(newest) => Goto(s, t, Waiting).(word := Locked(Some(t)), next := s.next[t := newest], arrived := s.arrived + [t])
  {
    var s0 := Goto(s, t, AwaitReady);
    match s.word
    case Unlocked =>
      var s1 := Goto(s, t, Holds).(word := Locked(None));
      assert s1.pcs == s0.pcs[t := Holds];
      AloneGoesOn(s0, t, k, s1);
      AloneIsDone(s1, t, k - 1);
    case Locked(newest) =>
      var s1 := Goto(s, t, LockLoad);
      assert s1.pcs == s0.pcs[t := LockLoad];
      AloneGoesOn(s0, t, k, s1);
      LoneQueue(s, t, newest, s1, k - 1);
  }

  lemma {:induction false} LoneQueue(s: State, t: Id, newest: Option<Id>, s1: State, k: nat)
    requires t < |s.pcs| == |s.next| && s.word == Locked(newest) && s1 == Goto(s, t, LockLoad) && k >= 3
    ensures Alone(s1, t, k) == Goto(s, t, Waiting).(word := Locked(Some(t)), next := s.next[t := newest], arrived := s.arrived + [t])
  {
    var s2 := Goto(s, t, LockLink(newest));
    assert s2.pcs == s1.pcs[t := LockLink(newest)];
    AloneGoesOn(s1, t, k, s2);
    var s3 := Goto(s, t, LockPush(newest)).(next := s.next[t := newest]);
    assert s3.pcs == s2.pcs[t := LockPush(newest)];
    AloneGoesOn(s2, t, k - 1, s3);
    var s4 := Goto(s, t, Waiting).(word := Locked(Some(t)), next := s.next[t := newest], arrived := s.arrived + [t]);
    assert s4.pcs == s3.pcs[t := Waiting];
    AloneGoesOn(s3, t, k - 2, s4);
    AloneIsDone(s4, t, k - 3);
  }

  predicate Unlocking(pc: PC) { Owner(pc) && !pc.Holds? }

  // How many steps an unlock still takes, if nobody arrives.
  ghost function Left(pc: PC, a: Aux): nat
    requires Unlocking(pc)
  {
    match pc
    case UnlockStart => |a.chain| + 6
    case UnlockLoad => |a.chain| + 5
    case UnlockCas => |a.chain| + 4
    case UnlockExchange => |a.chain| + 3
    case UnlockReverse(_, _) => |a.rest| + 2
    case UnlockPop(_) => 2
    case UnlockResume(_) => 1
  }

  // What an unlock does with those who wait in the order of `queue`: the first of them has the lock,
  // or nobody has it.
  ghost predicate Unlocks(s: State, s': State, t: Id, queue: seq<Id>) {
    && t < |s'.pcs| && s'.pcs[t].Idle? && s'.arrived == s.arrived
    && if queue == [] then s'.word.Unlocked? && s'.served == s.served
       else s'.word.Locked? && s'.served == s.served + [queue[0]] && queue[0] < |s'.pcs| && s'.pcs[queue[0]].Holds?
  }

  lemma {:induction false} UnlockStep(s: State, a: Aux, t: Id)
    requires Inv(s, a) && t < |s.pcs| && Unlocking(s.pcs[t])
    ensures Enabled(s, t, Advance)
    ensures var s', a' := Step(s, t, Advance), AuxStep(s, a, t, Advance);
      && Inv(s', a')
      && (Unlocks(s, s', t, a.Pending())
          || (Unlocking(s'.pcs[t]) && Left(s'.pcs[t], a') < Left(s.pcs[t], a)
              && a'.Pending() == a.Pending() && s'.arrived == s.arrived && s'.served == s.served))
  {
    InvImpliesAssertions(s, a, t);
    assert ThreadInv(s, a, t);
    StepKeepsInv(s, a, t, Advance);
    match s.pcs[t]
    case UnlockStart =>
    case UnlockLoad =>
    case UnlockCas => assert Reverse([]) + [] + Reverse([]) == [];
    case UnlockExchange => assert a.(rest := a.chain, chain := []).Pending() == a.Pending();
    case UnlockReverse(_, w) => ReversedOne(a, w);
    case UnlockPop(_) =>
    case UnlockResume(_) =>
      PendingTail(a);
      ResumeStep(s, a, t);
  }

  lemma {:induction false} ReversedOne(a: Aux, w: Id)
    requires a.rest != [] && a.rest[0] == w
    ensures a.(rest := a.rest[1..], fifo := [w] + a.fifo).Pending() == a.Pending()
  {
    assert a.rest == [w] + a.rest[1..];
  }

  lemma {:induction false} UnlockEnds(s: State, a: Aux, t: Id, k: nat)
    requires Inv(s, a) && t < |s.pcs| && Unlocking(s.pcs[t]) && k >= Left(s.pcs[t], a)
    ensures Unlocks(s, Alone(s, t, k), t, a.Pending())
    decreases k
  {
    UnlockStep(s, a, t);
    var s', a' := Step(s, t, Advance), AuxStep(s, a, t, Advance);
    AloneGoesOn(s, t, k, s');
    if Unlocks(s, s', t, a.Pending()) {
      AloneIsDone(s', t, k - 1);
    } else {
      UnlockEnds(s', a', t, k - 1);
      UnlocksLater(s, s', Alone(s', t, k - 1), t, a.Pending());
    }
  }

  lemma UnlocksLater(s: State, s': State, s'': State, t: Id, queue: seq<Id>)
    requires s'.arrived == s.arrived && s'.served == s.served && Unlocks(s', s'', t, queue)
    ensures Unlocks(s, s'', t, queue)
  {
  }

  // On every run, an `unlock` with nobody else about hands the lock to the first of those who wait,
  // or frees it if there are none.
  lemma {:induction false} LoneUnlock(run: seq<State>, i: nat, t: Id, k: nat)
    requires IsRun(run) && i < |run| && t < |run[i].pcs| && run[i].pcs[t].Holds? && k >= |run[i].arrived| + 6
    ensures Enabled(run[i], t, CallUnlock)
    ensures exists queue :: Queue(run[i], queue) && Unlocks(run[i], Alone(Step(run[i], t, CallUnlock), t, k), t, queue)
  {
    var s := run[i];
    var a := RunKeepsInv(run, i);
    InvImpliesQueue(s, a);
    StepKeepsInv(s, a, t, CallUnlock);
    ReverseLength(a.chain);
    UnlockEnds(Step(s, t, CallUnlock), a, t, k);
  }

  lemma {:induction false} ReverseLength(xs: seq<Id>)
    ensures |Reverse(xs)| == |xs|
  {
    if xs != [] {
      ReverseLength(xs[1..]);
    }
  }
}
