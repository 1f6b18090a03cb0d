/**
 The blocking queue of the thread pool. Each method is one critical section of its mutex; where
 the source only tries the lock, `acquired` says whether it got it, and the wait of `Pop` is its
 precondition: it returns only once the queue has an element or has been stopped.
 */
module TaskQueue {
  import opened Wrappers

  // What the mutex guards.
  datatype Guarded<T> = Guarded(items: seq<T>, stopped: bool) {
    function Push(x: T): Guarded<T> { this.(items := items + [x]) }

    function Stop(): Guarded<T> { this.(stopped := true) }

    predicate Ready() { items != [] || stopped }

    function Pop(): Guarded<T> { if items == [] then this else this.(items := items[1..]) }

    function Front(): Option<T> { if items == [] then None else Some(items[0]) }

    // Whether try_pop_if takes the front element.
    predicate Takes(predict: Option<T -> bool>) {
      items != [] && (predict.Some? ==> predict.value(items[0]))
    }
  }

  // A push goes behind everything queued and a pop takes the oldest, so an element pushed onto a
  // queue of n comes out with the pop that follows n others.
  lemma {:induction false} FirstInFirstOut<T>(q: Guarded<T>, x: T)
    ensures Popped(q.Push(x), |q.items|).Front() == Some(x)
    ensures Popped(q.Push(x), |q.items| + 1).items == []
    decreases |q.items|
  {
    if q.items == [] {
      assert Popped(q.Push(x), 1) == q.Push(x).Pop();
    } else {
      assert q.Push(x).Pop() == q.Pop().Push(x);
      FirstInFirstOut(q.Pop(), x);
    }
  }

  function Popped<T>(q: Guarded<T>, n: nat): Guarded<T>
    decreases n
  {
    if n == 0 then q else Popped(q.Pop(), n - 1)
  }

  class Queue<T(0)> {
    var queue: seq<T>
    var stopped: bool

    function State(): Guarded<T>
      reads this
    {
      Guarded(queue, stopped)
    }

    constructor ()
      ensures State() == Guarded([], false)
    {
      queue, stopped := [], false;
    }

    method Push(elem: T)
      modifies this
      ensures State() == old(State()).Push(elem)
    {
      queue := queue + [elem];
    }

    method TryPush(elem: T, acquired: bool) returns (ok: bool)
      modifies this
      ensures ok == acquired
      ensures State() == if ok then old(State()).Push(elem) else old(State())
    {
      if !acquired {
        return false;
      }
      queue := queue + [elem];
      ok := true;
    }

    // `elem` is only assigned when an element was there.
    method Pop(elem: T) returns (ok: bool, taken: T)
      requires State().Ready()
      modifies this
      ensures ok <==> old(queue) != []
      ensures !ok ==> stopped
      ensures taken == if ok then old(queue)[0] else elem
      ensures State() == old(State()).Pop()
    {
      if queue == [] {
        return false, elem;
      }
      ok, taken := true, queue[0];
      queue := queue[1..];
    }

    method TryPopIf(elem: T, predict: Option<T -> bool>, acquired: bool) returns (ok: bool, taken: T)
      modifies this
      ensures ok <==> acquired && old(State()).Takes(predict)
      ensures taken == if ok then old(queue)[0] else elem
      ensures State() == if ok then old(State()).Pop() else old(State())
    {
      if !acquired || queue == [] {
        return false, elem;
      }
      if predict.Some? && !predict.value(queue[0]) {
        return false, elem;
      }
      ok, taken := true, queue[0];
      queue := queue[1..];
    }

    method TryPop(elem: T, acquired: bool) returns (ok: bool, taken: T)
      modifies this
      ensures ok <==> acquired && old(queue) != []
      ensures taken == if ok then old(queue)[0] else elem
      ensures State() == if ok then old(State()).Pop() else old(State())
    {
      ok, taken := TryPopIf(elem, None, acquired);
    }

    method Stop()
      modifies this
      ensures State() == old(State()).Stop()
    {
      stopped := true;
    }
  }
}
