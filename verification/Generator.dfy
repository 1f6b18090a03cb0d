/**
 A recursive generator: yielding all the elements of another generator does not resume it through
 its parents. The promise of the outermost coroutine, the root, knows the innermost one, the top;
 the consumer resumes the top directly, and a coroutine that ends hands over to its parent.

 A coroutine is described by what is left of its body.
 */
module Generator {
  import opened Wrappers

  // Nest yields the elements of `child`, of which a moved-from one has none. If the child throws,
  // the exception surfaces there, and `handler`, if any, takes over instead of `rest`.
  datatype Body<V, E> =
    | Done
    | Yield(value: V, rest: Body<V, E>)
    | Nest(child: Option<Body<V, E>>, rest: Body<V, E>, handler: Option<Body<V, E>>)
    | Throw(exception: E)

  // The elements, and the exception that ends them, if any.
  datatype Outcome<V, E> = Outcome(elements: seq<V>, exception: Option<E>)

  // Naive recursion.
  function Flatten<V, E>(b: Body<V, E>): Outcome<V, E> {
    match b
    case Done => Outcome([], None)
    case Throw(e) => Outcome([], Some(e))
    case Yield(v, rest) => Before([v], Flatten(rest))
    case Nest(None, rest, _) => Flatten(rest)
    case Nest(Some(child), rest, handler) =>
      var r := Flatten(child);
      Before(r.elements,
        match (r.exception, handler)
        case (None, _) => Flatten(rest)
        case (Some(_), Some(h)) => Flatten(h)
        case (Some(e), None) => Outcome([], Some(e)))
  }

  function Before<V, E>(xs: seq<V>, r: Outcome<V, E>): Outcome<V, E> { Outcome(xs + r.elements, r.exception) }

  // ---------------------------------------------------------------------------------------
  // A stack of suspended bodies, outermost first
  // ---------------------------------------------------------------------------------------

  // How a body goes on when the child it waits for has ended.
  function Resumed<V, E>(b: Body<V, E>, exception: Option<E>): Body<V, E>
    requires b.Nest?
  {
    match (exception, b.handler)
    case (None, _) => b.rest
    case (Some(_), Some(h)) => h
    case (Some(e), None) => Throw(e)
  }

  ghost predicate AllWait<V, E>(waiting: seq<Body<V, E>>) { forall i :: 0 <= i < |waiting| ==> Waits(waiting, i) }

  ghost predicate Waits<V, E>(waiting: seq<Body<V, E>>, i: nat)
    requires i < |waiting|
  {
    waiting[i].Nest?
  }

  // What is still to come when the innermost body has the given outcome.
  ghost function Unwind<V, E>(waiting: seq<Body<V, E>>, r: Outcome<V, E>): Outcome<V, E>
    requires AllWait(waiting)
    decreases |waiting|
  {
    if waiting == [] then r else
      var last := |waiting| - 1;
      assert Waits(waiting, last) && forall i :: 0 <= i < last ==> Waits(waiting, i) ==> Waits(waiting[..last], i);
      Before(r.elements, Unwind(waiting[..last], Flatten(Resumed(waiting[last], r.exception))))
  }

  // Elements that come first stay first.
  lemma {:induction false} UnwindBefore<V, E>(waiting: seq<Body<V, E>>, xs: seq<V>, r: Outcome<V, E>)
    requires AllWait(waiting)
    ensures Unwind(waiting, Before(xs, r)) == Before(xs, Unwind(waiting, r))
  {
    if waiting != [] {
      var last := |waiting| - 1;
      forall i | 0 <= i < last ensures Waits(waiting[..last], i) {
        assert Waits(waiting, i);
      }
      assert Waits(waiting, last);
      var q := Unwind(waiting[..last], Flatten(Resumed(waiting[last], r.exception)));
      assert xs + r.elements + q.elements == xs + (r.elements + q.elements);
    }
  }

  // Starting a child changes nothing about what is to come.
  lemma {:induction false} UnwindNest<V, E>(waiting: seq<Body<V, E>>, b: Body<V, E>)
    requires AllWait(waiting) && b.Nest? && b.child.Some?
    ensures AllWait(waiting + [b])
    ensures Unwind(waiting + [b], Flatten(b.child.value)) == Unwind(waiting, Flatten(b))
  {
    var r, more := Flatten(b.child.value), waiting + [b];
    forall i | 0 <= i < |more| ensures Waits(more, i) {
      assert i < |waiting| ==> Waits(waiting, i);
    }
    assert more[..|waiting|] == waiting;
    assert Flatten(b) == Before(r.elements, Flatten(Resumed(b, r.exception)));
    UnwindBefore(waiting, r.elements, Flatten(Resumed(b, r.exception)));
  }

  // Nor does handing over to the parent at the end.
  lemma {:induction false} UnwindEnd<V, E>(waiting: seq<Body<V, E>>, exception: Option<E>)
    requires AllWait(waiting) && waiting != []
    ensures Waits(waiting, |waiting| - 1) && AllWait(waiting[..|waiting| - 1])
    ensures Unwind(waiting, Outcome([], exception))
      == Unwind(waiting[..|waiting| - 1], Flatten(Resumed(waiting[|waiting| - 1], exception)))
  {
    var last := |waiting| - 1;
    forall i | 0 <= i < last ensures Waits(waiting[..last], i) {
      assert Waits(waiting, i);
    }
    assert Waits(waiting, last);
    var q := Unwind(waiting[..last], Flatten(Resumed(waiting[last], exception)));
    assert [] + q.elements == q.elements;
  }

  // Work left, for termination.
  function Size<V, E>(b: Body<V, E>): (n: nat)
    ensures n > 0
  {
    match b
    case Done => 1
    case Throw(_) => 1
    case Yield(_, rest) => 1 + Size(rest)
    case Nest(None, rest, _) => 1 + Size(rest)
    case Nest(Some(child), rest, None) => 2 + Size(child) + Size(rest)
    case Nest(Some(child), rest, Some(h)) => 2 + Size(child) + Size(rest) + Size(h)
  }

  ghost function Work<V, E>(waiting: seq<Body<V, E>>): nat {
    if waiting == [] then 0 else Work(waiting[..|waiting| - 1]) + WorkOf(waiting[|waiting| - 1])
  }

  // A waiting body has done its child.
  function WorkOf<V, E>(b: Body<V, E>): nat {
    match b
    case Nest(_, rest, None) => 1 + Size(rest)
    case Nest(_, rest, Some(h)) => 1 + Size(rest) + Size(h)
    case _ => 1
  }

  // ---------------------------------------------------------------------------------------
  // Coroutine frames
  // ---------------------------------------------------------------------------------------

  type Id = nat

  // The awaiter a parent waits on while its child runs.
  datatype NestInfo<E> = NestInfo(exception: Option<E>, parent: Id, root: Id)

  // A coroutine: its body, its promise, and its current awaiter. `info` is the frame whose awaiter
  // this coroutine was started by.
  datatype Frame<V, E> = Frame(
    body: Body<V, E>,
    top: Id,
    value: Option<V>,
    info: Option<Id>,
    nested: NestInfo<E>,
    done: bool)

  function Started<V, E>(id: Id, b: Body<V, E>): Frame<V, E> { Frame(b, id, None, None, NestInfo(None, id, id), false) }

  // The frames from the root to the top: links up to the parent, and one from the root to the top.
  ghost predicate Linked<V, E>(frames: map<Id, Frame<V, E>>, stack: seq<Id>, codes: seq<Body<V, E>>, nextId: Id) {
    && |stack| == |codes| > 0
    && (forall i :: 0 <= i < |stack| ==> FrameAt(frames, stack, codes, i))
    && stack[0] in frames && frames[stack[0]].top == stack[|stack| - 1]
    && (forall i, j :: 0 <= i < j < |stack| ==> Apart(stack, i, j))
    && (forall id :: id in frames ==> id < nextId)
  }

  ghost predicate Apart(stack: seq<Id>, i: nat, j: nat)
    requires i < |stack| && j < |stack|
  {
    stack[i] != stack[j]
  }

  ghost predicate FrameAt<V, E>(frames: map<Id, Frame<V, E>>, stack: seq<Id>, codes: seq<Body<V, E>>, i: nat)
    requires i < |stack| == |codes|
  {
    && stack[i] in frames
    && var f := frames[stack[i]];
    && f.body == codes[i] && !f.done
    && f.info == (if i == 0 then None else Some(stack[i - 1]))
    && (i < |stack| - 1 ==> f.body.Nest? && f.nested == NestInfo(None, stack[i], stack[0]))
  }

  lemma {:induction false} StackApart(stack: seq<Id>, i: nat, j: nat)
    requires forall i, j :: 0 <= i < j < |stack| ==> Apart(stack, i, j)
    requires i < |stack| && j < |stack| && i != j
    ensures stack[i] != stack[j]
  {
    assert if i < j then Apart(stack, i, j) else Apart(stack, j, i);
  }

  ghost function Waiting<V, E>(codes: seq<Body<V, E>>): seq<Body<V, E>>
    requires codes != []
  {
    codes[..|codes| - 1]
  }

  // What is still to come from the suspended coroutines.
  ghost function Remaining<V, E>(codes: seq<Body<V, E>>): Outcome<V, E>
    requires codes != [] && AllWait(Waiting(codes))
  {
    Unwind(Waiting(codes), Flatten(codes[|codes| - 1]))
  }

  // The top goes on with another body.
  lemma {:induction false} TopChanges<V, E>(frames: map<Id, Frame<V, E>>, stack: seq<Id>, codes: seq<Body<V, E>>, nextId: Id, b: Body<V, E>, v: Option<V>)
    requires Linked(frames, stack, codes, nextId)
    ensures var top := stack[|stack| - 1];
      && top in frames
      && Linked(frames[top := frames[top].(body := b, value := v)], stack, codes[|codes| - 1 := b], nextId)
  {
    var n := |stack|;
    var top := stack[n - 1];
    assert FrameAt(frames, stack, codes, n - 1);
    var frames', codes' := frames[top := frames[top].(body := b, value := v)], codes[n - 1 := b];
    forall i | 0 <= i < n ensures FrameAt(frames', stack, codes', i) {
      assert FrameAt(frames, stack, codes, i);
      if i < n - 1 {
        StackApart(stack, i, n - 1);
      }
    }
  }

  // A child is started on top.
  lemma {:induction false} ChildStarts<V, E>(frames: map<Id, Frame<V, E>>, stack: seq<Id>, codes: seq<Body<V, E>>, nextId: Id, root: Id, frames': map<Id, Frame<V, E>>)
    requires Linked(frames, stack, codes, nextId) && codes[|codes| - 1].Nest? && codes[|codes| - 1].child.Some?
    requires root == stack[0]
    requires stack[|stack| - 1] in frames && root in frames
    requires var parent := stack[|stack| - 1]; var child := nextId;
      var f1 := frames[parent := frames[parent].(nested := NestInfo(None, parent, root))];
      var f2 := f1[child := Started(child, codes[|codes| - 1].child.value).(info := Some(parent))];
      root in f2 && frames' == f2[root := f2[root].(top := child)]
    ensures Linked(frames', stack + [nextId], codes + [codes[|codes| - 1].child.value], nextId + 1)
  {
    var n, child := |stack|, nextId;
    var stack', codes' := stack + [child], codes + [codes[n - 1].child.value];
    forall i | 0 <= i < n ensures stack[i] != child {
      assert FrameAt(frames, stack, codes, i);
    }
    forall i | 0 <= i < n + 1 ensures FrameAt(frames', stack', codes', i) {
      if i < n {
        assert FrameAt(frames, stack, codes, i);
        if i < n - 1 {
          StackApart(stack, i, n - 1);
        }
        if i > 0 {
          StackApart(stack, 0, i);
        }
      }
    }
    forall i, j | 0 <= i < j < n + 1 ensures Apart(stack', i, j) {
      assert j < n ==> Apart(stack, i, j);
    }
  }

  // The top ends, and its parent goes on with another body.
  lemma {:induction false} ChildEnds<V, E>(frames: map<Id, Frame<V, E>>, stack: seq<Id>, codes: seq<Body<V, E>>, nextId: Id, b: Body<V, E>, nested: NestInfo<E>,
                                           frames': map<Id, Frame<V, E>>)
    requires Linked(frames, stack, codes, nextId) && |stack| > 1
    requires stack[|stack| - 1] in frames && stack[|stack| - 2] in frames && stack[0] in frames
    requires var top, parent, root := stack[|stack| - 1], stack[|stack| - 2], stack[0];
      var f1 := frames[root := frames[root].(top := parent)];
      top in f1 && var f2 := f1[top := f1[top].(info := None, done := true)];
      parent in f2 && frames' == f2[parent := f2[parent].(body := b, nested := nested)]
    ensures Linked(frames', stack[..|stack| - 1], codes[..|stack| - 1][|stack| - 2 := b], nextId)
  {
    var n := |stack|;
    var stack', codes' := stack[..n - 1], codes[..n - 1][n - 2 := b];
    forall i | 0 <= i < n - 1 ensures FrameAt(frames', stack', codes', i) {
      assert FrameAt(frames, stack, codes, i);
      StackApart(stack, i, n - 1);
      if i < n - 2 {
        StackApart(stack, i, n - 2);
      }
      if i > 0 {
        StackApart(stack, 0, i);
      }
    }
    forall i, j | 0 <= i < j < n - 1 ensures Apart(stack', i, j) {
      assert Apart(stack, i, j);
    }
  }

  // ---------------------------------------------------------------------------------------
  // The consumer
  // ---------------------------------------------------------------------------------------

  // A coroutine has been started inside another one, and nothing has changed about what is to come.
  lemma {:induction false} NestKeeps<V, E>(codes: seq<Body<V, E>>)
    requires codes != [] && AllWait(Waiting(codes)) && codes[|codes| - 1].Nest? && codes[|codes| - 1].child.Some?
    ensures var codes' := codes + [codes[|codes| - 1].child.value];
      && AllWait(Waiting(codes')) && Remaining(codes') == Remaining(codes)
      && Work(Waiting(codes')) + Size(codes'[|codes'| - 1]) < Work(Waiting(codes)) + Size(codes[|codes| - 1])
  {
    var last := codes[|codes| - 1];
    UnwindNest(Waiting(codes), last);
    assert Waiting(codes) + [last] == codes;
    assert Waiting(codes + [last.child.value]) == codes;
    assert Work(codes) == Work(Waiting(codes)) + WorkOf(last);
  }

  lemma {:induction false} EndKeeps<V, E>(codes: seq<Body<V, E>>, exception: Option<E>)
    requires |codes| > 1 && AllWait(Waiting(codes))
    requires codes[|codes| - 1] == match exception case None => Done case Some(e) => Throw(e)
    ensures var n := |codes|; codes[n - 2].Nest?
    ensures var n := |codes|; var codes' := codes[..n - 1][n - 2 := Resumed(codes[n - 2], exception)];
      && AllWait(Waiting(codes')) && Remaining(codes') == Remaining(codes)
      && Work(Waiting(codes')) + Size(codes'[|codes'| - 1]) < Work(Waiting(codes)) + Size(codes[|codes| - 1])
  {
    var n := |codes|;
    UnwindEnd(Waiting(codes), exception);
    assert Waits(Waiting(codes), n - 2);
    var codes' := codes[..n - 1][n - 2 := Resumed(codes[n - 2], exception)];
    assert Waiting(codes') == Waiting(codes)[..n - 2];
    assert Work(Waiting(codes)) == Work(Waiting(codes)[..n - 2]) + WorkOf(codes[n - 2]);
  }

  lemma {:induction false} TopKeeps<V, E>(codes: seq<Body<V, E>>, xs: seq<V>, b: Body<V, E>)
    requires codes != [] && AllWait(Waiting(codes)) && Flatten(codes[|codes| - 1]) == Before(xs, Flatten(b))
    ensures var codes' := codes[|codes| - 1 := b];
      && Waiting(codes') == Waiting(codes) && Remaining(codes) == Before(xs, Remaining(codes'))
  {
    var codes' := codes[|codes| - 1 := b];
    assert Waiting(codes') == Waiting(codes);
    UnwindBefore(Waiting(codes), xs, Flatten(b));
  }

  // Resumes the coroutine at the top, and whatever it hands over to, up to the next element or to
  // the end of the root.
  method Resume<V, E>(frames: map<Id, Frame<V, E>>, root: Id, nextId: Id, ghost stack: seq<Id>, ghost codes: seq<Body<V, E>>)
    returns (frames': map<Id, Frame<V, E>>, nextId': Id, exception: Option<E>, ghost stack': seq<Id>, ghost codes': seq<Body<V, E>>)
    requires Linked(frames, stack, codes, nextId) && root == stack[0] && AllWait(Waiting(codes))
    ensures root in frames'
    ensures Remaining(codes).elements == [] ==> frames'[root].done && exception == Remaining(codes).exception
    ensures Remaining(codes).elements != [] ==>
      && exception == None
      && Linked(frames', stack', codes', nextId') && root == stack'[0] && AllWait(Waiting(codes'))
      && frames'[root].top in frames' && frames'[frames'[root].top].value == Some(Remaining(codes).elements[0])
      && Remaining(codes') == Remaining(codes).(elements := Remaining(codes).elements[1..])
  {
    frames', nextId', exception, stack', codes' := frames, nextId, None, stack, codes;
    var current := frames'[root].top;
    while true
      invariant Linked(frames', stack', codes', nextId') && root == stack'[0] && AllWait(Waiting(codes'))
      invariant current == stack'[|stack'| - 1] && exception == None
      invariant Remaining(codes') == Remaining(codes)
      decreases Work(Waiting(codes')) + Size(codes'[|codes'| - 1])
    {
      assert FrameAt(frames', stack', codes', |stack'| - 1);
      match frames'[current].body
      case Yield(v, rest) =>
        TopKeeps(codes', [v], rest);
        TopChanges(frames', stack', codes', nextId', rest, Some(v));
        frames' := frames'[current := frames'[current].(body := rest, value := Some(v))];
        codes' := codes'[|codes'| - 1 := rest];
        return;
      case Nest(None, rest, _) =>
        TopKeeps(codes', [], rest);
        TopChanges(frames', stack', codes', nextId', rest, frames'[current].value);
        frames' := frames'[current := frames'[current].(body := rest)];
        codes' := codes'[|codes'| - 1 := rest];
      case Nest(Some(child), _, _) =>
        NestKeeps(codes');
        frames', nextId', current, stack', codes' := Transfer(frames', current, child, nextId', stack', codes');
      case Done =>
        if frames'[current].info.None? {
          frames' := frames'[current := frames'[current].(done := true)];
          return;
        }
        EndKeeps(codes', None);
        frames', current, stack', codes' := HandOver(frames', current, None, nextId', stack', codes');
      case Throw(e) =>
        if frames'[current].info.None? {
          frames' := frames'[current := frames'[current].(done := true)];
          exception := Some(e);
          return;
        }
        EndKeeps(codes', Some(e));
        frames', current, stack', codes' := HandOver(frames', current, Some(e), nextId', stack', codes');
    }
  }

  // NestedAwaiter: the child becomes the top, and knows its parent.
  method Transfer<V, E>(frames: map<Id, Frame<V, E>>, current: Id, child: Body<V, E>, nextId: Id, ghost stack: seq<Id>, ghost codes: seq<Body<V, E>>)
    returns (frames': map<Id, Frame<V, E>>, nextId': Id, target: Id, ghost stack': seq<Id>, ghost codes': seq<Body<V, E>>)
    requires Linked(frames, stack, codes, nextId) && current == stack[|stack| - 1]
    requires codes[|codes| - 1].Nest? && codes[|codes| - 1].child == Some(child)
    ensures Linked(frames', stack', codes', nextId') && stack' == stack + [target] && codes' == codes + [child]
  {
    assert FrameAt(frames, stack, codes, |stack| - 1);
    target, nextId' := nextId, nextId + 1;
    var root := current;
    if frames[current].info.Some? {
      assert FrameAt(frames, stack, codes, |stack| - 2);
      root := frames[frames[current].info.value].nested.root;
    }
    stack', codes' := stack + [target], codes + [child];
    frames' := frames[current := frames[current].(nested := NestInfo(None, current, root))];
    frames' := frames'[target := Started(target, child).(info := Some(current))];
    frames' := frames'[root := frames'[root].(top := target)];
    ChildStarts(frames, stack, codes, nextId, root, frames');
  }

  // unhandled_exception, FinalAwaiter, and the parent's await_resume.
  method HandOver<V, E>(frames: map<Id, Frame<V, E>>, current: Id, exception: Option<E>, nextId: Id, ghost stack: seq<Id>, ghost codes: seq<Body<V, E>>)
    returns (frames': map<Id, Frame<V, E>>, previous: Id, ghost stack': seq<Id>, ghost codes': seq<Body<V, E>>)
    requires Linked(frames, stack, codes, nextId) && current == stack[|stack| - 1]
    requires current in frames && frames[current].info.Some? && |codes| > 1 && codes[|codes| - 2].Nest?
    ensures Linked(frames', stack', codes', nextId) && stack' == stack[..|stack| - 1] && previous == stack'[|stack'| - 1]
    ensures codes' == codes[..|codes| - 1][|codes| - 2 := Resumed(codes[|codes| - 2], exception)]
  {
    ghost var n := |stack|;
    assert FrameAt(frames, stack, codes, n - 1) && FrameAt(frames, stack, codes, n - 2) && FrameAt(frames, stack, codes, 0);
    StackApart(stack, n - 1, n - 2);
    var starter := frames[current].info.value;
    frames' := frames;
    if exception.Some? {
      frames' := frames'[starter := frames'[starter].(nested := frames'[starter].nested.(exception := exception))];
    }
    previous := frames'[starter].nested.parent;
    var root := frames'[starter].nested.root;
    frames' := frames'[root := frames'[root].(top := previous)];
    frames' := frames'[current := frames'[current].(info := None, done := true)];
    var f := frames'[previous];
    var raised := f.nested.exception;
    frames' := frames'[previous := f.(body := Resumed(f.body, raised), nested := f.nested.(exception := None))];
    stack', codes' := stack[..n - 1], codes[..n - 1][n - 2 := Resumed(codes[n - 2], exception)];
    ghost var plain := frames[root := frames[root].(top := previous)];
    plain := plain[current := plain[current].(info := None, done := true)];
    plain := plain[previous := plain[previous].(body := Resumed(f.body, raised), nested := f.nested.(exception := None))];
    assert frames' == plain;
    ChildEnds(frames, stack, codes, nextId, Resumed(codes[n - 2], exception), f.nested.(exception := None), frames');
  }

  // A generator and its iterator.
  class Iterator<V(!new), E(!new)> {
    var frames: map<Id, Frame<V, E>>
    var root: Id
    var nextId: Id
    ghost var stack: seq<Id>
    ghost var codes: seq<Body<V, E>>

    // Suspended at an element, or before the first one.
    ghost predicate Suspended()
      reads this
    {
      Linked(frames, stack, codes, nextId) && root == stack[0] && AllWait(Waiting(codes))
    }

    predicate Ended()
      reads this
    {
      root in frames && frames[root].done
    }

    ghost predicate AtElement()
      reads this
    {
      Suspended() && frames[root].top in frames && frames[frames[root].top].value.Some?
    }

    // The element the iterator is at, and what comes after it.
    ghost function Rest(): Outcome<V, E>
      reads this
      requires Suspended()
    {
      Remaining(codes)
    }

    constructor (b: Body<V, E>)
      ensures Suspended() && Rest() == Flatten(b)
    {
      frames, root, nextId := map[0 := Started(0, b)], 0, 1;
      stack, codes := [0], [b];
      new;
      assert FrameAt(frames, stack, codes, 0);
      assert Waiting(codes) == [];
    }

    // Suspended at the first element of r, with the others to come, or at the end if there is none.
    ghost predicate At(r: Outcome<V, E>)
      reads this
    {
      if r.elements == [] then Ended() else
        !Ended() && AtElement() && Element() == r.elements[0] && Rest() == r.(elements := r.elements[1..])
    }

    ghost function Element(): V
      reads this
      requires AtElement()
    {
      frames[frames[root].top].value.value
    }

    // Runs to the next element, if there is one.
    method Advance() returns (exception: Option<E>)
      requires Suspended()
      modifies this
      ensures At(old(Rest()))
      ensures exception == if old(Rest()).elements == [] then old(Rest()).exception else None
    {
      var f, n;
      f, n, exception, stack, codes := Resume(frames, root, nextId, stack, codes);
      frames, nextId := f, n;
      assert Suspended() ==> FrameAt(frames, stack, codes, 0);
    }

    method Deref() returns (v: V)
      requires AtElement()
      ensures v == Element()
    {
      v := frames[frames[root].top].value.value;
    }
  }

  // Iterating to the end gives the elements of naive flattening in order, and its exception.
  method Collect<V(!new), E(!new)>(b: Body<V, E>) returns (elements: seq<V>, exception: Option<E>)
    ensures Outcome(elements, exception) == Flatten(b)
  {
    var it := new Iterator(b);
    elements, exception := Drain(it);
  }

  // Iterates from before the first element to the end.
  method Drain<V(!new), E(!new)>(it: Iterator<V, E>) returns (elements: seq<V>, exception: Option<E>)
    requires it.Suspended()
    modifies it
    ensures Outcome(elements, exception) == old(it.Rest())
  {
    elements := [];
    ghost var all, rest := it.Rest(), it.Rest();
    exception := it.Advance();
    while !it.Ended()
      invariant it.At(rest)
      invariant elements + rest.elements == all.elements && rest.exception == all.exception
      invariant exception == if rest.elements == [] then rest.exception else None
      decreases |rest.elements|
    {
      var v := it.Deref();
      assert rest.elements == [v] + rest.elements[1..];
      elements := elements + [v];
      rest := it.Rest();
      exception := it.Advance();
    }
  }
}
