/**
 The CAS-based free list of the queue, as an interleaving machine: every atomic load, store,
 compare-exchange and fetch-add of `add` and `try_get` is one step of one thread, and any
 thread may take the next step.
 */
module FreeList {
  import opened Wrappers

  type Node = nat

  const SHOULD_BE_ON_FREELIST: nat := 0x8000_0000

  // The low 31 bits: the reference count.
  function Count(refs: nat): nat { refs % 0x8000_0000 }

  function FetchAdd(refs: nat, d: int): (r: nat) { (refs + d) % 0x1_0000_0000 }

  // Where add_knowing_refcount_is_zero returns to: out of `add`, or into the loop of
  // `try_get`, whose local `head` was already reloaded by the failed CAS.
  datatype Return = ToCaller | ToLoop(head: Option<Node>)

  // The next atomic operation of a thread, with its live local variables.
  datatype PC =
    | Idle
    | AddFlag(n: Node)                                       // refs.fetch_add(SHOULD_BE_ON_FREELIST)
    | PushLoad(n: Node, ret: Return)                         // head = freeListHead.load()
    | PushSetNext(n: Node, head: Option<Node>, ret: Return)  // next.store(head)
    | PushSetRefs(n: Node, head: Option<Node>, ret: Return)  // refs.store(1)
    | PushCas(n: Node, head: Option<Node>, ret: Return)      // CAS(freeListHead, head, node)
    | PushUndo(n: Node, head: Option<Node>, ret: Return)     // refs.fetch_add(SHOULD_BE_ON_FREELIST - 1)
    | GetLoad                                                // head = freeListHead.load()
    | GetRefs(n: Node)                                       // refs = head->refs.load()
    | GetIncr(n: Node, refs: nat)                            // CAS(head->refs, refs, refs + 1)
    | GetNext(n: Node)                                       // next = head->next.load()
    | GetCas(n: Node, next: Option<Node>)                    // CAS(freeListHead, head, next)
    | GetCheck(n: Node)                                      // the assertion on the popped node
    | GetFinish(n: Node)                                     // refs.fetch_sub(2)
    | GetDrop(n: Node, head: Option<Node>)                   // refs.fetch_sub(1)

  // What a thread's last call of `try_get` has returned so far.
  datatype Answer = Pending | Given(node: Option<Node>)

  datatype State = State(
    head: Option<Node>,
    refs: seq<nat>,
    next: seq<Option<Node>>,
    owned: set<Node>,          // nodes in the hands of the callers
    pcs: seq<PC>,
    answers: map<nat, Answer>)

  // What an idle thread calls; every other thread just goes on.
  datatype Move = CallAdd(n: Node) | CallTryGet | Advance

  ghost predicate Enabled(s: State, t: nat, m: Move) {
    && t < |s.pcs|
    && match m
       case CallAdd(n) => s.pcs[t].Idle? && n in s.owned
       case CallTryGet => s.pcs[t].Idle?
       case Advance =>
         && !s.pcs[t].Idle?
         && (NodeOf(s.pcs[t]).Some? ==> NodeOf(s.pcs[t]).value < |s.refs| && NodeOf(s.pcs[t]).value < |s.next|)
  }

  function NodeOf(pc: PC): Option<Node> {
    if pc.Idle? || pc.GetLoad? then None else Some(pc.n)
  }

  function Goto(s: State, t: nat, pc: PC): State
    requires t < |s.pcs|
  {
    s.(pcs := s.pcs[t := pc])
  }

  function Retry(head: Option<Node>): PC {
    if head.None? then Idle else GetRefs(head.value)
  }

  function Resume(ret: Return): PC {
    match ret
    case ToCaller => Idle
    case ToLoop(head) => Retry(head)
  }

  // `try_get` returns null once its local `head` is null.
  function RetryAnswers(s: State, t: nat, head: Option<Node>): map<nat, Answer> {
    if head.None? then s.answers[t := Given(None)] else s.answers
  }

  function ResumeAnswers(s: State, t: nat, ret: Return): map<nat, Answer> {
    match ret
    case ToCaller => s.answers
    case ToLoop(head) => RetryAnswers(s, t, head)
  }

  // One step of thread t.
  ghost function Step(s: State, t: nat, m: Move): State
    requires Enabled(s, t, m)
  {
    match m
    case CallAdd(n) => Goto(s, t, AddFlag(n)).(owned := s.owned - {n})
    case CallTryGet => Goto(s, t, GetLoad).(answers := s.answers[t := Pending])
    case Advance => StepPC(s, t)
  }

  ghost function StepPC(s: State, t: nat): State
    requires Enabled(s, t, Advance)
  {
    match s.pcs[t]
    case AddFlag(n) =>
      Goto(s, t, if s.refs[n] == 0 then PushLoad(n, ToCaller) else Idle)
        .(refs := s.refs[n := FetchAdd(s.refs[n], SHOULD_BE_ON_FREELIST)])
    case PushLoad(n, ret) => Goto(s, t, PushSetNext(n, s.head, ret))
    case PushSetNext(n, head, ret) => Goto(s, t, PushSetRefs(n, head, ret)).(next := s.next[n := head])
    case PushSetRefs(n, head, ret) => Goto(s, t, PushCas(n, head, ret)).(refs := s.refs[n := 1])
    case PushCas(n, head, ret) =>
      if s.head == head then Goto(s, t, Resume(ret)).(head := Some(n), answers := ResumeAnswers(s, t, ret))
      else Goto(s, t, PushUndo(n, s.head, ret))
    case PushUndo(n, head, ret) =>
      Goto(s, t, if s.refs[n] == 1 then PushSetNext(n, head, ret) else Resume(ret))
        .(refs := s.refs[n := FetchAdd(s.refs[n], SHOULD_BE_ON_FREELIST - 1)],
          answers := if s.refs[n] == 1 then s.answers else ResumeAnswers(s, t, ret))
    case GetLoad => Goto(s, t, Retry(s.head)).(answers := RetryAnswers(s, t, s.head))
    case GetRefs(n) => Goto(s, t, if Count(s.refs[n]) == 0 then GetLoad else GetIncr(n, s.refs[n]))
    case GetIncr(n, refs) =>
      if s.refs[n] == refs then Goto(s, t, GetNext(n)).(refs := s.refs[n := FetchAdd(refs, 1)]) else Goto(s, t, GetLoad)
    case GetNext(n) => Goto(s, t, GetCas(n, s.next[n]))
    case GetCas(n, next) =>
      if s.head == Some(n) then Goto(s, t, GetCheck(n)).(head := next) else Goto(s, t, GetDrop(n, s.head))
    case GetCheck(n) => Goto(s, t, GetFinish(n))
    case GetFinish(n) =>
      Goto(s, t, Idle)
        .(refs := s.refs[n := FetchAdd(s.refs[n], -2)], owned := s.owned + {n}, answers := s.answers[t := Given(Some(n))])
    case GetDrop(n, head) =>
      Goto(s, t, if s.refs[n] == SHOULD_BE_ON_FREELIST + 1 then PushLoad(n, ToLoop(head)) else Retry(head))
        .(refs := s.refs[n := FetchAdd(s.refs[n], -1)],
          answers := if s.refs[n] == SHOULD_BE_ON_FREELIST + 1 then s.answers else RetryAnswers(s, t, head))
  }

  // Before the first call every node is with a caller and carries no reference. The bound on
  // the threads keeps the references of a node inside the low 31 bits.
  ghost predicate Init(s: State) {
    && s.head == None
    && |s.refs| == |s.next| && (forall n: Node :: n in s.owned <==> n < |s.refs|)
    && (forall n :: 0 <= n < |s.refs| ==> s.refs[n] == 0)
    && (forall t :: 0 <= t < |s.pcs| ==> s.pcs[t] == Idle)
    && 2 * |s.pcs| + 1 < SHOULD_BE_ON_FREELIST
  }

  ghost predicate IsRun(run: seq<State>) {
    && |run| > 0
    && Init(run[0])
    && forall i :: 0 < i < |run| ==> StepAt(run, i)
  }

  ghost predicate StepAt(run: seq<State>, i: nat)
    requires 0 < i < |run|
  {
    CanStep(run[i - 1], run[i])
  }

  ghost predicate CanStep(s: State, s': State) {
    exists t, m :: Enabled(s, t, m) && s' == Step(s, t, m)
  }

  // ---------------------------------------------------------------------------------------
  // What is safe
  // ---------------------------------------------------------------------------------------

  datatype Kind = ListReference | TemporaryReference

  // The references of one kind that a thread holds on a node.
  function Weight(pc: PC, n: Node, k: Kind): nat {
    if NodeOf(pc) != Some(n) then 0
    else match k
      case ListReference => if pc.PushCas? || pc.PushUndo? || pc.GetCheck? || pc.GetFinish? then 1 else 0
      case TemporaryReference =>
        if pc.GetNext? || pc.GetCas? || pc.GetDrop? || pc.GetCheck? || pc.GetFinish? then 1 else 0
  }

  function Total(pcs: seq<PC>, n: Node, k: Kind): nat {
    if pcs == [] then 0 else Total(pcs[..|pcs| - 1], n, k) + Weight(pcs[|pcs| - 1], n, k)
  }

  // Following the next fields from head visits exactly the nodes of list, and ends.
  ghost predicate Linked(head: Option<Node>, next: seq<Option<Node>>, list: seq<Node>)
    decreases |list|
  {
    if list == [] then head == None
    else head == Some(list[0]) && list[0] < |next| && Linked(next[list[0]], next, list[1..])
  }

  ghost predicate Distinct(list: seq<Node>) {
    forall i, j :: 0 <= i < j < |list| ==> list[i] != list[j]
  }

  function Listed(list: seq<Node>, n: Node): nat { if n in list then 1 else 0 }

  ghost predicate Safe(s: State) {
    exists list :: SafeWith(s, list)
  }

  ghost predicate SafeWith(s: State, list: seq<Node>) {
    && Linked(s.head, s.next, list)
    && Distinct(list)
    // A node is with a caller or on the list, never both.
    && (forall n: Node :: n in list ==> n < |s.refs| && n !in s.owned)
    // The low 31 bits count one list reference at most, plus the temporary ones.
    && (forall n: Node :: n < |s.refs| ==>
          && Listed(list, n) + Total(s.pcs, n, ListReference) <= 1
          && Count(s.refs[n]) == Listed(list, n) + Total(s.pcs, n, ListReference) + Total(s.pcs, n, TemporaryReference))
    && (forall t :: 0 <= t < |s.pcs| ==> ThreadSafe(s, list, s.pcs[t]))
    // No two threads are inside a push or a pop of the same node.
    && (forall t, u :: 0 <= t < u < |s.pcs| && Exclusive(s.pcs[t]) && Exclusive(s.pcs[u]) ==> s.pcs[t].n != s.pcs[u].n)
  }

  // The thread has the node to itself: it is adding, pushing or has just popped it.
  predicate Exclusive(pc: PC) {
    pc.AddFlag? || Pushing(pc) || pc.GetCheck? || pc.GetFinish?
  }

  predicate Pushing(pc: PC) {
    pc.PushLoad? || pc.PushSetNext? || pc.PushSetRefs? || pc.PushCas? || pc.PushUndo?
  }

  ghost predicate ThreadSafe(s: State, list: seq<Node>, pc: PC) {
    && (NodeOf(pc).Some? ==> pc.n < |s.refs|)
    && (Exclusive(pc) ==> pc.n !in list && pc.n !in s.owned)
    // No ABA: a CAS on the head that is about to succeed installs the true successor, so
    // what it leaves behind is the rest of the list.
    && (pc.GetCas? && s.head == Some(pc.n) ==>
          list != [] && pc.n == list[0] && Linked(pc.next, s.next, list[1..]))
    // The assertion after a pop: the should-be-on-freelist bit is clear.
    && (pc.GetCheck? ==> s.refs[pc.n] < SHOULD_BE_ON_FREELIST)
    // add_knowing_refcount_is_zero does know: only the flag is set.
    && (pc.PushLoad? || pc.PushSetNext? || pc.PushSetRefs? ==> s.refs[pc.n] == SHOULD_BE_ON_FREELIST)
  }

  // ---------------------------------------------------------------------------------------
  // The inductive invariant
  // ---------------------------------------------------------------------------------------

  // Where a node is. A parked node was given back while another thread still held a
  // temporary reference; the last such thread will push it.
  datatype Place = Caller | Adding(t: nat) | Parked | Push(t: nat) | OnList | Popped(t: nat)

  datatype Aux = Aux(list: seq<Node>, place: seq<Place>)

  predicate FlagSet(s: State, p: Place) {
    match p
    case Parked => true
    case Push(t) => t < |s.pcs| && (s.pcs[t].PushLoad? || s.pcs[t].PushSetNext? || s.pcs[t].PushSetRefs?)
    case _ => false
  }

  // The list's own reference is with a thread in the middle of a push or a pop.
  predicate CarriesListReference(s: State, p: Place) {
    match p
    case Push(t) => t < |s.pcs| && (s.pcs[t].PushCas? || s.pcs[t].PushUndo?)
    case Popped(t) => true
    case _ => false
  }

  ghost predicate NodeInv(s: State, a: Aux, n: Node)
    requires n < |s.refs| && n < |a.place|
  {
    var refs := Listed(a.list, n) + Total(s.pcs, n, ListReference) + Total(s.pcs, n, TemporaryReference);
    && (n in s.owned <==> a.place[n] == Caller)
    && (n in a.list <==> a.place[n] == OnList)
    && s.refs[n] == refs + (if FlagSet(s, a.place[n]) then SHOULD_BE_ON_FREELIST else 0)
    && Total(s.pcs, n, ListReference) == (if CarriesListReference(s, a.place[n]) then 1 else 0)
    && match a.place[n]
       case Adding(t) => t < |s.pcs| && s.pcs[t] == AddFlag(n)
       case Push(t) => t < |s.pcs| && Pushing(s.pcs[t]) && s.pcs[t].n == n && (FlagSet(s, Push(t)) ==> refs == 0)
       case Popped(t) => t < |s.pcs| && (s.pcs[t] == GetCheck(n) || s.pcs[t] == GetFinish(n))
       case Parked => Total(s.pcs, n, TemporaryReference) > 0
       case _ => true
  }

  ghost predicate ThreadInv(s: State, a: Aux, t: nat)
    requires t < |s.pcs| && |s.refs| == |s.next| == |a.place|
  {
    var pc := s.pcs[t];
    && (NodeOf(pc).Some? ==>
          && pc.n < |s.refs|
          && (pc.AddFlag? ==> a.place[pc.n] == Adding(t))
          && (Pushing(pc) ==> a.place[pc.n] == Push(t))
          && (pc.GetCheck? || pc.GetFinish? ==> a.place[pc.n] == Popped(t))
          && (pc.PushSetRefs? || pc.PushCas? ==> s.next[pc.n] == pc.head)
          && (pc.GetIncr? ==> Count(pc.refs) != 0)
          && (pc.GetCas? ==> s.next[pc.n] == pc.next))
    && LocalHead(s, pc)
  }

  // Every node a local variable may lead to exists.
  ghost predicate LocalHead(s: State, pc: PC) {
    match pc
    case PushLoad(_, ret) => ReturnOk(s, ret)
    case PushSetNext(_, h, ret) => Exists(s, h) && ReturnOk(s, ret)
    case PushSetRefs(_, h, ret) => Exists(s, h) && ReturnOk(s, ret)
    case PushCas(_, h, ret) => Exists(s, h) && ReturnOk(s, ret)
    case PushUndo(_, h, ret) => Exists(s, h) && ReturnOk(s, ret)
    case GetDrop(_, h) => Exists(s, h)
    case _ => true
  }

  ghost predicate Exists(s: State, h: Option<Node>) { h.Some? ==> h.value < |s.refs| }
  ghost predicate ReturnOk(s: State, ret: Return) { ret.ToLoop? ==> Exists(s, ret.head) }

  ghost predicate Inv(s: State, a: Aux) {
    && |s.refs| == |s.next| == |a.place|
    && (forall n: Node :: n in s.owned ==> n < |s.refs|)
    && 2 * |s.pcs| + 1 < SHOULD_BE_ON_FREELIST
    && ListInv(s, a.list)
    && (forall n: Node :: n < |s.refs| ==> NodeInv(s, a, n))
    && (forall t :: 0 <= t < |s.pcs| ==> ThreadInv(s, a, t))
  }

  lemma {:induction false} TotalUpdate(pcs: seq<PC>, t: nat, pc: PC, n: Node, k: Kind)
    requires t < |pcs|
    ensures Total(pcs[t := pc], n, k) == Total(pcs, n, k) - Weight(pcs[t], n, k) + Weight(pc, n, k)
    ensures Total(pcs, n, k) >= Weight(pcs[t], n, k)
    decreases |pcs|
  {
    var last := |pcs| - 1;
    if t == last {
      assert pcs[t := pc][..last] == pcs[..last];
    } else {
      TotalUpdate(pcs[..last], t, pc, n, k);
      assert pcs[t := pc][..last] == pcs[..last][t := pc];
    }
  }

  lemma {:induction false} TotalBound(pcs: seq<PC>, n: Node, k: Kind)
    ensures Total(pcs, n, k) <= |pcs|
  {
    if pcs != [] {
      TotalBound(pcs[..|pcs| - 1], n, k);
    }
  }

  lemma {:induction false} LinkedFrame(head: Option<Node>, next: seq<Option<Node>>, list: seq<Node>, n: Node, h: Option<Node>)
    requires Linked(head, next, list) && n !in list && n < |next|
    ensures Linked(head, next[n := h], list)
    decreases |list|
  {
    if list != [] {
      LinkedFrame(next[list[0]], next, list[1..], n, h);
    }
  }

  // How the bookkeeping follows a step.
  ghost function AuxStep(s: State, a: Aux, t: nat, m: Move): Aux
    requires Enabled(s, t, m) && SameNodes(s, a)
    requires m.CallAdd? ==> m.n < |s.refs|
  {
    match m
    case CallAdd(n) => a.(place := a.place[n := Adding(t)])
    case CallTryGet => a
    case Advance =>
      match s.pcs[t]
      case AddFlag(n) => a.(place := a.place[n := if s.refs[n] == 0 then Push(t) else Parked])
      case PushCas(n, head, _) =>
        if s.head == head then Aux([n] + a.list, a.place[n := OnList]) else a
      case PushUndo(n, _, _) => if s.refs[n] == 1 then a else a.(place := a.place[n := Parked])
      case GetCas(n, _) =>
        if s.head == Some(n) && a.list != [] then Aux(a.list[1..], a.place[n := Popped(t)]) else a
      case GetFinish(n) => a.(place := a.place[n := Caller])
      case GetDrop(n, _) =>
        if s.refs[n] == SHOULD_BE_ON_FREELIST + 1 then a.(place := a.place[n := Push(t)]) else a
      case _ => a
  }

  ghost predicate SameNodes(s: State, a: Aux) { |s.refs| == |s.next| == |a.place| }

  ghost predicate SameAt(s: State, a: Aux, s': State, a': Aux, m: Node)
    requires SameNodes(s, a) && SameNodes(s', a') && |s'.refs| == |s.refs| && m < |s.refs|
  {
    && s'.refs[m] == s.refs[m]
    && s'.next[m] == s.next[m]
    && a'.place[m] == a.place[m]
    && (m in s'.owned <==> m in s.owned)
    && (m in a'.list <==> m in a.list)
  }

  // What thread t may do to node n so that nothing else notices.
  ghost predicate Local(s: State, a: Aux, s': State, a': Aux, t: nat, n: Node)
    requires t < |s.pcs| && n < |a.place| && SameNodes(s, a) && SameNodes(s', a') && |s'.refs| == |s.refs|
  {
    && |s'.pcs| == |s.pcs|
    && s'.pcs == s.pcs[t := s'.pcs[t]]
    && (NodeOf(s.pcs[t]).Some? ==> NodeOf(s.pcs[t]).value == n || Bystander(s.pcs[t]))
    && (NodeOf(s'.pcs[t]).Some? ==> NodeOf(s'.pcs[t]).value == n || Bystander(s'.pcs[t]))
    && (forall m: Node :: m < |s.refs| && m != n ==> SameAt(s, a, s', a', m))
    && (a'.place[n] == a.place[n] || Movable(a.place[n], t))
    && (s'.next[n] == s.next[n] || (a.place[n] == Push(t) && Total(s.pcs, n, TemporaryReference) == 0))
  }

  // Thread t may take a node out of this place.
  predicate Movable(p: Place, t: nat) {
    match p
    case Adding(u) => u == t
    case Push(u) => u == t
    case Popped(u) => u == t
    case _ => true
  }

  // A thread that only remembers a node it may come back to.
  predicate Bystander(pc: PC) { pc.GetRefs? || pc.GetIncr? }

  lemma {:induction false} LocalKeepsNode(s: State, a: Aux, s': State, a': Aux, t: nat, n: Node, m: Node)
    requires SameNodes(s, a) && SameNodes(s', a') && |s'.refs| == |s.refs|
    requires t < |s.pcs| && n < |s.refs| && Local(s, a, s', a', t, n)
    requires m < |s.refs| && m != n && NodeInv(s, a, m)
    ensures NodeInv(s', a', m)
  {
    assert SameAt(s, a, s', a', m);
    TotalUpdate(s.pcs, t, s'.pcs[t], m, ListReference);
    TotalUpdate(s.pcs, t, s'.pcs[t], m, TemporaryReference);
  }

  lemma {:induction false} LocalKeepsThread(s: State, a: Aux, s': State, a': Aux, t: nat, n: Node, u: nat)
    requires SameNodes(s, a) && SameNodes(s', a') && |s'.refs| == |s.refs|
    requires t < |s.pcs| && n < |s.refs| && Local(s, a, s', a', t, n)
    requires u < |s.pcs| && u != t && ThreadInv(s, a, u)
    ensures ThreadInv(s', a', u)
  {
    assert NodeOf(s.pcs[u]).Some? && s.pcs[u].n != n ==> SameAt(s, a, s', a', s.pcs[u].n);
    TotalUpdate(s.pcs, u, Idle, n, TemporaryReference);
  }

  lemma {:induction false} LocalKeepsInv(s: State, a: Aux, s': State, a': Aux, t: nat, n: Node)
    requires Inv(s, a) && SameNodes(s', a') && |s'.refs| == |s.refs|
    requires t < |s.pcs| && n < |s.refs| && Local(s, a, s', a', t, n)
    requires ListInv(s', a'.list)
    requires NodeInv(s', a', n) && ThreadInv(s', a', t)
    requires forall m: Node :: m in s'.owned ==> m < |s.refs|
    ensures Inv(s', a')
  {
    forall m: Node | m < |s.refs| && m != n ensures NodeInv(s', a', m) {
      LocalKeepsNode(s, a, s', a', t, n, m);
    }
    forall u | 0 <= u < |s.pcs| && u != t ensures ThreadInv(s', a', u) {
      LocalKeepsThread(s, a, s', a', t, n, u);
    }
  }

  // The node a step is about.
  function Target(s: State, t: nat, m: Move): Option<Node>
    requires t < |s.pcs|
  {
    match m
    case CallAdd(n) => Some(n)
    case CallTryGet => None
    case Advance => NodeOf(s.pcs[t])
  }

  lemma {:induction false} TotalsOf(s: State, s': State, t: nat, n: Node, k: Kind)
    requires t < |s.pcs| == |s'.pcs| && s'.pcs == s.pcs[t := s'.pcs[t]]
    ensures Total(s'.pcs, n, k) == Total(s.pcs, n, k) - Weight(s.pcs[t], n, k) + Weight(s'.pcs[t], n, k)
    ensures Weight(s.pcs[t], n, k) <= Total(s.pcs, n, k) <= |s.pcs|
  {
    TotalUpdate(s.pcs, t, s'.pcs[t], n, k);
    TotalBound(s.pcs, n, k);
  }

  // What a step relies on: its own node and thread, and the head of the list.
  ghost predicate Before(s: State, a: Aux, t: nat, m: Move, n: Node) {
    && SameNodes(s, a)
    && Enabled(s, t, m)
    && Target(s, t, m) == Some(n)
    && n < |s.refs|
    && NodeInv(s, a, n)
    && ThreadInv(s, a, t)
    && 2 * |s.pcs| + 1 < SHOULD_BE_ON_FREELIST
    && Exists(s, s.head)
    && s.head == (if a.list == [] then None else Some(a.list[0]))
  }

  lemma {:induction false} StepSparesOthers(s: State, a: Aux, t: nat, m: Move, n: Node, k: Node)
    requires Before(s, a, t, m, n) && Distinct(a.list) && k < |s.refs| && k != n
    ensures SameNodes(Step(s, t, m), AuxStep(s, a, t, m)) && |Step(s, t, m).refs| == |s.refs|
    ensures SameAt(s, a, Step(s, t, m), AuxStep(s, a, t, m), k)
  {
  }

  lemma {:induction false} StepKeepsSizes(s: State, a: Aux, t: nat, m: Move, n: Node)
    requires Before(s, a, t, m, n)
    ensures SameNodes(Step(s, t, m), AuxStep(s, a, t, m)) && |Step(s, t, m).refs| == |s.refs|
    ensures s.pcs[t := Step(s, t, m).pcs[t]] == Step(s, t, m).pcs
  {
  }

  lemma {:induction false} StepMovesNode(s: State, a: Aux, t: nat, m: Move, n: Node, s': State, a': Aux)
    requires Before(s, a, t, m, n) && s' == Step(s, t, m) && a' == AuxStep(s, a, t, m) && SameNodes(s', a') && |s'.refs| == |s.refs|
    ensures a'.place[n] == a.place[n] || Movable(a.place[n], t)
  {
    if m.Advance? && s.pcs[t].GetDrop? {
      TotalsOf(s, s', t, n, ListReference);
      TotalsOf(s, s', t, n, TemporaryReference);
    }
  }

  lemma {:induction false} StepSetsNext(s: State, a: Aux, t: nat, m: Move, n: Node)
    requires Before(s, a, t, m, n)
    ensures Step(s, t, m).next == s.next || (a.place[n] == Push(t) && Total(s.pcs, n, TemporaryReference) == 0)
  {
  }

  lemma {:induction false} StepIsLocal(s: State, a: Aux, t: nat, m: Move, n: Node)
    requires Before(s, a, t, m, n) && Distinct(a.list)
    ensures SameNodes(Step(s, t, m), AuxStep(s, a, t, m)) && |Step(s, t, m).refs| == |s.refs|
    ensures Local(s, a, Step(s, t, m), AuxStep(s, a, t, m), t, n)
  {
    var s', a' := Step(s, t, m), AuxStep(s, a, t, m);
    StepKeepsSizes(s, a, t, m, n);
    StepMovesNode(s, a, t, m, n, s', a');
    StepSetsNext(s, a, t, m, n);
    forall k: Node | k < |s.refs| && k != n ensures SameAt(s, a, s', a', k) {
      StepSparesOthers(s, a, t, m, n, k);
    }
  }

  lemma {:induction false} CallingStep(s: State, a: Aux, t: nat, m: Move, n: Node, s': State, a': Aux)
    requires Before(s, a, t, m, n) && m.CallAdd?
    requires s' == Step(s, t, m) && a' == AuxStep(s, a, t, m) && SameNodes(s', a') && |s'.refs| == |s.refs|
    ensures NodeInv(s', a', n) && ThreadInv(s', a', t)
  {
    TotalsOf(s, s', t, n, ListReference);
    TotalsOf(s, s', t, n, TemporaryReference);
  }

  lemma {:induction false} FlaggingStep(s: State, a: Aux, t: nat, n: Node, s': State, a': Aux)
    requires Before(s, a, t, Advance, n) && s.pcs[t].AddFlag?
    requires s' == Step(s, t, Advance) && a' == AuxStep(s, a, t, Advance) && SameNodes(s', a') && |s'.refs| == |s.refs|
    ensures NodeInv(s', a', n) && ThreadInv(s', a', t)
  {
    TotalsOf(s, s', t, n, ListReference);
    TotalsOf(s, s', t, n, TemporaryReference);
  }

  lemma {:induction false} StartingPushStep(s: State, a: Aux, t: nat, n: Node, s': State, a': Aux)
    requires Before(s, a, t, Advance, n) && (s.pcs[t].PushLoad? || s.pcs[t].PushSetNext?)
    requires s' == Step(s, t, Advance) && a' == AuxStep(s, a, t, Advance) && SameNodes(s', a') && |s'.refs| == |s.refs|
    ensures NodeInv(s', a', n) && ThreadInv(s', a', t)
  {
    TotalsOf(s, s', t, n, ListReference);
    TotalsOf(s, s', t, n, TemporaryReference);
  }

  lemma {:induction false} SettingRefsStep(s: State, a: Aux, t: nat, n: Node, s': State, a': Aux)
    requires Before(s, a, t, Advance, n) && (s.pcs[t].PushSetRefs?)
    requires s' == Step(s, t, Advance) && a' == AuxStep(s, a, t, Advance) && SameNodes(s', a') && |s'.refs| == |s.refs|
    ensures NodeInv(s', a', n) && ThreadInv(s', a', t)
  {
    TotalsOf(s, s', t, n, ListReference);
    TotalsOf(s, s', t, n, TemporaryReference);
  }

  lemma {:induction false} PushCasStep(s: State, a: Aux, t: nat, n: Node, s': State, a': Aux)
    requires Before(s, a, t, Advance, n) && s.pcs[t].PushCas?
    requires s' == Step(s, t, Advance) && a' == AuxStep(s, a, t, Advance) && SameNodes(s', a') && |s'.refs| == |s.refs|
    ensures NodeInv(s', a', n) && ThreadInv(s', a', t)
  {
    PushCasNode(s, a, t, n, s', a');
  }

  lemma {:induction false} PushCasNode(s: State, a: Aux, t: nat, n: Node, s': State, a': Aux)
    requires Before(s, a, t, Advance, n) && s.pcs[t].PushCas?
    requires s' == Step(s, t, Advance) && a' == AuxStep(s, a, t, Advance) && SameNodes(s', a') && |s'.refs| == |s.refs|
    ensures NodeInv(s', a', n)
  {
    TotalsOf(s, s', t, n, ListReference);
    TotalsOf(s, s', t, n, TemporaryReference);
  }

  lemma {:induction false} UndoingStep(s: State, a: Aux, t: nat, n: Node, s': State, a': Aux)
    requires Before(s, a, t, Advance, n) && (s.pcs[t].PushUndo?)
    requires s' == Step(s, t, Advance) && a' == AuxStep(s, a, t, Advance) && SameNodes(s', a') && |s'.refs| == |s.refs|
    ensures NodeInv(s', a', n) && ThreadInv(s', a', t)
  {
    TotalsOf(s, s', t, n, ListReference);
    TotalsOf(s, s', t, n, TemporaryReference);
  }

  lemma {:induction false} LookingStep(s: State, a: Aux, t: nat, n: Node, s': State, a': Aux)
    requires Before(s, a, t, Advance, n) && (s.pcs[t].GetRefs?)
    requires s' == Step(s, t, Advance) && a' == AuxStep(s, a, t, Advance) && SameNodes(s', a') && |s'.refs| == |s.refs|
    ensures NodeInv(s', a', n) && ThreadInv(s', a', t)
  {
    TotalsOf(s, s', t, n, ListReference);
    TotalsOf(s, s', t, n, TemporaryReference);
  }

  lemma {:induction false} TakingReferenceStep(s: State, a: Aux, t: nat, n: Node, s': State, a': Aux)
    requires Before(s, a, t, Advance, n) && s.pcs[t].GetIncr?
    requires s' == Step(s, t, Advance) && a' == AuxStep(s, a, t, Advance) && SameNodes(s', a') && |s'.refs| == |s.refs|
    ensures NodeInv(s', a', n) && ThreadInv(s', a', t)
  {
    if s.refs[n] == s.pcs[t].refs {
      assert s.pcs[t].refs % 0x8000_0000 != 0;
      TakenReferenceNode(s, a, t, n, s', a');
    } else {
      MissedReferenceNode(s, a, t, n, s', a');
    }
  }

  lemma {:induction false} TakenReferenceNode(s: State, a: Aux, t: nat, n: Node, s': State, a': Aux)
    requires Before(s, a, t, Advance, n) && s.pcs[t].GetIncr? && s.refs[n] == s.pcs[t].refs
    requires s' == Step(s, t, Advance) && a' == AuxStep(s, a, t, Advance) && SameNodes(s', a') && |s'.refs| == |s.refs|
    ensures NodeInv(s', a', n)
  {
    TotalsOf(s, s', t, n, ListReference);
    TotalsOf(s, s', t, n, TemporaryReference);
    assert s'.refs[n] == s.refs[n] + 1;
  }

  lemma {:induction false} MissedReferenceNode(s: State, a: Aux, t: nat, n: Node, s': State, a': Aux)
    requires Before(s, a, t, Advance, n) && s.pcs[t].GetIncr? && s.refs[n] != s.pcs[t].refs
    requires s' == Step(s, t, Advance) && a' == AuxStep(s, a, t, Advance) && SameNodes(s', a') && |s'.refs| == |s.refs|
    ensures NodeInv(s', a', n)
  {
    TotalsOf(s, s', t, n, ListReference);
    TotalsOf(s, s', t, n, TemporaryReference);
    assert s'.refs[n] == s.refs[n];
  }

  lemma {:induction false} ReadingNextStep(s: State, a: Aux, t: nat, n: Node, s': State, a': Aux)
    requires Before(s, a, t, Advance, n) && (s.pcs[t].GetNext?)
    requires s' == Step(s, t, Advance) && a' == AuxStep(s, a, t, Advance) && SameNodes(s', a') && |s'.refs| == |s.refs|
    ensures NodeInv(s', a', n) && ThreadInv(s', a', t)
  {
    TotalsOf(s, s', t, n, ListReference);
    TotalsOf(s, s', t, n, TemporaryReference);
  }

  lemma {:induction false} PopCasStep(s: State, a: Aux, t: nat, n: Node, s': State, a': Aux)
    requires Before(s, a, t, Advance, n) && s.pcs[t].GetCas? && Distinct(a.list)
    requires s' == Step(s, t, Advance) && a' == AuxStep(s, a, t, Advance) && SameNodes(s', a') && |s'.refs| == |s.refs|
    ensures NodeInv(s', a', n) && ThreadInv(s', a', t)
  {
    PopCasNode(s, a, t, n, s', a');
  }

  lemma {:induction false} PopCasNode(s: State, a: Aux, t: nat, n: Node, s': State, a': Aux)
    requires Before(s, a, t, Advance, n) && s.pcs[t].GetCas? && Distinct(a.list)
    requires s' == Step(s, t, Advance) && a' == AuxStep(s, a, t, Advance) && SameNodes(s', a') && |s'.refs| == |s.refs|
    ensures NodeInv(s', a', n)
  {
    TotalsOf(s, s', t, n, ListReference);
    TotalsOf(s, s', t, n, TemporaryReference);
  }

  lemma {:induction false} CheckingStep(s: State, a: Aux, t: nat, n: Node, s': State, a': Aux)
    requires Before(s, a, t, Advance, n) && (s.pcs[t].GetCheck?)
    requires s' == Step(s, t, Advance) && a' == AuxStep(s, a, t, Advance) && SameNodes(s', a') && |s'.refs| == |s.refs|
    ensures NodeInv(s', a', n) && ThreadInv(s', a', t)
  {
    TotalsOf(s, s', t, n, ListReference);
    TotalsOf(s, s', t, n, TemporaryReference);
  }

  lemma {:induction false} FinishingStep(s: State, a: Aux, t: nat, n: Node, s': State, a': Aux)
    requires Before(s, a, t, Advance, n) && (s.pcs[t].GetFinish?)
    requires s' == Step(s, t, Advance) && a' == AuxStep(s, a, t, Advance) && SameNodes(s', a') && |s'.refs| == |s.refs|
    ensures NodeInv(s', a', n) && ThreadInv(s', a', t)
  {
    TotalsOf(s, s', t, n, ListReference);
    TotalsOf(s, s', t, n, TemporaryReference);
  }

  lemma {:induction false} DroppingStep(s: State, a: Aux, t: nat, n: Node, s': State, a': Aux)
    requires Before(s, a, t, Advance, n) && (s.pcs[t].GetDrop?)
    requires s' == Step(s, t, Advance) && a' == AuxStep(s, a, t, Advance) && SameNodes(s', a') && |s'.refs| == |s.refs|
    ensures NodeInv(s', a', n) && ThreadInv(s', a', t)
  {
    DroppingNode(s, a, t, n, s', a');
  }

  lemma {:induction false} DroppingNode(s: State, a: Aux, t: nat, n: Node, s': State, a': Aux)
    requires Before(s, a, t, Advance, n) && (s.pcs[t].GetDrop?)
    requires s' == Step(s, t, Advance) && a' == AuxStep(s, a, t, Advance) && SameNodes(s', a') && |s'.refs| == |s.refs|
    ensures NodeInv(s', a', n)
  {
    if s.refs[n] == SHOULD_BE_ON_FREELIST + 1 {
      LastDropNode(s, a, t, n, s', a');
    } else {
      EarlyDropNode(s, a, t, n, s', a');
    }
  }

  lemma {:induction false} LastDropNode(s: State, a: Aux, t: nat, n: Node, s': State, a': Aux)
    requires Before(s, a, t, Advance, n) && s.pcs[t].GetDrop? && s.refs[n] == SHOULD_BE_ON_FREELIST + 1
    requires s' == Step(s, t, Advance) && a' == AuxStep(s, a, t, Advance) && SameNodes(s', a') && |s'.refs| == |s.refs|
    ensures NodeInv(s', a', n)
  {
    TotalsOf(s, s', t, n, ListReference);
    TotalsOf(s, s', t, n, TemporaryReference);
  }

  lemma {:induction false} EarlyDropNode(s: State, a: Aux, t: nat, n: Node, s': State, a': Aux)
    requires Before(s, a, t, Advance, n) && s.pcs[t].GetDrop? && s.refs[n] != SHOULD_BE_ON_FREELIST + 1
    requires s' == Step(s, t, Advance) && a' == AuxStep(s, a, t, Advance) && SameNodes(s', a') && |s'.refs| == |s.refs|
    ensures NodeInv(s', a', n)
  {
    TotalsOf(s, s', t, n, ListReference);
    TotalsOf(s, s', t, n, TemporaryReference);
  }

  lemma {:induction false} TargetStep(s: State, a: Aux, t: nat, m: Move, n: Node, s': State, a': Aux)
    requires Before(s, a, t, m, n) && Distinct(a.list)
    requires s' == Step(s, t, m) && a' == AuxStep(s, a, t, m) && SameNodes(s', a') && |s'.refs| == |s.refs|
    ensures NodeInv(s', a', n) && ThreadInv(s', a', t)
  {
    if m.CallAdd? {
      CallingStep(s, a, t, m, n, s', a');
    } else {
      match s.pcs[t]
      case AddFlag(_) => FlaggingStep(s, a, t, n, s', a');
      case PushLoad(_, _) => StartingPushStep(s, a, t, n, s', a');
      case PushSetNext(_, _, _) => StartingPushStep(s, a, t, n, s', a');
      case PushSetRefs(_, _, _) => SettingRefsStep(s, a, t, n, s', a');
      case PushCas(_, _, _) => PushCasStep(s, a, t, n, s', a');
      case PushUndo(_, _, _) => UndoingStep(s, a, t, n, s', a');
      case GetRefs(_) => LookingStep(s, a, t, n, s', a');
      case GetIncr(_, _) => TakingReferenceStep(s, a, t, n, s', a');
      case GetNext(_) => ReadingNextStep(s, a, t, n, s', a');
      case GetCas(_, _) => PopCasStep(s, a, t, n, s', a');
      case GetCheck(_) => CheckingStep(s, a, t, n, s', a');
      case GetFinish(_) => FinishingStep(s, a, t, n, s', a');
      case GetDrop(_, _) => DroppingStep(s, a, t, n, s', a');
    }
  }

  ghost predicate ListInv(s: State, list: seq<Node>) {
    && Linked(s.head, s.next, list)
    && Distinct(list)
    && forall n: Node :: n in list ==> n < |s.refs|
  }

  lemma {:induction false} SettingNextKeepsList(s: State, a: Aux, t: nat)
    requires Inv(s, a) && Enabled(s, t, Advance) && s.pcs[t].PushSetNext?
    ensures ListInv(Step(s, t, Advance), AuxStep(s, a, t, Advance).list)
  {
    var n := s.pcs[t].n;
    assert ThreadInv(s, a, t) && NodeInv(s, a, n);
    LinkedFrame(s.head, s.next, a.list, n, s.pcs[t].head);
    var s' := Step(s, t, Advance);
    assert s'.head == s.head && s'.next == s.next[n := s.pcs[t].head] && |s'.refs| == |s.refs|;
    assert AuxStep(s, a, t, Advance).list == a.list;
  }

  lemma {:induction false} PushKeepsList(s: State, a: Aux, t: nat)
    requires Inv(s, a) && Enabled(s, t, Advance) && s.pcs[t].PushCas?
    ensures ListInv(Step(s, t, Advance), AuxStep(s, a, t, Advance).list)
  {
    var n := s.pcs[t].n;
    assert ThreadInv(s, a, t) && NodeInv(s, a, n);
    assert ([n] + a.list)[1..] == a.list;
  }

  lemma {:induction false} PopKeepsList(s: State, a: Aux, t: nat)
    requires Inv(s, a) && Enabled(s, t, Advance) && s.pcs[t].GetCas?
    ensures ListInv(Step(s, t, Advance), AuxStep(s, a, t, Advance).list)
  {
    var s', n := Step(s, t, Advance), s.pcs[t].n;
    assert ThreadInv(s, a, t);
    if s.head == Some(n) {
      assert Linked(s.next[a.list[0]], s.next, a.list[1..]);
      assert s'.head == s.next[a.list[0]] && s'.next == s.next && AuxStep(s, a, t, Advance).list == a.list[1..];
      assert forall k: Node :: k in a.list[1..] ==> k in a.list;
    }
  }

  // The list after a step: pushed, popped, or the same nodes in the same order.
  lemma {:induction false} StepKeepsList(s: State, a: Aux, t: nat, m: Move)
    requires Inv(s, a) && Enabled(s, t, m) && (m.CallAdd? ==> m.n < |s.refs|)
    ensures ListInv(Step(s, t, m), AuxStep(s, a, t, m).list)
  {
    if m.Advance? && s.pcs[t].PushSetNext? {
      SettingNextKeepsList(s, a, t);
    } else if m.Advance? && s.pcs[t].PushCas? {
      PushKeepsList(s, a, t);
    } else if m.Advance? && s.pcs[t].GetCas? {
      PopKeepsList(s, a, t);
    }
  }

  // Every step of every thread keeps the invariant.
  lemma {:induction false} StepKeepsInv(s: State, a: Aux, t: nat, m: Move)
    requires Inv(s, a) && Enabled(s, t, m)
    ensures m.CallAdd? ==> m.n < |s.refs|
    ensures Inv(Step(s, t, m), AuxStep(s, a, t, m))
  {
    var s' := Step(s, t, m);
    var target := Target(s, t, m);
    if target == None {
      NodelessStep(s, a, t, m);
    } else {
      var n, a' := target.value, AuxStep(s, a, t, m);
      assert NodeInv(s, a, n) && ThreadInv(s, a, t);
      assert Exists(s, s.head) by { assert s.head.Some? ==> s.head.value in a.list; }
      StepIsLocal(s, a, t, m, n);
      TargetStep(s, a, t, m, n, s', a');
      StepKeepsList(s, a, t, m);
      LocalKeepsInv(s, a, s', a', t, n);
    }
  }

  lemma {:induction false} NodelessNode(s: State, a: Aux, t: nat, m: Move, n: Node)
    requires Inv(s, a) && Enabled(s, t, m) && Target(s, t, m) == None && n < |s.refs|
    ensures NodeInv(Step(s, t, m), a, n)
  {
    assert NodeInv(s, a, n);
    TotalsOf(s, Step(s, t, m), t, n, ListReference);
    TotalsOf(s, Step(s, t, m), t, n, TemporaryReference);
  }

  // A step that is about no node: entering `try_get`, and loading the head of the list.
  lemma {:induction false} NodelessStep(s: State, a: Aux, t: nat, m: Move)
    requires Inv(s, a) && Enabled(s, t, m) && Target(s, t, m) == None
    ensures Inv(Step(s, t, m), AuxStep(s, a, t, m))
  {
    var s' := Step(s, t, m);
    assert s.head.Some? ==> s.head.value in a.list;
    forall n: Node | n < |s.refs| ensures NodeInv(s', a, n) {
      NodelessNode(s, a, t, m, n);
    }
    forall u: nat | u < |s.pcs| ensures ThreadInv(s', a, u) {
      assert ThreadInv(s, a, u);
    }
  }

  lemma {:induction false} TotalOfIdle(pcs: seq<PC>, n: Node, k: Kind)
    requires forall t :: 0 <= t < |pcs| ==> pcs[t] == Idle
    ensures Total(pcs, n, k) == 0
  {
    if pcs != [] {
      TotalOfIdle(pcs[..|pcs| - 1], n, k);
    }
  }

  lemma {:induction false} InitInv(s: State)
    requires Init(s)
    ensures Inv(s, Aux([], seq(|s.refs|, _ => Caller)))
  {
    forall n: Node, k: Kind ensures Total(s.pcs, n, k) == 0 {
      TotalOfIdle(s.pcs, n, k);
    }
  }

  lemma {:induction false} CanStepKeepsInv(s: State, a: Aux, s': State) returns (a': Aux)
    requires Inv(s, a) && CanStep(s, s')
    ensures Inv(s', a')
  {
    var t, m :| Enabled(s, t, m) && s' == Step(s, t, m);
    StepKeepsInv(s, a, t, m);
    a' := AuxStep(s, a, t, m);
  }

  lemma {:induction false} RunKeepsInv(run: seq<State>, i: nat) returns (a: Aux)
    requires IsRun(run) && i < |run|
    ensures Inv(run[i], a)
  {
    if i == 0 {
      InitInv(run[0]);
      a := Aux([], seq(|run[0].refs|, _ => Caller));
    } else {
      a := RunKeepsInv(run, i - 1);
      assert StepAt(run, i);
      a := CanStepKeepsInv(run[i - 1], a, run[i]);
    }
  }

  // ---------------------------------------------------------------------------------------
  // Main results
  // ---------------------------------------------------------------------------------------

  lemma {:induction false} InvImpliesThreadSafe(s: State, a: Aux, t: nat)
    requires Inv(s, a) && t < |s.pcs|
    ensures ThreadSafe(s, a.list, s.pcs[t])
  {
    var pc := s.pcs[t];
    assert ThreadInv(s, a, t);
    if NodeOf(pc).Some? {
      assert NodeInv(s, a, pc.n);
      TotalBound(s.pcs, pc.n, ListReference);
      TotalBound(s.pcs, pc.n, TemporaryReference);
    }
  }

  lemma {:induction false} InvImpliesSafe(s: State, a: Aux)
    requires Inv(s, a)
    ensures SafeWith(s, a.list)
  {
    forall n: Node | n < |s.refs|
      ensures Listed(a.list, n) + Total(s.pcs, n, ListReference) <= 1
      ensures Count(s.refs[n]) == Listed(a.list, n) + Total(s.pcs, n, ListReference) + Total(s.pcs, n, TemporaryReference)
    {
      assert NodeInv(s, a, n);
      TotalBound(s.pcs, n, ListReference);
      TotalBound(s.pcs, n, TemporaryReference);
    }
    forall t: nat | t < |s.pcs| ensures ThreadSafe(s, a.list, s.pcs[t]) {
      InvImpliesThreadSafe(s, a, t);
    }
    forall t: nat, u: nat | t < u < |s.pcs| && Exclusive(s.pcs[t]) && Exclusive(s.pcs[u]) ensures s.pcs[t].n != s.pcs[u].n {
      assert ThreadInv(s, a, t) && ThreadInv(s, a, u);
    }
    forall n: Node | n in a.list ensures n < |s.refs| && n !in s.owned {
      assert NodeInv(s, a, n);
    }
  }

  // In every interleaving of any number of calls, every state is safe.
  lemma {:induction false} EveryRunIsSafe(run: seq<State>, i: nat)
    requires IsRun(run) && i < |run|
    ensures Safe(run[i])
  {
    var a := RunKeepsInv(run, i);
    InvImpliesSafe(run[i], a);
  }

  ghost predicate AllAtRest(s: State, list: seq<Node>) {
    && |s.refs| == |s.next|
    && Linked(s.head, s.next, list)
    && Distinct(list)
    && forall n: Node :: n < |s.refs| ==> (n in list <==> n !in s.owned) && s.refs[n] == Listed(list, n)
  }

  // No node is ever lost: once no call is in progress, every node is with a caller or on the
  // list, and carries exactly the list's reference if it is on the list.
  lemma {:induction false} NoNodeIsLost(run: seq<State>, i: nat)
    requires IsRun(run) && i < |run|
    requires forall t :: 0 <= t < |run[i].pcs| ==> run[i].pcs[t] == Idle
    ensures exists list :: AllAtRest(run[i], list)
  {
    var s := run[i];
    var a := RunKeepsInv(run, i);
    forall n: Node | n < |s.refs| ensures (n in a.list <==> n !in s.owned) && s.refs[n] == Listed(a.list, n) {
      assert NodeInv(s, a, n);
      TotalOfIdle(s.pcs, n, ListReference);
      TotalOfIdle(s.pcs, n, TemporaryReference);
    }
    assert AllAtRest(s, a.list);
  }

  // ---------------------------------------------------------------------------------------
  // What `try_get` answers
  // ---------------------------------------------------------------------------------------

  // Thread t has called `try_get` in the step to run[i], and has not returned before run[j].
  ghost predicate InTryGet(run: seq<State>, i: nat, j: nat, t: nat) {
    && 0 < i <= j < |run|
    && t < |run[i - 1].pcs| && run[i - 1].pcs[t].Idle?
    && t < |run[i].pcs| && run[i].pcs[t].GetLoad?
    && forall k :: i <= k < j ==> Working(run[k], t)
  }

  predicate Working(s: State, t: nat) { t < |s.pcs| && !s.pcs[t].Idle? }

  predicate InTheLoop(pc: PC) {
    match pc
    case Idle => false
    case AddFlag(_) => false
    case PushLoad(_, ret) => ret.ToLoop?
    case PushSetNext(_, _, ret) => ret.ToLoop?
    case PushSetRefs(_, _, ret) => ret.ToLoop?
    case PushCas(_, _, ret) => ret.ToLoop?
    case PushUndo(_, _, ret) => ret.ToLoop?
    case _ => true
  }

  // The head that the answer will rest on: the node that was popped, or null.
  function Seen(pc: PC): Option<Option<Node>> {
    if pc.GetCheck? || pc.GetFinish? then Some(Some(pc.n))
    else if pc.GetDrop? && pc.head.None? then Some(None)
    else if Pushing(pc) && pc.ret == ToLoop(None) then Some(None)
    else None
  }

  lemma {:induction false} TryGetStep(s: State, t: nat)
    requires Enabled(s, t, Advance) && InTheLoop(s.pcs[t])
    ensures var s' := Step(s, t, Advance);
      if s'.pcs[t].Idle?
      then t in s'.answers && s'.answers[t].Given? && Some(s'.answers[t].node) in {Some(s.head), Seen(s.pcs[t])}
      else InTheLoop(s'.pcs[t]) && (Seen(s'.pcs[t]).Some? ==> Seen(s'.pcs[t]) in {Some(s.head), Seen(s.pcs[t])})
  {
  }

  // A node that is returned is the caller's from then on.
  lemma {:induction false} TryGetHandsOver(s: State, t: nat)
    requires Enabled(s, t, Advance) && InTheLoop(s.pcs[t])
    ensures var s' := Step(s, t, Advance);
      s'.pcs[t].Idle? ==>
        && t in s'.answers && s'.answers[t].Given?
        && s'.owned == s.owned + (if s'.answers[t].node.Some? then {s'.answers[t].node.value} else {})
  {
  }

  ghost predicate HeadWas(run: seq<State>, i: nat, j: nat, h: Option<Node>) {
    exists k :: i <= k < j && k < |run| && run[k].head == h
  }

  lemma {:induction false} HeadWasLater(run: seq<State>, i: nat, j: nat, h: Option<Node>)
    requires i <= j < |run| && (HeadWas(run, i, j, h) || run[j].head == h)
    ensures HeadWas(run, i, j + 1, h)
  {
    if HeadWas(run, i, j, h) {
      var k :| i <= k < j && k < |run| && run[k].head == h;
    }
  }

  lemma {:induction false} StepSparesThreads(s: State, u: nat, m: Move, t: nat)
    requires Enabled(s, u, m) && t < |s.pcs| && t != u
    ensures |Step(s, u, m).pcs| == |s.pcs| && Step(s, u, m).pcs[t] == s.pcs[t]
  {
  }

  lemma {:induction false} StaysInTryGet(s: State, u: nat, m: Move, s': State, t: nat)
    requires Enabled(s, u, m) && s' == Step(s, u, m) && Working(s, t) && Working(s', t) && InTheLoop(s.pcs[t])
    ensures InTheLoop(s'.pcs[t]) && (Seen(s'.pcs[t]).Some? ==> Seen(s'.pcs[t]) in {Some(s.head), Seen(s.pcs[t])})
  {
    if u == t {
      TryGetStep(s, t);
    } else {
      StepSparesThreads(s, u, m, t);
    }
  }

  lemma {:induction false} LeavesTryGet(s: State, u: nat, m: Move, s': State, t: nat)
    requires Enabled(s, u, m) && s' == Step(s, u, m) && Working(s, t) && t < |s'.pcs| && s'.pcs[t].Idle? && InTheLoop(s.pcs[t])
    ensures t in s'.answers && s'.answers[t].Given? && Some(s'.answers[t].node) in {Some(s.head), Seen(s.pcs[t])}
    ensures s'.answers[t].node.Some? ==> s'.answers[t].node.value in s'.owned
  {
    if u == t {
      TryGetStep(s, t);
      TryGetHandsOver(s, t);
    } else {
      StepSparesThreads(s, u, m, t);
    }
  }

  lemma {:induction false} MoveOf(run: seq<State>, j: nat) returns (u: nat, m: Move)
    requires IsRun(run) && 0 < j < |run|
    ensures Enabled(run[j - 1], u, m) && run[j] == Step(run[j - 1], u, m)
  {
    assert StepAt(run, j);
    u, m :| Enabled(run[j - 1], u, m) && run[j] == Step(run[j - 1], u, m);
  }

  lemma {:induction false} RunStaysInTryGet(run: seq<State>, j: nat, t: nat)
    requires IsRun(run) && 0 < j < |run| && Working(run[j - 1], t) && Working(run[j], t) && InTheLoop(run[j - 1].pcs[t])
    ensures InTheLoop(run[j].pcs[t])
    ensures Seen(run[j].pcs[t]).Some? ==> Seen(run[j].pcs[t]) in {Some(run[j - 1].head), Seen(run[j - 1].pcs[t])}
  {
    var u, m := MoveOf(run, j);
    StaysInTryGet(run[j - 1], u, m, run[j], t);
  }

  lemma {:induction false} RunLeavesTryGet(run: seq<State>, j: nat, t: nat)
    requires IsRun(run) && 0 < j < |run| && Working(run[j - 1], t) && InTheLoop(run[j - 1].pcs[t])
    requires t < |run[j].pcs| && run[j].pcs[t].Idle?
    ensures t in run[j].answers && run[j].answers[t].Given?
    ensures Some(run[j].answers[t].node) in {Some(run[j - 1].head), Seen(run[j - 1].pcs[t])}
    ensures run[j].answers[t].node.Some? ==> run[j].answers[t].node.value in run[j].owned
  {
    var u, m := MoveOf(run, j);
    LeavesTryGet(run[j - 1], u, m, run[j], t);
  }

  lemma {:induction false} TryGetGoesOn(run: seq<State>, i: nat, j: nat, t: nat)
    requires IsRun(run) && InTryGet(run, i, j, t) && Working(run[j], t)
    ensures InTheLoop(run[j].pcs[t])
    ensures Seen(run[j].pcs[t]).Some? ==> HeadWas(run, i, j, Seen(run[j].pcs[t]).value)
    decreases j
  {
    if i < j {
      assert Working(run[j - 1], t);
      TryGetGoesOn(run, i, j - 1, t);
      RunStaysInTryGet(run, j, t);
      var seen := Seen(run[j].pcs[t]);
      if seen.Some? {
        HeadWasLater(run, i, j - 1, seen.value);
      }
    }
  }

  // Every call of `try_get` answers with what was the head at some moment of the call: null only
  // if the list was empty then, and otherwise with a node, which is the caller's from then on.
  lemma {:induction false} AnswerWasHead(run: seq<State>, i: nat, j: nat, t: nat)
    requires IsRun(run) && InTryGet(run, i, j, t) && i < j && t < |run[j].pcs| && run[j].pcs[t].Idle?
    ensures t in run[j].answers && run[j].answers[t].Given?
    ensures HeadWas(run, i, j, run[j].answers[t].node)
    ensures run[j].answers[t].node.Some? ==> run[j].answers[t].node.value in run[j].owned
  {
    assert Working(run[j - 1], t);
    TryGetGoesOn(run, i, j - 1, t);
    RunLeavesTryGet(run, j, t);
    HeadWasLater(run, i, j - 1, run[j].answers[t].node);
  }

  // ---------------------------------------------------------------------------------------
  // One call at a time
  // ---------------------------------------------------------------------------------------

  // Thread t runs alone until it is idle, for k steps at most.
  ghost function Alone(s: State, t: nat, k: nat): State
    decreases k
  {
    if k == 0 || !Enabled(s, t, Advance) then s else Alone(Step(s, t, Advance), t, k - 1)
  }

  lemma {:induction false} AloneGoesOn(s: State, t: nat, k: nat, s': State)
    requires Enabled(s, t, Advance) && s' == Step(s, t, Advance) && k > 0
    ensures Alone(s, t, k) == Alone(s', t, k - 1)
  {
  }

  lemma {:induction false} AloneIsDone(s: State, t: nat, k: nat)
    requires t < |s.pcs| && s.pcs[t].Idle?
    ensures Alone(s, t, k) == s
  {
  }

  // The steps of a push, one by one.
  lemma LonelyFlag(s: State, t: nat, n: Node, k: nat)
    requires t < |s.pcs| && s.pcs[t] == AddFlag(n) && n < |s.refs| == |s.next| && s.refs[n] == 0 && k > 0
    ensures Alone(s, t, k) == Alone(s.(pcs := s.pcs[t := PushLoad(n, ToCaller)], refs := s.refs[n := SHOULD_BE_ON_FREELIST]), t, k - 1)
  {
    AloneGoesOn(s, t, k, Step(s, t, Advance));
  }

  lemma LonelyLoad(s: State, t: nat, n: Node, k: nat)
    requires t < |s.pcs| && s.pcs[t] == PushLoad(n, ToCaller) && n < |s.refs| == |s.next| && k > 0
    ensures Alone(s, t, k) == Alone(s.(pcs := s.pcs[t := PushSetNext(n, s.head, ToCaller)]), t, k - 1)
  {
    AloneGoesOn(s, t, k, Step(s, t, Advance));
  }

  lemma LonelySetNext(s: State, t: nat, n: Node, h: Option<Node>, k: nat)
    requires t < |s.pcs| && s.pcs[t] == PushSetNext(n, h, ToCaller) && n < |s.refs| == |s.next| && k > 0
    ensures Alone(s, t, k) == Alone(s.(pcs := s.pcs[t := PushSetRefs(n, h, ToCaller)], next := s.next[n := h]), t, k - 1)
  {
    AloneGoesOn(s, t, k, Step(s, t, Advance));
  }

  lemma LonelySetRefs(s: State, t: nat, n: Node, h: Option<Node>, k: nat)
    requires t < |s.pcs| && s.pcs[t] == PushSetRefs(n, h, ToCaller) && n < |s.refs| == |s.next| && k > 0
    ensures Alone(s, t, k) == Alone(s.(pcs := s.pcs[t := PushCas(n, h, ToCaller)], refs := s.refs[n := 1]), t, k - 1)
  {
    AloneGoesOn(s, t, k, Step(s, t, Advance));
  }

  lemma LonelyPush(s: State, t: nat, n: Node, k: nat)
    requires t < |s.pcs| && s.pcs[t] == PushCas(n, s.head, ToCaller) && n < |s.refs| == |s.next| && k > 0
    ensures Alone(s, t, k) == s.(pcs := s.pcs[t := Idle], head := Some(n))
  {
    AloneGoesOn(s, t, k, Step(s, t, Advance));
    AloneIsDone(Step(s, t, Advance), t, k - 1);
  }

  // An `add` with nobody else about puts the node in front of the others.
  lemma {:induction false} LoneAdd(s: State, list: seq<Node>, t: nat, n: Node, k: nat)
    requires AllAtRest(s, list) && t < |s.pcs| && s.pcs[t].Idle? && n in s.owned && n < |s.refs| && k >= 5
    ensures Alone(Step(s, t, CallAdd(n)), t, k) == Added(s, n) && AllAtRest(Added(s, n), [n] + list)
  {
    AddedIsAtRest(s, list, n);
    LoneAddEnds(s, t, n, k, s.(pcs := s.pcs[t := AddFlag(n)], owned := s.owned - {n}));
  }

  lemma {:induction false} LoneAddEnds(s: State, t: nat, n: Node, k: nat, s0: State)
    requires t < |s.pcs| && s.pcs[t].Idle? && n < |s.refs| == |s.next| && s.refs[n] == 0 && k >= 5
    requires s0 == s.(pcs := s.pcs[t := AddFlag(n)], owned := s.owned - {n})
    ensures Alone(s0, t, k) == Added(s, n)
  {
    LonelyFlag(s0, t, n, k);
    var s1 := s0.(pcs := s0.pcs[t := PushLoad(n, ToCaller)], refs := s0.refs[n := SHOULD_BE_ON_FREELIST]);
    LonelyLoad(s1, t, n, k - 1);
    var s2 := s1.(pcs := s1.pcs[t := PushSetNext(n, s.head, ToCaller)]);
    LonelySetNext(s2, t, n, s.head, k - 2);
    var s3 := s2.(pcs := s2.pcs[t := PushSetRefs(n, s.head, ToCaller)], next := s2.next[n := s.head]);
    LonelySetRefs(s3, t, n, s.head, k - 3);
    var s4 := s3.(pcs := s3.pcs[t := PushCas(n, s.head, ToCaller)], refs := s3.refs[n := 1]);
    LonelyPush(s4, t, n, k - 4);
    assert s4.pcs[t := Idle] == s.pcs && s4.refs == s.refs[n := 1];
  }

  ghost function Added(s: State, n: Node): State
    requires n < |s.refs| == |s.next|
  {
    s.(head := Some(n), refs := s.refs[n := 1], next := s.next[n := s.head], owned := s.owned - {n})
  }

  lemma {:induction false} AddedIsAtRest(s: State, list: seq<Node>, n: Node)
    requires AllAtRest(s, list) && n in s.owned && n < |s.refs|
    ensures AllAtRest(Added(s, n), [n] + list)
  {
    LinkedFrame(s.head, s.next, list, n, s.head);
    assert ([n] + list)[1..] == list;
  }

  // The steps of a pop, one by one.
  lemma LonelyRefs(s: State, t: nat, n: Node, k: nat)
    requires t < |s.pcs| && n < |s.refs| == |s.next| && s.pcs[t] == GetRefs(n) && s.refs[n] == 1 && k > 0
    ensures Alone(s, t, k) == Alone(s.(pcs := s.pcs[t := GetIncr(n, 1)]), t, k - 1)
  {
    AloneGoesOn(s, t, k, Step(s, t, Advance));
  }

  lemma LonelyIncr(s: State, t: nat, n: Node, k: nat)
    requires t < |s.pcs| && n < |s.refs| == |s.next| && s.pcs[t] == GetIncr(n, 1) && s.refs[n] == 1 && k > 0
    ensures Alone(s, t, k) == Alone(s.(pcs := s.pcs[t := GetNext(n)], refs := s.refs[n := 2]), t, k - 1)
  {
    AloneGoesOn(s, t, k, Step(s, t, Advance));
  }

  lemma LonelyNext(s: State, t: nat, n: Node, k: nat)
    requires t < |s.pcs| && n < |s.refs| == |s.next| && s.pcs[t] == GetNext(n) && k > 0
    ensures Alone(s, t, k) == Alone(s.(pcs := s.pcs[t := GetCas(n, s.next[n])]), t, k - 1)
  {
    AloneGoesOn(s, t, k, Step(s, t, Advance));
  }

  lemma LonelyCas(s: State, t: nat, n: Node, k: nat)
    requires t < |s.pcs| && n < |s.refs| == |s.next| && s.pcs[t] == GetCas(n, s.next[n]) && s.head == Some(n) && k > 0
    ensures Alone(s, t, k) == Alone(s.(pcs := s.pcs[t := GetCheck(n)], head := s.next[n]), t, k - 1)
  {
    AloneGoesOn(s, t, k, Step(s, t, Advance));
  }

  lemma LonelyCheck(s: State, t: nat, n: Node, k: nat)
    requires t < |s.pcs| && n < |s.refs| == |s.next| && s.pcs[t] == GetCheck(n) && k > 0
    ensures Alone(s, t, k) == Alone(s.(pcs := s.pcs[t := GetFinish(n)]), t, k - 1)
  {
    AloneGoesOn(s, t, k, Step(s, t, Advance));
  }

  lemma LonelyFinish(s: State, t: nat, n: Node, k: nat)
    requires t < |s.pcs| && n < |s.refs| == |s.next| && s.pcs[t] == GetFinish(n) && s.refs[n] == 2 && k > 0
    ensures Alone(s, t, k) ==
      s.(pcs := s.pcs[t := Idle], refs := s.refs[n := 0], owned := s.owned + {n}, answers := s.answers[t := Given(Some(n))])
  {
    AloneGoesOn(s, t, k, Step(s, t, Advance));
    AloneIsDone(Step(s, t, Advance), t, k - 1);
  }

  lemma LonelyGetLoad(s: State, t: nat, k: nat)
    requires t < |s.pcs| && s.pcs[t].GetLoad? && k > 0
    ensures Alone(s, t, k) ==
      if s.head.None? then s.(pcs := s.pcs[t := Idle], answers := s.answers[t := Given(None)])
      else Alone(s.(pcs := s.pcs[t := GetRefs(s.head.value)]), t, k - 1)
  {
    AloneGoesOn(s, t, k, Step(s, t, Advance));
    if s.head.None? {
      AloneIsDone(Step(s, t, Advance), t, k - 1);
    }
  }

  // A `try_get` with nobody else about returns the first node of the list, or null if there is none.
  lemma {:induction false} LoneTryGet(s: State, list: seq<Node>, t: nat, k: nat)
    requires AllAtRest(s, list) && t < |s.pcs| && s.pcs[t].Idle? && k >= 7
    ensures list == [] ==> Alone(Step(s, t, CallTryGet), t, k) == s.(answers := s.answers[t := Given(None)])
    ensures list != [] ==> Alone(Step(s, t, CallTryGet), t, k) == Taken(s, t, list[0]) && AllAtRest(Taken(s, t, list[0]), list[1..])
  {
    var s0 := s.(pcs := s.pcs[t := GetLoad], answers := s.answers[t := Pending]);
    LonelyGetLoad(s0, t, k);
    if list == [] {
      assert s0.pcs[t := Idle] == s.pcs;
      assert s0.answers[t := Given(None)] == s.answers[t := Given(None)];
    } else {
      var s1 := s.(pcs := s.pcs[t := GetRefs(list[0])], answers := s.answers[t := Pending]);
      assert s1.pcs == s0.pcs[t := GetRefs(list[0])];
      LonePopEnds(s, t, list[0], k - 1, s1);
      PoppedIsAtRest(s, list, t);
    }
  }

  lemma {:induction false} LonePopStarts(s: State, t: nat, n: Node, k: nat, s1: State, s4: State)
    requires t < |s.pcs| && n < |s.refs| == |s.next| && s.refs[n] == 1 && k >= 3
    requires s1 == s.(pcs := s.pcs[t := GetRefs(n)])
    requires s4 == s.(pcs := s.pcs[t := GetCas(n, s.next[n])], refs := s.refs[n := 2])
    ensures Alone(s1, t, k) == Alone(s4, t, k - 3)
  {
    var s2 := s1.(pcs := s1.pcs[t := GetIncr(n, 1)]);
    LonelyRefs(s1, t, n, k);
    var s3 := s2.(pcs := s2.pcs[t := GetNext(n)], refs := s2.refs[n := 2]);
    LonelyIncr(s2, t, n, k - 1);
    LonelyNext(s3, t, n, k - 2);
    assert s3.pcs[t := GetCas(n, s3.next[n])] == s4.pcs;
  }

  lemma {:induction false} LonePopEnds(s: State, t: nat, n: Node, k: nat, s1: State)
    requires t < |s.pcs| && s.pcs[t].Idle? && n < |s.refs| == |s.next| && s.head == Some(n) && s.refs[n] == 1 && k >= 6
    requires s1 == s.(pcs := s.pcs[t := GetRefs(n)], answers := s.answers[t := Pending])
    ensures Alone(s1, t, k) == Taken(s, t, n)
  {
    var s4 := s.(pcs := s.pcs[t := GetCas(n, s.next[n])], refs := s.refs[n := 2], answers := s.answers[t := Pending]);
    LonePopStarts(s.(answers := s.answers[t := Pending]), t, n, k, s1, s4);
    LonelyCas(s4, t, n, k - 3);
    var s5 := s4.(pcs := s4.pcs[t := GetCheck(n)], head := s.next[n]);
    LonelyCheck(s5, t, n, k - 4);
    var s6 := s5.(pcs := s5.pcs[t := GetFinish(n)]);
    LonelyFinish(s6, t, n, k - 5);
    assert s6.pcs[t := Idle] == s.pcs && s6.refs[n := 0] == s.refs[n := 0];
    assert s6.answers[t := Given(Some(n))] == s.answers[t := Given(Some(n))];
  }

  ghost function Taken(s: State, t: nat, n: Node): State
    requires n < |s.refs| == |s.next|
  {
    s.(head := s.next[n], refs := s.refs[n := 0], owned := s.owned + {n}, answers := s.answers[t := Given(Some(n))])
  }

  lemma {:induction false} PoppedIsAtRest(s: State, list: seq<Node>, t: nat)
    requires AllAtRest(s, list) && list != []
    ensures AllAtRest(Taken(s, t, list[0]), list[1..])
  {
    var rest := list[1..];
    forall n: Node | n < |s.refs| ensures n in rest <==> n in list && n != list[0] {
      if n in list && n != list[0] {
        var i :| 0 <= i < |list| && list[i] == n;
        assert rest[i - 1] == n;
      }
    }
  }

  // So a node that was added is what the next call gives back.
  lemma {:induction false} AddThenTryGet(s: State, list: seq<Node>, t: nat, u: nat, n: Node, k: nat)
    requires AllAtRest(s, list) && n in s.owned && n < |s.refs| && k >= 7
    requires t < |s.pcs| && s.pcs[t].Idle? && u < |s.pcs| && s.pcs[u].Idle?
    ensures var s' := Alone(Step(s, t, CallAdd(n)), t, k);
      && Enabled(s', u, CallTryGet)
      && var s'' := Alone(Step(s', u, CallTryGet), u, k);
         s''.pcs == s.pcs && s''.answers == s.answers[u := Given(Some(n))] && s''.owned == s.owned && AllAtRest(s'', list)
  {
    LoneAdd(s, list, t, n, k);
    LoneTryGet(Added(s, n), [n] + list, u, k);
    assert ([n] + list)[1..] == list;
  }
}
